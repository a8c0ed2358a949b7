/** String helpers with the JavaScript meaning the tracker relies on:
    `includes`, ASCII `toLowerCase` on the letters that matter, `split(' ')`,
    `trim() !== ''` and the DOM's ASCII-whitespace rule for class tokens. */
module Text {

  /** `sub` occurs in `s` starting at position `i`. */
  predicate OccursAt(s: string, sub: string, i: int) {
    0 <= i && i + |sub| <= |s| && s[i..i + |sub|] == sub
  }

  /** JavaScript `s.includes(sub)`. */
  function Contains(s: string, sub: string): (r: bool)
    ensures r <==> exists i :: OccursAt(s, sub, i)
    decreases |s|
  {
    if |s| < |sub| then
      assert forall i :: !OccursAt(s, sub, i);
      false
    else if s[..|sub|] == sub then
      assert OccursAt(s, sub, 0);
      true
    else
      var rest := Contains(s[1..], sub);
      assert forall j :: OccursAt(s[1..], sub, j) <==> OccursAt(s, sub, j + 1) by {
        forall j ensures OccursAt(s[1..], sub, j) <==> OccursAt(s, sub, j + 1) {
          if 0 <= j && j + |sub| <= |s| - 1 {
            assert s[1..][j..j + |sub|] == s[j + 1..j + 1 + |sub|];
          }
        }
      }
      assert !OccursAt(s, sub, 0);
      assert forall i :: OccursAt(s, sub, i) ==> i >= 1 && OccursAt(s[1..], sub, i - 1);
      rest
  }

  /** Lower-casing of one character, restricted to ASCII letters. */
  function LowerChar(c: char): char {
    if 'A' <= c <= 'Z' then (c as int + 32) as char else c
  }

  /** `s.toLowerCase()` on ASCII letters. No other character of the Unicode repertoire
      lower-cases to a single one of the letters of "gradient", so the tracker's
      gradient test sees the same answer as with full Unicode case mapping. */
  function Lower(s: string): (r: string)
    ensures |r| == |s|
    ensures forall i :: 0 <= i < |s| ==> r[i] == LowerChar(s[i])
  {
    seq(|s|, i requires 0 <= i < |s| => LowerChar(s[i]))
  }

  /** A string with no upper-case ASCII letter. */
  predicate IsLowerCase(w: string) {
    forall i :: 0 <= i < |w| ==> !('A' <= w[i] <= 'Z')
  }

  /** A case-sensitive match of a lower-case word is also found case-insensitively:
      whatever `includes('gradient')` accepts, `toLowerCase().includes('gradient')` accepts. */
  lemma ContainsImpliesContainsLower(s: string, w: string)
    requires IsLowerCase(w)
    requires Contains(s, w)
    ensures Contains(Lower(s), w)
  {
    var i :| OccursAt(s, w, i);
    assert Lower(s)[i..i + |w|] == w by {
      forall k | 0 <= k < |w|
        ensures Lower(s)[i..i + |w|][k] == w[k]
      {
        assert s[i + k] == w[k];
      }
    }
    assert OccursAt(Lower(s), w, i);
  }

  /** JavaScript `s.split(sep)` for a one-character separator: the pieces between
      separators, including empty ones; the empty string gives one empty piece. */
  function Split(s: string, sep: char): (r: seq<string>)
    ensures |r| >= 1
    ensures forall k :: 0 <= k < |r| ==> sep !in r[k]
    decreases |s|
  {
    if |s| == 0 then [""]
    else
      var rest := Split(s[1..], sep);
      if s[0] == sep then [""] + rest
      else [[s[0]] + rest[0]] + rest[1..]
  }

  /** `parts.join(sep)`. */
  function Join(parts: seq<string>, sep: char): string
    requires |parts| >= 1
    decreases |parts|
  {
    if |parts| == 1 then parts[0] else parts[0] + [sep] + Join(parts[1..], sep)
  }

  /** Splitting loses nothing: joining the pieces back gives the original string. */
  lemma {:induction false} JoinSplit(s: string, sep: char)
    ensures Join(Split(s, sep), sep) == s
    decreases |s|
  {
    if |s| > 0 {
      var rest := Split(s[1..], sep);
      JoinSplit(s[1..], sep);
      if s[0] == sep {
        assert Split(s, sep)[1..] == rest;
        assert s == [sep] + s[1..];
      } else {
        var r := Split(s, sep);
        if |rest| == 1 {
          assert r == [[s[0]] + rest[0]];
        } else {
          assert r[1..] == rest[1..];
          assert Join(r, sep) == [s[0]] + rest[0] + [sep] + Join(rest[1..], sep);
        }
        assert s == [s[0]] + s[1..];
      }
    }
  }

  /** Characters removed by JavaScript `trim()`: WhiteSpace and LineTerminator
      (section 12.2 and 12.3 of ECMA-262). */
  predicate IsJsSpace(c: char) {
    c == '\t' || c == '\n' || c == '\U{B}' || c == '\U{C}' || c == '\r' || c == ' '
    || c == '\U{A0}' || c == '\U{1680}' || ('\U{2000}' <= c <= '\U{200A}')
    || c == '\U{2028}' || c == '\U{2029}' || c == '\U{202F}' || c == '\U{205F}'
    || c == '\U{3000}' || c == '\U{FEFF}'
  }

  /** `t.trim() === ''`: every character is one `trim()` removes (`BlankIffTrimEmpty`). */
  predicate IsBlank(t: string) {
    forall i :: 0 <= i < |t| ==> IsJsSpace(t[i])
  }

  /** `s.trimStart()`: the suffix left after dropping the leading trimmable characters. */
  function TrimStart(s: string): (r: string)
    ensures |r| <= |s| && r == s[|s| - |r|..]
    ensures forall i :: 0 <= i < |s| - |r| ==> IsJsSpace(s[i])
    ensures r == [] || !IsJsSpace(r[0])
    decreases |s|
  {
    if |s| > 0 && IsJsSpace(s[0]) then TrimStart(s[1..]) else s
  }

  /** `s.trimEnd()`: the prefix left after dropping the trailing trimmable characters. */
  function TrimEnd(s: string): (r: string)
    ensures |r| <= |s| && r == s[..|r|]
    ensures forall i :: |r| <= i < |s| ==> IsJsSpace(s[i])
    ensures r == [] || !IsJsSpace(r[|r| - 1])
    decreases |s|
  {
    if |s| > 0 && IsJsSpace(s[|s| - 1]) then TrimEnd(s[..|s| - 1]) else s
  }

  /** `s.trim()`: both ends stripped. */
  function Trim(s: string): string {
    TrimEnd(TrimStart(s))
  }

  /** The blank filter is the `trim()` test: a class piece is dropped exactly when
      trimming it leaves the empty string. */
  lemma BlankIffTrimEmpty(t: string)
    ensures IsBlank(t) <==> Trim(t) == ""
  {
  }

  /** ASCII whitespace in the sense of the DOM standard: a class token containing
      one of these makes `classList.add` throw. */
  predicate IsAsciiSpace(c: char) {
    c == '\t' || c == '\n' || c == '\U{C}' || c == '\r' || c == ' '
  }

  predicate HasAsciiSpace(t: string) {
    exists i :: 0 <= i < |t| && IsAsciiSpace(t[i])
  }
}
