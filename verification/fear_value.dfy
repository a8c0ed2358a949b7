/** The rules that read and change the fear value held by the game system:
    the read fallback used while rendering, the token-click rule and the
    +/- buttons. Settings reads are inputs; an intended write is an
    `Option<int>` output (None: nothing is written). */
module FearValue {
  import opened Wrappers

  /** Maximum used when the game system's homebrew setting gives none. */
  const DefaultMax: int := 6

  /** What the game system's settings answer: the current fear, and the homebrew
      record's `maxFear` (None when the record or the field is missing). Either
      read may throw; the homebrew read happens only after the fear read. */
  datatype SystemSettings = SystemSettings(fear: Lookup<int>, homebrewMax: Lookup<Option<int>>)

  /** `homebrew?.maxFear || 6`: a missing or zero maximum falls back to 6.
      A negative maximum is passed through, as the source does not guard it. */
  function EffectiveMax(homebrewMax: Option<int>): (m: int)
    ensures m != 0
    ensures m == DefaultMax <==> (homebrewMax.None? || homebrewMax.value in {0, DefaultMax})
    ensures homebrewMax.Some? && homebrewMax.value != 0 ==> m == homebrewMax.value
  {
    match homebrewMax
    case Some(v) => if v != 0 then v else DefaultMax
    case None => DefaultMax
  }

  /** The (current, max) pair the panel renders. A failed read keeps the defaults
      0 and 6 for whatever was not read yet and never propagates. */
  function ReadForRender(s: SystemSettings): (r: (int, int))
    ensures r.1 != 0
    ensures s.fear.Threw? ==> r == (0, DefaultMax)
    ensures s.fear.Got? ==> r.0 == s.fear.value
    ensures s.homebrewMax.Threw? ==> r.1 == DefaultMax
    ensures s.fear.Got? && s.homebrewMax.Got? ==> r.1 == EffectiveMax(s.homebrewMax.value)
  {
    match s.fear
    case Threw => (0, DefaultMax)
    case Got(current) =>
      match s.homebrewMax
      case Threw => (current, DefaultMax)
      case Got(m) => (current, EffectiveMax(m))
  }

  /** The value a click on token `index` aims at, before the write check:
      `index + 1`, except that the first token toggles a lone active token off;
      then clamped below by 0 and above by `max`, in that order. */
  function ClickTarget(index: int, current: int, max: int): (t: int)
    ensures max >= 0 ==> 0 <= t <= max
    ensures max < 0 ==> t == max
    ensures index == 0 && current == 1 && max >= 0 ==> t == 0
    ensures !(index == 0 && current == 1) && 0 <= index + 1 <= max ==> t == index + 1
    ensures !(index == 0 && current == 1) && index + 1 > max ==> t == max
  {
    var raw := if index == 0 && current == 1 then 0 else index + 1;
    var low := if raw < 0 then 0 else raw;
    if low > max then max else low
  }

  /** Clicking token `index`: only a GM writes, nothing is written when a settings
      read throws, and the write is skipped when it would not change the value. */
  function TokenClick(isGM: bool, index: int, s: SystemSettings): (w: Option<int>)
    ensures w.Some? <==> isGM && s.fear.Got? && s.homebrewMax.Got?
                         && ClickTarget(index, s.fear.value, EffectiveMax(s.homebrewMax.value)) != s.fear.value
    ensures w.Some? ==> w.value == ClickTarget(index, s.fear.value, EffectiveMax(s.homebrewMax.value))
    ensures w.Some? ==> w.value != s.fear.value
    ensures w.Some? && EffectiveMax(s.homebrewMax.value) >= 0 ==> 0 <= w.value <= EffectiveMax(s.homebrewMax.value)
  {
    if !isGM then None
    else match (s.fear, s.homebrewMax)
      case (Got(current), Got(hb)) =>
        var target := ClickTarget(index, current, EffectiveMax(hb));
        if target != current then Some(target) else None
      case _ => None
  }

  /** The + button: a GM raises the fear by one while it is below the maximum. */
  function Increase(isGM: bool, s: SystemSettings): (w: Option<int>)
    ensures w.Some? <==> isGM && s.fear.Got? && s.homebrewMax.Got?
                         && s.fear.value < EffectiveMax(s.homebrewMax.value)
    ensures w.Some? ==> w.value == s.fear.value + 1 && w.value <= EffectiveMax(s.homebrewMax.value)
  {
    if !isGM then None
    else match (s.fear, s.homebrewMax)
      case (Got(current), Got(hb)) =>
        if current < EffectiveMax(hb) then Some(current + 1) else None
      case _ => None
  }

  /** The - button: a GM lowers the fear by one while it is above zero. The homebrew
      setting is not read, so its failure does not matter. */
  function Decrease(isGM: bool, s: SystemSettings): (w: Option<int>)
    ensures w.Some? <==> isGM && s.fear.Got? && s.fear.value > 0
    ensures w.Some? ==> w.value == s.fear.value - 1 && w.value >= 0
  {
    if !isGM then None
    else match s.fear
      case Got(current) => if current > 0 then Some(current - 1) else None
      case Threw => None
  }

  /** The same settings with the fear value replaced by a written one. */
  function WithFear(s: SystemSettings, v: int): SystemSettings {
    s.(fear := Got(v))
  }

  /** + then - is the identity on a non-negative fear value. */
  lemma IncreaseThenDecrease(s: SystemSettings)
    requires Increase(true, s).Some? && s.fear.value >= 0
    ensures Decrease(true, WithFear(s, Increase(true, s).value)) == Some(s.fear.value)
  {
  }

  /** - then + is the identity on the fear value, when the value was within the maximum. */
  lemma DecreaseThenIncrease(s: SystemSettings)
    requires Decrease(true, s).Some? && s.homebrewMax.Got?
    requires s.fear.value <= EffectiveMax(s.homebrewMax.value)
    ensures Increase(true, WithFear(s, Decrease(true, s).value)) == Some(s.fear.value)
  {
  }

  /** From a value within [0, max], one click of either button writes a value within [0, max]. */
  lemma ButtonsKeepRange(isGM: bool, s: SystemSettings)
    requires s.fear.Got? && s.homebrewMax.Got?
    requires 0 <= s.fear.value <= EffectiveMax(s.homebrewMax.value)
    ensures Increase(isGM, s).Some? ==> 0 <= Increase(isGM, s).value <= EffectiveMax(s.homebrewMax.value)
    ensures Decrease(isGM, s).Some? ==> 0 <= Decrease(isGM, s).value <= EffectiveMax(s.homebrewMax.value)
  {
  }

  /** Clicking token `index > 0` twice writes once: the second click finds its target reached. */
  lemma ClickIdempotent(index: int, s: SystemSettings)
    requires s.homebrewMax.Got? && TokenClick(true, index, s).Some?
    requires index != 0
    ensures TokenClick(true, index, WithFear(s, TokenClick(true, index, s).value)).None?
  {
  }

  /** The first token toggles: with the maximum at least 1, a click on it from any value
      other than 1 sets 1, and a click on it at 1 clears the fear to 0. */
  lemma FirstTokenToggles(s: SystemSettings)
    requires s.fear.Got? && s.homebrewMax.Got? && EffectiveMax(s.homebrewMax.value) >= 1
    ensures s.fear.value == 1 ==> TokenClick(true, 0, s) == Some(0)
    ensures s.fear.value != 1 ==> TokenClick(true, 0, s) == Some(1)
    ensures s.fear.value != 1 ==> TokenClick(true, 0, WithFear(s, 1)) == Some(0)
  {
  }
}
