/** The render model the floating panel derives on every render: the bar's
    width and background, the ordered token list with each token's background,
    and the icon markup. Styles are structured records, not CSS text. */
module Render {
  import opened Wrappers
  import opened Text
  import opened FearValue

  /** The two colours of a named theme's left-to-right gradient. */
  datatype Theme = Theme(start: string, end: string)

  /** The named themes; both the bar and the tokens consult this one table. */
  const Themes: map<string, Theme> := map[
    "hope-fear" := Theme("#FFC107", "#512DA8"),
    "blood-moon" := Theme("#5c0000", "#ff0000"),
    "ethereal" := Theme("#00FFFF", "#0000FF"),
    "toxic" := Theme("#00FF00", "#FFFF00"),
    "foundryborne" := Theme("#0a388c", "#791d7d")
  ]

  const CustomTheme: string := "custom"
  const InactiveColor: string := "#444"
  const FallbackColor: string := "#cf0000"
  const FallbackSvg: string := "icons/svg/mystery-man.svg"
  const DefaultIconClass: string := "fas fa-skull"
  const PlainWhite: string := "#ffffff"

  /** A background image: a theme's 90-degree linear gradient or a user-supplied CSS value. */
  datatype Image = Linear(start: string, end: string) | Css(text: string)

  /** A token's background: a flat colour, or a gradient stretched to `sizePct` percent of
      the token's width and shifted to the `posPct` background position. */
  datatype TokenStyle =
    | Flat(color: string)
    | GradientWindow(image: Image, sizePct: int, posPct: real)

  /** The fill of the bar: its width as a percentage and its background. */
  datatype BarStyle = BarStyle(widthPct: real, background: Image)

  /** How an icon glyph is coloured. */
  datatype IconStyle = Unstyled | TextColor(color: string) | ClippedGradient(gradient: string)

  /** An icon: an image with a source, or a glyph given by a class string. */
  datatype IconMarkup = Img(src: string) | Glyph(classes: string, style: IconStyle)

  datatype FearToken = FearToken(index: int, active: bool, icon: IconMarkup, style: TokenStyle)

  /** The panel's own settings, as read when rendering. */
  datatype PanelSettings = PanelSettings(
    minimized: bool, locked: bool,
    iconShape: string, iconType: string, colorTheme: string, viewMode: string,
    showFearNumber: bool, showControlButtons: bool, progressBarColor: string,
    presetIcon: string, customIcon: string, customSvgPath: string,
    iconColor: string, fullColor: string)

  datatype RenderContext = RenderContext(
    isGM: bool, isMinimized: bool, isLocked: bool,
    currentFear: int, maxFear: int,
    fearTokens: seq<FearToken>,
    iconShape: string, showFearValue: bool, showControlButtons: bool,
    useBar: bool, barStyle: Option<BarStyle>)

  // ---------------------------------------------------------------- bar

  /** Where the fear-to-maximum ratio lies, for a positive maximum. */
  lemma RatioBounds(c: int, m: int)
    requires 0 < m
    ensures 0 <= c ==> 0.0 <= (c as real) / (m as real)
    ensures c <= 0 ==> (c as real) / (m as real) <= 0.0
    ensures c <= m ==> (c as real) / (m as real) <= 1.0
    ensures m <= c ==> 1.0 <= (c as real) / (m as real)
  {
    var q := (c as real) / (m as real);
    assert q * (m as real) == c as real;
  }

  /** Filled share of the bar, in percent, clamped to [0, 100]. */
  function BarPercent(current: int, max: int): (p: real)
    requires max != 0
    ensures 0.0 <= p <= 100.0
    ensures 0 <= current <= max ==> p == (current as real) / (max as real) * 100.0
    ensures 0 < max <= current ==> p == 100.0
    ensures current <= 0 < max ==> p == 0.0
  {
    var raw := (current as real) / (max as real) * 100.0;
    if max > 0 then RatioBounds(current, max); Clamp100(raw)
    else Clamp100(raw)
  }

  /** `Math.min(100, Math.max(0, x))`. */
  function Clamp100(x: real): (p: real)
    ensures 0.0 <= p <= 100.0
    ensures 0.0 <= x <= 100.0 ==> p == x
    ensures x <= 0.0 ==> p == 0.0
    ensures 100.0 <= x ==> p == 100.0
  {
    var atLeast0 := if x < 0.0 then 0.0 else x;
    if atLeast0 > 100.0 then 100.0 else atLeast0
  }

  /** More fear never shrinks the bar. */
  lemma BarMonotone(a: int, b: int, max: int)
    requires 0 < max && a <= b
    ensures BarPercent(a, max) <= BarPercent(b, max)
  {
    assert (a as real) / (max as real) <= (b as real) / (max as real);
  }

  /** The bar's background: a named theme's gradient, else the configured bar colour
      (for the custom theme and for names outside the table). */
  function BarBackground(theme: string, progressBarColor: string): (img: Image)
    ensures theme != CustomTheme && theme in Themes ==> img == Linear(Themes[theme].start, Themes[theme].end)
    ensures theme == CustomTheme || theme !in Themes ==> img == Css(progressBarColor)
  {
    if theme != CustomTheme && theme in Themes then Linear(Themes[theme].start, Themes[theme].end)
    else Css(progressBarColor)
  }

  /** For a named theme the bar and the lit tokens paint the same gradient. */
  lemma BarMatchesTokens(index: int, total: int, theme: string, fullColor: string, progressBarColor: string)
    requires theme in Themes
    ensures var st := TokenBackground(index, total, theme, true, fullColor);
            st.GradientWindow? && st.image == BarBackground(theme, progressBarColor)
  {
  }

  // ---------------------------------------------------------------- tokens

  /** Background position of token `index` among `total`: spread evenly from 0 % to
      100 %, and 0 % for a single token (no division by zero). */
  function PosPercent(index: int, total: int): (p: real)
    ensures total <= 1 ==> p == 0.0
    ensures 0 <= index < total ==> 0.0 <= p <= 100.0
    ensures total > 1 && index == 0 ==> p == 0.0
    ensures total > 1 && index == total - 1 ==> p == 100.0
  {
    if total > 1 then (index as real) / ((total - 1) as real) * 100.0 else 0.0
  }

  /** Later tokens sit further along the gradient. */
  lemma PosPercentIncreasing(i: int, j: int, total: int)
    requires 0 <= i < j < total
    ensures PosPercent(i, total) < PosPercent(j, total)
  {
    assert (i as real) / ((total - 1) as real) < (j as real) / ((total - 1) as real);
  }

  /** Background of token `index` out of `total`. */
  function TokenBackground(index: int, total: int, theme: string, active: bool, fullColor: string): (st: TokenStyle)
    ensures !active ==> st == Flat(InactiveColor)
    ensures st.GradientWindow? ==> active && st.sizePct == total * 100 && st.posPct == PosPercent(index, total)
    ensures active && theme == CustomTheme ==>
              st == (if Contains(fullColor, "gradient") then GradientWindow(Css(fullColor), total * 100, PosPercent(index, total))
                     else Flat(fullColor))
    ensures active && theme != CustomTheme && theme in Themes ==>
              st.GradientWindow? && st.image == Linear(Themes[theme].start, Themes[theme].end)
    ensures active && theme != CustomTheme && theme !in Themes ==> st == Flat(FallbackColor)
  {
    if !active then Flat(InactiveColor)
    else if theme == CustomTheme then
      if Contains(fullColor, "gradient") then GradientWindow(Css(fullColor), total * 100, PosPercent(index, total))
      else Flat(fullColor)
    else if theme in Themes then
      GradientWindow(Linear(Themes[theme].start, Themes[theme].end), total * 100, PosPercent(index, total))
    else Flat(FallbackColor)
  }

  /** The part of a background image a box of width `box` shows, as fractions of the
      image's width, under CSS background layout: the image is `sizePct` % of the box
      wide, and position `posPct` % lines up the `posPct` % point of the image with the
      `posPct` % point of the box. */
  function VisibleSlice(box: real, sizePct: int, posPct: real): (r: (real, real))
    requires box > 0.0 && sizePct > 0
    ensures r.1 - r.0 == 100.0 / (sizePct as real)
  {
    var imageWidth := box * (sizePct as real) / 100.0;
    var offset := (box - imageWidth) * posPct / 100.0;
    (-offset / imageWidth, (box - offset) / imageWidth)
  }

  /** The gradient windows tile the gradient: active token `index` of `total` shows
      exactly the slice [index/total, (index+1)/total] of it, whatever the token width,
      so adjacent tokens continue each other and together show the whole gradient once. */
  lemma WindowsTile(index: int, total: int, box: real, theme: string, fullColor: string)
    requires 0 <= index < total && box > 0.0
    requires TokenBackground(index, total, theme, true, fullColor).GradientWindow?
    ensures var st := TokenBackground(index, total, theme, true, fullColor);
            VisibleSlice(box, st.sizePct, st.posPct)
              == ((index as real) / (total as real), ((index + 1) as real) / (total as real))
  {
    WindowSlice(index, total, box);
  }

  /** The slice shown by a window of size `total`·100 % at token `index`'s position. */
  lemma WindowSlice(index: int, total: int, box: real)
    requires 0 <= index < total && box > 0.0
    ensures VisibleSlice(box, total * 100, PosPercent(index, total))
              == ((index as real) / (total as real), ((index + 1) as real) / (total as real))
  {
    var n := total as real;
    var i := index as real;
    var imageWidth := box * ((total * 100) as real) / 100.0;
    ImageWidth(box, total);
    var offset := (box - imageWidth) * PosPercent(index, total) / 100.0;
    WindowOffset(index, total, box, imageWidth);
    SliceArith(box, n, i, imageWidth, offset);
    assert ((index + 1) as real) == i + 1.0;
    var slice := VisibleSlice(box, total * 100, PosPercent(index, total));
    assert slice.0 == -offset / imageWidth;
    assert slice.1 == (box - offset) / imageWidth;
  }

  lemma ImageWidth(box: real, total: int)
    ensures box * ((total * 100) as real) / 100.0 == box * (total as real)
  {
  }

  lemma SliceArith(box: real, n: real, i: real, imageWidth: real, offset: real)
    requires box > 0.0 && n > 0.0
    requires imageWidth == box * n && offset == -(box * i)
    ensures -offset / imageWidth == i / n
    ensures (box - offset) / imageWidth == (i + 1.0) / n
  {
    CancelFactor(box, i, n);
    CancelFactor(box, i + 1.0, n);
    assert -offset == box * i;
    assert box - offset == box * (i + 1.0);
  }

  /** With the image `total` boxes wide, token `index`'s position shifts the image left
      by exactly `index` boxes. */
  lemma WindowOffset(index: int, total: int, box: real, imageWidth: real)
    requires 0 <= index < total && imageWidth == box * (total as real)
    ensures (box - imageWidth) * PosPercent(index, total) / 100.0 == -(box * (index as real))
  {
    var n := total as real;
    var i := index as real;
    if total > 1 {
      var q := i / (n - 1.0);
      assert q * (n - 1.0) == i;
      assert PosPercent(index, total) / 100.0 == q;
      calc {
        (box - imageWidth) * PosPercent(index, total) / 100.0;
        (box - imageWidth) * (PosPercent(index, total) / 100.0);
        (box - box * n) * q;
        -(box * (q * (n - 1.0)));
        -(box * i);
      }
    }
  }

  /** A common non-zero factor cancels from a quotient. */
  lemma CancelFactor(c: real, a: real, b: real)
    requires c != 0.0 && b != 0.0
    ensures (c * a) / (c * b) == a / b
  {
    assert (c * a) / (c * b) * (c * b) == c * a;
    assert (a / b) * (c * b) == c * a;
  }

  /** Number of active tokens in a list. */
  function CountActive(ts: seq<FearToken>): nat
  {
    if |ts| == 0 then 0 else CountActive(ts[..|ts| - 1]) + (if ts[|ts| - 1].active then 1 else 0)
  }

  /** A token row lit exactly below `current` has `current`, clamped to its length,
      active tokens. */
  lemma {:induction false} CountActiveClamped(ts: seq<FearToken>, current: int)
    requires forall i :: 0 <= i < |ts| ==> (ts[i].active <==> i < current)
    ensures CountActive(ts) == Clamp(current, 0, |ts|)
    decreases |ts|
  {
    if |ts| > 0 {
      CountActiveClamped(ts[..|ts| - 1], current);
    }
  }

  /** `x` clamped to [lo, hi]. */
  function Clamp(x: int, lo: int, hi: int): int
    requires lo <= hi
  {
    if x < lo then lo else if x > hi then hi else x
  }

  // ---------------------------------------------------------------- icons

  /** The glyph class string chosen by the icon source setting. */
  function ChosenClass(iconType: string, presetIcon: string, customIcon: string): (c: string)
    ensures iconType == "preset" ==> c == presetIcon
    ensures iconType == "custom" ==> c == customIcon
    ensures iconType !in {"preset", "custom"} ==> c == DefaultIconClass
  {
    if iconType == "preset" then presetIcon
    else if iconType == "custom" then customIcon
    else DefaultIconClass
  }

  /** The icon of every token. */
  function IconFor(p: PanelSettings): (m: IconMarkup)
    ensures m.Img? ==> m.src != ""
    ensures p.iconType == "custom-svg" ==>
              m == Img(if p.customSvgPath == "" then FallbackSvg else p.customSvgPath)
    ensures p.iconType != "custom-svg" ==>
              (m.Img? <==> Contains(ChosenClass(p.iconType, p.presetIcon, p.customIcon), ".svg"))
    ensures m.Img? && p.iconType != "custom-svg" ==> m.src == ChosenClass(p.iconType, p.presetIcon, p.customIcon)
    ensures m.Glyph? ==> m.classes == ChosenClass(p.iconType, p.presetIcon, p.customIcon)
    ensures m.Glyph? ==> (m.style.Unstyled? <==> p.iconColor == "" || p.iconColor == PlainWhite)
    ensures m.Glyph? && m.style.ClippedGradient? ==> m.style.gradient == p.iconColor && Contains(p.iconColor, "gradient")
    ensures m.Glyph? && m.style.TextColor? ==> m.style.color == p.iconColor && !Contains(p.iconColor, "gradient")
  {
    if p.iconType == "custom-svg" then
      Img(if p.customSvgPath == "" then FallbackSvg else p.customSvgPath)
    else
      var cls := ChosenClass(p.iconType, p.presetIcon, p.customIcon);
      if Contains(cls, ".svg") then
        assert cls != "" by { var k :| OccursAt(cls, ".svg", k); }
        Img(cls)
      else
        var style :=
          if p.iconColor == "" || p.iconColor == PlainWhite then Unstyled
          else if Contains(p.iconColor, "gradient") then ClippedGradient(p.iconColor)
          else TextColor(p.iconColor);
        Glyph(cls, style)
  }

  // ---------------------------------------------------------------- context

  /** The token row: one token per unit of the maximum, in order; token `i` is lit
      exactly when `i < current`. */
  method BuildTokens(current: int, max: int, icon: IconMarkup, theme: string, fullColor: string)
    returns (tokens: seq<FearToken>)
    ensures |tokens| == (if max > 0 then max else 0)
    ensures forall i :: 0 <= i < |tokens| ==>
              tokens[i].index == i && (tokens[i].active <==> i < current) && tokens[i].icon == icon
              && tokens[i].style == TokenBackground(i, max, theme, i < current, fullColor)
  {
    tokens := [];
    var i := 0;
    while i < max
      invariant 0 <= i <= (if max > 0 then max else 0) && |tokens| == i
      invariant forall k :: 0 <= k < i ==>
                  tokens[k].index == k && (tokens[k].active <==> k < current) && tokens[k].icon == icon
                  && tokens[k].style == TokenBackground(k, max, theme, k < current, fullColor)
    {
      var t := FearToken(i, i < current, icon, TokenBackground(i, max, theme, i < current, fullColor));
      tokens := tokens + [t];
      i := i + 1;
    }
  }

  /** The render context: fear values read with fallback, then either a bar (no tokens)
      or a token row (no bar style). */
  method PrepareContext(isGM: bool, p: PanelSettings, sys: SystemSettings) returns (ctx: RenderContext)
    ensures (ctx.currentFear, ctx.maxFear) == ReadForRender(sys)
    ensures ctx.isGM == isGM && ctx.isMinimized == p.minimized && ctx.isLocked == p.locked
    ensures ctx.iconShape == p.iconShape && ctx.showControlButtons == p.showControlButtons
    ensures ctx.showFearValue <==> !p.minimized && p.showFearNumber
    ensures ctx.useBar <==> p.viewMode == "bar"
    ensures ctx.useBar ==> ctx.fearTokens == [] && ctx.barStyle.Some?
                           && ctx.barStyle.value.widthPct == BarPercent(ctx.currentFear, ctx.maxFear)
                           && ctx.barStyle.value.background == BarBackground(p.colorTheme, p.progressBarColor)
    ensures !ctx.useBar ==> ctx.barStyle.None? && |ctx.fearTokens| == (if ctx.maxFear > 0 then ctx.maxFear else 0)
    ensures !ctx.useBar ==> forall i :: 0 <= i < |ctx.fearTokens| ==>
              ctx.fearTokens[i].index == i && (ctx.fearTokens[i].active <==> i < ctx.currentFear)
              && ctx.fearTokens[i].icon == IconFor(p)
              && ctx.fearTokens[i].style == TokenBackground(i, ctx.maxFear, p.colorTheme, i < ctx.currentFear, p.fullColor)
    ensures !ctx.useBar && ctx.maxFear > 0 ==> CountActive(ctx.fearTokens) == Clamp(ctx.currentFear, 0, ctx.maxFear)
  {
    var (current, max) := ReadForRender(sys);
    var useBar := p.viewMode == "bar";
    var bar: Option<BarStyle> := None;
    var tokens: seq<FearToken> := [];
    if useBar {
      bar := Some(BarStyle(BarPercent(current, max), BarBackground(p.colorTheme, p.progressBarColor)));
    } else {
      tokens := BuildTokens(current, max, IconFor(p), p.colorTheme, p.fullColor);
      CountActiveClamped(tokens, current);
    }
    ctx := RenderContext(isGM, p.minimized, p.locked, current, max, tokens, p.iconShape,
                         !p.minimized && p.showFearNumber, p.showControlButtons, useBar, bar);
  }
}
