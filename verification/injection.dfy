/** The legacy path that restyles the game system's own fear widget in place:
    every icon under the fear container gets the chosen icon classes, loses the
    system's hue filter, and is coloured with the full or empty colour. */
module Injection {
  import opened Wrappers
  import opened Text
  import Render

  const SkullClass: string := "fa-skull"
  const MarkerClass: string := "fear-tracker-plus-custom"
  const GradientClass: string := "fear-tracker-plus-gradient"
  const InactiveClass: string := "inactive"

  /** An icon element: its class list and the inline styles the injection writes. */
  datatype Icon = Icon(classes: set<string>, filter: string, background: string, color: string)

  /** The module's settings read by the injection. */
  datatype InjectSettings = InjectSettings(
    iconType: string, presetIcon: string, customIcon: string, fullColor: string, emptyColor: string)

  /** Result of one injection: no fear container (nothing touched), every icon restyled,
      or the class list was refused by the DOM, which throws out of the first icon. */
  datatype Outcome = NoContainer | Customized(icons: seq<Icon>) | Aborted(icons: seq<Icon>)

  /** The class string: the preset icon for the preset source, the custom class otherwise. */
  function IconClass(s: InjectSettings): (c: string)
    ensures s.iconType == "preset" ==> c == s.presetIcon
    ensures s.iconType != "preset" ==> c == s.customIcon
  {
    if s.iconType == "preset" then s.presetIcon else s.customIcon
  }

  /** The legacy widget and the floating panel choose the same class string for the
      preset and custom sources; for any other source (`custom-svg` included) the legacy
      path applies the custom class, while the panel falls back to its default glyph. */
  lemma IconClassAgreesWithPanel(s: InjectSettings)
    ensures s.iconType in {"preset", "custom"} ==>
              IconClass(s) == Render.ChosenClass(s.iconType, s.presetIcon, s.customIcon)
    ensures s.iconType !in {"preset", "custom"} ==>
              IconClass(s) == s.customIcon
              && Render.ChosenClass(s.iconType, s.presetIcon, s.customIcon) == Render.DefaultIconClass
  {
  }

  /** `iconClass.split(' ').filter(c => c.trim() !== '')`, as a set of class tokens. */
  function NewClasses(iconClass: string): (r: set<string>)
    ensures "" !in r
    ensures forall t :: t in r ==> t in Split(iconClass, ' ')
    ensures forall t :: t in r ==> ' ' !in t && !IsBlank(t)
    ensures forall k :: 0 <= k < |Split(iconClass, ' ')| && !IsBlank(Split(iconClass, ' ')[k]) ==> Split(iconClass, ' ')[k] in r
  {
    set t | t in Split(iconClass, ' ') && !IsBlank(t)
  }

  /** `classList.add` refuses a token holding ASCII whitespace (a tab, for instance,
      survives the split on spaces and the blank filter). */
  predicate Refused(newClasses: set<string>) {
    exists t :: t in newClasses && HasAsciiSpace(t)
  }

  /** Case-insensitive gradient test on the target colour. */
  predicate IsGradient(color: string) {
    Contains(Lower(color), "gradient")
  }

  /** Restyles one icon with an accepted class set. */
  function CustomizeIcon(icon: Icon, newClasses: set<string>, s: InjectSettings): (r: Icon)
    ensures MarkerClass in r.classes && newClasses - {GradientClass} <= r.classes
    ensures SkullClass in r.classes <==> SkullClass in newClasses
    ensures forall c :: c in icon.classes && c != SkullClass && c != GradientClass ==> c in r.classes
    ensures forall c :: c in r.classes ==> c in icon.classes || c in newClasses || c == MarkerClass || c == GradientClass
    ensures r.filter == "none"
    ensures var target := if InactiveClass in icon.classes + newClasses then s.emptyColor else s.fullColor;
            if IsGradient(target) then
              GradientClass in r.classes && r.background == target && r.color == "transparent"
            else
              GradientClass !in r.classes && r.background == "none" && r.color == target
  {
    var classes := (icon.classes - {SkullClass}) + newClasses + {MarkerClass};
    var target := if InactiveClass in classes then s.emptyColor else s.fullColor;
    if IsGradient(target) then
      Icon(classes + {GradientClass}, "none", target, "transparent")
    else
      Icon(classes - {GradientClass}, "none", "none", target)
  }

  /** Restyles every icon under the fear container; a missing container leaves the
      page alone. When the DOM refuses the class tokens, the first icon has already
      lost `fa-skull` and no other icon is touched. */
  function Inject(container: Option<seq<Icon>>, s: InjectSettings): (o: Outcome)
    ensures container.None? <==> o.NoContainer?
    ensures o.Customized? ==>
              && |o.icons| == |container.value|
              && (forall k :: 0 <= k < |o.icons| ==> o.icons[k] == CustomizeIcon(container.value[k], NewClasses(IconClass(s)), s))
    ensures o.Aborted? ==>
              && |container.value| > 0 && Refused(NewClasses(IconClass(s)))
              && o.icons == [container.value[0].(classes := container.value[0].classes - {SkullClass})] + container.value[1..]
    ensures container.Some? && !Refused(NewClasses(IconClass(s))) ==> o.Customized?
    ensures container.Some? && |container.value| > 0 && Refused(NewClasses(IconClass(s))) ==> o.Aborted?
  {
    match container
    case None => NoContainer
    case Some(icons) =>
      var added := NewClasses(IconClass(s));
      if |icons| > 0 && Refused(added) then
        Aborted([icons[0].(classes := icons[0].classes - {SkullClass})] + icons[1..])
      else
        Customized(seq(|icons|, k requires 0 <= k < |icons| => CustomizeIcon(icons[k], added, s)))
  }

  /** Restyling an icon twice with the same settings is restyling it once. */
  lemma CustomizeIdempotent(icon: Icon, newClasses: set<string>, s: InjectSettings)
    ensures CustomizeIcon(CustomizeIcon(icon, newClasses, s), newClasses, s) == CustomizeIcon(icon, newClasses, s)
  {
    var once := CustomizeIcon(icon, newClasses, s);
    var base := (icon.classes - {SkullClass}) + newClasses + {MarkerClass};
    var again := (once.classes - {SkullClass}) + newClasses + {MarkerClass};
    assert InactiveClass in base <==> InactiveClass in again;
  }

  /** The host repaints its widget and fires the hook again: a second injection over an
      already customised widget changes nothing. */
  lemma InjectIdempotent(icons: seq<Icon>, s: InjectSettings)
    requires !Refused(NewClasses(IconClass(s)))
    ensures Inject(Some(icons), s).Customized?
    ensures Inject(Some(Inject(Some(icons), s).icons), s) == Inject(Some(icons), s)
  {
    var once := Inject(Some(icons), s).icons;
    var added := NewClasses(IconClass(s));
    forall k | 0 <= k < |icons|
      ensures CustomizeIcon(once[k], added, s) == once[k]
    {
      CustomizeIdempotent(icons[k], added, s);
    }
  }

  /** The injection's gradient test accepts every colour the floating panel's
      case-sensitive test accepts ... */
  lemma PanelGradientIsInjectionGradient(color: string)
    requires Contains(color, "gradient")
    ensures IsGradient(color)
  {
    ContainsImpliesContainsLower(color, "gradient");
  }

  /** ... but not conversely: a capitalised gradient is a gradient here and a plain
      colour for the floating panel. */
  lemma CapitalisedGradientDiffers()
    ensures IsGradient("Linear-Gradient(red, blue)") && !Contains("Linear-Gradient(red, blue)", "gradient")
  {
    var c := "Linear-Gradient(red, blue)";
    assert Lower(c)[7..15] == "gradient";
    assert OccursAt(Lower(c), "gradient", 7);
    forall i ensures !OccursAt(c, "gradient", i) {
      if 0 <= i && i + 8 <= |c| {
        assert c[i..i + 8][0] == c[i];
        if c[i] == 'g' { assert false; }
      }
    }
  }
}
