/** The panel's lifecycle and its small settings toggles: the one-instance
    initialisation with the persisted geometry, the lock and minimise toggles,
    the right-click lock menu and the pulse shown at maximum fear. */
module Lifecycle {
  import opened Wrappers
  import opened FearValue
  import Gesture

  datatype Position = Position(top: real, left: real)

  /** Geometry of the first render: the persisted position and, when set, the width. */
  datatype Geometry = Geometry(top: real, left: real, width: Option<real>)

  const DefaultPosition: Position := Position(100.0, 100.0)

  /** The process-wide slot holding the one panel, recorded with its first geometry. */
  datatype Registry = Registry(instance: Option<Geometry>)

  /** Creates the panel unless one exists. The second component is the geometry of the
      forced first render, None when the call does nothing. A missing stored position
      falls back to (100, 100); a missing or zero stored width is left to the default. */
  function Initialize(reg: Registry, storedPosition: Option<Position>, storedWidth: Option<real>)
    : (r: (Registry, Option<Geometry>))
    ensures reg.instance.Some? ==> r == (reg, None)
    ensures reg.instance.None? ==> r.1.Some? && r.0.instance == r.1
    ensures r.1.Some? ==>
              var pos := storedPosition.GetOr(DefaultPosition);
              r.1.value.top == pos.top && r.1.value.left == pos.left
              && (r.1.value.width.Some? <==> storedWidth.Some? && storedWidth.value != 0.0)
              && (r.1.value.width.Some? ==> r.1.value.width == storedWidth)
  {
    if reg.instance.Some? then (reg, None)
    else
      var pos := storedPosition.GetOr(DefaultPosition);
      var width := if storedWidth.Some? && storedWidth.value != 0.0 then storedWidth else None;
      var g := Geometry(pos.top, pos.left, width);
      (Registry(Some(g)), Some(g))
  }

  /** At most one panel: a second initialisation, with any stored settings, changes nothing
      and renders nothing. */
  lemma InitializeIdempotent(reg: Registry, pos1: Option<Position>, w1: Option<real>, pos2: Option<Position>, w2: Option<real>)
    ensures var first := Initialize(reg, pos1, w1).0;
            Initialize(first, pos2, w2) == (first, None)
  {
  }

  /** The lock button: writes the opposite of the current lock. */
  function ToggleLock(locked: bool): (w: bool)
    ensures w != locked
  {
    !locked
  }

  /** The minimise button: writes the opposite of the current minimised flag. */
  function ToggleView(minimized: bool): (w: bool)
    ensures w != minimized
  {
    !minimized
  }

  datatype MenuItem = UnlockPosition | LockPosition

  /** The right-click menu's entries shown for the current lock. */
  function MenuItems(locked: bool): (items: set<MenuItem>)
    ensures UnlockPosition in items <==> locked
    ensures LockPosition in items <==> !locked
  {
    if locked then {UnlockPosition} else {LockPosition}
  }

  /** The lock value a menu entry writes. */
  function MenuWrite(item: MenuItem): bool {
    item.LockPosition?
  }

  /** The menu always offers exactly one entry, and choosing it does what the lock
      button does. */
  lemma MenuAgreesWithToggle(locked: bool)
    ensures |MenuItems(locked)| == 1
    ensures forall item :: item in MenuItems(locked) ==> MenuWrite(item) == ToggleLock(locked)
  {
  }

  /** After a lock toggle the panel re-renders, and its handles accept presses exactly
      when the panel was locked before the toggle (and the handles are present). */
  lemma ToggleThenRenderArms(p: Gesture.Panel, locked: bool, savedWidth: Option<real>)
    requires Gesture.Valid(p)
    ensures var q := Gesture.Step(p, Gesture.Rendered(savedWidth, ToggleLock(locked), true, true)).0;
            q.dragArmed == locked && q.resizeArmed == locked
  {
  }

  /** What the max-fear animation does to the panel's classes on render. */
  datatype AnimationEffect =
    | Untouched      // animation off: nothing read, nothing changed
    | PulseAtMax     // adds `max-fear` to the panel and `fear-pulse` to every icon
    | ClearMax       // removes `max-fear`
    | Throws         // a settings read threw; the error leaves the render hook

  /** The max-fear animation step of a render. Its reads are not guarded. */
  function MaxFearEffect(animate: bool, s: SystemSettings): (e: AnimationEffect)
    ensures !animate ==> e == Untouched
    ensures animate && (s.fear.Threw? || s.homebrewMax.Threw?) ==> e == Throws
    ensures e == PulseAtMax ==> s.fear.Got? && s.homebrewMax.Got? && s.fear.value >= EffectiveMax(s.homebrewMax.value)
    ensures animate && s.fear.Got? && s.homebrewMax.Got? ==>
              e == (if s.fear.value >= EffectiveMax(s.homebrewMax.value) then PulseAtMax else ClearMax)
  {
    if !animate then Untouched
    else match (s.fear, s.homebrewMax)
      case (Got(fear), Got(hb)) => if fear >= EffectiveMax(hb) then PulseAtMax else ClearMax
      case _ => Throws
  }

  /** The pulse shows exactly when the + button would refuse to raise the fear. */
  lemma PulseIffIncreaseBlocked(s: SystemSettings)
    requires s.fear.Got? && s.homebrewMax.Got?
    ensures MaxFearEffect(true, s) == PulseAtMax <==> Increase(true, s).None?
  {
  }
}
