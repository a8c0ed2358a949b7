# Fear Tracker Plus — a Dafny model of the floating fear panel

Fear Tracker Plus is a plug-in for a virtual tabletop running the Daggerheart game
system. It shows the game's "fear" resource (a current value out of a maximum) as a
floating panel, either as a row of tokens or as a filled bar. The panel can be
dragged, resized and locked. A legacy path re-skins the game system's own fear widget
in place.

This project models the logic of that panel and of the legacy re-skinning as pure
functions over immutable datatypes:

- `FearValue` covers the fear value the game system holds: the read fallback used
  while rendering (0 out of 6 when the fear read throws, the current value out of 6
  when only the homebrew read throws), the token-click rule and
  the +/- buttons. Settings reads are inputs of type `Lookup<T>` (`Threw` or `Got(v)`).
  An intended write is an `Option<int>`.
- `Render` derives the render model: the named-theme table, the bar's clamped width
  and background, and each token's background as a structured `TokenStyle`. A
  background is `Flat(color)` or `GradientWindow(image, sizePct, posPct)`. The module
  also covers the icon markup and the ordered token list.
- `Gesture` is the drag/resize state machine. Its handles are armed at render time
  unless the panel is locked. Pointer events and layout measurements are inputs. A
  release persists the gesture's result as a `Write`.
- `Lifecycle` covers the one-instance initialisation from the persisted geometry, the
  lock and minimise toggles, the right-click lock menu and the max-fear pulse.
- `Injection` is the legacy path. It rewrites each icon's class set, resets the hue
  filter and colours the icon with the full or empty colour.
- `Text` holds the JavaScript string operations these rely on (`includes`,
  `toLowerCase`, `split(' ')`, `trim`). `Wrappers` holds `Option` and `Lookup`.

Points where the code behaves in a way a reader might not expect, all of which the
model follows:

- Token colours are not interpolated per token. Every active token shows the whole
  gradient, stretched to `total × 100 %` and positioned so that each token shows its
  own slice (`Render.WindowsTile`).
- The snapshot passed to `updateFearData` is stored but never read by
  `_prepareContext`. The render always reads the settings store.
- The resize bound is the 10000 px sentinel both when there are no tokens and when the
  visuals row is missing.
- A release ends a resize by saving the inline width as it stands, without clamping it.
  When no render lands between the last move and the release, that width is already
  within [50, maxAllowedWidth]. A render in the middle of a resize re-applies the
  previously saved width, which the release then saves as it stands
  (`Gesture.RenderMidResizeSavesOldWidth`). A click on
  the resize handle with no move saves the previous inline width (or the measured width)
  even when it exceeds the bound (`Gesture.ResizeClickWithoutMove`,
  `Gesture.ResizeClickKeepsWideWidth`).
- The max-fear animation reads the game system's settings outside any error handler.
  When those reads throw, the render hook throws after the drag and resize handles are
  armed and before the right-click menu is built (`Lifecycle.MaxFearEffect` gives
  `Throws`). The render context itself is guarded: it falls back to 0 out of 6 when
  the fear read throws, and to the current value out of 6 when only the homebrew read
  throws (`FearValue.ReadForRender`).

## Model

| member | source | states |
|---|---|---|
| FearValue.EffectiveMax | scripts/fear-tracker-app.js:153-156 | a missing or zero homebrew maximum gives 6; any other value is kept; the result is never 0 |
| FearValue.ReadForRender | scripts/fear-tracker-app.js:148-159 | a throwing fear read gives (0, 6); a throwing homebrew read keeps the fear read and gives max 6; the max is never 0 |
| FearValue.ClickTarget | scripts/fear-tracker-app.js:362-371 | the target is index+1, or 0 for the first token while exactly one is active; it lies in [0, max] for a non-negative max |
| FearValue.TokenClick | scripts/fear-tracker-app.js:342-376 | a write happens exactly when the user is GM, both reads succeed and the click target differs from the current value; the value written is that click target, so it lies in [0, max] |
| FearValue.Increase | scripts/fear-tracker-app.js:288-302 | a GM with successful reads writes current+1 exactly when current < max; the written value never exceeds max |
| FearValue.Decrease | scripts/fear-tracker-app.js:304-316 | a GM whose fear read succeeds writes current-1 exactly when current > 0; the homebrew setting is not consulted |
| FearValue.IncreaseThenDecrease | scripts/fear-tracker-app.js:288-316 | + followed by - restores a non-negative fear value |
| FearValue.DecreaseThenIncrease | scripts/fear-tracker-app.js:288-316 | - followed by + restores a fear value within the maximum |
| FearValue.ButtonsKeepRange | scripts/fear-tracker-app.js:288-316 | from a value in [0, max], every write of either button stays in [0, max] |
| FearValue.ClickIdempotent | scripts/fear-tracker-app.js:362-375 | a second click on the same token (other than the first) writes nothing |
| FearValue.FirstTokenToggles | scripts/fear-tracker-app.js:364-367 | the first token sets 1 from any other value and clears 1 back to 0 |
| Render.BarPercent | scripts/fear-tracker-app.js:175 | the bar width lies in [0, 100]; it is 100·current/max when current is within [0, max], 100 at or above max, and 0 at or below 0 |
| Render.Clamp100 | scripts/fear-tracker-app.js:175 | the clamp always lies in [0, 100] and leaves values already inside unchanged |
| Render.RatioBounds | scripts/fear-tracker-app.js:175 | for a positive max, current/max lies in [0, 1] when current does in [0, max], is at least 1 from max upward and at most 0 from 0 downward |
| Render.BarMonotone | scripts/fear-tracker-app.js:175 | for a positive max, more fear never gives a narrower bar |
| Render.BarBackground | scripts/fear-tracker-app.js:177-194 | a named theme gives its start→end gradient; the custom theme and unknown names keep the bar colour setting |
| Render.BarMatchesTokens | scripts/fear-tracker-app.js:177-281 | for a named theme, the bar and every lit token paint the same start→end gradient |
| Render.PosPercent | scripts/fear-tracker-app.js:263 | a single token sits at 0 %; otherwise positions lie in [0, 100], with 0 at the first token and 100 at the last |
| Render.PosPercentIncreasing | scripts/fear-tracker-app.js:280 | later tokens sit strictly further along the gradient |
| Render.TokenBackground | scripts/fear-tracker-app.js:256-286 | an inactive token is flat #444; a known theme or a custom gradient gives a window of size total·100 % at the token's position; a custom colour is flat; an unknown theme is flat #cf0000 |
| Render.WindowsTile | scripts/fear-tracker-app.js:277-281 | under CSS background sizing and positioning, token i of n shows exactly the slice [i/n, (i+1)/n] of the gradient, whatever its width |
| Render.WindowSlice | scripts/fear-tracker-app.js:277-281 | a window of size n·100 % at token i's position shows the slice [i/n, (i+1)/n] |
| Render.WindowOffset | scripts/fear-tracker-app.js:280-281 | token i's position shifts the n-box-wide image left by exactly i boxes |
| Render.ChosenClass | scripts/fear-tracker-app.js:228-233 | the preset source gives the preset icon, the custom source the custom class, and any other source the default class `fas fa-skull` |
| Render.IconFor | scripts/fear-tracker-app.js:227-254 | custom-svg gives an image, falling back to the mystery-man icon for an empty path; a class containing `.svg` gives an image; an image source is never empty; a white or empty colour leaves a glyph unstyled; a colour containing `gradient` gives text-clipped gradient styling; any other colour gives flat text colour |
| Render.BuildTokens | scripts/fear-tracker-app.js:199-210 | the list has max(0, max) tokens; token i has index i, is active exactly when i < current, and has the shared icon and its own background |
| Render.PrepareContext | scripts/fear-tracker-app.js:141-225 | bar mode gives no tokens and a clamped bar; token mode gives no bar style and the full token row; icon shape and control-button visibility are passed through; the fear value is shown exactly when the panel is not minimised and the number setting is on; exactly current (clamped to [0, max]) tokens are lit |
| Render.CountActiveClamped | scripts/fear-tracker-app.js:202-205 | a token row lit exactly below current has current, clamped to the row length, active tokens |
| Gesture.MaxAllowedWidth | scripts/fear-tracker-app.js:453-494 | the bound is at least 50; it is count·size + (count−1)·6 + sibling widths + 8 per sibling + 18 when tokens and the visuals row exist, otherwise 10000 |
| Gesture.MaxWidthFitsOneRow | scripts/fear-tracker-app.js:456-484 | at the bound, the room left for tokens holds exactly the rendered tokens in one row and not one more |
| Gesture.ResizeWidth | scripts/fear-tracker-app.js:503-510 | the width lies in [50, maxAllowedWidth] for any pointer offset and follows the pointer inside that range |
| Gesture.ResizeWidthMonotone | scripts/fear-tracker-app.js:506-510 | moving the pointer further right never narrows the panel |
| Gesture.ApplySavedWidth | scripts/fear-tracker-app.js:57-65 | a set width is applied inline and sets `narrow` exactly when it is under 100; an unset width changes nothing |
| Gesture.Step | scripts/fear-tracker-app.js:396-540 | presses start a gesture only on an armed handle with the primary button; moves and releases do nothing while idle; a release returns to Idle and persists the measured position and/or the inline (else measured) width; a drag move places the panel at the start plus the pointer offset; a drag release also moves the panel to the measured position (line 439); a resize move sets the width to the press-time width plus the pointer offset, clamped to [50, maxAllowedWidth]; a render re-arms each handle exactly when the panel is unlocked and the handle is present, and applies the saved width as `Gesture.ApplySavedWidth` states |
| Gesture.StepFrame | scripts/fear-tracker-app.js:396-540 | what each event leaves alone: only a render changes whether the handles listen; a press changes neither position nor width; a drag press keeps the resize record and a resize press the drag record; a move changes the position only while dragging and the width and `narrow` only while resizing; a render never moves the panel |
| Gesture.OnDragDown | scripts/fear-tracker-app.js:403-411 | an armed handle and the primary button record the pointer and the measured top-left; any other press changes nothing; only the drag record changes |
| Gesture.OnResizeDown | scripts/fear-tracker-app.js:449-495 | an armed handle and the primary button record the pointer, the measured width and `MaxAllowedWidth`; any other press changes nothing; only the resize record changes |
| Gesture.OnDragMove | scripts/fear-tracker-app.js:420-426 | while dragging the panel sits at the start plus the pointer offset; otherwise nothing changes; only left and top ever change |
| Gesture.OnResizeMove | scripts/fear-tracker-app.js:503-520 | while resizing the width is the clamped press-time width plus the offset and `narrow` marks widths under 100; otherwise nothing changes; only width and `narrow` ever change |
| Gesture.OnMove | scripts/fear-tracker-app.js:420-520 | one move reaches both listeners: the position follows the drag and the width follows the resize, each only while its gesture is active, and neither gesture record nor armed flag changes |
| Gesture.OnPointerUp | scripts/fear-tracker-app.js:428-540 | both gestures end; the drag one saves and applies the measured position, the resize one saves and keeps the inline (else measured) width; armed flags and `narrow` stay; an idle release changes nothing |
| Gesture.OnRender | scripts/fear-tracker-app.js:53-77 | each handle listens exactly when the panel is unlocked and the handle is present; the width follows `Gesture.ApplySavedWidth`; gestures and position stay |
| Gesture.OnlyRenderArms | scripts/fear-tracker-app.js:396-401 | with no render, any run of presses, moves and releases leaves both armed flags unchanged |
| Gesture.Run | scripts/fear-tracker-app.js:396-540 | any event sequence keeps every resize record's bound at or above 50 |
| Gesture.LockedStaysIdle | scripts/fear-tracker-app.js:396-447 | a locked idle panel ignores every event and persists nothing until the next render |
| Gesture.LockKeepsGesture | scripts/fear-tracker-app.js:396-447 | locking disarms the handles but does not end a gesture in progress |
| Gesture.DragFollowsLastMove | scripts/fear-tracker-app.js:420-426 | during a drag the position is the start position plus the latest pointer offset, unclamped and independent of the path |
| Gesture.DragGesture | scripts/fear-tracker-app.js:403-440 | press, move, release returns to Idle and persists one position; when the release measures the position the last move applied, that is exactly the start position plus the pointer offset |
| Gesture.ResizeFollowsLastMove | scripts/fear-tracker-app.js:503-520 | after any moves of a resize, the width is the press-time width plus the last pointer offset clamped to [50, maxAllowedWidth], independent of the path, and `narrow` marks widths under 100 |
| Gesture.ResizeGesture | scripts/fear-tracker-app.js:449-540 | press, move, release returns to Idle and persists exactly one width: the press-time width plus the last pointer offset, clamped to [50, maxAllowedWidth] |
| Gesture.ResizeClickWithoutMove | scripts/fear-tracker-app.js:522-540 | press and release with no move returns to Idle and saves the inline width (else the measured width) unclamped |
| Gesture.ResizeClickKeepsWideWidth | scripts/fear-tracker-app.js:453-540 | an inline width of 300 with a bound of 88 is saved as 300 by a click without a move |
| Gesture.RunAppend | scripts/fear-tracker-app.js:396-540 | running two event sequences in turn is running their concatenation |
| Gesture.RenderAfterResizeKeepsWidth | scripts/fear-tracker-app.js:57-65 | the render after a completed resize, given the width the release saved, leaves the inline width and the `narrow` class exactly as the gesture left them |
| Gesture.RenderMidResizeSavesOldWidth | scripts/fear-tracker-app.js:57-65 | a render between a move (width 70) and the release re-applies a saved 300, and the release saves 300 against a bound of 88 |
| Gesture.StepKeepsExclusive | scripts/fear-tracker-app.js:403-418 | when presses come only while no gesture is active, a panel never drags and resizes at once |
| Lifecycle.Initialize | scripts/fear-tracker-app.js:44-51 | an existing panel makes it a no-op; otherwise the first render uses the stored position or (100, 100), and the stored width exactly when it is set and non-zero |
| Lifecycle.InitializeIdempotent | scripts/fear-tracker-app.js:44-46 | a second initialisation changes nothing and renders nothing |
| Lifecycle.ToggleLock | scripts/fear-tracker-app.js:324-329 | the lock button writes the opposite lock |
| Lifecycle.ToggleView | scripts/fear-tracker-app.js:318-322 | the minimise button writes the opposite minimised flag |
| Lifecycle.MenuItems | scripts/fear-tracker-app.js:113-132 | the menu offers Unlock exactly when locked and Lock exactly when unlocked |
| Lifecycle.MenuAgreesWithToggle | scripts/fear-tracker-app.js:113-132 | exactly one menu entry is shown: Unlock Position while locked, Lock Position while unlocked; choosing it (`Lifecycle.MenuWrite`: true for Lock Position, false for Unlock Position, lines 119 and 128) writes what the lock button writes |
| Lifecycle.ToggleThenRenderArms | scripts/fear-tracker-app.js:324-329 | after a lock toggle and its re-render, the handles are armed exactly when the panel was locked before |
| Lifecycle.MaxFearEffect | scripts/fear-tracker-app.js:378-394 | the animation does nothing when off and throws on a failed read; otherwise it pulses at or above the maximum and removes the max-fear class below it |
| Lifecycle.PulseIffIncreaseBlocked | scripts/fear-tracker-app.js:378-394 | the pulse shows exactly when the + button would refuse to raise the fear |
| Injection.IconClass | scripts/module.js:108-114 | the class string is the preset icon for the preset source and the custom class for any other source |
| Injection.IconClassAgreesWithPanel | scripts/module.js:108-114 | for the preset and custom sources the legacy widget uses the same class string as the panel; for any other source, `custom-svg` included, it applies the custom class while the panel's class choice falls back to `fas fa-skull` (for `custom-svg` the panel shows an image instead, see `Render.IconFor`) |
| Injection.NewClasses | scripts/module.js:134 | the new class tokens are exactly the non-blank pieces of `split(' ')`: never empty, never blank, holding no space |
| Injection.CustomizeIcon | scripts/module.js:121-159 | the marker class and the new classes are present; `fa-skull` stays only if reintroduced; every other existing class, `inactive` included, is kept; nothing else is added; the filter is `none`; the empty colour is used exactly when the icon is inactive; a gradient sets the gradient class, background and transparent colour, anything else removes the class, clears the background and sets the colour |
| Injection.Inject | scripts/module.js:94-160 | no fear container means nothing changes; with no refused class token every icon is restyled in order; with a refused token and at least one icon the injection aborts, and only the first icon has lost `fa-skull` |
| Injection.CustomizeIdempotent | scripts/module.js:121-159 | restyling an icon twice is restyling it once |
| Injection.InjectIdempotent | scripts/module.js:94-160 | a second injection over a customised widget changes nothing |
| Injection.PanelGradientIsInjectionGradient | scripts/module.js:148 | every colour the panel treats as a gradient (case-sensitive) is a gradient for the injection (case-insensitive) |
| Injection.CapitalisedGradientDiffers | scripts/module.js:148 | `Linear-Gradient(...)` is a gradient for the injection but not under the panel's case-sensitive test |
| Text.Contains | scripts/fear-tracker-app.js:246 | `includes` holds exactly when the pattern occurs at some position |
| Text.Split | scripts/module.js:134 | `split(' ')` gives at least one piece and no piece holds a space |
| Text.JoinSplit | scripts/module.js:134 | joining the pieces of `split(' ')` with spaces gives back the original string |
| Text.Lower | scripts/module.js:148 | `toLowerCase` keeps the length and lower-cases each ASCII capital in place; other characters are kept as they are (ASCII only, see "Left out") |
| Text.TrimStart | scripts/module.js:134 | `trimStart` leaves the suffix that starts at the first non-whitespace character, having dropped only whitespace |
| Text.TrimEnd | scripts/module.js:134 | `trimEnd` leaves the prefix that ends at the last non-whitespace character, having dropped only whitespace |
| Text.BlankIffTrimEmpty | scripts/module.js:134 | `Text.IsBlank` (every character is JavaScript whitespace) holds exactly when `trim()` gives the empty string, so it is the `c.trim() !== ''` filter |
| Text.ContainsImpliesContainsLower | scripts/module.js:148 | a lower-case word found in a string is also found in its lower-cased form |

## Left out

- Settings registration and the host's lifecycle hooks (scripts/module.js:3-76, 87-89) are declarative host calls with no behaviour of their own.
- Attaching and detaching listeners, the Ctrl-hover `force-expand` class, the `locked` CSS class, the `--fear-token-size` variable and the `grabbing` cursor (scripts/fear-tracker-app.js:67-109, 411, 431) are DOM plumbing. The model keeps only the state changes they cause.
- Persistence is asynchronous and fire-and-forget in the code. Here a write is an output value, and the follow-up renders are the `Rendered` event.
- A render can interleave with a gesture in progress. The `Rendered` event covers one such render applying the saved width, but the host's render scheduling is not modelled.
- `setPosition` and the rest of the windowing base class are library code that is not part of this model. A call to `setPosition` is taken to apply exactly the geometry it is given. The library's own viewport normalisation is not modelled.
- Measurements (`getBoundingClientRect`, `offsetWidth`) are event inputs. The resize press's vertical coordinate and height are recorded by the code but never read, so they are omitted.
- A drag and a resize are both active only after a lost release. The order of the two writes a release then causes is not modelled; they go to different settings.
- Pixel and percentage arithmetic uses Dafny `real`. Floating-point rounding and NaN (a non-numeric setting) are not modelled.
- CSS and HTML text is replaced by the structured records `TokenStyle`, `BarStyle` and `IconMarkup`. Handlebars templates are not part of this model.
- `updateFearData` stores a snapshot that no part of the render reads, so it has no modelled effect.
- Render.BarBackground: theme names are looked up as own keys of the table. Names inherited from JavaScript's object prototype (`constructor`, `toString`) are not modelled.
- Render.TokenBackground: theme names are looked up as own keys of the table. Names inherited from JavaScript's object prototype (`constructor`, `toString`) are not modelled.
- Text.Lower: lower-cases ASCII letters only. No other character lower-cases to a single letter of "gradient", so the gradient test is unaffected.
- Injection works on an abstract list of icon records. The `querySelectorAll('i')` traversal and how the host passes its HTML are not modelled.
