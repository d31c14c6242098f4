# Shield & Shine site script: slider, mobile menu and stagger classes

A Dafny model of the stateful logic in the site's behaviour script `main.js`:

- **Before/after comparison slider** (`Slider`, `SliderLaws`). Each instance holds a drag flag
  (`isActive`) and the inline styles it writes: the handle's `left`, the clip wrapper's `width`,
  the slider's `cursor`, and the before-image's `width`, `max-width` and `left`. The events are
  initialise/resize (`setInitialPosition`), drag start, drag move, drag end and click. Each one is
  a pure step function on an immutable `SliderState`. `SliderLaws` proves properties over whole
  event sequences.
- **Mobile menu** (`Menu`). The `active` class on `.menu-toggle` and on `.nav-links`, and the four
  click handlers that toggle or clear it.
- **Stagger classes** (`Stagger`). The `stagger-N` class that each service card, gallery item and
  contact item receives.

Modelling choices:

- JavaScript numbers are exact `real`s. `offsetWidth / 2` is fractional for odd widths, so it is
  not truncated.
- The container geometry that a handler reads from the DOM is an explicit `Layout` passed with
  each event. Set-up and resize read the integer `offsetWidth` (main.js:184). Position updates read
  `getBoundingClientRect()`, whose `left` and `width` may be fractional (main.js:199). The two
  widths differ for any fractional-width container, because `offsetWidth` is rounded, and for a
  transformed one. The bound `0 <= position <= width` is proved for layouts that `Fits`: the
  bounding width is non-negative and at least half of `offsetWidth`. That covers every
  untransformed container. The container may move or grow between events. The bound is proved
  for traces in which the bounding width shrinks only at a resize event, and it is stated against
  the bounding width read last. A shrink without a resize does break the bound
  (`ShrinkWithoutResizeEscapes`). Without these assumptions, the model proves that the handle and
  wrapper stay equal and non-negative.
- Mouse and touch events arrive already reduced to one `clientX`.
- An inline style the script has not yet written is `Unset`. `Mount` models set-up: the flag
  starts `false` and then `setInitialPosition` runs.
- The menu's handlers are separate events. One real click can run several of them in bubbling
  order. That is a sequence of handler steps, so the lemmas about `RunMenu` cover it.

Missing elements:

- A slider whose wrapper has no `.before-image` is still set up; only the image styles are skipped
  (main.js:190). The model represents this as `NoImage`.
- A missing handle, wrapper or container makes set-up throw (main.js:178, main.js:237,
  main.js:253). This is left out.

## Model

| member | source | states |
|---|---|---|
| Slider.Clamp | main.js:203 | the result lies in [0, width] for a non-negative width; it equals the raw offset when that is inside; it is 0 left of the container (or for a negative width) and the width right of it |
| Slider.UpdateSliderPosition | main.js:198-209 | handle left and wrapper width become the same value, `clientX - rect.left` clamped into [0, rect.width] (exactly the pointer offset inside the container, 0 left of it, the width right of it); the flag, cursor and before-image are unchanged |
| Slider.SetInitialPosition | main.js:183-195 | handle and wrapper sit at exactly half the container width, whatever the prior position; a present before-image gets the container's full width, `max-width: none` and `left: 0`; the flag and cursor are unchanged |
| Slider.HandleStart | main.js:212-219 | dragging becomes active, the cursor becomes `grabbing`, and the position jumps to the clamped pointer offset; the before-image is unchanged |
| Slider.HandleMove | main.js:222-228 | while idle the state is unchanged; while dragging the position follows the clamped pointer and nothing else changes |
| Slider.HandleEnd | main.js:231-234 | dragging stops and the cursor becomes `col-resize`; the handle, wrapper and before-image are unchanged |
| Slider.HandleClick | main.js:247-250 | a click whose target is the handle leaves the state unchanged; any other click moves to the clamped pointer offset and keeps the flag, cursor and image |
| Slider.Step | main.js:236-256 | every event keeps handle and wrapper equal and non-negative; only a resize can change the before-image |
| Slider.Mount | main.js:180-195 | set-up, the flag starting false (main.js:180) and then the call at main.js:253: the slider is idle and centred; it has a before-image exactly when the markup has one, and that image gets the container's full width, `max-width: none` and `left: 0` |
| SliderLaws.StepKeepsWithin | main.js:183-207 | a resize in fitting geometry puts handle == wrapper within [0, bounding width] whatever the position was; any other event keeps a position that was within a width no larger than the one it reads |
| SliderLaws.RunKeepsWithin | main.js:198-207 | in one fitting geometry, including fractional widths, any event sequence keeps handle == wrapper within [0, bounding width] |
| SliderLaws.SteadyLayoutNoShrink | main.js:198-207 | a trace in one fitting geometry never shrinks the bounding width between resizes |
| SliderLaws.ReachableWithin | main.js:180-256 | every state reachable after set-up has handle == wrapper within [0, the bounding width last read], for any container that moves or grows freely and shrinks only at resize events, which re-centre the slider |
| SliderLaws.RunKeepsWithinAcrossResizes | main.js:183-256 | while the bounding width shrinks only at resize events and every resize reads fitting geometry, any event sequence keeps handle == wrapper within [0, the bounding width last read] |
| SliderLaws.ShrinkWithoutResizeEscapes | main.js:222-223 | an idle handle at 390 inside a 400px container stays at 390 after a move once the container is 200px wide, so it is outside the container: the no-shrink condition cannot be dropped |
| SliderLaws.RunKeepsPaired | main.js:205-207 | under any sequence of layouts and events, handle and wrapper stay equal and non-negative |
| SliderLaws.ImageFixedWithoutResize | main.js:189-208 | a sequence of drags and clicks with no resize leaves the before-image styles exactly as they were |
| SliderLaws.IdleMovesAreNoOps | main.js:222-223 | while idle, any number of pointer moves leaves the whole state unchanged |
| SliderLaws.MovesAfterEndAreNoOps | main.js:222-234 | after a drag end, later pointer moves change nothing |
| SliderLaws.RunDragIsLastDrag | main.js:212-234 | after any event sequence, the flag and cursor are those set by the last drag start or drag end, or the initial ones if there is none |
| SliderLaws.RunSnoc | main.js:236-256 | running a sequence followed by one more event is one more step after the sequence |
| SliderLaws.ResizeForgetsPosition | main.js:183-195 | two states that differ only in position and image styles become identical after a resize |
| SliderLaws.ResizeIdempotent | main.js:255-256 | running the resize handler twice has the same effect as running it once |
| SliderLaws.UpdateLastWriteWins | main.js:198-209 | after two position updates, only the second one matters |
| SliderLaws.Walkthrough | main.js:198-250 | a 400px container is centred at 200; a drag start 50px in gives 50, a move 500px in gives 400, moves after a drag end change nothing, and a click 20px left of the container gives 0 |
| Menu.Toggle | main.js:88-91 | flips each flag: an open menu becomes closed and a closed one open, and the flags agree afterwards exactly when they agreed before |
| Menu.Close | main.js:96-97 | both flags are cleared, so the menu is closed and the flags agree |
| Menu.Handle | main.js:88-107 | every handler keeps agreeing flags in agreement; the toggle flips both flags; nav-link clicks, clicks outside `.nav-container` and (in the anchor handler at main.js:5-11) jumps to an existing target close the menu; other clicks change nothing |
| Menu.RunMenuSnoc | main.js:88-107 | running handlers followed by one more is one more handler step |
| Menu.RunMenuKeepsSynced | main.js:88-107 | if the two flags start equal, they are equal after any sequence of handlers |
| Menu.RunMenuIsExpected | main.js:88-107 | after any handler sequence, the menu is open exactly when the reference definition (last closing handler, then toggle parity) says so, and closed otherwise |
| Menu.ToggleInvolution | main.js:89-90 | toggling twice restores the menu |
| Menu.CloseAbsorbs | main.js:104-105 | a toggle followed by a close is the same as the close alone, and closing twice is the same as closing once |
| Stagger.Digit | main.js:42 | the character is a decimal digit whose value is the given number |
| Stagger.Decimal | main.js:42 | the numeral is non-empty, all digits, one digit exactly below 10, and has no leading zero |
| Stagger.DecimalRoundTrip | main.js:42 | reading the numeral back gives the number |
| Stagger.DecimalInjective | main.js:42 | different numbers give different numerals |
| Stagger.StaggerClass | main.js:42 | the class name (also built at main.js:48 and main.js:62) is `stagger-` followed by the canonical numeral, with digits only and no leading zero, that reads back as the number |
| Stagger.StaggerClassInjective | main.js:42 | different numbers give different `stagger-N` classes |
| Stagger.StaggerNumber | main.js:41-64 | every stagger number is at least 1; cards and contact items get one more than their index; gallery items get the value in {1, 2, 3} that is congruent to index + 1 modulo 3 |
| Stagger.GalleryPeriodic | main.js:48 | gallery stagger numbers repeat with period 3 |
| Stagger.GalleryClassesAreThree | main.js:48 | a gallery item's class is always `stagger-1`, `stagger-2` or `stagger-3` |
| Stagger.CountedClassesDistinct | main.js:41-64 | two different service cards, or two different contact items, never share a stagger class |
| Stagger.AddStaggerClasses | main.js:41-64 | each of the group's elements, in document order, gets `slide-up` and its stagger class; card and contact classes are pairwise distinct; gallery classes come from the three |

## Left out

- Smooth scrolling to in-page anchors (main.js:2-22): the scroll offset and `window.scrollTo` are browser layout and scrolling. Only the menu-closing part of this handler is modelled (`AnchorClick`).
- IntersectionObserver registration and the `visible` class (main.js:25-72): a browser callback API. The stagger classes are modelled; section headers and stats get only `slide-up`, with no stateable logic.
- Navigation background on scroll (main.js:75-82): a style toggle on a scroll threshold.
- Hero parallax and opacity (main.js:110-126): floating-point numerics driven by scroll position.
- Booking and reviews widget fallbacks (main.js:129-137, main.js:164-172): timers and third-party widget loading.
- Analytics dispatch through `gtag` (main.js:140-161): a foreign call.
- DOM lookups, listener registration and `preventDefault`: plumbing. This includes the throw when a slider lacks its handle, wrapper or container.
- Touch-versus-mouse normalisation (main.js:217, main.js:226): the model receives the resulting `clientX`.
- Several slider instances: the model is one instance. Each instance closes over its own flag, so document-level move and end events reach every instance, but each one acts only on its own state.
- Floating-point rounding: `clientX - rect.left` and `offsetWidth / 2` are exact in the model. A browser computes them in double precision.
- Conversion of positions to `"<n>px"` strings: a style value is the number it carries.
- Stagger.Decimal: writes every number in plain digits. JavaScript switches to exponent form at 1e21 and loses integer precision above 2^53. A page's element index never gets that large.
