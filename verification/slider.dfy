/**
 * The before/after comparison slider of the site's behaviour script.
 *
 * One slider instance owns a drag flag and the inline styles it writes: the
 * handle's `left`, the clip wrapper's `width`, the slider's `cursor` and, when
 * the wrapper holds a before-image, that image's `width`, `max-width` and
 * `left`. Every browser event is a pure step from one state to the next. The
 * container geometry the handlers read from the DOM (`offsetWidth` and
 * `getBoundingClientRect()`) is passed in with each event as a `Layout`, and
 * mouse and touch input arrive already reduced to one horizontal `clientX`.
 *
 * JavaScript numbers are modelled as exact `real`s.
 */
module Slider {

  /** An inline CSS length: never written by the script, or a pixel value. */
  datatype Len = Unset | Px(px: real)

  /** The inline `cursor` style of the slider element. */
  datatype Cursor = Inherited | Grabbing | ColResize

  /** The `.before-image` element inside the clip wrapper, if there is one. */
  datatype BeforeImage =
    | NoImage
    | Image(width: Len, maxWidthNone: bool, left: Len)

  /** Everything one slider instance changes. */
  datatype SliderState = SliderState(
    active: bool,
    cursor: Cursor,
    handleLeft: Len,
    wrapperWidth: Len,
    image: BeforeImage)

  /** The container's bounding client rectangle (horizontal part). */
  datatype Rect = Rect(left: real, width: real)

  /** The container geometry read at the time of an event. */
  datatype Layout = Layout(offsetWidth: nat, rect: Rect)

  /** The events one slider reacts to, with the pointer's `clientX` where read. */
  datatype Event =
    | Resize                             // initial call and window `resize`
    | DragStart(x: real)                 // `mousedown` / `touchstart` on the handle
    | DragMove(x: real)                  // document `mousemove` / `touchmove`
    | DragEnd                            // document `mouseup` / `touchend`
    | Click(x: real, onHandle: bool)     // `click` on the slider; is the target the handle itself?

  datatype Input = Input(layout: Layout, event: Event)

  /** Handle and clip wrapper carry the same pixel value. */
  predicate Paired(s: SliderState)
  {
    s.handleLeft.Px? && s.wrapperWidth == s.handleLeft
  }

  /** Paired, and the shared value lies in [0, w]. */
  predicate Within(s: SliderState, w: real)
  {
    Paired(s) && 0.0 <= s.handleLeft.px <= w
  }

  function Min(a: real, b: real): real { if a <= b then a else b }
  function Max(a: real, b: real): real { if a >= b then a else b }

  /** `Math.max(0, Math.min(raw, width))`. */
  function Clamp(raw: real, width: real): (p: real)
    ensures 0.0 <= p
    ensures 0.0 <= width ==> p <= width
    ensures 0.0 <= raw <= width ==> p == raw
    ensures raw < 0.0 || width < 0.0 ==> p == 0.0
    ensures 0.0 <= width < raw ==> p == width
  {
    Max(0.0, Min(raw, width))
  }

  /** `updateSliderPosition`: move handle and clip wrapper to the clamped pointer offset. */
  function UpdateSliderPosition(s: SliderState, clientX: real, rect: Rect): (r: SliderState)
    ensures Paired(r) && 0.0 <= r.handleLeft.px
    ensures 0.0 <= rect.width ==> r.handleLeft.px <= rect.width
    ensures rect.left <= clientX <= rect.left + rect.width ==> r.handleLeft == Px(clientX - rect.left)
    ensures clientX < rect.left ==> r.handleLeft == Px(0.0)
    ensures 0.0 <= rect.width && rect.left + rect.width < clientX ==> r.handleLeft == Px(rect.width)
    ensures r.handleLeft.px == Clamp(clientX - rect.left, rect.width)
    ensures r == s.(handleLeft := r.handleLeft, wrapperWidth := r.wrapperWidth)
  {
    var position := Clamp(clientX - rect.left, rect.width);
    s.(handleLeft := Px(position), wrapperWidth := Px(position))
  }

  /** `setInitialPosition`: centre handle and wrapper, pin the before-image to the full width. */
  function SetInitialPosition(s: SliderState, containerWidth: nat): (r: SliderState)
    ensures Paired(r) && 2.0 * r.handleLeft.px == containerWidth as real
    ensures 0.0 <= r.handleLeft.px <= containerWidth as real
    ensures r.active == s.active && r.cursor == s.cursor
    ensures r.image.Image? <==> s.image.Image?
    ensures r.image.Image? ==> r.image == Image(Px(containerWidth as real), true, Px(0.0))
  {
    var initialPos := containerWidth as real / 2.0;
    var image := match s.image
      case NoImage => NoImage
      case Image(_, _, _) => Image(Px(containerWidth as real), true, Px(0.0));
    s.(handleLeft := Px(initialPos), wrapperWidth := Px(initialPos), image := image)
  }

  /** `handleStart`: start dragging, show the grabbing cursor, jump to the pointer. */
  function HandleStart(s: SliderState, clientX: real, rect: Rect): (r: SliderState)
    ensures r.active && r.cursor == Grabbing
    ensures r.image == s.image
    ensures Paired(r) && r.handleLeft.px == Clamp(clientX - rect.left, rect.width)
  {
    UpdateSliderPosition(s.(active := true, cursor := Grabbing), clientX, rect)
  }

  /** `handleMove`: ignored unless dragging; otherwise follow the pointer. */
  function HandleMove(s: SliderState, clientX: real, rect: Rect): (r: SliderState)
    ensures !s.active ==> r == s
    ensures s.active ==> r.active && r.cursor == s.cursor && r.image == s.image
    ensures s.active ==> Paired(r) && r.handleLeft.px == Clamp(clientX - rect.left, rect.width)
  {
    if !s.active then s else UpdateSliderPosition(s, clientX, rect)
  }

  /** `handleEnd`: stop dragging and restore the column-resize cursor; positions stay. */
  function HandleEnd(s: SliderState): (r: SliderState)
    ensures !r.active && r.cursor == ColResize
    ensures r.handleLeft == s.handleLeft && r.wrapperWidth == s.wrapperWidth
    ensures r.image == s.image
  {
    s.(active := false, cursor := ColResize)
  }

  /** The slider's click listener: a click on the handle element itself does nothing. */
  function HandleClick(s: SliderState, clientX: real, onHandle: bool, rect: Rect): (r: SliderState)
    ensures onHandle ==> r == s
    ensures !onHandle ==> r.active == s.active && r.cursor == s.cursor && r.image == s.image
    ensures !onHandle ==> Paired(r) && r.handleLeft.px == Clamp(clientX - rect.left, rect.width)
  {
    if onHandle then s else UpdateSliderPosition(s, clientX, rect)
  }

  /** Dispatch one event to its handler. */
  function Step(s: SliderState, input: Input): (r: SliderState)
    ensures Paired(s) ==> Paired(r)
    ensures Paired(s) && 0.0 <= s.handleLeft.px ==> 0.0 <= r.handleLeft.px
    ensures r.image != s.image ==> input.event.Resize?
  {
    var rect := input.layout.rect;
    match input.event
    case Resize => SetInitialPosition(s, input.layout.offsetWidth)
    case DragStart(x) => HandleStart(s, x, rect)
    case DragMove(x) => HandleMove(s, x, rect)
    case DragEnd => HandleEnd(s)
    case Click(x, onHandle) => HandleClick(s, x, onHandle, rect)
  }

  /** Set-up of one instance: the flag starts false, then `setInitialPosition` runs. */
  function Mount(markup: SliderState, layout: Layout): (s: SliderState)
    ensures !s.active && s.cursor == markup.cursor
    ensures Paired(s) && 2.0 * s.handleLeft.px == layout.offsetWidth as real
    ensures s.image.Image? <==> markup.image.Image?
    ensures s.image.Image? ==> s.image == Image(Px(layout.offsetWidth as real), true, Px(0.0))
  {
    SetInitialPosition(markup.(active := false), layout.offsetWidth)
  }

  /** Feed a sequence of events to the instance, first to last. */
  function Run(s: SliderState, trace: seq<Input>): SliderState
    decreases |trace|
  {
    if |trace| == 0 then s else Run(Step(s, trace[0]), trace[1..])
  }
}
