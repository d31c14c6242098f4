/**
 * Properties of the slider over whole event sequences: the position stays in
 * bounds, the before-image geometry only changes on resize, moves while idle
 * change nothing, and the drag flag and cursor are decided by the last
 * drag-start or drag-end.
 */
module SliderLaws {
  import opened Slider

  /**
   * Container geometry in which the centred position lies inside the bounding
   * box: the bounding width is non-negative and at least half the (rounded)
   * layout width. This holds for every untransformed container, including
   * fractional widths, where `offsetWidth` is the bounding width rounded.
   */
  predicate Fits(l: Layout)
  {
    0.0 <= l.rect.width && l.offsetWidth as real <= 2.0 * l.rect.width
  }

  /**
   * Starting from bounding width `w`, the geometry each input reads leaves the
   * position room: a resize reads geometry that fits, and any other event
   * reads a bounding width no smaller than the one before it. The container
   * may move or grow between resizes; only a shrink needs the resize that
   * re-centres the slider.
   */
  predicate NoShrinkBetweenResizes(w: real, trace: seq<Input>)
    decreases |trace|
  {
    |trace| == 0 ||
    ((if trace[0].event.Resize? then Fits(trace[0].layout) else w <= trace[0].layout.rect.width)
     && NoShrinkBetweenResizes(trace[0].layout.rect.width, trace[1..]))
  }

  /** The bounding width read by the last input, or `w` if there is none. */
  function LastWidth(w: real, trace: seq<Input>): real
  {
    if |trace| == 0 then w else trace[|trace| - 1].layout.rect.width
  }

  /** Every input of the trace reads the same container geometry. */
  predicate SteadyLayout(trace: seq<Input>, l: Layout)
  {
    forall i | 0 <= i < |trace| :: trace[i].layout == l
  }

  /** Appending one input to a trace is one more step. */
  lemma {:induction false} RunSnoc(s: SliderState, trace: seq<Input>, last: Input)
    ensures Run(s, trace + [last]) == Step(Run(s, trace), last)
    decreases |trace|
  {
    if |trace| == 0 {
      assert trace + [last] == [last];
    } else {
      assert (trace + [last])[1..] == trace[1..] + [last];
      RunSnoc(Step(s, trace[0]), trace[1..], last);
    }
  }

  /**
   * One event keeps the position inside the bounding width it reads: a resize
   * in geometry that fits puts it there whatever the position was, and any
   * other event keeps a position that was inside a width no larger.
   */
  lemma StepKeepsWithin(s: SliderState, w: real, input: Input)
    requires if input.event.Resize? then Fits(input.layout)
             else 0.0 <= w <= input.layout.rect.width && Within(s, w)
    ensures Within(Step(s, input), input.layout.rect.width)
  {
  }

  /**
   * While the container's width does not shrink between resizes, every event
   * sequence keeps the position inside the bounding width last read.
   */
  lemma {:induction false} RunKeepsWithinAcrossResizes(s: SliderState, w: real, trace: seq<Input>)
    requires 0.0 <= w && Within(s, w) && NoShrinkBetweenResizes(w, trace)
    ensures Within(Run(s, trace), LastWidth(w, trace))
    decreases |trace|
  {
    if |trace| > 0 {
      var input := trace[0];
      StepKeepsWithin(s, w, input);
      RunKeepsWithinAcrossResizes(Step(s, input), input.layout.rect.width, trace[1..]);
      assert LastWidth(input.layout.rect.width, trace[1..]) == LastWidth(w, trace);
    }
  }

  /** A trace in one fitting geometry never shrinks the width. */
  lemma {:induction false} SteadyLayoutNoShrink(l: Layout, trace: seq<Input>)
    requires Fits(l) && SteadyLayout(trace, l)
    ensures NoShrinkBetweenResizes(l.rect.width, trace)
    decreases |trace|
  {
    if |trace| > 0 {
      assert trace[0].layout == l;
      assert SteadyLayout(trace[1..], l) by {
        forall i | 0 <= i < |trace[1..]|
          ensures trace[1..][i].layout == l
        {
          assert trace[1..][i] == trace[i + 1];
        }
      }
      SteadyLayoutNoShrink(l, trace[1..]);
    }
  }

  /** Any sequence of events in one fitting geometry keeps the position inside the container. */
  lemma RunKeepsWithin(s: SliderState, l: Layout, trace: seq<Input>)
    requires Fits(l) && SteadyLayout(trace, l)
    requires Within(s, l.rect.width)
    ensures Within(Run(s, trace), l.rect.width)
  {
    SteadyLayoutNoShrink(l, trace);
    RunKeepsWithinAcrossResizes(s, l.rect.width, trace);
  }

  /**
   * Every state reachable after set-up, with the container moved, grown, or
   * shrunk and then resized any number of times, has handle left == wrapper
   * width, both in [0, the bounding width last read].
   */
  lemma ReachableWithin(markup: SliderState, l: Layout, trace: seq<Input>)
    requires Fits(l) && NoShrinkBetweenResizes(l.rect.width, trace)
    ensures Within(Run(Mount(markup, l), trace), LastWidth(l.rect.width, trace))
  {
    RunKeepsWithinAcrossResizes(Mount(markup, l), l.rect.width, trace);
  }

  /**
   * Shrinking the container without a resize can leave the handle outside it:
   * an idle handle at 390 in a 400px container stays at 390 once the container
   * is 200px wide, because moves while idle change nothing.
   */
  lemma ShrinkWithoutResizeEscapes(s: SliderState, x: real)
    requires !s.active && Paired(s) && s.handleLeft == Px(390.0)
    ensures Within(s, 400.0)
    ensures var t := Step(s, Input(Layout(200, Rect(0.0, 200.0)), DragMove(x)));
      t == s && !Within(t, 200.0)
  {
    var t := Step(s, Input(Layout(200, Rect(0.0, 200.0)), DragMove(x)));
    assert t == HandleMove(s, x, Rect(0.0, 200.0));
  }

  /** Whatever geometry each event reads, handle and wrapper stay equal and non-negative. */
  lemma {:induction false} RunKeepsPaired(s: SliderState, trace: seq<Input>)
    requires Paired(s) && 0.0 <= s.handleLeft.px
    ensures Paired(Run(s, trace)) && 0.0 <= Run(s, trace).handleLeft.px
    decreases |trace|
  {
    if |trace| > 0 {
      RunKeepsPaired(Step(s, trace[0]), trace[1..]);
    }
  }

  /** Drags and clicks never touch the before-image; only a resize does. */
  lemma {:induction false} ImageFixedWithoutResize(s: SliderState, trace: seq<Input>)
    requires forall i | 0 <= i < |trace| :: !trace[i].event.Resize?
    ensures Run(s, trace).image == s.image
    decreases |trace|
  {
    if |trace| > 0 {
      assert !trace[0].event.Resize?;
      assert forall i | 0 <= i < |trace[1..]| :: trace[1..][i] == trace[i + 1];
      ImageFixedWithoutResize(Step(s, trace[0]), trace[1..]);
    }
  }

  /** While not dragging, any number of pointer moves leave the state exactly as it was. */
  lemma {:induction false} IdleMovesAreNoOps(s: SliderState, trace: seq<Input>)
    requires !s.active
    requires forall i | 0 <= i < |trace| :: trace[i].event.DragMove?
    ensures Run(s, trace) == s
    decreases |trace|
  {
    if |trace| > 0 {
      assert trace[0].event.DragMove?;
      assert Step(s, trace[0]) == s;
      assert forall i | 0 <= i < |trace[1..]| :: trace[1..][i] == trace[i + 1];
      IdleMovesAreNoOps(s, trace[1..]);
    }
  }

  /** After a drag end, later pointer moves change nothing. */
  lemma MovesAfterEndAreNoOps(s: SliderState, trace: seq<Input>)
    requires forall i | 0 <= i < |trace| :: trace[i].event.DragMove?
    ensures Run(HandleEnd(s), trace) == HandleEnd(s)
  {
    IdleMovesAreNoOps(HandleEnd(s), trace);
  }

  /** The drag flag and cursor together. */
  datatype Drag = Drag(active: bool, cursor: Cursor)

  /**
   * Reference definition of the drag flag and cursor after a trace: those set
   * by the last drag start or drag end, or the initial ones if there is none.
   */
  function LastDrag(initial: Drag, trace: seq<Input>): Drag
    decreases |trace|
  {
    if |trace| == 0 then initial
    else match trace[|trace| - 1].event
      case DragStart(_) => Drag(true, Grabbing)
      case DragEnd => Drag(false, ColResize)
      case _ => LastDrag(initial, trace[..|trace| - 1])
  }

  /** Running the handlers agrees with the reference definition of the drag flag and cursor. */
  lemma {:induction false} RunDragIsLastDrag(s: SliderState, trace: seq<Input>)
    ensures Drag(Run(s, trace).active, Run(s, trace).cursor) == LastDrag(Drag(s.active, s.cursor), trace)
    decreases |trace|
  {
    if |trace| > 0 {
      var front := trace[..|trace| - 1];
      var last := trace[|trace| - 1];
      assert trace == front + [last];
      RunSnoc(s, front, last);
      RunDragIsLastDrag(s, front);
    }
  }

  /** A resize forgets the previous position and drag geometry. */
  lemma ResizeForgetsPosition(s1: SliderState, s2: SliderState, w: nat)
    requires s1.active == s2.active && s1.cursor == s2.cursor
    requires s1.image.Image? <==> s2.image.Image?
    ensures SetInitialPosition(s1, w) == SetInitialPosition(s2, w)
  {
  }

  /** Resize handlers may run any number of times: once is the same as twice. */
  lemma ResizeIdempotent(s: SliderState, w: nat)
    ensures SetInitialPosition(SetInitialPosition(s, w), w) == SetInitialPosition(s, w)
  {
  }

  /** Only the latest position update matters. */
  lemma UpdateLastWriteWins(s: SliderState, x1: real, r1: Rect, x2: real, r2: Rect)
    ensures UpdateSliderPosition(UpdateSliderPosition(s, x1, r1), x2, r2) == UpdateSliderPosition(s, x2, r2)
  {
  }

  /**
   * A 400px container at any horizontal offset: centred at 200, drag start
   * 50px in, a move 500px in stops at 400, after drag end moves change
   * nothing, and a click 20px left of the container lands on 0.
   */
  lemma Walkthrough(markup: SliderState, left: real)
    ensures var l := Layout(400, Rect(left, 400.0));
      var s0 := Mount(markup, l);
      var s1 := Step(s0, Input(l, DragStart(left + 50.0)));
      var s2 := Step(s1, Input(l, DragMove(left + 500.0)));
      var s3 := Step(s2, Input(l, DragEnd));
      var s4 := Step(s3, Input(l, DragMove(left + 10.0)));
      var s5 := Step(s4, Input(l, Click(left - 20.0, false)));
      && s0.handleLeft == Px(200.0)
      && s1.handleLeft == Px(50.0) && s1.active
      && s2.handleLeft == Px(400.0) && s2.wrapperWidth == Px(400.0)
      && !s3.active && s3.handleLeft == Px(400.0)
      && s4 == s3
      && s5.handleLeft == Px(0.0) && !s5.active
  {
  }
}
