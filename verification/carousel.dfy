/** The featured-projects slideshow (components/ProjectsCarousel.tsx) as a
    state machine over `n` projects: arrow buttons, mouse drags, touch
    swipes, and the fullscreen viewer. Pixel offsets are whole numbers. */
module Carousel {
  import opened Wrappers
  import opened Cyclic

  datatype State = State(
    active: nat,                // activeIndex
    dragging: bool,             // isDragging
    offset: int,                // dragOffsetRef.current (and dragOffset)
    touchStart: Option<int>,    // touchStartX.current
    touchDelta: int,            // touchDeltaX.current
    fullscreenIndex: nat)

  const Initial := State(0, false, 0, None, 0, 0)

  const MouseThreshold := 100
  const TouchThreshold := 50

  /** The active slide is one of the `n` projects (or 0 when there are none). */
  predicate Valid(s: State, n: nat) {
    s.active < n || (n == 0 && s.active == 0)
  }

  /** `goPrev`: one slide back, except with fewer than two projects. */
  function GoPrev(s: State, n: nat): (r: State)
    requires Valid(s, n)
    ensures Valid(r, n)
    ensures n <= 1 ==> r == s
    ensures n > 1 ==> r == s.(active := Prev(s.active, n))
  {
    if n <= 1 then s else s.(active := Prev(s.active, n))
  }

  /** `goNext`: one slide on, except with fewer than two projects. */
  function GoNext(s: State, n: nat): (r: State)
    requires Valid(s, n)
    ensures Valid(r, n)
    ensures n <= 1 ==> r == s
    ensures n > 1 ==> r == s.(active := Next(s.active, n))
  {
    if n <= 1 then s else s.(active := Next(s.active, n))
  }

  lemma {:induction false} GoPrevUndoesGoNext(s: State, n: nat)
    requires Valid(s, n)
    ensures GoPrev(GoNext(s, n), n) == s
    ensures GoNext(GoPrev(s, n), n) == s
  {
    if n > 1 {
      PrevNextInverse(s.active, n);
    }
  }

  /** Which way a release moves: right past the threshold goes back, left
      past it goes on, anything shorter stays. */
  function Swipe(s: State, n: nat, delta: int, threshold: int): (r: State)
    requires Valid(s, n) && threshold >= 0
    ensures Valid(r, n)
    ensures delta > threshold ==> r == GoPrev(s, n)
    ensures delta < -threshold ==> r == GoNext(s, n)
    ensures -threshold <= delta <= threshold ==> r == s
  {
    if delta > threshold then GoPrev(s, n)
    else if delta < -threshold then GoNext(s, n)
    else s
  }

  /** `handleMouseDown`. */
  function MouseDown(s: State, n: nat): (r: State)
    ensures n <= 1 ==> r == s
    ensures n > 1 ==> r == s.(dragging := true, offset := 0)
  {
    if n <= 1 then s else s.(dragging := true, offset := 0)
  }

  /** `handleMouseMove` and the window listener while dragging: the offset
      follows the mouse. */
  function MouseMove(s: State, n: nat, delta: int): (r: State)
    ensures !s.dragging || n <= 1 ==> r == s
    ensures s.dragging && n > 1 ==> r == s.(offset := delta)
  {
    if !s.dragging || n <= 1 then s else s.(offset := delta)
  }

  /** `handleMouseUp`: releasing a drag inside the carousel. */
  function MouseUp(s: State, n: nat): (r: State)
    requires Valid(s, n)
    ensures Valid(r, n)
    ensures !s.dragging || n <= 1 ==> r == s
    ensures s.dragging && n > 1 ==> !r.dragging && r.offset == 0
    ensures s.dragging && n > 1 ==> r.active == Swipe(s, n, s.offset, MouseThreshold).active
  {
    if !s.dragging || n <= 1 then s
    else Swipe(s, n, s.offset, MouseThreshold).(dragging := false, offset := 0)
  }

  /** The window `mouseup` listener. It is installed when a drag starts and
      removed only after the next render, so it also runs right after
      `handleMouseUp` has handled the same release. */
  function GlobalMouseUp(s: State, n: nat): (r: State)
    requires Valid(s, n)
    ensures Valid(r, n)
    ensures !r.dragging && r.offset == 0
    ensures r.active == Swipe(s, n, s.offset, MouseThreshold).active
  {
    Swipe(s, n, s.offset, MouseThreshold).(dragging := false, offset := 0)
  }

  /** A release inside the carousel fires both handlers; the first one
      clears the offset, so the second moves nothing and one drag moves at
      most one slide. */
  lemma {:induction false} ReleaseMovesOnce(s: State, n: nat)
    requires Valid(s, n)
    ensures GlobalMouseUp(MouseUp(s, n), n) == MouseUp(s, n) || !s.dragging || n <= 1
  {
    if s.dragging && n > 1 {
      var m := MouseUp(s, n);
      assert m.offset == 0 && !m.dragging;
      assert Swipe(m, n, 0, MouseThreshold) == m;
    }
  }

  /** `handleMouseLeave`: a drag that leaves the carousel is dropped without
      moving. */
  function MouseLeave(s: State): (r: State)
    ensures !r.dragging
    ensures r.active == s.active
    ensures s.dragging ==> r.offset == 0
    ensures !s.dragging ==> r == s
  {
    if s.dragging then s.(dragging := false, offset := 0) else s
  }

  /** `handleTouchStart`. */
  function TouchStart(s: State, n: nat, x: int): (r: State)
    ensures n <= 1 ==> r == s
    ensures n > 1 ==> r == s.(touchStart := Some(x), touchDelta := 0)
  {
    if n <= 1 then s else s.(touchStart := Some(x), touchDelta := 0)
  }

  /** `handleTouchMove`. */
  function TouchMove(s: State, n: nat, x: int): (r: State)
    ensures s.touchStart.None? || n <= 1 ==> r == s
    ensures s.touchStart.Some? && n > 1 ==> r == s.(touchDelta := x - s.touchStart.value)
  {
    if s.touchStart.None? || n <= 1 then s else s.(touchDelta := x - s.touchStart.value)
  }

  /** `handleTouchEnd`: the swipe rule with a 50px threshold; the touch is
      forgotten afterwards. */
  function TouchEnd(s: State, n: nat): (r: State)
    requires Valid(s, n)
    ensures Valid(r, n)
    ensures s.touchStart.None? || n <= 1 ==> r == s
    ensures s.touchStart.Some? && n > 1 ==> r.touchStart.None? && r.touchDelta == 0
    ensures s.touchStart.Some? && n > 1 ==> r.active == Swipe(s, n, s.touchDelta, TouchThreshold).active
  {
    if s.touchStart.None? || n <= 1 then s
    else Swipe(s, n, s.touchDelta, TouchThreshold).(touchStart := None, touchDelta := 0)
  }

  /** A full swipe: touch at `x0`, move to `x1`, lift. Moving more than 50px
      right shows the previous project, more than 50px left the next one. */
  lemma {:induction false} TouchSwipe(s: State, n: nat, x0: int, x1: int)
    requires Valid(s, n) && n > 1
    ensures var r := TouchEnd(TouchMove(TouchStart(s, n, x0), n, x1), n);
            && (x1 - x0 > TouchThreshold ==> r.active == Prev(s.active, n))
            && (x1 - x0 < -TouchThreshold ==> r.active == Next(s.active, n))
            && (-TouchThreshold <= x1 - x0 <= TouchThreshold ==> r.active == s.active)
            && r.touchStart.None?
  {
    var t := TouchMove(TouchStart(s, n, x0), n, x1);
    assert t.touchDelta == x1 - x0 && t.active == s.active;
  }

  /** The fullscreen arrows: modular steps with no guard; the viewer exists
      only when there is a project. */
  function FullscreenPrev(s: State, n: nat): (r: State)
    requires n > 0
    ensures r.fullscreenIndex < n
    ensures r == s.(fullscreenIndex := Prev(s.fullscreenIndex, n))
  {
    s.(fullscreenIndex := Prev(s.fullscreenIndex, n))
  }

  function FullscreenNext(s: State, n: nat): (r: State)
    requires n > 0
    ensures r.fullscreenIndex < n
    ensures r == s.(fullscreenIndex := Next(s.fullscreenIndex, n))
  {
    s.(fullscreenIndex := Next(s.fullscreenIndex, n))
  }

  lemma FullscreenInverse(s: State, n: nat)
    requires n > 0 && s.fullscreenIndex < n
    ensures FullscreenPrev(FullscreenNext(s, n), n) == s
    ensures FullscreenNext(FullscreenPrev(s, n), n) == s
  {
    PrevNextInverse(s.fullscreenIndex, n);
  }

  /** What the slideshow draws. */
  datatype Layout =
    | Nothing                                  // no projects
    | Single(shown: nat)                       // one slide at a time
    | ThreeUp(left: nat, centre: nat, right: nat)

  /** Three slides side by side on a desktop with three or more projects,
      else one; nothing at all without projects. */
  function Render(s: State, n: nat, isDesktop: bool): (r: Layout)
    requires Valid(s, n)
    ensures r.Nothing? <==> n == 0
    ensures r.ThreeUp? <==> isDesktop && n >= 3
    ensures r.ThreeUp? ==> r.left < n && r.centre < n && r.right < n
    ensures r.ThreeUp? ==> r.centre == s.active && r.left != r.centre && r.right != r.centre && r.left != r.right
    ensures r.Single? ==> r.shown == s.active && r.shown < n
  {
    if n == 0 then Nothing
    else if isDesktop && n >= 3 then
      NeighboursDistinct(s.active, n);
      ThreeUp(Prev(s.active, n), s.active, Next(s.active, n))
    else Single(s.active)
  }

  /** The fullscreen counter "k / n", shown only for two or more projects. */
  function Counter(s: State, n: nat): (r: Option<(nat, nat)>)
    requires n > 0 && s.fullscreenIndex < n
    ensures r.Some? <==> n > 1
    ensures r.Some? ==> 1 <= r.value.0 <= r.value.1 == n
  {
    if n > 1 then Some((s.fullscreenIndex + 1, n)) else None
  }
}
