/** The product image gallery (components/ProductGallery.tsx): arrows,
    autoplay, the active image, the zoom modal and its lens. Lens positions
    are whole percentages. */
module Gallery {
  import opened Wrappers
  import opened Text
  import opened Cyclic

  datatype Direction = Forward | Backward   // slideDir 'next' / 'prev'

  datatype State = State(active: nat, dir: Direction, zoomOpen: bool)

  const Initial := State(0, Forward, false)

  predicate Valid(s: State, n: nat) {
    s.active < n || (n == 0 && s.active == 0)
  }

  /** `goPrev`: nothing on an empty list, else one image back. */
  function GoPrev(s: State, n: nat): (r: State)
    requires Valid(s, n)
    ensures Valid(r, n)
    ensures n == 0 ==> r == s
    ensures n > 0 ==> r.active == Prev(s.active, n) && r.dir == Backward && r.zoomOpen == s.zoomOpen
  {
    if n == 0 then s else s.(active := Prev(s.active, n), dir := Backward)
  }

  /** `goNext`: nothing on an empty list, else one image on. */
  function GoNext(s: State, n: nat): (r: State)
    requires Valid(s, n)
    ensures Valid(r, n)
    ensures n == 0 ==> r == s
    ensures n > 0 ==> r.active == Next(s.active, n) && r.dir == Forward && r.zoomOpen == s.zoomOpen
  {
    if n == 0 then s else s.(active := Next(s.active, n), dir := Forward)
  }

  /** The arrows undo each other's move (the direction records the last
      arrow pressed). */
  lemma {:induction false} ArrowsInverse(s: State, n: nat)
    requires Valid(s, n)
    ensures GoPrev(GoNext(s, n), n).active == s.active
    ensures GoNext(GoPrev(s, n), n).active == s.active
  {
    if n > 0 {
      PrevNextInverse(s.active, n);
    }
  }

  /** One autoplay tick: the timer runs only with two or more images. */
  function Tick(s: State, n: nat): (r: State)
    requires Valid(s, n)
    ensures Valid(r, n)
    ensures n <= 1 ==> r == s
    ensures n > 1 ==> r == GoNext(s, n)
  {
    if n <= 1 then s else s.(dir := Forward, active := Next(s.active, n))
  }

  /** After `k` ticks on a list of two or more, the gallery shows image
      `(i + k) % n`. */
  lemma {:induction false} TicksAdvance(s: State, n: nat, k: nat)
    requires Valid(s, n) && n > 1
    ensures Ticks(s, n, k).active == (s.active + k) % n
    decreases k
  {
    if k > 0 {
      TicksAdvance(s, n, k - 1);
      var t := Ticks(s, n, k - 1);
      assert t.active == (s.active + k - 1) % n;
      ModStep(s.active + k - 1, n);
    }
  }

  function Ticks(s: State, n: nat, k: nat): (r: State)
    requires Valid(s, n)
    ensures Valid(r, n)
    decreases k
  {
    if k == 0 then s else Tick(Ticks(s, n, k - 1), n)
  }

  /** When the number of images changes, the first image is shown again,
      sliding forward. */
  function Reset(s: State): (r: State)
    ensures r.active == 0 && r.dir == Forward && r.zoomOpen == s.zoomOpen
    ensures forall n: nat :: Valid(r, n)
  {
    s.(active := 0, dir := Forward)
  }

  /** `list[activeIndex] || null`: the image at the index, if there is one
      and it is not the empty string. */
  function Active(list: seq<string>, i: nat): (r: Option<string>)
    ensures r.Some? <==> i < |list| && list[i] != ""
    ensures r.Some? ==> r.value == list[i]
  {
    if i < |list| && list[i] != "" then Some(list[i]) else None
  }

  /** Clicking the picture opens the zoom only when there is an image. */
  function OpenZoom(s: State, list: seq<string>): (r: State)
    ensures Active(list, s.active).Some? ==> r == s.(zoomOpen := true)
    ensures Active(list, s.active).None? ==> r == s
  {
    if Active(list, s.active).Some? then s.(zoomOpen := true) else s
  }

  /** The modal is drawn when it is open and there is an image. */
  function ShowsModal(s: State, list: seq<string>): (r: bool)
    ensures r ==> s.zoomOpen && s.active < |list|
    ensures r <==> s.zoomOpen && Active(list, s.active).Some?
  {
    s.zoomOpen && Active(list, s.active).Some?
  }

  /** Opening through the picture always shows the modal. */
  lemma OpenedZoomShows(s: State, list: seq<string>)
    requires Active(list, s.active).Some?
    ensures ShowsModal(OpenZoom(s, list), list)
  {
  }

  /** `Math.min(100, Math.max(0, v))`: a lens coordinate as a percentage. */
  function LensCoordinate(v: int): (r: int)
    ensures 0 <= r <= 100
    ensures 0 <= v <= 100 ==> r == v
    ensures v < 0 ==> r == 0
    ensures v > 100 ==> r == 100
  {
    Clamp(v, 0, 100)
  }
}
