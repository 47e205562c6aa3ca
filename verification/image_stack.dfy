/** The image stack: one view per image, in image order, each placed by its
    stack position, and the front image flagged when the carousel has just
    wrapped from the last image to the first. */
module ImageStack {
  import opened Carousel
  import opened ResponsiveCalculations

  /** Where a wrapping image starts its entrance: off-screen and transparent. */
  datatype Entrance = Entrance(y: int, opacity: real)

  datatype ImageView = ImageView(
    src: string,
    stackPosition: int,
    isComingFromLast: bool,
    placement: Placement,
    initial: Option<Entrance>,
    opacityDuration: real)

  /** Opacity transition of a wrapping image, and of every other image (seconds). */
  const WrapOpacityDuration: real := 0.4
  const OpacityDuration: real := 0.5

  /** The image at `index` is the new front and the pair shows a move from
      the last image to the first. */
  predicate IsComingFromLast(index: int, current: int, prev: int, n: int) {
    index == current && current == 0 && prev == n - 1
  }

  /** The view of one image: at the front exactly when it is the current
      one, and given an entrance exactly when it is wrapping in, which only
      the front image can do. */
  function RenderImage(src: string, index: int, current: int, prev: int, n: int, width: int): (r: ImageView)
    ensures r.src == src
    ensures r.stackPosition == 0 <==> index == current
    ensures r.isComingFromLast ==> r.stackPosition == 0 && r.placement.zIndex == 35
    ensures r.initial.Some? <==> r.isComingFromLast
  {
    var coming := IsComingFromLast(index, current, prev, n);
    var position := StackPosition(index, current, n);
    ImageView(
      src,
      position,
      coming,
      CalculateImagePosition(position, width, coming && index == current),
      if coming then Some(Entrance(SlideDistance(width), 0.0)) else None,
      if coming then WrapOpacityDuration else OpacityDuration)
  }

  /** `ImageStack`: the views of all images for one render. */
  function RenderStack(images: seq<string>, current: int, prev: int, width: int): (r: seq<ImageView>)
    ensures |r| == |images|
    ensures forall i :: 0 <= i < |r| ==> r[i].src == images[i]
  {
    seq(|images|, i requires 0 <= i < |images| => RenderImage(images[i], i, current, prev, |images|, width))
  }

  /** Exactly the image at `current` is at the front (so exactly one when the
      index is valid), and at most one image, the front one, is wrapping in. */
  lemma StackFront(images: seq<string>, current: int, prev: int, width: int)
    ensures var r := RenderStack(images, current, prev, width);
      && (forall i :: 0 <= i < |r| ==> (r[i].stackPosition == 0 <==> i == current))
      && (forall i, j :: 0 <= i < |r| && 0 <= j < |r| && r[i].isComingFromLast && r[j].isComingFromLast ==> i == j)
      && (forall i :: 0 <= i < |r| && r[i].isComingFromLast ==>
            i == current == 0 && prev == |images| - 1 && r[i].stackPosition == 0)
  {
  }

  /** Each view's placement is the geometry of its stack position with the
      wrap flag equal to its `isComingFromLast`; only a wrapping image gets an
      entrance (slide distance, opacity 0) and the shorter opacity transition;
      a wrapping image paints at 35, above every other image. */
  lemma StackPlacement(images: seq<string>, current: int, prev: int, width: int)
    ensures var r := RenderStack(images, current, prev, width);
      forall i :: 0 <= i < |r| ==>
        && r[i].placement == CalculateImagePosition(r[i].stackPosition, width, r[i].isComingFromLast)
        && (r[i].initial.Some? <==> r[i].isComingFromLast)
        && (r[i].isComingFromLast ==> r[i].initial.value == Entrance(SlideDistance(width), 0.0))
        && (r[i].opacityDuration == if r[i].isComingFromLast then 0.4 else 0.5)
        && (r[i].isComingFromLast ==> r[i].placement.zIndex == 35)
        && (!r[i].isComingFromLast ==> r[i].placement.zIndex <= 30)
  {
  }

  /** With at least three images, the wrap flag is raised by exactly one kind
      of change: a forward change from the last image. (With two images a
      backward change from 1 gives the same pair and is flagged too.) */
  lemma WrapIffForwardFromLast(i: int, n: int, direction: int)
    requires n >= 3 && 0 <= i < n
    ensures IsComingFromLast(0, Move(i, n, direction), i, n) <==> direction > 0 && i == n - 1
  {
  }

  /** The stack orders images by the ring, not by history: after a backward
      change the image that was in front goes to the back (position 2) rather
      than right behind the new front, when there are at least three images. */
  lemma BackwardSendsOldFrontToBack(i: int, n: int)
    requires n >= 3 && 0 <= i < n
    ensures StackPosition(i, Backward(i, n), n) == 2
    ensures StackPosition(i, Forward(i, n), n) == 1
  {
    PreviousFrontIsBackward(Backward(i, n), n);
    PreviousFrontIsBackward(Forward(i, n), n);
    MoveRoundTrip(i, n);
    if i == 0 {
      assert Backward(n - 1, n) == n - 2;
    } else if i == 1 {
      assert Backward(0, n) == n - 1;
    } else {
      assert Backward(i - 1, n) == i - 2;
    }
  }

  /** At mount both indices are 0, so with two or more images nothing wraps. */
  lemma NoWrapAtMount(images: seq<string>, width: int)
    requires |images| >= 2
    ensures forall v :: v in RenderStack(images, 0, 0, width) ==> !v.isComingFromLast
  {
  }
}
