/** The stack geometry of the hero carousel: total functions from a stack
    position, the viewport width and the wrap flag to the scale, vertical
    offset, opacity and paint order of one image. Decimal constants are
    exact `real`s; pixel offsets and z-indices are integers. */
module ResponsiveCalculations {
  import opened Carousel

  datatype Placement = Placement(scale: real, y: int, opacity: real, zIndex: int)

  function MaxReal(a: real, b: real): real {
    if a >= b then a else b
  }

  function MaxInt(a: int, b: int): int {
    if a >= b then a else b
  }

  /** JavaScript's `%`: the remainder takes the sign of the dividend. */
  function JsRemainder(a: int, b: int): (r: int)
    requires b != 0
    ensures a >= 0 ==> r == a % b
    ensures Abs(r) < Abs(b)
  {
    if a >= 0 then a % b else -((-a) % b)
  }

  /** The lowest scale of a stacked (non-front) image on the desktop ladder. */
  function DesktopScaleFloor(width: int): real {
    if width >= 1024 then 0.7 else 0.75
  }

  function DesktopScale(position: int, width: int): (r: real)
    ensures position == 0 ==> r == 1.0
    ensures position > 0 ==> DesktopScaleFloor(width) <= r < 1.0
  {
    if position == 0 then 1.0
    else if width >= 1024 then MaxReal(0.7, 1.0 - 0.15 * position as real)
    else MaxReal(0.75, 1.0 - 0.12 * position as real)
  }

  /** Pixels each stack step moves an image up, desktop ladder. */
  function DesktopOffset(width: int): (r: int)
    ensures 25 <= r <= 40
  {
    if width >= 1536 then 40
    else if width >= 1280 then 35
    else if width >= 1024 then 30
    else 25
  }

  /** The lowest scale of a stacked image on the mobile ladder. */
  function MobileScaleFloor(width: int): real {
    if width >= 700 then 0.70
    else if width >= 600 then 0.72
    else if width >= 450 then 0.75
    else 0.80
  }

  function MobileScale(position: int, width: int): (r: real)
    ensures position == 0 ==> r == 1.0
    ensures position > 0 ==> MobileScaleFloor(width) <= r < 1.0
  {
    if position == 0 then 1.0
    else if width >= 700 then MaxReal(0.70, 1.0 - 0.15 * position as real)
    else if width >= 600 then MaxReal(0.72, 1.0 - 0.14 * position as real)
    else if width >= 450 then MaxReal(0.75, 1.0 - 0.12 * position as real)
    else MaxReal(0.80, 1.0 - 0.10 * position as real)
  }

  /** Pixels each stack step moves an image up, mobile ladder. */
  function MobileOffset(width: int): (r: int)
    ensures 20 <= r <= 35
  {
    if width >= 700 then 35
    else if width >= 600 then 30
    else if width >= 450 then 25
    else 20
  }

  function MobileOpacity(position: int, width: int): (r: real)
    ensures position == 0 ==> r == 1.0
    ensures position > 0 ==> (if width >= 600 then 0.5 else 0.6) <= r < 1.0
  {
    if position == 0 then 1.0
    else if width >= 600 then MaxReal(0.5, 1.0 - 0.2 * position as real)
    else MaxReal(0.6, 1.0 - 0.15 * position as real)
  }

  function DesktopOpacity(position: int): (r: real)
    ensures position == 0 ==> r == 1.0
    ensures position > 0 ==> 0.4 <= r < 1.0
  {
    if position == 0 then 1.0 else MaxReal(0.4, 1.0 - 0.25 * position as real)
  }

  /** Paint order: the front image at 30, or 35 while it wraps in so that it
      covers the image it replaces; each stack step 8 lower, never below 5. */
  function ZIndex(stackPosition: int, isComingFromLast: bool): (r: int)
    ensures stackPosition >= 0 ==> 5 <= r <= 35
    ensures stackPosition > 0 ==> r <= 22
    ensures stackPosition == 0 ==> r >= 30
  {
    if stackPosition == 0 then (if isComingFromLast then 35 else 30)
    else MaxInt(5, 30 - 8 * stackPosition)
  }

  /** `calculateImagePosition`. A wrapping image rests at the front values
      (no offset, fully opaque) because it slides in from off-screen. */
  function CalculateImagePosition(stackPosition: int, width: int, isComingFromLast: bool): (r: Placement)
    ensures stackPosition >= 0 ==>
      && 0.7 <= r.scale <= 1.0
      && 0.4 <= r.opacity <= 1.0
      && r.y <= 0
      && 5 <= r.zIndex <= 35
    ensures stackPosition == 0 ==> r.scale == 1.0 && r.zIndex == (if isComingFromLast then 35 else 30)
    ensures isComingFromLast || stackPosition == 0 ==> r.y == 0 && r.opacity == 1.0
    ensures stackPosition > 0 && !isComingFromLast ==> r.y < 0 && r.opacity < 1.0
    ensures stackPosition > 0 ==> r.scale < 1.0 && r.zIndex == MaxInt(5, 30 - 8 * stackPosition)
  {
    if width >= DesktopBreakpoint then
      var offset := DesktopOffset(width);
      Placement(
        DesktopScale(stackPosition, width),
        if isComingFromLast || stackPosition == 0 then 0 else -offset * stackPosition,
        if isComingFromLast then 1.0 else DesktopOpacity(stackPosition),
        ZIndex(stackPosition, isComingFromLast))
    else
      var offset := MobileOffset(width);
      Placement(
        MobileScale(stackPosition, width),
        if isComingFromLast || stackPosition == 0 then 0 else -offset * stackPosition,
        if isComingFromLast then 1.0 else MobileOpacity(stackPosition, width),
        ZIndex(stackPosition, isComingFromLast))
  }

  /** The regime is chosen by width alone: from 768 up the scale, the offset
      of a stacked image and the opacity all come from the desktop ladders,
      below it all from the mobile ladders. */
  lemma RegimeSelection(stackPosition: int, width: int, isComingFromLast: bool)
    ensures var r := CalculateImagePosition(stackPosition, width, isComingFromLast);
      var desktop := width >= DesktopBreakpoint;
      && r.scale == (if desktop then DesktopScale(stackPosition, width) else MobileScale(stackPosition, width))
      && (!isComingFromLast && stackPosition != 0 ==>
            r.y == -(if desktop then DesktopOffset(width) else MobileOffset(width)) * stackPosition)
      && (!isComingFromLast ==>
            r.opacity == (if desktop then DesktopOpacity(stackPosition) else MobileOpacity(stackPosition, width)))
  {
  }

  /** The front image paints above every stacked image, whatever the widths
      and wrap flags the two were computed with. */
  lemma FrontPaintsAbove(p: int, w1: int, w2: int, wrap1: bool, wrap2: bool)
    requires p > 0
    ensures CalculateImagePosition(0, w1, wrap1).zIndex > CalculateImagePosition(p, w2, wrap2).zIndex
  {
  }

  /** Deeper in the stack never means larger. */
  lemma ScaleNonIncreasing(p: int, q: int, width: int)
    requires 0 <= p <= q
    ensures CalculateImagePosition(q, width, false).scale <= CalculateImagePosition(p, width, false).scale
  {
  }

  /** Deeper in the stack never means more opaque (outside a wrap). */
  lemma OpacityNonIncreasing(p: int, q: int, width: int)
    requires 0 <= p <= q
    ensures CalculateImagePosition(q, width, false).opacity <= CalculateImagePosition(p, width, false).opacity
  {
  }

  /** Within each regime a wider screen spreads the stack at least as far. */
  lemma OffsetNonDecreasing(w1: int, w2: int)
    requires w1 <= w2
    ensures DesktopOffset(w1) <= DesktopOffset(w2)
    ensures MobileOffset(w1) <= MobileOffset(w2)
  {
  }

  /** `getResponsiveSlideDistance`: where a wrapping image starts its slide. */
  function SlideDistance(width: int): (r: int)
    ensures -200 <= r <= -60
    ensures width >= DesktopBreakpoint ==> r <= -140
    ensures width < DesktopBreakpoint ==> r >= -90
  {
    if width >= DesktopBreakpoint then
      if width >= 1536 then -200
      else if width >= 1280 then -180
      else if width >= 1024 then -160
      else -140
    else
      if width >= 700 then -90
      else if width >= 600 then -80
      else if width >= 450 then -70
      else -60
  }

  /** Wider screens slide from further away, across both regimes. */
  lemma SlideDistanceNonIncreasing(w1: int, w2: int)
    requires w1 <= w2
    ensures SlideDistance(w2) <= SlideDistance(w1)
  {
  }

  /** The image that sits right behind the front: `(current - 1 + n) % n`. */
  function PreviousFront(current: int, n: int): int
    requires n != 0
  {
    JsRemainder(current - 1 + n, n)
  }

  /** For a valid front index the image behind it is the one a backward
      change would show, and differs from the front when n >= 2. */
  lemma PreviousFrontIsBackward(current: int, n: int)
    requires 0 <= current < n
    ensures PreviousFront(current, n) == Backward(current, n)
    ensures n >= 2 ==> PreviousFront(current, n) != current
  {
    if current == 0 {
      assert current - 1 + n == n - 1;
    } else {
      assert (current - 1 + n) % n == current - 1 by {
        assert current - 1 + n == (current - 1) + 1 * n;
      }
    }
  }

  /** `getStackPosition`: 0 at the front, 1 right behind it, 2 for the rest.
      With no images the JavaScript remainder is NaN, so only 0 or 2 occur. */
  function StackPosition(index: int, current: int, n: int): (r: int)
    ensures 0 <= r <= 2
    ensures r == 0 <==> index == current
    ensures r == 1 <==> index != current && n != 0 && index == PreviousFront(current, n)
  {
    if index == current then 0
    else if n != 0 && index == PreviousFront(current, n) then 1
    else 2
  }

  /** Over the indices 0..n-1 exactly one image is at the front, and, with
      at least two images, exactly one right behind it. */
  lemma ExactlyOneFront(current: int, n: int)
    requires 0 <= current < n
    ensures CountBelow(n, i => StackPosition(i, current, n) == 0) == 1
    ensures n >= 2 ==> CountBelow(n, i => StackPosition(i, current, n) == 1) == 1
  {
    CountSingle(n, i => StackPosition(i, current, n) == 0, current);
    PreviousFrontIsBackward(current, n);
    if n >= 2 {
      CountSingle(n, i => StackPosition(i, current, n) == 1, PreviousFront(current, n));
    }
  }
}
