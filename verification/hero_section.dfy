/** The original, inline gesture debouncer of `HeroSection`, with its own
    constants (lock 800 ms, thresholds 50/70, idle reset 250 ms, wheel cap 80)
    and its own small differences from the hook: `changeImage` rejects while
    locked, it keeps the touch position, the release timer keeps it too, and
    touch-end always drops it. Also the background index and the inline
    per-image geometry, proved equal to the refactored image stack. */
module HeroSectionInline {
  import opened Carousel
  import opened ResponsiveCalculations
  import ImageStack
  import ProgressIndicator
  import TextOverlay

  const MobileThreshold := 50
  const DesktopThreshold := 70
  const IdleResetTime := 250
  const WheelCap := 80

  function ScrollThreshold(isMobile: bool): nat {
    if isMobile then MobileThreshold else DesktopThreshold
  }

  /** Between events: indices name images, a held lock comes with a zero
      accumulator, and nothing has happened before initialisation. Unlike
      the hook, a held lock may come with a tracked touch position. */
  predicate Inv(s: State) {
    && InRange(s)
    && (s.isLocked ==> s.accumulatedDelta == 0)
    && (!s.isInitialized ==> !s.isLocked && s.currentImageIndex == 0 && s.prevImageIndex == 0)
  }

  /** `changeImage(direction)`: rejected (false, nothing changes) while the
      lock is held; otherwise it takes the lock, records the time, clears the
      accumulator, moves the pair one step and returns true. The touch
      position is left as it is. */
  function ChangeStep(s: State, now: int, direction: int): (r: State)
    requires InRange(s)
    ensures InRange(r)
    ensures s.isLocked ==> r == s
    ensures !s.isLocked ==>
      && r.isLocked && r.accumulatedDelta == 0 && r.lastChangeTime == now
      && Changed(s, r, direction)
      && r.lastTouchY == s.lastTouchY && r.lastWheelTime == s.lastWheelTime
  {
    if s.isLocked then s
    else
      s.(isLocked := true, lastChangeTime := now, accumulatedDelta := 0,
         prevImageIndex := s.currentImageIndex,
         currentImageIndex := Move(s.currentImageIndex, s.imagesLength, direction))
  }

  /** The release timer's callback, 800 ms after the change. */
  function ReleaseStep(s: State): (r: State)
    ensures !r.isLocked && r.accumulatedDelta == 0 && SameIndices(s, r) && r.lastTouchY == s.lastTouchY
  {
    s.(isLocked := false, accumulatedDelta := 0)
  }

  function WheelAccumulation(s: State, now: int, deltaY: int): int {
    (if now - s.lastWheelTime > IdleResetTime then 0 else s.accumulatedDelta)
    + Normalize(deltaY, WheelCap)
  }

  /** The wheel handler. Like every handler it keeps the invariant, leaves
      the settings alone and does nothing while locked or uninitialised. */
  function WheelStep(s: State, now: int, deltaY: int): (r: State)
    requires Inv(s)
    ensures Inv(r) && KeepsSettings(s, r)
    ensures !s.isInitialized || s.isLocked ==> r == s
  {
    if !s.isInitialized || s.isLocked then s
    else
      var acc := WheelAccumulation(s, now, deltaY);
      var t := s.(lastWheelTime := now, accumulatedDelta := acc);
      if Abs(acc) >= ScrollThreshold(s.isMobile) then ChangeStep(t, now, AccumulatedDirection(acc))
      else t
  }

  function TouchStartStep(s: State, y: int): (r: State)
    requires Inv(s)
    ensures Inv(r) && KeepsSettings(s, r) && SameIndices(s, r)
    ensures !s.isInitialized || s.isLocked ==> r == s
  {
    if !s.isInitialized || s.isLocked then s
    else s.(lastTouchY := Some(y), accumulatedDelta := 0)
  }

  function TouchMoveStep(s: State, now: int, y: int): (r: State)
    requires Inv(s)
    ensures Inv(r) && KeepsSettings(s, r)
    ensures !s.isInitialized || s.isLocked || s.lastTouchY == None ==> r == s
  {
    if !s.isInitialized || s.isLocked || s.lastTouchY == None then s
    else
      var acc := s.accumulatedDelta + (s.lastTouchY.value - y);
      var t := s.(accumulatedDelta := acc, lastTouchY := Some(y));
      if Abs(acc) >= ScrollThreshold(s.isMobile) then ChangeStep(t, now, AccumulatedDirection(acc))
      else t
  }

  /** Touch-end drops the touch position even while the lock is held. */
  function TouchEndStep(s: State): (r: State)
    requires Inv(s)
    ensures Inv(r) && KeepsSettings(s, r) && SameIndices(s, r)
    ensures !s.isInitialized ==> r == s
    ensures s.isInitialized && s.isLocked ==> r == s.(lastTouchY := None)
  {
    if !s.isInitialized then s
    else if s.isLocked then s.(lastTouchY := None)
    else s.(lastTouchY := None, accumulatedDelta := 0)
  }

  function KeyDownStep(s: State, now: int, key: string, repeat: bool): (r: State)
    requires Inv(s)
    ensures Inv(r) && KeepsSettings(s, r)
    ensures !s.isInitialized || s.isLocked || repeat ==> r == s
  {
    if !s.isInitialized || repeat || s.isLocked || KeyDirection(key) == 0 then s
    else ChangeStep(s, now, KeyDirection(key))
  }

  /** One event; a release event without a held lock is no event. */
  function Apply(s: State, e: Event): (r: State)
    requires Inv(s)
    ensures Inv(r) && r.imagesLength == s.imagesLength
  {
    match e
    case Wheel(now, deltaY) => WheelStep(s, now, deltaY)
    case TouchStart(y) => TouchStartStep(s, y)
    case TouchMove(now, y) => TouchMoveStep(s, now, y)
    case TouchEnd => TouchEndStep(s)
    case KeyDown(now, key, repeat) => KeyDownStep(s, now, key, repeat)
    case ReleaseTimer => if s.isLocked then ReleaseStep(s) else s
    case InitTimer => s.(isInitialized := true)
    case Resize(width) => s.(isMobile := IsMobile(width))
  }

  /** Any sequence of events keeps the invariant, so the pair stays in range. */
  function Run(s: State, evs: seq<Event>): (r: State)
    requires Inv(s)
    ensures Inv(r) && r.imagesLength == s.imagesLength
    decreases |evs|
  {
    if evs == [] then s else Run(Apply(s, evs[0]), evs[1..])
  }

  /** How many events of the run took the lock, i.e. changed the image. */
  function Changes(s: State, evs: seq<Event>): nat
    requires Inv(s)
    decreases |evs|
  {
    if evs == [] then 0
    else
      var r := Apply(s, evs[0]);
      (if !s.isLocked && r.isLocked then 1 else 0) + Changes(r, evs[1..])
  }

  /** An event either takes the lock and moves the pair one step, or leaves
      the pair as it was; only the release timer gives the lock back. */
  lemma StepOutcome(s: State, e: Event)
    requires Inv(s)
    ensures var r := Apply(s, e);
      if !s.isLocked && r.isLocked then
        && (e.Wheel? || e.TouchMove? || e.KeyDown?)
        && (Changed(s, r, 1) || Changed(s, r, -1))
        && r.lastChangeTime == e.now
      else
        SameIndices(s, r) && r.lastChangeTime == s.lastChangeTime
    ensures s.isLocked && !Apply(s, e).isLocked ==> e.ReleaseTimer?
  {
  }

  /** While locked, input changes neither the pair, the accumulator nor
      `lastWheelTime`; the only thing that can change is that touch-end drops
      the touch position. */
  lemma LockedInputIgnored(s: State, e: Event)
    requires Inv(s) && s.isLocked && e.IsInput()
    ensures Apply(s, e) == s || (e.TouchEnd? && Apply(s, e) == s.(lastTouchY := None))
  {
  }

  /** No handler is installed before the init timer, so input changes nothing. */
  lemma UninitializedInputIgnored(s: State, e: Event)
    requires Inv(s) && !s.isInitialized && e.IsInput()
    ensures Apply(s, e) == s
  {
  }

  /** Within one lock window the index pair, accumulator, wheel time and
      change time are kept, and no event changes the image. */
  lemma {:induction false} LockWindowFrozen(s: State, evs: seq<Event>)
    requires Inv(s) && s.isLocked && NoRelease(evs)
    ensures var r := Run(s, evs);
      && r.isLocked && SameIndices(s, r)
      && r.accumulatedDelta == s.accumulatedDelta
      && r.lastWheelTime == s.lastWheelTime
      && r.lastChangeTime == s.lastChangeTime
    ensures Changes(s, evs) == 0
    decreases |evs|
  {
    if evs != [] {
      var r := Apply(s, evs[0]);
      assert NoRelease(evs[1..]) by {
        forall i | 0 <= i < |evs[1..]| ensures !evs[1..][i].ReleaseTimer? {
          assert evs[1..][i] == evs[i + 1];
        }
      }
      LockWindowFrozen(r, evs[1..]);
    }
  }

  /** At most one change between two releases, whichever inputs arrive. */
  lemma {:induction false} AtMostOneChangePerLockWindow(s: State, evs: seq<Event>)
    requires Inv(s) && NoRelease(evs)
    ensures Changes(s, evs) <= 1
    ensures s.isLocked ==> Changes(s, evs) == 0
    decreases |evs|
  {
    if s.isLocked {
      LockWindowFrozen(s, evs);
    } else if evs != [] {
      assert NoRelease(evs[1..]) by {
        forall i | 0 <= i < |evs[1..]| ensures !evs[1..][i].ReleaseTimer? {
          assert evs[1..][i] == evs[i + 1];
        }
      }
      AtMostOneChangePerLockWindow(Apply(s, evs[0]), evs[1..]);
    }
  }

  /** The wheel rule: a change fires exactly when the accumulator reaches
      the threshold, in its direction; otherwise it is kept. */
  lemma WheelRule(s: State, now: int, deltaY: int)
    requires Inv(s) && s.isInitialized && !s.isLocked
    ensures var acc := WheelAccumulation(s, now, deltaY);
      var r := WheelStep(s, now, deltaY);
      && (r.isLocked <==> Abs(acc) >= ScrollThreshold(s.isMobile))
      && (r.isLocked ==> Changed(s, r, AccumulatedDirection(acc)) && r.accumulatedDelta == 0)
      && (!r.isLocked ==> SameIndices(s, r) && r.accumulatedDelta == acc && r.lastWheelTime == now)
  {
  }

  /** A gap longer than `IdleResetTime` forgets earlier deltas. */
  lemma IdleResetForgets(s: State, now: int, deltaY: int)
    requires Inv(s) && s.isInitialized
    ensures now - s.lastWheelTime > IdleResetTime ==>
      WheelStep(s, now, deltaY) == WheelStep(s.(accumulatedDelta := 0), now, deltaY)
  {
  }

  /** Here the cap (80) is at least both thresholds, so one fast wheel event
      that starts a new gesture changes the image on its own. */
  lemma {:induction false} FastWheelEventFires(s: State, now: int, deltaY: int)
    requires Inv(s) && s.isInitialized && !s.isLocked
    requires now - s.lastWheelTime > IdleResetTime && Abs(deltaY) >= ScrollThreshold(s.isMobile)
    ensures WheelStep(s, now, deltaY).isLocked
    ensures Changed(s, WheelStep(s, now, deltaY), Sign(deltaY))
  {
    var n := Normalize(deltaY, WheelCap);
    assert Abs(n) >= ScrollThreshold(s.isMobile);
    assert AccumulatedDirection(n) == Sign(deltaY);
  }

  /** The touch-move rule on an unlocked, initialised record: without a
      tracked position nothing happens; with one, the finger's travel is
      added to the accumulator, and a change fires exactly when the sum
      reaches the threshold, in its direction. Either way the new position is
      kept, also across the change. */
  lemma TouchMoveRule(s: State, now: int, y: int)
    requires Inv(s) && s.isInitialized && !s.isLocked
    ensures s.lastTouchY == None ==> TouchMoveStep(s, now, y) == s
    ensures s.lastTouchY.Some? ==>
      var acc := s.accumulatedDelta + (s.lastTouchY.value - y);
      var r := TouchMoveStep(s, now, y);
      && (r.isLocked <==> Abs(acc) >= ScrollThreshold(s.isMobile))
      && r.lastTouchY == Some(y)
      && (r.isLocked ==> Changed(s, r, AccumulatedDirection(acc)) && r.lastChangeTime == now && r.accumulatedDelta == 0)
      && (!r.isLocked ==> SameIndices(s, r) && r.accumulatedDelta == acc)
  {
  }

  /** Touch start and touch end on an unlocked, initialised record: a start
      tracks the finger from `y` with a fresh accumulator, an end forgets
      the finger and the accumulator; neither moves the pair or the lock. */
  lemma TouchStartEndRule(s: State, y: int)
    requires Inv(s) && s.isInitialized && !s.isLocked
    ensures var r := TouchStartStep(s, y);
      r.lastTouchY == Some(y) && r.accumulatedDelta == 0 && !r.isLocked
      && r.lastWheelTime == s.lastWheelTime && r.lastChangeTime == s.lastChangeTime
    ensures var r := TouchEndStep(s);
      r.lastTouchY == None && r.accumulatedDelta == 0 && !r.isLocked
      && r.lastWheelTime == s.lastWheelTime && r.lastChangeTime == s.lastChangeTime
  {
  }

  lemma KeyRule(s: State, now: int, key: string, repeat: bool)
    requires Inv(s) && s.isInitialized
    ensures var r := KeyDownStep(s, now, key, repeat);
      && (repeat || s.isLocked || KeyDirection(key) == 0 ==> r == s)
      && (!repeat && !s.isLocked && (key == "ArrowDown" || key == "ArrowRight") ==> r.isLocked && Changed(s, r, 1))
      && (!repeat && !s.isLocked && (key == "ArrowUp" || key == "ArrowLeft") ==> r.isLocked && Changed(s, r, -1))
  {
  }

  /** Unlike the hook, a drag that changed the image keeps its touch
      position through the release, so the same drag, without lifting the
      finger, changes the image again once the lock is released. */
  lemma {:induction false} DragContinuesAfterRelease(s: State, y0: int, t1: int, y1: int, t2: int, y2: int)
    requires Inv(s) && s.isInitialized && !s.isLocked
    requires s.lastTouchY == Some(y0) && s.accumulatedDelta == 0
    requires y0 - y1 >= ScrollThreshold(s.isMobile) && y1 - y2 >= ScrollThreshold(s.isMobile)
    ensures var n := s.imagesLength;
      Run(s, [TouchMove(t1, y1), ReleaseTimer, TouchMove(t2, y2)]).currentImageIndex
        == Forward(Forward(s.currentImageIndex, n), n)
  {
    var evs := [TouchMove(t1, y1), ReleaseTimer, TouchMove(t2, y2)];
    var a := Apply(s, evs[0]);
    assert a.isLocked && a.lastTouchY == Some(y1);
    var b := Apply(a, evs[1]);
    var c := Apply(b, evs[2]);
    assert Run(s, evs) == Run(a, evs[1..]) == Run(b, evs[2..]) == Run(c, []);
  }

  /** The scenario of three images on a desktop: two wheel deltas of 40
      within 100 ms move to image 1; two more while locked do nothing; after
      the release two more move to 2; after the next release two more wrap
      to 0 with 2 as the previous image, which the image stack flags as a wrap. */
  lemma ThreeImageScenario()
    ensures var s0 := Apply(Mount(3, false), InitTimer);
      var s1 := Apply(Apply(s0, Wheel(1000, 40)), Wheel(1050, 40));
      var s2 := Apply(Apply(s1, Wheel(1100, 40)), Wheel(1150, 40));
      var s3 := Apply(Apply(Apply(s2, ReleaseTimer), Wheel(1900, 40)), Wheel(1950, 40));
      var s4 := Apply(Apply(Apply(s3, ReleaseTimer), Wheel(2800, 40)), Wheel(2850, 40));
      && s1.currentImageIndex == 1 && s1.isLocked
      && s2 == s1
      && s3.currentImageIndex == 2
      && s4.currentImageIndex == 0 && s4.prevImageIndex == 2
      && ImageStack.IsComingFromLast(0, s4.currentImageIndex, s4.prevImageIndex, 3)
  {
    var s0 := Apply(Mount(3, false), InitTimer);
    var a := Apply(s0, Wheel(1000, 40));
    assert a.accumulatedDelta == 40 && !a.isLocked;
    var s1 := Apply(a, Wheel(1050, 40));
    assert s1.currentImageIndex == 1 && s1.isLocked;
    var r2 := Apply(s1, ReleaseTimer);
    var b := Apply(r2, Wheel(1900, 40));
    assert b.accumulatedDelta == 40 && !b.isLocked;
    var s3 := Apply(b, Wheel(1950, 40));
    assert s3.currentImageIndex == 2;
    var r3 := Apply(s3, ReleaseTimer);
    var c := Apply(r3, Wheel(2800, 40));
    assert c.accumulatedDelta == 40 && !c.isLocked;
  }

  /** The background colour index, `Math.min(Math.max(current, 0), n - 1)`:
      always a valid index of a non-empty list, and the current index itself
      when that is valid. */
  function BgIndex(current: int, n: int): (r: int)
    ensures n >= 1 ==> 0 <= r < n
    ensures 0 <= current < n ==> r == current
  {
    var lower := if current >= 0 then current else 0;
    if lower <= n - 1 then lower else n - 1
  }

  /** The per-image computation as written inline in the render, with its
      own breakpoint ladders. */
  function InlineImageView(src: string, index: int, current: int, prev: int, n: int, width: int): (r: ImageStack.ImageView)
    ensures r.src == src
    ensures r.stackPosition == 0 <==> index == current
    ensures r.isComingFromLast ==> r.stackPosition == 0 && r.placement.zIndex == 35 && r.placement.y == 0
    ensures r.initial.Some? <==> r.isComingFromLast
  {
    var isActive := index == current;
    var isComingFromLast := isActive && current == 0 && prev == n - 1;
    var stackPosition :=
      if isActive then 0
      else if n != 0 && index == JsRemainder(current - 1 + n, n) then 1
      else 2;
    var scale :=
      if width >= 768 then
        if stackPosition == 0 then 1.0
        else if width >= 1024 then MaxReal(0.7, 1.0 - 0.15 * stackPosition as real)
        else MaxReal(0.75, 1.0 - 0.12 * stackPosition as real)
      else
        if stackPosition == 0 then 1.0
        else if width >= 700 then MaxReal(0.70, 1.0 - 0.15 * stackPosition as real)
        else if width >= 600 then MaxReal(0.72, 1.0 - 0.14 * stackPosition as real)
        else if width >= 450 then MaxReal(0.75, 1.0 - 0.12 * stackPosition as real)
        else MaxReal(0.80, 1.0 - 0.10 * stackPosition as real);
    var offset :=
      if width >= 768 then
        if width >= 1536 then 40 else if width >= 1280 then 35 else if width >= 1024 then 30 else 25
      else
        if width >= 700 then 35 else if width >= 600 then 30 else if width >= 450 then 25 else 20;
    var y := if isComingFromLast && isActive then 0 else if stackPosition == 0 then 0 else -offset * stackPosition;
    var opacity :=
      if isComingFromLast && isActive then 1.0
      else if width >= 768 then
        if stackPosition == 0 then 1.0 else MaxReal(0.4, 1.0 - 0.25 * stackPosition as real)
      else
        if stackPosition == 0 then 1.0
        else if width >= 600 then MaxReal(0.5, 1.0 - 0.2 * stackPosition as real)
        else MaxReal(0.6, 1.0 - 0.15 * stackPosition as real);
    var zIndex := if stackPosition == 0 then (if isComingFromLast then 35 else 30) else MaxInt(5, 30 - 8 * stackPosition);
    var slide :=
      if width >= 768 then
        if width >= 1536 then -200 else if width >= 1280 then -180 else if width >= 1024 then -160 else -140
      else
        if width >= 700 then -90 else if width >= 600 then -80 else if width >= 450 then -70 else -60;
    ImageStack.ImageView(
      src, stackPosition, isComingFromLast,
      Placement(scale, y, opacity, zIndex),
      if isComingFromLast then Some(ImageStack.Entrance(slide, 0.0)) else None,
      if isComingFromLast then 0.4 else 0.5)
  }

  function InlineStack(images: seq<string>, current: int, prev: int, width: int): (r: seq<ImageStack.ImageView>)
    ensures |r| == |images|
    ensures forall i :: 0 <= i < |r| ==> r[i].src == images[i] && (r[i].stackPosition == 0 <==> i == current)
  {
    seq(|images|, i requires 0 <= i < |images| => InlineImageView(images[i], i, current, prev, |images|, width))
  }

  /** The inline render and the refactored `ImageStack` with
      `calculateImagePosition` produce the same views for every input. */
  lemma InlineStackAgrees(images: seq<string>, current: int, prev: int, width: int)
    ensures InlineStack(images, current, prev, width) == ImageStack.RenderStack(images, current, prev, width)
  {
    var a := InlineStack(images, current, prev, width);
    var b := ImageStack.RenderStack(images, current, prev, width);
    forall i | 0 <= i < |images| ensures a[i] == b[i] {
      InlineImageAgrees(images[i], i, current, prev, |images|, width);
    }
  }

  lemma InlineImageAgrees(src: string, index: int, current: int, prev: int, n: int, width: int)
    ensures InlineImageView(src, index, current, prev, n, width) == ImageStack.RenderImage(src, index, current, prev, n, width)
  {
  }

  /** The captions as written inline, with the delay as the literal 0.35 s. */
  function InlineCaptions(texts: seq<string>, current: int, isInitialized: bool): (r: seq<TextOverlay.Caption>)
    ensures |r| == |texts|
    ensures forall i :: 0 <= i < |r| ==> r[i].text == texts[i] && (r[i].opacity == 1.0 <==> i == current)
  {
    seq(|texts|, index requires 0 <= index < |texts| =>
      TextOverlay.Caption(
        texts[index],
        if index == 0 then 1.0 else 0.0,
        if index == 0 then 0 else 15,
        if index == current then 1.0 else 0.0,
        if index == current then 0 else 15,
        if index == current && isInitialized then 0.35 else 0.0))
  }

  /** The inline captions are the `TextOverlay` captions. */
  lemma InlineCaptionsAgree(texts: seq<string>, current: int, isInitialized: bool)
    ensures InlineCaptions(texts, current, isInitialized) == TextOverlay.Captions(texts, current, isInitialized)
  {
  }

  /** The progress line as written inline for three images: four groups of
      sticks around the counters 0, 1 and 2. */
  function InlineProgress(stickCount: nat, current: int): (r: seq<ProgressIndicator.Item>)
    ensures |r| == 4 * stickCount + 3
    ensures r[stickCount] == ProgressIndicator.Counter(0, current == 0)
    ensures r[2 * stickCount + 1] == ProgressIndicator.Counter(1, current == 1)
    ensures r[3 * stickCount + 2] == ProgressIndicator.Counter(2, current == 2)
  {
    var sticks := ProgressIndicator.Sticks(stickCount);
    sticks + [ProgressIndicator.Counter(0, current == 0)]
    + sticks + [ProgressIndicator.Counter(1, current == 1)]
    + sticks + [ProgressIndicator.Counter(2, current == 2)]
    + sticks
  }

  /** The literal labels of the three inline counters. */
  const InlineLabels := ["[01]", "[02]", "[03]"]

  /** The inline progress line is the `ProgressIndicator` layout for three
      images. */
  lemma InlineProgressAgrees(stickCount: nat, current: int)
    ensures InlineProgress(stickCount, current) == ProgressIndicator.Layout(stickCount, current, 3)
  {
    ProgressIndicator.GroupsSplit(stickCount, current, 3);
    ProgressIndicator.GroupsSplit(stickCount, current, 2);
    ProgressIndicator.GroupsSplit(stickCount, current, 1);
    assert ProgressIndicator.CounterIndices(0) == [];
  }

  /** The literal labels of the inline counters are the computed ones. */
  lemma InlineLabelsAgree()
    ensures forall k :: 0 <= k < 3 ==> InlineLabels[k] == ProgressIndicator.Label(k)
  {
    ProgressIndicator.SingleDigitLabel(0);
    ProgressIndicator.SingleDigitLabel(1);
    ProgressIndicator.SingleDigitLabel(2);
    assert ProgressIndicator.DigitChar(1) == '1' && ProgressIndicator.DigitChar(2) == '2'
      && ProgressIndicator.DigitChar(3) == '3';
  }

  /** With the inline stick count, 16 on mobile and 48 on desktop, the line
      has that many sticks in each of its four groups and highlights exactly
      the current counter when it is one of the three. */
  lemma InlineProgressOnViewport(isMobile: bool, current: int)
    ensures var r := InlineProgress(ProgressIndicator.StickCount(isMobile), current);
      && ProgressIndicator.StickTotal(r) == (if isMobile then 64 else 192)
      && ProgressIndicator.HighlightCount(r) == (if 0 <= current < 3 then 1 else 0)
  {
    var sc := ProgressIndicator.StickCount(isMobile);
    InlineProgressAgrees(sc, current);
    ProgressIndicator.LayoutCounts(sc, current, 3);
  }

  /** The component's record and index pair, updated in place by the handlers. */
  class Section {
    const imagesLength: int
    var isMobile: bool
    var currentImageIndex: int
    var prevImageIndex: int
    var lastChangeTime: int
    var isLocked: bool
    var accumulatedDelta: int
    var lastWheelTime: int
    var lastTouchY: Option<int>
    var isInitialized: bool

    function Snapshot(): State
      reads this
    {
      State(imagesLength, isMobile, currentImageIndex, prevImageIndex, lastChangeTime,
            isLocked, accumulatedDelta, lastWheelTime, lastTouchY, isInitialized)
    }

    ghost predicate Valid()
      reads this
    {
      Inv(Snapshot())
    }

    /** Mount: both indices set to 0 and the record reset. */
    constructor (imagesLength: int, isMobile: bool)
      requires imagesLength >= 1
      ensures Valid() && Snapshot() == Mount(imagesLength, isMobile)
    {
      this.imagesLength := imagesLength;
      this.isMobile := isMobile;
      currentImageIndex, prevImageIndex := 0, 0;
      lastChangeTime, isLocked, accumulatedDelta := 0, false, 0;
      lastWheelTime, lastTouchY, isInitialized := 0, None, false;
    }

    method ChangeImage(now: int, direction: int) returns (changed: bool)
      requires InRange(Snapshot())
      modifies this
      ensures changed == !old(isLocked)
      ensures Snapshot() == ChangeStep(old(Snapshot()), now, direction)
    {
      if isLocked {
        return false;
      }
      isLocked := true;
      lastChangeTime := now;
      accumulatedDelta := 0;
      prevImageIndex := currentImageIndex;
      if direction > 0 {
        currentImageIndex := (currentImageIndex + 1) % imagesLength;
      } else {
        currentImageIndex := if currentImageIndex == 0 then imagesLength - 1 else currentImageIndex - 1;
      }
      changed := true;
    }

    method Wheel(now: int, deltaY: int)
      requires Valid()
      modifies this
      ensures Valid() && Snapshot() == WheelStep(old(Snapshot()), now, deltaY)
    {
      if !isInitialized || isLocked {
        return;
      }
      if now - lastWheelTime > IdleResetTime {
        accumulatedDelta := 0;
      }
      lastWheelTime := now;
      accumulatedDelta := accumulatedDelta + Normalize(deltaY, WheelCap);
      if Abs(accumulatedDelta) >= ScrollThreshold(isMobile) {
        var direction := AccumulatedDirection(accumulatedDelta);
        var _ := ChangeImage(now, direction);
      }
    }

    method TouchStart(y: int)
      requires Valid()
      modifies this
      ensures Valid() && Snapshot() == TouchStartStep(old(Snapshot()), y)
    {
      if !isInitialized || isLocked {
        return;
      }
      lastTouchY := Some(y);
      accumulatedDelta := 0;
    }

    method TouchMove(now: int, y: int)
      requires Valid()
      modifies this
      ensures Valid() && Snapshot() == TouchMoveStep(old(Snapshot()), now, y)
    {
      if !isInitialized || isLocked || lastTouchY == None {
        return;
      }
      var deltaY := lastTouchY.value - y;
      accumulatedDelta := accumulatedDelta + deltaY;
      lastTouchY := Some(y);
      if Abs(accumulatedDelta) >= ScrollThreshold(isMobile) {
        var direction := AccumulatedDirection(accumulatedDelta);
        var _ := ChangeImage(now, direction);
      }
    }

    method TouchEnd()
      requires Valid()
      modifies this
      ensures Valid() && Snapshot() == TouchEndStep(old(Snapshot()))
    {
      if !isInitialized {
        return;
      }
      lastTouchY := None;
      if !isLocked {
        accumulatedDelta := 0;
      }
    }

    method KeyDown(now: int, key: string, repeat: bool)
      requires Valid()
      modifies this
      ensures Valid() && Snapshot() == KeyDownStep(old(Snapshot()), now, key, repeat)
    {
      if !isInitialized || repeat || isLocked {
        return;
      }
      if key == "ArrowDown" || key == "ArrowRight" {
        var _ := ChangeImage(now, 1);
      } else if key == "ArrowUp" || key == "ArrowLeft" {
        var _ := ChangeImage(now, -1);
      }
    }

    /** The release timer, due 800 ms after `lastChangeTime`; it is
        pending exactly while the lock is held. */
    method ReleaseTimerFires()
      requires Valid() && isLocked
      modifies this
      ensures Valid() && Snapshot() == ReleaseStep(old(Snapshot()))
    {
      isLocked := false;
      accumulatedDelta := 0;
    }

    /** The mount-time timer, 100 ms after mount, which installs the handlers. */
    method InitTimerFires()
      requires Valid()
      modifies this
      ensures Valid() && Snapshot() == old(Snapshot()).(isInitialized := true)
    {
      isInitialized := true;
    }

    method Resize(width: int)
      requires Valid()
      modifies this
      ensures Valid() && Snapshot() == old(Snapshot()).(isMobile := IsMobile(width))
    {
      isMobile := IsMobile(width);
    }

    /** The background colour index for the current image. */
    method Background() returns (index: int)
      requires Valid()
      ensures 0 <= index < imagesLength && index == currentImageIndex
    {
      index := BgIndex(currentImageIndex, imagesLength);
    }
  }
}
