/** Shared vocabulary of the hero carousel: the ring of image indices, the
    wheel-delta normalisation, the keyboard mapping, the gesture events a
    debouncer consumes and the record it keeps between events. */
module Carousel {

  datatype Option<T> = None | Some(value: T)

  /** Viewports from this width up use the desktop thresholds and ladders,
      narrower ones the mobile ones. */
  const DesktopBreakpoint := 768

  predicate IsMobile(width: int) {
    width < DesktopBreakpoint
  }

  function Abs(x: int): nat {
    if x < 0 then -x else x
  }

  function Sign(x: int): int {
    if x > 0 then 1 else if x < 0 then -1 else 0
  }

  /** One wheel event's contribution, `Math.sign(d) * Math.min(Math.abs(d), cap)`:
      the delta itself when it is small, otherwise `cap` in the delta's direction. */
  function Normalize(delta: int, cap: nat): (r: int)
    ensures Abs(r) <= cap
    ensures Abs(r) <= Abs(delta)
    ensures cap > 0 ==> Sign(r) == Sign(delta)
    ensures Abs(delta) <= cap ==> r == delta
    ensures Abs(delta) >= cap ==> Abs(r) == cap
  {
    Sign(delta) * (if Abs(delta) < cap then Abs(delta) else cap)
  }

  /** The index after a forward change, `(i + 1) % n` (i is never negative,
      so JavaScript's remainder and Dafny's agree). */
  function Forward(i: int, n: int): (r: int)
    requires 0 <= i < n
    ensures 0 <= r < n
    ensures r == 0 <==> i == n - 1
    ensures i < n - 1 ==> r == i + 1
  {
    (i + 1) % n
  }

  /** The index after a backward change, `i === 0 ? n - 1 : i - 1`. */
  function Backward(i: int, n: int): (r: int)
    requires 0 <= i < n
    ensures 0 <= r < n
    ensures r == n - 1 <==> i == 0
    ensures 0 < i ==> r == i - 1
  {
    if i == 0 then n - 1 else i - 1
  }

  /** `changeImage(direction)` moves forward for a positive direction and
      backward for every other value. */
  function Move(i: int, n: int, direction: int): (r: int)
    requires 0 <= i < n
    ensures 0 <= r < n
  {
    if direction > 0 then Forward(i, n) else Backward(i, n)
  }

  /** A forward change undone by a backward one, and the other way round,
      brings the carousel back to the image it started from. */
  lemma {:induction false} MoveRoundTrip(i: int, n: int)
    requires 0 <= i < n
    ensures Backward(Forward(i, n), n) == i
    ensures Forward(Backward(i, n), n) == i
  {
    if i == n - 1 {
      assert Forward(i, n) == 0;
    } else {
      assert Forward(i, n) == i + 1;
    }
  }

  /** The key handler's mapping: ArrowDown and ArrowRight go forward,
      ArrowUp and ArrowLeft go backward, any other key does nothing (0). */
  function KeyDirection(key: string): (d: int)
    ensures d == 1 <==> key == "ArrowDown" || key == "ArrowRight"
    ensures d == -1 <==> key == "ArrowUp" || key == "ArrowLeft"
    ensures d == 0 <==> !(key in ["ArrowDown", "ArrowRight", "ArrowUp", "ArrowLeft"])
  {
    if key == "ArrowDown" || key == "ArrowRight" then 1
    else if key == "ArrowUp" || key == "ArrowLeft" then -1
    else 0
  }

  /** The direction handed to `changeImage` once the accumulator crosses the
      threshold: `accumulatedDelta > 0 ? 1 : -1`. */
  function AccumulatedDirection(acc: int): int {
    if acc > 0 then 1 else -1
  }

  /** What reaches the debouncer. Wheel, touch-move and key-down events carry
      the wall-clock time `Date.now()` would return, because they may call
      `changeImage`, which records it. The two timers are events of their own. */
  datatype Event =
    | Wheel(now: int, deltaY: int)
    | TouchStart(y: int)
    | TouchMove(now: int, y: int)
    | TouchEnd
    | KeyDown(now: int, key: string, repeat: bool)
    | ReleaseTimer
    | InitTimer
    | Resize(width: int)
  {
    /** An event from the user, as opposed to a timer or a resize. */
    predicate IsInput() {
      Wheel? || TouchStart? || TouchMove? || TouchEnd? || KeyDown?
    }
  }

  /** The debouncer's record (`scrollStateRef.current`) together with the
      index pair and the `isMobile` flag the handlers read. */
  datatype State = State(
    imagesLength: int,
    isMobile: bool,
    currentImageIndex: int,
    prevImageIndex: int,
    lastChangeTime: int,
    isLocked: bool,
    accumulatedDelta: int,
    lastWheelTime: int,
    lastTouchY: Option<int>,
    isInitialized: bool)

  /** Both indices name an image of a non-empty image list. */
  predicate InRange(s: State) {
    && s.imagesLength >= 1
    && 0 <= s.currentImageIndex < s.imagesLength
    && 0 <= s.prevImageIndex < s.imagesLength
  }

  /** The record as the mount-time effect leaves it, with both indices at 0. */
  function Mount(imagesLength: int, isMobile: bool): (s: State)
    requires imagesLength >= 1
    ensures InRange(s) && !s.isLocked && !s.isInitialized
    ensures s.currentImageIndex == 0 && s.prevImageIndex == 0
  {
    State(imagesLength, isMobile, 0, 0, 0, false, 0, 0, None, false)
  }

  /** The index pair of `r` is the pair of `s` after one change in `direction`. */
  predicate Changed(s: State, r: State, direction: int)
    requires InRange(s)
  {
    && r.prevImageIndex == s.currentImageIndex
    && r.currentImageIndex == Move(s.currentImageIndex, s.imagesLength, direction)
  }

  /** A handler leaves the image count and the viewport and initialisation
      flags as they were. */
  predicate KeepsSettings(s: State, r: State) {
    && r.imagesLength == s.imagesLength
    && r.isMobile == s.isMobile
    && r.isInitialized == s.isInitialized
  }

  /** The index pair of `r` is the pair of `s`. */
  predicate SameIndices(s: State, r: State) {
    r.currentImageIndex == s.currentImageIndex && r.prevImageIndex == s.prevImageIndex
  }

  /** True when no event of `evs` is the release timer. */
  predicate NoRelease(evs: seq<Event>) {
    forall i :: 0 <= i < |evs| ==> !evs[i].ReleaseTimer?
  }


  /** How many of the indices 0..k-1 satisfy `p`. */
  function CountBelow(k: nat, p: int -> bool): nat {
    if k == 0 then 0 else CountBelow(k - 1, p) + (if p(k - 1) then 1 else 0)
  }

  /** A predicate that holds of exactly one index below `k`, or of none
      when `c` is out of range, is counted once, or not at all. */
  lemma {:induction false} CountSingle(k: nat, p: int -> bool, c: int)
    requires forall i :: 0 <= i < k ==> (p(i) <==> i == c)
    ensures CountBelow(k, p) == if 0 <= c < k then 1 else 0
  {
    if k > 0 {
      CountSingle(k - 1, p, c);
    }
  }
}
