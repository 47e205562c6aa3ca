/** The refactored gesture debouncer, the `useHeroScroll` hook, with the
    constants of `HERO_CONFIG`. Each handler is a pure step on the record
    (`WheelStep`, `TouchMoveStep`, ...) and a method of class `Scroller`
    that performs the same step in place; the lemmas are about the steps
    and about runs of arbitrary event sequences. */
module HeroScrollHook {
  import opened Carousel

  /** `HERO_CONFIG.scrollThreshold`. */
  const MobileThreshold := 60
  const DesktopThreshold := 100
  /** `HERO_CONFIG.idleResetTime`: a longer gap between wheel events starts a new gesture. */
  const IdleResetTime := 300
  /** The cap on one wheel event's contribution. */
  const WheelCap := 50

  function ScrollThreshold(isMobile: bool): nat {
    if isMobile then MobileThreshold else DesktopThreshold
  }

  /** What holds of the record between events: the indices name images, a
      held lock comes with a zero accumulator and no tracked touch, and
      nothing has happened before initialisation. */
  predicate Inv(s: State) {
    && InRange(s)
    && (s.isLocked ==> s.accumulatedDelta == 0 && s.lastTouchY == None)
    && (!s.isInitialized ==> !s.isLocked && s.currentImageIndex == 0 && s.prevImageIndex == 0)
  }

  /** `changeImage(direction)`: never rejects. It takes the lock (the callers
      have usually taken it already), records the time, clears the
      accumulator and the touch position and moves the index pair one step. */
  function ChangeStep(s: State, now: int, direction: int): (r: State)
    requires InRange(s)
    ensures InRange(r) && r.isLocked && r.accumulatedDelta == 0 && r.lastTouchY == None
    ensures Changed(s, r, direction) && r.lastChangeTime == now
    ensures r.isInitialized == s.isInitialized && r.lastWheelTime == s.lastWheelTime
  {
    s.(isLocked := true, lastChangeTime := now, accumulatedDelta := 0, lastTouchY := None,
       prevImageIndex := s.currentImageIndex,
       currentImageIndex := Move(s.currentImageIndex, s.imagesLength, direction))
  }

  /** The release timer's callback, 900 ms (`HERO_CONFIG.lockDuration`) after the change. */
  function ReleaseStep(s: State): (r: State)
    ensures !r.isLocked && r.accumulatedDelta == 0 && r.lastTouchY == None && SameIndices(s, r)
  {
    s.(isLocked := false, accumulatedDelta := 0, lastTouchY := None)
  }

  /** The accumulator a wheel event builds on: reset first after an idle gap
      strictly longer than `IdleResetTime`, then the capped delta added. */
  function WheelAccumulation(s: State, now: int, deltaY: int): int {
    (if now - s.lastWheelTime > IdleResetTime then 0 else s.accumulatedDelta)
    + Normalize(deltaY, WheelCap)
  }

  /** The wheel handler. Like every handler it keeps the invariant, leaves
      the settings alone and does nothing while locked or uninitialised. */
  function WheelStep(s: State, now: int, deltaY: int): (r: State)
    requires Inv(s)
    ensures Inv(r) && KeepsSettings(s, r)
    ensures !s.isInitialized || s.isLocked ==> r == s
  {
    if !s.isInitialized || s.isLocked then s
    else
      var acc := WheelAccumulation(s, now, deltaY);
      var t := s.(lastWheelTime := now, accumulatedDelta := acc);
      if Abs(acc) >= ScrollThreshold(s.isMobile) then
        ChangeStep(t.(isLocked := true, accumulatedDelta := 0), now, AccumulatedDirection(acc))
      else t
  }

  function TouchStartStep(s: State, y: int): (r: State)
    requires Inv(s)
    ensures Inv(r) && KeepsSettings(s, r) && SameIndices(s, r)
    ensures !s.isInitialized || s.isLocked ==> r == s
  {
    if !s.isInitialized || s.isLocked then s
    else s.(lastTouchY := Some(y), accumulatedDelta := 0)
  }

  /** A finger moving up (y decreasing) accumulates a positive delta. */
  function TouchMoveStep(s: State, now: int, y: int): (r: State)
    requires Inv(s)
    ensures Inv(r) && KeepsSettings(s, r)
    ensures !s.isInitialized || s.isLocked || s.lastTouchY == None ==> r == s
  {
    if !s.isInitialized || s.isLocked || s.lastTouchY == None then s
    else
      var acc := s.accumulatedDelta + (s.lastTouchY.value - y);
      var t := s.(accumulatedDelta := acc, lastTouchY := Some(y));
      if Abs(acc) >= ScrollThreshold(s.isMobile) then
        ChangeStep(t.(isLocked := true, accumulatedDelta := 0, lastTouchY := None), now, AccumulatedDirection(acc))
      else t
  }

  function TouchEndStep(s: State): (r: State)
    requires Inv(s)
    ensures Inv(r) && KeepsSettings(s, r) && SameIndices(s, r)
    ensures !s.isInitialized || s.isLocked ==> r == s
  {
    if !s.isInitialized || s.isLocked then s
    else s.(lastTouchY := None, accumulatedDelta := 0)
  }

  function KeyDownStep(s: State, now: int, key: string, repeat: bool): (r: State)
    requires Inv(s)
    ensures Inv(r) && KeepsSettings(s, r)
    ensures !s.isInitialized || s.isLocked || repeat ==> r == s
  {
    if !s.isInitialized || repeat || s.isLocked || KeyDirection(key) == 0 then s
    else ChangeStep(s, now, KeyDirection(key))
  }

  /** One event. The release timer exists only while the lock is held, so a
      release event without a lock is no event at all. */
  function Apply(s: State, e: Event): (r: State)
    requires Inv(s)
    ensures Inv(r) && r.imagesLength == s.imagesLength
  {
    match e
    case Wheel(now, deltaY) => WheelStep(s, now, deltaY)
    case TouchStart(y) => TouchStartStep(s, y)
    case TouchMove(now, y) => TouchMoveStep(s, now, y)
    case TouchEnd => TouchEndStep(s)
    case KeyDown(now, key, repeat) => KeyDownStep(s, now, key, repeat)
    case ReleaseTimer => if s.isLocked then ReleaseStep(s) else s
    case InitTimer => s.(isInitialized := true)
    case Resize(width) => s.(isMobile := IsMobile(width))
  }

  /** A sequence of events, in order. Whatever the sequence, the invariant
      holds at its end, so the index pair always names images. */
  function Run(s: State, evs: seq<Event>): (r: State)
    requires Inv(s)
    ensures Inv(r) && r.imagesLength == s.imagesLength
    decreases |evs|
  {
    if evs == [] then s else Run(Apply(s, evs[0]), evs[1..])
  }

  /** How many events of the run called `changeImage`: exactly the events
      that took the lock (see `StepOutcome`). */
  function Changes(s: State, evs: seq<Event>): nat
    requires Inv(s)
    decreases |evs|
  {
    if evs == [] then 0
    else
      var r := Apply(s, evs[0]);
      (if !s.isLocked && r.isLocked then 1 else 0) + Changes(r, evs[1..])
  }

  /** An event either takes the lock and moves the pair one step (forward or
      backward, recording the event's time), or leaves the pair where it was.
      Only the release timer ever gives the lock back. */
  lemma StepOutcome(s: State, e: Event)
    requires Inv(s)
    ensures var r := Apply(s, e);
      if !s.isLocked && r.isLocked then
        && (e.Wheel? || e.TouchMove? || e.KeyDown?)
        && (Changed(s, r, 1) || Changed(s, r, -1))
        && r.lastChangeTime == e.now
      else
        SameIndices(s, r) && r.lastChangeTime == s.lastChangeTime
    ensures s.isLocked && !Apply(s, e).isLocked ==> e.ReleaseTimer?
  {
  }

  /** Every input path checks the lock first: while locked, input changes
      nothing at all, neither the pair nor the accumulator nor `lastWheelTime`. */
  lemma LockedInputIgnored(s: State, e: Event)
    requires Inv(s) && s.isLocked && e.IsInput()
    ensures Apply(s, e) == s
  {
  }

  /** Before the init timer no handler is installed, so input changes nothing. */
  lemma UninitializedInputIgnored(s: State, e: Event)
    requires Inv(s) && !s.isInitialized && e.IsInput()
    ensures Apply(s, e) == s
  {
  }

  /** Within one lock window (no release timer) the record keeps its index
      pair, accumulator, wheel time and touch position, and no event of the
      window calls `changeImage`. */
  lemma {:induction false} LockWindowFrozen(s: State, evs: seq<Event>)
    requires Inv(s) && s.isLocked && NoRelease(evs)
    ensures Run(s, evs) == s.(isMobile := Run(s, evs).isMobile)
    ensures Changes(s, evs) == 0
    decreases |evs|
  {
    if evs != [] {
      var r := Apply(s, evs[0]);
      assert r == s.(isMobile := r.isMobile);
      assert NoRelease(evs[1..]) by {
        forall i | 0 <= i < |evs[1..]| ensures !evs[1..][i].ReleaseTimer? {
          assert evs[1..][i] == evs[i + 1];
        }
      }
      LockWindowFrozen(r, evs[1..]);
    }
  }

  /** However many qualifying gestures arrive, from wheel, touch and keys
      together, at most one of them changes the image between two releases. */
  lemma {:induction false} AtMostOneChangePerLockWindow(s: State, evs: seq<Event>)
    requires Inv(s) && NoRelease(evs)
    ensures Changes(s, evs) <= 1
    ensures s.isLocked ==> Changes(s, evs) == 0
    decreases |evs|
  {
    if s.isLocked {
      LockWindowFrozen(s, evs);
    } else if evs != [] {
      assert NoRelease(evs[1..]) by {
        forall i | 0 <= i < |evs[1..]| ensures !evs[1..][i].ReleaseTimer? {
          assert evs[1..][i] == evs[i + 1];
        }
      }
      AtMostOneChangePerLockWindow(Apply(s, evs[0]), evs[1..]);
    }
  }

  /** The wheel rule on an unlocked, initialised record: a change fires
      exactly when the accumulator reaches the threshold, in the
      accumulator's direction; otherwise the accumulator and the wheel time
      are kept for the next event. */
  lemma WheelRule(s: State, now: int, deltaY: int)
    requires Inv(s) && s.isInitialized && !s.isLocked
    ensures var acc := WheelAccumulation(s, now, deltaY);
      var r := WheelStep(s, now, deltaY);
      && (r.isLocked <==> Abs(acc) >= ScrollThreshold(s.isMobile))
      && (r.isLocked ==> Changed(s, r, AccumulatedDirection(acc)) && r.accumulatedDelta == 0)
      && (!r.isLocked ==> SameIndices(s, r) && r.accumulatedDelta == acc && r.lastWheelTime == now)
  {
  }

  /** After an idle gap longer than `IdleResetTime` earlier deltas are
      forgotten: the event acts as if the accumulator had been zero. With a
      gap of at most `IdleResetTime` the deltas combine. */
  lemma IdleResetForgets(s: State, now: int, deltaY: int)
    requires Inv(s) && s.isInitialized
    ensures now - s.lastWheelTime > IdleResetTime ==>
      WheelStep(s, now, deltaY) == WheelStep(s.(accumulatedDelta := 0), now, deltaY)
    ensures now - s.lastWheelTime <= IdleResetTime ==>
      WheelAccumulation(s, now, deltaY) == s.accumulatedDelta + Normalize(deltaY, WheelCap)
  {
  }

  /** Since the cap (50) is below both thresholds, a single wheel event that
      starts a new gesture never changes the image, however large its delta. */
  lemma {:induction false} FreshWheelEventNeverFires(s: State, now: int, deltaY: int)
    requires Inv(s) && now - s.lastWheelTime > IdleResetTime
    ensures !s.isLocked ==> !WheelStep(s, now, deltaY).isLocked
    ensures SameIndices(s, WheelStep(s, now, deltaY))
  {
    assert Abs(Normalize(deltaY, WheelCap)) <= WheelCap < ScrollThreshold(s.isMobile);
  }

  /** The touch-move rule on an unlocked, initialised record: without a
      tracked position nothing happens; with one, the finger's travel
      `lastTouchY - y` is added to the accumulator, and a change fires exactly
      when the sum reaches the threshold, in its direction, dropping the touch
      position; otherwise the new position and the sum are kept. */
  lemma TouchMoveRule(s: State, now: int, y: int)
    requires Inv(s) && s.isInitialized && !s.isLocked
    ensures s.lastTouchY == None ==> TouchMoveStep(s, now, y) == s
    ensures s.lastTouchY.Some? ==>
      var acc := s.accumulatedDelta + (s.lastTouchY.value - y);
      var r := TouchMoveStep(s, now, y);
      && (r.isLocked <==> Abs(acc) >= ScrollThreshold(s.isMobile))
      && (r.isLocked ==>
            && Changed(s, r, AccumulatedDirection(acc)) && r.lastChangeTime == now
            && r.accumulatedDelta == 0 && r.lastTouchY == None)
      && (!r.isLocked ==> SameIndices(s, r) && r.accumulatedDelta == acc && r.lastTouchY == Some(y))
  {
  }

  /** Touch start and touch end on an unlocked, initialised record: a start
      tracks the finger from `y` with a fresh accumulator, an end forgets
      the finger and the accumulator; neither moves the pair or the lock. */
  lemma TouchStartEndRule(s: State, y: int)
    requires Inv(s) && s.isInitialized && !s.isLocked
    ensures var r := TouchStartStep(s, y);
      r.lastTouchY == Some(y) && r.accumulatedDelta == 0 && !r.isLocked
      && r.lastWheelTime == s.lastWheelTime && r.lastChangeTime == s.lastChangeTime
    ensures var r := TouchEndStep(s);
      r.lastTouchY == None && r.accumulatedDelta == 0 && !r.isLocked
      && r.lastWheelTime == s.lastWheelTime && r.lastChangeTime == s.lastChangeTime
  {
  }

  /** Keys: a repeated key-down or a key other than the four arrows changes
      nothing; ArrowDown/ArrowRight move forward and ArrowUp/ArrowLeft backward. */
  lemma KeyRule(s: State, now: int, key: string, repeat: bool)
    requires Inv(s) && s.isInitialized
    ensures var r := KeyDownStep(s, now, key, repeat);
      && (repeat || s.isLocked || KeyDirection(key) == 0 ==> r == s)
      && (!repeat && !s.isLocked && (key == "ArrowDown" || key == "ArrowRight") ==> r.isLocked && Changed(s, r, 1))
      && (!repeat && !s.isLocked && (key == "ArrowUp" || key == "ArrowLeft") ==> r.isLocked && Changed(s, r, -1))
  {
  }

  /** Every touch start of the run reaches the record while it is locked or
      not yet initialised, so that the handler ignores it. */
  predicate TouchStartsIgnored(s: State, evs: seq<Event>)
    requires Inv(s)
    decreases |evs|
  {
    || evs == []
    || (&& (evs[0].TouchStart? ==> s.isLocked || !s.isInitialized)
        && TouchStartsIgnored(Apply(s, evs[0]), evs[1..]))
  }

  /** While every touch start is ignored, a record without a tracked touch
      position keeps having none. */
  lemma {:induction false} NoTouchWithoutStart(s: State, evs: seq<Event>)
    requires Inv(s) && s.lastTouchY == None && TouchStartsIgnored(s, evs)
    ensures Run(s, evs).lastTouchY == None
    decreases |evs|
  {
    if evs != [] {
      NoTouchWithoutStart(Apply(s, evs[0]), evs[1..]);
    }
  }

  /** After a touch move that changes the image, the touch position is gone,
      and no later touch move can act again until a touch start arrives while
      unlocked; touch starts during the lock are ignored and do not help. */
  lemma TouchChangeNeedsNewStart(s: State, now: int, y: int, evs: seq<Event>, now2: int, y2: int)
    requires Inv(s) && !s.isLocked && TouchMoveStep(s, now, y).isLocked
    requires TouchStartsIgnored(Apply(s, TouchMove(now, y)), evs)
    ensures TouchMoveStep(s, now, y).lastTouchY == None
    ensures var t := Run(Apply(s, TouchMove(now, y)), evs); TouchMoveStep(t, now2, y2) == t
  {
    NoTouchWithoutStart(Apply(s, TouchMove(now, y)), evs);
  }

  /** ArrowDown, the release, then ArrowUp brings the carousel back to the
      image it started from; and the same the other way round. */
  lemma {:induction false} ForwardThenBackward(s: State, t1: int, t2: int)
    requires Inv(s) && s.isInitialized && !s.isLocked
    ensures Run(s, [KeyDown(t1, "ArrowDown", false), ReleaseTimer, KeyDown(t2, "ArrowUp", false)]).currentImageIndex
            == s.currentImageIndex
    ensures Run(s, [KeyDown(t1, "ArrowUp", false), ReleaseTimer, KeyDown(t2, "ArrowDown", false)]).currentImageIndex
            == s.currentImageIndex
  {
    MoveRoundTrip(s.currentImageIndex, s.imagesLength);
    var evs := [KeyDown(t1, "ArrowDown", false), ReleaseTimer, KeyDown(t2, "ArrowUp", false)];
    var a := Apply(s, evs[0]);
    var b := Apply(a, evs[1]);
    var c := Apply(b, evs[2]);
    assert Run(s, evs) == Run(a, evs[1..]) == Run(b, evs[2..]) == Run(c, []);
    var evs' := [KeyDown(t1, "ArrowUp", false), ReleaseTimer, KeyDown(t2, "ArrowDown", false)];
    var a' := Apply(s, evs'[0]);
    var b' := Apply(a', evs'[1]);
    var c' := Apply(b', evs'[2]);
    assert Run(s, evs') == Run(a', evs'[1..]) == Run(b', evs'[2..]) == Run(c', []);
  }

  /** The hook's record and index pair, updated in place by the handlers. */
  class Scroller {
    const imagesLength: int
    var isMobile: bool
    var currentImageIndex: int
    var prevImageIndex: int
    var lastChangeTime: int
    var isLocked: bool
    var accumulatedDelta: int
    var lastWheelTime: int
    var lastTouchY: Option<int>
    var isInitialized: bool

    function Snapshot(): State
      reads this
    {
      State(imagesLength, isMobile, currentImageIndex, prevImageIndex, lastChangeTime,
            isLocked, accumulatedDelta, lastWheelTime, lastTouchY, isInitialized)
    }

    ghost predicate Valid()
      reads this
    {
      Inv(Snapshot())
    }

    /** Mount: the reset record, both indices at 0, not yet initialised. */
    constructor (imagesLength: int, isMobile: bool)
      requires imagesLength >= 1
      ensures Valid() && Snapshot() == Mount(imagesLength, isMobile)
    {
      this.imagesLength := imagesLength;
      this.isMobile := isMobile;
      currentImageIndex, prevImageIndex := 0, 0;
      lastChangeTime, isLocked, accumulatedDelta := 0, false, 0;
      lastWheelTime, lastTouchY, isInitialized := 0, None, false;
    }

    method ChangeImage(now: int, direction: int) returns (changed: bool)
      requires InRange(Snapshot())
      modifies this
      ensures changed && Snapshot() == ChangeStep(old(Snapshot()), now, direction)
    {
      if !isLocked {
        isLocked := true;
      }
      lastChangeTime := now;
      accumulatedDelta := 0;
      lastTouchY := None;
      prevImageIndex := currentImageIndex;
      if direction > 0 {
        currentImageIndex := (currentImageIndex + 1) % imagesLength;
      } else {
        currentImageIndex := if currentImageIndex == 0 then imagesLength - 1 else currentImageIndex - 1;
      }
      changed := true;
    }

    method Wheel(now: int, deltaY: int)
      requires Valid()
      modifies this
      ensures Valid() && Snapshot() == WheelStep(old(Snapshot()), now, deltaY)
    {
      if !isInitialized || isLocked {
        return;
      }
      if now - lastWheelTime > IdleResetTime {
        accumulatedDelta := 0;
      }
      lastWheelTime := now;
      accumulatedDelta := accumulatedDelta + Normalize(deltaY, WheelCap);
      if Abs(accumulatedDelta) >= ScrollThreshold(isMobile) {
        isLocked := true;
        var direction := AccumulatedDirection(accumulatedDelta);
        accumulatedDelta := 0;
        var _ := ChangeImage(now, direction);
      }
    }

    method TouchStart(y: int)
      requires Valid()
      modifies this
      ensures Valid() && Snapshot() == TouchStartStep(old(Snapshot()), y)
    {
      if !isInitialized || isLocked {
        return;
      }
      lastTouchY := Some(y);
      accumulatedDelta := 0;
    }

    method TouchMove(now: int, y: int)
      requires Valid()
      modifies this
      ensures Valid() && Snapshot() == TouchMoveStep(old(Snapshot()), now, y)
    {
      if !isInitialized || isLocked || lastTouchY == None {
        return;
      }
      var deltaY := lastTouchY.value - y;
      accumulatedDelta := accumulatedDelta + deltaY;
      lastTouchY := Some(y);
      if Abs(accumulatedDelta) >= ScrollThreshold(isMobile) {
        isLocked := true;
        var direction := AccumulatedDirection(accumulatedDelta);
        accumulatedDelta := 0;
        lastTouchY := None;
        var _ := ChangeImage(now, direction);
      }
    }

    method TouchEnd()
      requires Valid()
      modifies this
      ensures Valid() && Snapshot() == TouchEndStep(old(Snapshot()))
    {
      if !isInitialized {
        return;
      }
      if !isLocked {
        lastTouchY := None;
        accumulatedDelta := 0;
      }
    }

    method KeyDown(now: int, key: string, repeat: bool)
      requires Valid()
      modifies this
      ensures Valid() && Snapshot() == KeyDownStep(old(Snapshot()), now, key, repeat)
    {
      if !isInitialized || repeat || isLocked {
        return;
      }
      if key == "ArrowDown" || key == "ArrowRight" {
        var _ := ChangeImage(now, 1);
      } else if key == "ArrowUp" || key == "ArrowLeft" {
        var _ := ChangeImage(now, -1);
      }
    }

    /** The release timer, due 900 ms after `lastChangeTime`; it is
        pending exactly while the lock is held. */
    method ReleaseTimerFires()
      requires Valid() && isLocked
      modifies this
      ensures Valid() && Snapshot() == ReleaseStep(old(Snapshot()))
    {
      isLocked := false;
      accumulatedDelta := 0;
      lastTouchY := None;
    }

    /** The mount-time timer, 100 ms after mount. */
    method InitTimerFires()
      requires Valid()
      modifies this
      ensures Valid() && Snapshot() == old(Snapshot()).(isInitialized := true)
    {
      isInitialized := true;
    }

    /** A viewport resize recomputes `isMobile`, which selects the threshold. */
    method Resize(width: int)
      requires Valid()
      modifies this
      ensures Valid() && Snapshot() == old(Snapshot()).(isMobile := IsMobile(width))
    {
      isMobile := IsMobile(width);
    }
  }
}
