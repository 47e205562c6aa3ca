# Hero carousel of tauris-media, modelled in Dafny

The landing page of tauris-media shows a stack of three images. Wheel, touch and
arrow-key gestures move through them one image at a time, around a ring. This
project models that carousel and the small list views around it, and proves
properties of the model.

- `carousel.dfy` (module `Carousel`): the shared vocabulary of both debouncers:
  - the ring moves;
  - the wheel-delta normalisation;
  - the key mapping;
  - the gesture events and the record a debouncer keeps (`scrollStateRef` plus
    the index pair).
- `hero_scroll.dfy` (module `HeroScrollHook`): the debouncer of the
  `useHeroScroll` hook. Its constants are lock 900 ms, thresholds 60/100,
  idle reset 300 ms and wheel cap 50.
  - Every handler is a pure step function on the record. `Apply` and `Run`
    fold events into a state.
  - The class `Scroller` holds the same record in mutable fields, and has one
    method per event. Each method is proved to leave exactly the state that
    the step function gives.
- `hero_section.dfy` (module `HeroSectionInline`): the older debouncer written
  inline in `HeroSection.jsx`, with its own constants: lock 800 ms, thresholds
  50/70, idle reset 250 ms and wheel cap 80. It differs from the hook in three
  ways, each modelled as written:
  - its `changeImage` rejects while locked;
  - neither `changeImage` nor the release timer clears the touch position;
  - touch-end always drops the touch position.

  The module also holds:
  - the background index;
  - the inline per-image geometry, the inline captions and the inline progress
    line, each proved equal to the refactored components;
  - the class `Section`.
- `responsive.dfy` (module `ResponsiveCalculations`): the stack geometry:
  - `calculateImagePosition` and its breakpoint ladders;
  - the slide-in distance;
  - `getStackPosition`.
- `image_stack.dfy` (module `ImageStack`): the per-image views, the wrap flag,
  the entrance and the transition choice.
- `progress.dfy` (module `ProgressIndicator`): the stick-and-counter line with
  `[NN]` labels.
- `text_overlay.dfy` (module `TextOverlay`): the captions.
- `highlights.dfy` (module `Highlights`): the Highlights page's category
  filter, featured list, category badge, award icon and tag preview.
- `project_video.dfy` (module `ProjectVideo`): the project video list, built
  from bundled file paths.

Time enters as an explicit `now` on the events that can call `changeImage`:
wheel, touch-move and key-down. The lock-release timer and the 100 ms
initialisation timer are events of their own. A release event arrives only
while the lock is held, because the only release timer pending is the one
scheduled by the change that took the lock.

Some of the code's behaviour is easy to misread. The model follows the code:
- The hook's `changeImage` never rejects. The lock check happens in each
  handler before the call.
- The inline touch-end clears the touch position even while locked.
- With exactly two images, a backward change from 1 to 0 gives the same index
  pair as a forward wrap, so it is flagged as a wrap too.
- The stack orders images by ring position, not by history. The comments at
  `src/components/HeroSection.jsx:271` and
  `src/components/HeroSection/utils/responsiveCalculations.js:106` call
  position 1 the place of the image that was just in front. That holds after
  a forward change. With three or more images, after a backward change the
  image that was in front goes to position 2 instead.
- The hook's wheel cap (50) is below both of its thresholds, so one wheel event
  never changes the image on its own. The inline cap (80) is at least both of
  its thresholds, so one fast event does.

## Model

| member | source | states |
|---|---|---|
| Carousel.Normalize | src/components/HeroSection/hooks/useHeroScroll.js:77 | one wheel contribution has magnitude at most the cap and at most the delta's, keeps the delta's sign, equals a small delta, and has exactly the cap's magnitude for a large one |
| Carousel.Forward | src/components/HeroSection/hooks/useHeroScroll.js:39 | the forward index is in range, is 0 exactly when coming from the last index, and is i+1 otherwise |
| Carousel.Backward | src/components/HeroSection/hooks/useHeroScroll.js:44 | the backward index is in range, is n-1 exactly when coming from 0, and is i-1 otherwise |
| Carousel.Move | src/components/HeroSection/hooks/useHeroScroll.js:36-46 | a change in any direction leaves the index in range |
| Carousel.MoveRoundTrip | src/components/HeroSection/hooks/useHeroScroll.js:36-46 | a forward change undone by a backward one returns to the start, and so does the reverse |
| Carousel.KeyDirection | src/components/HeroSection/hooks/useHeroScroll.js:156-162 | +1 iff ArrowDown or ArrowRight, -1 iff ArrowUp or ArrowLeft, 0 iff any other key |
| Carousel.Mount | src/components/HeroSection/hooks/useHeroScroll.js:170-178 | the mount-time record is unlocked and uninitialised, with both indices 0 and in range |
| HeroScrollHook.ChangeStep | src/components/HeroSection/hooks/useHeroScroll.js:23-56 | `changeImage` never rejects: it always leaves the lock held, records the time, zeroes the accumulator, drops the touch position and moves the pair one step (prev := old current) |
| HeroScrollHook.ReleaseStep | src/components/HeroSection/hooks/useHeroScroll.js:49-53 | the release timer unlocks, zeroes the accumulator and drops the touch position, leaving the pair |
| HeroScrollHook.Apply | src/components/HeroSection/hooks/useHeroScroll.js:59-167 | every event keeps the invariant: indices in range, a held lock comes with a zero accumulator and no touch position, and nothing has moved before initialisation |
| HeroScrollHook.Run | src/components/HeroSection/hooks/useHeroScroll.js:59-167 | after any event sequence both indices are still in [0, n) |
| HeroScrollHook.StepOutcome | src/components/HeroSection/hooks/useHeroScroll.js:23-56 | an event either takes the lock, is a wheel, touch-move or key event, and moves the pair one step forward or back, stamping its time; or it leaves the pair and the change time. Only the release timer unlocks |
| HeroScrollHook.LockedInputIgnored | src/components/HeroSection/hooks/useHeroScroll.js:62-163 | while locked, any input leaves the whole record unchanged: the pair, the accumulator and `lastWheelTime` |
| HeroScrollHook.UninitializedInputIgnored | src/components/HeroSection/hooks/useHeroScroll.js:59-167 | before the init timer, any input leaves the record unchanged |
| HeroScrollHook.LockWindowFrozen | src/components/HeroSection/hooks/useHeroScroll.js:48-53 | between a change and its release, any events leave the record as it was (except `isMobile`) and change the image zero times |
| HeroScrollHook.AtMostOneChangePerLockWindow | src/components/HeroSection/hooks/useHeroScroll.js:23-56 | with no release in between, any mix of gestures changes the image at most once |
| HeroScrollHook.WheelRule | src/components/HeroSection/hooks/useHeroScroll.js:69-85 | a wheel event changes the image iff the accumulator reaches the threshold, in the accumulator's direction; otherwise the accumulator and the wheel time are kept |
| HeroScrollHook.IdleResetForgets | src/components/HeroSection/hooks/useHeroScroll.js:70-78 | a gap of more than 300 ms acts as a zero accumulator; a gap of 300 ms or less adds to it |
| HeroScrollHook.WheelStep | src/components/HeroSection/hooks/useHeroScroll.js:62-86 | the wheel handler keeps the invariant, leaves the image count, `isMobile` and `isInitialized` alone, and changes nothing while locked or uninitialised |
| HeroScrollHook.TouchStartStep | src/components/HeroSection/hooks/useHeroScroll.js:96-102 | the touch-start handler keeps the invariant, the settings and the pair, and changes nothing while locked or uninitialised |
| HeroScrollHook.TouchMoveStep | src/components/HeroSection/hooks/useHeroScroll.js:104-126 | the touch-move handler keeps the invariant and the settings, and changes nothing while locked, uninitialised or without a tracked touch |
| HeroScrollHook.TouchEndStep | src/components/HeroSection/hooks/useHeroScroll.js:128-134 | the touch-end handler keeps the invariant, the settings and the pair, and changes nothing while locked or uninitialised |
| HeroScrollHook.KeyDownStep | src/components/HeroSection/hooks/useHeroScroll.js:151-163 | the key handler keeps the invariant and the settings, and changes nothing while locked, uninitialised or on a repeat |
| HeroScrollHook.TouchMoveRule | src/components/HeroSection/hooks/useHeroScroll.js:104-126 | an unlocked touch move with no tracked touch does nothing; with one it adds `lastTouchY - y` to the accumulator and changes the image iff the sum reaches the threshold, in its direction, then zeroing it and dropping the touch; otherwise it keeps the sum and the new position |
| HeroScrollHook.TouchStartEndRule | src/components/HeroSection/hooks/useHeroScroll.js:96-134 | an unlocked touch start tracks `y` with a zero accumulator; an unlocked touch end drops the touch and zeroes the accumulator; neither locks or moves the change or wheel time |
| HeroScrollHook.FreshWheelEventNeverFires | src/components/HeroSection/hooks/useHeroScroll.js:77-80 | one wheel event after an idle gap never changes the image, because the cap of 50 is below both thresholds |
| HeroScrollHook.KeyRule | src/components/HeroSection/hooks/useHeroScroll.js:154-162 | a repeated, locked or non-arrow key-down changes nothing; the down/right and up/left arrows move forward and backward |
| HeroScrollHook.NoTouchWithoutStart | src/components/HeroSection/hooks/useHeroScroll.js:96-134 | while every touch start arrives during the lock or before initialisation (and so is ignored), a record with no touch position keeps having none |
| HeroScrollHook.TouchChangeNeedsNewStart | src/components/HeroSection/hooks/useHeroScroll.js:96-126 | after a touch-triggered change the touch position is gone, and no later touch move acts until a touch start arrives while unlocked; touch starts during the lock do not help |
| HeroScrollHook.ForwardThenBackward | src/components/HeroSection/hooks/useHeroScroll.js:36-46 | ArrowDown, release, ArrowUp returns to the starting image, and so does the reverse |
| HeroScrollHook.Scroller.constructor | src/components/HeroSection/hooks/useHeroScroll.js:11-18 | the new record is the mount state |
| HeroScrollHook.Scroller.ChangeImage | src/components/HeroSection/hooks/useHeroScroll.js:23-56 | returns true and leaves `ChangeStep` of the old state |
| HeroScrollHook.Scroller.Wheel | src/components/HeroSection/hooks/useHeroScroll.js:62-86 | keeps the invariant and leaves `WheelStep` of the old state |
| HeroScrollHook.Scroller.TouchStart | src/components/HeroSection/hooks/useHeroScroll.js:96-102 | keeps the invariant and leaves `TouchStartStep` of the old state |
| HeroScrollHook.Scroller.TouchMove | src/components/HeroSection/hooks/useHeroScroll.js:104-126 | keeps the invariant and leaves `TouchMoveStep` of the old state |
| HeroScrollHook.Scroller.TouchEnd | src/components/HeroSection/hooks/useHeroScroll.js:128-134 | keeps the invariant and leaves `TouchEndStep` of the old state |
| HeroScrollHook.Scroller.KeyDown | src/components/HeroSection/hooks/useHeroScroll.js:151-163 | keeps the invariant and leaves `KeyDownStep` of the old state |
| HeroScrollHook.Scroller.ReleaseTimerFires | src/components/HeroSection/hooks/useHeroScroll.js:49-53 | keeps the invariant and leaves `ReleaseStep` of the old state |
| HeroScrollHook.Scroller.InitTimerFires | src/components/HeroSection/hooks/useHeroScroll.js:183-185 | sets only the initialised flag |
| HeroScrollHook.Scroller.Resize | src/components/HeroSection/hooks/useScreenSize.js:12-15 | sets only `isMobile`, to width < 768 |
| HeroSectionInline.ChangeStep | src/components/HeroSection.jsx:50-83 | rejects while locked and leaves everything unchanged; otherwise takes the lock, records the time, zeroes the accumulator and moves the pair one step, keeping the touch position |
| HeroSectionInline.ReleaseStep | src/components/HeroSection.jsx:77-80 | the release unlocks and zeroes the accumulator, keeping the pair and the touch position |
| HeroSectionInline.Apply | src/components/HeroSection.jsx:86-206 | every event keeps the invariant: indices in range, a held lock comes with a zero accumulator, and nothing has moved before initialisation |
| HeroSectionInline.Run | src/components/HeroSection.jsx:86-206 | after any event sequence both indices are still in [0, n) |
| HeroSectionInline.StepOutcome | src/components/HeroSection.jsx:50-83 | an event either takes the lock, is a gesture, and moves the pair one step, stamping its time; or it leaves the pair and the change time. Only the release timer unlocks |
| HeroSectionInline.LockedInputIgnored | src/components/HeroSection.jsx:89-199 | while locked, input changes nothing, except that touch-end drops the touch position |
| HeroSectionInline.UninitializedInputIgnored | src/components/HeroSection.jsx:86-206 | before the init timer, input changes nothing |
| HeroSectionInline.LockWindowFrozen | src/components/HeroSection.jsx:54-80 | within a lock window, the pair, the accumulator, the wheel time and the change time stay, and no change happens |
| HeroSectionInline.AtMostOneChangePerLockWindow | src/components/HeroSection.jsx:50-83 | with no release in between, the image changes at most once |
| HeroSectionInline.WheelRule | src/components/HeroSection.jsx:99-118 | a change fires iff the accumulator reaches 50/70, in its direction; otherwise the accumulator and the wheel time are kept |
| HeroSectionInline.IdleResetForgets | src/components/HeroSection.jsx:99-106 | a gap of more than 250 ms acts as a zero accumulator |
| HeroSectionInline.WheelStep | src/components/HeroSection.jsx:89-119 | the wheel handler keeps the invariant, leaves the image count, `isMobile` and `isInitialized` alone, and changes nothing while locked or uninitialised |
| HeroSectionInline.TouchStartStep | src/components/HeroSection.jsx:132-138 | the touch-start handler keeps the invariant, the settings and the pair, and changes nothing while locked or uninitialised |
| HeroSectionInline.TouchMoveStep | src/components/HeroSection.jsx:140-161 | the touch-move handler keeps the invariant and the settings, and changes nothing while locked, uninitialised or without a tracked touch |
| HeroSectionInline.TouchEndStep | src/components/HeroSection.jsx:163-169 | the touch-end handler keeps the invariant, the settings and the pair; before initialisation it changes nothing, and while locked it only drops the touch position |
| HeroSectionInline.KeyDownStep | src/components/HeroSection.jsx:186-199 | the key handler keeps the invariant and the settings, and changes nothing while locked, uninitialised or on a repeat |
| HeroSectionInline.TouchMoveRule | src/components/HeroSection.jsx:140-161 | an unlocked touch move with no tracked touch does nothing; with one it adds the finger's travel to the accumulator and changes the image iff the sum reaches 50/70, in its direction; the new position is kept either way |
| HeroSectionInline.TouchStartEndRule | src/components/HeroSection.jsx:132-169 | an unlocked touch start tracks `y` with a zero accumulator; an unlocked touch end drops the touch and zeroes the accumulator; neither locks or moves the change or wheel time |
| HeroSectionInline.FastWheelEventFires | src/components/HeroSection.jsx:109-118 | one wheel event after an idle gap, with a delta at least the threshold, changes the image in the delta's direction |
| HeroSectionInline.KeyRule | src/components/HeroSection.jsx:186-199 | a repeated, locked or non-arrow key-down changes nothing; the arrows move forward and backward |
| HeroSectionInline.DragContinuesAfterRelease | src/components/HeroSection.jsx:140-161 | a drag that changed the image keeps its position, so after the release the same drag changes the image again without a new touch start |
| HeroSectionInline.ThreeImageScenario | src/components/HeroSection.jsx:26-118 | with three images on a desktop: wheel 40+40 moves to 1; more input while locked does nothing; later pairs move to 2 and then wrap to 0 with previous 2, which is flagged as a wrap |
| HeroSectionInline.BgIndex | src/components/HeroSection.jsx:208 | the background index is a valid index of a non-empty list, and equals the current index when that one is valid |
| HeroSectionInline.InlineStackAgrees | src/components/HeroSection.jsx:258-379 | the inline per-image computation gives exactly the views of the refactored image stack |
| HeroSectionInline.InlineImageAgrees | src/components/HeroSection.jsx:258-379 | per image: inline stack position, ladders, zIndex, slide distance and transition equal `getStackPosition` plus `calculateImagePosition` |
| HeroSectionInline.InlineCaptionsAgree | src/components/HeroSection.jsx:416-436 | the inline captions equal the `TextOverlay` captions |
| HeroSectionInline.InlineProgressAgrees | src/components/HeroSection.jsx:457-523 | the inline progress line is the three-image `ProgressIndicator` layout |
| HeroSectionInline.InlineLabelsAgree | src/components/HeroSection.jsx:457-523 | the literal labels of the three inline counters are the computed `[01]`, `[02]`, `[03]` |
| HeroSectionInline.InlineImageView | src/components/HeroSection.jsx:258-379 | one inline image view carries its source, is at the front iff it is the current image, and only the front image can wrap in, at zIndex 35 and y 0, which is exactly when it has an entrance |
| HeroSectionInline.InlineStack | src/components/HeroSection.jsx:258-379 | one inline view per image, in image order, with exactly the current image at the front |
| HeroSectionInline.InlineCaptions | src/components/HeroSection.jsx:416-436 | one inline caption per text, in order, fully opaque iff it is the current one |
| HeroSectionInline.InlineProgress | src/components/HeroSection.jsx:457-523 | the inline line has 4·stickCount+3 items, with counters 0, 1 and 2 after each group of sticks, each highlighted iff current |
| HeroSectionInline.InlineProgressOnViewport | src/components/HeroSection.jsx:43 | with 16 sticks per group on mobile and 48 on desktop, the inline line has 64 or 192 sticks and highlights exactly one counter when the current index is 0, 1 or 2 |
| HeroSectionInline.Section.constructor | src/components/HeroSection.jsx:211-223 | the new record is the mount state |
| HeroSectionInline.Section.ChangeImage | src/components/HeroSection.jsx:50-83 | returns true exactly when the lock was free, and leaves `ChangeStep` of the old state |
| HeroSectionInline.Section.Wheel | src/components/HeroSection.jsx:89-119 | keeps the invariant and leaves `WheelStep` of the old state |
| HeroSectionInline.Section.TouchStart | src/components/HeroSection.jsx:132-138 | keeps the invariant and leaves `TouchStartStep` of the old state |
| HeroSectionInline.Section.TouchMove | src/components/HeroSection.jsx:140-161 | keeps the invariant and leaves `TouchMoveStep` of the old state |
| HeroSectionInline.Section.TouchEnd | src/components/HeroSection.jsx:163-169 | keeps the invariant and leaves `TouchEndStep` of the old state |
| HeroSectionInline.Section.KeyDown | src/components/HeroSection.jsx:186-199 | keeps the invariant and leaves `KeyDownStep` of the old state |
| HeroSectionInline.Section.ReleaseTimerFires | src/components/HeroSection.jsx:77-80 | keeps the invariant and leaves `ReleaseStep` of the old state |
| HeroSectionInline.Section.InitTimerFires | src/components/HeroSection.jsx:229-232 | sets only the initialised flag |
| HeroSectionInline.Section.Resize | src/components/HeroSection.jsx:31-35 | sets only `isMobile`, to width < 768 |
| HeroSectionInline.Section.Background | src/components/HeroSection.jsx:208 | the background colour index is the current index, and valid |
| ResponsiveCalculations.JsRemainder | src/components/HeroSection/utils/responsiveCalculations.js:104 | JavaScript's `%` agrees with the mathematical remainder for a non-negative dividend and is smaller than the divisor in magnitude |
| ResponsiveCalculations.DesktopScale | src/components/HeroSection/utils/responsiveCalculations.js:38-46 | 1 at the front; behind it, at least the floor (0.7 or 0.75) and below 1 |
| ResponsiveCalculations.DesktopOffset | src/components/HeroSection/utils/responsiveCalculations.js:48-53 | the desktop offset lies in 25..40 |
| ResponsiveCalculations.MobileScale | src/components/HeroSection/utils/responsiveCalculations.js:55-67 | 1 at the front; behind it, at least the floor (0.70/0.72/0.75/0.80) and below 1 |
| ResponsiveCalculations.MobileOffset | src/components/HeroSection/utils/responsiveCalculations.js:69-74 | the mobile offset lies in 20..35 |
| ResponsiveCalculations.MobileOpacity | src/components/HeroSection/utils/responsiveCalculations.js:76-83 | 1 at the front; behind it, at least 0.5 or 0.6 and below 1 |
| ResponsiveCalculations.DesktopOpacity | src/components/HeroSection/utils/responsiveCalculations.js:15 | 1 at the front; behind it, at least 0.4 and below 1 |
| ResponsiveCalculations.ZIndex | src/components/HeroSection/utils/responsiveCalculations.js:31-33 | at least 30 at the front, at most 22 behind, always within 5..35 for a valid position |
| ResponsiveCalculations.CalculateImagePosition | src/components/HeroSection/utils/responsiveCalculations.js:2-36 | scale in [0.7, 1], opacity in [0.4, 1], y ≤ 0 and zIndex in [5, 35]; the front and a wrapping image rest at y 0 and opacity 1; a stacked image sits higher and fainter; zIndex is max(5, 30-8·pos) behind the front |
| ResponsiveCalculations.RegimeSelection | src/components/HeroSection/utils/responsiveCalculations.js:5-28 | from 768 up the scale, the offset of a stacked image and the opacity (outside a wrap) all come from the desktop ladders; below 768 all from the mobile ladders |
| ResponsiveCalculations.FrontPaintsAbove | src/components/HeroSection/utils/responsiveCalculations.js:31-33 | the front image paints strictly above every stacked image |
| ResponsiveCalculations.ScaleNonIncreasing | src/components/HeroSection/utils/responsiveCalculations.js:38-67 | deeper in the stack never means larger |
| ResponsiveCalculations.OpacityNonIncreasing | src/components/HeroSection/utils/responsiveCalculations.js:10-28 | deeper in the stack never means more opaque |
| ResponsiveCalculations.OffsetNonDecreasing | src/components/HeroSection/utils/responsiveCalculations.js:48-74 | within each regime, a wider screen never spreads the stack less |
| ResponsiveCalculations.SlideDistance | src/components/HeroSection/utils/responsiveCalculations.js:85-97 | the slide-in start lies in [-200, -60]: at most -140 on desktop, at least -90 on mobile |
| ResponsiveCalculations.SlideDistanceNonIncreasing | src/components/HeroSection/utils/responsiveCalculations.js:85-97 | wider screens slide in from at least as far, across both regimes |
| ResponsiveCalculations.PreviousFrontIsBackward | src/components/HeroSection/utils/responsiveCalculations.js:104 | `(current-1+n) % n` is the backward neighbour, and differs from current when n ≥ 2 |
| ResponsiveCalculations.StackPosition | src/components/HeroSection/utils/responsiveCalculations.js:99-110 | 0 iff index == current; 1 iff index is the backward neighbour and not current; otherwise 2 |
| ResponsiveCalculations.ExactlyOneFront | src/components/HeroSection/utils/responsiveCalculations.js:99-110 | over 0..n-1, exactly one index is at position 0, and with n ≥ 2 exactly one is at position 1 |
| ImageStack.RenderStack | src/components/HeroSection/ImageStack.jsx:9 | one view per image, in image order |
| ImageStack.RenderImage | src/components/HeroSection/ImageStack.jsx:10-41 | one image's view carries its source, is at the front iff it is the current image, and only the front image can wrap in, at zIndex 35, which is exactly when it has an entrance |
| ImageStack.StackFront | src/components/HeroSection/ImageStack.jsx:10-14 | exactly the current image is at the front; at most one image wraps, and only the front image 0 after a move from n-1 |
| ImageStack.StackPlacement | src/components/HeroSection/ImageStack.jsx:15-41 | each placement is the geometry of its stack position with the wrap flag; only a wrapping image has an entrance (slide distance, opacity 0) and the 0.4 s opacity transition; a wrapping image paints at 35, all others at 30 or below |
| ImageStack.WrapIffForwardFromLast | src/components/HeroSection/ImageStack.jsx:11-12 | with at least three images, a change is flagged as a wrap iff it is a forward change from the last image |
| ImageStack.BackwardSendsOldFrontToBack | src/components/HeroSection/ImageStack.jsx:14 | with at least three images, after a backward change the old front is at position 2; after a forward change it is at 1 |
| ImageStack.NoWrapAtMount | src/components/HeroSection/ImageStack.jsx:10-12 | with both indices 0 and at least two images, nothing is flagged as wrapping |
| ProgressIndicator.NatToString | src/components/HeroSection/ProgressIndicator.jsx:30 | `String(n)` is a non-empty digit string with no leading zero, one digit below 10 and two below 100 |
| ProgressIndicator.ParseNatToString | src/components/HeroSection/ProgressIndicator.jsx:30 | reading the digits back gives the number |
| ProgressIndicator.ParseNatLeadingZeros | src/components/HeroSection/ProgressIndicator.jsx:30 | zero padding does not change the value |
| ProgressIndicator.PadStart | src/components/HeroSection/ProgressIndicator.jsx:30 | `padStart` keeps the string as a suffix behind filler characters and reaches the requested length |
| ProgressIndicator.LabelShape | src/components/HeroSection/ProgressIndicator.jsx:30 | a label is `[digits]` whose value is the one-based counter number, four characters long up to 99 and unpadded from 10 on |
| ProgressIndicator.SingleDigitLabel | src/components/HeroSection/ProgressIndicator.jsx:30 | the first nine labels are `[0d]`, with d the one-based counter number as a digit |
| ProgressIndicator.LabelInjective | src/components/HeroSection/ProgressIndicator.jsx:30 | two counters never share a label |
| ProgressIndicator.LabelExamples | src/components/HeroSection/ProgressIndicator.jsx:30 | the first label is `[01]` and the tenth `[10]` |
| ProgressIndicator.CounterIndices | src/components/HeroSection/ProgressIndicator.jsx:4 | the counters are 0..total-1, ascending |
| ProgressIndicator.LayoutShape | src/components/HeroSection/ProgressIndicator.jsx:10-45 | the layout is, for each counter k in order, stickCount sticks then counter k (highlighted iff current), and then a final group of stickCount sticks |
| ProgressIndicator.Layout | src/components/HeroSection/ProgressIndicator.jsx:10-45 | the line has (stickCount+1)·total+stickCount items, and its last stickCount items are sticks |
| ProgressIndicator.LayoutCounts | src/components/HeroSection/ProgressIndicator.jsx:13-36 | there are stickCount·(total+1) sticks, and exactly one highlighted counter when the current index is in range, none otherwise |
| TextOverlay.Captions | src/components/HeroSection/TextOverlay.jsx:8 | one caption per text, in order |
| TextOverlay.CaptionAt | src/components/HeroSection/TextOverlay.jsx:9-26 | a caption keeps its text, is targeted visible iff it is the current one, and is delayed by 0.35 s iff it is current and the carousel is initialised |
| TextOverlay.CaptionTargets | src/components/HeroSection/TextOverlay.jsx:19-22 | a caption is animated to opacity 1 at y 0 iff it is the current one; every other goes to opacity 0 at y 15 |
| TextOverlay.OneVisibleCaption | src/components/HeroSection/TextOverlay.jsx:9-22 | exactly one caption is targeted visible when the current index is in range, and none otherwise |
| TextOverlay.InitialCaption | src/components/HeroSection/TextOverlay.jsx:15-18 | on mount only caption 0 is shown |
| TextOverlay.CaptionDelay | src/components/HeroSection/TextOverlay.jsx:26 | the delay is 0.35 s iff the caption is current and the carousel is initialised, and 0 otherwise |
| Highlights.Filter | src/pages/Highlights.jsx:88 | a filter result is no longer than its input, and every kept element passes and comes from the input |
| Highlights.FilterSpec | src/pages/Highlights.jsx:88 | a filter result is an order-preserving subsequence holding exactly the passing elements, with all their copies |
| Highlights.FilteredProjectsSpec | src/pages/Highlights.jsx:86-88 | "all" gives the project list unchanged; any other selection gives the order-preserving subsequence of exactly that category's projects |
| Highlights.FilteredProjects | src/pages/Highlights.jsx:86-88 | the filtered list is no longer than the project list, and every entry is a project; with a category selected, it is of that category |
| Highlights.FeaturedProjectsSpec | src/pages/Highlights.jsx:90 | the featured list is the order-preserving subsequence of exactly the featured projects |
| Highlights.FeaturedProjects | src/pages/Highlights.jsx:90 | the featured list is no longer than the project list, and every entry is a featured project |
| Highlights.FindCategoryFrom | src/pages/Highlights.jsx:305 | `find` returns the first position with the id, or nothing when no category has it |
| Highlights.BadgeName | src/pages/Highlights.jsx:305 | the badge is the name of the first category whose id is the project's category, and absent iff none matches |
| Highlights.PreviewTags | src/pages/Highlights.jsx:332-341 | the first min(2, n) tags in order, and "+N more" iff there are more than two tags, with N = n - 2, so that nothing goes uncounted |
| Highlights.ProjectCard | src/pages/Highlights.jsx:305-341 | the award icon shows iff there is an award; the badge shows iff some category matches; at most two tags are shown, as a prefix |
| Highlights.Grid | src/pages/Highlights.jsx:283 | one card per filtered project, in order |
| ProjectVideo.LastSegment | src/utils/ProjectVideo.js:7 | `split("/").pop()` is the longest `/`-free suffix of the path |
| ProjectVideo.IndexOfFrom | src/utils/ProjectVideo.js:7 | finds the first occurrence of the pattern from a position on, or reports that there is none |
| ProjectVideo.RemoveFirstOccurrence | src/utils/ProjectVideo.js:7 | `replace` with a string removes exactly the first occurrence (or nothing when there is none), and adds no character |
| ProjectVideo.ReplaceFirst | src/utils/ProjectVideo.js:7 | `replace` changes the length by the replacement's length minus the pattern's length when the pattern occurs and not at all otherwise, and adds no character that is not in the string or the replacement |
| ProjectVideo.Title | src/utils/ProjectVideo.js:7 | a title never contains `/` and is no longer than the file name |
| ProjectVideo.VideosSpec | src/utils/ProjectVideo.js:5-9 | video ids are 1..n, distinct and ascending; each `src` is the module's default export; no title contains `/` |
| ProjectVideo.Videos | src/utils/ProjectVideo.js:5 | one video per globbed file |
| ProjectVideo.LastSegmentAfterSlash | src/utils/ProjectVideo.js:7 | the last segment of `dir/name` is the name when the name has no `/` |
| ProjectVideo.ExtensionIsFirstOccurrence | src/utils/ProjectVideo.js:7 | in `name.mp4`, with no `.mp4` inside the name, the first `.mp4` is the extension |
| ProjectVideo.RemoveFirstExample | src/utils/ProjectVideo.js:7 | `"a.mp4b.mp4".replace(".mp4", "")` is `"ab.mp4"` |
| ProjectVideo.TitleOfFile | src/utils/ProjectVideo.js:7 | the title of `dir/name.mp4` is `name` when the name has neither `/` nor `.mp4` |
| ProjectVideo.TitleRemovesFirstOccurrence | src/utils/ProjectVideo.js:7 | the first `.mp4` is removed, not the extension: `a.mp4b.mp4` gives `ab.mp4` |

## Left out

- Browser plumbing is not modelled: listener registration and removal, `preventDefault`, passive flags, and the `overflow: hidden` toggling on mount and unmount. These are side effects on the page, not logic.
- `Date.now()` and `setTimeout` are not modelled. Times are event parameters, and the timers are events. So the lock durations (900 ms in the hook, 800 ms inline) and the 100 ms init delay do not appear as constants. The model does not check that a release arrives exactly 800 or 900 ms after its change. It only assumes that at most one release is pending, and only while the lock is held.
- Unmounting is not modelled. On unmount only the init timer is cleared (`src/components/HeroSection/hooks/useHeroScroll.js:188`, `src/components/HeroSection.jsx:235`); a cleared init timer is an `InitTimer` event that never arrives. The release timer is never stored or cleared, so it still fires after unmount, on a record that is no longer used.
- framer-motion's interpolation is not modelled: easings, y/scale/zIndex durations and the background colour animation. The model keeps only the values each animation targets, the wrap entrance and the 0.4/0.5 s opacity duration.
- IEEE double rounding in the geometry is not modelled. Decimal constants are exact reals. Pixels, z-indices, wheel deltas and touch positions are integers.
- The hook's handlers are installed by its caller's `isInitialized` prop. That caller is not part of this model. The model gates on the record's own flag, which the 100 ms init timer sets.
- The hook does not own the index pair (its caller's setters update it). The model keeps the pair in the record, at 0 and 0 on mount as the inline component does.
- React's batching of the functional `setCurrentImageIndex` updates is not modelled. The model applies each change at once, which is what the functional updates compute, since only one change happens per lock window.
- An empty image list is excluded by the constructors' precondition. JavaScript's `% 0` would yield `NaN` there.
- `useScreenSize` appears only as the `Resize` event and the `IsMobile` predicate. The screen width is a parameter of the render functions.
- The Highlights page's click and hover state (`selectedCategory`, `hoveredProject`) is not modelled as state. The selected category is a parameter. Card markup other than badge, award icon and tags is displayed text only.
- `import.meta.glob` is a bundler feature, so its result is taken as an input sequence of (path, module) pairs. The hard-coded `video` list next to it is data only.
- The other pages and components of the site are markup, routing or media playback, with nothing to state: AboutUs, Contact, Navbar, ProjectScreen, Brands, App, HeroContext and Projects.
