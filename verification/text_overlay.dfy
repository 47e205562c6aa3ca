/** The captions over the hero carousel: one animated caption per text,
    shown only for the current image. */
module TextOverlay {
  import opened Carousel

  /** Delay before the caption of a newly current image appears, in ms. */
  const TextDelayDuration := 350
  /** How far below its resting place a hidden caption sits, in px. */
  const HiddenOffset := 15

  /** One caption: its text, where it starts on mount, where it is animated
      to, and the delay of that animation (seconds). */
  datatype Caption = Caption(
    text: string,
    initialOpacity: real,
    initialY: int,
    opacity: real,
    y: int,
    delay: real)

  predicate Visible(c: Caption) {
    c.opacity == 1.0 && c.y == 0
  }

  /** The caption at `index`: shown exactly when it is the current one, and
      delayed exactly when it becomes current after initialisation. */
  function CaptionAt(text: string, index: int, current: int, isInitialized: bool): (r: Caption)
    ensures r.text == text
    ensures Visible(r) <==> index == current
    ensures r.delay == 0.35 <==> index == current && isInitialized
  {
    var isActive := index == current;
    Caption(
      text,
      if index == 0 then 1.0 else 0.0,
      if index == 0 then 0 else HiddenOffset,
      if isActive then 1.0 else 0.0,
      if isActive then 0 else HiddenOffset,
      if isActive && isInitialized then TextDelayDuration as real / 1000.0 else 0.0)
  }

  /** `TextOverlay`: one caption per text, in order. */
  function Captions(texts: seq<string>, current: int, isInitialized: bool): (r: seq<Caption>)
    ensures |r| == |texts|
    ensures forall i :: 0 <= i < |r| ==> r[i].text == texts[i]
  {
    seq(|texts|, i requires 0 <= i < |texts| => CaptionAt(texts[i], i, current, isInitialized))
  }

  /** The caption of the current image is animated to full opacity at its
      place, every other one to transparent 15 px lower. */
  lemma CaptionTargets(texts: seq<string>, current: int, isInitialized: bool)
    ensures var r := Captions(texts, current, isInitialized);
      forall i :: 0 <= i < |r| ==>
        && (Visible(r[i]) <==> i == current)
        && (i != current ==> r[i].opacity == 0.0 && r[i].y == HiddenOffset)
  {
  }

  /** Exactly one caption is targeted visible when the current index names a
      text, and none otherwise. */
  lemma OneVisibleCaption(texts: seq<string>, current: int, isInitialized: bool)
    ensures var r := Captions(texts, current, isInitialized);
      CountBelow(|r|, i => 0 <= i < |r| && Visible(r[i])) == if 0 <= current < |texts| then 1 else 0
  {
    var r := Captions(texts, current, isInitialized);
    CountSingle(|r|, i => 0 <= i < |r| && Visible(r[i]), current);
  }

  /** On mount only the first caption is shown, whatever the current index. */
  lemma InitialCaption(texts: seq<string>, current: int, isInitialized: bool)
    ensures var r := Captions(texts, current, isInitialized);
      forall i :: 0 <= i < |r| ==>
        (r[i].initialOpacity == 1.0 && r[i].initialY == 0 <==> i == 0)
  {
  }

  /** Only the caption that becomes current after initialisation waits
      0.35 s before appearing; every other animation starts at once. */
  lemma CaptionDelay(texts: seq<string>, current: int, isInitialized: bool)
    ensures var r := Captions(texts, current, isInitialized);
      forall i :: 0 <= i < |r| ==>
        && (r[i].delay == 0.35 <==> i == current && isInitialized)
        && (r[i].delay != 0.35 ==> r[i].delay == 0.0)
  {
  }
}
