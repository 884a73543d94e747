/** Sequences of user events and what the session state can become after any
    of them: the bounds hold forever, an image once shown is never replaced by
    the camera again while no camera request is pending, and parameters move
    only on keys and swipes. Each event is handled to the end, camera request
    included, before the next one. */
module Events {
  import opened Interaction

  /** One event delivered to main()'s handlers, with the inputs the platform
      supplies: the clock for a touch end and the outcome of any camera
      request it makes; the MIME types and decoding outcome of a drop. */
  datatype Event =
    | KeyDown(key: string)
    | Swipe(direction: string, diff: real)
    | TouchEnd(time: int, outcome: Acquisition)
    | Drop(fileTypes: seq<string>, decoding: Decoding)

  function Step(s: State, e: Event): State {
    match e
    case KeyDown(key) => KeyStep(s, key)
    case Swipe(direction, diff) => SwipeStep(s, direction, diff)
    case TouchEnd(time, outcome) => TouchEndStep(s, time, outcome)
    case Drop(fileTypes, decoding) => DropStep(s, fileTypes, decoding)
  }

  /** The state after handling the events in order. */
  function Run(s: State, events: seq<Event>): State
    decreases |events|
  {
    if events == [] then s else Run(Step(s, events[0]), events[1..])
  }

  /** Running two events is stepping through them in order. */
  lemma RunPair(s: State, first: Event, second: Event)
    ensures Run(s, [first, second]) == Step(Step(s, first), second)
  {
    assert [first, second][1..] == [second];
    assert Run(s, [first, second]) == Run(Step(s, first), [second]);
    assert [second][1..] == [];
    assert Run(Step(s, first), [second]) == Run(Step(Step(s, first), second), []);
  }

  /** Every event keeps the invariant, so any sequence of them does. */
  lemma {:induction false} RunPreservesValid(s: State, events: seq<Event>)
    requires Valid(s)
    ensures Valid(Run(s, events))
    decreases |events|
  {
    if events != [] {
      RunPreservesValid(Step(s, events[0]), events[1..]);
    }
  }

  /** From the start-up state, whatever the user does, nStrips stays in
      [1, 1920] and nShuffles in [1, 32]. */
  lemma ParametersStayInBounds(videoWidth: nat, videoHeight: nat, events: seq<Event>)
    ensures var s := Run(Initial(videoWidth, videoHeight), events);
      && MinStrips <= s.nStrips <= MaxStrips
      && MinShuffles as real <= NShuffles(s) <= MaxShuffles as real
  {
    RunPreservesValid(Initial(videoWidth, videoHeight), events);
  }

  /** Once an image is the input it stays the input, the camera stays
      stopped and the facing mode never changes again, provided no camera
      switch was still awaiting its stream when the image arrived. */
  lemma {:induction false} ImageIsPermanent(s: State, events: seq<Event>)
    requires s.image.Image? && !s.video.live
    ensures var t := Run(s, events);
      t.image.Image? && !t.video.live && t.facing == s.facing
    decreases |events|
  {
    if events != [] {
      ImageIsPermanent(Step(s, events[0]), events[1..]);
    }
  }

  predicate ChangesNoParameter(e: Event) {
    !e.KeyDown? && !e.Swipe?
  }

  /** Touch ends and drops never change nStrips or nShuffles. */
  lemma {:induction false} OnlyKeysAndSwipesChangeParameters(s: State, events: seq<Event>)
    requires forall i :: 0 <= i < |events| ==> ChangesNoParameter(events[i])
    ensures Run(s, events).nStrips == s.nStrips
    ensures Run(s, events).shuffleEighths == s.shuffleEighths
    decreases |events|
  {
    if events != [] {
      OnlyKeysAndSwipesChangeParameters(Step(s, events[0]), events[1..]);
    }
  }

  /** A session driven by the keyboard alone keeps nShuffles a whole number,
      so its export scale is an exact power of two. */
  lemma {:induction false} KeysKeepWholeShuffles(s: State, keys: seq<string>)
    requires Valid(s) && s.shuffleEighths % EighthsPerShuffle == 0
    ensures var t := Run(s, KeyEvents(keys));
      Valid(t) && t.shuffleEighths % EighthsPerShuffle == 0
    decreases |keys|
  {
    if keys != [] {
      assert KeyEvents(keys)[0] == KeyDown(keys[0]);
      assert KeyEvents(keys)[1..] == KeyEvents(keys[1..]);
      KeysKeepWholeShuffles(KeyStep(s, keys[0]), keys[1..]);
    }
  }

  /** The key presses as events. */
  function KeyEvents(keys: seq<string>): (events: seq<Event>)
    ensures |events| == |keys|
    ensures forall i :: 0 <= i < |keys| ==> events[i] == KeyDown(keys[i])
  {
    if keys == [] then [] else [KeyDown(keys[0])] + KeyEvents(keys[1..])
  }

  /** ArrowDown undoes ArrowUp, and ArrowLeft undoes ArrowRight, away from the
      upper bound; the other way round, away from the lower bound. */
  lemma ArrowKeysAreInverse(s: State)
    requires Valid(s)
    ensures s.nStrips < MaxStrips ==> KeyStep(KeyStep(s, "ArrowUp"), "ArrowDown") == s
    ensures s.shuffleEighths + EighthsPerShuffle <= MaxShuffleEighths ==>
      KeyStep(KeyStep(s, "ArrowRight"), "ArrowLeft") == s
    ensures s.nStrips > MinStrips ==> KeyStep(KeyStep(s, "ArrowDown"), "ArrowUp") == s
    ensures s.shuffleEighths - EighthsPerShuffle >= MinShuffleEighths ==>
      KeyStep(KeyStep(s, "ArrowLeft"), "ArrowRight") == s
  {
  }

  /** Two touch ends less than 300 ms apart, the first one not itself a double
      tap, flip the facing mode once when the camera request succeeds. */
  lemma DoubleTapFlipsFacing(s: State, first: int, second: int, outcome: Acquisition)
    requires s.image.NoImage?
    requires first - s.lastTapTime >= DoubleTapWindow
    requires second - first < DoubleTapWindow
    requires outcome.Acquired?
    ensures Run(s, [TouchEnd(first, AcquisitionFailed), TouchEnd(second, outcome)]).facing == Flip(s.facing)
  {
    var t1 := TouchEndStep(s, first, AcquisitionFailed);
    assert t1.facing == s.facing;
    RunPair(s, TouchEnd(first, AcquisitionFailed), TouchEnd(second, outcome));
  }

  /** A swipe whose delta is above 16 resets the timer, so the touch end that
      follows it (at any real clock time, at least 300 ms after the epoch) is
      not taken for the second tap of a pair. */
  lemma SwipeResetPreventsDoubleTap(s: State, direction: string, diff: real, now: int, outcome: Acquisition)
    requires diff > SwipeResetThreshold && now >= DoubleTapWindow
    ensures Run(s, [Swipe(direction, diff), TouchEnd(now, outcome)]).facing == s.facing
  {
    RunPair(s, Swipe(direction, diff), TouchEnd(now, outcome));
  }

  /** The reset tests the signed delta: a swipe with delta at most 16, a
      negative one of any size included, leaves the timer alone, so a touch
      end soon after an earlier tap still switches the camera. */
  lemma SignedSwipeKeepsTapTimer(s: State, direction: string, diff: real, now: int, w: nat, h: nat)
    requires diff <= SwipeResetThreshold
    requires s.image.NoImage? && IsDoubleTap(s, now)
    ensures Run(s, [Swipe(direction, diff), TouchEnd(now, Acquired(w, h))]).facing == Flip(s.facing)
  {
    RunPair(s, Swipe(direction, diff), TouchEnd(now, Acquired(w, h)));
  }
}
