/** The interaction state that main() keeps in closure variables, and what
    each event handler does to it, as functions from the state before the
    event to the state after it. The class Session in session.dfy performs the
    same updates in place; these functions are its specification. */
module Interaction {

  const MinStrips: int := 1
  const MaxStrips: int := 1920
  const MinShuffles: int := 1
  const MaxShuffles: int := 32
  const InitialStrips: int := 32

  /** nShuffles moves by 1 on a key press and by 1/8 on a swipe, so it is kept
      exactly as a whole number of eighths. */
  const EighthsPerShuffle: int := 8
  const MinShuffleEighths: int := MinShuffles * EighthsPerShuffle
  const MaxShuffleEighths: int := MaxShuffles * EighthsPerShuffle

  /** Two touch ends closer than this many milliseconds make a double tap. */
  const DoubleTapWindow: int := 300
  /** A swipe whose delta is above this resets the double-tap timer. */
  const SwipeResetThreshold: real := 16.0

  /** Which camera is requested: 'user' (the selfie camera) or 'environment'. */
  datatype FacingMode = User | Environment

  /** The current camera stream: its reported size, and whether its tracks are
      still running (stopWebcamStream stops them). */
  datatype VideoInput = VideoInput(videoWidth: nat, videoHeight: nat, live: bool)

  /** imageInput: null until a dropped image has been decoded. */
  datatype ImageInput = NoImage | Image(naturalWidth: nat, naturalHeight: nat)

  /** The outcome of asking the platform for a camera stream. */
  datatype Acquisition = Acquired(videoWidth: nat, videoHeight: nat) | AcquisitionFailed

  /** The outcome of reading and decoding a dropped file. */
  datatype Decoding = Decoded(naturalWidth: nat, naturalHeight: nat) | DecodeFailed

  /** The closure variables of main(). */
  datatype State = State(
    nStrips: int,
    shuffleEighths: int,
    lastTapTime: int,
    facing: FacingMode,
    video: VideoInput,
    image: ImageInput)

  /** nShuffles as the host holds it. */
  function NShuffles(s: State): real {
    s.shuffleEighths as real / EighthsPerShuffle as real
  }

  /** The invariant every handler keeps: both parameters within their bounds,
      and no camera track running once an image has taken over. The last part
      holds because each camera request is taken to finish before the next
      event; a switch still awaiting its stream when an image arrives would
      break it. */
  predicate Valid(s: State) {
    && MinStrips <= s.nStrips <= MaxStrips
    && MinShuffleEighths <= s.shuffleEighths <= MaxShuffleEighths
    && (s.image.Image? ==> !s.video.live)
  }

  /** The state once main() has obtained the selfie camera. */
  function Initial(videoWidth: nat, videoHeight: nat): (s: State)
    ensures Valid(s)
    ensures s.nStrips == InitialStrips && NShuffles(s) == MinShuffles as real
    ensures s.facing == User && s.image == NoImage
    ensures s.video == VideoInput(videoWidth, videoHeight, true)
    // No tap has been seen yet.
    ensures s.lastTapTime == 0
  {
    State(InitialStrips, MinShuffleEighths, 0, User,
          VideoInput(videoWidth, videoHeight, true), NoImage)
  }

  function Min(a: int, b: int): int { if a < b then a else b }
  function Max(a: int, b: int): int { if a < b then b else a }

  /** Math.sign on a (non-NaN) number. */
  function Sign(x: real): (r: int)
    ensures -1 <= r <= 1
    ensures r > 0 <==> x > 0.0
    ensures r < 0 <==> x < 0.0
  {
    if x > 0.0 then 1 else if x < 0.0 then -1 else 0
  }

  /** The four keys that change a parameter. */
  predicate IsArrowKey(key: string) {
    key in {"ArrowUp", "ArrowDown", "ArrowRight", "ArrowLeft"}
  }

  /** The keydown handler. Each arrow key applies only the bound it moves
      towards (Math.min when increasing, Math.max when decreasing). */
  function KeyStep(s: State, key: string): (r: State)
    // Only the two parameters can change, and only on an arrow key.
    ensures r.lastTapTime == s.lastTapTime && r.facing == s.facing
    ensures r.video == s.video && r.image == s.image
    ensures !IsArrowKey(key) ==> r == s
    // Up and down move nStrips by exactly one, or pin it at the bound.
    ensures key == "ArrowUp" ==>
      && r.shuffleEighths == s.shuffleEighths
      && r.nStrips == (if s.nStrips < MaxStrips then s.nStrips + 1 else MaxStrips)
    ensures key == "ArrowDown" ==>
      && r.shuffleEighths == s.shuffleEighths
      && r.nStrips == (if s.nStrips > MinStrips then s.nStrips - 1 else MinStrips)
    // Right and left move nShuffles by exactly one, or pin it at the bound.
    ensures key == "ArrowRight" ==>
      && r.nStrips == s.nStrips
      && r.shuffleEighths == (if s.shuffleEighths + EighthsPerShuffle <= MaxShuffleEighths
                              then s.shuffleEighths + EighthsPerShuffle else MaxShuffleEighths)
    ensures key == "ArrowLeft" ==>
      && r.nStrips == s.nStrips
      && r.shuffleEighths == (if s.shuffleEighths - EighthsPerShuffle >= MinShuffleEighths
                              then s.shuffleEighths - EighthsPerShuffle else MinShuffleEighths)
    ensures Valid(s) ==> Valid(r)
  {
    if key == "ArrowUp" then s.(nStrips := Min(MaxStrips, s.nStrips + 1))
    else if key == "ArrowDown" then s.(nStrips := Max(MinStrips, s.nStrips - 1))
    else if key == "ArrowRight" then s.(shuffleEighths := Min(MaxShuffleEighths, s.shuffleEighths + EighthsPerShuffle))
    else if key == "ArrowLeft" then s.(shuffleEighths := Max(MinShuffleEighths, s.shuffleEighths - EighthsPerShuffle))
    else s
  }

  /** Whether a key press asks for a high-resolution export. */
  predicate RequestsExport(key: string) {
    key == "s"
  }

  /** The swipe callback given to handleTouch. A swipe clamps on both sides
      (Math.max of Math.min), so its result is within bounds from any state. */
  function SwipeStep(s: State, direction: string, diff: real): (r: State)
    // Only a delta above the threshold resets the tap timer; a negative one never does.
    ensures r.lastTapTime == (if diff > SwipeResetThreshold then 0 else s.lastTapTime)
    ensures r.facing == s.facing && r.video == s.video && r.image == s.image
    // A horizontal swipe moves only nShuffles, by sign(diff) eighths, or pins it at the bound.
    ensures direction == "x" ==>
      && r.nStrips == s.nStrips
      && MinShuffleEighths <= r.shuffleEighths <= MaxShuffleEighths
      && (MinShuffleEighths <= s.shuffleEighths + Sign(diff) <= MaxShuffleEighths ==>
            r.shuffleEighths == s.shuffleEighths + Sign(diff))
      && (s.shuffleEighths + Sign(diff) > MaxShuffleEighths ==> r.shuffleEighths == MaxShuffleEighths)
      && (s.shuffleEighths + Sign(diff) < MinShuffleEighths ==> r.shuffleEighths == MinShuffleEighths)
    // Any other swipe moves only nStrips, by -sign(diff), or pins it at the bound.
    ensures direction != "x" ==>
      && r.shuffleEighths == s.shuffleEighths
      && MinStrips <= r.nStrips <= MaxStrips
      && (MinStrips <= s.nStrips - Sign(diff) <= MaxStrips ==>
            r.nStrips == s.nStrips - Sign(diff))
      && (s.nStrips - Sign(diff) > MaxStrips ==> r.nStrips == MaxStrips)
      && (s.nStrips - Sign(diff) < MinStrips ==> r.nStrips == MinStrips)
    ensures Valid(s) ==> Valid(r)
    ensures Valid(s) && diff == 0.0 ==> r == s
  {
    var s' := if diff > SwipeResetThreshold then s.(lastTapTime := 0) else s;
    if direction == "x" then
      s'.(shuffleEighths := Max(MinShuffleEighths, Min(MaxShuffleEighths, s'.shuffleEighths + Sign(diff))))
    else
      s'.(nStrips := Max(MinStrips, Min(MaxStrips, s'.nStrips - Sign(diff))))
  }

  function Flip(m: FacingMode): (r: FacingMode)
    ensures r != m
  {
    if m == User then Environment else User
  }

  /** switchCamera: ignored while an image is shown; otherwise the current
      stream is stopped before the other camera is requested, and the facing
      mode changes only when that request succeeds. */
  function SwitchStep(s: State, outcome: Acquisition): (r: State)
    ensures s.image.Image? ==> r == s
    ensures r.nStrips == s.nStrips && r.shuffleEighths == s.shuffleEighths
    ensures r.lastTapTime == s.lastTapTime && r.image == s.image
    ensures s.image.NoImage? ==>
      && (r.facing != s.facing <==> outcome.Acquired?)
      && r.video.live == outcome.Acquired?
    ensures s.image.NoImage? && outcome.Acquired? ==>
      r.video.videoWidth == outcome.videoWidth && r.video.videoHeight == outcome.videoHeight
    // On failure the old stream stays the input, but it has been stopped.
    ensures outcome.AcquisitionFailed? ==>
      r.video.videoWidth == s.video.videoWidth && r.video.videoHeight == s.video.videoHeight
    ensures Valid(s) ==> Valid(r)
  {
    if s.image.Image? then s
    else
      var stopped := s.(video := s.video.(live := false));
      match outcome
      case Acquired(w, h) => stopped.(video := VideoInput(w, h, true), facing := Flip(s.facing))
      case AcquisitionFailed => stopped
  }

  /** Whether a touch end at time now completes a double tap. */
  predicate IsDoubleTap(s: State, now: int) {
    now - s.lastTapTime < DoubleTapWindow
  }

  /** The touchend handler: a double tap switches the camera, and every touch
      end records its time. */
  function TouchEndStep(s: State, now: int, outcome: Acquisition): (r: State)
    ensures r.lastTapTime == now
    ensures r.nStrips == s.nStrips && r.shuffleEighths == s.shuffleEighths && r.image == s.image
    ensures r.facing != s.facing <==> IsDoubleTap(s, now) && s.image.NoImage? && outcome.Acquired?
    ensures !IsDoubleTap(s, now) ==> r == s.(lastTapTime := now)
    // While an image is shown a double tap only records its time.
    ensures IsDoubleTap(s, now) && s.image.Image? ==> r == s.(lastTapTime := now)
    // A double tap without an image stops the stream first; it is live again
    // only when the new camera request succeeds, and then has the new size.
    ensures IsDoubleTap(s, now) && s.image.NoImage? ==> r.video.live == outcome.Acquired?
    ensures IsDoubleTap(s, now) && s.image.NoImage? && outcome.Acquired? ==>
      r.video == VideoInput(outcome.videoWidth, outcome.videoHeight, true)
    ensures outcome.AcquisitionFailed? || s.image.Image? ==>
      r.video.videoWidth == s.video.videoWidth && r.video.videoHeight == s.video.videoHeight
    ensures Valid(s) ==> Valid(r)
  {
    var s' := if IsDoubleTap(s, now) then SwitchStep(s, outcome) else s;
    s'.(lastTapTime := now)
  }

  /** Whether a MIME type names an image. */
  predicate IsImageType(mimeType: string) {
    "image/" <= mimeType
  }

  /** The drop handler's guard: there is a first file and it is an image. */
  predicate AcceptsDrop(fileTypes: seq<string>) {
    |fileTypes| > 0 && IsImageType(fileTypes[0])
  }

  /** A drop, given the MIME types of the dropped files in order and the outcome
      of decoding the first one. An accepted and decoded image stops the camera
      and becomes the input; anything else changes nothing. */
  function DropStep(s: State, fileTypes: seq<string>, decoding: Decoding): (r: State)
    ensures !AcceptsDrop(fileTypes) || decoding.DecodeFailed? ==> r == s
    ensures AcceptsDrop(fileTypes) && decoding.Decoded? ==>
      && r.image == Image(decoding.naturalWidth, decoding.naturalHeight)
      && !r.video.live
      && r == s.(image := r.image, video := s.video.(live := false))
    ensures Valid(s) ==> Valid(r)
  {
    if AcceptsDrop(fileTypes) then
      match decoding
      case Decoded(w, h) => s.(video := s.video.(live := false), image := Image(w, h))
      case DecodeFailed => s
    else s
  }

  /** A drop is accepted exactly when its first file's type begins with "image/". */
  lemma AcceptsDropExamples()
    ensures AcceptsDrop(["image/png"])
    ensures AcceptsDrop(["image/jpeg", "text/plain"])
    ensures !AcceptsDrop([])
    ensures !AcceptsDrop(["text/plain", "image/png"])
    ensures !AcceptsDrop(["image"])
  {
    assert "image/" <= "image/png";
    assert "image/" <= "image/jpeg";
    assert !("image/" <= "text/plain") by { assert "text/plain"[0] == 't'; }
    assert !("image/" <= "image");
  }
}
