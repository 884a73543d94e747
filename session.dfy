/** The running session: main()'s closure variables as the fields of one
    object, and its event handlers as methods that update them in place. Each
    method is proved to do what the matching step function of Interaction
    says, and to keep Interaction.Valid. */
module PixelQuilt {
  import opened Interaction
  import opened Export

  class Session {
    var nStrips: int
    /** nShuffles, in eighths. */
    var shuffleEighths: int
    var lastTapTime: int
    var currentFacingMode: FacingMode
    var videoInput: VideoInput
    var imageInput: ImageInput

    /** The fields as one value of the specification's state. */
    function Snapshot(): State
      reads this
    {
      State(nStrips, shuffleEighths, lastTapTime, currentFacingMode, videoInput, imageInput)
    }

    ghost predicate Valid()
      reads this
    {
      Interaction.Valid(Snapshot())
    }

    /** main() after the selfie camera has delivered its first stream. */
    constructor (videoWidth: nat, videoHeight: nat)
      ensures Valid()
      ensures Snapshot() == Initial(videoWidth, videoHeight)
    {
      currentFacingMode := User;
      videoInput := VideoInput(videoWidth, videoHeight, true);
      imageInput := NoImage;
      nStrips := InitialStrips;
      shuffleEighths := MinShuffleEighths;
      lastTapTime := 0;
    }

    /** The keydown listener. Returns whether the key asks for an export,
        which the caller then runs with ExportHighRes. */
    method KeyDown(key: string) returns (exportRequested: bool)
      requires Valid()
      modifies this
      ensures Valid()
      ensures Snapshot() == KeyStep(old(Snapshot()), key)
      ensures exportRequested == RequestsExport(key)
    {
      exportRequested := false;
      if key == "ArrowUp" {
        nStrips := Min(MaxStrips, nStrips + 1);
      } else if key == "ArrowDown" {
        nStrips := Max(MinStrips, nStrips - 1);
      } else if key == "ArrowRight" {
        shuffleEighths := Min(MaxShuffleEighths, shuffleEighths + EighthsPerShuffle);
      } else if key == "ArrowLeft" {
        shuffleEighths := Max(MinShuffleEighths, shuffleEighths - EighthsPerShuffle);
      } else if key == "s" {
        exportRequested := true;
      }
    }

    /** The callback handleTouch calls with a swipe's axis and delta. */
    method Swipe(direction: string, diff: real)
      requires Valid()
      modifies this
      ensures Valid()
      ensures Snapshot() == SwipeStep(old(Snapshot()), direction, diff)
    {
      if diff > SwipeResetThreshold {
        lastTapTime := 0;
      }
      if direction == "x" {
        shuffleEighths := Max(MinShuffleEighths, Min(MaxShuffleEighths, shuffleEighths + Sign(diff)));
      } else {
        nStrips := Max(MinStrips, Min(MaxStrips, nStrips - Sign(diff)));
      }
    }

    /** switchCamera, with the outcome of the camera request as an input. */
    method SwitchCamera(outcome: Acquisition)
      requires Valid()
      modifies this
      ensures Valid()
      ensures Snapshot() == SwitchStep(old(Snapshot()), outcome)
    {
      if imageInput.Image? {
        return;
      }
      // stopWebcamStream
      videoInput := videoInput.(live := false);
      var newFacingMode := if currentFacingMode == User then Environment else User;
      match outcome {
        case Acquired(w, h) =>
          videoInput := VideoInput(w, h, true);
          currentFacingMode := newFacingMode;
        case AcquisitionFailed =>
      }
    }

    /** The touchend listener, with the clock reading as an input. */
    method TouchEnd(now: int, outcome: Acquisition)
      requires Valid()
      modifies this
      ensures Valid()
      ensures Snapshot() == TouchEndStep(old(Snapshot()), now, outcome)
    {
      if now - lastTapTime < DoubleTapWindow {
        SwitchCamera(outcome);
      }
      lastTapTime := now;
    }

    /** The drop listener, given the MIME types of the dropped files and the
        outcome of decoding the first one. Returns whether the drop passed
        the MIME check. */
    method DropImage(fileTypes: seq<string>, decoding: Decoding) returns (accepted: bool)
      requires Valid()
      modifies this
      ensures Valid()
      ensures accepted == AcceptsDrop(fileTypes)
      ensures Snapshot() == DropStep(old(Snapshot()), fileTypes, decoding)
    {
      accepted := |fileTypes| > 0 && IsImageType(fileTypes[0]);
      if accepted {
        match decoding {
          case Decoded(w, h) =>
            // removeVideoInput, then the image becomes the input
            videoInput := videoInput.(live := false);
            imageInput := Image(w, h);
          case DecodeFailed =>
        }
      }
    }

    /** The canvas size exportHighRes gives the export renderer: the native
        size of the current input (the image when there is one, else the
        camera stream) scaled by 2^(nShuffles + 1), capped at 4096. */
    method ExportHighRes(scale: real) returns (size: Size)
      requires Valid() && IsExportScale(shuffleEighths, scale)
      ensures imageInput.Image? ==>
        size == ExportSize(imageInput.naturalWidth as real, imageInput.naturalHeight as real, scale)
      ensures imageInput.NoImage? ==>
        size == ExportSize(videoInput.videoWidth as real, videoInput.videoHeight as real, scale)
      ensures size.width <= MaxExportDimension && size.height <= MaxExportDimension
    {
      var nativeWidth: nat, nativeHeight: nat;
      if imageInput.Image? {
        nativeWidth, nativeHeight := imageInput.naturalWidth, imageInput.naturalHeight;
      } else {
        nativeWidth, nativeHeight := videoInput.videoWidth, videoInput.videoHeight;
      }
      size := ExportSize(nativeWidth as real, nativeHeight as real, scale);
    }
  }
}
