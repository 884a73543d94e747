# pixelquilt interaction core in Dafny

pixelquilt shows a webcam stream, or a dropped image, through a shader that
cuts the frame into strips and shuffles them. Almost all of the program is
DOM and WebGL glue. The logic that remains lives in `main()`: a handful of
closure variables changed by event handlers, and the rule that sizes the
high-resolution export. This project models that logic.

- `interaction.dfy` (module `Interaction`): the closure variables as a `State`
  value (`nStrips`, `nShuffles` kept as a count of eighths, `lastTapTime`, the
  facing mode, the camera stream, the dropped image). There is one step
  function per handler: the keydown switch, the swipe callback, `switchCamera`,
  the touchend listener and the drop handler. Each function's contract says
  what the handler promises: bounds, exact step sizes, the double-tap rule,
  and what stays unchanged.
- `events.dfy` (module `Events`): any sequence of those events, and lemmas
  about them. Each event, any camera request it makes included, is handled
  completely before the next one. The bounds hold after any sequence. An
  image, once shown, is never replaced by the camera while no camera request
  is pending (see "## Left out" for what happens when one is). Only keys and
  swipes move the parameters. A
  keyboard-only session keeps `nShuffles` whole. There are also double-tap and
  swipe-reset scenarios.
- `session.dfy` (module `PixelQuilt`): the class `Session`. Its fields are
  the closure variables, and its methods update them in place as the handlers
  do. Each method is proved equal to its step function and keeps the
  invariant. `ExportHighRes` computes the export canvas size.
- `export.dfy` (module `Export`): the export sizing as a pure function over
  reals. The input size is scaled by 2^(nShuffles+1). If either side then
  exceeds 4096, the larger side (the height on a tie) is pinned to 4096 and
  the other side is scaled in proportion and rounded with `Math.round`.

`nShuffles` moves by 1 on a key and by 1/8 on a swipe, so it is stored
exactly as an integer number of eighths in [8, 256]. The clock (`Date.now()`),
the outcome of a camera request, the MIME types of dropped files and the
outcome of decoding an image are inputs to the methods.

Details of the handlers that the model keeps exactly:
- The double-tap test is strict: `t - lastTapTime < 300`.
- A swipe resets the tap timer only when its signed delta is above 16, so a
  swipe with a large negative delta leaves the timer as it is
  (`Events.SignedSwipeKeepsTapTimer`).
- A key press applies only the bound it moves towards (`Math.min` going up,
  `Math.max` going down); a swipe clamps on both sides. The model proves that
  the invariant keeps both within bounds.
- If a camera switch fails, the old stream has already been stopped. The
  facing mode stays the same, but the stream is no longer live.

## Model

| member | source | states |
|---|---|---|
| Export.Round | src/main.js:110-113 | `Math.round` on a non-negative value gives an integer within one half of it, with halves rounding up |
| Export.CapSize | src/main.js:106-115 | within the cap the size is kept; otherwise the larger side (the height on a tie) is exactly 4096 and the other side is the whole number `Math.round` gives for the proportional value (whole, and within 1/2 of it, halves up); neither side ever exceeds 4096 |
| Export.RoundedProportion | src/main.js:110-113 | the side that follows the aspect ratio is a whole number within (-1/2, +1/2] of the cap times the smaller side over the larger, and lies in [0, 4096] |
| Export.ExportSize | src/main.js:95-115 | if neither scaled side exceeds 4096 the export size is native size times scale; in every case both sides are in [0, 4096] |
| Export.ExportSizeIsCapped | src/main.js:106-117 | an export size is a fixed point: sizing it again at scale 1 returns it unchanged |
| Export.Pow2 | src/main.js:95 | the power of two is positive, and at least 2n for n >= 1, so a whole nShuffles >= 1 gives a scale of at least 4 |
| Export.WholeShuffleScale | src/main.js:95 | for a whole nShuffles >= 1, 2^(nShuffles+1) is a valid export scale |
| Export.ExportSizeExamples | src/main.js:95-115 | 1920x1080 at nShuffles 3 exports at 4096x2304; 100x100 at nShuffles 1 exports at 400x400; a square over the cap is pinned to 4096x4096 |
| Interaction.Initial | src/main.js:35-41 | the start state satisfies the invariant, with nStrips 32, nShuffles 1, lastTapTime 0, the 'user' camera live at its reported size, and no image |
| Interaction.Sign | src/main.js:182-185 | `Math.sign` is -1, 0 or 1, and is positive or negative exactly when its argument is |
| Interaction.KeyStep | src/main.js:151-173 | ArrowUp/ArrowDown move nStrips by exactly 1, or pin it at 1920/1; ArrowRight/ArrowLeft move nShuffles by exactly 1, or pin it at 32/1; every other key changes nothing; the invariant is kept |
| Interaction.SwipeStep | src/main.js:179-188 | a swipe resets the tap timer iff diff > 16; on axis x only nShuffles moves, by sign(diff)/8, or is pinned at the bound it passes; on any other axis only nStrips moves, by -sign(diff), or is pinned at the bound it passes; each stays in its bounds from any state; a zero delta changes nothing |
| Interaction.Flip | src/main.js:140 | the new facing mode differs from the old one |
| Interaction.SwitchStep | src/main.js:136-149 | with an image loaded nothing changes; otherwise the facing mode flips iff the camera request succeeds, the stream is live iff it succeeds, and a new stream brings its size |
| Interaction.TouchEndStep | src/main.js:191-198 | lastTapTime becomes t; the facing mode changes iff t - lastTapTime < 300, no image is loaded and the camera request succeeds; on a double tap without an image the stream is live iff the request succeeds, then with the new size; a double tap under an image, or a single tap, changes nothing but lastTapTime; parameters never change |
| Interaction.DropStep | src/main.js:56-78 | a drop that fails the MIME check, or whose image does not decode, changes nothing; otherwise the image becomes the input and the camera is stopped, and nothing else changes |
| Interaction.AcceptsDropExamples | src/main.js:59 | a drop passes only when there is a first file and its type starts with "image/" |
| Events.RunPreservesValid | src/main.js:136-198 | any sequence of keys, swipes, touch ends and drops keeps both bounds and "no live camera under an image" |
| Events.ParametersStayInBounds | src/main.js:151-188 | from the start state, after any events, nStrips is in [1, 1920] and nShuffles in [1, 32] |
| Events.ImageIsPermanent | src/main.js:136-138 | once an image is the input, after any events it still is, the camera is still stopped and the facing mode is unchanged |
| Events.OnlyKeysAndSwipesChangeParameters | src/main.js:151-198 | touch ends and drops never change nStrips or nShuffles |
| Events.KeysKeepWholeShuffles | src/main.js:161-167 | with the keyboard alone, nShuffles stays a whole number |
| Events.ArrowKeysAreInverse | src/main.js:153-167 | ArrowDown undoes ArrowUp, and ArrowLeft undoes ArrowRight, below the upper bound; ArrowUp undoes ArrowDown, and ArrowRight undoes ArrowLeft, above the lower bound |
| Events.DoubleTapFlipsFacing | src/main.js:191-198 | a second touch end within 300 ms of a first one that was not itself a double tap flips the facing mode when the camera request succeeds |
| Events.SwipeResetPreventsDoubleTap | src/main.js:180-198 | after a swipe with diff > 16, the next touch end (clock at least 300) does not switch the camera |
| Events.SignedSwipeKeepsTapTimer | src/main.js:180-198 | a swipe with diff <= 16, including a large negative one, does not reset the timer, so a quick following touch end still switches the camera |
| PixelQuilt.Session.constructor | src/main.js:35-41 | the fields start as the initial state |
| PixelQuilt.Session.KeyDown | src/main.js:151-173 | updates the fields as KeyStep does and keeps the invariant; reports an export request exactly for 's' |
| PixelQuilt.Session.Swipe | src/main.js:179-188 | updates the fields as SwipeStep does and keeps the invariant |
| PixelQuilt.Session.SwitchCamera | src/main.js:136-149 | updates the fields as SwitchStep does and keeps the invariant |
| PixelQuilt.Session.TouchEnd | src/main.js:191-198 | updates the fields as TouchEndStep does and keeps the invariant |
| PixelQuilt.Session.DropImage | src/main.js:56-78 | accepts exactly the drops whose first file is an image, and updates the fields as DropStep does |
| PixelQuilt.Session.ExportHighRes | src/main.js:93-117 | the export canvas size is ExportSize of the image's natural size when there is an image, else of the stream's size; both sides are at most 4096 |

## Left out

- Camera acquisition and teardown (`getUserMedia`, waiting for metadata, stopping tracks) are platform I/O. Each request is an input that either succeeds with a stream size or fails. Stopping a stream is the `live` flag.
- Interaction.Valid, Events.ImageIsPermanent, Interaction.SwitchStep and Interaction.TouchEndStep: `switchCamera` tests `imageInput` only before it awaits the new stream (src/main.js:137), and after the await it installs the stream and flips the facing mode without testing again (src/main.js:142-144). The model handles each switch as one step, so it does not capture two cases. First, an image that decodes while a switch is pending ends up with a live camera stream replacing it on the display, which breaks `Valid`. Second, two double taps in quick succession (touch ends 200 ms and then 150 ms apart) start two overlapping switches; both read the old facing mode and request the same camera, the first new stream is never stopped, and the facing mode ends flipped once, not twice as the model gives.
- A failure of the first camera request at start-up ends `main()` before any state exists. The constructor models only a successful start.
- `FileReader` and `Image` decoding are asynchronous browser I/O. Their result is an input to `DropImage`, and the model ignores the time that passes before it arrives. Other events that happen while a camera request or a decode is pending are not interleaved.
- All shader-library calls (uniform and texture updates, `play`, `pause`, `step`, `save`) go to an external WebGL library that is not part of this model. So do the `setTimeout` and the asynchronous save in `exportHighRes`, and the DOM and class-list changes.
- PixelQuilt.Session.ExportHighRes: when nShuffles is fractional, the scale `Math.pow(2, nShuffles + 1)` is a floating-point value. The model only requires it to be at least 4. When nShuffles is a whole number, the model requires the exact power of two.
- Numbers are reals, not IEEE doubles. The model does not capture floating-point rounding of the aspect ratio, or truncation when a fractional size is assigned to the canvas. It also leaves out NaN or infinite swipe deltas, which are computed by `handleTouch`. `handleTouch` and the shader source are not part of this model.
- The shutter button calls `exportHighRes` directly. Export does not change the modelled state, so this is `ExportHighRes` alone.
- vite.config.js holds only build configuration.
