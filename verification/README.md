# audio-recorder waveform core, modelled in Dafny

This project models the two pieces of logic in the audio-recorder frontend
that compute something:

- **The peak sampler** (`frontend/src/waveform-sampler.js`). It is an audio
  worklet processor. Each rendering quantum it folds the first channel of its
  first input into a running peak (`lastSample`) and counts the block
  (`counter`). On every fourth block it posts the peak to the UI thread and
  resets both fields to zero. A call with no input, or whose first input has
  no channel, returns `false` and changes nothing. The model is in
  `waveform_sampler.dfy`. The two fields are an immutable `State`. One
  `process` call is the pure function `Step`, and its optional `posted` value
  stands for `port.postMessage`. `Run` feeds a history of calls through
  `Step`. The window lemmas are stated over `Run`.
- **The waveform renderer** (`frontend/src/waveform.js`). `drawWaveform`
  clears the canvas from `startAt` to the right edge. It then moves the
  origin to the vertical middle and draws one bar per sample index from
  `startAt` on. Last, it resets the transform. The model is in
  `waveform.dfy`. `Draw` returns the list of context calls (`ClearRect`,
  `Translate`, `FillRect`, `ResetTransform`). The interpreter `Exec` tracks the
  translation and gives the device-space rectangles those calls touch. The
  lemmas then say what ends up on the canvas.

`wrappers.dfy` holds the `Option` type. `None` stands for JavaScript's
`undefined`.

`Step` counts any call whose first channel is present, including a
zero-length block; the `reduce` at `frontend/src/waveform-sampler.js:24-27`
then returns the running peak unchanged.

A call of `drawWaveform` without `startAt` uses its default of `0`, and is
modelled as `Draw(width, height, data, 0)`.

## Model

| member | source | states |
|---|---|---|
| WaveformSampler.Init | frontend/src/waveform-sampler.js:2-6 | The constructor starts with `counter = 0` and `lastSample = 0`, a state that satisfies the sampler invariant. |
| WaveformSampler.Peak | frontend/src/waveform-sampler.js:24-27 | The `reduce` with `Math.max` seeded with the running peak yields the largest of the seed and every sample of the block: it is at least the seed, at least every sample, and equal to one of them. |
| WaveformSampler.PeakConcat | frontend/src/waveform-sampler.js:24-27 | Folding two blocks one after the other gives the same peak as folding their concatenation, so a window's peak is the peak of all its samples. |
| WaveformSampler.Step | frontend/src/waveform-sampler.js:13-33 | With no input or no first channel the call returns false, posts nothing and leaves both fields alone. Otherwise it does not return false. It posts exactly when the incremented counter reaches 4. A posted value is the peak of the running peak and the block, and the fields then return to 0. Without a post, the counter goes up by one and the running peak becomes the peak of itself and the block. After any block the counter is in 0..3, and a valid state stays valid. |
| WaveformSampler.RunCounts | frontend/src/waveform-sampler.js:28-33 | From any valid state with counter `c`, after a history with `n` calls that carried a block, `(c + n) / 4` values have been posted and the counter is `(c + n) % 4`. The invariant `0 <= counter <= 3` holds after every call. |
| WaveformSampler.RunFromInit | frontend/src/waveform-sampler.js:2-33 | After `n` blocks from the constructor's state, exactly `n / 4` peaks have been posted and the counter is `n % 4`. |
| WaveformSampler.RunPostsNonNegative | frontend/src/waveform-sampler.js:24-33 | Because the accumulator starts and restarts at 0, every value posted from a valid state is at least 0. |
| WaveformSampler.RunWithinWindow | frontend/src/waveform-sampler.js:24-29 | While fewer than 4 blocks have arrived since the window began, nothing is posted. The counter counts the blocks, and the running peak is the fold of every sample seen in the window. |
| WaveformSampler.WindowPost | frontend/src/waveform-sampler.js:24-33 | From the initial or just-reset state, the block that completes a window of 4 blocks posts exactly one value. That value is the largest of 0 and every sample of the four blocks, whatever calls without input are interleaved. The state is then back to the initial one, so earlier peaks never reach a later window. |
| WaveformSampler.RunConcat | frontend/src/waveform-sampler.js:8-33 | Successive `process` calls compose: running two histories back to back gives the state the second leaves when started where the first stopped, and the posts of the first followed by those of the second. |
| WaveformSampler.LaterWindowPost | frontend/src/waveform-sampler.js:24-33 | For every window, not only the first: after any calls ending in a post, the block that completes the next window of 4 blocks adds exactly one post to those already made. That post is the largest of 0 and the samples of that window alone, so peaks of earlier windows never reach it, and the state returns to the initial one. |
| Waveform.Bars | frontend/src/waveform.js:12-15 | The loop from `startAt` to `data.length` yields one bar per index, in index order. There are `data.length - startAt` bars, or none when `startAt >= data.length`. |
| Waveform.Draw | frontend/src/waveform.js:5-19 | The first call clears `(startAt, 0, width - startAt, height)`. The second translates the origin by `(0, height/2)` before any bar. Each following call but the last is the bar of the next index. The last call resets the transform. |
| Waveform.DrawBars | frontend/src/waveform.js:12-15 | The filled rectangles are exactly the calls between the translate and the reset: one per index `startAt <= x < data.length`, with strictly increasing x. Each has x-coordinate equal to its index, width 1, top `-y` with `y = data[x]*height/2 + 1`, and height `2y`, so it is symmetric about the translated origin. When `startAt >= data.length` there are none. |
| Waveform.DrawFrame | frontend/src/waveform.js:5-19 | Run on a context with any translation, the calls clear one strip from `startAt`. They fill one bar per index, shifted down by half the canvas height, and leave the identity transform behind. |
| Waveform.DrawRestoresTransform | frontend/src/waveform.js:18 | The net transform after any call is the identity, whatever the transform before, the data or `startAt`. |
| Waveform.RedrawIndependent | frontend/src/waveform.js:10-18 | A later call paints exactly what it would paint on its own from the identity transform, so repeated calls never accumulate a translation. |
| Waveform.ClearsFromStartAt | frontend/src/waveform.js:6 | A canvas column is cleared if and only if it is at or right of `startAt`. This holds also when `startAt` exceeds the canvas width and the clear rectangle has negative width. |
| Waveform.PaintsOnlyFromStartAt | frontend/src/waveform.js:6-15 | No canvas column left of `startAt` is touched by any rectangle. After the cleared strip comes one filled bar per index, and each covers exactly the pixel column of its index. |
| Waveform.BarsSymmetricAboutMidline | frontend/src/waveform.js:10-14 | On the canvas, each bar runs from `height/2 - y` to `height/2 + y` with `y = data[x]*height/2 + 1`, so it is centred on the horizontal midline. |

## Left out

- `backend/src/app.js` as a whole: it wires Express and Multer to disk storage, with a `Date.now()`/`Math.random()` file name and a mime-type filter. It is I/O over libraries that are not part of this model.
- The copy loop at the top of `process` (`frontend/src/waveform-sampler.js:9-11`): its bound reads `inputs.lengthl`, which is `undefined`, so the loop body never runs. The model copies nothing to the outputs.
- The `AudioWorkletProcessor` base class, `registerProcessor`, and `port.postMessage` as a transport: a post is the `posted` value of `Step`.
- The implicit `undefined` return of `process` on the normal path and its effect on the host keeping the processor alive: `Step` records only whether the call returned `false`.
- An `inputs[0][0]` that is present but `null`: the model tells "absent" (no input, or a first input with no channels) from a present block of samples only.
- Floating point: samples and sizes are Dafny `real`, so NaN, infinities, `Math.max` on NaN and float rounding are not modelled.
- `Draw`: `startAt` is a natural number and the canvas width and height are natural numbers. A negative or fractional `startAt` makes the code read `data[x]` as `undefined` (NaN bars), and that case is not modelled.
- `Exec`: the context transform is a translation only. A canvas that starts with a scale or rotation is not modelled, and neither is pixel rasterisation.
- `fillStyle`, the foreground colour and `WAVEFORM_PIXELS_PER_SECOND`: these are presentation constants with no logic.
