# Image compressor: canvas size and file-size units

The repository is a browser page that loads an image, redraws it on a
canvas and re-encodes it at a quality chosen with a slider. Almost all of
`script.js` is DOM and event wiring. Two pieces of it compute something,
and this project models those two pieces as pure integer functions:

- **The dimension clamp in `compressImage`.** This picks the canvas size for
  the decoded image. A width above 1920 is scaled to exactly 1920, and the
  height is rescaled with `Math.round`. Then, on those already scaled
  values, a height above 1080 is scaled to exactly 1080, and the width is
  rescaled with `Math.round`. The module `Resize` models this as
  `FitWidth`, `FitHeight` and their composition `Clamp`. The module
  `Rounding` models `Math.round(a / b)` for non-negative `a` and positive
  `b` as `(2a + b) / (2b)` in floor division. Its contract says what the
  rounding means: the result `r` satisfies r - 1/2 <= a/b < r + 1/2.
- **The unit choice in `formatFileSize`.** Zero bytes is the literal
  text "0 Bytes". Any other count is divided by the largest power of 1024
  not above it, and that power's index selects a name from
  `["Bytes", "KB", "MB", "GB"]`. The module `FileSize` models the index
  exactly (`UnitIndex`) and models the label up to its digits
  (`FormatFileSize`). An index past the table is JavaScript's `undefined`,
  modelled as `UnitName.Undefined`.

Properties proved:

- The clamp always fits the 1920 x 1080 box.
- The clamp never enlarges either side.
- The clamp is the identity exactly on sizes that already fit, so it is
  idempotent.
- When the height step fires, the output height is exactly 1080.
- Each rescale step is within half a pixel of the value proportional to
  that step's input. The two steps' rounding errors can add up to more
  than half a pixel against the source image.
- For a fixed width, the clamp is monotone in the input height.
- The clamp is not monotone in both sides at once.
- The order of the two checks changes some results.
- A side of the output can be 0. The model characterises exactly when
  this happens.
- The unit index is the largest `i` with 1024^i <= bytes.
- The unit index stays inside the table exactly when bytes < 1024^4.

The code does not guarantee positive output: 10000 x 1 becomes 1920 x 0,
and 1 x 10000 becomes 0 x 1080. `ClampCanReachZero`, `ClampHeightZeroIff` and
`ClampWidthZeroIff` expose this.

## Model

| member | source | states |
|---|---|---|
| Rounding.RoundDiv | script.js:94 | the result is the nearest integer to a / b with halves rounded up, which is what `Math.round` returns for a non-negative quotient |
| Rounding.RoundedQuotientUnique | script.js:94 | at most one integer is the rounding of a / b, so `RoundDiv` is the only value `Math.round` could return |
| Rounding.RoundDivAtMost | script.js:98 | a quotient that is at most x rounds to at most x, so rescaling by a ratio below 1 never grows a side |
| Rounding.RoundDivMonotone | script.js:94 | a larger numerator never gives a smaller rounded quotient |
| Rounding.RoundDivAntitone | script.js:98 | a larger denominator never gives a larger rounded quotient |
| Rounding.RoundDivZeroIff | script.js:94 | a quotient rounds to 0 exactly when it is below one half |
| Resize.FitWidth | script.js:93-96 | the width check: the result is at most 1920 wide and never larger than the input; an input at most 1920 wide is unchanged; a wider one becomes exactly 1920 wide, with its height the rounded value of h * 1920 / w |
| Resize.FitHeight | script.js:97-100 | the height check: the result is at most 1080 high and never larger than the input; an input at most 1080 high is unchanged; a taller one becomes exactly 1080 high, with its width the rounded value of w * 1080 / h |
| Resize.Clamp | script.js:86-100 | the canvas size fits 1920 x 1080 and is no larger than the image in either side; a fitting image keeps its size; a wide image whose rescaled height fits becomes exactly 1920 x round(h * 1920 / w); whenever the height check fires, the height is exactly 1080 |
| Resize.ClampFixedPointIff | script.js:93-100 | the clamp returns its input unchanged if and only if the input fits the box |
| Resize.ClampIdempotent | script.js:93-100 | clamping an already clamped size changes nothing |
| Resize.ClampProportion | script.js:93-99 | each rescale keeps proportion to within half a pixel: the width step gives abs(2 h' w - 2 h 1920) <= w, and the height step gives the same bound on the scaled values |
| Resize.ClampErrorsCompound | script.js:93-100 | when both checks fire the per-step half-pixel bound does not hold against the source: 3639 x 2082 becomes 1920 x 1098 and then 1889 x 1080, more than half a pixel away from the proportional width 3639 * 1080 / 2082 |
| Resize.ClampExamples | script.js:93-100 | 3840 x 2160 becomes 1920 x 1080, 4000 x 1000 becomes 1920 x 480, and 1000 x 4000 becomes 270 x 1080 |
| Resize.ClampCanReachZero | script.js:93-100 | positive output is not guaranteed: 10000 x 1 becomes 1920 x 0, and 1 x 10000 becomes 0 x 1080 |
| Resize.ClampHeightZeroIff | script.js:93-96 | the output height is 0 exactly when the input height is 0, or when the width is above 1920 and h * 1920 / w is below one half |
| Resize.ClampWidthZeroIff | script.js:93-100 | the output width is 0 exactly when the input width is 0, or when the height check fires and the width-clamped width times 1080 over the width-clamped height is below one half |
| Resize.ClampMonotoneInHeight | script.js:93-100 | for a fixed input width, a taller input never gives a shorter or a wider output |
| Resize.ClampNotMonotone | script.js:93-96 | growing the width by one pixel can shrink the output height: 1920 x 1080 stays, but 1921 x 1080 becomes 1920 x 1079 |
| Resize.ClampOrderMatters | script.js:93-100 | the width check runs first, and the order shows: 1921 x 1081 becomes 1920 x 1080, while the checks in the other order give 1919 x 1080 |
| FileSize.UnitIndex | script.js:144 | the idealised index of `Math.floor(Math.log(bytes) / Math.log(1024))`: 1024^i <= bytes < 1024^(i+1) |
| FileSize.UnitIndexIsLargest | script.js:144 | 1024^i <= bytes holds exactly for the exponents i up to the unit index, so the index is the largest such i |
| FileSize.UnitIndexInTableIff | script.js:143-145 | the index lies inside the four-entry unit table if and only if bytes < 1024^4 |
| FileSize.FormatFileSize | script.js:140-146 | 0 bytes gives exactly "0 Bytes"; any other count is scaled by 1024^i, where the scaled value lies in [1, 1024); the unit has a name exactly when bytes < 1024^4, and that name is the table entry at i |
| FileSize.FormatFileSizeExamples | script.js:140-146 | 0 gives "0 Bytes", 1023 gives Bytes, 1024 and 1536 give KB, and 1024^4 gives an undefined unit |

## Left out

- Rounding.RoundDiv: computes `Math.round` of the exact rational a / b. The code divides in IEEE double precision first. The two agree whenever the product stays below 2^53 and the quotient is not within one ulp of a half. For image sizes that a browser can decode, a quotient near k + 1/2 is either exactly k + 1/2 or at least 1/(2b) away from it. That distance is far larger than an ulp.
- Resize.Clamp: promises proportion only per step, to within half a pixel of that step's input. The two roundings compound, so against the source image the error can exceed half a pixel (`ClampErrorsCompound`).
- Resize.Clamp: does not model the floating-point rescale for sides so large that h * 1920 or w * 1080 exceeds 2^53. Such sizes are not realistic images.
- FileSize.UnitIndex: is the exact integer index. The code uses `Math.log` in floating point, whose rounding error may put the quotient on the wrong side of an integer near exact powers of 1024.
- FileSize.FormatFileSize: does not model the digits of the label. `bytes / Math.pow(1024, i)`, `toFixed(2)` and `parseFloat` are floating-point formatting. The model keeps the unit index and the unit name. Its contract bounds the scaled value to [1, 1024) in exact arithmetic.
- DOM lookups, the click, drag and drop handlers, and the border colours (script.js:1-46): these are UI wiring with no computation.
- `FileReader`, image decoding, `drawImage` with smoothing and `canvas.toBlob` encoding (script.js:67-73, 78-83, 102-136): these are browser and codec calls whose behaviour is not visible. The decoded width and height are the inputs of `Clamp`.
- The 300 ms debounce through `setTimeout` and the out-of-order completion of overlapping compressions (script.js:54-57): timing and concurrency.
- The slider value divided by 100, the percentage label and the download file name built from `quality*100` (script.js:50-51, 125): floating-point formatting.
- Object URLs and the download link click (script.js:118, 122-126): browser I/O.
