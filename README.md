# ASCII generator — a verified model

This project models the image-to-text pipeline of the ASCII generator, the
`ASCIIGenerator` class of `ascii/generator.py`, together with the small
decision rules of its desktop window in `ascii/generatorGUI.py`.

- **Palettes** (`palettes.dfy`): the four glyph ramps. Each is ordered from
  darkest to lightest. A style name picks its ramp, and an unknown name
  falls back to `standard`.
- **Glyph mapping** (`glyphs.dfy`): a luminance byte `v` becomes the glyph at
  index `v*(R-1)/255` of a ramp of `R` glyphs, clipped to the ramp. A pixel
  row becomes one line.
- **Resize geometry** (`geometry.dfy`): the target width is the requested
  one. The height is the truncation of `H/W * width * 0.55`.
- **Imaging library** (`imaging.dfy`): an image value, and the library calls
  (resize, grayscale, flattening an alpha image onto black) as functions.
  Only their size and mode contracts are assumed of them.
- **Text** (`text.dfy`): Python's `'\n'.join` and `split('\n')`. Splitting a
  join gives back the lines.
- **Generator** (`generator.dfy`): the class with its single-slot cache.
  - The fields are the last path, the original image, the background-free
    image and the image cache.
  - Its methods are `load_image`, `_clear_cache`, `remove_background`,
    `pixels_to_ascii` (a loop that appends lines) and `generate_ascii`.
  - Each method is proved equal to a pure specification function on a
    `CacheState` value. The properties are lemmas about those functions.
  - `generate_ascii` also yields its progress milestones and the file write
    it attempts.
- **Window rules** (`gui.dfy`):
  - the quality tier of a width;
  - the recommendation of a preset size;
  - the description of a style;
  - the reset of the background option when segmentation is unavailable;
  - how a result is reported (success test, line count, button states).

Two behaviours of the source are reproduced as written and exhibited by
lemmas and scenario methods:

- A failed decode of a new path clears the cache but keeps the previous
  path remembered. A later load of that previous path then returns nothing
  (`Generator.FailedSwitchStrandsPreviousPath`, `Generator.StalePathScenario`).
- The window's failure path leaves the save and copy buttons as they were.
  After an earlier success they stay enabled (`Gui.ButtonsAfterFailure`).

The file system, the image decoder and the segmentation call are inputs to
the methods: whether the file exists, the decoded image or a failure, the
segmented image or a failure, and whether a save succeeds.

## Model

| member | source | states |
|---|---|---|
| Palettes.Lookup | ascii/generator.py:25-39 | simple, detailed, blocks and standard select their own ramp; any name outside the four selects the standard ramp; the result is always one of the four ramps |
| Palettes.StyleNamesAreKeys | ascii/generator.py:25-30 | a name is a palette key exactly when it is one of the four listed style names |
| Palettes.PaletteFacts | ascii/generator.py:25-30 | every ramp starts with a space, has at least two glyphs and no newline; the lengths are 10, 70, 5 and 13 |
| Palettes.LookupLength | ascii/generator.py:39 | the ramp a style name selects has length 10, 70, 5, or 13 for standard and every unknown name |
| Glyphs.GlyphIndex | ascii/generator.py:194-201 | the clipped index always lies inside the ramp |
| Glyphs.ClipIsIdentity | ascii/generator.py:194-201 | for bytes 0..255 the unclipped quotient already lies in [0, R-1], so the clip is the identity; the index is the floor of v*(R-1)/255 |
| Glyphs.GlyphIndexMonotone | ascii/generator.py:198 | a brighter byte never selects an earlier glyph |
| Glyphs.GlyphIndexEnds | ascii/generator.py:198-201 | byte 0 selects the first glyph and byte 255 the last |
| Glyphs.RowToLine | ascii/generator.py:205-206 | a line has one glyph per pixel of its row, each from the ramp |
| Glyphs.AsciiLines | ascii/generator.py:204-210 | one line per pixel row; each line as long as its row; every glyph from the ramp |
| Glyphs.AsciiLinesPixelwise | ascii/generator.py:198-207 | the glyph at row i, column j is the ramp entry at the unclipped index of pixel (i, j), so rows keep their top-to-bottom order |
| Glyphs.AsciiLinesEnds | ascii/generator.py:198-206 | a black pixel renders as the first glyph (a space for every palette), a white pixel as the last |
| Glyphs.AsciiLinesOrdered | ascii/generator.py:198-206 | within a row, a pixel at least as bright as another renders as a glyph no earlier in the ramp |
| Geometry.ResizeHeight | ascii/generator.py:159-160 | the height is the largest h with h <= H/W * width * 0.55, in exact arithmetic |
| Geometry.ResizeHeightMonotone | ascii/generator.py:159-160 | a wider target never gives fewer rows |
| Geometry.ResizeHeightZero | ascii/generator.py:159-162 | the height is zero exactly when 55*H*width < 100*W; nothing guards against it |
| Geometry.ResizeHeightTruncates | ascii/generator.py:160 | a 200-wide, 100-high image at width 100 gets 27 rows (27.5 truncated, not rounded) |
| Geometry.ResizeHeightCanBeZero | ascii/generator.py:160 | a 100-wide, 1-high image at width 100 gets zero rows |
| Text.Join | ascii/generator.py:261 | the joined text holds every character of the lines plus one separator between each two lines |
| Text.Split | ascii/generatorGUI.py:359 | split gives one more piece than there are newlines, and no piece holds a newline |
| Text.JoinSplit | ascii/generatorGUI.py:359 | joining the pieces of a split gives the text back; with the pieces free of newlines this determines the split completely |
| Text.SplitJoin | ascii/generator.py:261 | splitting the newline-join of one or more newline-free lines gives back exactly those lines |
| Text.JoinShape | ascii/generator.py:261 | the join has one newline fewer than it has lines, and is empty exactly when there are no lines or the only line is empty |
| Generator.LoadSpec | ascii/generator.py:49-85 | a returned image requires an existing file and is the cached original under the requested path; the remembered path is the old one or the requested one; the state changes only on a new path of an existing file |
| Generator.Cleared | ascii/generator.py:87-92 | clearing empties the original, the background-free image and the image cache, keeps the path, and leaves a coherent cache |
| Generator.LoadKeepsCoherent | ascii/generator.py:59-85 | loading keeps the cache coherent; a returned image is the cached original, remembered under the requested path |
| Generator.LoadMissing | ascii/generator.py:60-62 | a missing file returns nothing and leaves every cache field unchanged |
| Generator.LoadCachedIgnoresDecoder | ascii/generator.py:65-79 | the remembered path is served from the cached original without decoding; the decoder's outcome is irrelevant |
| Generator.SwitchingPathsReDecodes | ascii/generator.py:65-74 | after switching to another path that loads, returning to the first path decodes it again |
| Generator.FailedSwitchStrandsPreviousPath | ascii/generator.py:65-85 | a failed decode of a new path clears the cache but keeps the old path remembered, so a later load of the old path returns nothing even though it would decode |
| Generator.RemoveBgSpec | ascii/generator.py:94-145 | only the background-free slot can change; nothing changes without the library, with a cached result or on failure; a changed slot holds the returned image |
| Generator.RemoveBgFacts | ascii/generator.py:104-140 | background removal changes only the background-free slot, keeps the cache coherent, never caches an RGBA image, and caches exactly the image it returns |
| Generator.RemoveBgUnavailable | ascii/generator.py:104-106 | without the segmentation library the argument is returned and the cache is untouched |
| Generator.RemoveBgFailure | ascii/generator.py:142-145 | a failed segmentation returns the argument and leaves the cache unchanged |
| Generator.RemoveBgSuccess | ascii/generator.py:123-140 | a successful segmentation with nothing cached returns the output, flattened onto black exactly when its mode is RGBA, and stores it in the background-free slot |
| Generator.RemoveBgCachedWins | ascii/generator.py:109-111 | with a cached result every call returns it, whatever its argument or the segmentation outcome |
| Generator.ResizeImage | ascii/generator.py:159-164 | the resized image has exactly the requested width and the truncated proportional height |
| Generator.Grayscale | ascii/generator.py:176-178 | the grayscale pixels form a grid of bytes of the image's height and width |
| Generator.StepName | ascii/generator.py:234-274 | every step name is non-empty, and it starts with the error mark exactly for the load and the save errors |
| Generator.Render | ascii/generator.py:250-260 | the rendered image has ResizeHeight rows, each exactly width glyphs of the ramp |
| Generator.GenerateSpec | ascii/generator.py:212-276 | the result is absent exactly when loading returns nothing; a file write happens only for a requested save of a present result and writes that result; the trace starts with the load milestone |
| Generator.SaveRequested | ascii/generator.py:264 | a save is requested exactly when the path is given and non-empty |
| Generator.GenerateFailsOnlyOnLoad | ascii/generator.py:237-240 | the result is absent exactly when loading returns nothing; then the trace stops at the load error, nothing is written and the cache is what loading left |
| Generator.GenerateOutput | ascii/generator.py:250-276 | on success the result is the join of ResizeHeight lines of exactly width ramp glyphs, without newlines; Done reports that many lines; a requested save writes exactly the result; splitting the result recovers the lines |
| Generator.SaveFailureKeepsResult | ascii/generator.py:264-276 | a failed save changes neither the result nor the cache nor the attempted write; the save-error milestone appears exactly when a save was requested on a successful run |
| Generator.GenerateTraceOrder | ascii/generator.py:234-274 | milestones come in pipeline order (load, background, resize, grayscale, mapping, save, done), loading first, and Done is last exactly on success |
| Generator.GenerateTraceMilestones | ascii/generator.py:243-265 | a background milestone appears exactly on a successful run that asked for removal, a save milestone exactly on a successful run with a save path, and resize, grayscale and mapping appear on every successful run |
| Generator.GenerateTwiceSameArt | ascii/generator.py:49-145 | after a successful run, the same request on the resulting cache (the file still existing, the same segmentation outcome) gives the same art and the same cache |
| Generator.AsciiGenerator.constructor | ascii/generator.py:39-45 | the ramp of the style, standard if unknown, and an empty cache |
| Generator.AsciiGenerator.ClearCache | ascii/generator.py:87-92 | the original, the background-free image and the image cache are emptied; the path is kept |
| Generator.AsciiGenerator.LoadImage | ascii/generator.py:49-85 | the result and new cache are those of the load specification: missing file, cached path, or cleared cache then decode |
| Generator.AsciiGenerator.RemoveBackground | ascii/generator.py:94-145 | the result and new cache are those of the removal specification; path, original and image cache unchanged |
| Generator.AsciiGenerator.PixelsToAscii | ascii/generator.py:180-210 | the appending loop returns exactly the per-row rendering of the pixel grid |
| Generator.AsciiGenerator.RenderLines | ascii/generator.py:250-260 | resize, grayscale and mapping in sequence produce the rendering of the image |
| Generator.AsciiGenerator.BackgroundStep | ascii/generator.py:243-248 | the background milestone depends on whether a result is cached; the image and cache are those of the background stage |
| Generator.AsciiGenerator.GenerateAscii | ascii/generator.py:212-276 | the new cache, result, progress trace and attempted write are those of the generation specification |
| Generator.StalePathScenario | ascii/generator.py:65-85 | on a generator object: A loads, B fails to decode, and loading A again returns nothing |
| Gui.QualityOf | ascii/generatorGUI.py:297-306 | the five tiers are taken on exactly the ranges below 50, 50-79, 80-149, 150-249 and from 250 up |
| Gui.QualityMonotone | ascii/generatorGUI.py:297-306 | a larger width never shows a lower tier |
| Gui.QualityLabel | ascii/generatorGUI.py:297-306 | the five tier texts: Rapide, Optimal, Détaillé, Haute qualité and Ultra HD with their emoji |
| Gui.WidthLabel | ascii/generatorGUI.py:292-308 | the width label ends with the label of the width's tier |
| Gui.SizeRecommendation | ascii/generatorGUI.py:254-264 | the default recommendation is returned exactly for sizes other than 40, 60, 80, 120, 200 and 300 |
| Gui.PresetsAreRecommended | ascii/generatorGUI.py:129-136 | every preset lies within the slider's 20..300 range with a dedicated recommendation, and the preset sizes are exactly the recommended sizes |
| Gui.StyleDescription | ascii/generatorGUI.py:233-242 | a description is non-empty exactly for the four palette names; the initial style's is the text the window starts with |
| Gui.Succeeded | ascii/generatorGUI.py:352 | a result counts as a success exactly when it is present and non-empty |
| Gui.LineCount | ascii/generatorGUI.py:359 | the line statistic is the number of newlines plus one |
| Gui.GeneratorWindow.constructor | ascii/generatorGUI.py:26-29 | standard style, width 80, background removal off, generate enabled, and the save and copy buttons disabled with the welcome text shown (set at lines 189-201) |
| Gui.GeneratorWindow.OnBackgroundOptionChange | ascii/generatorGUI.py:203-217 | the option stays set only when segmentation is available; an unset option stays unset |
| Gui.GeneratorWindow.SetWidthPreset | ascii/generatorGUI.py:244-246 | the width becomes the preset size |
| Gui.GeneratorWindow.UpdateResult | ascii/generatorGUI.py:348-381 | generate is re-enabled; a non-empty result is shown with its statistics and enables save and copy; otherwise the failure text is shown and save and copy keep their state |
| Gui.ButtonsAfterFailure | ascii/generatorGUI.py:348-381 | a failure on a fresh window leaves save disabled, but a failure after a success leaves save and copy enabled |
| Gui.ReportedLinesAreRows | ascii/generatorGUI.py:352-359 | a generated result counts as a success exactly when the image has two or more rows, or one row of width at least 1; the reported line count is then the row count |

## Left out

- Image decoding, resampling, grayscale weights, PNG round trips and alpha compositing are not modelled. They are library functions with only their size and mode contracts.
- The segmentation call is not modelled. Each call's outcome is an input: an output image or a failure.
- The file system is not modelled. Whether the path exists and whether the save succeeds are inputs, and the save is returned as the write it attempts.
- Logging is left out. It does not affect behaviour.
- The progress callback's detail strings are left out. The trace records the milestones with their width, save path and line count; the step names are in `StepName`.
- Geometry.ResizeHeight: the floating-point height `int(H / W * width * 0.55)` is idealised as the exact quotient `(H*width*55) / (100*W)`. The two can differ when the exact value is an integer and the floating-point value lands just below it.
- Geometry.ResizeHeight: the height is truncated, as in the source. It is not rounded to the nearest integer.
- Glyphs.GlyphIndex: the floating-point quotient `v*(R-1)/255.0` is modelled as integer division. This is exact for bytes and ramps of at most 70 glyphs.
- Negative widths are not modelled. Widths are natural numbers, and the window's slider never produces a negative one.
- Zero-width source images are excluded: the source would divide by zero. Decoded and segmented images are assumed at least one pixel wide.
- What Pillow does when asked to resize to zero rows is outside the model. The library's resize is assumed total, so a zero-row target yields the result `Some("")`, a final `Done(0)` milestone and, when a save is requested, a write of the empty text; `Generator.GenerateOutput` and `Gui.ReportedLinesAreRows` rely on this. If the real library refuses the size, `generate_ascii` raises at `resize_image` and the window reports the exception instead, with no result, no `Done` and no file written; that outcome is not modelled.
- The `_image_cache` dictionary is only ever cleared. It is a field that is emptied and never read.
- The module-level flag recording whether the segmentation library imported is a constant of each generator and window object.
- The window's widgets, layout, tooltips, welcome text, dialogs, clipboard, timers and worker thread are not modelled.
- `generate_ascii` and `_generate_ascii_thread` of the window are not modelled. They start a thread that builds a generator and calls the modelled `generate_ascii`.
- `save_result`, `copy_result` and `browse_image` of the window are not modelled. They are dialogs and clipboard use.
- The window shows "80 caractères" before the first slider change. Only the label computed by `update_width_label` is modelled.
- Gui.GeneratorWindow.UpdateResult: the statistics text is the `Shown` record of its values, not the formatted French text, and the failure path's message box is not modelled.
- The slider's fractional values are not modelled. Widths are integers.
- The default arguments are not modelled: `width=100` of `resize_image` and `generate_ascii`, `save_to_file=None`, `remove_bg=False`, `progress_callback=None` and `ascii_chars='standard'`. Every field of a request and the style are given explicitly; the defaults are the cases `None`, `false` and `"standard"` of those fields.
- The progress trace is produced whether or not a callback is given. The source reports nothing without one, and the window never passes one. The trace records what a callback would receive.
- The `.copy()` calls on loading, caching and returning images are not modelled. Images are values here, so the model does not capture aliasing between the returned and the cached images.
- `ascii/main.py` is not part of this model. It is the entry point that builds the window.
