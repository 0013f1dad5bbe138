# rusimg in Dafny

A model of rusimg, an image-processing tool and library that opens BMP, JPEG, PNG and WebP files. It converts between
these formats, trims, resizes, grayscales and compresses them, and saves the result beside the input or at a
destination.

The model covers:
- the per-format image handles;
- the library front end that wraps them;
- the command line tool's decisions: argument checks, extension lookup, output paths, overwrite policy, the per-file
  pipeline and the run over all files.

It also covers the earlier generations of the same code still in the repository:
- the `RusImg` wrapper of `src/rusimg.rs`;
- the slot-based dispatcher of `src/rusimg/imgprocessor.rs` with its JPEG handle;
- the first PNG and BMP handles;
- the sequential command line tool of `src/bin/rusimg.rs` with its parser.

Pixels, codecs, the file system and the terminal are not modelled. An image is a value with a width, a height, a
gray flag and the bytes it came from. Encoded bytes are symbolic values that record how they were produced (the
original file, oxipng at a level, mozjpeg at a quality, the WebP encoder at a quality, or the image library saving an
image).

Every outside answer is a parameter of the operation that needs it:
- whether a path exists and is a directory;
- what reading, decoding, encoding or writing a file gives;
- the lines typed at the overwrite prompt;
- whether removing a file succeeds;
- which cargo features are compiled in.

Each handle is a class whose fields are the struct's fields. Its methods update them in place and are proved equal to
a function on a state value. The lemmas about those functions carry the properties.

Layout:
- `wrappers.dfy`: `Option`, `Result`.
- `paths.dfy`: paths as directory components and a file name; `file_name`, `extension`, `file_stem`,
  `with_extension`, `join`, ASCII lower-casing.
- `images.dfy`: the error type, rectangles, sizes, the abstract image, crop/resize/grayscale, the trim rule and the
  save-path rule.
- `png.dfy`, `jpeg.dfy`, `webp.dfy`, `bmp.dfy`: the current handles.
- `rusimg_lib.dfy`: `src/lib.rs`.
- `arg_parse.dfy`, `background.dfy`, `cli_main.dfy`: `src/bin/rusimg/background/parse.rs`,
  `src/bin/rusimg/background.rs` and `src/bin/rusimg/main.rs`.
- `legacy_rusimg.dfy`, `legacy_processor.dfy`, `legacy_jpeg.dfy`, `legacy_png.dfy`, `legacy_bmp.dfy`,
  `legacy_cli.dfy`: the earlier generations.

Where the sources disagree with each other the model follows the code:
- `src/bin/rusimg/background.rs` uses an `Extension::Jpg` tag that the `Extension` of `src/lib.rs` lacks. The model
  uses the binary's tag set: `Jpg` displays as `jpg` and converting to it builds a JPEG handle.
- `main` of `src/bin/rusimg.rs` uses the result of `parser()` as if it could not fail, while `src/bin/rusimg/parse.rs`
  returns a `Result`. The model of that `main` starts from arguments that already passed the checks.
- `src/rusimg.rs` declares handle modules of its own (`src/rusimg/{bmp,jpeg,png,webp}.rs`: an older trait with
  plain message errors). The model of that front end, `LegacyRusimg`, forwards to the current handles instead, so
  what it states about the handles is about the current ones. The older BMP and PNG handles are modelled on their
  own in `LegacyBmp` and `LegacyPng`.

## Model

| member | source | states |
|---|---|---|
| Paths.WithExtensionRoundTrip | src/bin/rusimg/background.rs:202-208 | replacing a file's extension with a dot-free one makes it the extension, keeps the stem and the directory |
| Paths.WithDoubleExtension | src/bin/rusimg/background.rs:203-206 | with a doubled extension `a.b` the path's extension is the last part `b` |
| Paths.LowerPathExtension | src/bin/rusimg/background.rs:187-199 | lower-casing the whole path text only lower-cases the extension |
| Paths.WithOwnExtension | src/jpeg/mod.rs:42-80 | setting a path's own extension again gives back the same path (unless the name ends in a dot) |
| Images.TrimRule | src/png/mod.rs:154-174 | the current trim rule: refused with `InvalidTrimXY` exactly when the rectangle overhangs and its origin is outside; otherwise the size is `min(w, width - x)` by `min(h, height - y)` |
| Images.TrimInsideKeepsRect | src/png/mod.rs:154-157 | a rectangle inside the image is kept exactly |
| Images.TrimStaysInside | src/png/mod.rs:157-161 | an accepted trim never exceeds the request and lies inside the image |
| Images.TrimAgreesWithCrop | src/png/mod.rs:168-173 | the size the trim rule reports is the size of the image `crop` cuts out |
| Images.ScaleByHundredKeeps | src/png/mod.rs:139-150 | resizing by 100 percent keeps a dimension |
| Images.ScaleDirection | src/png/mod.rs:139-150 | resizing below 100 percent strictly shrinks a non-zero dimension, at or above 100 never shrinks one |
| Images.SaveFilepathLands | src/lib.rs:130-146 | the save path is inside a directory destination or beside the source, under the source's stem with the handle's extension; a file destination is verbatim; a missing file name fails only with a directory destination |
| Images.Crop | src/png/mod.rs:168-173 | cropping keeps the gray flag and origin and never grows the image |
| Images.FitDims | src/png/mod.rs:143 | the size the image crate's resize picks lies inside the box (a side of 0 counting as 1), is at least 1x1, and touches one side of the box unless the image is empty |
| Images.Resized | src/png/mod.rs:143 | resizing to the image's own size returns it unchanged; otherwise the result keeps the gray flag and origin and lies inside the box, touching one side |
| Images.ResizeFillsProportionalBox | src/png/mod.rs:143 | a box in the image's own proportions is filled exactly |
| Images.ResizeCanLeaveBox | src/png/mod.rs:143 | a 10x3 image asked to fit 5x1 becomes 3x1, so a box out of proportion is not filled |
| Images.WriteEffect | src/lib.rs:447-460 | a write leaves a file exactly when the write succeeds, whether or not its size can be read back afterwards |
| PngFormat.CompressionLevel | src/png/mod.rs:90-112 | quality maps to oxipng level 1..6 in six bands of 17, level 5 when no quality is given |
| PngFormat.CompressionLevelMonotone | src/png/mod.rs:90-112 | a higher quality never selects a lower level |
| PngFormat.OperationsKeepValid | src/png/mod.rs:139-180 | trim, grayscale, compress and save keep the stored size equal to the image's size; a resize keeps it when the scaled box is in the image's proportions, and always leaves the image inside the recorded box |
| PngFormat.FreshHandlesValid | src/png/mod.rs:24-62 | a fresh handle is valid with no operations, no compressed bytes and no output; import fails only on encoding, open only on decoding; open keeps the file's bytes |
| PngFormat.EditEffects | src/png/mod.rs:139-180 | resize scales and counts an operation; trim gives the trim rule's size, counts nothing, and changes nothing when refused; grayscale keeps the size and counts |
| PngFormat.SaveOutcome | src/png/mod.rs:65-83 | save writes the oxipng bytes when present and the current image otherwise; output path and size are recorded only on success; failure changes nothing |
| PngFormat.ResizeCanDesync | src/png/mod.rs:139-150 | resizing a valid 10x3 handle by 55 percent records 5x1 while the image becomes 3x1, so the handle stops being valid |
| PngFormat.CompressAsWritten | src/png/mod.rs:113-134 | as written, a failed oxipng run panics at the `unwrap` |
| PngFormat.CompressFailurePanics | src/png/mod.rs:118-132 | as written, compress panics exactly when oxipng fails, and otherwise behaves as the model's compress |
| PngFormat.CompressReportsFailure | src/png/mod.rs:113-134 | the intended compress: an oxipng failure returns `FailedToCompressImage` with the codec's message and changes nothing; a success stores oxipng's output of the opened bytes at the quality's level, keeps the image and counts one operation |
| PngFormat.CompressIgnoresEdits | src/png/mod.rs:88-135 | compression starts from the opened bytes, so edits made before compressing never reach the saved file |
| PngFormat.PngImage.Import | src/png/mod.rs:24-43 | builds the handle `import` describes, or its error |
| PngFormat.PngImage.Open | src/png/mod.rs:46-62 | builds the handle `open` describes, or its error |
| PngFormat.PngImage.Save | src/png/mod.rs:65-83 | updates the fields as the save function says |
| PngFormat.PngImage.Compress | src/png/mod.rs:88-135 | updates the fields as the compress function says |
| PngFormat.PngImage.Resize | src/png/mod.rs:139-150 | updates the fields as the resize function says: the scaled box is recorded and returned, and the image becomes the crate's fit inside it |
| PngFormat.PngImage.Trim | src/png/mod.rs:154-174 | updates the fields as the trim function says |
| PngFormat.PngImage.Grayscale | src/png/mod.rs:177-180 | grays the image and counts an operation |
| PngFormat.PngImage.SetDynamicImage | src/png/mod.rs:183-186 | replaces only the image |
| PngFormat.PngImage.GetDynamicImage | src/png/mod.rs:189-191 | returns the image |
| PngFormat.PngImage.GetSize | src/png/mod.rs:214-216 | returns the stored size, for any handle; while the handle is valid that is the image's size |
| JpegFormat.OperationsKeepValid | src/jpeg/mod.rs:84-145 | trim, grayscale, compress and save keep the stored size equal to the image's size; a resize keeps it when the scaled box is in the image's proportions, and always leaves the image inside the recorded box |
| JpegFormat.EditEffects | src/jpeg/mod.rs:104-145 | resize scales and counts; trim follows the trim rule, counts nothing and changes nothing when refused; grayscale keeps the size and counts |
| JpegFormat.FreshHandles | src/jpeg/mod.rs:25-59 | import saves as `jpg`; open keeps the path's extension spelling, or none; fresh handles are valid with nothing counted |
| JpegFormat.SaveKeepsSourceName | src/jpeg/mod.rs:62-80 | an opened JPEG saved without destination goes back to its own path; an imported one is saved as `.jpg` |
| JpegFormat.CompressEncodesCurrentImage | src/jpeg/mod.rs:84-100 | compress encodes the current image at quality 75 by default, counts only on success, and changes nothing on failure |
| JpegFormat.JpegImage.Import | src/jpeg/mod.rs:25-39 | builds the imported handle |
| JpegFormat.JpegImage.Open | src/jpeg/mod.rs:42-59 | builds the opened handle, or its error |
| JpegFormat.JpegImage.Save | src/jpeg/mod.rs:62-80 | updates the fields as the save function says |
| JpegFormat.JpegImage.Compress | src/jpeg/mod.rs:84-100 | updates the fields as the compress function says |
| JpegFormat.JpegImage.Resize | src/jpeg/mod.rs:104-115 | updates the fields as the resize function says: the scaled box is recorded and returned, and the image becomes the crate's fit inside it |
| JpegFormat.JpegImage.Trim | src/jpeg/mod.rs:119-139 | updates the fields as the trim function says |
| JpegFormat.JpegImage.Grayscale | src/jpeg/mod.rs:142-145 | grays the image and counts an operation |
| JpegFormat.JpegImage.SetDynamicImage | src/jpeg/mod.rs:148-151 | replaces only the image |
| JpegFormat.JpegImage.GetDynamicImage | src/jpeg/mod.rs:154-156 | returns the image |
| JpegFormat.JpegImage.GetSize | src/jpeg/mod.rs:179-181 | returns the stored size, for any handle; while the handle is valid that is the image's size |
| WebpFormat.OperationsKeepValid | src/webp/mod.rs:107-156 | trim, grayscale, compress and save keep the stored size equal to the image's size; a resize keeps it when the scaled box is in the image's proportions, and always leaves the image inside the recorded box |
| WebpFormat.EditEffects | src/webp/mod.rs:107-156 | resize and grayscale count an operation; trim follows the trim rule and counts nothing; compress only records the quality and counts |
| WebpFormat.FreshHandles | src/webp/mod.rs:25-65 | open keeps the file's bytes and fails with `FailedToDecodeWebp` exactly when decoding fails; import holds no bytes; nothing is counted |
| WebpFormat.SaveContent | src/webp/mod.rs:68-101 | save writes the original bytes exactly when the source extension is `webp`, nothing was counted and the bytes are held; otherwise it encodes at the requested quality, 75 by default |
| WebpFormat.TrimOnlySavesOriginal | src/webp/mod.rs:131-150 | a `.webp` file that is only trimmed is saved as its untrimmed original bytes |
| WebpFormat.UpperCaseExtensionReencodes | src/webp/mod.rs:72-81 | the pass-through test is case-sensitive: an untouched `.WEBP` is re-encoded |
| WebpFormat.WebpImage.Import | src/webp/mod.rs:25-40 | builds the imported handle |
| WebpFormat.WebpImage.Open | src/webp/mod.rs:43-65 | builds the opened handle, or its error |
| WebpFormat.WebpImage.Save | src/webp/mod.rs:68-101 | updates the fields as the save function says |
| WebpFormat.WebpImage.Compress | src/webp/mod.rs:107-112 | always succeeds, recording the quality |
| WebpFormat.WebpImage.Resize | src/webp/mod.rs:116-127 | updates the fields as the resize function says: the scaled box is recorded and returned, and the image becomes the crate's fit inside it |
| WebpFormat.WebpImage.Trim | src/webp/mod.rs:131-150 | updates the fields as the trim function says |
| WebpFormat.WebpImage.Grayscale | src/webp/mod.rs:153-156 | grays the image and counts an operation |
| WebpFormat.WebpImage.SetDynamicImage | src/webp/mod.rs:159-162 | replaces only the image |
| WebpFormat.WebpImage.GetDynamicImage | src/webp/mod.rs:165-167 | returns the image |
| WebpFormat.WebpImage.GetSize | src/webp/mod.rs:190-192 | returns the stored size, for any handle; while the handle is valid that is the image's size |
| BmpFormat.OperationsKeepValid | src/bmp/mod.rs:49-104 | trim, grayscale, compress and save keep the stored size equal to the image's size; a resize keeps it when the scaled box is in the image's proportions, and always leaves the image inside the recorded box |
| BmpFormat.EditEffects | src/bmp/mod.rs:20-104 | resize scales; trim follows the trim rule and changes nothing when refused; grayscale keeps the size; import takes its size from the image |
| BmpFormat.SaveEncodesCurrentImage | src/bmp/mod.rs:49-56 | every save encodes the current image into the `.bmp` path; failure changes nothing |
| BmpFormat.BmpImage.Import | src/bmp/mod.rs:20-31 | builds the imported handle |
| BmpFormat.BmpImage.Open | src/bmp/mod.rs:34-46 | builds the opened handle, or its error |
| BmpFormat.BmpImage.Save | src/bmp/mod.rs:49-56 | updates the fields as the save function says |
| BmpFormat.BmpImage.Compress | src/bmp/mod.rs:59-61 | always refused with `ImageFormatCannotBeCompressed` |
| BmpFormat.BmpImage.Resize | src/bmp/mod.rs:65-75 | updates the fields as the resize function says: the scaled box is recorded and returned, and the image becomes the crate's fit inside it |
| BmpFormat.BmpImage.Trim | src/bmp/mod.rs:79-99 | updates the fields as the trim function says |
| BmpFormat.BmpImage.Grayscale | src/bmp/mod.rs:102-104 | grays the image |
| BmpFormat.BmpImage.SetDynamicImage | src/bmp/mod.rs:107-110 | replaces only the image |
| BmpFormat.BmpImage.GetDynamicImage | src/bmp/mod.rs:113-115 | returns the image |
| BmpFormat.BmpImage.GetSize | src/bmp/mod.rs:138-140 | returns the stored size, for any handle; while the handle is valid that is the image's size |
| Rusimg.BuiltinDisplays | src/lib.rs:189-198 | built-in tags display as distinct non-empty dot-free names |
| Rusimg.OpenImageDispatch | src/lib.rs:261-282 | open yields a valid handle of the sniffed format holding the input path and size, or the first failure: read, sniff, unsupported format or disabled feature, decode |
| Rusimg.ConvertCommitsOnlyOnSuccess | src/lib.rs:390-415 | convert fails exactly for an external format, a disabled feature or a failed PNG encoding, and then changes nothing; otherwise the new handle has the target tag and keeps path, size and image |
| Rusimg.OperationsKeepValid | src/lib.rs:348-384 | trim, grayscale, compress and save keep a valid image valid; a resize does when the scaled box is in the image's proportions |
| Rusimg.ResizeInProportionKeepsValid | src/lib.rs:348-351 | for every format, a resize whose scaled box is in the image's proportions keeps a valid handle valid |
| Rusimg.SaveImageReports | src/lib.rs:447-460 | save_image fails exactly when the handle's save does; on success it reports the save-path rule's path, input size and written size |
| Rusimg.RusImg.OpenImage | src/lib.rs:261-282 | opens into a fresh handle as the open function says |
| Rusimg.RusImg.GetImageSize | src/lib.rs:339-342 | returns the handle's size |
| Rusimg.RusImg.Resize | src/lib.rs:348-351 | updates the handle as the resize function says |
| Rusimg.RusImg.TrimRect | src/lib.rs:364-367 | updates the handle as the trim function says |
| Rusimg.RusImg.Trim | src/lib.rs:357-360 | is `trim_rect` of the rectangle |
| Rusimg.RusImg.Grayscale | src/lib.rs:372-375 | always `Ok`, graying the image |
| Rusimg.RusImg.Compress | src/lib.rs:381-384 | updates the handle as the compress function says |
| Rusimg.RusImg.GetDynamicImage | src/lib.rs:427-430 | returns the image |
| Rusimg.RusImg.SetDynamicImage | src/lib.rs:420-423 | replaces only the image |
| Rusimg.RusImg.Convert | src/lib.rs:390-415 | replaces tag and handle only on success, with a fresh handle |
| Rusimg.RusImg.SaveImage | src/lib.rs:447-460 | saves as the save_image function says |
| ArgParse.DigitRun | src/bin/rusimg/background/parse.rs:134-146 | the maximal run of digits at a position |
| ArgParse.FirstMatchIsLeftmost | src/bin/rusimg/background/parse.rs:134-146 | the unanchored regex finds a match exactly when one exists, and takes the leftmost |
| ArgParse.CheckTrimAccepts | src/bin/rusimg/background/parse.rs:134-146 | a trim argument is accepted exactly when it contains `NxN+NxN`, using the leftmost occurrence |
| ArgParse.Decimal | src/bin/rusimg/background/parse.rs:137-140 | decimal digits that read back as the number |
| ArgParse.TrimFoundInside | src/bin/rusimg/background/parse.rs:134-146 | a rendered rectangle surrounded by non-digit text is read back as that rectangle |
| ArgParse.TrimAcceptedExample | src/bin/rusimg/background.rs:509-515 | `10x10+20x20` gives `Rect(10, 10, 20, 20)` |
| ArgParse.TrimRejectedExamples | src/bin/rusimg/background.rs:516-524 | `10`, `10x10` and `10+10+20+20` are rejected |
| ArgParse.NoMatchInShort | src/bin/rusimg/background/parse.rs:135-136 | fewer than seven characters never match |
| ArgParse.NoMatchWithoutX | src/bin/rusimg/background/parse.rs:135-136 | text without `x` never matches |
| ArgParse.RangeExamples | src/bin/rusimg/background/parse.rs:148-171 | resize 0 and -1 rejected; quality 110 and -1 rejected and 50 accepted; threads 0 rejected and 4 accepted |
| ArgParse.CheckAndGenerateOrder | src/bin/rusimg/background/parse.rs:173-205 | accepted exactly when every check passes; otherwise the first failing check's error in the order trim, quality, resize, threads, never `FailedToParseTrim`; accepted quality lies in [0, 100], resize is positive, threads at least 1 |
| ArgParse.CheckAndGeneratePassesOn | src/bin/rusimg/background/parse.rs:207-223 | accepted arguments are passed on field by field, the trim text as the rectangle it spells |
| Background.ConvertStrRoundTrip | src/bin/rusimg/background.rs:175-184 | every built-in tag is found under its display name, `jfif` names `Jpeg`, anything else is `UnsupportedFileExtension` |
| Background.GetExtensionIsLoweredLookup | src/bin/rusimg/background.rs:187-199 | a file's tag is the table lookup of its lower-cased extension; no extension is unsupported |
| Background.GetExtensionIgnoresCase | src/bin/rusimg/background.rs:187-199 | extensions equal up to case give the same tag |
| Background.ExtensionOfName | src/bin/rusimg/background.rs:241-247 | the extension of `stem.ext` is `ext` |
| Background.UpperCaseExtensionExample | src/bin/rusimg/background.rs:187-199 | `image.PNG` is PNG |
| Background.JpgExtensionExample | src/bin/rusimg/background.rs:412-428 | `test_image.jpg` is tagged `Jpg` |
| Background.ExtensionExample | src/bin/rusimg/background.rs:187-199 | `stem.EXT` is looked up as its lower-cased extension |
| Background.DestinationExtensionChoice | src/bin/rusimg/background.rs:164-172 | the requested tag, else the source's own tag, else PNG |
| Background.OutputPathBesideInput | src/bin/rusimg/background.rs:202-249 | with no destination the output is the input with its extension replaced |
| Background.OutputPathDoubleExtension | src/bin/rusimg/background.rs:203-206 | with double extension `a.jpg` becomes `a.jpg.webp` |
| Background.OutputPathWithDestination | src/bin/rusimg/background.rs:209-237 | a directory or extension-less destination receives the input's stem with the new extension; another destination is verbatim |
| Background.OutputPathAppendDropsDirectory | src/bin/rusimg/background.rs:241-247 | with an append name the output is `stem + append + "." + ext` as a bare file name |
| Background.CheckFileExistsModes | src/bin/rusimg/background.rs:253-269 | a missing file is never a problem; an existing one is overwritten, skipped or asked about as the mode says |
| Background.ProcessConvert | src/bin/rusimg/background.rs:293-311 | converts the image as the convert step says; the handle is fresh on success and untouched on failure |
| Background.ProcessTrim | src/bin/rusimg/background.rs:314-323 | trims as the trim step says |
| Background.ProcessResize | src/bin/rusimg/background.rs:326-334 | resizes as the resize step says |
| Background.ProcessGrayscale | src/bin/rusimg/background.rs:337-343 | grays the image and reports it |
| Background.ProcessCompress | src/bin/rusimg/background.rs:346-354 | compresses as the compress step says |
| CliMain.TrimStart | src/bin/rusimg/main.rs:58-77 | what remains after trimming starts with a non-space |
| CliMain.TrimEnd | src/bin/rusimg/main.rs:58-77 | what remains after trimming ends with a non-space |
| CliMain.PromptYes | src/bin/rusimg/main.rs:58-77 | ` Yes` with its line break overwrites |
| CliMain.PromptEmpty | src/bin/rusimg/main.rs:58-77 | an empty line skips |
| CliMain.PromptUnicodeSpace | src/bin/rusimg/main.rs:58-77 | a line of only Unicode white space (no-break and ideographic spaces) counts as empty and skips |
| CliMain.PromptNo | src/bin/rusimg/main.rs:58-77 | `N` skips |
| CliMain.PromptUnclear | src/bin/rusimg/main.rs:58-77 | `maybe` is no answer, so the prompt asks again |
| CliMain.AskedTakesFirstAnswer | src/bin/rusimg/main.rs:58-77 | the prompt reads up to the first answering line and takes its answer; with no answering line it reads all and skips |
| CliMain.AskFileExists | src/bin/rusimg/main.rs:58-77 | the prompt loop computes the asked answer |
| CliMain.TaskOf | src/bin/rusimg/main.rs:319-360 | the prompt of one task reads no more lines than exist |
| CliMain.BuildFrom | src/bin/rusimg/main.rs:306-363 | the loop from a given file on never reads more lines than exist and adds one task per remaining file |
| CliMain.BuiltTasks | src/bin/rusimg/main.rs:296-364 | one task per file, reading no more lines than exist |
| CliMain.PlanForShape | src/bin/rusimg/main.rs:307-318 | working out a file's output fails exactly when a save is needed and `--convert` is outside the table; otherwise it names an output path exactly when a save is needed |
| CliMain.TaskOfShape | src/bin/rusimg/main.rs:319-360 | such a plan gives a task with the output path, tag and answer the rules give |
| CliMain.PlanStep | src/bin/rusimg/main.rs:307-363 | a file whose plan names an output exactly when a save is needed adds one thread task with the output path, tag and answer the rules give and the loop goes on from there |
| CliMain.BuildFromShape | src/bin/rusimg/main.rs:306-363 | the loop from a given file on fails exactly when a file remains and the `--convert` text is bad with a save needed; otherwise every thread task has the output path, tag and answer the rules give |
| CliMain.BuiltTasksShape | src/bin/rusimg/main.rs:296-364 | building fails exactly on a bad `--convert` with a save needed; otherwise one task per file in order, each with the output path, tag and answer the rules give |
| CliMain.ShapedAdmissible | src/bin/rusimg/main.rs:296-364 | tasks built from checked arguments whose trim fits in 32 bits are all admissible for processing |
| CliMain.OverwriteModeChoice | src/bin/rusimg/main.rs:285-293 | `--yes` wins over `--no`; `--no` alone skips; neither asks |
| CliMain.AskForMapping | src/bin/rusimg/main.rs:319-343 | the existence check becomes a thread task's answer, asking only when needed |
| CliMain.PlanFile | src/bin/rusimg/main.rs:307-318 | works out one file's output path and tag, or the `--convert` error |
| CliMain.AskTask | src/bin/rusimg/main.rs:319-360 | asks the overwrite question for a planned file and builds its task |
| CliMain.ExtendTasks | src/bin/rusimg/main.rs:306-363 | one turn of the loop adds exactly one task, and the rest of the loop from there gives the same result as from before it; or it returns the loop's error |
| CliMain.BuildTasks | src/bin/rusimg/main.rs:296-364 | builds the thread tasks as the building rule says, or its error |
| CliMain.RunConvert | src/bin/rusimg/main.rs:118-125 | converts when asked, as the convert stage says |
| CliMain.RunTrim | src/bin/rusimg/main.rs:127-134 | trims when asked, as the trim stage says |
| CliMain.RunResize | src/bin/rusimg/main.rs:136-143 | resizes when asked, as the resize stage says |
| CliMain.RunGrayscale | src/bin/rusimg/main.rs:145-152 | turns the image gray when asked, as the grayscale stage says |
| CliMain.RunCompress | src/bin/rusimg/main.rs:154-161 | compresses when asked, as the compress stage says |
| CliMain.RunSteps | src/bin/rusimg/main.rs:118-161 | runs the pipeline on the handle in place, stopping at the first failing step |
| CliMain.Process | src/bin/rusimg/main.rs:103-271 | processes one task as the process function says |
| CliMain.SaveAndRemove | src/bin/rusimg/main.rs:173-258 | the save and the removal of the source, as the process function's tail says |
| CliMain.ProcessOpenFails | src/bin/rusimg/main.rs:105-117 | a file that cannot be opened is reported with its path, nothing written or removed |
| CliMain.ProcessWritesOnlyWhenSaving | src/bin/rusimg/main.rs:175-236 | nothing is written unless every step succeeded, a save is required and the answer was not skip; nothing removed unless written |
| CliMain.SaveImageWrites | src/lib.rs:447-460 | a successful save has written its file |
| CliMain.ProcessStatusRule | src/bin/rusimg/main.rs:175-258 | not needed exactly when no step ran and the output is the input; cancelled exactly when a save was needed and skipped; neither writes |
| CliMain.ProcessDeleteRule | src/bin/rusimg/main.rs:225-236 | the source is removed exactly when the save succeeded and the saved file is elsewhere; a failed removal is an I/O error |
| CliMain.ApplyOpsAppend | src/bin/rusimg/main.rs:119-161 | folding operations over a concatenation is folding each part in turn |
| CliMain.PipelineRunsRequestedInOrder | src/bin/rusimg/main.rs:119-161 | the pipeline runs exactly the requested steps in the order convert, trim, resize, grayscale, compress |
| CliMain.ConvertStageAgrees | src/bin/rusimg/main.rs:119-127 | the convert stage is the convert operation when requested |
| CliMain.TrimStageAgrees | src/bin/rusimg/main.rs:128-135 | the trim stage is the trim operation when requested |
| CliMain.ResizeStageAgrees | src/bin/rusimg/main.rs:136-143 | the resize stage is the resize operation when requested |
| CliMain.GrayscaleStageAgrees | src/bin/rusimg/main.rs:144-151 | the grayscale stage is the grayscale operation when requested |
| CliMain.CompressStageAgrees | src/bin/rusimg/main.rs:152-161 | the compress stage is the compress operation when requested |
| CliMain.Failures | src/bin/rusimg/main.rs:487-500 | the failure count never exceeds the number of outcomes |
| CliMain.Drain | src/bin/rusimg/main.rs:395-427 | one turn of a worker appends the popped thread task's outcome and keeps successes plus failures equal to the outcomes, with the failures counted |
| CliMain.DrainTasks | src/bin/rusimg/main.rs:387-433 | every task is popped from the end and processed once; successes plus failures equal the number of thread tasks |
| CliMain.RunTasks | src/bin/rusimg/main.rs:296-534 | a bad `--convert` ends the run; otherwise every task is admissible and processed once, last first, and the summary counts total, processed and failed |
| CliMain.RunMain | src/bin/rusimg/main.rs:274-534 | bad arguments end the run with the parse error; otherwise it ends as the run over the thread tasks says |
| LegacyRusimg.TagsCorrespond | src/rusimg.rs:353-369 | the older tags display as the current ones, map injectively, and only `Jpg` has no older counterpart |
| LegacyRusimg.OpenImageDispatch | src/rusimg.rs:183-204 | open yields a valid handle of the sniffed format with the input path and size, or the first failure |
| LegacyRusimg.ConvertCommitsOnlyOnSuccess | src/rusimg.rs:284-309 | convert fails exactly for an external format, a disabled feature or a failed PNG encoding, changing nothing; otherwise it keeps path, size and image under the target tag |
| LegacyRusimg.OperationsKeepValid | src/rusimg.rs:246-279 | trim, grayscale, compress and save keep the image valid; a resize does for a box in the image's proportions; grayscale is always `Ok`; a trim reports the stored size |
| LegacyRusimg.ResizeByHundredKeeps | src/rusimg.rs:254-257 | a resize by 100 percent keeps a valid image valid and keeps its size |
| LegacyRusimg.SaveImageReports | src/rusimg.rs:335-348 | save fails exactly when the handle's save does; on success it reports path, input size and written size |
| LegacyRusimg.RusImg.OpenImage | src/rusimg.rs:183-204 | opens into a fresh handle as the open function says |
| LegacyRusimg.RusImg.GetImageSize | src/rusimg.rs:246-249 | returns the handle's size |
| LegacyRusimg.RusImg.Resize | src/rusimg.rs:254-257 | updates the handle as the resize function says |
| LegacyRusimg.RusImg.Trim | src/rusimg.rs:261-264 | trims with the rectangle `((x, y), (w, h))` |
| LegacyRusimg.RusImg.Grayscale | src/rusimg.rs:268-271 | always `Ok`, graying the image |
| LegacyRusimg.RusImg.Compress | src/rusimg.rs:276-279 | updates the handle as the compress function says |
| LegacyRusimg.RusImg.Convert | src/rusimg.rs:284-309 | replaces tag and handle only on success |
| LegacyRusimg.RusImg.SaveImage | src/rusimg.rs:335-348 | saves as the save function says |
| LegacyProcessor.GetImageSize | src/rusimg/imgprocessor.rs:48-83 | fails with `FailedToGetDynamicImage` exactly for an empty selected slot; otherwise the slot image's size |
| LegacyProcessor.ResizeRefusesEmptySlot | src/rusimg/imgprocessor.rs:124-159 | resize fails with `ImageDataIsNone` exactly when the selected slot is empty, and then changes nothing |
| LegacyProcessor.TrimRefusesEmptySlot | src/rusimg/imgprocessor.rs:161-196 | trim fails with `ImageDataIsNone` exactly when the selected slot is empty, and then changes nothing |
| LegacyProcessor.GrayscaleRefusesEmptySlot | src/rusimg/imgprocessor.rs:198-237 | grayscale fails with `ImageDataIsNone` exactly when the selected slot is empty, and then changes nothing |
| LegacyProcessor.CompressRefusesEmptySlot | src/rusimg/imgprocessor.rs:239-274 | compress fails with `ImageDataIsNone` exactly when the selected slot is empty, and then changes nothing |
| LegacyProcessor.SaveRefusesEmptySlot | src/rusimg/imgprocessor.rs:336-399 | save fails with `ImageDataIsNone` exactly when the selected slot is empty, and then changes and writes nothing |
| LegacyProcessor.ResizeTouchesOnlySlot | src/rusimg/imgprocessor.rs:124-159 | resizing keeps the tag, leaves every other slot alone and keeps the selected one filled |
| LegacyProcessor.TrimTouchesOnlySlot | src/rusimg/imgprocessor.rs:161-196 | trimming keeps the tag, leaves every other slot alone and keeps the selected one filled |
| LegacyProcessor.GrayscaleTouchesOnlySlot | src/rusimg/imgprocessor.rs:198-237 | grayscale keeps the tag and leaves every other slot alone |
| LegacyProcessor.CompressTouchesOnlySlot | src/rusimg/imgprocessor.rs:239-274 | compressing keeps the tag and leaves every other slot alone |
| LegacyProcessor.SaveTouchesOnlySlot | src/rusimg/imgprocessor.rs:336-399 | saving keeps the tag and leaves every other slot alone |
| LegacyProcessor.OpenFillsOneSlot | src/rusimg/imgprocessor.rs:85-122 | an opened image has exactly the sniffed format's slot filled, with the input path and size |
| LegacyProcessor.ConvertFillsTarget | src/rusimg/imgprocessor.rs:276-334 | convert fails exactly for an empty slot or a failed PNG encoding; otherwise only the target slot is filled, carrying image, path and size |
| LegacyProcessor.SaveImageReports | src/rusimg/imgprocessor.rs:336-399 | a save through a filled slot reports the save-path rule's path, input size and written size |
| LegacyProcessor.RusImg.DoOpenImage | src/rusimg/imgprocessor.rs:85-122 | opens into a fresh image as the open function says |
| LegacyProcessor.RusImg.DoGetImageSize | src/rusimg/imgprocessor.rs:48-83 | the size of the selected slot |
| LegacyProcessor.RusImg.DoResize | src/rusimg/imgprocessor.rs:124-159 | resizes the selected slot in place |
| LegacyProcessor.RusImg.DoTrim | src/rusimg/imgprocessor.rs:161-196 | trims the selected slot in place |
| LegacyProcessor.RusImg.DoGrayscale | src/rusimg/imgprocessor.rs:198-237 | grays the selected slot in place |
| LegacyProcessor.RusImg.DoCompress | src/rusimg/imgprocessor.rs:239-274 | compresses the selected slot in place |
| LegacyProcessor.RusImg.DoConvert | src/rusimg/imgprocessor.rs:276-334 | returns a fresh converted image, leaving this one |
| LegacyProcessor.RusImg.DoSaveImage | src/rusimg/imgprocessor.rs:336-399 | saves through the selected slot |
| LegacyJpeg.TrimCountsAsOperation | src/rusimg/imgprocessor/jpeg.rs:113-134 | trim agrees with the current handle's except that it counts an operation on success; an outside origin is refused with `InvalidTrimXY` |
| LegacyJpeg.OperationsKeepValid | src/rusimg/imgprocessor/jpeg.rs:79-139 | the counting trim, compress and grayscale keep the stored size equal to the image's size; a resize does when the scaled box is in the image's proportions |
| LegacyJpeg.CompressWithoutDetail | src/rusimg/imgprocessor/jpeg.rs:79-98 | compress succeeds exactly when mozjpeg does, at quality 75 by default; failure changes nothing |
| LegacyJpeg.JpegImage.Import | src/rusimg/imgprocessor/jpeg.rs:24-38 | builds the imported handle |
| LegacyJpeg.JpegImage.Open | src/rusimg/imgprocessor/jpeg.rs:40-57 | builds the opened handle, or its error |
| LegacyJpeg.JpegImage.Save | src/rusimg/imgprocessor/jpeg.rs:59-77 | saves as the save function says |
| LegacyJpeg.JpegImage.Compress | src/rusimg/imgprocessor/jpeg.rs:79-98 | updates the fields as the compress function says |
| LegacyJpeg.JpegImage.Resize | src/rusimg/imgprocessor/jpeg.rs:100-111 | updates the fields as the resize function says: the scaled box is recorded, and the image becomes the crate's fit inside it |
| LegacyJpeg.JpegImage.Trim | src/rusimg/imgprocessor/jpeg.rs:113-134 | updates the fields as the counting trim says |
| LegacyJpeg.JpegImage.Grayscale | src/rusimg/imgprocessor/jpeg.rs:136-139 | grays the image and counts an operation |
| LegacyPng.OldCompressionLevel | src/rusimg/png.rs:90-112 | level 4 when no quality is given |
| LegacyPng.LevelsDifferOnlyInDefault | src/rusimg/png.rs:90-112 | the same level as the current handle for every quality, one less for the default |
| LegacyPng.ImportStartsClean | src/rusimg/png.rs:24-43 | a fresh handle has no compressed bytes, no operations, no output; it fails only when encoding fails |
| LegacyPng.CompressThenSave | src/rusimg/png.rs:88-132 | compress stores oxipng's output of the original bytes and counts, only on success; a compressed handle saves exactly those bytes |
| LegacyPng.SaveOutcome | src/rusimg/png.rs:68-86 | save succeeds exactly when the file system lets it, and only then records path and size |
| LegacyPng.PngImage.Import | src/rusimg/png.rs:24-43 | builds the imported handle, or its error |
| LegacyPng.PngImage.Save | src/rusimg/png.rs:68-86 | saves as the save function says |
| LegacyPng.PngImage.Compress | src/rusimg/png.rs:88-132 | compresses as the compress function says |
| LegacyBmp.Imported | src/rusimg/bmp.rs:20-32 | an imported handle is valid, with its size from the image and no output |
| LegacyBmp.TrimAsWritten | src/rusimg/bmp.rs:82-104 | an overhanging trim is refused only when the origin is outside in both directions, and is otherwise clamped to the full width and height |
| LegacyBmp.SaveOutcome | src/rusimg/bmp.rs:54-62 | save writes the current image to the path; only success records path and size |
| LegacyBmp.ResizeScales | src/rusimg/bmp.rs:68-80 | resize never fails and records both dimensions scaled; the image lies inside that box, and fills it (keeping validity) when the box is in the image's proportions; by 100 it keeps both dimensions and validity |
| LegacyBmp.TrimInsideIsExact | src/rusimg/bmp.rs:82-104 | a rectangle inside the image is cut out exactly |
| LegacyBmp.TrimOverhangBreaksSize | src/rusimg/bmp.rs:85-103 | a 10x10 image trimmed at (5, 0) to 10x10 is cropped to 5x10 but records 10x10 |
| LegacyBmp.TrimOutsideOriginAccepted | src/rusimg/bmp.rs:85-93 | an origin right of the image but above its bottom is accepted |
| LegacyBmp.CorrectedTrimKeepsSize | src/png/mod.rs:154-174 | the current trim rule keeps every handle valid, refuses exactly outside origins and agrees with the older rule inside the image |
| LegacyBmp.BmpImage.Import | src/rusimg/bmp.rs:20-32 | builds the imported handle |
| LegacyBmp.BmpImage.Save | src/rusimg/bmp.rs:54-62 | saves as the save function says |
| LegacyBmp.BmpImage.Compress | src/rusimg/bmp.rs:64-66 | always refused |
| LegacyBmp.BmpImage.Resize | src/rusimg/bmp.rs:68-80 | resizes as the resize function says: the scaled box is recorded, and the image becomes the crate's fit inside it |
| LegacyBmp.BmpImage.Trim | src/rusimg/bmp.rs:82-104 | trims as the as-written rule says |
| LegacyBmp.BmpImage.Grayscale | src/rusimg/bmp.rs:106-108 | grays the image |
| LegacyCli.ResizeCheckNeverFires | src/bin/rusimg/parse.rs:159-161 | the resize check never rejects anything |
| LegacyCli.ZeroResizeAccepted | src/bin/rusimg/parse.rs:159-161 | `--resize 0` is accepted and passed on, where the intended check rejects it |
| LegacyCli.ZeroResizeEmptiesImage | src/rusimg.rs:254-257 | resizing by zero percent records a 0x0 size |
| LegacyCli.ParserAgreesOffZero | src/bin/rusimg/parse.rs:128-184 | apart from a zero resize, the checks accept and reject as the current checks do, with the same first error and fields |
| LegacyCli.ConvertTablesAgree | src/bin/rusimg.rs:91-99 | the `--convert` table accepts the same texts as the current one, naming `jpg` as `Jpeg`; every tag is found under its name |
| LegacyCli.ExtensionTablesAgree | src/bin/rusimg.rs:102-113 | a file's tag agrees with the current lookup the same way |
| LegacyCli.Pipeline | src/bin/rusimg.rs:220-263 | the steps never change the source path, and a save is required whenever convert, resize, grayscale or compress ran |
| LegacyCli.ConvertStage | src/bin/rusimg.rs:220-227 | the convert step never changes the source path, and asks for a save exactly when `--convert` is given |
| LegacyCli.TrimStage | src/bin/rusimg.rs:230-238 | the trim step never changes the source path and never withdraws a save already asked for |
| LegacyCli.ResizeStage | src/bin/rusimg.rs:241-247 | the resize step never changes the source path, and a resize asks for a save |
| LegacyCli.GrayscaleStage | src/bin/rusimg.rs:250-255 | the grayscale step never changes the source path, and asks for a save exactly when `--grayscale` is given or one was already asked for |
| LegacyCli.CompressStage | src/bin/rusimg.rs:258-263 | the compress step never changes the source path, and a compression asks for a save |
| LegacyCli.CheckFileExists | src/bin/rusimg.rs:116-151 | the overwrite question reads no more lines than exist |
| LegacyCli.SaveStage | src/bin/rusimg.rs:266-304 | not needed exactly when no step asked for a save, and then nothing is written, removed or read; cancelled only without `--yes` and with nothing written; the source removed only under `--delete` after a successful save to another path |
| LegacyCli.Processed | src/bin/rusimg.rs:194-312 | one file reads no more prompt lines than exist |
| LegacyCli.BothAnswersRefused | src/bin/rusimg.rs:200-211 | `--yes` with `--no` is an argument error before anything is opened |
| LegacyCli.ProcessStatusRule | src/bin/rusimg.rs:230-304 | not needed only when no step asked for a save, with nothing written, removed or read; cancelled writes nothing and needs no `--yes` |
| LegacyCli.ProcessDeleteRule | src/bin/rusimg.rs:283-309 | the source is removed only after a successful save elsewhere; a viewer failure is reported after the save and removal already happened |
| LegacyCli.WholeImageTrimSavesNothing | src/bin/rusimg.rs:230-238 | trimming a whole image and nothing else needs no save |
| LegacyCli.ConvertImage | src/bin/rusimg.rs:220-227 | converts in place as the convert stage says |
| LegacyCli.TrimImage | src/bin/rusimg.rs:230-238 | trims in place as the trim stage says |
| LegacyCli.ResizeImage | src/bin/rusimg.rs:241-247 | resizes in place as the resize stage says |
| LegacyCli.GrayscaleImage | src/bin/rusimg.rs:250-255 | grays in place as the grayscale stage says |
| LegacyCli.CompressImage | src/bin/rusimg.rs:258-263 | compresses in place as the compress stage says |
| LegacyCli.RunSteps | src/bin/rusimg.rs:220-263 | runs the pipeline in place |
| LegacyCli.SaveAndRemove | src/bin/rusimg.rs:266-304 | asks, saves and removes as the save stage says |
| LegacyCli.AskOverwrite | src/bin/rusimg.rs:116-151 | asks as the overwrite rule says |
| LegacyCli.Process | src/bin/rusimg.rs:194-312 | processes one file as the process function says |
| LegacyCli.Ran | src/bin/rusimg.rs:338-360 | one outcome per file |
| LegacyCli.RanFirst | src/bin/rusimg.rs:338-360 | the first file is processed first, and the rest get the prompt lines it left |
| LegacyCli.Advance | src/bin/rusimg.rs:338-360 | one turn of the loop: the next outcome is recorded and counted, and the rest of the run continues on the unread answers |
| LegacyCli.Failures | src/bin/rusimg.rs:338-360 | the failure count never exceeds the number of outcomes |
| LegacyCli.RunFiles | src/bin/rusimg.rs:314-369 | processes every file in order and reports total, processed and failed |

## Left out

- Pixels and codecs: decoding, the image library's encoders, oxipng, mozjpeg, the WebP encoder, resampling and the
  grayscale filter. An image is an abstract value, and each codec's success or failure is a parameter.
- Floating point: resize ratios and qualities are exact reals, so a resize is `floor(d * ratio / 100)` with no f32
  rounding, the image crate's fit inside the box is computed exactly, and a NaN quality does not exist.
- The image crate's `resize` keeps the aspect ratio and fits the image inside the requested box, so the handles'
  recorded size (the box) and the image's size agree only when the box is in the image's proportions. The lemmas
  below state validity after a resize only for such boxes (always including a resize by 100 percent);
  `PngFormat.ResizeCanDesync` shows a 10x3 handle at 55 percent recording 5x1 over a 3x1 image. The crate's
  version is not fixed by the sources; the model follows `resize_dimensions` without fill.
- PngFormat.OperationsKeepValid: a resize keeps the handle valid only for a box in the image's proportions.
- JpegFormat.OperationsKeepValid: a resize keeps the handle valid only for a box in the image's proportions.
- WebpFormat.OperationsKeepValid: a resize keeps the handle valid only for a box in the image's proportions.
- BmpFormat.OperationsKeepValid: a resize keeps the handle valid only for a box in the image's proportions.
- Rusimg.OperationsKeepValid: a resize keeps the image valid only for a box in the image's proportions.
- LegacyRusimg.OperationsKeepValid: a resize keeps the image valid only for a box in the image's proportions
  (`LegacyRusimg.ResizeByHundredKeeps` covers 100 percent). The handles are the current ones, not those of `src/rusimg/`, and the older JPEG and WebP handles
  are not part of this model.
- LegacyJpeg.OperationsKeepValid: a resize keeps the handle valid only for a box in the image's proportions.
- LegacyBmp.ResizeScales: a resize keeps the handle valid only for a box in the image's proportions or by 100
  percent.
- PngFormat.PngImage.Resize, JpegFormat.JpegImage.Resize, WebpFormat.WebpImage.Resize, BmpFormat.BmpImage.Resize,
  LegacyJpeg.JpegImage.Resize, LegacyBmp.BmpImage.Resize: the recorded size is the requested box, as in the code,
  and can differ from the resized image's size.
- PngFormat.PngImage.Compress: where the code panics on an oxipng failure (see Findings), the method returns
  `FailedToCompressImage` with the codec's message and leaves the handle unchanged; the panic itself is
  `PngFormat.CompressAsWritten`.
- Paths.FileName: a path whose last component is `..` has no file name in Rust, while the model gives `..`. Such a
  path cannot come from file discovery, which yields files, and the save-path lemmas exclude it by precondition.
- Paths.FromName: an `--append` suffix containing `/` is kept inside one file name, where `PathBuf::from` would
  split it into directories.
- Rusimg.RusImg.Resize: the ratio is any non-negative real, the value the command line passes, rather than the `u8`
  of the library signature. The older front end keeps the `u8` bound.
- The file system: existence, directories, file sizes, writes and removals are parameters. `create_dir_all` for an
  extension-less destination is not modelled.
- File discovery (`get_files_in_dir`, `get_files_by_wildcard`, glob patterns) is outside the model; the found files
  are an input sequence.
- Concurrency: the worker pool, the channel and the locks. The shared task list is drained by popping from the end,
  which is one of the orders the pool can produce, and `--threads` has no effect.
- Terminal output (`save_print`, progress lines, colours) and the terminal viewer are not modelled. A viewer failure
  of the older tool is an input; the current tool's `view` is left out entirely.
- Argument parsing by clap is outside the model; only the checks after parsing are modelled.
- Panics are preconditions: `u32` overflow of `x + w` in trim, `parse().unwrap()` of huge digit strings,
  `unwrap()` of missing file names or stems in the output-path rules, and non-UTF-8 paths.
- The trim regex's `\d` is ASCII digits only; Unicode digits are not modelled.
- Error message text is modelled only where a contract depends on it. I/O error messages from the operating system
  are abstract.
- The older tool's `ProcessingError::RusimgError(FailedToViewImage)` is modelled as a separate `ViewFailed` case
  because the shared error type has no such variant.
- The first-generation handles' `open` and the `save_filepath` of their trait are not modelled; their `save` takes
  the resolved path as an input.
- The `imgprocessor` BMP, PNG and WebP handles are not part of this model; their slots hold the current handles.
  `do_save_image`'s status value is not modelled.
- `do_view`, `view`, `set_dynamic_image` of the older wrappers and the `Display` of error types are printing or
  plain field access and are left out.

## Findings

| source | as written | input that shows it | evidently intended | confidence | as-written member | corrected member |
|---|---|---|---|---|---|---|
| src/rusimg/bmp.rs:85-103 | an overhanging trim is refused only when `x >= width` and `y >= height` both hold, and is otherwise clamped to `min(width, w)` by `min(height, h)` | a 10x10 BMP trimmed at (5, 0) to 10x10: the crop is 5x10 but the handle records 10x10 | refuse when either coordinate is outside; clamp to `width - x` by `height - y`, as the current handles do | high, not executed | LegacyBmp.TrimOverhangBreaksSize | LegacyBmp.CorrectedTrimKeepsSize |
| src/bin/rusimg/parse.rs:159-161 | the resize check tests `Some(r) < Some(0)` on a `u8`, which is never true | `--resize 0` passes the checks and the handle records a 0x0 size (the image crate keeps one pixel per side) | reject a zero resize ("Resize must be size > 0"), as the later checks do | high, not executed | LegacyCli.ZeroResizeAccepted | ArgParse.CheckAndGenerateOrder |
| src/png/mod.rs:118-132 | every arm of the match on the oxipng error builds an `Err`, which is then unwrapped | any oxipng failure, such as truncated PNG data: the thread panics | return `FailedToCompressImage` carrying the message | high, not executed | PngFormat.CompressFailurePanics | PngFormat.CompressReportsFailure |
