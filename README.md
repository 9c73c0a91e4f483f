# A2iA OCR plugin for Lutece, modelled in Dafny

The plugin hands a scanned document (an image or a one-page PDF) to the A2iA recognition engine
and gets back a map of named fields. A field is a bank-account detail of a RIB, an amount and a
date of a tax assessment, or the holder of an identity document. This project models the two
parts of the plugin that carry its logic, and proves what they promise.

- **`OcrService.proceed`** runs in this order:
  - it checks its arguments;
  - it normalises the image against the configured allow-list of extensions, rasterising a PDF
    to PNG or JPEG;
  - in File mode it writes the image to a temporary file;
  - it runs one recognition session with the engine: open a channel, open a document table and
    its default document, describe the image, open a request, wait for the result;
  - its `finally` block closes the request and the channel and deletes the temporary file;
  - it drops blank fields;
  - when a PDF gave nothing and the retry is configured, it tries once more on a high-quality
    JPEG rendering.

  In Memory mode the image bytes are copied into a COM array by tasks that each cover one
  contiguous range.
- **`OcrResultUtils`** decodes the engine's output zones into the result map, by one fixed schema
  per document type. It uses four readers: a simple field, a date, a multi-line address block whose
  tagged lines also fill sub-keys, and the dispatch on the document type.

How the model is built:
- **The engine** (`A2iaEngine.Engine`) answers each `Dispatch.call` through a function of every
  exchange before it. The model keeps the transcript of calls and replies. "The channel is
  closed again" is a statement about that transcript: `ChannelsAfterAll` and `RequestsAfterAll`
  compute the handles it leaves open.
- **The methods** do what the Java does, step by step, on class instances:
  - `Engine`, the file store `FileStore`, the image bean `ImageBean`, the result map `ResultMap`;
  - loops, where the Java has loops;
  - an `array` for the COM `SafeArray`.
- **The contracts.** Each method's contract ties its result and its new state to a reference
  function (`ChannelRun`, `RequestRun`, `OcrRun`, `ProceedRun`, `RibResult`, …). The lemmas
  about those functions state the properties: the call order, the error paths, the handles
  released, the files removed, the keys each schema writes.

## Model

S = `src/java/fr/paris/lutece/plugins/ocra2ia/service/OcrService.java`,
U = `src/java/fr/paris/lutece/plugins/ocra2ia/util/OcrResultUtils.java` (the source cells spell them out).

| member | source | states |
|---|---|---|
| Text.JavaSplitKeepsNonEmptyPieces | src/java/fr/paris/lutece/plugins/ocra2ia/service/OcrService.java:478 | `split(",")` drops only trailing empty pieces: a non-empty allow-list entry is in the split list iff it is one of the comma-separated pieces |
| OcrResultUtils.TagOf | src/java/fr/paris/lutece/plugins/ocra2ia/util/OcrResultUtils.java:273-291 | the tag found is one whose text equals the line type ignoring case; no tag is found only when none of Name, Destination, PhoneNum, CityZip equals it |
| OcrResultUtils.ReadLinesFailureSticks | src/java/fr/paris/lutece/plugins/ocra2ia/util/OcrResultUtils.java:264-272 | once a present line has no type (the `toString` on null throws), reading any further lines ends with that same failure |
| OcrResultUtils.GetA2iaOutputResult | src/java/fr/paris/lutece/plugins/ocra2ia/util/OcrResultUtils.java:234-242 | the map gains the key, with the value coerced to the declared type, exactly when the zone is present, and is otherwise unchanged |
| OcrResultUtils.GetA2iaOutputResultDate | src/java/fr/paris/lutece/plugins/ocra2ia/util/OcrResultUtils.java:311-335 | the key is written with `day/month/year`, each coerced to an integer, only when all three sub-zones are present |
| OcrResultUtils.GetA2iaOutputResultMultiLines | src/java/fr/paris/lutece/plugins/ocra2ia/util/OcrResultUtils.java:256-297 | the loop over lines 1..count leaves the map the block reader defines, or reports the failure of a count that is not an integer or of a line without a type |
| OcrResultUtils.GetRibResult | src/java/fr/paris/lutece/plugins/ocra2ia/util/OcrResultUtils.java:107-139 | the seven string fields in list order, then the address block, into a fresh map |
| OcrResultUtils.GetTaxAssessmentResult | src/java/fr/paris/lutece/plugins/ocra2ia/util/OcrResultUtils.java:150-171 | the address block, then the established date, then the tax amount as a float, into a fresh map |
| OcrResultUtils.GetIdentityResult | src/java/fr/paris/lutece/plugins/ocra2ia/util/OcrResultUtils.java:182-220 | five string fields and the number as an integer, then the three dates, into a fresh map |
| OcrResultUtils.GetOcrResults | src/java/fr/paris/lutece/plugins/ocra2ia/util/OcrResultUtils.java:77-96 | the schema of the first configured type equal to the document type ignoring case (RIB, tax, identity); null exactly when none of the three equals it |
| OcrResultProperties.ReadEachFields | src/java/fr/paris/lutece/plugins/ocra2ia/util/OcrResultUtils.java:128-131 | with distinct keys, each simple field is written exactly when its zone is present, with the coerced value; every other key is untouched |
| OcrResultProperties.ReadEachDateFields | src/java/fr/paris/lutece/plugins/ocra2ia/util/OcrResultUtils.java:215-217 | with distinct keys, each date key is written exactly when its three sub-zones are present; every other key is untouched |
| OcrResultProperties.ReadLineText | src/java/fr/paris/lutece/plugins/ocra2ia/util/OcrResultUtils.java:266-270 | one line adds its text and one space to the block when it is present, nothing when it is absent |
| OcrResultProperties.ReadLinesText | src/java/fr/paris/lutece/plugins/ocra2ia/util/OcrResultUtils.java:264-270 | the block text is the text of every present line 1..n in order, each followed by one space |
| OcrResultProperties.ReadLinesOthers | src/java/fr/paris/lutece/plugins/ocra2ia/util/OcrResultUtils.java:271-291 | reading the lines writes no key other than the four address sub-keys |
| OcrResultProperties.ReadLinesTags | src/java/fr/paris/lutece/plugins/ocra2ia/util/OcrResultUtils.java:271-291 | each sub-key holds the text of the last present line with its tag (a later line overwrites an earlier one), or is unchanged when no line has it |
| OcrResultProperties.ReadLinesContents | src/java/fr/paris/lutece/plugins/ocra2ia/util/OcrResultUtils.java:261-295 | the three statements above together, for a block read without error |
| OcrResultProperties.ReadMultiLinesKeys | src/java/fr/paris/lutece/plugins/ocra2ia/util/OcrResultUtils.java:259-296 | a block that is read writes only its key and the sub-keys; one whose count is absent, null or not positive writes nothing |
| OcrResultProperties.MultiLinesBlock | src/java/fr/paris/lutece/plugins/ocra2ia/util/OcrResultUtils.java:259-295 | with a positive count, the block key holds the present lines' text with a trailing space each, and each sub-key the last line with its tag |
| OcrResultProperties.RibSchemaFields | src/java/fr/paris/lutece/plugins/ocra2ia/util/OcrResultUtils.java:107-139 | a RIB result holds each of its seven fields exactly when the zone is present, with the string value, and no key outside its schema |
| OcrResultProperties.TaxAssessmentSchemaFields | src/java/fr/paris/lutece/plugins/ocra2ia/util/OcrResultUtils.java:150-171 | a tax result holds the float amount exactly when its zone is present, the date exactly when its three sub-zones are present, and no key outside its schema |
| OcrResultProperties.IdentitySchemaFields | src/java/fr/paris/lutece/plugins/ocra2ia/util/OcrResultUtils.java:182-220 | an identity result holds each simple field exactly when its zone is present, with the coerced value, each date exactly when its three sub-zones are present, as `day/month/year`, and only its nine keys |
| OcrResultProperties.IdentityIgnoresAddress | src/java/fr/paris/lutece/plugins/ocra2ia/util/OcrResultUtils.java:185-219 | the identity address zone is never read: changing it does not change the identity result |
| OcrResultProperties.ReadEachIgnores | src/java/fr/paris/lutece/plugins/ocra2ia/util/OcrResultUtils.java:234-242 | simple readers do not depend on a zone none of them names |
| OcrResultProperties.ReadEachDateIgnores | src/java/fr/paris/lutece/plugins/ocra2ia/util/OcrResultUtils.java:319-326 | date readers do not depend on a zone none of their sub-zones names |
| ImageNormalizer.ImageBean.constructor | src/java/fr/paris/lutece/plugins/ocra2ia/service/OcrService.java:597-629 | a new image bean has no extension, no content and no path |
| ImageNormalizer.RenderOptionsFor | src/java/fr/paris/lutece/plugins/ocra2ia/service/OcrService.java:549-570 | high quality is 300 dpi, RGB, maximum quality; normal is the configured dpi (150 by default), BINARY exactly when the type is "binary" ignoring case, and the configured compression for JPEG only |
| ImageNormalizer.TransformPdfToImage | src/java/fr/paris/lutece/plugins/ocra2ia/service/OcrService.java:543-591 | the page-count error exactly when the PDF loads with more than one page; a result exactly when it loads with at most one page and the first page renders, and then that rendering with the chosen options |
| ImageNormalizer.PdfImageFormat | src/java/fr/paris/lutece/plugins/ocra2ia/service/OcrService.java:501-502 | Png exactly when the configured format equals "Png" ignoring case, Jpeg otherwise |
| ImageNormalizer.ImageFormatName | src/java/fr/paris/lutece/plugins/ocra2ia/service/OcrService.java:482-498 | a name exactly when the extension is Tiff, Jpeg, Jpg, Bmp or Png ignoring case; the name is always one of the constants Tiff, Jpeg, Bmp, Png, the one equal to the extension ignoring case, Jpg becoming Jpeg |
| ImageNormalizer.RecogniseBranches | src/java/fr/paris/lutece/plugins/ocra2ia/service/OcrService.java:482-512 | what a matching entry does, under each branch condition in the order the code tests them |
| ImageNormalizer.NormalizedImage | src/java/fr/paris/lutece/plugins/ocra2ia/service/OcrService.java:478-525 | an image is accepted exactly when some allow-list entry equals its extension ignoring case and the extension is one of the six formats |
| ImageNormalizer.SetValueImageExtensionAndContent | src/java/fr/paris/lutece/plugins/ocra2ia/service/OcrService.java:473-526 | the loop over the allow-list gives a fresh bean with the normalised format and content, or the extension error carrying the extension |
| ImageNormalizer.NonPdfKeepsContent | src/java/fr/paris/lutece/plugins/ocra2ia/service/OcrService.java:482-498 | an accepted non-PDF image keeps its bytes and gets its canonical format name |
| ImageNormalizer.JpgIsJpeg | src/java/fr/paris/lutece/plugins/ocra2ia/service/OcrService.java:486-490 | an accepted Jpg, in any case, becomes Jpeg with its bytes unchanged |
| ImageNormalizer.UnknownFormatRefused | src/java/fr/paris/lutece/plugins/ocra2ia/service/OcrService.java:518-522 | an extension outside the six formats is refused even when the allow-list names it |
| ImageNormalizer.PdfIsRasterised | src/java/fr/paris/lutece/plugins/ocra2ia/service/OcrService.java:499-511 | an accepted PDF gets the configured image format; its content is set exactly when rasterisation succeeds, and never for a multi-page PDF |
| BufferEncoder.ThreadCount | src/java/fr/paris/lutece/plugins/ocra2ia/service/OcrService.java:361-363 | at least one task, and more than one only when the bytes per task is strictly between 1 and the image length |
| BufferEncoder.Partition | src/java/fr/paris/lutece/plugins/ocra2ia/service/OcrService.java:368-374 | the ranges start at 0, end at the length, are contiguous and in bounds, and all but the last hold exactly n bytes (the last from n to 2n-1) |
| BufferEncoder.PartBounds | src/java/fr/paris/lutece/plugins/ocra2ia/service/OcrService.java:370-371 | each range lies inside the image and ends where the next one starts |
| BufferEncoder.PartsOrdered | src/java/fr/paris/lutece/plugins/ocra2ia/service/OcrService.java:370-371 | a lower-numbered range ends before a higher-numbered one starts |
| BufferEncoder.EachByteInOnePart | src/java/fr/paris/lutece/plugins/ocra2ia/service/OcrService.java:368-374 | every byte of the image lies in exactly one range |
| BufferEncoder.RunTask | src/java/fr/paris/lutece/plugins/ocra2ia/service/OcrService.java:418-429 | a task stores byte k as a byte variant at index k for each k of its range and leaves every other slot alone |
| BufferEncoder.TransformImageToJacobObject | src/java/fr/paris/lutece/plugins/ocra2ia/service/OcrService.java:354-403 | with content and all tasks finished, the array holds every byte in order; unfinished tasks give the timeout error; no content throws |
| TempFiles.FileStore.Write | src/java/fr/paris/lutece/plugins/ocra2ia/service/OcrService.java:334 | the file is created or replaced unless the write fails |
| TempFiles.FileStore.Delete | src/java/fr/paris/lutece/plugins/ocra2ia/service/OcrService.java:233 | an existing file is removed unless the deletion fails; a missing file cannot be deleted |
| TempFiles.WriteImageFile | src/java/fr/paris/lutece/plugins/ocra2ia/service/OcrService.java:323-343 | the image is written to a new `tmp_` file and its path recorded; a failed write is the write error; no content throws |
| EngineSession.GetTblDocumentPath | src/java/fr/paris/lutece/plugins/ocra2ia/service/OcrService.java:440-461 | the table of the first configured type equal to the document type ignoring case (RIB, tax, identity), else the error carrying the type |
| EngineSession.KnownTableMeansKnownDecoder | src/java/fr/paris/lutece/plugins/ocra2ia/service/OcrService.java:444-452 | a type with a table always has a decoder: decoding after a successful lookup never gives null |
| EngineSession.OpenChannelA2ia | src/java/fr/paris/lutece/plugins/ocra2ia/service/OcrService.java:253-271 | the six calls of the channel script, ending with the first engine error |
| EngineSession.OpenDefaultDocument | src/java/fr/paris/lutece/plugins/ocra2ia/service/OcrService.java:293-294 | open the table, then take its default document |
| EngineSession.SetImageSource | src/java/fr/paris/lutece/plugins/ocra2ia/service/OcrService.java:299-308 | File mode names the temporary file; Memory mode sets the converted buffer, ending early when conversion fails |
| EngineSession.OpenRequestA2ia | src/java/fr/paris/lutece/plugins/ocra2ia/service/OcrService.java:289-314 | the table lookup fails before any call; otherwise the six calls of the request script |
| EngineSession.CloseSession | src/java/fr/paris/lutece/plugins/ocra2ia/service/OcrService.java:220-227 | close the request if any, then the channel if any, stopping at the first close that raises |
| EngineSession.AwaitResult | src/java/fr/paris/lutece/plugins/ocra2ia/service/OcrService.java:206-210 | open the request, then wait for the result with a 60000 ms time-out |
| EngineSession.RunSession | src/java/fr/paris/lutece/plugins/ocra2ia/service/OcrService.java:201-217 | the `try` block: channel, request, result, with the handles obtained so far handed to the `finally` block |
| EngineSession.Finish | src/java/fr/paris/lutece/plugins/ocra2ia/service/OcrService.java:218-241 | the `finally` block: closes, then the deletion in File mode; an exception there replaces the result |
| EngineSession.PerformOcr | src/java/fr/paris/lutece/plugins/ocra2ia/service/OcrService.java:194-245 | the session, the decoding of its result, then the `finally` block |
| SessionProperties.ChannelRunIsScript | src/java/fr/paris/lutece/plugins/ocra2ia/service/OcrService.java:256-268 | the channel part runs its script on the parameter handle the second call returned |
| SessionProperties.ChannelRunResult | src/java/fr/paris/lutece/plugins/ocra2ia/service/OcrService.java:253-271 | it succeeds exactly when its last call returned, with that handle, and otherwise fails with the engine's error |
| SessionProperties.ChannelRunScript | src/java/fr/paris/lutece/plugins/ocra2ia/service/OcrService.java:253-271 | init, create parameters, three properties, open channel with 10000 ms: in order, stopping only on an error, succeeding exactly when all six return |
| SessionProperties.ChannelRunOpens | src/java/fr/paris/lutece/plugins/ocra2ia/service/OcrService.java:253-271 | the channel it returns is the only handle it leaves open |
| SessionProperties.RequestRunIsScript | src/java/fr/paris/lutece/plugins/ocra2ia/service/OcrService.java:289-314 | the request part runs its script on the table and document handles it received, only four calls when the image cannot be converted |
| SessionProperties.SourceRunIsScript | src/java/fr/paris/lutece/plugins/ocra2ia/service/OcrService.java:299-308 | the image part makes its two calls as the next ones of the script |
| SessionProperties.DescribeAndOpenRunIsScript | src/java/fr/paris/lutece/plugins/ocra2ia/service/OcrService.java:297-311 | the part after the default document runs the script from its third call |
| SessionProperties.SourceRunResult | src/java/fr/paris/lutece/plugins/ocra2ia/service/OcrService.java:299-308 | the image part succeeds only when the image converts; an engine error or the conversion's error otherwise |
| SessionProperties.DescribeAndOpenRunResult | src/java/fr/paris/lutece/plugins/ocra2ia/service/OcrService.java:297-313 | the same for the part after the default document, with the request handle on success |
| SessionProperties.RequestRunResult | src/java/fr/paris/lutece/plugins/ocra2ia/service/OcrService.java:289-314 | the request handle on success; the engine's error; or the conversion's error after exactly four calls |
| SessionProperties.RequestRunScript | src/java/fr/paris/lutece/plugins/ocra2ia/service/OcrService.java:289-314 | the request part follows its script, succeeds exactly when all six calls return, and stops early only on an engine error or a failed conversion |
| SessionProperties.SourceRunOpens | src/java/fr/paris/lutece/plugins/ocra2ia/service/OcrService.java:299-308 | the image part opens and closes nothing |
| SessionProperties.DescribeAndOpenRunOpens | src/java/fr/paris/lutece/plugins/ocra2ia/service/OcrService.java:297-313 | it opens at most the request it returns |
| SessionProperties.RequestRunOpens | src/java/fr/paris/lutece/plugins/ocra2ia/service/OcrService.java:289-314 | the request it returns is the only handle it leaves open; it opens no channel |
| SessionProperties.CleanupRunCloses | src/java/fr/paris/lutece/plugins/ocra2ia/service/OcrService.java:218-227 | the closes run in order until one raises; when none raises, exactly the request and the channel are no longer open |
| SessionProperties.CloseRequestFailureLeaksChannel | src/java/fr/paris/lutece/plugins/ocra2ia/service/OcrService.java:220-227 | a close of the request that raises ends the block before the channel is closed, which stays open |
| SessionProperties.AfterChannelOpens | src/java/fr/paris/lutece/plugins/ocra2ia/service/OcrService.java:206-210 | once the channel is open, the `try` block opens at most the request it hands on |
| SessionProperties.WorkRunOpens | src/java/fr/paris/lutece/plugins/ocra2ia/service/OcrService.java:201-217 | the handles given to the `finally` block are exactly those left open; a request is only opened on a channel |
| SessionProperties.OcrRunReleases | src/java/fr/paris/lutece/plugins/ocra2ia/service/OcrService.java:194-245 | unless a close raises, the session's channel and request end closed and every other handle is as before; a successful session had its closes succeed |
| SessionProperties.WorkRunNeedsTable | src/java/fr/paris/lutece/plugins/ocra2ia/service/OcrService.java:204-211 | the engine is asked for a result only after the table lookup succeeded |
| SessionProperties.UnknownTypeClosesChannelOnly | src/java/fr/paris/lutece/plugins/ocra2ia/service/OcrService.java:204-227 | an unknown type fails after the channel opens and before any request, with the type in the error, so only the channel is closed |
| SessionProperties.OcrRunNeverNull | src/java/fr/paris/lutece/plugins/ocra2ia/service/OcrService.java:206-211 | `performOcr` never returns the decoder's null |
| SessionProperties.FinallyRunFiles | src/java/fr/paris/lutece/plugins/ocra2ia/service/OcrService.java:218-239 | the `finally` block touches no file in Memory mode or after a failed close (whose error is the result), and otherwise removes at most the temporary image |
| SessionProperties.OcrRunTempFile | src/java/fr/paris/lutece/plugins/ocra2ia/service/OcrService.java:229-239 | a successful File-mode session removed its temporary image; Memory mode touches no file; at most that one file is ever removed |
| SessionProperties.OcrRunWithoutContentFails | src/java/fr/paris/lutece/plugins/ocra2ia/service/OcrService.java:304-308 | in Memory mode an image without content opens no request and fails on the content, the table lookup or an engine error |
| OcrService.StripBlank | src/java/fr/paris/lutece/plugins/ocra2ia/service/OcrService.java:154 | exactly the entries whose value is not blank, with their values |
| OcrService.Found | src/java/fr/paris/lutece/plugins/ocra2ia/service/OcrService.java:152-154 | the map `performOcr` returned, its error kept, a null map becoming the null-pointer error of its next use |
| OcrService.RecogniseImage | src/java/fr/paris/lutece/plugins/ocra2ia/service/OcrService.java:146-152 | in File mode the image file is written first, then `performOcr` |
| OcrService.Proceed | src/java/fr/paris/lutece/plugins/ocra2ia/service/OcrService.java:125-177 | the checks, normalisation, one recognition, the blank strip and the optional retry, leaving the engine transcript and the files of the reference run |
| ProceedProperties.ImageRunTidy | src/java/fr/paris/lutece/plugins/ocra2ia/service/OcrService.java:147-152 | a recognition that succeeds leaves no new file and no handle open; in Memory mode it touches no file |
| ProceedProperties.ProceedRejectsEarly | src/java/fr/paris/lutece/plugins/ocra2ia/service/OcrService.java:134-146 | the init error, then the missing-argument error, then the extension error, each before any engine call or file write |
| ProceedProperties.MultiPagePdfFails | src/java/fr/paris/lutece/plugins/ocra2ia/service/OcrService.java:499-511 | an accepted multi-page PDF is never recognised, and the page-count error never reaches the caller |
| ProceedProperties.ProceedDropsBlankFields | src/java/fr/paris/lutece/plugins/ocra2ia/service/OcrService.java:154 | without the PDF retry, a result is exactly the non-blank fields of the map the first recognition decoded, so every returned field is non-blank |
| ProceedProperties.ProceedRetryRule | src/java/fr/paris/lutece/plugins/ocra2ia/service/OcrService.java:154-176 | a second recognition only on an empty result of a PDF with the retry set, on a 300-dpi RGB JPEG, its map returned as decoded; the stripped first map without the retry or when the rendering raises an `IOException`; the page-count error for a multi-page PDF |
| ProceedProperties.ProceedIsTidy | src/java/fr/paris/lutece/plugins/ocra2ia/service/OcrService.java:125-177 | a successful `proceed` leaves no temporary file, changes no other file, and closes every channel and request it opened, the retry's included |

## Behaviour worth knowing

- **Number of byte-copying tasks.** It is `len / n`, rounded down, and the last task takes the
  remainder, which is between `n` and `2n - 1` bytes (`BufferEncoder.Partition`).
- **The `finally` block.** Its closes and the deletion are not guarded one by one:
  - an exception there replaces the result, even a successful one, and even an earlier error;
  - a close of the request that raises skips the close of the channel and the deletion
    (`SessionProperties.CloseRequestFailureLeaksChannel`).
- **A multi-page PDF.** Its page-count error is caught and logged in normalisation. The image
  keeps its format but has no content, and the call later fails on that missing content. So
  the page-count error can reach the caller only from the retry, and for a multi-page PDF the
  retry is never reached (`ProceedProperties.MultiPagePdfFails`).
- **The retry** catches only an `IOException` of the rendering, and then returns the stripped
  first map. Any other error of the retry reaches the caller. A successful retry's map is
  returned without the blank strip (`ProceedProperties.ProceedRetryRule`).
- **`getOcrResults`** returns null for an unknown type. Through `proceed` that case cannot happen,
  because the table lookup compares the type the same way and fails first
  (`SessionProperties.OcrRunNeverNull`).

## Left out

- **COM and Jacob.**
  - Loading the Jacob DLL, building the clsid in `init`, and the `ActiveXComponent` that
    `proceed` constructs before its clsid check are left out. The clsid is a parameter, and
    an empty one stands for a failed initialisation.
  - The engine's answers are a function of the transcript (`Engine.respond`), and the output
    zones of a result handle are a function of the handle (`Engine.resultZones`).
  - Handles are integers: the `new Long(variant.toString())` round trips are not modelled.
- **Zone reads.** Reading an output zone (`Dispatch.call` of `GetProperty` in `OcrResultUtils`)
  never raises. A zone for which the engine returns null is a missing key.
- **Variant conversions.** `changeType(...).toString()` is a parameter (`Coercion`). Floating
  point, including the parsing and clamping of the JPEG compression level, is not modelled; the
  compression level is recorded as `Configured`.
- **PDFBox and ImageIO.** They are the `Rasteriser` parameter: a page count, or a rendering
  of the first page, either of which may fail with an `IOException`.
- ImageNormalizer.TransformPdfToImage: treats a PDF that loads with no page like a one-page PDF and asks the
  `Rasteriser` to render it. OcrService.java:576 refuses only more than one page. For a
  document with no page, PDFBox's `renderImageWithDPI(0, …)` at OcrService.java:582 throws an
  unchecked `IndexOutOfBoundsException`. That exception is caught neither at OcrService.java:506
  nor by the retry at OcrService.java:169, so in the Java `proceed` throws it before any engine
  call or file write. The model does not capture that escape. A zero-page rendering is whatever
  the `Rasteriser` returns, and `None` is treated as a swallowed `IOException`.
- **Threads.** The thread pool, `awaitTermination`, `InterruptedException` and `synchronized`
  are left out.
  - The copying tasks run one after the other, in submission order.
  - Whether they finish in time is the parameter `finishesInTime`.
  - The model therefore does not capture concurrent writes into the shared array (the ranges
    are disjoint, `BufferEncoder.EachByteInOnePart`).
- **Temporary file names.** The clock and the three random letters of a temporary file name
  are the `stamp` and `retryStamp` parameters.
- TempFiles.FileStore.Write: a failed write leaves the store unchanged. `Files.write` at
  OcrService.java:334 opens the file with CREATE and TRUNCATE_EXISTING, so an `IOException`
  part-way can leave a partial `tmp_` file behind, which nothing deletes. The model does not
  capture that partial file.
- **Messages.** Logging is left out, and so are the localised message texts: each error is one
  constructor of `OcrError`.
- **Error wrapping.** `performOcr` wraps every exception of its `try` block into an
  `OcrException` with the same message. The model keeps the error's kind, so a
  `NullPointerException` is `NullReference` whether it escapes wrapped or not.
- **Case folding.** `equalsIgnoreCase` folds ASCII letters only.
- **Null arguments.** A null content, extension or document type of `proceed` is an empty one.
  The retry's map is returned unchanged, with no `removeIf`. It cannot be null, because
  `performOcr` never returns null (`SessionProperties.OcrRunNeverNull`). `OcrService.Found`
  gives `NullReference` for a null map, and on the retry's map that case does not arise.
- **Configuration without a default.** These properties are assumed set:
  - `ocra2ia.extension.file`: unset, `split` at OcrService.java:478 throws a
    `NullPointerException`;
  - `ocra2ia.param.dir` and the three `ocra2ia.tbl.*` tables. Unset, the Java passes null to
    the engine;
  - `ocra2ia.folder.tmp.image.file`. Unset, the path starts with the text `null`;
  - `ocra2ia.pdf.image.compression.level` for a normal-quality JPEG rendering:
    `Float.valueOf(null)` at OcrService.java:563 throws a `NullPointerException` that the
    `catch (NumberFormatException)` does not catch;
  - the `ocra2ia.result.*` keys under which decoded fields are stored, the address sub-keys
    `ocra2ia.result.address.*` included (`OcrProperties.ResultKeys`, one string each).
    Unset, `getProperty` returns null. `HashMap.put(null, …)` then stores each such field under
    one shared null key, where the last write wins. The schema lemmas state the case in which
    the keys differ where they must.
- EngineSession.PerformOcr: requires the image to have a format, and a path in File mode. Every
  caller in the plugin meets this: `setValueImageExtensionAndContent` always sets the format,
  and `writeImageFile` always records the path.
- TempFiles.WriteImageFile: requires the image to have a format, for the same reason. The
  file name of an image without one (`"null"` as its extension) is not modelled.
- **Transcripts.** The transcripts returned by the methods are ghost values. They record what
  the engine was asked, and the compiled methods do not keep them.
