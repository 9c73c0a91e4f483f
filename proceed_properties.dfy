/** What `proceed` promises its callers: the argument checks come first and touch nothing, a
    multi-page PDF is never recognised, blank fields are dropped, and a successful call leaves
    no temporary file and no engine handle behind. */
module ProceedProperties {
  import opened Wrappers
  import opened Text
  import opened Jacob
  import opened OcrConstants
  import opened OcrException
  import opened OcrProperties
  import opened OcrResultUtils
  import opened A2iaEngine
  import opened ImageNormalizer
  import opened TempFiles
  import opened EngineSession
  import opened SessionProperties
  import opened OcrService

  /** `after` holds only files of `before`, with the same contents. */
  predicate Within(after: map<string, seq<byte>>, before: map<string, seq<byte>>) {
    forall p :: p in after ==> p in before && after[p] == before[p]
  }

  /** A recognition that succeeds removes the temporary image it wrote and closes what it
      opened; in Memory mode it touches no file. */
  lemma ImageRunTidy(respond: (seq<Exchange>, Call) -> Reply, resultZones: int -> Zones, log: seq<Exchange>,
                     files: map<string, seq<byte>>, writeFails: string -> bool, deleteFails: string -> bool,
                     extension: string, content: Option<seq<byte>>, documentType: string, config: Config,
                     stamp: string, coerce: Coercion, finishesInTime: seq<byte> -> bool,
                     channels: set<int>, requests: set<int>)
    ensures var s := ImageRun(respond, resultZones, log, files, writeFails, deleteFails, extension, content, documentType,
                              config, stamp, coerce, finishesInTime);
      (!FileMode(config) ==> s.files == files)
      && (s.result.Ok? ==>
            Within(s.files, files) && ChannelsAfterAll(channels, s.exchanges) <= channels
            && RequestsAfterAll(requests, s.exchanges) <= requests)
  {
    var imagePath: Option<string> := None;
    var sessionFiles := files;
    if FileMode(config) {
      if content.None? || writeFails(TempImagePath(config.folderTmpImageFile, stamp, extension)) {
        return;
      }
      imagePath := Some(TempImagePath(config.folderTmpImageFile, stamp, extension));
      sessionFiles := files[imagePath.value := content.value];
    }
    OcrRunTempFile(respond, resultZones, log, documentType, config, extension, imagePath, content, coerce, finishesInTime,
                   sessionFiles, deleteFails);
    OcrRunReleases(respond, resultZones, log, documentType, config, extension, imagePath, content, coerce, finishesInTime,
                   sessionFiles, deleteFails, channels, requests);
  }

  /** The checks of `proceed` come first, in order, and fail before any engine call or file
      write: an uninitialised service, then a missing argument, then an extension that is not
      authorised or not an image format. */
  lemma ProceedRejectsEarly(respond: (seq<Exchange>, Call) -> Reply, resultZones: int -> Zones, log: seq<Exchange>,
                            files: map<string, seq<byte>>, writeFails: string -> bool, deleteFails: string -> bool,
                            clsid: string, content: seq<byte>, extension: string, documentType: string, config: Config,
                            ras: Rasteriser, stamp: string, retryStamp: string, coerce: Coercion,
                            finishesInTime: seq<byte> -> bool)
    requires clsid == "" || |content| == 0 || |extension| == 0 || |documentType| == 0
             || NormalizedImage(extension, content, config, ras).None?
    ensures var p := ProceedRun(respond, resultZones, log, files, writeFails, deleteFails, clsid, content, extension,
                                documentType, config, ras, stamp, retryStamp, coerce, finishesInTime);
      p.exchanges == [] && p.files == files
      && p.result == Err(if clsid == "" then InitError
                         else if |content| == 0 || |extension| == 0 || |documentType| == 0 then ParametersMandatory
                         else FileExtensionTypeError(extension))
  {
  }

  /** A PDF of more than one page, of an authorised extension, is never recognised: its
      rasterisation fails and is swallowed, the image keeps no content, and the call fails on
      that missing content (or earlier, on the table lookup or an engine error). The page-count
      error the service defines never reaches the caller. */
  lemma MultiPagePdfFails(respond: (seq<Exchange>, Call) -> Reply, resultZones: int -> Zones, log: seq<Exchange>,
                          files: map<string, seq<byte>>, writeFails: string -> bool, deleteFails: string -> bool,
                          clsid: string, content: seq<byte>, extension: string, documentType: string, config: Config,
                          ras: Rasteriser, stamp: string, retryStamp: string, coerce: Coercion,
                          finishesInTime: seq<byte> -> bool)
    requires EqualsIgnoreCase(EXTENSION_FILE_PDF, extension) && Authorized(AllowList(config), extension)
    requires ras.pageCount(content).Some? && ras.pageCount(content).value > 1
    requires clsid != "" && |content| > 0 && |documentType| > 0
    ensures var p := ProceedRun(respond, resultZones, log, files, writeFails, deleteFails, clsid, content, extension,
                                documentType, config, ras, stamp, retryStamp, coerce, finishesInTime);
      p.result.Err? && p.result.error != PdfNumberPagesError
      && (p.result.error == NullReference || p.result.error == DocumentTypeError(documentType)
          || p.result.error.EngineCallFailed?)
  {
    PdfIsRasterised(extension, content, config, ras);
    var n := NormalizedImage(extension, content, config, ras).value;
    if !FileMode(config) {
      OcrRunWithoutContentFails(respond, resultZones, log, documentType, config, n.extension, None, coerce,
                                finishesInTime, files, deleteFails);
    }
  }

  /** Unless the PDF retry is configured and the document is a PDF, every field `proceed`
      returns has a non-blank value, and the fields are those the decoder found non-blank. */
  lemma ProceedDropsBlankFields(respond: (seq<Exchange>, Call) -> Reply, resultZones: int -> Zones, log: seq<Exchange>,
                                files: map<string, seq<byte>>, writeFails: string -> bool, deleteFails: string -> bool,
                                clsid: string, content: seq<byte>, extension: string, documentType: string,
                                config: Config, ras: Rasteriser, stamp: string, retryStamp: string, coerce: Coercion,
                                finishesInTime: seq<byte> -> bool)
    requires !(config.pdfImageRetry.GetOr(false) && EqualsIgnoreCase(EXTENSION_FILE_PDF, extension))
    ensures var p := ProceedRun(respond, resultZones, log, files, writeFails, deleteFails, clsid, content, extension,
                                documentType, config, ras, stamp, retryStamp, coerce, finishesInTime);
      p.result.Ok? ==>
        (forall k :: k in p.result.value ==> !IsBlank(p.result.value[k]))
        && NormalizedImage(extension, content, config, ras).Some?
        && var n := NormalizedImage(extension, content, config, ras).value;
           var first := ImageRun(respond, resultZones, log, files, writeFails, deleteFails, n.extension, n.content,
                                 documentType, config, stamp, coerce, finishesInTime);
           Found(first.result).Ok? && p.result.value == StripBlank(Found(first.result).value)
  {
    var p := ProceedRun(respond, resultZones, log, files, writeFails, deleteFails, clsid, content, extension,
                        documentType, config, ras, stamp, retryStamp, coerce, finishesInTime);
    if p.result.Ok? {
      var n := NormalizedImage(extension, content, config, ras).value;
      var first := ImageRun(respond, resultZones, log, files, writeFails, deleteFails, n.extension, n.content, documentType,
                            config, stamp, coerce, finishesInTime);
      var m := Found(first.result).value;
      assert p.result.value == StripBlank(m);
    }
  }

  /** The retry rule: a second recognition runs only when the first one succeeded with nothing
      non-blank, the retry is configured and the document is a PDF, and then on the first page
      rendered as a high-quality JPEG; its map is returned as the engine decoded it, blank fields
      included. Without the retry, or when the rendering raises an `IOException` (the only
      exception the retry catches), the stripped first map is returned. A multi-page PDF met by
      the retry ends with the page-count error. */
  lemma ProceedRetryRule(respond: (seq<Exchange>, Call) -> Reply, resultZones: int -> Zones, log: seq<Exchange>,
                         files: map<string, seq<byte>>, writeFails: string -> bool, deleteFails: string -> bool,
                         clsid: string, content: seq<byte>, extension: string, documentType: string, config: Config,
                         ras: Rasteriser, stamp: string, retryStamp: string, coerce: Coercion,
                         finishesInTime: seq<byte> -> bool)
    requires clsid != "" && |content| > 0 && |extension| > 0 && |documentType| > 0
    requires NormalizedImage(extension, content, config, ras).Some?
    ensures var n := NormalizedImage(extension, content, config, ras).value;
      var first := ImageRun(respond, resultZones, log, files, writeFails, deleteFails, n.extension, n.content, documentType,
                            config, stamp, coerce, finishesInTime);
      var p := ProceedRun(respond, resultZones, log, files, writeFails, deleteFails, clsid, content, extension,
                          documentType, config, ras, stamp, retryStamp, coerce, finishesInTime);
      var jpeg := TransformPdfToImage(content, EXTENSION_FILE_JPEG, true, config, ras);
      var retried := Found(first.result).Ok? && RetryWanted(config, StripBlank(Found(first.result).value), extension);
      (|p.exchanges| > |first.exchanges| ==> retried && jpeg.Ok?)
      && (Found(first.result).Err? ==> p == Proceeded(Found(first.result), first.exchanges, first.files))
      && (Found(first.result).Ok? && !retried ==>
            p == Proceeded(Ok(StripBlank(Found(first.result).value)), first.exchanges, first.files))
      && (retried && jpeg == Err(PdfIOException) ==>
            p == Proceeded(Ok(StripBlank(Found(first.result).value)), first.exchanges, first.files))
      && (retried && jpeg == Err(PdfTooManyPages) ==>
            p == Proceeded(Err(PdfNumberPagesError), first.exchanges, first.files))
      && (retried && jpeg.Ok? ==>
            jpeg.value == ras.render(content, RenderOptions(300, RGB, EXTENSION_FILE_JPEG, Maximum)).value
            && var second := ImageRun(respond, resultZones, log + first.exchanges, first.files, writeFails, deleteFails,
                                      EXTENSION_FILE_JPEG, Some(jpeg.value), documentType, config, retryStamp, coerce,
                                      finishesInTime);
               p == Proceeded(Found(second.result), first.exchanges + second.exchanges, second.files))
  {
  }

  /** A successful `proceed` leaves no temporary image behind and changes no other file (in
      Memory mode it touches none), and every channel and request it opened on the engine is
      closed again, the retry's included. */
  lemma ProceedIsTidy(respond: (seq<Exchange>, Call) -> Reply, resultZones: int -> Zones, log: seq<Exchange>,
                      files: map<string, seq<byte>>, writeFails: string -> bool, deleteFails: string -> bool,
                      clsid: string, content: seq<byte>, extension: string, documentType: string, config: Config,
                      ras: Rasteriser, stamp: string, retryStamp: string, coerce: Coercion,
                      finishesInTime: seq<byte> -> bool, channels: set<int>, requests: set<int>)
    ensures var p := ProceedRun(respond, resultZones, log, files, writeFails, deleteFails, clsid, content, extension,
                                documentType, config, ras, stamp, retryStamp, coerce, finishesInTime);
      (!FileMode(config) ==> p.files == files)
      && (p.result.Ok? ==>
            Within(p.files, files) && ChannelsAfterAll(channels, p.exchanges) <= channels
            && RequestsAfterAll(requests, p.exchanges) <= requests)
  {
    if clsid == "" || |content| == 0 || |extension| == 0 || |documentType| == 0
       || NormalizedImage(extension, content, config, ras).None? {
      return;
    }
    var n := NormalizedImage(extension, content, config, ras).value;
    var first := ImageRun(respond, resultZones, log, files, writeFails, deleteFails, n.extension, n.content, documentType,
                          config, stamp, coerce, finishesInTime);
    ImageRunTidy(respond, resultZones, log, files, writeFails, deleteFails, n.extension, n.content, documentType,
                 config, stamp, coerce, finishesInTime, channels, requests);
    if Found(first.result).Err? {
      return;
    }
    var stripped := StripBlank(Found(first.result).value);
    if !RetryWanted(config, stripped, extension) {
      return;
    }
    var jpeg := TransformPdfToImage(content, EXTENSION_FILE_JPEG, true, config, ras);
    if jpeg.Err? {
      return;
    }
    var channels1 := ChannelsAfterAll(channels, first.exchanges);
    var requests1 := RequestsAfterAll(requests, first.exchanges);
    var second := ImageRun(respond, resultZones, log + first.exchanges, first.files, writeFails, deleteFails,
                           EXTENSION_FILE_JPEG, Some(jpeg.value), documentType, config, retryStamp, coerce, finishesInTime);
    ImageRunTidy(respond, resultZones, log + first.exchanges, first.files, writeFails, deleteFails, EXTENSION_FILE_JPEG,
                 Some(jpeg.value), documentType, config, retryStamp, coerce, finishesInTime, channels1, requests1);
    AfterAllAppend(channels, requests, first.exchanges, second.exchanges);
  }
}
