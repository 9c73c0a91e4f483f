/** `OcrService.proceed`: check the arguments, normalise the image, run a recognition session on
    it, drop blank fields, and retry a PDF that gave nothing with a high-quality JPEG rendering. */
module OcrService {
  import opened Wrappers
  import opened Text
  import opened Jacob
  import opened OcrConstants
  import opened OcrException
  import opened OcrProperties
  import opened OcrResultUtils
  import opened A2iaEngine
  import opened ImageNormalizer
  import opened TempFiles
  import opened EngineSession

  /** `values().removeIf(StringUtils::isBlank)`: the fields whose value is not blank. */
  function StripBlank(m: map<string, string>): (r: map<string, string>)
    ensures forall k :: k in r <==> k in m && !IsBlank(m[k])
    ensures forall k :: k in r ==> r[k] == m[k]
  {
    map k | k in m && !IsBlank(m[k]) :: m[k]
  }

  /** The retry is wanted when `ocra2ia.pdf.image.retry` is set, nothing non-blank was found, and
      the document is a PDF, ignoring case. */
  predicate RetryWanted(config: Config, found: map<string, string>, extension: string) {
    config.pdfImageRetry.GetOr(false) && |found| == 0 && EqualsIgnoreCase(EXTENSION_FILE_PDF, extension)
  }

  /** The map the caller receives. After the first recognition a null map from `performOcr` would
      make `removeIf` throw a `NullPointerException`. The retry's map is returned as it is, and
      `performOcr` never returns null (`OcrRunNeverNull`), so the null case never arises there. */
  function Found(r: Result<Option<map<string, string>>, OcrError>): (f: Result<map<string, string>, OcrError>)
    ensures f.Ok? <==> r.Ok? && r.value.Some?
    ensures f.Ok? ==> f.value == r.value.value
    ensures r.Err? ==> f == Err(r.error)
  {
    match r
    case Err(e) => Err(e)
    case Ok(None) => Err(NullReference)
    case Ok(Some(m)) => Ok(m)
  }

  // ---------------------------------------------------------------------------------------
  // Reference definitions

  /** One recognition of an image with engine format `extension` and content `content`, after the
      exchanges `log`: in File mode the image is first written to the temporary file named by
      `stamp` (an image without content making the write throw), then `performOcr`. */
  function ImageRun(respond: (seq<Exchange>, Call) -> Reply, resultZones: int -> Zones, log: seq<Exchange>,
                    files: map<string, seq<byte>>, writeFails: string -> bool, deleteFails: string -> bool,
                    extension: string, content: Option<seq<byte>>, documentType: string, config: Config,
                    stamp: string, coerce: Coercion, finishesInTime: seq<byte> -> bool): Session {
    if !FileMode(config) then
      OcrRun(respond, resultZones, log, documentType, config, extension, None, content, coerce, finishesInTime, files, deleteFails)
    else
      var path := TempImagePath(config.folderTmpImageFile, stamp, extension);
      match content
      case None => Session(Err(NullReference), [], files)
      case Some(bytes) =>
        if writeFails(path) then Session(Err(WriteImageFileError), [], files)
        else OcrRun(respond, resultZones, log, documentType, config, extension, Some(path), content, coerce, finishesInTime,
                    files[path := bytes], deleteFails)
  }

  /** What `proceed` returns, the exchanges it made with the engine, and the temporary files it
      leaves. */
  datatype Proceeded = Proceeded(result: Result<map<string, string>, OcrError>, exchanges: seq<Exchange>,
                                 files: map<string, seq<byte>>)

  /** `proceed`, after the exchanges `log`, on the temporary files `files`. `clsid` is empty when
      the service failed to initialise; `stamp` and `retryStamp` name the temporary files of the
      two recognitions. */
  function ProceedRun(respond: (seq<Exchange>, Call) -> Reply, resultZones: int -> Zones, log: seq<Exchange>,
                      files: map<string, seq<byte>>, writeFails: string -> bool, deleteFails: string -> bool,
                      clsid: string, content: seq<byte>, extension: string, documentType: string, config: Config,
                      ras: Rasteriser, stamp: string, retryStamp: string, coerce: Coercion,
                      finishesInTime: seq<byte> -> bool): Proceeded {
    if clsid == "" then Proceeded(Err(InitError), [], files)
    else if |content| == 0 || |extension| == 0 || |documentType| == 0 then Proceeded(Err(ParametersMandatory), [], files)
    else match NormalizedImage(extension, content, config, ras)
    case None => Proceeded(Err(FileExtensionTypeError(extension)), [], files)
    case Some(n) =>
      var first := ImageRun(respond, resultZones, log, files, writeFails, deleteFails, n.extension, n.content, documentType,
                            config, stamp, coerce, finishesInTime);
      match Found(first.result)
      case Err(e) => Proceeded(Err(e), first.exchanges, first.files)
      case Ok(m) =>
        var stripped := StripBlank(m);
        if !RetryWanted(config, stripped, extension) then Proceeded(Ok(stripped), first.exchanges, first.files)
        else match TransformPdfToImage(content, EXTENSION_FILE_JPEG, true, config, ras)
        case Err(PdfIOException) => Proceeded(Ok(stripped), first.exchanges, first.files)
        case Err(PdfTooManyPages) => Proceeded(Err(PdfNumberPagesError), first.exchanges, first.files)
        case Ok(jpeg) =>
          var second := ImageRun(respond, resultZones, log + first.exchanges, first.files, writeFails, deleteFails,
                                 EXTENSION_FILE_JPEG, Some(jpeg), documentType, config, retryStamp, coerce, finishesInTime);
          Proceeded(Found(second.result), first.exchanges + second.exchanges, second.files)
  }

  // ---------------------------------------------------------------------------------------
  // The methods

  /** The two steps `proceed` takes for each image: in File mode `writeImageFile`, then
      `performOcr`. */
  method RecogniseImage(engine: Engine, store: FileStore, image: ImageBean, documentType: string, config: Config,
                        stamp: string, coerce: Coercion, finishesInTime: seq<byte> -> bool)
    returns (r: Result<Option<map<string, string>>, OcrError>, ghost t: seq<Exchange>)
    requires image.extension.Some? && image.imagePath == None
    modifies engine, store, image
    ensures Session(r, t, store.files)
            == ImageRun(engine.respond, engine.resultZones, old(engine.log), old(store.files), store.writeFails,
                        store.deleteFails, old(image.extension.value), old(image.content), documentType, config, stamp,
                        coerce, finishesInTime)
    ensures engine.log == old(engine.log) + t
  {
    if FileMode(config) {
      var written := WriteImageFile(image, config, stamp, store);
      if written.Fail? {
        return Err(written.error), [];
      }
    }
    r, t := PerformOcr(engine, image, documentType, config, store, coerce, finishesInTime);
  }

  /** `proceed`. */
  method Proceed(engine: Engine, store: FileStore, clsid: string, content: seq<byte>, extension: string,
                 documentType: string, config: Config, ras: Rasteriser, stamp: string, retryStamp: string,
                 coerce: Coercion, finishesInTime: seq<byte> -> bool)
    returns (r: Result<map<string, string>, OcrError>, ghost t: seq<Exchange>)
    modifies engine, store
    ensures var p := ProceedRun(engine.respond, engine.resultZones, old(engine.log), old(store.files), store.writeFails,
                                store.deleteFails, clsid, content, extension, documentType, config, ras, stamp, retryStamp,
                                coerce, finishesInTime);
      r == p.result && t == p.exchanges && store.files == p.files
    ensures engine.log == old(engine.log) + t
  {
    t := [];
    if clsid == "" {
      return Err(InitError), t;
    }
    if |content| == 0 || |extension| == 0 || |documentType| == 0 {
      return Err(ParametersMandatory), t;
    }
    var normalized := SetValueImageExtensionAndContent(extension, content, config, ras);
    if normalized.Err? {
      return Err(normalized.error), t;
    }
    var image := normalized.value;
    var first;
    first, t := RecogniseImage(engine, store, image, documentType, config, stamp, coerce, finishesInTime);
    if Found(first).Err? {
      return Found(first), t;
    }
    var found := StripBlank(Found(first).value);
    if !RetryWanted(config, found, extension) {
      return Ok(found), t;
    }
    var retryImage := new ImageBean();
    var jpeg := TransformPdfToImage(content, EXTENSION_FILE_JPEG, true, config, ras);
    if jpeg == Err(PdfIOException) {
      return Ok(found), t;
    } else if jpeg.Err? {
      return Err(PdfNumberPagesError), t;
    }
    retryImage.content := Some(jpeg.value);
    retryImage.extension := Some(EXTENSION_FILE_JPEG);
    ghost var log0 := old(engine.log);
    var second;
    ghost var t2;
    second, t2 := RecogniseImage(engine, store, retryImage, documentType, config, retryStamp, coerce, finishesInTime);
    AppendAssoc(log0, t, t2);
    r, t := Found(second), t + t2;
  }
}
