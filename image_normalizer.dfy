/** Extension checking and PDF rasterisation: `setValueImageExtensionAndContent` and
    `transformPdfToImage` of `OcrService`. */
module ImageNormalizer {
  import opened Wrappers
  import opened Text
  import opened Jacob
  import opened OcrConstants
  import opened OcrProperties
  import opened OcrException

  /** `OcrService.ImageBean`: the image handed to the engine, its engine format name, and the
      temporary file holding it in File mode. A field never set is `None` (Java's null). */
  class ImageBean {
    var extension: Option<string>
    var content: Option<seq<byte>>
    var imagePath: Option<string>

    constructor ()
      ensures extension == None && content == None && imagePath == None
    {
      extension := None;
      content := None;
      imagePath := None;
    }
  }

  // ---------------------------------------------------------------------------------------
  // Rasterisation

  datatype ImageType = RGB | BINARY

  /** The JPEG quality passed to `ImageIOUtil.writeImage`: 1 for the high-quality profile, or the
      configured level (clamped into (0, 1], 1 when unreadable) for a normal JPEG. */
  datatype Compression = Maximum | Configured

  datatype RenderOptions = RenderOptions(dpi: int, imageType: ImageType, format: string, compression: Compression)

  /** The rendering options: the high-quality profile is 300 dpi, RGB, maximum quality; the normal
      profile takes the configured dpi (150 by default) and pixel mode (RGB unless "binary"), and
      the configured compression for JPEG only. */
  function RenderOptionsFor(format: string, optimal: bool, config: Config): (o: RenderOptions)
    ensures o.format == format
    ensures optimal ==> o.dpi == 300 && o.imageType == RGB && o.compression == Maximum
    ensures !optimal ==> o.dpi == config.pdfImageQuality.GetOr(150)
    ensures o.imageType == BINARY <==>
      !optimal && EqualsIgnoreCase(IMAGE_TYPE_BINARY, config.pdfImageType.GetOr(IMAGE_TYPE_RGB))
    ensures o.compression == Configured <==> !optimal && EqualsIgnoreCase(EXTENSION_FILE_JPEG, format)
  {
    if optimal then RenderOptions(300, RGB, format, Maximum)
    else
      var imageType := if EqualsIgnoreCase(IMAGE_TYPE_BINARY, config.pdfImageType.GetOr(IMAGE_TYPE_RGB)) then BINARY else RGB;
      var compression := if EqualsIgnoreCase(EXTENSION_FILE_JPEG, format) then Configured else Maximum;
      RenderOptions(config.pdfImageQuality.GetOr(150), imageType, format, compression)
  }

  /** PDFBox and ImageIO: the page count of a loadable PDF, and the bytes of its first page
      rendered with the given options. `None` is an `IOException`. */
  datatype Rasteriser = Rasteriser(
    pageCount: seq<byte> -> Option<nat>,
    render: (seq<byte>, RenderOptions) -> Option<seq<byte>>)

  /** The two ways `transformPdfToImage` fails. */
  datatype PdfFailure = PdfIOException | PdfTooManyPages

  /** `transformPdfToImage`: load the PDF, refuse more than one page, render the first page. */
  function TransformPdfToImage(pdf: seq<byte>, format: string, optimal: bool, config: Config, ras: Rasteriser): (r: Result<seq<byte>, PdfFailure>)
    ensures r == Err(PdfTooManyPages) <==> ras.pageCount(pdf).Some? && ras.pageCount(pdf).value > 1
    ensures r.Ok? ==> ras.render(pdf, RenderOptionsFor(format, optimal, config)) == Some(r.value)
    ensures r.Ok? <==> ras.pageCount(pdf).Some? && ras.pageCount(pdf).value <= 1
                       && ras.render(pdf, RenderOptionsFor(format, optimal, config)).Some?
  {
    match ras.pageCount(pdf)
    case None => Err(PdfIOException)
    case Some(pages) =>
      if pages > 1 then Err(PdfTooManyPages)
      else
        match ras.render(pdf, RenderOptionsFor(format, optimal, config))
        case None => Err(PdfIOException)
        case Some(image) => Ok(image)
  }

  /** The format a PDF is rasterised to: Png when so configured, ignoring case, and Jpeg otherwise
      (a missing property included). */
  function PdfImageFormat(config: Config): (f: string)
    ensures f == EXTENSION_FILE_PNG || f == EXTENSION_FILE_JPEG
    ensures f == EXTENSION_FILE_PNG <==> config.pdfImageFormat.Some? && EqualsIgnoreCase(EXTENSION_FILE_PNG, config.pdfImageFormat.value)
  {
    if config.pdfImageFormat.Some? && EqualsIgnoreCase(EXTENSION_FILE_PNG, config.pdfImageFormat.value) then EXTENSION_FILE_PNG
    else EXTENSION_FILE_JPEG
  }

  // ---------------------------------------------------------------------------------------
  // Normalisation

  /** What normalisation leaves in the image: its engine format name and, unless rasterisation
      failed, its content. */
  datatype Normalized = Normalized(extension: string, content: Option<seq<byte>>)

  /** The engine spelling of an image extension, for the five image formats (JPG becoming Jpeg):
      always one of the four constants, and none for any other extension. */
  function ImageFormatName(ext: string): (f: Option<string>)
    ensures f.Some? ==> EqualsIgnoreCase(f.value, ext) || (f.value == EXTENSION_FILE_JPEG && EqualsIgnoreCase(EXTENSION_FILE_JPG, ext))
    ensures f.Some? <==> EqualsIgnoreCase(EXTENSION_FILE_TIFF, ext) || EqualsIgnoreCase(EXTENSION_FILE_JPEG, ext)
                         || EqualsIgnoreCase(EXTENSION_FILE_JPG, ext) || EqualsIgnoreCase(EXTENSION_FILE_BMP, ext)
                         || EqualsIgnoreCase(EXTENSION_FILE_PNG, ext)
    ensures f.Some? ==> f.value in {EXTENSION_FILE_TIFF, EXTENSION_FILE_JPEG, EXTENSION_FILE_BMP, EXTENSION_FILE_PNG}
  {
    if EqualsIgnoreCase(EXTENSION_FILE_TIFF, ext) then Some(EXTENSION_FILE_TIFF)
    else if EqualsIgnoreCase(EXTENSION_FILE_JPEG, ext) || EqualsIgnoreCase(EXTENSION_FILE_JPG, ext) then Some(EXTENSION_FILE_JPEG)
    else if EqualsIgnoreCase(EXTENSION_FILE_BMP, ext) then Some(EXTENSION_FILE_BMP)
    else if EqualsIgnoreCase(EXTENSION_FILE_PNG, ext) then Some(EXTENSION_FILE_PNG)
    else None
  }

  /** What one matching allow-list entry does to the image; `None` when the extension is none of
      the six formats, so that the entry changes nothing. A failed rasterisation is swallowed:
      the format is set and the content is not. */
  function Recognise(ext: string, content: seq<byte>, config: Config, ras: Rasteriser): Option<Normalized> {
    match ImageFormatName(ext)
    case Some(name) => Some(Normalized(name, Some(content)))
    case None =>
      if EqualsIgnoreCase(EXTENSION_FILE_PDF, ext) then
        var format := PdfImageFormat(config);
        Some(Normalized(format, TransformPdfToImage(content, format, false, config, ras).ToOption()))
      else None
  }

  /** `Recognise` in the terms of the branches of `setValueImageExtensionAndContent`. */
  lemma RecogniseBranches(ext: string, content: seq<byte>, config: Config, ras: Rasteriser)
    ensures var e := Recognise(ext, content, config, ras);
      var tiff, jpeg := EqualsIgnoreCase(EXTENSION_FILE_TIFF, ext),
                        EqualsIgnoreCase(EXTENSION_FILE_JPEG, ext) || EqualsIgnoreCase(EXTENSION_FILE_JPG, ext);
      var bmp, png := EqualsIgnoreCase(EXTENSION_FILE_BMP, ext), EqualsIgnoreCase(EXTENSION_FILE_PNG, ext);
      var pdf := EqualsIgnoreCase(EXTENSION_FILE_PDF, ext);
      (tiff ==> e == Some(Normalized(EXTENSION_FILE_TIFF, Some(content))))
      && (!tiff && jpeg ==> e == Some(Normalized(EXTENSION_FILE_JPEG, Some(content))))
      && (!tiff && !jpeg && bmp ==> e == Some(Normalized(EXTENSION_FILE_BMP, Some(content))))
      && (!tiff && !jpeg && !bmp && png ==> e == Some(Normalized(EXTENSION_FILE_PNG, Some(content))))
      && (!tiff && !jpeg && !bmp && !png && pdf ==>
            e == Some(Normalized(PdfImageFormat(config),
                                 TransformPdfToImage(content, PdfImageFormat(config), false, config, ras).ToOption())))
      && (!tiff && !jpeg && !bmp && !png && !pdf ==> e == None)
  {
  }

  /** Some entry of the allow-list equals the extension, ignoring case. */
  predicate Authorized(allow: seq<string>, ext: string) {
    exists i :: 0 <= i < |allow| && EqualsIgnoreCase(allow[i], ext)
  }

  /** The comma-separated allow-list, split as `String.split(",")` does. */
  function AllowList(config: Config): seq<string> {
    JavaSplit(config.extensionFileAuthorized, ',')
  }

  /** The normalised image, or `None` when the extension is refused. */
  function NormalizedImage(ext: string, content: seq<byte>, config: Config, ras: Rasteriser): (n: Option<Normalized>)
    ensures n.Some? <==> Authorized(AllowList(config), ext) && Recognise(ext, content, config, ras).Some?
  {
    if Authorized(AllowList(config), ext) then Recognise(ext, content, config, ras) else None
  }

  /** `setValueImageExtensionAndContent`: every allow-list entry equal to the extension applies the
      branch of that extension to a fresh image; an image left without a format is refused with
      the offending extension. */
  method SetValueImageExtensionAndContent(ext: string, content: seq<byte>, config: Config, ras: Rasteriser)
    returns (r: Result<ImageBean, OcrError>)
    ensures match NormalizedImage(ext, content, config, ras)
      case None => r == Err(FileExtensionTypeError(ext))
      case Some(n) => r.Ok? && fresh(r.value) && r.value.extension == Some(n.extension)
                      && r.value.content == n.content && r.value.imagePath == None
  {
    var result := new ImageBean();
    var allow := AllowList(config);
    var effect := Recognise(ext, content, config, ras);
    RecogniseBranches(ext, content, config, ras);
    for k := 0 to |allow|
      invariant result.imagePath == None
      invariant if Authorized(allow[..k], ext) && effect.Some?
        then result.extension == Some(effect.value.extension) && result.content == effect.value.content
        else result.extension == None && result.content == None
    {
      var extension := allow[k];
      if EqualsIgnoreCase(extension, ext) && EqualsIgnoreCase(EXTENSION_FILE_TIFF, ext) {
        result.content := Some(content);
        result.extension := Some(EXTENSION_FILE_TIFF);
      } else if EqualsIgnoreCase(extension, ext) && (EqualsIgnoreCase(EXTENSION_FILE_JPEG, ext) || EqualsIgnoreCase(EXTENSION_FILE_JPG, ext)) {
        result.content := Some(content);
        result.extension := Some(EXTENSION_FILE_JPEG);
      } else if EqualsIgnoreCase(extension, ext) && EqualsIgnoreCase(EXTENSION_FILE_BMP, ext) {
        result.content := Some(content);
        result.extension := Some(EXTENSION_FILE_BMP);
      } else if EqualsIgnoreCase(extension, ext) && EqualsIgnoreCase(EXTENSION_FILE_PNG, ext) {
        result.content := Some(content);
        result.extension := Some(EXTENSION_FILE_PNG);
      } else if EqualsIgnoreCase(extension, ext) && EqualsIgnoreCase(EXTENSION_FILE_PDF, ext) {
        var strImageFormat := PdfImageFormat(config);
        var transformed := TransformPdfToImage(content, strImageFormat, false, config, ras);
        if transformed.Ok? {
          result.content := Some(transformed.value);
        }
        result.extension := Some(strImageFormat);
      }
      assert allow[..k + 1] == allow[..k] + [allow[k]];
      AuthorizedStep(allow[..k], allow[k], ext);
    }
    assert allow[..|allow|] == allow;
    if result.extension.None? {
      return Err(FileExtensionTypeError(ext));
    }
    return Ok(result);
  }

  lemma AuthorizedStep(allow: seq<string>, entry: string, ext: string)
    ensures Authorized(allow + [entry], ext) <==> Authorized(allow, ext) || EqualsIgnoreCase(entry, ext)
  {
    var all := allow + [entry];
    if EqualsIgnoreCase(entry, ext) {
      assert all[|allow|] == entry;
    }
    if Authorized(allow, ext) {
      var i :| 0 <= i < |allow| && EqualsIgnoreCase(allow[i], ext);
      assert all[i] == allow[i];
    }
    if Authorized(all, ext) && !EqualsIgnoreCase(entry, ext) {
      var i :| 0 <= i < |all| && EqualsIgnoreCase(all[i], ext);
      assert i < |allow| && allow[i] == all[i];
    }
  }

  // ---------------------------------------------------------------------------------------
  // Properties

  /** An accepted image that is not a PDF keeps its bytes and gets its canonical format name. */
  lemma NonPdfKeepsContent(ext: string, content: seq<byte>, config: Config, ras: Rasteriser)
    requires Authorized(AllowList(config), ext) && ImageFormatName(ext).Some?
    ensures NormalizedImage(ext, content, config, ras) == Some(Normalized(ImageFormatName(ext).value, Some(content)))
  {
  }

  /** JPG and JPEG, in any case, are the same format to the engine. */
  lemma JpgIsJpeg(ext: string, content: seq<byte>, config: Config, ras: Rasteriser)
    requires EqualsIgnoreCase(EXTENSION_FILE_JPG, ext) && Authorized(AllowList(config), ext)
    ensures NormalizedImage(ext, content, config, ras) == Some(Normalized(EXTENSION_FILE_JPEG, Some(content)))
  {
    assert !EqualsIgnoreCase(EXTENSION_FILE_TIFF, ext) by {
      assert ToLowerAscii(EXTENSION_FILE_TIFF[0]) != ToLowerAscii(ext[0]);
    }
  }

  /** A format the engine does not read is refused even when the allow-list names it. */
  lemma UnknownFormatRefused(ext: string, content: seq<byte>, config: Config, ras: Rasteriser)
    requires ImageFormatName(ext).None? && !EqualsIgnoreCase(EXTENSION_FILE_PDF, ext)
    ensures NormalizedImage(ext, content, config, ras) == None
  {
  }

  /** An accepted single-page PDF becomes its rendered first page in the configured format; a
      PDF that cannot be rasterised, a multi-page one included, keeps its format and loses its
      content. */
  lemma PdfIsRasterised(ext: string, content: seq<byte>, config: Config, ras: Rasteriser)
    requires EqualsIgnoreCase(EXTENSION_FILE_PDF, ext) && Authorized(AllowList(config), ext)
    ensures var n := NormalizedImage(ext, content, config, ras);
      n.Some? && n.value.extension == PdfImageFormat(config)
      && (n.value.content.Some? <==>
            TransformPdfToImage(content, PdfImageFormat(config), false, config, ras).Ok?)
      && (ras.pageCount(content).Some? && ras.pageCount(content).value > 1 ==> n.value.content == None)
  {
    assert ImageFormatName(ext) == None by {
      assert ToLowerAscii(ext[0]) == 'p';
      assert ToLowerAscii(EXTENSION_FILE_PNG[1]) != ToLowerAscii(ext[1]);
    }
  }
}
