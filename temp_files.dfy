/** The temporary image file of File mode: `writeImageFile`, and the file system it writes to. */
module TempFiles {
  import opened Wrappers
  import opened Jacob
  import opened OcrProperties
  import opened OcrException
  import opened ImageNormalizer

  /** The directory of temporary images. Which writes and deletions fail with an `IOException`
      is a parameter; deleting a file that does not exist always fails. */
  class FileStore {
    const writeFails: string -> bool
    const deleteFails: string -> bool
    var files: map<string, seq<byte>>

    constructor (writeFails: string -> bool, deleteFails: string -> bool, files: map<string, seq<byte>>)
      ensures this.writeFails == writeFails && this.deleteFails == deleteFails && this.files == files
    {
      this.writeFails := writeFails;
      this.deleteFails := deleteFails;
      this.files := files;
    }

    /** `Files.write`: creates or replaces the file, unless the write fails. */
    method Write(path: string, content: seq<byte>) returns (ok: bool)
      modifies this
      ensures ok == !writeFails(path)
      ensures files == if ok then old(files)[path := content] else old(files)
    {
      ok := !writeFails(path);
      if ok {
        files := files[path := content];
      }
    }

    /** `Files.delete`: removes an existing file, unless the deletion fails. */
    method Delete(path: string) returns (ok: bool)
      modifies this
      ensures ok == (path in old(files) && !deleteFails(path))
      ensures files == if ok then old(files) - {path} else old(files)
    {
      ok := path in files && !deleteFails(path);
      if ok {
        files := files - {path};
      }
    }
  }

  /** The name of a temporary image: `tmp_<stamp>.<extension>` in the configured folder, where the
      stamp stands for the clock reading and the three random letters the code draws. */
  function TempImagePath(folder: string, stamp: string, extension: string): string {
    folder + "tmp_" + stamp + "." + extension
  }

  /** `writeImageFile`: writes the image to a new temporary file and records its path in the
      image. An image without content (a PDF that could not be rasterised) makes `Files.write`
      throw a `NullPointerException`; a failed write is reported as such. */
  method WriteImageFile(image: ImageBean, config: Config, stamp: string, store: FileStore) returns (r: Outcome<OcrError>)
    requires image.extension.Some?
    modifies image, store
    ensures var path := TempImagePath(config.folderTmpImageFile, stamp, old(image.extension.value));
      match old(image.content)
      case None => r == Fail(NullReference) && store.files == old(store.files) && image.imagePath == old(image.imagePath)
      case Some(bytes) =>
        (r == Pass <==> !store.writeFails(path))
        && (r.Fail? ==> r.error == WriteImageFileError && store.files == old(store.files) && image.imagePath == old(image.imagePath))
        && (r == Pass ==> store.files == old(store.files)[path := bytes] && image.imagePath == Some(path))
    ensures image.extension == old(image.extension) && image.content == old(image.content)
  {
    var path := TempImagePath(config.folderTmpImageFile, stamp, image.extension.value);
    if image.content.None? {
      return Fail(NullReference);
    }
    var ok := store.Write(path, image.content.value);
    if !ok {
      return Fail(WriteImageFileError);
    }
    image.imagePath := Some(path);
    return Pass;
  }
}
