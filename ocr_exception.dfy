/** What `proceed` can throw. Each `OcrException` message key, and the unchecked exceptions
    that escape the plugin, is one constructor. */
module OcrException {

  datatype OcrError =
    | InitError                              // ocra2ia.message.error.init.ocr
    | ParametersMandatory                    // ocra2ia.message.error.parameters.mandatory
    | DocumentTypeError(documentType: string) // ocra2ia.message.error.documentType, with the type
    | FileExtensionTypeError(extension: string) // ocra2ia.message.error.fileextension, with the extension
    | PdfNumberPagesError                    // ocra2ia.message.error.pdfnumberpages
    | TimeoutTransformImage                  // ocra2ia.message.error.timeout.image
    | WriteImageFileError                    // "Error write image file !"
    | DeleteFileError(path: string)          // the IOException of Files.delete
    | EngineCallFailed(message: string)      // a Dispatch.call the engine answered with an error
    | NotAnInt(zone: string)                 // Variant.getInt on a variant that is no integer
    | NullReference                          // a NullPointerException
}
