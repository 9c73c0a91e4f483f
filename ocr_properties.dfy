/** The configuration the plugin reads from its properties file. A property read with a default
    (`getProperty(key, default)`, `getPropertyInt`, `getPropertyBoolean`) is an `Option`, `None`
    standing for a missing or unreadable value; the default is applied where the code applies it. */
module OcrProperties {
  import opened Wrappers
  import opened Text

  /** ocra2ia.document.rib / .tax / .identity: the accepted spellings of the three document types. */
  datatype DocumentTypes = DocumentTypes(rib: Option<string>, tax: Option<string>, identity: Option<string>)

  /** ocra2ia.result.*: the keys under which decoded fields are stored. */
  datatype ResultKeys = ResultKeys(
    ribResult: string, ribCodeBanque: string, ribCodeGuichet: string, ribNumeroCompte: string,
    ribCle: string, ribIban: string, ribBic: string, ribAddress: string,
    taxAddress: string, taxDate: string, taxAmount: string,
    identityFirstName: string, identityLastName: string, identityBirthDate: string,
    identityBirthPlace: string, identityExpirationDate: string, identityIssueDate: string,
    identityGender: string, identityNationality: string, identityIdNumber: string,
    addressName: string, addressDestination: string, addressPhone: string, addressCityZip: string)

  datatype Config = Config(
    documentTypes: DocumentTypes,
    tblRib: string, tblTax: string, tblIdentity: string,   // ocra2ia.tbl.*
    extensionFileAuthorized: string,                        // ocra2ia.extension.file, comma separated
    modeOcr: Option<string>,                                // ocra2ia.mode.ocr, default "Memory"
    serverHost: Option<string>, serverPort: Option<string>, // ocra2ia.server.host / .port, default ""
    paramDir: string,                                       // ocra2ia.param.dir
    pdfImageFormat: Option<string>,                         // ocra2ia.pdf.image.format, no default
    pdfImageQuality: Option<int>,                           // ocra2ia.pdf.image.quality, default 150
    pdfImageType: Option<string>,                           // ocra2ia.pdf.image.type, default "rgb"
    pdfImageRetry: Option<bool>,                            // ocra2ia.pdf.image.retry, default false
    numberOfByteBySingleThread: Option<int>,                // ocra2ia.number.byte.single.thread, default the image length
    folderTmpImageFile: string,                             // ocra2ia.folder.tmp.image.file
    resultKeys: ResultKeys)

  /** `documentType.equalsIgnoreCase(configured)`; a missing property (null) matches nothing. */
  predicate IsDocumentType(documentType: string, configured: Option<string>) {
    configured.Some? && EqualsIgnoreCase(documentType, configured.value)
  }
}
