/** The literal values of `OcrConstants` that the modelled code uses. */
module OcrConstants {

  // engine names of the image formats
  const EXTENSION_FILE_TIFF: string := "Tiff"
  const EXTENSION_FILE_BMP: string := "Bmp"
  const EXTENSION_FILE_JPEG: string := "Jpeg"
  const EXTENSION_FILE_JPG: string := "Jpg"
  const EXTENSION_FILE_PNG: string := "Png"
  const EXTENSION_FILE_PDF: string := "Pdf"

  // rasterisation pixel modes and transfer modes
  const IMAGE_TYPE_RGB: string := "rgb"
  const IMAGE_TYPE_BINARY: string := "binary"
  const OCR_MODE_FILE: string := "File"
  const OCR_MODE_MEMORY: string := "Memory"

  // output zones of a RIB
  const OUTPUT_ZONE_RIB: string := "documentTypeInfo.CaseSpecific.specificOutput.subTypeInfo.CaseRIB.RIB.result.reco"
  const OUTPUT_ZONE_RIB_CODE_BANQUE: string := "documentTypeInfo.CaseSpecific.specificOutput.subTypeInfo.CaseRIB.RIB.codeBanque.reco"
  const OUTPUT_ZONE_RIB_CODE_GUICHET: string := "documentTypeInfo.CaseSpecific.specificOutput.subTypeInfo.CaseRIB.RIB.codeGuichet.reco"
  const OUTPUT_ZONE_RIB_N_COMPTE: string := "documentTypeInfo.CaseSpecific.specificOutput.subTypeInfo.CaseRIB.RIB.numeroDeCompte.reco"
  const OUTPUT_ZONE_RIB_CLE: string := "documentTypeInfo.CaseSpecific.specificOutput.subTypeInfo.CaseRIB.RIB.cle.reco"
  const OUTPUT_ZONE_RIB_IBAN: string := "documentTypeInfo.CaseSpecific.specificOutput.subTypeInfo.CaseRIB.IBAN.reco"
  const OUTPUT_ZONE_RIB_BIC: string := "documentTypeInfo.CaseSpecific.specificOutput.subTypeInfo.CaseRIB.BIC.reco"
  const OUTPUT_ZONE_RIB_ADDRESS: string := "documentTypeInfo.CaseSpecific.specificOutput.subTypeInfo.CaseRIB.address.lines"

  // output zones of a tax assessment
  const OUTPUT_ZONE_TAX_ASSESSMENT_ADDRESS: string := "documentTypeInfo.CaseSpecific.specificOutput.subTypeInfo.CaseTaxAssessment.taxPayerAddress.address.lines"
  const OUTPUT_ZONE_TAX_ASSESSMENT_ESTABLISHED_DATE: string := "documentTypeInfo.CaseSpecific.specificOutput.subTypeInfo.CaseTaxAssessment.establishedDate.reco"
  const OUTPUT_ZONE_TAX_ASSESSMENT_TAX_AMOUNT: string := "documentTypeInfo.CaseSpecific.specificOutput.subTypeInfo.CaseTaxAssessment.taxAmount.reco"

  // output zones of an identity document
  const OUTPUT_ZONE_IDENTITY_FIRST_NAME: string := "documentTypeInfo.CaseSpecific.specificOutput.subTypeInfo.CaseIdentityDocument.identity.firstName.reco"
  const OUTPUT_ZONE_IDENTITY_LAST_NAME: string := "documentTypeInfo.CaseSpecific.specificOutput.subTypeInfo.CaseIdentityDocument.identity.lastName.reco"
  const OUTPUT_ZONE_IDENTITY_BIRTH_DATE: string := "documentTypeInfo.CaseSpecific.specificOutput.subTypeInfo.CaseIdentityDocument.identity.birthDate.reco"
  const OUTPUT_ZONE_IDENTITY_BIRTH_PLACE: string := "documentTypeInfo.CaseSpecific.specificOutput.subTypeInfo.CaseIdentityDocument.identity.placeOfBirth.reco"
  const OUTPUT_ZONE_IDENTITY_EXPIRATION_DATE: string := "documentTypeInfo.CaseSpecific.specificOutput.subTypeInfo.CaseIdentityDocument.identity.expirationDate.reco"
  const OUTPUT_ZONE_IDENTITY_ISSUE_DATE: string := "documentTypeInfo.CaseSpecific.specificOutput.subTypeInfo.CaseIdentityDocument.identity.issueDate.reco"
  const OUTPUT_ZONE_IDENTITY_GENDER: string := "documentTypeInfo.CaseSpecific.specificOutput.subTypeInfo.CaseIdentityDocument.identity.gender.reco"
  const OUTPUT_ZONE_IDENTITY_NATIONALITY: string := "documentTypeInfo.CaseSpecific.specificOutput.subTypeInfo.CaseIdentityDocument.identity.nationality.reco"
  const OUTPUT_ZONE_IDENTITY_ID_NUMBER: string := "documentTypeInfo.CaseSpecific.specificOutput.subTypeInfo.CaseIdentityDocument.identity.idNumber.reco"
  const OUTPUT_ZONE_IDENTITY_ADDRESS: string := "documentTypeInfo.CaseSpecific.specificOutput.subTypeInfo.CaseIdentityDocument.identity.address"

  // type tags of the lines of an address block
  const OUTPUT_ZONE_ADDRESS_NAME: string := "Name"
  const OUTPUT_ZONE_ADDRESS_DESTINATION: string := "Destination"
  const OUTPUT_ZONE_ADDRESS_PHONE_NUMBER: string := "PhoneNum"
  const OUTPUT_ZONE_ADDRESS_CITY_ZIP: string := "CityZip"
}
