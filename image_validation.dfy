/** src/lib/utils.ts: `validateImageFile`, the check an uploaded image goes through. */
module ImageValidation {
  import opened Wrappers

  /** `SUPPORTED_IMAGE_TYPES`. */
  const SupportedImageTypes: seq<string> := ["image/jpeg", "image/png", "image/webp"]

  /** `MAX_FILE_SIZE`: 10 MiB. */
  const MaxFileSize: nat := 10 * 1024 * 1024

  const UnsupportedType := "Unsupported file type. Please select a JPEG, PNG, or WebP image."
  const TooLarge := "File size too large. Please select an image smaller than 10MB."

  /** The two properties of a `File` the check reads. */
  datatype ImageFile = ImageFile(mimeType: string, size: nat)

  /** `FileValidationResult`: `error` is absent on a valid file. */
  datatype ValidationResult = ValidationResult(isValid: bool, error: Option<string>)

  /** The type is checked first, then the size; a file of exactly `MaxFileSize` bytes
      is accepted. A valid result carries no error and an invalid one always does. */
  function ValidateImageFile(file: ImageFile): (r: ValidationResult)
    ensures r.isValid <==> file.mimeType in SupportedImageTypes && file.size <= MaxFileSize
    ensures r.isValid <==> r.error.None?
    ensures file.mimeType !in SupportedImageTypes ==> r.error == Some(UnsupportedType)
    ensures file.mimeType in SupportedImageTypes && file.size > MaxFileSize ==>
      r.error == Some(TooLarge)
  {
    if file.mimeType !in SupportedImageTypes then ValidationResult(false, Some(UnsupportedType))
    else if file.size > MaxFileSize then ValidationResult(false, Some(TooLarge))
    else ValidationResult(true, None)
  }

  /** The types accepted are exactly JPEG, PNG and WebP. */
  lemma SupportedTypesAreExactly(t: string)
    ensures t in SupportedImageTypes <==> t == "image/jpeg" || t == "image/png" || t == "image/webp"
  {
  }

  /** The size bound is inclusive: one byte more is rejected. */
  lemma SizeBoundIsInclusive(t: string)
    requires t in SupportedImageTypes
    ensures ValidateImageFile(ImageFile(t, 10485760)).isValid
    ensures !ValidateImageFile(ImageFile(t, 10485761)).isValid
  {
  }

  /** An unsupported type is what is reported even for a file that is also too large. */
  lemma TypeReportedBeforeSize(file: ImageFile)
    requires file.mimeType !in SupportedImageTypes && file.size > MaxFileSize
    ensures ValidateImageFile(file).error == Some(UnsupportedType)
  {
  }
}
