/** The second client's add-service schema. Text fields are plain strings
    with no length rule, the price must already be a number, and `media` is
    checked as ONE value through optional chaining. */
module ClientAddService {
  import opened Util
  import opened ServiceSchema

  /** The value the media field holds: undefined, a single file, or
      anything else (which has no `size` or `type`). */
  datatype MediaValue = Undefined | OneFile(file: File) | OtherValue

  datatype ClientForm = ClientForm(
    name: string, category: string, description: string,
    pricingType: string, pricing: PricingInput, media: MediaValue,
    location: string, tags: seq<string>)

  const MaxFileSize: nat := 5000000
  const AcceptedImageTypes: seq<string> := ["image/jpeg", "image/jpg", "image/png", "image/webp"]

  /** `file?.size <= MAX_FILE_SIZE`: an undefined size compares false. */
  predicate SizeOk(m: MediaValue) {
    m.OneFile? && m.file.size <= MaxFileSize
  }

  /** `ACCEPTED_IMAGE_TYPES.includes(file?.type)`. */
  predicate TypeOk(m: MediaValue) {
    m.OneFile? && m.file.mimeType in AcceptedImageTypes
  }

  /** `z.number().min(1)`: no coercion, so a text price always fails. */
  predicate NumberOk(p: PricingInput) {
    p.PriceNumber? && p.n >= 1
  }

  predicate Schema(f: ClientForm) {
    PricingTypeOk(f.pricingType) && NumberOk(f.pricing) && SizeOk(f.media) && TypeOk(f.media)
  }

  /** `defaultValues`: empty texts, price 1, media undefined. */
  const DefaultForm: ClientForm := ClientForm("", "", "", "fixed", PriceNumber(1), Undefined, "", [])

  /** The schema passes iff the pricing type is one of the two, the price is
      a number of at least 1, and the media is one file within 5,000,000
      bytes of one of the four types; the text fields and tags never matter. */
  lemma SchemaMeaning(f: ClientForm)
    ensures Schema(f) <==>
              (f.pricingType == "fixed" || f.pricingType == "hourly")
              && f.pricing.PriceNumber? && f.pricing.n >= 1
              && f.media.OneFile? && f.media.file.size <= 5000000
              && f.media.file.mimeType in ["image/jpeg", "image/jpg", "image/png", "image/webp"]
  {
  }

  /** Any strings, the empty one included, can fill the text fields. */
  lemma TextFieldsUnchecked(f: ClientForm, name: string, category: string, description: string, location: string, tags: seq<string>)
    ensures Schema(f) <==>
              Schema(f.(name := name, category := category, description := description, location := location, tags := tags))
  {
  }

  /** The defaults fail on media alone; a text price fails where the shared
      schema's coercion would accept it. */
  lemma DefaultsAndTextPrice(f: ClientForm, n: nat)
    ensures !Schema(DefaultForm)
    ensures !Schema(DefaultForm.(media := OtherValue))
    ensures Schema(DefaultForm.(media := OneFile(File("a.png", 10, "image/png"))))
    ensures !Schema(f.(pricing := PriceText(NatToString(n))))
    ensures n >= 1 ==> PricingOk(PriceText(NatToString(n)))
  {
    CoercePrintedPrice(n);
  }
}
