/** The service form's values and the shared validation schema used by the
    edit page. The schema's limits (largest file, accepted types, most files)
    come from a constants module that is not part of this model, so they are
    a parameter here. */
module ServiceSchema {
  import opened Util

  /** A browser `File`, reduced to what the rules read. */
  datatype File = File(name: string, size: nat, mimeType: string)

  /** The price field's raw value: a number, or the text of the input. */
  datatype PricingInput = PriceNumber(n: int) | PriceText(text: string)

  /** The form's fields; `media` is `None` when undefined. */
  datatype ServiceForm = ServiceForm(
    name: string, category: string, description: string,
    pricingType: string, pricing: PricingInput, media: Option<seq<File>>,
    location: string, tags: seq<string>)

  datatype Limits = Limits(maxFileSize: nat, acceptedTypes: seq<string>, maxCount: nat)

  /** `z.coerce.number()`: a number is kept; a text goes through `Number`,
      so a blank text is 0 and a signed decimal text is its value. Every
      other text yields `None` and is treated as not a valid number. */
  function CoerceNumber(p: PricingInput): (r: Option<int>)
    ensures p.PriceNumber? ==> r == Some(p.n)
    ensures p.PriceText? ==> r == JsNumber(p.text)
    ensures p.PriceText? && p.text == "" ==> r == Some(0)
  {
    match p
    case PriceNumber(n) => Some(n)
    case PriceText(t) => JsNumber(t)
  }

  /** A price typed as the decimal text of `n` coerces back to `n`. */
  lemma CoercePrintedPrice(n: nat)
    ensures CoerceNumber(PriceText(NatToString(n))) == Some(n)
  {
    NatToStringRoundTrip(n);
    JsNumberDigits(NatToString(n));
  }

  /** `z.string().min(1)`: at least one UTF-16 code unit. */
  predicate NonEmpty(s: string) { Utf16Length(s) >= 1 }

  /** `z.enum(["fixed", "hourly"])`. */
  predicate PricingTypeOk(t: string) { t == "fixed" || t == "hourly" }

  /** The coerced price is a number of at least 1. */
  predicate PricingOk(p: PricingInput) {
    CoerceNumber(p).Some? && CoerceNumber(p).value >= 1
  }

  predicate FileOk(f: File, lim: Limits) {
    f.size <= lim.maxFileSize && f.mimeType in lim.acceptedTypes
  }

  /** `files?.every(...)`: an undefined list yields `undefined`, which fails. */
  predicate EveryFileOk(media: Option<seq<File>>, lim: Limits) {
    media.Some? && forall i :: 0 <= i < |media.value| ==> FileOk(media.value[i], lim)
  }

  /** Name, category, description and location are non-empty; the pricing
      type is one of the two; the price coerces to at least 1. */
  predicate FieldsOk(f: ServiceForm) {
    NonEmpty(f.name) && NonEmpty(f.category) && NonEmpty(f.description) && NonEmpty(f.location)
    && PricingTypeOk(f.pricingType) && PricingOk(f.pricing)
  }

  /** Every rule except the file-count refinement; tags may be any list. */
  predicate FieldsAndFilesOk(f: ServiceForm, lim: Limits) {
    FieldsOk(f) && EveryFileOk(f.media, lim)
  }

  /** The count refinement as written: `files && files.length > MAX`. */
  predicate CountAsWritten(media: Option<seq<File>>, lim: Limits) {
    media.Some? && |media.value| > lim.maxCount
  }

  /** The count refinement its message describes: at most `MAX` files. */
  predicate CountIntended(media: Option<seq<File>>, lim: Limits) {
    media.None? || |media.value| <= lim.maxCount
  }

  predicate SchemaAsWritten(f: ServiceForm, lim: Limits) {
    FieldsAndFilesOk(f, lim) && CountAsWritten(f.media, lim)
  }

  /** The schema with the count refinement corrected. */
  predicate Schema(f: ServiceForm, lim: Limits) {
    FieldsAndFilesOk(f, lim) && CountIntended(f.media, lim)
  }

  /** As written, a form passes only with MORE than the maximum number of
      files: an undefined, empty or within-limit list always fails. */
  lemma AsWrittenNeedsTooManyFiles(f: ServiceForm, lim: Limits)
    ensures SchemaAsWritten(f, lim) <==>
              FieldsOk(f) && f.media.Some? && |f.media.value| > lim.maxCount
              && forall i :: 0 <= i < |f.media.value| ==> FileOk(f.media.value[i], lim)
    ensures f.media.None? || |f.media.value| <= lim.maxCount ==> !SchemaAsWritten(f, lim)
  {
  }

  /** A concrete form that the corrected schema accepts and the written one
      rejects: all text fields filled, price 1, no files. */
  const ExampleForm: ServiceForm :=
    ServiceForm("Plumbing", "Home", "Fixing pipes", "fixed", PriceNumber(1), Some([]), "Berlin", [])

  lemma AsWrittenRejectsExample(lim: Limits)
    ensures Schema(ExampleForm, lim)
    ensures !SchemaAsWritten(ExampleForm, lim)
  {
  }

  /** The corrected schema: the media list is defined, every file is within
      the size limit and of an accepted type, and there are at most `MAX`. */
  lemma SchemaMeaning(f: ServiceForm, lim: Limits)
    ensures Schema(f, lim) <==>
              FieldsOk(f) && f.media.Some? && |f.media.value| <= lim.maxCount
              && forall i :: 0 <= i < |f.media.value| ==> FileOk(f.media.value[i], lim)
  {
  }

  /** Removing a file (as `splice(index, 1)` does) keeps a valid form valid. */
  lemma {:induction false} SchemaKeptByRemoval(f: ServiceForm, lim: Limits, index: int)
    requires Schema(f, lim)
    ensures Schema(f.(media := Some(SpliceOne(f.media.value, index))), lim)
  {
    var s := f.media.value;
    var k := SpliceStart(|s|, index);
    if k < |s| {
      var r := SpliceOne(s, index);
      assert r == s[..k] + s[k + 1..];
      forall i | 0 <= i < |r| ensures FileOk(r[i], lim) {
        if i < k { assert r[i] == s[i]; } else { assert r[i] == s[i + 1]; }
      }
    }
  }
}
