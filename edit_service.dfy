/** The edit-service page: the same file handlers as the add page with the
    shared limit, loading a fetched service into the form, and the redirect
    on a missing service. The fetches of the media files are replaced by the
    blobs they return, given as a parameter, and the preview URLs the
    browser creates are a parameter too. */
module EditService {
  import opened Util
  import opened ServiceSchema
  import opened AddService

  datatype Tag = Tag(serviceId: string, id: string, text: string)
  datatype Media = Media(serviceId: string, url: string, id: string)

  /** The `Service` the server returns. */
  datatype Service = Service(
    id: string, title: string, category: string, description: string, location: string,
    pricingType: string, createdAt: string, pricing: int, providerId: string,
    media: seq<Media>, tags: seq<Tag>)

  /** What fetching a media URL yields: its size and its MIME type, which
      is empty when the server sends none. */
  datatype Blob = Blob(size: nat, mimeType: string)

  /** The URL each media file is fetched from. */
  function MediaUrl(apiBase: string, m: Media): (u: string)
    ensures |u| == |apiBase| + 7 + |m.url|
    ensures u[..|apiBase|] == apiBase && u[|apiBase|..|apiBase| + 7] == "/files/"
    ensures u[|apiBase| + 7..] == m.url
  {
    apiBase + "/files/" + m.url
  }

  /** `getFileFromUrl`: a file named by the stored URL, of the blob's type
      or "image/jpeg" when the blob has none. */
  function FetchedFile(m: Media, b: Blob): (f: File)
    ensures f.name == m.url && f.size == b.size
    ensures b.mimeType != "" ==> f.mimeType == b.mimeType
    ensures b.mimeType == "" ==> f.mimeType == "image/jpeg"
  {
    File(m.url, b.size, if b.mimeType != "" then b.mimeType else "image/jpeg")
  }

  function FetchedFiles(ms: seq<Media>, bs: seq<Blob>): (fs: seq<File>)
    requires |bs| == |ms|
    ensures |fs| == |ms| && forall i :: 0 <= i < |ms| ==> fs[i] == FetchedFile(ms[i], bs[i])
  {
    seq(|ms|, i requires 0 <= i < |ms| => FetchedFile(ms[i], bs[i]))
  }

  function TagTexts(tags: seq<Tag>): (texts: seq<string>)
    ensures |texts| == |tags| && forall i :: 0 <= i < |tags| ==> texts[i] == tags[i].text
  {
    seq(|tags|, i requires 0 <= i < |tags| => tags[i].text)
  }

  /** Every media fetch succeeded. */
  predicate AllFetched(bs: seq<Option<Blob>>) {
    forall i :: 0 <= i < |bs| ==> bs[i].Some?
  }

  /** The blobs of fetches that all succeeded. */
  function Fetched(bs: seq<Option<Blob>>): (r: seq<Blob>)
    requires AllFetched(bs)
    ensures |r| == |bs| && forall i :: 0 <= i < |bs| ==> Some(r[i]) == bs[i]
  {
    seq(|bs|, i requires 0 <= i < |bs| => bs[i].value)
  }

  /** `updateForm`: the fields taken from the service, renamed where the
      form's names differ; the media and previews replace whatever was
      picked before. `blobs` holds the outcome of each media fetch, `None`
      for one that fails. Name, pricing, description and category are set
      before `Promise.all` is awaited; a failed fetch rejects it, so nothing
      after that is set and `complete` is false. */
  method UpdateForm(page: ServiceFormState, service: Service, blobs: seq<Option<Blob>>, urls: seq<string>)
    returns (complete: bool)
    requires page.Valid() && |blobs| == |service.media| && |urls| == |service.media|
    modifies page
    ensures page.Valid()
    ensures complete <==> AllFetched(blobs)
    ensures complete ==>
              page.values == old(page.values).(
                name := service.title, pricing := PriceNumber(service.pricing),
                description := service.description, category := service.category,
                media := Some(FetchedFiles(service.media, Fetched(blobs))), location := service.location,
                tags := TagTexts(service.tags), pricingType := service.pricingType)
              && page.files == FetchedFiles(service.media, Fetched(blobs)) && page.previews == urls
    ensures !complete ==>
              page.values == old(page.values).(
                name := service.title, pricing := PriceNumber(service.pricing),
                description := service.description, category := service.category)
              && page.files == old(page.files) && page.previews == old(page.previews)
  {
    page.values := page.values.(name := service.title);
    page.values := page.values.(pricing := PriceNumber(service.pricing));
    page.values := page.values.(description := service.description);
    page.values := page.values.(category := service.category);
    if !AllFetched(blobs) {
      return false;
    }
    var fetched := FetchedFiles(service.media, Fetched(blobs));
    page.values := page.values.(media := Some(fetched));
    page.values := page.values.(location := service.location);
    page.values := page.values.(tags := TagTexts(service.tags));
    page.values := page.values.(pricingType := service.pricingType);
    page.previews := urls;
    page.files := page.values.media.value;
    complete := true;
  }

  /** Loading a service whose files are all acceptable and within the
      limit, with valid fields, still fails the schema as written, so the
      page cannot be submitted until more than the limit is picked. */
  lemma {:induction false} LoadedServiceRejected(service: Service, blobs: seq<Blob>, lim: Limits, f: ServiceForm)
    requires |blobs| == |service.media| && |service.media| <= lim.maxCount
    requires f.media == Some(FetchedFiles(service.media, blobs))
    ensures !SchemaAsWritten(f, lim)
  {
    AsWrittenNeedsTooManyFiles(f, lim);
  }

  /** A loaded service's fields agree with the form: the title is the name,
      tags keep their texts in order. */
  lemma LoadedFieldsValid(service: Service, f: ServiceForm)
    requires f.name == service.title && f.category == service.category
    requires f.description == service.description && f.location == service.location
    requires f.pricingType == service.pricingType && f.pricing == PriceNumber(service.pricing)
    requires service.title != "" && service.category != "" && service.description != ""
    requires service.location != "" && service.pricing >= 1
    requires service.pricingType in {"fixed", "hourly"}
    ensures FieldsOk(f)
  {
  }

  /** How fetching the service failed: an Axios error with or without an
      HTTP status, or any other error. */
  datatype FetchError = AxiosError(status: Option<int>) | OtherError

  /** The navigation a failed fetch causes: "/not-found" exactly for an Axios
      404, none otherwise. */
  function NavigationOnError(e: FetchError): (to: Option<string>)
    ensures to.Some? <==> e == AxiosError(Some(404))
    ensures to.Some? ==> to.value == "/not-found"
  {
    match e
    case AxiosError(Some(404)) => Some("/not-found")
    case _ => None
  }
}
