/** `createService`: the multipart body sent to create a service, built by
    appending entries to a `FormData` in a fixed order. */
module ServicesClient {
  import opened Util
  import opened ServiceSchema

  /** The values handed to `createService`; `media` is `None` when absent. */
  datatype CreateServiceDto = CreateServiceDto(
    name: string, category: string, description: string, pricingType: string,
    pricing: int, location: string, tags: seq<string>, media: Option<seq<File>>)

  datatype EntryValue = TextValue(text: string) | FileValue(file: File)
  datatype Entry = Entry(key: string, value: EntryValue)

  function ScalarEntries(dto: CreateServiceDto): seq<Entry> {
    [Entry("name", TextValue(dto.name)), Entry("category", TextValue(dto.category)),
     Entry("description", TextValue(dto.description)), Entry("pricing_type", TextValue(dto.pricingType)),
     Entry("pricing", TextValue(IntToString(dto.pricing))), Entry("location", TextValue(dto.location))]
  }

  function TagEntries(tags: seq<string>): (r: seq<Entry>)
    ensures |r| == |tags| && forall i :: 0 <= i < |tags| ==> r[i] == Entry("tags", TextValue(tags[i]))
  {
    seq(|tags|, i requires 0 <= i < |tags| => Entry("tags", TextValue(tags[i])))
  }

  function MediaEntries(media: Option<seq<File>>): (r: seq<Entry>)
    ensures media.None? ==> r == []
    ensures media.Some? ==> |r| == |media.value| && forall i :: 0 <= i < |r| ==> r[i] == Entry("media", FileValue(media.value[i]))
  {
    match media
    case None => []
    case Some(fs) => seq(|fs|, i requires 0 <= i < |fs| => Entry("media", FileValue(fs[i])))
  }

  function TagValues(tags: seq<string>): (vs: seq<EntryValue>)
    ensures |vs| == |tags| && forall i :: 0 <= i < |tags| ==> vs[i] == TextValue(tags[i])
  {
    seq(|tags|, i requires 0 <= i < |tags| => TextValue(tags[i]))
  }

  function FileValues(media: Option<seq<File>>): (vs: seq<EntryValue>)
    ensures media.None? ==> vs == []
    ensures media.Some? ==> |vs| == |media.value| && forall i :: 0 <= i < |vs| ==> vs[i] == FileValue(media.value[i])
  {
    match media
    case None => []
    case Some(fs) => seq(|fs|, i requires 0 <= i < |fs| => FileValue(fs[i]))
  }

  /** The whole body: the six scalar fields, one entry per tag, then one per
      file when media is present. */
  function Body(dto: CreateServiceDto): seq<Entry> {
    ScalarEntries(dto) + TagEntries(dto.tags) + MediaEntries(dto.media)
  }

  /** The values stored under `key`, in the order they were appended
      (`FormData.getAll`). */
  function GetAll(entries: seq<Entry>, key: string): (vs: seq<EntryValue>)
    ensures |vs| <= |entries|
  {
    if entries == [] then []
    else (if entries[0].key == key then [entries[0].value] else []) + GetAll(entries[1..], key)
  }

  lemma {:induction false} GetAllAppend(a: seq<Entry>, b: seq<Entry>, key: string)
    ensures GetAll(a + b, key) == GetAll(a, key) + GetAll(b, key)
    decreases |a|
  {
    if a == [] {
      assert a + b == b;
    } else {
      var ab := a + b;
      assert ab[0] == a[0] && ab[1..] == a[1..] + b;
      var h: seq<EntryValue> := if a[0].key == key then [a[0].value] else [];
      assert GetAll(ab, key) == h + GetAll(a[1..] + b, key);
      assert GetAll(a, key) == h + GetAll(a[1..], key);
      GetAllAppend(a[1..], b, key);
      assert h + (GetAll(a[1..], key) + GetAll(b, key)) == (h + GetAll(a[1..], key)) + GetAll(b, key);
    }
  }

  /** No entry of `entries` has `key`. */
  lemma {:induction false} GetAllAbsent(entries: seq<Entry>, key: string)
    requires forall i :: 0 <= i < |entries| ==> entries[i].key != key
    ensures GetAll(entries, key) == []
    decreases |entries|
  {
    if entries != [] {
      GetAllAbsent(entries[1..], key);
    }
  }

  /** Every entry of `entries` has `key`. */
  lemma {:induction false} GetAllOnly(entries: seq<Entry>, key: string)
    requires forall i :: 0 <= i < |entries| ==> entries[i].key == key
    ensures |GetAll(entries, key)| == |entries|
    ensures forall i :: 0 <= i < |entries| ==> GetAll(entries, key)[i] == entries[i].value
    decreases |entries|
  {
    if entries != [] {
      GetAllOnly(entries[1..], key);
    }
  }

  /** The first six entries of the body are the scalar fields. */
  lemma BodyScalars(dto: CreateServiceDto)
    ensures |Body(dto)| == 6 + |dto.tags| + (if dto.media.Some? then |dto.media.value| else 0)
    ensures Body(dto)[..6] == ScalarEntries(dto)
  {
    var s, t, m := ScalarEntries(dto), TagEntries(dto.tags), MediaEntries(dto.media);
    assert Body(dto) == s + (t + m);
  }

  /** After them come the tags ... */
  lemma BodyTagsAt(dto: CreateServiceDto)
    ensures forall i :: 0 <= i < |dto.tags| ==> Body(dto)[6 + i] == Entry("tags", TextValue(dto.tags[i]))
  {
    var s, t, m := ScalarEntries(dto), TagEntries(dto.tags), MediaEntries(dto.media);
    var b := Body(dto);
    assert b == s + (t + m) && |s| == 6;
    forall i | 0 <= i < |dto.tags| ensures b[6 + i] == Entry("tags", TextValue(dto.tags[i])) {
      assert b[6 + i] == (t + m)[i] == t[i];
    }
  }

  /** ... then the files. */
  lemma BodyMediaAt(dto: CreateServiceDto)
    ensures dto.media.Some? ==>
              forall i :: 0 <= i < |dto.media.value| ==>
                Body(dto)[6 + |dto.tags| + i] == Entry("media", FileValue(dto.media.value[i]))
  {
    var s, t, m := ScalarEntries(dto), TagEntries(dto.tags), MediaEntries(dto.media);
    var b := Body(dto);
    var st := s + t;
    assert b == st + m && |st| == 6 + |dto.tags|;
    if dto.media.Some? {
      forall i | 0 <= i < |dto.media.value| ensures b[6 + |dto.tags| + i] == Entry("media", FileValue(dto.media.value[i])) {
        assert b[|st| + i] == m[i];
      }
    }
  }

  /** The layout of the body: the six scalar keys in order, the price as
      its decimal text, the tags next and the files last; empty tags and
      an absent or empty media list add nothing. */
  lemma BodyLayout(dto: CreateServiceDto)
    ensures |Body(dto)| == 6 + |dto.tags| + (if dto.media.Some? then |dto.media.value| else 0)
    ensures Body(dto)[..6] == ScalarEntries(dto)
    ensures Body(dto)[3] == Entry("pricing_type", TextValue(dto.pricingType))
    ensures Body(dto)[4] == Entry("pricing", TextValue(IntToString(dto.pricing)))
    ensures forall i :: 0 <= i < |dto.tags| ==> Body(dto)[6 + i] == Entry("tags", TextValue(dto.tags[i]))
    ensures dto.media.Some? ==>
              forall i :: 0 <= i < |dto.media.value| ==>
                Body(dto)[6 + |dto.tags| + i] == Entry("media", FileValue(dto.media.value[i]))
  {
    BodyScalars(dto);
    BodyTagsAt(dto);
    BodyMediaAt(dto);
    assert Body(dto)[3] == Body(dto)[..6][3] && Body(dto)[4] == Body(dto)[..6][4];
  }

  /** Reading the body back by key gives back the tags in their order. */
  lemma BodyTags(dto: CreateServiceDto)
    ensures GetAll(Body(dto), "tags") == TagValues(dto.tags)
  {
    var s, t, m := ScalarEntries(dto), TagEntries(dto.tags), MediaEntries(dto.media);
    GetAllAppend(s + t, m, "tags");
    GetAllAppend(s, t, "tags");
    GetAllAbsent(s, "tags");
    GetAllAbsent(m, "tags");
    GetAllOnly(t, "tags");
  }

  /** ... the files in their order, none when media is absent ... */
  lemma BodyMedia(dto: CreateServiceDto)
    ensures GetAll(Body(dto), "media") == FileValues(dto.media)
  {
    var s, t, m := ScalarEntries(dto), TagEntries(dto.tags), MediaEntries(dto.media);
    GetAllAppend(s + t, m, "media");
    GetAllAppend(s, t, "media");
    GetAllAbsent(s, "media");
    GetAllAbsent(t, "media");
    GetAllOnly(m, "media");
  }

  /** ... and exactly one price, as its decimal text. */
  lemma BodyPricing(dto: CreateServiceDto)
    ensures GetAll(Body(dto), "pricing") == [TextValue(IntToString(dto.pricing))]
  {
    var s, t, m := ScalarEntries(dto), TagEntries(dto.tags), MediaEntries(dto.media);
    GetAllAppend(s + t, m, "pricing");
    GetAllAppend(s, t, "pricing");
    GetAllAbsent(t, "pricing");
    GetAllAbsent(m, "pricing");
    assert GetAll(s, "pricing") == [TextValue(IntToString(dto.pricing))] by {
      assert s == s[..4] + [s[4]] + s[5..];
      GetAllAbsent(s[..4], "pricing");
      GetAllAbsent(s[5..], "pricing");
      GetAllAppend(s[..4] + [s[4]], s[5..], "pricing");
      GetAllAppend(s[..4], [s[4]], "pricing");
    }
  }

  /** `createService`'s body construction, append by append. */
  method CreateFormData(dto: CreateServiceDto) returns (formData: seq<Entry>)
    ensures formData == Body(dto)
  {
    formData := [];
    formData := formData + [Entry("name", TextValue(dto.name))];
    formData := formData + [Entry("category", TextValue(dto.category))];
    formData := formData + [Entry("description", TextValue(dto.description))];
    formData := formData + [Entry("pricing_type", TextValue(dto.pricingType))];
    formData := formData + [Entry("pricing", TextValue(IntToString(dto.pricing)))];
    formData := formData + [Entry("location", TextValue(dto.location))];
    for i := 0 to |dto.tags|
      invariant formData == ScalarEntries(dto) + TagEntries(dto.tags[..i])
    {
      formData := formData + [Entry("tags", TextValue(dto.tags[i]))];
    }
    assert dto.tags[..|dto.tags|] == dto.tags;
    if dto.media.Some? {
      var files := dto.media.value;
      for i := 0 to |files|
        invariant formData == ScalarEntries(dto) + TagEntries(dto.tags) + MediaEntries(Some(files[..i]))
      {
        formData := formData + [Entry("media", FileValue(files[i]))];
      }
      assert files[..|files|] == files;
    }
  }
}
