/** The server's create and update of a service row with its tag and media
    rows. The database session is the object's fields; the ids the database
    assigns to media rows are a parameter; the upload and compression writes
    are recorded as the pair of paths they write. */
module ServiceCrud {
  import opened Util

  const UploadDirectory: string := "./files/"

  /** An uploaded file; its content is not modelled. */
  datatype Upload = Upload(filename: string)

  /** The fields `create_service` and `update_service` read from the request. */
  datatype ServiceInput = ServiceInput(
    title: string, description: string, category: string, location: string,
    pricing: int, pricingType: string, tags: seq<string>, media: seq<Upload>)

  datatype Scalars = Scalars(
    title: string, description: string, category: string, location: string,
    pricing: int, pricingType: string)

  function ScalarsOf(input: ServiceInput): Scalars {
    Scalars(input.title, input.description, input.category, input.location, input.pricing, input.pricingType)
  }

  datatype MediaRow = MediaRow(id: string, url: string)

  /** The two files written for one upload: the raw copy, then the
      compressed one. */
  datatype StoredFile = StoredFile(rawPath: string, compressedPath: string)

  /** `filename.split(".")[-1]`: the text after the last dot, or the whole
      name when it has none. */
  function Extension(filename: string): (ext: string)
    ensures '.' !in ext
    ensures '.' !in filename ==> ext == filename
  {
    var parts := Split(filename, '.');
    assert '.' !in filename ==> parts == [filename] by {
      if '.' !in filename { SplitNoSeparator(filename, '.'); }
    }
    parts[|parts| - 1]
  }

  /** `os.path.join(directory, name)` for one relative name. */
  function PathJoin(directory: string, name: string): string {
    if |name| > 0 && name[0] == '/' then name
    else if |directory| > 0 && directory[|directory| - 1] == '/' then directory + name
    else directory + "/" + name
  }

  function RawName(id: string, ext: string): string { id + "." + ext }
  function CompressedName(id: string, ext: string): string { id + "_compressed." + ext }

  /** The media row for an upload given its id: the url is the compressed
      file's name. */
  function RowFor(u: Upload, id: string): MediaRow {
    MediaRow(id, CompressedName(id, Extension(u.filename)))
  }

  function FilesFor(u: Upload, id: string): StoredFile {
    var ext := Extension(u.filename);
    StoredFile(PathJoin(UploadDirectory, RawName(id, ext)), PathJoin(UploadDirectory, CompressedName(id, ext)))
  }

  function MediaRows(us: seq<Upload>, ids: seq<string>): (rows: seq<MediaRow>)
    requires |ids| == |us|
    ensures |rows| == |us| && forall i :: 0 <= i < |us| ==> rows[i] == RowFor(us[i], ids[i])
  {
    seq(|us|, i requires 0 <= i < |us| => RowFor(us[i], ids[i]))
  }

  function StoredFiles(us: seq<Upload>, ids: seq<string>): (fs: seq<StoredFile>)
    requires |ids| == |us|
    ensures |fs| == |us| && forall i :: 0 <= i < |us| ==> fs[i] == FilesFor(us[i], ids[i])
  {
    seq(|us|, i requires 0 <= i < |us| => FilesFor(us[i], ids[i]))
  }

  /** One more upload adds one media row and one pair of files, at the end. */
  lemma RowsSnoc(us: seq<Upload>, ids: seq<string>, i: nat)
    requires |ids| == |us| && i < |us|
    ensures MediaRows(us[..i + 1], ids[..i + 1]) == MediaRows(us[..i], ids[..i]) + [RowFor(us[i], ids[i])]
    ensures StoredFiles(us[..i + 1], ids[..i + 1]) == StoredFiles(us[..i], ids[..i]) + [FilesFor(us[i], ids[i])]
  {
    var r, r0 := MediaRows(us[..i + 1], ids[..i + 1]), MediaRows(us[..i], ids[..i]);
    assert forall j :: 0 <= j < i + 1 ==> r[j] == (r0 + [RowFor(us[i], ids[i])])[j];
    var f, f0 := StoredFiles(us[..i + 1], ids[..i + 1]), StoredFiles(us[..i], ids[..i]);
    assert forall j :: 0 <= j < i + 1 ==> f[j] == (f0 + [FilesFor(us[i], ids[i])])[j];
  }

  /** `a + "." + ext` has extension `ext` when `ext` has no dot. */
  lemma DottedExtension(a: string, ext: string)
    requires '.' !in ext
    ensures Extension(a + "." + ext) == ext
  {
    assert a + "." + ext == a + ['.'] + ext;
    SplitLast(a, '.', ext);
  }

  /** The stored url and the raw file keep the upload's extension. */
  lemma StoredExtensions(u: Upload, id: string)
    ensures Extension(RowFor(u, id).url) == Extension(u.filename)
    ensures Extension(RawName(id, Extension(u.filename))) == Extension(u.filename)
  {
    var ext := Extension(u.filename);
    assert CompressedName(id, ext) == (id + "_compressed") + "." + ext;
    DottedExtension(id + "_compressed", ext);
    DottedExtension(id, ext);
  }

  /** Both files lie in the upload directory, the compressed one under the
      stored url's name, and they are distinct (for ids without a leading
      '/', which `os.path.join` would treat as absolute). */
  lemma StoredPaths(u: Upload, id: string)
    requires !(|id| > 0 && id[0] == '/')
    ensures FilesFor(u, id).compressedPath == "./files/" + RowFor(u, id).url
    ensures FilesFor(u, id).rawPath == "./files/" + RawName(id, Extension(u.filename))
    ensures FilesFor(u, id).rawPath != FilesFor(u, id).compressedPath
  {
    var f := FilesFor(u, id);
    assert |f.rawPath| + 11 == |f.compressedPath|;
  }

  /** A file with no dot is its own extension: "photo" is stored as
      "<id>_compressed.photo". */
  lemma NoDotExtension(id: string)
    ensures RowFor(Upload("photo"), id).url == id + "_compressed.photo"
  {
  }

  /** A service row with its tag texts and media rows, and the files written
      for it. */
  class ServiceRecord {
    const id: string
    var providerId: string
    var fields: Scalars
    var tags: seq<string>
    var media: seq<MediaRow>
    var stored: seq<StoredFile>

    /** `Service(...)` added and committed: the request's fields, the
        user's id as provider, no tags and no media yet. */
    constructor (id: string, providerId: string, input: ServiceInput)
      ensures this.id == id && this.providerId == providerId && fields == ScalarsOf(input)
      ensures tags == [] && media == [] && stored == []
    {
      this.id := id;
      this.providerId := providerId;
      fields := ScalarsOf(input);
      tags, media, stored := [], [], [];
    }

    /** One tag row per text, in order. */
    method AddTags(texts: seq<string>)
      modifies this
      ensures tags == old(tags) + texts
      ensures fields == old(fields) && providerId == old(providerId) && media == old(media) && stored == old(stored)
    {
      for i := 0 to |texts|
        invariant tags == old(tags) + texts[..i]
        invariant fields == old(fields) && providerId == old(providerId) && media == old(media) && stored == old(stored)
      {
        tags := tags + [texts[i]];
      }
      assert texts[..|texts|] == texts;
    }

    /** One media row per upload: inserted with an empty url, the raw
        file written, compressed, and the url then set. */
    method AddMedia(uploads: seq<Upload>, ids: seq<string>)
      requires |ids| == |uploads|
      modifies this
      ensures media == old(media) + MediaRows(uploads, ids)
      ensures stored == old(stored) + StoredFiles(uploads, ids)
      ensures fields == old(fields) && providerId == old(providerId) && tags == old(tags)
    {
      for i := 0 to |uploads|
        invariant media == old(media) + MediaRows(uploads[..i], ids[..i])
        invariant stored == old(stored) + StoredFiles(uploads[..i], ids[..i])
        invariant fields == old(fields) && providerId == old(providerId) && tags == old(tags)
      {
        var row := MediaRow(ids[i], "");
        media := media + [row];
        var ext := Extension(uploads[i].filename);
        var fileLocation := PathJoin(UploadDirectory, RawName(row.id, ext));
        var compressedLocation := PathJoin(UploadDirectory, CompressedName(row.id, ext));
        stored := stored + [StoredFile(fileLocation, compressedLocation)];
        media := media[|media| - 1 := row.(url := CompressedName(row.id, ext))];
        RowsSnoc(uploads, ids, i);
      }
      assert uploads[..|uploads|] == uploads && ids[..|ids|] == ids;
    }

    /** `update_service`: the six fields overwritten, every old tag and
        media row deleted, then the new ones added. Files written before are
        not removed. */
    method Update(input: ServiceInput, ids: seq<string>)
      requires |ids| == |input.media|
      modifies this
      ensures fields == ScalarsOf(input) && providerId == old(providerId)
      ensures tags == input.tags && media == MediaRows(input.media, ids)
      ensures stored == old(stored) + StoredFiles(input.media, ids)
    {
      fields := ScalarsOf(input);
      while tags != []
        invariant fields == ScalarsOf(input) && providerId == old(providerId) && stored == old(stored)
        decreases |tags|
      {
        tags := tags[1..];
      }
      while media != []
        invariant fields == ScalarsOf(input) && providerId == old(providerId) && stored == old(stored)
        invariant tags == []
        decreases |media|
      {
        media := media[1..];
      }
      AddTags(input.tags);
      AddMedia(input.media, ids);
    }
  }

  /** `create_service`. */
  method CreateService(id: string, userId: string, input: ServiceInput, ids: seq<string>) returns (s: ServiceRecord)
    requires |ids| == |input.media|
    ensures fresh(s) && s.id == id && s.providerId == userId && s.fields == ScalarsOf(input)
    ensures s.tags == input.tags && s.media == MediaRows(input.media, ids)
    ensures s.stored == StoredFiles(input.media, ids)
  {
    s := new ServiceRecord(id, userId, input);
    s.AddTags(input.tags);
    s.AddMedia(input.media, ids);
  }
}
