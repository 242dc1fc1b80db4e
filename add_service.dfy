/** The add-service page: its own form schema (no file-count refinement) with
    fixed limits, and the picked-files state behind the media field. The
    edit page runs the same two file handlers over the same state with its
    own limit. */
module AddService {
  import opened Util
  import opened ServiceSchema
  import opened UseRequest

  const MaxFileSize: nat := 5000000
  const AcceptedImageTypes: seq<string> := ["image/jpeg", "image/jpg", "image/png", "image/webp"]
  const MaxFiles: nat := 10
  const AddLimits: Limits := Limits(MaxFileSize, AcceptedImageTypes, MaxFiles)

  /** `formSchema`: the shared field rules and the per-file refinement, with
      no limit on the number of files. */
  predicate FormSchema(f: ServiceForm) {
    FieldsAndFilesOk(f, AddLimits)
  }

  /** `defaultValues`. */
  const DefaultForm: ServiceForm :=
    ServiceForm("", "", "", "fixed", PriceNumber(1), Some([]), "", [])

  /** With the other fields valid, the media field passes iff it is defined
      and every file is at most 5,000,000 bytes and one of the four types;
      the count does not matter, and the default (empty) list passes. */
  lemma FormSchemaMedia(f: ServiceForm)
    requires FieldsOk(f)
    ensures FormSchema(f) <==>
              f.media.Some? && forall i :: 0 <= i < |f.media.value| ==>
                f.media.value[i].size <= 5000000
                && f.media.value[i].mimeType in ["image/jpeg", "image/jpg", "image/png", "image/webp"]
    ensures f.media == Some([]) ==> FormSchema(f)
    ensures f.media.None? ==> !FormSchema(f)
  {
  }

  /** The defaults fail only because the text fields are empty. */
  lemma DefaultFormRejected()
    ensures !FormSchema(DefaultForm)
    ensures EveryFileOk(DefaultForm.media, AddLimits) && PricingOk(DefaultForm.pricing)
  {
  }

  /** Pairs of a file and its preview URL, position by position. */
  function Zip<A, B>(a: seq<A>, b: seq<B>): (r: seq<(A, B)>)
    requires |a| == |b|
    ensures |r| == |a| && forall i :: 0 <= i < |r| ==> r[i] == (a[i], b[i])
  {
    seq(|a|, i requires 0 <= i < |a| => (a[i], b[i]))
  }

  /** Removing the same index from both lists removes one pair: every
      remaining preview still belongs to its file. */
  lemma {:induction false} SpliceZip<A, B>(a: seq<A>, b: seq<B>, index: int)
    requires |a| == |b|
    ensures |SpliceOne(a, index)| == |SpliceOne(b, index)|
    ensures Zip(SpliceOne(a, index), SpliceOne(b, index)) == SpliceOne(Zip(a, b), index)
  {
    var k := SpliceStart(|a|, index);
    var z, za, zb := Zip(a, b), SpliceOne(a, index), SpliceOne(b, index);
    if k < |a| {
      assert za == a[..k] + a[k + 1..] && zb == b[..k] + b[k + 1..];
      var lhs, rhs := Zip(za, zb), SpliceOne(z, index);
      assert rhs == z[..k] + z[k + 1..];
      forall i | 0 <= i < |lhs| ensures lhs[i] == rhs[i] {
        if i < k { assert za[i] == a[i] && zb[i] == b[i]; }
        else { assert za[i] == a[i + 1] && zb[i] == b[i + 1]; }
      }
    }
  }

  /** Appending a batch keeps the pairing: old pairs first, then the new
      files with their new previews. */
  lemma ZipAppend<A, B>(a: seq<A>, b: seq<B>, c: seq<A>, d: seq<B>)
    requires |a| == |b| && |c| == |d|
    ensures Zip(a + c, b + d) == Zip(a, b) + Zip(c, d)
  {
  }

  /** Removing the last index after appending one file undoes the append. */
  lemma AppendThenRemove<T>(s: seq<T>, x: T)
    ensures SpliceOne(s + [x], |s|) == s
  {
    assert (s + [x])[..|s|] == s;
  }

  /** The toast shown when a batch would pass the limit. */
  function LimitToast(limit: nat): Toast {
    Toast("File limit exceeded", "You can only upload a maximum of " + NatToString(limit) + " images.", true)
  }

  /** The page's picked files, their preview URLs and the form's values;
      the form's media field always holds exactly the picked files. */
  class ServiceFormState {
    const limit: nat
    var values: ServiceForm
    var files: seq<File>
    var previews: seq<string>

    ghost predicate Valid()
      reads this
    {
      |files| == |previews| && values.media == Some(files)
    }

    /** The page mounting: default values, no files, no previews. */
    constructor (limit: nat)
      ensures Valid() && this.limit == limit
      ensures values == DefaultForm && files == [] && previews == []
    {
      this.limit := limit;
      values := DefaultForm;
      files, previews := [], [];
    }

    /** `handleFileChange`: the whole batch is refused with a toast when it
        would take the list past the limit; otherwise files and previews are
        appended in order and the form's media is the combined list. */
    method FileChange(newFiles: seq<File>, newPreviews: seq<string>) returns (toast: Option<Toast>)
      requires Valid() && |newPreviews| == |newFiles|
      modifies this
      ensures Valid()
      ensures |old(files)| + |newFiles| > limit ==>
                toast == Some(LimitToast(limit))
                && files == old(files) && previews == old(previews) && values == old(values)
      ensures |old(files)| + |newFiles| <= limit ==>
                toast == None && files == old(files) + newFiles
                && previews == old(previews) + newPreviews
                && values == old(values).(media := Some(old(files) + newFiles))
      ensures |old(files)| <= limit ==> |files| <= limit
    {
      if |files| + |newFiles| > limit {
        toast := Some(LimitToast(limit));
        return;
      }
      var combined := files + newFiles;
      files := combined;
      previews := previews + newPreviews;
      values := values.(media := Some(combined));
      toast := None;
    }

    /** `handleRemoveFile`: `splice(index, 1)` on copies of both lists (an
        index past the end removes nothing, a negative one counts from the
        end); the form's media is the new file list. */
    method RemoveFile(index: int)
      requires Valid()
      modifies this
      ensures Valid()
      ensures files == SpliceOne(old(files), index) && previews == SpliceOne(old(previews), index)
      ensures values == old(values).(media := Some(files))
      ensures |files| <= |old(files)|
    {
      var newFiles := SpliceOne(files, index);
      files := newFiles;
      previews := SpliceOne(previews, index);
      values := values.(media := Some(newFiles));
    }
  }
}
