/** `getErrorMessage`: the text shown for an error payload of the API. A
    `detail` that is a string is shown as it is; a list of validation errors
    becomes one "Invalid <field>" line per error; anything else becomes a
    fixed text. A missing payload, or a list element of type "object"
    without `loc`, makes it throw. The auth slice's `updateErrorState`
    applies the same rules. */
module ErrorMessage {
  import opened Util

  /** One element of a validation error's `loc` path: a field name or a list
      index. */
  datatype LocPart = LocName(name: string) | LocIndex(index: nat)

  /** An element of a `detail` list. `ValidationItem` is an object with its
      `loc` path, `msg` and `type`; `LocLessItem` is any other value whose
      `typeof` is "object" (`null`, an array, an object without `loc`), on
      which `err.loc.length` throws; `ScalarItem` is a value whose `typeof`
      is not "object". */
  datatype DetailItem = ValidationItem(loc: seq<LocPart>, msg: string, kind: string) | LocLessItem | ScalarItem

  /** The `detail` field of a payload: a string, a list, or anything else
      (absent, a number, null, a plain object). */
  datatype Detail = DetailText(text: string) | DetailList(items: seq<DetailItem>) | DetailOther

  /** The payload itself: a value, whose `detail` is read, or `undefined`
      or `null`, which `const { detail } = payload` cannot destructure. */
  datatype ErrorPayload = PayloadValue(detail: Detail) | PayloadMissing

  const UnexpectedError: string := "An unexpected error occurred."

  /** `${x}` for a `loc` element, and for the `undefined` that `loc[-1]`
      gives when `loc` is empty. */
  function LocText(loc: seq<LocPart>): string {
    if loc == [] then "undefined"
    else
      match loc[|loc| - 1]
      case LocName(n) => n
      case LocIndex(k) => NatToString(k)
  }

  /** The line for one validation error: "Invalid " and the last `loc` element. */
  function ItemLine(item: DetailItem): (line: string)
    requires item.ValidationItem?
  {
    "Invalid " + LocText(item.loc)
  }

  /** Every element passes `typeof item === "object"`. */
  predicate AllObjects(items: seq<DetailItem>) {
    forall i :: 0 <= i < |items| ==> items[i].ValidationItem? || items[i].LocLessItem?
  }

  /** Every element is a validation error with a `loc` path. */
  predicate AllHaveLoc(items: seq<DetailItem>) {
    forall i :: 0 <= i < |items| ==> items[i].ValidationItem?
  }

  /** The lines of a list of validation errors, in order. */
  function ItemLines(items: seq<DetailItem>): (lines: seq<string>)
    requires AllHaveLoc(items)
    ensures |lines| == |items|
    ensures forall i :: 0 <= i < |items| ==> lines[i] == ItemLine(items[i])
  {
    if items == [] then [] else [ItemLine(items[0])] + ItemLines(items[1..])
  }

  /** The message for a payload, or `None` where `getErrorMessage` throws a
      `TypeError`: a missing payload, or a list of objects one of which has
      no `loc`. */
  function GetErrorMessage(payload: ErrorPayload): (r: Option<string>)
    ensures r.None? <==>
              || payload.PayloadMissing?
              || (&& payload.detail.DetailList? && AllObjects(payload.detail.items)
                  && exists i :: 0 <= i < |payload.detail.items| && payload.detail.items[i].LocLessItem?)
  {
    match payload
    case PayloadMissing => None
    case PayloadValue(detail) =>
      match detail
      case DetailText(t) => Some(t)
      case DetailList(items) =>
        if !AllObjects(items) then Some(UnexpectedError)
        else if AllHaveLoc(items) then Some(Join(ItemLines(items), "\n"))
        else None
      case DetailOther => Some(UnexpectedError)
  }

  /** A string `detail` is the message itself; a `detail` that is neither a
      string nor a list gives the fixed text. */
  lemma TextAndOtherMessages(t: string)
    ensures GetErrorMessage(PayloadValue(DetailText(t))) == Some(t)
    ensures GetErrorMessage(PayloadValue(DetailOther)) == Some(UnexpectedError)
  {
  }

  /** An empty list of validation errors gives the empty text. */
  lemma EmptyListMessage()
    ensures GetErrorMessage(PayloadValue(DetailList([]))) == Some("")
  {
  }

  /** One element that is not an object anywhere in the list makes the whole
      message the fixed text, even when another element has no `loc`: the
      `every` test fails before any `loc` is read. */
  lemma ScalarItemMessage(items: seq<DetailItem>, i: nat)
    requires i < |items| && items[i] == ScalarItem
    ensures GetErrorMessage(PayloadValue(DetailList(items))) == Some(UnexpectedError)
  {
  }

  /** A list of objects with one `null` among them throws, wherever it stands. */
  lemma LocLessItemThrows(items: seq<DetailItem>, i: nat)
    requires AllObjects(items) && i < |items| && items[i] == LocLessItem
    ensures GetErrorMessage(PayloadValue(DetailList(items))) == None
  {
  }

  /** The message never depends on an error's `msg` or `type`: two lists
      with the same `loc` paths give the same message. */
  lemma {:induction false} MessageIgnoresMsg(a: seq<DetailItem>, b: seq<DetailItem>)
    requires |a| == |b| && AllHaveLoc(a) && AllHaveLoc(b)
    requires forall i :: 0 <= i < |a| ==> a[i].loc == b[i].loc
    ensures GetErrorMessage(PayloadValue(DetailList(a))) == GetErrorMessage(PayloadValue(DetailList(b)))
  {
    var la, lb := ItemLines(a), ItemLines(b);
    assert la == lb by {
      forall i | 0 <= i < |a| ensures la[i] == lb[i] {
        assert la[i] == ItemLine(a[i]) && lb[i] == ItemLine(b[i]);
      }
    }
  }

  /** A field name or a rendered index never holds a line break when the
      names do not. */
  predicate PlainLocs(items: seq<DetailItem>) {
    forall i :: 0 <= i < |items| && items[i].ValidationItem? ==> '\n' !in LocText(items[i].loc)
  }

  lemma LineHasNoBreak(item: DetailItem)
    requires item.ValidationItem? && '\n' !in LocText(item.loc)
    ensures '\n' !in ItemLine(item)
  {
    var line := ItemLine(item);
    assert line == "Invalid " + LocText(item.loc);
    assert forall c :: c in line ==> c in "Invalid " || c in LocText(item.loc);
  }

  /** Splitting the message at line breaks gives back one "Invalid ..." line
      per validation error, in order. */
  lemma MessageLines(items: seq<DetailItem>)
    requires |items| >= 1 && AllHaveLoc(items) && PlainLocs(items)
    ensures GetErrorMessage(PayloadValue(DetailList(items))).Some?
    ensures Split(GetErrorMessage(PayloadValue(DetailList(items))).value, '\n') == ItemLines(items)
  {
    var lines := ItemLines(items);
    forall k | 0 <= k < |lines| ensures '\n' !in lines[k] {
      LineHasNoBreak(items[k]);
    }
    SplitJoined(lines, '\n');
  }
}
