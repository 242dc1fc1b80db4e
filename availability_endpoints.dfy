/** The `/availability` endpoints over the recurring-availability table.
    The table is a map from (user, weekday) to its row: the save endpoint
    upserts by that pair, so the pair is the key. */
module AvailabilityEndpoints {
  import opened Util
  import opened AvailabilityModel

  type Key = (UserId, Day)

  /** What an endpoint answers: 204 with no body, 200 with a body, or 404. */
  datatype Response<T> = NoContent | Ok200(body: T) | NotFound(detail: string)

  const NotFoundDetail: string := "Availability not found"

  /** The row the save endpoint leaves for `user` after applying entry `e`;
      an existing row and a newly inserted one carry the same values. */
  function RowOf(user: UserId, e: RecurringAvailability): (row: Availability)
    ensures row.userId == user && row.day == e.day
    ensures row.startTime == e.startTime && row.endTime == e.endTime && row.isAvailable == e.isAvailable
  {
    NewAvailability(user, e.day, e.startTime, e.endTime, Some(e.isAvailable))
  }

  /** Applying one entry: update the (user, day) row in place or insert it. */
  function Upsert(rows: map<Key, Availability>, user: UserId, e: RecurringAvailability): (r: map<Key, Availability>)
    ensures r.Keys == rows.Keys + {(user, e.day)}
  {
    var key := (user, e.day);
    if key in rows then
      rows[key := rows[key].(startTime := e.startTime, endTime := e.endTime, isAvailable := e.isAvailable)]
    else
      rows[key := RowOf(user, e)]
  }

  /** The table after the save endpoint's loop has run over `es`. */
  function SaveAll(rows: map<Key, Availability>, user: UserId, es: seq<RecurringAvailability>): (r: map<Key, Availability>)
    ensures rows.Keys <= r.Keys
    ensures forall k :: k in r && k !in rows ==> k.0 == user
    decreases |es|
  {
    if es == [] then rows else Upsert(SaveAll(rows, user, es[..|es| - 1]), user, es[|es| - 1])
  }

  /** The last entry of `es` for day `d`, the one whose values survive. */
  function LastEntryFor(es: seq<RecurringAvailability>, d: Day): (r: Option<RecurringAvailability>)
    ensures r.Some? ==> r.value in es && r.value.day == d
    ensures r.None? ==> forall i :: 0 <= i < |es| ==> es[i].day != d
    decreases |es|
  {
    if es == [] then None
    else if es[|es| - 1].day == d then Some(es[|es| - 1])
    else LastEntryFor(es[..|es| - 1], d)
  }

  /** An entry with no later entry for the same day is the one that wins. */
  lemma {:induction false} LastEntryWins(es: seq<RecurringAvailability>, j: nat)
    requires j < |es|
    requires forall i :: j < i < |es| ==> es[i].day != es[j].day
    ensures LastEntryFor(es, es[j].day) == Some(es[j])
    decreases |es|
  {
    if j < |es| - 1 {
      LastEntryWins(es[..|es| - 1], j);
    }
  }

  predicate WellKeyed(rows: map<Key, Availability>) {
    forall k :: k in rows ==> rows[k].userId == k.0 && rows[k].day == k.1
  }

  /** One more entry is one more upsert. */
  lemma SaveAllSnoc(rows: map<Key, Availability>, user: UserId, es: seq<RecurringAvailability>, i: nat)
    requires i < |es|
    ensures SaveAll(rows, user, es[..i + 1]) == Upsert(SaveAll(rows, user, es[..i]), user, es[i])
  {
    assert es[..i + 1][..i] == es[..i];
  }

  /** An upsert keeps every row under its own (user, day) key. */
  lemma UpsertWellKeyed(rows: map<Key, Availability>, user: UserId, e: RecurringAvailability)
    requires WellKeyed(rows)
    ensures WellKeyed(Upsert(rows, user, e))
  {
  }

  /** Saving keeps every row under its own (user, day) key. */
  lemma {:induction false} SaveAllWellKeyed(rows: map<Key, Availability>, user: UserId, es: seq<RecurringAvailability>)
    requires WellKeyed(rows)
    ensures WellKeyed(SaveAll(rows, user, es))
    decreases |es|
  {
    if es != [] {
      SaveAllWellKeyed(rows, user, es[..|es| - 1]);
      UpsertWellKeyed(SaveAll(rows, user, es[..|es| - 1]), user, es[|es| - 1]);
    }
  }

  /** One upsert at one key: the entry's key holds the entry's values, every
      other key keeps what it had. */
  lemma UpsertAt(rows: map<Key, Availability>, user: UserId, e: RecurringAvailability, k: Key)
    requires WellKeyed(rows)
    ensures k in Upsert(rows, user, e) <==> k in rows || k == (user, e.day)
    ensures k == (user, e.day) ==> Upsert(rows, user, e)[k] == RowOf(user, e)
    ensures k != (user, e.day) && k in rows ==> Upsert(rows, user, e)[k] == rows[k]
  {
  }

  /** What saving does to each key: a key of `user` named by some entry
      holds the values of the last such entry; every other key keeps what it
      had (or stays absent). */
  lemma {:induction false} SaveAllAt(rows: map<Key, Availability>, user: UserId, es: seq<RecurringAvailability>, k: Key)
    requires WellKeyed(rows)
    ensures WellKeyed(SaveAll(rows, user, es))
    ensures k in SaveAll(rows, user, es) <==> k in rows || (k.0 == user && LastEntryFor(es, k.1).Some?)
    ensures k.0 == user && LastEntryFor(es, k.1).Some? ==>
              SaveAll(rows, user, es)[k] == RowOf(user, LastEntryFor(es, k.1).value)
    ensures !(k.0 == user && LastEntryFor(es, k.1).Some?) && k in rows ==> SaveAll(rows, user, es)[k] == rows[k]
    decreases |es|
  {
    SaveAllWellKeyed(rows, user, es);
    if es != [] {
      var init := es[..|es| - 1];
      var e := es[|es| - 1];
      SaveAllAt(rows, user, init, k);
      var prev := SaveAll(rows, user, init);
      assert SaveAll(rows, user, es) == Upsert(prev, user, e);
      assert LastEntryFor(es, k.1) == if e.day == k.1 then Some(e) else LastEntryFor(init, k.1);
      UpsertAt(prev, user, e, k);
    }
  }

  /** Rows of other users are never touched by a save. */
  lemma SaveKeepsOtherUsers(rows: map<Key, Availability>, user: UserId, es: seq<RecurringAvailability>, k: Key)
    requires WellKeyed(rows)
    requires k.0 != user
    ensures k in SaveAll(rows, user, es) <==> k in rows
    ensures k in rows ==> SaveAll(rows, user, es)[k] == rows[k]
  {
    SaveAllAt(rows, user, es, k);
  }

  /** A day that no entry names keeps its row (or its absence). */
  lemma SaveKeepsUnnamedDays(rows: map<Key, Availability>, user: UserId, es: seq<RecurringAvailability>, d: Day)
    requires WellKeyed(rows)
    requires forall i :: 0 <= i < |es| ==> es[i].day != d
    ensures (user, d) in SaveAll(rows, user, es) <==> (user, d) in rows
    ensures (user, d) in rows ==> SaveAll(rows, user, es)[(user, d)] == rows[(user, d)]
  {
    SaveAllAt(rows, user, es, (user, d));
  }

  /** The rows of `user` for the days in `days`, in that order. */
  function RowsFor(rows: map<Key, Availability>, user: UserId, days: seq<Day>): (r: seq<Availability>)
    ensures forall x :: x in r ==> exists d :: d in days && (user, d) in rows && rows[(user, d)] == x
    ensures forall d :: d in days && (user, d) in rows ==> rows[(user, d)] in r
  {
    if days == [] then []
    else
      var rest := RowsFor(rows, user, days[1..]);
      if (user, days[0]) in rows then [rows[(user, days[0])]] + rest else rest
  }

  class AvailabilityTable {
    var rows: map<Key, Availability>

    ghost predicate Valid()
      reads this
    {
      WellKeyed(rows)
    }

    constructor ()
      ensures Valid() && rows == map[]
    {
      rows := map[];
    }

    /** POST: upsert every entry of the (validated) body for `user`; 204. */
    method Save(user: UserId, entries: seq<RecurringAvailability>) returns (resp: Response<()>)
      requires Valid()
      modifies this
      ensures Valid()
      ensures rows == SaveAll(old(rows), user, entries)
      ensures resp == NoContent
    {
      var i := 0;
      while i < |entries|
        invariant 0 <= i <= |entries|
        invariant WellKeyed(rows)
        invariant rows == SaveAll(old(rows), user, entries[..i])
      {
        SaveEntry(user, entries[i]);
        SaveAllSnoc(old(rows), user, entries, i);
        i := i + 1;
      }
      assert entries[..i] == entries;
      resp := NoContent;
    }

    /** One pass of the save loop: look the row up by `day.strip().lower()`,
        then update it in place or add it. */
    method SaveEntry(user: UserId, e: RecurringAvailability)
      requires Valid()
      modifies this
      ensures Valid()
      ensures rows == Upsert(old(rows), user, e)
    {
      var day := LookupDay(e.day);
      var key := (user, day);
      if key in rows {
        rows := rows[key := rows[key].(startTime := e.startTime, endTime := e.endTime, isAvailable := e.isAvailable)];
      } else {
        rows := rows[key := NewAvailability(user, day, e.startTime, e.endTime, Some(e.isAvailable))];
      }
      UpsertWellKeyed(old(rows), user, e);
    }

    /** GET: the rows of `user`. The database returns them in no stated
        order; this model lists them Monday to Sunday. */
    function GetAll(user: UserId): (r: seq<Availability>)
      reads this
      requires Valid()
      ensures forall x :: x in r ==> x.userId == user && (user, x.day) in rows && rows[(user, x.day)] == x
      ensures forall k :: k in rows && k.0 == user ==> rows[k] in r
    {
      var r := RowsFor(rows, user, AllDays);
      assert forall k :: k in rows ==> k.1 in AllDays by {
        forall k | k in rows ensures k.1 in AllDays { assert AllDays[DayIndex(k.1)] == k.1; }
      }
      r
    }

    /** GET /{day}: the row for the normalised day, or 404. */
    function GetByDay(user: UserId, day: string): (r: Response<Availability>)
      reads this
      ensures r.Ok200? <==> ParseDay(NormaliseDay(day)).Some? && (user, ParseDay(NormaliseDay(day)).value) in rows
      ensures r.Ok200? ==> r.body == rows[(user, ParseDay(NormaliseDay(day)).value)]
      ensures !r.Ok200? ==> r == NotFound(NotFoundDetail)
    {
      match ParseDay(NormaliseDay(day))
      case None => NotFound(NotFoundDetail)
      case Some(d) => if (user, d) in rows then Ok200(rows[(user, d)]) else NotFound(NotFoundDetail)
    }

    /** DELETE /{day}: remove exactly that row and answer 204, or 404. */
    method DeleteByDay(user: UserId, day: string) returns (resp: Response<()>)
      requires Valid()
      modifies this
      ensures Valid()
      ensures old(GetByDay(user, day)).Ok200? ==>
                resp == NoContent && rows == old(rows) - {(user, ParseDay(NormaliseDay(day)).value)}
      ensures !old(GetByDay(user, day)).Ok200? ==> resp == NotFound(NotFoundDetail) && rows == old(rows)
    {
      var d := ParseDay(NormaliseDay(day));
      if d.Some? && (user, d.value) in rows {
        rows := rows - {(user, d.value)};
        resp := NoContent;
      } else {
        resp := NotFound(NotFoundDetail);
      }
    }

    /** `db.delete` of the row under each key, in turn. */
    method DeleteRows(keys: seq<Key>)
      requires Valid()
      modifies this
      ensures Valid()
      ensures forall k :: k in rows <==> k in old(rows) && k !in keys
      ensures forall k :: k in rows ==> rows[k] == old(rows)[k]
    {
      for i := 0 to |keys|
        invariant Valid()
        invariant forall k :: k in rows <==> k in old(rows) && k !in keys[..i]
        invariant forall k :: k in rows ==> rows[k] == old(rows)[k]
      {
        rows := rows - {keys[i]};
        assert keys[..i + 1] == keys[..i] + [keys[i]];
      }
      assert keys[..|keys|] == keys;
    }

    /** DELETE: remove every row of `user`, one by one; 204 even when there
        were none. */
    method DeleteAll(user: UserId) returns (resp: Response<()>)
      requires Valid()
      modifies this
      ensures Valid()
      ensures rows == map k | k in old(rows) && k.0 != user :: old(rows)[k]
      ensures resp == NoContent
    {
      var found := GetAll(user);
      var keys := seq(|found|, j requires 0 <= j < |found| => (user, found[j].day));
      DeleteRows(keys);
      forall k | k in old(rows) && k.0 == user ensures k in keys {
        assert old(rows)[k] in found;
        var j :| 0 <= j < |found| && found[j] == old(rows)[k];
        assert keys[j] == k;
      }
      resp := NoContent;
    }
  }
}
