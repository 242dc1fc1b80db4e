/** The calendar page's event list: moving an event by drag and drop,
    adding one from a day's popover, and the 6-by-7 month grid with each
    day's events. Dates are the `yyyy-MM-dd` texts the page compares; the
    date arithmetic that produces them is a parameter. */
module CalendarPage {
  import opened Util

  datatype Event = Event(id: string, date: string, title: string)

  /** The one event the page starts with. */
  const InitialEvents: seq<Event> := [Event("1", "2024-07-12", "Meeting")]

  /** `findIndex(event => event.id === id)`: the first match, or -1. */
  function FindIndex(events: seq<Event>, id: string): (i: int)
    ensures -1 <= i < |events|
    ensures i >= 0 ==> events[i].id == id && forall j :: 0 <= j < i ==> events[j].id != id
    ensures i == -1 <==> forall j :: 0 <= j < |events| ==> events[j].id != id
  {
    if events == [] then -1
    else if events[0].id == id then 0
    else
      var k := FindIndex(events[1..], id);
      if k == -1 then -1 else k + 1
  }

  /** The updater `moveEvent` hands to `setEvents`: the event at the found
      index is spliced out of a copy and appended with the given id, its
      title and the target date. `None` is the TypeError of reading
      `arr[0].title` when the splice removed nothing. */
  function Moved(prev: seq<Event>, id: string, to: string): (r: Option<seq<Event>>)
    ensures r.Some? <==> prev != []
    ensures r.Some? ==> |r.value| == |prev| && r.value[|prev| - 1] == Event(id, to, r.value[|prev| - 1].title)
  {
    var idx := FindIndex(prev, id);
    var arr := SpliceRemoved(prev, idx);
    if arr == [] then None else Some(SpliceOne(prev, idx) + [Event(id, to, arr[0].title)])
  }

  /** A found event leaves its place and comes back last with the new date;
      the others keep their order. */
  lemma MoveFound(prev: seq<Event>, id: string, to: string)
    requires FindIndex(prev, id) >= 0
    ensures var i := FindIndex(prev, id);
            Moved(prev, id, to) == Some(prev[..i] + prev[i + 1..] + [Event(id, to, prev[i].title)])
  {
  }

  /** An id that is not in the list makes the index -1, so the LAST event is
      taken out and re-added under the unknown id, with its title. */
  lemma MoveNotFound(prev: seq<Event>, id: string, to: string)
    requires prev != [] && forall j :: 0 <= j < |prev| ==> prev[j].id != id
    ensures Moved(prev, id, to) == Some(prev[..|prev| - 1] + [Event(id, to, prev[|prev| - 1].title)])
    ensures Moved(prev, id, to).value[|prev| - 1].id != prev[|prev| - 1].id
  {
    SpliceMinusOne(prev);
  }

  predicate DistinctIds(events: seq<Event>) {
    forall j, k :: 0 <= j < k < |events| ==> events[j].id != events[k].id
  }

  /** In a list whose only event with `e`'s id is the last one, that one is
      found. */
  lemma FoundLast(rest: seq<Event>, e: Event)
    requires forall j :: 0 <= j < |rest| ==> rest[j].id != e.id
    ensures FindIndex(rest + [e], e.id) == |rest|
  {
    var m := rest + [e];
    assert m[|rest|].id == e.id;
  }

  /** Moving an event away and back restores it, date included; it stays at
      the end of the list. */
  lemma MoveBack(prev: seq<Event>, id: string, to: string)
    requires DistinctIds(prev) && FindIndex(prev, id) >= 0
    ensures var i := FindIndex(prev, id);
            Moved(prev, id, to).Some? &&
            Moved(Moved(prev, id, to).value, id, prev[i].date) == Some(prev[..i] + prev[i + 1..] + [prev[i]])
  {
    var i := FindIndex(prev, id);
    var rest := prev[..i] + prev[i + 1..];
    var e := Event(id, to, prev[i].title);
    MoveFound(prev, id, to);
    var m := rest + [e];
    assert Moved(prev, id, to).value == m;
    forall j | 0 <= j < |rest| ensures rest[j].id != id {
      if j < i { assert rest[j] == prev[j]; } else { assert rest[j] == prev[j + 1]; }
    }
    FoundLast(rest, e);
    var k := |rest|;
    assert FindIndex(m, id) == k && m[k] == e;
    MoveFound(m, id, prev[i].date);
    assert m[..k] == rest && m[k + 1..] == [];
    assert m[..k] + m[k + 1..] == rest;
    var back := Event(id, prev[i].date, m[k].title);
    assert Moved(m, id, prev[i].date) == Some(m[..k] + m[k + 1..] + [back]);
    assert back == prev[i];
  }

  /** The Save button's event: the clock's value as its id. */
  function NewEvent(date: string, now: nat): (e: Event)
    ensures e.date == date && e.title == "New Event"
    ensures AllDigits(e.id) && DigitsValue(e.id) == now
  {
    NatToStringRoundTrip(now);
    Event(NatToString(now), date, "New Event")
  }

  /** `events.filter(event => event.date === formattedDate)`. */
  function OnDate(events: seq<Event>, date: string): (r: seq<Event>)
    ensures forall i :: 0 <= i < |r| ==> r[i] in events && r[i].date == date
  {
    Filter(events, (e: Event) => e.date == date)
  }

  /** A cell shows exactly the events whose date text is the cell's. */
  lemma OnDateExactly(events: seq<Event>, date: string, e: Event)
    ensures e in OnDate(events, date) <==> e in events && e.date == date
  {
    if e in events && e.date == date {
      FilterKeeps(events, (e: Event) => e.date == date, e);
    }
  }

  /** A saved event shows in its own day's cell, after the ones already
      there, and in no other cell. */
  lemma AddedEventShown(events: seq<Event>, date: string, now: nat, other: string)
    requires other != date
    ensures OnDate(events + [NewEvent(date, now)], date) == OnDate(events, date) + [NewEvent(date, now)]
    ensures OnDate(events + [NewEvent(date, now)], other) == OnDate(events, other)
  {
    FilterAppend(events, [NewEvent(date, now)], (e: Event) => e.date == date);
    FilterAppend(events, [NewEvent(date, now)], (e: Event) => e.date == other);
  }

  datatype CellView = CellView(date: string, events: seq<Event>)

  /** The cell `k` days after the grid's first day, whose date text is
      `dateOf(k)`. */
  function CellAt(events: seq<Event>, dateOf: nat -> string, k: nat): CellView {
    CellView(dateOf(k), OnDate(events, dateOf(k)))
  }

  /** The page's events. */
  class CalendarState {
    var events: seq<Event>

    constructor ()
      ensures events == InitialEvents
    {
      events := InitialEvents;
    }

    /** `moveEvent(id, from, to)`: nothing happens when the dragged event is
        dropped on its own date. `ok` is false when the updater throws; the
        list is then kept. */
    method MoveEvent(id: string, from: string, to: string) returns (ok: bool)
      modifies this
      ensures from == to ==> ok && events == old(events)
      ensures from != to ==> ok == (old(events) != [])
      ensures ok && from != to ==> events == Moved(old(events), id, to).value
      ensures !ok ==> events == old(events)
    {
      ok := true;
      if from != to {
        var eventIndex := FindIndex(events, id);
        var newEvents := events;
        var arr := SpliceRemoved(newEvents, eventIndex);
        newEvents := SpliceOne(newEvents, eventIndex);
        if arr == [] {
          ok := false;
          return;
        }
        newEvents := newEvents + [Event(id, to, arr[0].title)];
        events := newEvents;
      }
    }

    /** Save in a day's popover appends a "New Event" for that day. */
    method AddEvent(date: string, now: nat)
      modifies this
      ensures events == old(events) + [NewEvent(date, now)]
    {
      events := events + [Event(NatToString(now), date, "New Event")];
    }

    /** `renderCells`: six rows of seven cells, day after day from the
        grid's first day, each with that day's events. */
    method RenderCells(dateOf: nat -> string) returns (rows: seq<seq<CellView>>)
      ensures |rows| == 6
      ensures forall z :: 0 <= z < 6 ==> |rows[z]| == 7
      ensures forall z, i :: 0 <= z < 6 && 0 <= i < 7 ==> rows[z][i] == CellAt(events, dateOf, 7 * z + i)
    {
      rows := [];
      var days: seq<CellView> := [];
      var day: nat := 0;
      for z := 0 to 6
        invariant |rows| == z && day == 7 * z && days == []
        invariant forall y :: 0 <= y < z ==> |rows[y]| == 7
        invariant forall y, i :: 0 <= y < z && 0 <= i < 7 ==> rows[y][i] == CellAt(events, dateOf, 7 * y + i)
      {
        for i := 0 to 7
          invariant day == 7 * z + i && |days| == i
          invariant forall k :: 0 <= k < i ==> days[k] == CellAt(events, dateOf, 7 * z + k)
        {
          var formattedDate := dateOf(day);
          var currentDayEvents := OnDate(events, formattedDate);
          days := days + [CellView(formattedDate, currentDayEvents)];
          day := day + 1;
        }
        rows := rows + [days];
        days := [];
      }
    }
  }
}
