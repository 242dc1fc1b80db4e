/** The drag-and-drop week component: events dropped on a day are recorded
    as `{ id, day }` pairs and each day column lists its own. */
module DropCalendar {
  import opened Util

  datatype DroppedEvent = DroppedEvent(id: string, day: int)

  /** The list starts empty. */
  const InitialEvents: seq<DroppedEvent> := []

  /** `handleDrop`'s updater: the pair is appended and nothing is removed. */
  function Drop(events: seq<DroppedEvent>, id: string, day: int): (r: seq<DroppedEvent>)
    ensures |r| == |events| + 1 && r[..|events|] == events && r[|events|] == DroppedEvent(id, day)
  {
    events + [DroppedEvent(id, day)]
  }

  /** `events.filter(event => event.day === day)`. */
  function DayEvents(events: seq<DroppedEvent>, day: int): (r: seq<DroppedEvent>)
    ensures forall i :: 0 <= i < |r| ==> r[i] in events && r[i].day == day
  {
    Filter(events, (e: DroppedEvent) => e.day == day)
  }

  /** A drop shows last in its own column and changes no other column. */
  lemma DropShown(events: seq<DroppedEvent>, id: string, day: int, other: int)
    requires other != day
    ensures DayEvents(Drop(events, id, day), day) == DayEvents(events, day) + [DroppedEvent(id, day)]
    ensures DayEvents(Drop(events, id, day), other) == DayEvents(events, other)
  {
    FilterAppend(events, [DroppedEvent(id, day)], (e: DroppedEvent) => e.day == day);
    FilterAppend(events, [DroppedEvent(id, day)], (e: DroppedEvent) => e.day == other);
  }

  /** There is no move and no deduplication: dropping one id on two days
      leaves it in both columns, and dropping it twice on one day lists it
      twice. */
  lemma DropKeepsCopies(id: string, d1: int, d2: int)
    requires d1 != d2
    ensures DayEvents(Drop(Drop(InitialEvents, id, d1), id, d2), d1) == [DroppedEvent(id, d1)]
    ensures DayEvents(Drop(Drop(InitialEvents, id, d1), id, d2), d2) == [DroppedEvent(id, d2)]
    ensures DayEvents(Drop(Drop(InitialEvents, id, d1), id, d1), d1) == [DroppedEvent(id, d1), DroppedEvent(id, d1)]
  {
    DropShown(InitialEvents, id, d1, d2);
    DropShown(Drop(InitialEvents, id, d1), id, d2, d1);
    DropShown(InitialEvents, id, d1, d2);
    DropShown(Drop(InitialEvents, id, d1), id, d1, d2);
  }
}
