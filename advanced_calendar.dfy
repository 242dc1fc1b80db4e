/** The month/week/day calendar: the 24 hour slots, which slot an event
    occupies, and which events a month cell or a week-view slot lists.
    Dates are the `yyyy-MM-dd` texts the component compares. */
module AdvancedCalendar {
  import opened Util

  datatype Event = Event(date: string, time: string, endTime: string, title: string, category: string)

  /** The label of slot `i`: the hour as `${i}`, not zero-padded, then ":00". */
  function SlotLabel(i: nat): string {
    NatToString(i) + ":00"
  }

  /** `renderTimeSlots`: one slot per hour, 0 to 23. */
  method TimeSlots() returns (slots: seq<string>)
    ensures |slots| == 24
    ensures forall i :: 0 <= i < 24 ==> slots[i] == SlotLabel(i)
  {
    slots := [];
    for i := 0 to 24
      invariant |slots| == i
      invariant forall k :: 0 <= k < i ==> slots[k] == SlotLabel(k)
    {
      slots := slots + [NatToString(i) + ":00"];
    }
  }

  /** `parseInt(t.split(":")[0])`: the hour, `None` for NaN. */
  function HourOf(t: string): (h: Option<int>)
    ensures ':' !in t ==> h == ParseInt(t)
  {
    assert ':' !in t ==> Split(t, ':') == [t] by {
      if ':' !in t { SplitNoSeparator(t, ':'); }
    }
    ParseInt(Split(t, ':')[0])
  }

  /** Digits before the first ':' are the hour, whatever follows: minutes
      are ignored. */
  lemma HourOfClock(t: string, a: string, rest: string)
    requires a != "" && AllDigits(a) && t == a + ":" + rest
    ensures HourOf(t) == Some(DigitsValue(a))
  {
    NoDigitIn(a, ':');
    assert t == a + [':'] + rest;
    SplitAt(a, ':', rest);
    assert Split(t, ':')[0] == a;
    ParseIntPrefix(a, []);
    assert a + [] == a;
  }

  /** "09:30" starts in slot 9: for any two-digit hour and any minutes. */
  lemma PaddedHour(h: nat, minutes: string)
    requires h < 100
    ensures HourOf(Pad2(h) + ":" + minutes) == Some(h)
  {
    Pad2RoundTrip(h);
    assert |Pad2(h)| == 2;
    HourOfClock(Pad2(h) + ":" + minutes, Pad2(h), minutes);
  }

  /** Each slot's own label reads back as its index. */
  lemma SlotLabelHour(i: nat)
    ensures HourOf(SlotLabel(i)) == Some(i)
  {
    NatToStringRoundTrip(i);
    HourOfClock(SlotLabel(i), NatToString(i), "00");
  }

  /** `eventStart <= index && eventEnd > index`; a NaN hour compares false,
      so an event with an unreadable hour occupies no slot. */
  predicate Occupies(e: Event, i: int) {
    var s, t := HourOf(e.time), HourOf(e.endTime);
    s.Some? && t.Some? && s.value <= i < t.value
  }

  /** An event from "HH:mm" to "HH:mm" occupies exactly the slots from its
      start hour up to, not including, its end hour, whatever the minutes;
      an end hour at or before the start hour gives none. An event whose
      start time is empty occupies no slot. */
  lemma OccupiesExactly(date: string, h: nat, m1: string, k: nat, m2: string, title: string, category: string, i: int)
    requires h < 100 && k < 100
    ensures Occupies(Event(date, Pad2(h) + ":" + m1, Pad2(k) + ":" + m2, title, category), i) <==> h <= i < k
    ensures !Occupies(Event(date, "", Pad2(k) + ":" + m2, title, category), i)
  {
    PaddedHour(h, m1);
    PaddedHour(k, m2);
    assert HourOf("") == ParseInt("");
  }

  /** `events.filter(event => event.date === formattedDate)`. */
  function OnDate(events: seq<Event>, date: string): (r: seq<Event>)
    ensures forall i :: 0 <= i < |r| ==> r[i] in events && r[i].date == date
  {
    Filter(events, (e: Event) => e.date == date)
  }

  /** A month cell lists exactly the events whose date text is the cell's. */
  lemma OnDateExactly(events: seq<Event>, date: string, e: Event)
    ensures e in OnDate(events, date) <==> e in events && e.date == date
  {
    if e in events && e.date == date {
      FilterKeeps(events, (e: Event) => e.date == date, e);
    }
  }

  /** What the week view draws in slot `i` of a day's column. */
  function SlotEvents(events: seq<Event>, date: string, i: int): (r: seq<Event>)
    ensures forall k :: 0 <= k < |r| ==> r[k] in events && r[k].date == date && Occupies(r[k], i)
  {
    Filter(OnDate(events, date), (e: Event) => Occupies(e, i))
  }

  /** The week view shows an event in a slot exactly when the day matches
      and the event occupies that hour. */
  lemma SlotEventsExactly(events: seq<Event>, date: string, i: int, e: Event)
    ensures e in SlotEvents(events, date, i) <==> e in events && e.date == date && Occupies(e, i)
  {
    if e in events && e.date == date && Occupies(e, i) {
      OnDateExactly(events, date, e);
      FilterKeeps(OnDate(events, date), (e: Event) => Occupies(e, i), e);
    }
  }
}
