/** The static week view: 24 hour rows, seven day columns, and events
    placed by their `HH:MM` start and end. */
module WeeklyCalendar {
  import opened Util

  datatype Event = Event(id: int, title: string, start: string, end: string, day: int)

  /** The hour labels: `i < 10 ? "0" + i : i` followed by ":00". */
  function Hours(): (hs: seq<string>)
    ensures |hs| == 24
    ensures forall i :: 0 <= i < 24 ==> hs[i] == Pad2(i) + ":00"
  {
    seq(24, i requires 0 <= i < 24 => Pad2(i) + ":00")
  }

  const Events: seq<Event> := [
    Event(1, "Meeting", "10:00", "11:00", 1),
    Event(2, "Lunch", "12:00", "13:00", 2),
    Event(3, "Conference", "14:00", "16:00", 3)]

  /** `getTimeOffset`: the text split at ':' and each of the first two parts
      read with `Number`; `None` is NaN, when a part is missing or is not a
      number. Parts after the second are ignored. */
  function TimeOffset(time: string): (r: Option<int>)
    ensures ':' !in time ==> r.None?
  {
    var parts := Split(time, ':');
    if |parts| < 2 then None
    else
      var h, m := JsNumber(parts[0]), JsNumber(parts[1]);
      if h.Some? && m.Some? then Some(h.value * 60 + m.value) else None
  }

  /** Two runs of digits joined by ':' split back into the two. */
  lemma ClockSplit(a: string, b: string)
    requires AllDigits(a) && AllDigits(b)
    ensures Split(a + ":" + b, ':') == [a, b]
  {
    NoDigitIn(a, ':');
    NoDigitIn(b, ':');
    assert a + ":" + b == a + [':'] + b;
    SplitAt(a, ':', b);
    SplitNoSeparator(b, ':');
  }

  /** `hours:minutes` with two runs of digits is read back as
      `hours * 60 + minutes`. */
  lemma ClockOffset(t: string, a: string, b: string)
    requires a != "" && AllDigits(a) && b != "" && AllDigits(b) && t == a + ":" + b
    ensures TimeOffset(t) == Some(DigitsValue(a) * 60 + DigitsValue(b))
  {
    ClockSplit(a, b);
    JsNumberDigits(a);
    JsNumberDigits(b);
  }

  /** What the offset proofs need of a two-digit rendering. */
  lemma Pad2Facts(n: nat)
    requires n < 100
    ensures |Pad2(n)| == 2 && AllDigits(Pad2(n)) && DigitsValue(Pad2(n)) == n
  {
    Pad2RoundTrip(n);
  }

  /** A clock text of two-digit hours and minutes is read back as minutes
      since midnight. */
  lemma TimeOffsetPadded(h: nat, m: nat)
    requires h < 100 && m < 100
    ensures TimeOffset(Pad2(h) + ":" + Pad2(m)) == Some(h * 60 + m)
  {
    var a, b := Pad2(h), Pad2(m);
    Pad2Facts(h);
    Pad2Facts(m);
    ClockOffset(a + ":" + b, a, b);
    assert DigitsValue(a) * 60 + DigitsValue(b) == h * 60 + m;
  }

  /** Each hour label's offset is its hour's start, so labels and event
      offsets agree. */
  lemma HoursOffsets(i: nat)
    requires i < 24
    ensures TimeOffset(Hours()[i]) == Some(60 * i)
  {
    var p := Pad2(i);
    Pad2Facts(i);
    ZeroMinutes();
    assert Hours()[i] == p + ":" + "00";
    ClockOffset(p + ":" + "00", p, "00");
  }

  /** The ":00" of every hour label reads as zero minutes. */
  lemma ZeroMinutes()
    ensures AllDigits("00") && DigitsValue("00") == 0
  {
    assert "00"[..1] == "0" && "0"[..0] == "";
  }

  /** No two hour labels are equal. */
  lemma HoursDistinct(i: nat, j: nat)
    requires i < 24 && j < 24 && i != j
    ensures Hours()[i] != Hours()[j]
  {
    Pad2Facts(i);
    Pad2Facts(j);
    assert Hours()[i][..2] == Pad2(i) && Hours()[j][..2] == Pad2(j);
  }

  /** `events.filter(event => event.day === day)`. */
  function DayColumn(events: seq<Event>, day: int): (r: seq<Event>)
    ensures forall i :: 0 <= i < |r| ==> r[i] in events && r[i].day == day
  {
    Filter(events, (e: Event) => e.day == day)
  }

  /** An event is drawn in its own day's column and in no other. */
  lemma DayColumnExactly(events: seq<Event>, day: int, e: Event)
    ensures e in DayColumn(events, day) <==> e in events && e.day == day
  {
    if e in events && e.day == day {
      FilterKeeps(events, (e: Event) => e.day == day, e);
    }
  }

  /** The height in minutes of an event from `start` to `end`: the end
      offset minus the start offset, NaN when either is. */
  function Span(start: string, end: string): (d: Option<int>)
    ensures d.Some? <==> TimeOffset(start).Some? && TimeOffset(end).Some?
    ensures d.Some? ==> d.value == TimeOffset(end).value - TimeOffset(start).value
    ensures d.Some? ==> (d.value < 0 <==> TimeOffset(end).value < TimeOffset(start).value)
  {
    var s, t := TimeOffset(start), TimeOffset(end);
    if s.Some? && t.Some? then Some(t.value - s.value) else None
  }

  /** An event's height in minutes. */
  function Duration(e: Event): Option<int> {
    Span(e.start, e.end)
  }

  /** An event from one zero-padded "HH:MM" to another is as tall as the
      minutes between them; one that ends before it starts has a negative
      height. */
  lemma DurationPadded(e: Event, h1: nat, m1: nat, h2: nat, m2: nat)
    requires h1 < 100 && m1 < 100 && h2 < 100 && m2 < 100
    requires e.start == Pad2(h1) + ":" + Pad2(m1) && e.end == Pad2(h2) + ":" + Pad2(m2)
    ensures Duration(e) == Some((h2 * 60 + m2) - (h1 * 60 + m1))
  {
    TimeOffsetPadded(h1, m1);
    TimeOffsetPadded(h2, m2);
  }

  /** The column of `day` among the built-in events, event by event. */
  lemma EventsColumn(day: int)
    ensures DayColumn(Events, day) ==
              (if Events[0].day == day then [Events[0]] else [])
              + (if Events[1].day == day then [Events[1]] else [])
              + (if Events[2].day == day then [Events[2]] else [])
  {
    var p := (e: Event) => e.day == day;
    var a, b, c := [Events[0]], [Events[1]], [Events[2]];
    assert Events == a + b + c;
    FilterAppend(a + b, c, p);
    FilterAppend(a, b, p);
    assert a[1..] == [] && b[1..] == [] && c[1..] == [];
  }

  /** The built-in events sit one each on Monday, Tuesday and Wednesday,
      and every other column is empty. */
  lemma StaticColumns()
    ensures DayColumn(Events, 1) == [Events[0]] && DayColumn(Events, 2) == [Events[1]]
    ensures DayColumn(Events, 3) == [Events[2]]
    ensures forall day :: day != 1 && day != 2 && day != 3 ==> DayColumn(Events, day) == []
  {
    EventsColumn(1);
    EventsColumn(2);
    EventsColumn(3);
    forall day | day != 1 && day != 2 && day != 3
      ensures DayColumn(Events, day) == []
    {
      EventsColumn(day);
    }
  }
}
