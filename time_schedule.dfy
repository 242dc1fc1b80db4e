/** The recurring-availability editor of the web client. Each weekday is a
    mutable record object; the module-level default records are objects too,
    and the editor's list holds them by reference wherever the server reply
    leaves a day out, so an edit of such a day writes into the defaults. */
module TimeSchedule {
  import opened Util
  import opened AvailabilityModel

  /** The values one day record holds at some moment. */
  datatype DayView = DayView(name: Day, checked: bool, start: string, end: string)

  /** One `{ name, checked, start, end }` record. `name` never changes. */
  class DayRecord {
    const name: Day
    var checked: bool
    var start: string
    var end: string

    constructor (name: Day, checked: bool, start: string, end: string)
      ensures this.name == name && this.checked == checked && this.start == start && this.end == end
    {
      this.name := name;
      this.checked := checked;
      this.start := start;
      this.end := end;
    }

    function View(): DayView
      reads this
    {
      DayView(name, checked, start, end)
    }
  }

  /** The values of a list of records, in order. */
  function Views(rs: seq<DayRecord>): (vs: seq<DayView>)
    reads rs
    ensures |vs| == |rs|
    ensures forall i :: 0 <= i < |rs| ==> vs[i] == rs[i].View()
  {
    seq(|rs|, i requires 0 <= i < |rs| reads rs => rs[i].View())
  }

  /** A list of seven records, one per weekday, Monday first. */
  predicate Weekly(rs: seq<DayRecord>) {
    |rs| == 7 && forall i :: 0 <= i < 7 ==> rs[i].name == AllDays[i]
  }

  /** A list of seven views, one per weekday, Monday first. */
  predicate WeeklyViews(vs: seq<DayView>) {
    |vs| == 7 && forall i :: 0 <= i < 7 ==> vs[i].name == AllDays[i]
  }

  /** The value of a `DEFAULT_DAYS` record: unchecked, from "00:00" to "00:00". */
  function DefaultView(d: Day): DayView {
    DayView(d, false, "00:00", "00:00")
  }

  /** `DEFAULT_DAYS`: seven new records holding the default values. Its key
      order, and so the order of `Object.values`, is Monday to Sunday. */
  method NewDefaultDays() returns (defaults: seq<DayRecord>)
    ensures Weekly(defaults)
    ensures forall i :: 0 <= i < 7 ==> fresh(defaults[i]) && defaults[i].View() == DefaultView(AllDays[i])
  {
    var mo := new DayRecord(Monday, false, "00:00", "00:00");
    var tu := new DayRecord(Tuesday, false, "00:00", "00:00");
    var we := new DayRecord(Wednesday, false, "00:00", "00:00");
    var th := new DayRecord(Thursday, false, "00:00", "00:00");
    var fr := new DayRecord(Friday, false, "00:00", "00:00");
    var sa := new DayRecord(Saturday, false, "00:00", "00:00");
    var su := new DayRecord(Sunday, false, "00:00", "00:00");
    defaults := [mo, tu, we, th, fr, sa, su];
  }

  /** One row of the server's reply as the client reads it; the row id and
      user id play no part in the merge. */
  datatype FetchedDay = FetchedDay(day: Day, startTime: string, endTime: string, isAvailable: bool)

  /** The record the merge builds for a fetched row: `checked` is
      `is_available`, the times keep their first five characters. */
  function FetchedView(f: FetchedDay): (v: DayView)
    ensures v.name == f.day && v.checked == f.isAvailable
    ensures v.start == Prefix(f.startTime, 5) && v.end == Prefix(f.endTime, 5)
  {
    DayView(f.day, f.isAvailable, Prefix(f.startTime, 5), Prefix(f.endTime, 5))
  }

  /** The last fetched row for day `d`: the `forEach` assigns in list order,
      so a later row for the same day overwrites an earlier one. */
  function LastFetched(fetched: seq<FetchedDay>, d: Day): (r: Option<FetchedDay>)
    ensures r.Some? ==> r.value in fetched && r.value.day == d
    ensures r.None? ==> forall i :: 0 <= i < |fetched| ==> fetched[i].day != d
    decreases |fetched|
  {
    if fetched == [] then None
    else if fetched[|fetched| - 1].day == d then Some(fetched[|fetched| - 1])
    else LastFetched(fetched[..|fetched| - 1], d)
  }

  /** One more fetched row: it is the last one for its own day. */
  lemma LastFetchedSnoc(fetched: seq<FetchedDay>, i: nat, d: Day)
    requires i < |fetched|
    ensures LastFetched(fetched[..i + 1], d) ==
              if fetched[i].day == d then Some(fetched[i]) else LastFetched(fetched[..i], d)
  {
    assert fetched[..i + 1][..i] == fetched[..i];
  }

  /** The value of the merge at weekday position `i`. */
  function MergedDay(default: DayView, fetched: seq<FetchedDay>, d: Day): DayView {
    match LastFetched(fetched, d)
    case None => default
    case Some(f) => FetchedView(f)
  }

  /** The values `mergeAvailabilityData` produces from the default values. */
  function MergedViews(defaults: seq<DayView>, fetched: seq<FetchedDay>): (vs: seq<DayView>)
    requires |defaults| == 7
    ensures |vs| == 7
  {
    seq(7, i requires 0 <= i < 7 => MergedDay(defaults[i], fetched, AllDays[i]))
  }

  /** The dictionary `mergeAvailabilityData` builds: a shallow copy of
      `DEFAULT_DAYS` (the same record objects), then one new record per
      fetched row, assigned in list order. */
  method MergeState(defaults: seq<DayRecord>, fetched: seq<FetchedDay>) returns (daysState: map<Day, DayRecord>)
    requires Weekly(defaults)
    ensures forall d: Day :: d in daysState && daysState[d].name == d
    ensures forall d: Day :: LastFetched(fetched, d).None? ==> daysState[d] == defaults[DayIndex(d)]
    ensures forall d: Day :: LastFetched(fetched, d).Some? ==>
              fresh(daysState[d]) && daysState[d].View() == FetchedView(LastFetched(fetched, d).value)
  {
    daysState := map[Monday := defaults[0], Tuesday := defaults[1], Wednesday := defaults[2],
      Thursday := defaults[3], Friday := defaults[4], Saturday := defaults[5], Sunday := defaults[6]];
    forall d: Day ensures d in daysState && daysState[d] == defaults[DayIndex(d)] {
      match d
      case Monday => case Tuesday => case Wednesday => case Thursday =>
      case Friday => case Saturday => case Sunday =>
    }
    var i := 0;
    while i < |fetched|
      invariant 0 <= i <= |fetched|
      invariant forall d: Day :: d in daysState && daysState[d].name == d
      invariant forall d: Day :: LastFetched(fetched[..i], d).None? ==> daysState[d] == defaults[DayIndex(d)]
      invariant forall d: Day :: LastFetched(fetched[..i], d).Some? ==>
                  fresh(daysState[d]) && daysState[d].View() == FetchedView(LastFetched(fetched[..i], d).value)
    {
      var data := fetched[i];
      var r := new DayRecord(data.day, data.isAvailable, Prefix(data.startTime, 5), Prefix(data.endTime, 5));
      ghost var before := daysState;
      daysState := daysState[data.day := r];
      forall d: Day
        ensures d in daysState && daysState[d].name == d
        ensures LastFetched(fetched[..i + 1], d).None? ==> daysState[d] == defaults[DayIndex(d)]
        ensures LastFetched(fetched[..i + 1], d).Some? ==>
                  fresh(daysState[d]) && daysState[d].View() == FetchedView(LastFetched(fetched[..i + 1], d).value)
      {
        LastFetchedSnoc(fetched, i, d);
        if d != data.day {
          assert daysState[d] == before[d];
        }
      }
      i := i + 1;
    }
    assert fetched[..i] == fetched;
  }

  /** `mergeAvailabilityData`: the dictionary's values in Monday-to-Sunday
      order (its key order; the sort by `DAYS_ORDER` leaves that order as it
      is). A day with no fetched row is represented by the default record
      object itself. */
  method Merge(defaults: seq<DayRecord>, fetched: seq<FetchedDay>) returns (merged: seq<DayRecord>)
    requires Weekly(defaults)
    ensures Weekly(merged)
    ensures Views(merged) == MergedViews(Views(defaults), fetched)
    ensures forall i :: 0 <= i < 7 && LastFetched(fetched, AllDays[i]).None? ==> merged[i] == defaults[i]
    ensures forall i :: 0 <= i < 7 && LastFetched(fetched, AllDays[i]).Some? ==> fresh(merged[i])
  {
    var daysState := MergeState(defaults, fetched);
    merged := [daysState[Monday], daysState[Tuesday], daysState[Wednesday], daysState[Thursday],
               daysState[Friday], daysState[Saturday], daysState[Sunday]];
    forall j | 0 <= j < 7
      ensures merged[j] == daysState[AllDays[j]]
      ensures LastFetched(fetched, AllDays[j]).None? ==> merged[j] == defaults[j]
      ensures LastFetched(fetched, AllDays[j]).Some? ==> fresh(merged[j])
    {
      AllDaysExactlyOnce(AllDays[j], j);
    }
    MergedRecordViews(defaults, fetched, daysState, merged);
  }

  /** The values of the records the merge lists are `MergedViews`. */
  lemma MergedRecordViews(defaults: seq<DayRecord>, fetched: seq<FetchedDay>, daysState: map<Day, DayRecord>, merged: seq<DayRecord>)
    requires Weekly(defaults) && |merged| == 7
    requires forall d: Day :: d in daysState && daysState[d].name == d
    requires forall j :: 0 <= j < 7 ==> merged[j] == daysState[AllDays[j]]
    requires forall d: Day :: LastFetched(fetched, d).None? ==> daysState[d] == defaults[DayIndex(d)]
    requires forall d: Day :: LastFetched(fetched, d).Some? ==>
               daysState[d].View() == FetchedView(LastFetched(fetched, d).value)
    ensures Weekly(merged)
    ensures Views(merged) == MergedViews(Views(defaults), fetched)
  {
    ghost var dv := Views(defaults);
    ghost var got, expected := Views(merged), MergedViews(dv, fetched);
    forall j | 0 <= j < 7 ensures merged[j].name == AllDays[j] && got[j] == expected[j] {
      AllDaysExactlyOnce(AllDays[j], j);
      assert got[j] == merged[j].View();
      assert expected[j] == MergedDay(dv[j], fetched, AllDays[j]);
    }
    assert got == expected;
  }

  /** The merge lists the seven weekdays once each, Monday first. */
  lemma MergedWeekly(defaults: seq<DayView>, fetched: seq<FetchedDay>)
    requires WeeklyViews(defaults)
    ensures WeeklyViews(MergedViews(defaults, fetched))
  {
    var vs := MergedViews(defaults, fetched);
    forall i | 0 <= i < 7 ensures vs[i].name == AllDays[i] {
      assert vs[i] == MergedDay(defaults[i], fetched, AllDays[i]);
    }
  }

  /** A day the server did not return keeps its default. */
  lemma MergedMissingDay(defaults: seq<DayView>, fetched: seq<FetchedDay>, d: Day)
    requires |defaults| == 7
    requires forall j :: 0 <= j < |fetched| ==> fetched[j].day != d
    ensures MergedViews(defaults, fetched)[DayIndex(d)] == defaults[DayIndex(d)]
  {
    assert MergedViews(defaults, fetched)[DayIndex(d)] == MergedDay(defaults[DayIndex(d)], fetched, d);
  }

  /** A fetched row with no later row for the same day is what the merge
      shows for that day: "10:00:00" is shown as "10:00". */
  lemma {:induction false} LastFetchedWins(fetched: seq<FetchedDay>, j: nat)
    requires j < |fetched|
    requires forall k :: j < k < |fetched| ==> fetched[k].day != fetched[j].day
    ensures LastFetched(fetched, fetched[j].day) == Some(fetched[j])
    decreases |fetched|
  {
    if j < |fetched| - 1 {
      LastFetchedWins(fetched[..|fetched| - 1], j);
    }
  }

  lemma MergedFetchedDay(defaults: seq<DayView>, fetched: seq<FetchedDay>, j: nat)
    requires |defaults| == 7
    requires j < |fetched|
    requires forall k :: j < k < |fetched| ==> fetched[k].day != fetched[j].day
    ensures MergedViews(defaults, fetched)[DayIndex(fetched[j].day)] == FetchedView(fetched[j])
  {
    LastFetchedWins(fetched, j);
    var d := fetched[j].day;
    assert MergedViews(defaults, fetched)[DayIndex(d)] == MergedDay(defaults[DayIndex(d)], fetched, d);
  }

  /** The server's `time.isoformat()` text, cut to five characters, is the
      "HH:MM" text the editor shows. */
  lemma IsoFormatPrefix(t: TimeOfDay)
    requires ValidTime(t)
    ensures Prefix(IsoFormat(t), 5) == Pad2(t.hour) + ":" + Pad2(t.minute)
  {
    var s := IsoFormat(t);
    assert s == Pad2(t.hour) + ":" + Pad2(t.minute) + (":" + Pad2(t.second));
  }

  /** One business-hours `map` step at list position `index`. */
  function BusinessHoursDay(v: DayView, index: nat, on: bool): DayView {
    if index < 5 then
      if on then v.(checked := true, start := "09:00", end := "18:00") else v.(checked := false)
    else v
  }

  /** The values the business-hours effect produces. */
  function BusinessHours(vs: seq<DayView>, on: bool): (r: seq<DayView>)
    ensures |r| == |vs|
  {
    seq(|vs|, i requires 0 <= i < |vs| => BusinessHoursDay(vs[i], i, on))
  }

  /** Switching business hours on: the first five days become checked from
      09:00 to 18:00; the weekend stays as it was. */
  lemma BusinessHoursOn(vs: seq<DayView>, i: nat)
    requires i < |vs|
    ensures i < 5 ==> BusinessHours(vs, true)[i] == DayView(vs[i].name, true, "09:00", "18:00")
    ensures i >= 5 ==> BusinessHours(vs, true)[i] == vs[i]
  {
    assert BusinessHours(vs, true)[i] == BusinessHoursDay(vs[i], i, true);
  }

  /** Switching business hours off: the first five days become unchecked and
      keep their times; the weekend stays as it was. */
  lemma BusinessHoursOff(vs: seq<DayView>, i: nat)
    requires i < |vs|
    ensures i < 5 ==> BusinessHours(vs, false)[i] == DayView(vs[i].name, false, vs[i].start, vs[i].end)
    ensures i >= 5 ==> BusinessHours(vs, false)[i] == vs[i]
  {
    assert BusinessHours(vs, false)[i] == BusinessHoursDay(vs[i], i, false);
  }

  /** Applying the same setting twice is applying it once. */
  lemma BusinessHoursIdempotent(vs: seq<DayView>, on: bool)
    ensures BusinessHours(BusinessHours(vs, on), on) == BusinessHours(vs, on)
  {
    var once := BusinessHours(vs, on);
    forall i | 0 <= i < |vs| ensures BusinessHours(once, on)[i] == once[i] {
      assert once[i] == BusinessHoursDay(vs[i], i, on);
      assert BusinessHours(once, on)[i] == BusinessHoursDay(once[i], i, on);
    }
  }

  /** One step of the business-hours `map`: a spread copy with the new
      values at the first five positions, the record itself elsewhere. */
  method BusinessHoursRecord(day: DayRecord, index: nat, on: bool) returns (r: DayRecord)
    ensures r.name == day.name && r.View() == BusinessHoursDay(day.View(), index, on)
    ensures index < 5 ==> fresh(r)
    ensures index >= 5 ==> r == day
  {
    if index < 5 {
      if on {
        r := new DayRecord(day.name, true, "09:00", "18:00");
      } else {
        r := new DayRecord(day.name, false, day.start, day.end);
      }
    } else {
      r := day;
    }
  }

  /** The business-hours effect's `map`: a new record (a spread copy) for
      each of the first five positions, the same record object elsewhere. */
  method ApplyBusinessHours(prev: seq<DayRecord>, on: bool) returns (next: seq<DayRecord>)
    ensures |next| == |prev|
    ensures Views(next) == BusinessHours(Views(prev), on)
    ensures forall i :: 0 <= i < |prev| ==> next[i].name == prev[i].name
    ensures forall i :: 0 <= i < |prev| && i < 5 ==> fresh(next[i])
    ensures forall i :: 5 <= i < |prev| ==> next[i] == prev[i]
  {
    ghost var pv := Views(prev);
    next := [];
    for i := 0 to |prev|
      invariant |next| == i
      invariant forall j :: 0 <= j < i ==>
                  && next[j].name == prev[j].name && next[j].View() == BusinessHoursDay(pv[j], j, on)
                  && (j < 5 ==> fresh(next[j])) && (j >= 5 ==> next[j] == prev[j])
    {
      assert pv[i] == prev[i].View();
      var copy := BusinessHoursRecord(prev[i], i, on);
      next := next + [copy];
    }
    ghost var got, want := Views(next), BusinessHours(pv, on);
    forall j | 0 <= j < |prev| ensures got[j] == want[j] {
      assert got[j] == next[j].View();
    }
    assert got == want;
  }

  /** One entry of the save request body. */
  datatype PayloadEntry = PayloadEntry(day: Day, isAvailable: bool, startTime: string, endTime: string)

  /** `handleSave`'s mapping: name to day, checked to is_available, start and
      end to start_time and end_time, one entry per day in list order. */
  function Payload(vs: seq<DayView>): (p: seq<PayloadEntry>)
    ensures |p| == |vs|
    ensures forall i :: 0 <= i < |vs| ==>
              && p[i].day == vs[i].name && p[i].isAvailable == vs[i].checked
              && p[i].startTime == vs[i].start && p[i].endTime == vs[i].end
  {
    seq(|vs|, i requires 0 <= i < |vs| => PayloadEntry(vs[i].name, vs[i].checked, vs[i].start, vs[i].end))
  }

  /** The entry as the server receives it: the day by name, each time as
      the server reads it, and `is_available` as sent. */
  function RawPayload(p: PayloadEntry): RawEntry {
    RawEntry(DayName(p.day), ParseClock(p.startTime), ParseClock(p.endTime), Some(p.isAvailable))
  }

  function RawPayloads(ps: seq<PayloadEntry>): (raws: seq<RawEntry>)
    ensures |raws| == |ps| && forall i :: 0 <= i < |ps| ==> raws[i] == RawPayload(ps[i])
  {
    seq(|ps|, i requires 0 <= i < |ps| => RawPayload(ps[i]))
  }

  /** How a saved entry comes back from the server: the row it stores holds
      the validated entry, and reading it back renders each time with
      `isoformat`. `None` where validation rejects the entry. */
  function Echo(p: PayloadEntry): (r: Option<FetchedDay>)
    ensures r.Some? <==> ValidateEntry(RawPayload(p)).Ok?
    ensures r.Some? ==>
              var e := ValidateEntry(RawPayload(p)).value;
              r.value == FetchedDay(e.day, IsoFormat(e.startTime), IsoFormat(e.endTime), e.isAvailable)
  {
    ParseDayName(p.day);
    match (ParseClock(p.startTime), ParseClock(p.endTime))
    case (Some(st), Some(et)) => Some(FetchedDay(p.day, IsoFormat(st), IsoFormat(et), p.isAvailable))
    case _ => None
  }

  /** The reply to saving a list of entries, and then reading them back:
      the body is accepted when every entry is, and then each entry comes
      back in its place. */
  function EchoAll(ps: seq<PayloadEntry>): (r: Option<seq<FetchedDay>>)
    ensures r.Some? <==> forall i :: 0 <= i < |ps| ==> Echo(ps[i]).Some?
    ensures r.Some? ==> |r.value| == |ps| && forall i :: 0 <= i < |ps| ==> Some(r.value[i]) == Echo(ps[i])
  {
    if forall i :: 0 <= i < |ps| ==> Echo(ps[i]).Some? then
      Some(seq(|ps|, i requires 0 <= i < |ps| => Echo(ps[i]).value))
    else None
  }

  /** The reply exists exactly when the server's validation accepts the body. */
  lemma EchoAllValidates(ps: seq<PayloadEntry>)
    ensures EchoAll(ps).Some? <==> ValidateBody(RawPayloads(ps)).Ok?
  {
    var raws := RawPayloads(ps);
    assert forall i :: 0 <= i < |ps| ==> (Echo(ps[i]).Some? <==> ValidateEntry(raws[i]).Ok?);
  }

  /** A time input the user cleared sends "", which the server does not
      read as a time: the whole save is rejected. */
  lemma ClearedTimeRejectsSave(vs: seq<DayView>, i: nat)
    requires i < |vs| && vs[i].start == ""
    ensures EchoAll(Payload(vs)) == None
  {
    assert Echo(Payload(vs)[i]) == None;
  }

  /** The seven days of a reply that repeats each day's "HH:MM" times with
      ":00" appended merge back to those days, whatever the defaults hold. */
  lemma MergeEchoed(vs: seq<DayView>, defaults: seq<DayView>, fs: seq<FetchedDay>)
    requires WeeklyViews(vs) && |defaults| == 7
    requires forall i :: 0 <= i < 7 ==> |vs[i].start| == 5 && |vs[i].end| == 5
    requires |fs| == 7
    requires forall i :: 0 <= i < 7 ==> fs[i] == FetchedDay(vs[i].name, vs[i].start + ":00", vs[i].end + ":00", vs[i].checked)
    ensures MergedViews(defaults, fs) == vs
  {
    forall i | 0 <= i < 7 ensures MergedViews(defaults, fs)[i] == vs[i] {
      forall k | i < k < 7 ensures fs[k].day != fs[i].day {
        AllDaysExactlyOnce(AllDays[i], k);
      }
      LastFetchedWins(fs, i);
      assert AllDays[i] == fs[i].day;
      assert (vs[i].start + ":00")[..5] == vs[i].start;
      assert (vs[i].end + ":00")[..5] == vs[i].end;
      assert MergedViews(defaults, fs)[i] == MergedDay(defaults[i], fs, AllDays[i]);
    }
  }

  /** Saving the seven days and merging what the server then returns shows
      the same seven days again, whatever the defaults hold, as long as every
      time is a valid "HH:MM" text, as a time input gives. */
  lemma SaveThenMerge(vs: seq<DayView>, defaults: seq<DayView>)
    requires WeeklyViews(vs) && |defaults| == 7
    requires forall i :: 0 <= i < 7 ==>
               && |vs[i].start| == 5 && ParseClock(vs[i].start).Some?
               && |vs[i].end| == 5 && ParseClock(vs[i].end).Some?
    ensures EchoAll(Payload(vs)).Some?
    ensures MergedViews(defaults, EchoAll(Payload(vs)).value) == vs
  {
    var ps := Payload(vs);
    forall i | 0 <= i < 7
      ensures Echo(ps[i]) == Some(FetchedDay(vs[i].name, vs[i].start + ":00", vs[i].end + ":00", vs[i].checked))
    {
      HourMinuteEcho(vs[i].start);
      HourMinuteEcho(vs[i].end);
    }
    MergeEchoed(vs, defaults, EchoAll(ps).value);
  }

  /** The editor: the default records it shares with every other use of the
      component, its list of day records and the business-hours switch. */
  class Editor {
    const defaults: seq<DayRecord>
    var days: seq<DayRecord>
    var businessHours: bool

    ghost predicate Valid()
      reads this
    {
      Weekly(defaults) && Weekly(days)
    }

    /** Mounting: `useState(() => Object.values(DEFAULT_DAYS))`, then the
        business-hours effect runs once with the switch off, which copies the
        first five records and keeps the weekend's default objects. */
    constructor (defaults: seq<DayRecord>)
      requires Weekly(defaults)
      ensures Valid() && this.defaults == defaults && !businessHours
      ensures Views(days) == BusinessHours(Views(defaults), false)
      ensures days[5] == defaults[5] && days[6] == defaults[6]
    {
      var mounted := ApplyBusinessHours(defaults, false);
      this.defaults := defaults;
      days := mounted;
      businessHours := false;
    }

    /** The fetch effect's result arriving: the list is replaced by the
        merge, without the business-hours switch being applied again. */
    method Receive(fetched: seq<FetchedDay>)
      requires Valid()
      modifies this
      ensures Valid() && businessHours == old(businessHours)
      ensures Views(days) == MergedViews(Views(defaults), fetched)
      ensures forall i :: 0 <= i < 7 && LastFetched(fetched, AllDays[i]).None? ==> days[i] == defaults[i]
    {
      var merged := Merge(defaults, fetched);
      days := merged;
    }

    /** Flipping the switch; the effect runs only when its value changes. */
    method SetBusinessHours(on: bool)
      requires Valid()
      modifies this
      ensures Valid() && businessHours == on
      ensures on != old(businessHours) ==> Views(days) == BusinessHours(old(Views(days)), on)
      ensures on == old(businessHours) ==> days == old(days)
      ensures forall i :: 5 <= i < 7 ==> days[i] == old(days[i])
    {
      if on != businessHours {
        businessHours := on;
        days := ApplyBusinessHours(days, on);
      }
    }

    /** `handleDayChange`: the list is copied, but the record at `index` is
        the same object and its `checked` is assigned in place. */
    method DayChange(index: nat, checked: bool)
      requires Valid() && index < 7
      modifies days[index]
      ensures days[index].View() == old(days[index].View()).(checked := checked)
    {
      days[index].checked := checked;
    }

    /** `handleTimeChange`: the record at `index` gets both times in place. */
    method TimeChange(index: nat, start: string, end: string)
      requires Valid() && index < 7
      modifies days[index]
      ensures days[index].View() == old(days[index].View()).(start := start, end := end)
    {
      days[index].start := start;
      days[index].end := end;
    }

    /** The same edit with the record copied first, `{ ...day, checked }`,
        so that no other list sees it. */
    method DayChangeCopying(index: nat, checked: bool)
      requires Valid() && index < 7
      modifies this
      ensures Valid() && businessHours == old(businessHours)
      ensures Views(days) == old(Views(days))[index := old(days[index].View()).(checked := checked)]
      ensures forall i :: 0 <= i < 7 && i != index ==> days[i] == old(days[i])
      ensures fresh(days[index])
    {
      ghost var want := Views(days)[index := days[index].View().(checked := checked)];
      var copy := new DayRecord(days[index].name, checked, days[index].start, days[index].end);
      days := days[index := copy];
      ghost var got := Views(days);
      forall j | 0 <= j < 7 ensures got[j] == want[j] {
        assert got[j] == days[j].View();
      }
      assert got == want;
    }

    /** The body of the save request. */
    function SavePayload(): (p: seq<PayloadEntry>)
      reads this, days
      requires Valid()
      ensures |p| == 7
      ensures forall i :: 0 <= i < 7 ==>
                && p[i].day == AllDays[i] && p[i].isAvailable == days[i].checked
                && p[i].startTime == days[i].start && p[i].endTime == days[i].end
    {
      Payload(Views(days))
    }
  }

  /** What the component shows for Saturday after: opening with no saved
      availability, ticking Saturday, and opening again with none saved. The
      second opening shows the tick, because the tick went into the default
      record, which the merge hands out for every day missing from a reply. */
  method ReopenAfterEdit() returns (shown: DayView)
    ensures shown == DayView(Saturday, true, "00:00", "00:00")
  {
    var defaults := NewDefaultDays();
    var editor := new Editor(defaults);
    assert LastFetched([], AllDays[5]).None?;
    editor.Receive([]);
    editor.DayChange(5, true);
    editor.Receive([]);
    shown := editor.days[5].View();
  }

  /** The same sequence with the copying edit: the second opening shows the
      default again. */
  method ReopenAfterCopyingEdit() returns (shown: DayView)
    ensures shown == DefaultView(Saturday)
  {
    var defaults := NewDefaultDays();
    var editor := new Editor(defaults);
    assert LastFetched([], AllDays[5]).None?;
    editor.Receive([]);
    editor.DayChangeCopying(5, true);
    editor.Receive([]);
    shown := editor.days[5].View();
  }
}
