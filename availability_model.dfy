/** The recurring-availability entity of the server: the seven-valued
    weekday enumeration, the table row with its column default, and the
    request-body entry with its validation and defaults. */
module AvailabilityModel {
  import opened Util

  type UserId = string

  /** `AvailabilityDay`: exactly seven values, Monday to Sunday. */
  datatype Day = Monday | Tuesday | Wednesday | Thursday | Friday | Saturday | Sunday

  /** The days in the fixed order the client displays them. */
  const AllDays: seq<Day> := [Monday, Tuesday, Wednesday, Thursday, Friday, Saturday, Sunday]

  /** The enumeration's string value. */
  function DayName(d: Day): string {
    match d
    case Monday => "monday"
    case Tuesday => "tuesday"
    case Wednesday => "wednesday"
    case Thursday => "thursday"
    case Friday => "friday"
    case Saturday => "saturday"
    case Sunday => "sunday"
  }

  /** Looking a string up among the enumeration's values. */
  function ParseDay(s: string): (r: Option<Day>)
    ensures r.Some? ==> DayName(r.value) == s
    ensures r.None? ==> forall d :: DayName(d) != s
  {
    if s == "monday" then Some(Monday)
    else if s == "tuesday" then Some(Tuesday)
    else if s == "wednesday" then Some(Wednesday)
    else if s == "thursday" then Some(Thursday)
    else if s == "friday" then Some(Friday)
    else if s == "saturday" then Some(Saturday)
    else if s == "sunday" then Some(Sunday)
    else None
  }

  lemma ParseDayName(d: Day)
    ensures ParseDay(DayName(d)) == Some(d)
  {
  }

  /** The position of a day in `AllDays`. */
  function DayIndex(d: Day): (i: nat)
    ensures i < 7 && AllDays[i] == d
  {
    match d
    case Monday => 0
    case Tuesday => 1
    case Wednesday => 2
    case Thursday => 3
    case Friday => 4
    case Saturday => 5
    case Sunday => 6
  }

  /** Every day occurs in `AllDays` exactly once. */
  lemma AllDaysExactlyOnce(d: Day, i: nat)
    requires i < 7
    ensures AllDays[i] == d <==> i == DayIndex(d)
  {
  }

  /** `day.strip().lower()`, the endpoints' normalisation of a day string. */
  function NormaliseDay(s: string): (r: string)
    ensures |r| <= |s|
    ensures forall i :: 0 <= i < |r| ==> !('A' <= r[i] <= 'Z')
  {
    var t := Strip(s, PyWhitespace);
    assert forall i :: 0 <= i < |t| ==> !('A' <= LowerChar(t[i]) <= 'Z') by {
      forall i | 0 <= i < |t| { LowerCharWhitespace(t[i]); }
    }
    Lower(t)
  }

  /** Normalising an enumeration value gives the value back, so a validated
      entry's day always finds its own row. */
  lemma NormaliseDayName(d: Day)
    ensures NormaliseDay(DayName(d)) == DayName(d)
    ensures ParseDay(NormaliseDay(DayName(d))) == Some(d)
  {
    var name := DayName(d);
    DayNameLower(d);
    LowerWordStripped(name);
    LowerWordLowered(name);
    assert NormaliseDay(name) == Lower(Strip(name, PyWhitespace)) == name;
    ParseDayName(d);
  }

  /** A day name with a whitespace character at each end, a no-break space
      say, still finds its day. */
  lemma NormaliseDayPadded(d: Day, c: char)
    requires PyWhitespace(c)
    ensures ParseDay(NormaliseDay([c] + DayName(d) + [c])) == Some(d)
  {
    var name := DayName(d);
    DayNameLower(d);
    LowerWordStripped(name);
    StripPadded(name, c, PyWhitespace);
    NormaliseDayName(d);
  }

  /** Every enumeration value is a lower-case word. */
  lemma DayNameLower(d: Day)
    ensures LowerWord(DayName(d))
  {
  }

  /** The day string the save endpoint looks a validated entry up by,
      `day.strip().lower()`, read back as a day: always the entry's own day. */
  method LookupDay(d: Day) returns (r: Day)
    ensures r == d
  {
    NormaliseDayName(d);
    r := ParseDay(NormaliseDay(DayName(d))).value;
  }

  /** A `datetime.time` value; microseconds and time zones are not modelled. */
  datatype TimeOfDay = TimeOfDay(hour: nat, minute: nat, second: nat)

  predicate ValidTime(t: TimeOfDay) {
    t.hour < 24 && t.minute < 60 && t.second < 60
  }

  /** `time.isoformat()` for a time without microseconds: "HH:MM:SS". */
  function IsoFormat(t: TimeOfDay): (s: string)
    requires ValidTime(t)
    ensures |s| == 8 && s[2] == ':' && s[5] == ':'
  {
    Pad2(t.hour) + ":" + Pad2(t.minute) + ":" + Pad2(t.second)
  }

  /** The number two digit characters at `s[i]` and `s[i + 1]` spell. */
  function TwoDigits(s: string, i: nat): (n: nat)
    requires i + 1 < |s| && IsDigit(s[i]) && IsDigit(s[i + 1])
    ensures n < 100
  {
    10 * DigitValue(s[i]) + DigitValue(s[i + 1])
  }

  /** A time field of a request body read as a `datetime.time`, for the two
      forms the clients send: "HH:MM" and "HH:MM:SS", two digits each, the
      hour below 24 and the minute and second below 60. Every other text is
      treated as not a time. */
  function ParseClock(s: string): (r: Option<TimeOfDay>)
    ensures r.Some? ==> ValidTime(r.value)
    ensures r.Some? ==> |s| == 5 || |s| == 8
  {
    if (|s| == 5 || |s| == 8) && IsDigit(s[0]) && IsDigit(s[1]) && s[2] == ':' && IsDigit(s[3]) && IsDigit(s[4])
       && (|s| == 8 ==> s[5] == ':' && IsDigit(s[6]) && IsDigit(s[7]))
    then
      var t := TimeOfDay(TwoDigits(s, 0), TwoDigits(s, 3), if |s| == 8 then TwoDigits(s, 6) else 0);
      if ValidTime(t) then Some(t) else None
    else None
  }

  /** Reading the `isoformat` text of a time gives the time back. */
  lemma ParseIsoFormat(t: TimeOfDay)
    requires ValidTime(t)
    ensures ParseClock(IsoFormat(t)) == Some(t)
  {
    var s := IsoFormat(t);
    assert s == Pad2(t.hour) + ":" + Pad2(t.minute) + ":" + Pad2(t.second);
    assert s[0] == Pad2(t.hour)[0] && s[1] == Pad2(t.hour)[1];
    assert s[3] == Pad2(t.minute)[0] && s[4] == Pad2(t.minute)[1];
    assert s[6] == Pad2(t.second)[0] && s[7] == Pad2(t.second)[1];
    DigitsOfPad2(t.hour);
    DigitsOfPad2(t.minute);
    DigitsOfPad2(t.second);
  }

  /** An "HH:MM" text is read with zero seconds. */
  lemma ParseHourMinute(h: nat, m: nat)
    requires h < 24 && m < 60
    ensures ParseClock(Pad2(h) + ":" + Pad2(m)) == Some(TimeOfDay(h, m, 0))
  {
    var s := Pad2(h) + ":" + Pad2(m);
    assert s[0] == Pad2(h)[0] && s[1] == Pad2(h)[1];
    assert s[3] == Pad2(m)[0] && s[4] == Pad2(m)[1];
    DigitsOfPad2(h);
    DigitsOfPad2(m);
  }

  /** A five-character text the server accepts comes back from `isoformat`
      as that text followed by ":00". */
  lemma HourMinuteEcho(s: string)
    requires |s| == 5 && ParseClock(s).Some?
    ensures IsoFormat(ParseClock(s).value) == s + ":00"
  {
    var t := ParseClock(s).value;
    Pad2OfDigits(s[0], s[1]);
    Pad2OfDigits(s[3], s[4]);
    assert Pad2(t.hour) == s[..2] && Pad2(t.minute) == s[3..];
    assert Pad2(0) == "00";
  }

  /** A `recurring_availabilities` row. Every row references one user. The
      time columns carry no ordering constraint. The uuid key and the
      created/updated timestamps are not modelled. */
  datatype Availability = Availability(
    userId: UserId, day: Day, startTime: TimeOfDay, endTime: TimeOfDay, isAvailable: bool)

  /** Building a row; an omitted `is_available` takes the column default. */
  function NewAvailability(userId: UserId, day: Day, startTime: TimeOfDay, endTime: TimeOfDay,
                           isAvailable: Option<bool>): (row: Availability)
    ensures row.userId == userId && row.day == day
    ensures row.startTime == startTime && row.endTime == endTime
    ensures isAvailable.None? ==> row.isAvailable
    ensures isAvailable.Some? ==> row.isAvailable == isAvailable.value
  {
    Availability(userId, day, startTime, endTime, isAvailable.GetOr(true))
  }

  /** A validated `RecurringAvailability` entry of a request body. */
  datatype RecurringAvailability = RecurringAvailability(
    day: Day, startTime: TimeOfDay, endTime: TimeOfDay, isAvailable: bool)

  /** An entry as it arrives, before validation: the day is any string, a
      time is `None` when it is missing or not a time, and `is_available`
      may be omitted. */
  datatype RawEntry = RawEntry(
    day: string, startTime: Option<TimeOfDay>, endTime: Option<TimeOfDay>, isAvailable: Option<bool>)

  datatype ValidationError = InvalidDay | MissingStartTime | MissingEndTime

  /** Validation of one entry: the day must be an enumeration value, both
      times are required, `is_available` defaults to true. Nothing compares
      the start with the end. */
  function ValidateEntry(raw: RawEntry): (r: Result<RecurringAvailability, ValidationError>)
    ensures r.Ok? <==> ParseDay(raw.day).Some? && raw.startTime.Some? && raw.endTime.Some?
    ensures r.Ok? ==>
              && DayName(r.value.day) == raw.day
              && r.value.startTime == raw.startTime.value && r.value.endTime == raw.endTime.value
              && r.value.isAvailable == (raw.isAvailable.None? || raw.isAvailable.value)
  {
    match ParseDay(raw.day)
    case None => Err(InvalidDay)
    case Some(d) =>
      if raw.startTime.None? then Err(MissingStartTime)
      else if raw.endTime.None? then Err(MissingEndTime)
      else Ok(RecurringAvailability(d, raw.startTime.value, raw.endTime.value, raw.isAvailable.GetOr(true)))
  }

  /** The raw form of a validated entry, as a client would send it. */
  function Unvalidate(e: RecurringAvailability): RawEntry {
    RawEntry(DayName(e.day), Some(e.startTime), Some(e.endTime), Some(e.isAvailable))
  }

  /** Validation accepts exactly what `Unvalidate` produces and gives the entry back. */
  lemma ValidateUnvalidate(e: RecurringAvailability)
    ensures ValidateEntry(Unvalidate(e)) == Ok(e)
  {
    ParseDayName(e.day);
  }

  /** A request body `{availabilities: [...]}` is a list of entries; it is
      accepted when every entry is, and rejected as a whole otherwise. */
  function ValidateBody(raws: seq<RawEntry>): (r: Result<seq<RecurringAvailability>, ValidationError>)
    ensures r.Ok? <==> forall i :: 0 <= i < |raws| ==> ValidateEntry(raws[i]).Ok?
    ensures r.Ok? ==>
              && |r.value| == |raws|
              && forall i :: 0 <= i < |raws| ==> ValidateEntry(raws[i]) == Ok(r.value[i])
  {
    if raws == [] then Ok([])
    else
      match ValidateEntry(raws[0])
      case Err(e) => Err(e)
      case Ok(first) =>
        match ValidateBody(raws[1..])
        case Err(e) => Err(e)
        case Ok(rest) =>
          assert forall i :: 1 <= i < |raws| ==> raws[i] == raws[1..][i - 1];
          Ok([first] + rest)
  }

  /** An end time before the start time is accepted. */
  lemma EndBeforeStartAccepted()
    ensures ValidateEntry(RawEntry("monday", Some(TimeOfDay(18, 0, 0)), Some(TimeOfDay(9, 0, 0)), None)).Ok?
  {
    ParseDayName(Monday);
  }
}
