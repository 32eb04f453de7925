/** `lateReportsList` of the admin dashboard: for every cell, the most
    recent day of its meeting weekday, the meeting instant on that day, and
    an alert when more than 24 hours have passed since it without a report
    of that cell for that date and without a dismissal of that date. */
module LateReports {
  import opened Seqs
  import opened Types
  import opened Calendar
  import opened Text

  /** The keys of dayMap, at their weekday index (0 is Sunday). */
  const DayMapKeys: seq<string> :=
    ["Domingo", "Segunda-Feira", "Terça-Feira", "Quarta-Feira", "Quinta-Feira", "Sexta-Feira", "Sábado"]

  /** `dayMap[cell.day.split(' ')[0].trim()]`: the weekday index of the
      first word of the meeting day, if dayMap has it. */
  function MeetingDayIndex(day: string): (idx: Option<int>)
    ensures idx.Some? ==> 0 <= idx.value < 7
  {
    KeyIndex(DayMapKeys, Trim(Before(day, " ")), 0)
  }

  /** String `===`, comparing the characters from position k on. */
  function TextEqualsFrom(a: string, b: string, k: nat): bool
    requires k <= |a| && k <= |b|
    decreases |a| - k
  {
    if k == |a| || k == |b| then |a| == |b|
    else a[k] == b[k] && TextEqualsFrom(a, b, k + 1)
  }

  lemma {:induction false} TextEqualsFromIff(a: string, b: string, k: nat)
    requires k <= |a| && k <= |b|
    ensures TextEqualsFrom(a, b, k) <==> |a| == |b| && forall i :: k <= i < |a| ==> a[i] == b[i]
    decreases |a| - k
  {
    if k < |a| && k < |b| {
      TextEqualsFromIff(a, b, k + 1);
    }
  }

  /** The position, from k on, of the key equal to w, if any. */
  function KeyIndex(keys: seq<string>, w: string, k: nat): (r: Option<int>)
    requires k <= |keys|
    ensures r.Some? ==> k <= r.value < |keys|
    decreases |keys| - k
  {
    if k == |keys| then None
    else if TextEqualsFrom(keys[k], w, 0) then Some(k)
    else KeyIndex(keys, w, k + 1)
  }

  /** The position found holds w, and none is found exactly when w is not
      a key from position k on. */
  lemma {:induction false} KeyIndexFacts(keys: seq<string>, w: string, k: nat)
    requires k <= |keys|
    ensures var r := KeyIndex(keys, w, k);
            && (r.Some? ==> keys[r.value] == w)
            && (r.None? <==> forall i :: k <= i < |keys| ==> keys[i] != w)
    decreases |keys| - k
  {
    if k < |keys| {
      TextEqualsFromIff(keys[k], w, 0);
      assert TextEqualsFrom(keys[k], w, 0) <==> keys[k] == w;
      KeyIndexFacts(keys, w, k + 1);
    }
  }

  /** The index found is that of the day's first word among the keys, and
      there is none exactly when the first word is not a key. */
  lemma MeetingDayIndexSpec(day: string)
    ensures var idx := MeetingDayIndex(day);
            && (idx.Some? ==> DayMapKeys[idx.value] == Trim(Before(day, " ")))
            && (idx.None? <==> Trim(Before(day, " ")) !in DayMapKeys)
  {
    KeyIndexFacts(DayMapKeys, Trim(Before(day, " ")), 0);
  }

  /** Hours and minutes handed to `setHours`. */
  datatype Clock = Clock(hours: int, minutes: int)

  /** The meeting time assumed when a cell has none. */
  const DefaultTime: string := "20:00"

  /** `(cell.time || '20:00').split(':').map(Number)`, of which the first two
      numbers are used; None when either is NaN (the date becomes invalid). */
  function ParseClock(time: string): (c: Option<Clock>)
    ensures c.Some? ==> c.value.hours >= 0 && c.value.minutes >= 0
  {
    ParseTime(if time == [] then "20:00" else time)
  }

  function ParseTime(t: string): (c: Option<Clock>)
    ensures c.Some? ==> c.value.hours >= 0 && c.value.minutes >= 0
  {
    var hours := ToNumber(Before(t, ":"));
    var rest := After(t, ":");
    var minutes := if rest.None? then None else ToNumber(Before(rest.value, ":"));
    if hours.Some? && minutes.Some? then Some(Clock(hours.value, minutes.value)) else None
  }

  /** Splitting "hh:..." at the first ':' of position 2. */
  lemma SplitAtColon(t: string)
    requires |t| >= 3 && t[0] != ':' && t[1] != ':' && t[2] == ':'
    ensures Before(t, ":") == t[..2]
    ensures After(t, ":") == Some(t[3..])
  {
    assert t[..1] != ":" by { assert t[..1][0] != ':'; }
    assert t[1..][..1] != ":" by { assert t[1..][..1][0] != ':'; }
    assert t[2..][..1] == ":";
    assert Before(t[2..], ":") == [];
    assert Before(t[1..], ":") == [t[1]];
    assert Before(t, ":") == [t[0], t[1]];
  }

  function DigitAt(t: string, i: int): int
    requires 0 <= i < |t|
  {
    t[i] as int - '0' as int
  }

  /** The value of a two-character text read as two decimal digits. */
  function TwoDigitValue(s: string): int
    requires |s| == 2
  {
    10 * DigitAt(s, 0) + DigitAt(s, 1)
  }

  /** Two decimal digits read as their value. */
  lemma TwoDigits(s: string)
    requires |s| == 2 && IsDigit(s[0]) && IsDigit(s[1])
    ensures ToNumber(s) == Some(TwoDigitValue(s))
  {
    assert !IsSpace(s[0]) && !IsSpace(s[1]);
    TrimUnchanged(s);
    assert Trim(s) == s;
    assert AllDigits(s);
    DigitsValueTwo(s);
  }

  lemma DigitsValueTwo(s: string)
    requires |s| == 2 && AllDigits(s)
    ensures DigitsValue(s) == TwoDigitValue(s)
  {
    var h := s[..1];
    assert h == [s[0]];
    assert h[..0] == [];
    assert DigitsValue(h) == s[0] as int - '0' as int;
  }

  /** A time written "hh:mm" reads as those hours and minutes. */
  lemma ParseTimeHhMm(t: string)
    requires |t| == 5 && t[2] == ':'
    requires IsDigit(t[0]) && IsDigit(t[1]) && IsDigit(t[3]) && IsDigit(t[4])
    ensures ParseTime(t) == Some(Clock(TwoDigitValue(t[..2]), TwoDigitValue(t[3..])))
  {
    SplitAtColon(t);
    var h, m := t[..2], t[3..];
    assert h[0] == t[0] && h[1] == t[1];
    assert m[0] == t[3] && m[1] == t[4];
    assert ':' !in m;
    BeforeAbsent(m, ":");
    TwoDigits(h);
    TwoDigits(m);
  }

  lemma DefaultTimeFields()
    ensures TwoDigitValue(DefaultTime[..2]) == 20 && TwoDigitValue(DefaultTime[3..]) == 0
  {
    assert DefaultTime[..2] == "20" && DefaultTime[3..] == "00";
  }

  /** An empty time stands for 20:00. */
  lemma ParseClockDefault()
    ensures ParseClock("") == Some(Clock(20, 0))
  {
    var t := DefaultTime;
    assert ParseClock("") == ParseTime(t);
    ParseTimeHhMm(t);
    DefaultTimeFields();
  }

  /** Minutes text whose fourth character is neither a digit nor white
      space, before any ':', is NaN. */
  lemma MinutesNaN(rest: string)
    requires |rest| >= 4 && forall i :: 0 <= i < 4 ==> rest[i] != ':'
    requires !IsSpace(rest[0]) && !IsSpace(rest[3]) && !IsDigit(rest[3])
    ensures ToNumber(Before(rest, ":")).None?
  {
    var piece := Before(rest, ":");
    BeforeFacts(rest, ":");
    if |piece| < 4 {
      assert false;
    }
    assert piece[0] == rest[0] && piece[3] == rest[3];
    assert TrimStart(piece) == piece;
    TrimEndFacts(piece);
    var r := Trim(piece);
    assert r == TrimEnd(piece);
    assert |r| > 3 && r[3] == rest[3];
    assert !AllDigits(r);
  }

  /** "hh:" followed by such minutes text reads as no time at all. */
  lemma ParseTimeNaN(t: string)
    requires |t| >= 7 && t[0] != ':' && t[1] != ':' && t[2] == ':'
    requires forall i :: 3 <= i < 7 ==> t[i] != ':'
    requires !IsSpace(t[3]) && !IsSpace(t[6]) && !IsDigit(t[6])
    ensures ParseTime(t).None?
  {
    SplitAtColon(t);
    var rest := t[3..];
    assert forall i :: 0 <= i < 4 ==> rest[i] == t[3 + i];
    MinutesNaN(rest);
  }

  /** A time range such as the '20:00 - 21:00' of the initial cells reads
      NaN minutes, so such a cell never gets a meeting instant. */
  lemma ParseClockRange(t: string)
    requires t == "20:00 - 21:00"
    ensures ParseClock(t) == None
  {
    RangeTimeNaN(t);
    assert t != [];
  }

  lemma RangeTimeNaN(t: string)
    requires t == "20:00 - 21:00"
    ensures ParseTime(t) == None
  {
    assert t[3] == '0' && t[4] == '0' && t[5] == ' ' && t[6] == '-';
    ParseTimeNaN(t);
  }

  /** How many days back from today the meeting weekday last fell (0 when
      it is today). */
  function DaysSinceMeetingDay(today: Day, idx: int): (diff: int)
    requires 0 <= idx < 7
    ensures 0 <= diff < 7
  {
    var diff := Weekday(today) - idx;
    if diff < 0 then diff + 7 else diff
  }

  /** Going back that many days lands on the meeting weekday. */
  lemma DaysSinceWeekday(today: Day, idx: int)
    requires 0 <= idx < 7
    ensures Weekday(today - DaysSinceMeetingDay(today, idx)) == idx
  {
    var diff := Weekday(today) - idx;
    var r := DaysSinceMeetingDay(today, idx);
    var w := (today + 4) % 7;
    assert today + 4 == 7 * ((today + 4) / 7) + w;
    assert today - r + 4 == 7 * ((today + 4) / 7) + (w - r);
    if diff < 0 {
      assert w - r == idx - 7;
      assert today - r + 4 == 7 * ((today + 4) / 7 - 1) + idx;
    }
  }

  /** `lastMeetingDate` after `setDate(today.getDate() - diff)` and
      `setHours(hours, minutes, 0, 0)`; hours or minutes past their range
      roll over into the following days as `setHours` does. */
  function MeetingInstant(now: Instant, idx: int, clock: Clock): Instant
    requires 0 <= idx < 7
  {
    var today := DayOf(now);
    Midnight(today - DaysSinceMeetingDay(today, idx)) + clock.hours * MsPerHour + clock.minutes * MsPerMinute
  }

  datatype LateAlert = LateAlert(cell: Cell, date: Day)

  function ReportFor(cellId: string, date: Day): Report -> bool
  {
    (r: Report) => r.cellId == cellId && r.date == date
  }

  /** `reports.some(r => r.cellId === cell.id && r.date === dateStr)`. */
  predicate HasReport(reports: seq<Report>, cellId: string, date: Day)
  {
    Any(reports, ReportFor(cellId, date))
  }

  /** The alert the loop pushes for one cell, if any. */
  function AlertFor(cell: Cell, reports: seq<Report>, now: Instant): Option<LateAlert>
  {
    var idx := MeetingDayIndex(cell.day);
    var clock := ParseClock(cell.time);
    if idx.None? || clock.None? then None
    else AlertAfter(cell, reports, now, MeetingInstant(now, idx.value, clock.value))
  }

  /** The alert for a cell whose last meeting was at instant `last`. */
  function AlertAfter(cell: Cell, reports: seq<Report>, now: Instant, last: Instant): Option<LateAlert>
  {
    if now - last < MsPerDay then None
    else
      var date := DayOf(last);
      if cell.dismissedLateDate == Some(date) then None
      else if HasReport(reports, cell.id, date) then None
      else Some(LateAlert(cell, date))
  }

  function AlertOf(reports: seq<Report>, now: Instant): Cell -> Option<LateAlert>
  {
    c => AlertFor(c, reports, now)
  }

  /** The list `lateReportsList` returns, one cell after the other. */
  function LateAlerts(cells: seq<Cell>, reports: seq<Report>, now: Instant): (alerts: seq<LateAlert>)
    ensures |alerts| <= |cells|
  {
    Collect(cells, AlertOf(reports, now))
  }

  /** `lateReportsList`: the `forEach` over the cells, pushing into
      `results`. */
  method LateReportsList(cells: seq<Cell>, reports: seq<Report>, now: Instant)
    returns (results: seq<LateAlert>)
    ensures results == LateAlerts(cells, reports, now)
  {
    results := [];
    for i := 0 to |cells|
      invariant results == LateAlerts(cells[..i], reports, now)
    {
      assert cells[..i + 1][..i] == cells[..i];
      var alert := CheckCell(cells[i], reports, now);
      if alert.Some? {
        results := results + [alert.value];
      }
    }
    assert cells[..|cells|] == cells;
  }

  /** The body of the `forEach` callback for one cell; each `return`
      leaves the cell without an alert. */
  method CheckCell(cell: Cell, reports: seq<Report>, now: Instant) returns (alert: Option<LateAlert>)
    ensures alert == AlertFor(cell, reports, now)
  {
    var today := DayOf(now);
    var meetingDayIndex := MeetingDayIndex(cell.day);
    if meetingDayIndex.None? {
      return None;
    }
    var diff := Weekday(today) - meetingDayIndex.value;
    if diff < 0 {
      diff := diff + 7;
    }
    assert diff == DaysSinceMeetingDay(today, meetingDayIndex.value);
    var clock := ParseClock(cell.time);
    if clock.None? {
      return None;
    }
    var lastMeetingDate := Midnight(today - diff) + clock.value.hours * MsPerHour
                           + clock.value.minutes * MsPerMinute;
    MeetingInstantIs(now, meetingDayIndex.value, clock.value, today, diff);
    AlertAtMeeting(cell, reports, now, meetingDayIndex.value, clock.value);
    alert := CheckSinceMeeting(cell, reports, now, lastMeetingDate);
  }

  /** The rest of that callback, once the instant of the last meeting is
      known. */
  method CheckSinceMeeting(cell: Cell, reports: seq<Report>, now: Instant, lastMeetingDate: Instant)
    returns (alert: Option<LateAlert>)
    ensures alert == AlertAfter(cell, reports, now, lastMeetingDate)
  {
    var timeSinceMeeting := now - lastMeetingDate;
    alert := None;
    if timeSinceMeeting >= MsPerDay {
      var dateStr := DayOf(lastMeetingDate);
      if cell.dismissedLateDate == Some(dateStr) {
        return None;
      }
      var hasReport := HasReport(reports, cell.id, dateStr);
      if !hasReport {
        alert := Some(LateAlert(cell, dateStr));
      }
    }
  }

  /** The alert of a cell whose meeting day and time are known. */
  lemma AlertAtMeeting(cell: Cell, reports: seq<Report>, now: Instant, idx: int, clock: Clock)
    requires MeetingDayIndex(cell.day) == Some(idx) && ParseClock(cell.time) == Some(clock)
    ensures AlertFor(cell, reports, now) == AlertAfter(cell, reports, now, MeetingInstant(now, idx, clock))
  {
  }

  /** The instant `lateReportsList` computes step by step is MeetingInstant. */
  lemma MeetingInstantIs(now: Instant, idx: int, clock: Clock, today: Day, diff: int)
    requires 0 <= idx < 7 && today == DayOf(now) && diff == DaysSinceMeetingDay(today, idx)
    ensures Midnight(today - diff) + clock.hours * MsPerHour + clock.minutes * MsPerMinute
         == MeetingInstant(now, idx, clock)
  {
  }

  function AlertCell(a: LateAlert): Cell
  {
    a.cell
  }

  predicate IsLate(reports: seq<Report>, now: Instant, cell: Cell)
  {
    AlertFor(cell, reports, now).Some?
  }

  /** An alert names the cell it was computed for. */
  lemma AlertCellIs(cell: Cell, reports: seq<Report>, now: Instant)
    requires AlertFor(cell, reports, now).Some?
    ensures AlertFor(cell, reports, now).value.cell == cell
  {
    var idx, clock := MeetingDayIndex(cell.day), ParseClock(cell.time);
    assert AlertFor(cell, reports, now) == AlertAfter(cell, reports, now, MeetingInstant(now, idx.value, clock.value));
  }

  /** The alerted cells are exactly the late cells, in cell order, each as
      often as it occurs in `cells`; every alert is its cell's alert. */
  lemma LateAlertsAreLateCells(cells: seq<Cell>, reports: seq<Report>, now: Instant)
    ensures Map(LateAlerts(cells, reports, now), AlertCell) == Filter(cells, HasValue(AlertOf(reports, now)))
    ensures forall c :: c in Filter(cells, HasValue(AlertOf(reports, now))) <==> c in cells && IsLate(reports, now, c)
    ensures var alerts := LateAlerts(cells, reports, now);
            forall j :: 0 <= j < |alerts| ==> AlertFor(alerts[j].cell, reports, now) == Some(alerts[j])
  {
    var f := AlertOf(reports, now);
    forall c | f(c).Some? ensures AlertCell(f(c).value) == c {
      AlertCellIs(c, reports, now);
    }
    CollectNames(cells, f, AlertCell);
    FilterMembers(cells, HasValue(f));
  }

  /** The alerted date is the date of the cell's last meeting, which is
      neither dismissed nor reported by the cell. */
  lemma AlertUnreported(cell: Cell, reports: seq<Report>, now: Instant)
    requires AlertFor(cell, reports, now).Some?
    ensures MeetingDayIndex(cell.day).Some? && ParseClock(cell.time).Some?
    ensures var a := AlertFor(cell, reports, now).value;
            a.cell == cell
            && a.date == DayOf(MeetingInstant(now, MeetingDayIndex(cell.day).value, ParseClock(cell.time).value))
            && cell.dismissedLateDate != Some(a.date)
            && forall r :: r in reports ==> !(r.cellId == cell.id && r.date == a.date)
  {
    var a := AlertFor(cell, reports, now).value;
    assert !HasReport(reports, cell.id, a.date);
    forall r | r in reports ensures !(r.cellId == cell.id && r.date == a.date) {
      var i :| 0 <= i < |reports| && reports[i] == r;
      assert !ReportFor(cell.id, a.date)(reports[i]);
    }
  }

  /** For a meeting time within the day, the alerted date falls on the
      meeting weekday within the last six days: the meeting of today can
      never be 24 hours old. */
  lemma AlertDate(cell: Cell, reports: seq<Report>, now: Instant)
    requires AlertFor(cell, reports, now).Some?
    requires ParseClock(cell.time).Some?
    requires ParseClock(cell.time).value.hours < 24 && ParseClock(cell.time).value.minutes < 60
    ensures MeetingDayIndex(cell.day).Some?
    ensures var a := AlertFor(cell, reports, now).value;
            Weekday(a.date) == MeetingDayIndex(cell.day).value
            && DayOf(now) - 6 <= a.date < DayOf(now)
  {
    AlertUnreported(cell, reports, now);
    var a := AlertFor(cell, reports, now).value;
    var idx := MeetingDayIndex(cell.day).value;
    var clock := ParseClock(cell.time).value;
    MeetingDate(now, idx, clock);
  }

  /** The arithmetic behind AlertDate. */
  lemma MeetingDate(now: Instant, idx: int, clock: Clock)
    requires 0 <= idx < 7
    requires 0 <= clock.hours < 24 && 0 <= clock.minutes < 60
    requires now - MeetingInstant(now, idx, clock) >= MsPerDay
    ensures var d := DayOf(MeetingInstant(now, idx, clock));
            Weekday(d) == idx && DayOf(now) - 6 <= d < DayOf(now)
  {
    var today := DayOf(now);
    var diff := DaysSinceMeetingDay(today, idx);
    DaysSinceWeekday(today, idx);
    var offset := clock.hours * MsPerHour + clock.minutes * MsPerMinute;
    assert MeetingInstant(now, idx, clock) == (today - diff) * MsPerDay + offset;
    assert 0 <= offset < MsPerDay;
    DayOfInstant(today - diff, offset);
    assert now < (today + 1) * MsPerDay;
  }

  /** Conversely, a cell whose last meeting is more than 24 hours old,
      whose date is neither dismissed nor reported, is alerted. */
  lemma AlertComplete(cell: Cell, reports: seq<Report>, now: Instant)
    requires MeetingDayIndex(cell.day).Some? && ParseClock(cell.time).Some?
    requires var last := MeetingInstant(now, MeetingDayIndex(cell.day).value, ParseClock(cell.time).value);
             now - last >= MsPerDay
             && cell.dismissedLateDate != Some(DayOf(last))
             && forall r :: r in reports ==> !(r.cellId == cell.id && r.date == DayOf(last))
    ensures AlertFor(cell, reports, now)
         == Some(LateAlert(cell, DayOf(MeetingInstant(now, MeetingDayIndex(cell.day).value, ParseClock(cell.time).value))))
  {
    var last := MeetingInstant(now, MeetingDayIndex(cell.day).value, ParseClock(cell.time).value);
    NoReport(reports, cell.id, DayOf(last));
    assert AlertFor(cell, reports, now) == AlertAfter(cell, reports, now, last);
  }

  /** No report of the cell for the date: `some` finds none. */
  lemma NoReport(reports: seq<Report>, cellId: string, date: Day)
    requires forall r :: r in reports ==> !(r.cellId == cellId && r.date == date)
    ensures !HasReport(reports, cellId, date)
  {
  }

  /** Submitting the missing report clears the alert. */
  lemma ReportClearsAlert(cell: Cell, reports: seq<Report>, now: Instant, r: Report)
    requires AlertFor(cell, reports, now).Some?
    requires r.cellId == cell.id && r.date == AlertFor(cell, reports, now).value.date
    ensures AlertFor(cell, [r] + reports, now).None?
  {
    var idx := MeetingDayIndex(cell.day).value;
    var clock := ParseClock(cell.time).value;
    var date := DayOf(MeetingInstant(now, idx, clock));
    assert ReportFor(cell.id, date)(([r] + reports)[0]);
    assert HasReport([r] + reports, cell.id, date);
  }

  /** Dismissing a date suppresses the alert of that date and of no other:
      the cell stays alerted for any other missed date. */
  lemma DismissalSuppressesOnlyThatDate(cell: Cell, reports: seq<Report>, now: Instant, d: Day)
    ensures var before := AlertFor(cell.(dismissedLateDate := None), reports, now);
            var after := AlertFor(cell.(dismissedLateDate := Some(d)), reports, now);
            after.Some? <==> before.Some? && before.value.date != d
  {
    var c0, c1 := cell.(dismissedLateDate := None), cell.(dismissedLateDate := Some(d));
    var idx, clock := MeetingDayIndex(cell.day), ParseClock(cell.time);
    assert MeetingDayIndex(c0.day) == idx && MeetingDayIndex(c1.day) == idx;
    assert ParseClock(c0.time) == clock && ParseClock(c1.time) == clock;
    if idx.Some? && clock.Some? {
      var last := MeetingInstant(now, idx.value, clock.value);
      assert AlertFor(c0, reports, now) == AlertAfter(c0, reports, now, last);
      assert AlertFor(c1, reports, now) == AlertAfter(c1, reports, now, last);
      DismissalAfter(c0, c1, reports, now, last, d);
    } else {
      assert AlertFor(c0, reports, now).None? && AlertFor(c1, reports, now).None?;
    }
  }

  /** Dismissing the date of a cell's alert silences that alert. */
  lemma DismissingAlertDateSilences(cell: Cell, reports: seq<Report>, now: Instant)
    requires AlertFor(cell, reports, now).Some?
    ensures var d := AlertFor(cell, reports, now).value.date;
            AlertFor(cell.(dismissedLateDate := Some(d)), reports, now).None?
  {
    var a := AlertFor(cell, reports, now);
    var c1 := cell.(dismissedLateDate := Some(a.value.date));
    var idx, clock := MeetingDayIndex(cell.day), ParseClock(cell.time);
    assert MeetingDayIndex(c1.day) == idx && ParseClock(c1.time) == clock;
    var last := MeetingInstant(now, idx.value, clock.value);
    assert a == AlertAfter(cell, reports, now, last);
    DismissedAfterSilenced(cell, c1, reports, now, last);
    assert AlertFor(c1, reports, now) == AlertAfter(c1, reports, now, last);
  }

  lemma DismissedAfterSilenced(c0: Cell, c1: Cell, reports: seq<Report>, now: Instant, last: Instant)
    requires AlertAfter(c0, reports, now, last).Some?
    requires c1 == c0.(dismissedLateDate := Some(AlertAfter(c0, reports, now, last).value.date))
    ensures AlertAfter(c1, reports, now, last).None?
  {
  }

  lemma DismissalAfter(c0: Cell, c1: Cell, reports: seq<Report>, now: Instant, last: Instant, d: Day)
    requires c0.dismissedLateDate.None? && c1 == c0.(dismissedLateDate := Some(d))
    ensures var before := AlertAfter(c0, reports, now, last);
            var after := AlertAfter(c1, reports, now, last);
            after.Some? <==> before.Some? && before.value.date != d
  {
    assert c1.id == c0.id;
  }
}
