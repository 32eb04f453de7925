/** The report-entry rules of the leader dashboard: the duplicate-date
    guard, the first-time visitor list with its set of saved indices, the
    visitor validation, the submit gate and payload, and the leader's own
    report list. The form's numeric fields are held as the numbers
    `Number(...)` makes of them (an empty field is 0). */
module LeaderDashboard {
  import opened Seqs
  import opened Types
  import opened Calendar
  import opened Text
  import opened Filters

  // ------------------------------------------------------- duplicate date

  function DuplicateOf(cellId: string, date: Day, editingId: Option<string>): Report -> bool
  {
    (r: Report) => r.cellId == cellId && r.date == date && (editingId.None? || r.id != editingId.value)
  }

  /** `isDuplicateDate`: another report of this cell has the form's date. */
  predicate IsDuplicateDate(reports: seq<Report>, cellId: string, date: Day, editingId: Option<string>)
  {
    Any(reports, DuplicateOf(cellId, date, editingId))
  }

  function IdIsNot(id: string): Report -> bool
  {
    (r: Report) => r.id != id
  }

  /** The report being edited never conflicts with itself: while editing
      `id`, the guard sees exactly the reports with other ids. */
  lemma {:induction false} EditedReportNoConflict(reports: seq<Report>, cellId: string, date: Day, id: string)
    ensures IsDuplicateDate(reports, cellId, date, Some(id))
        <==> IsDuplicateDate(Filter(reports, IdIsNot(id)), cellId, date, None)
    decreases |reports|
  {
    if reports != [] {
      EditedReportNoConflict(reports[1..], cellId, date, id);
      assert reports == [reports[0]] + reports[1..];
      var rest := Filter(reports[1..], IdIsNot(id));
      var head := if IdIsNot(id)(reports[0]) then [reports[0]] else [];
      assert Filter(reports, IdIsNot(id)) == head + rest;
      assert IsDuplicateDate(reports, cellId, date, Some(id))
          <==> DuplicateOf(cellId, date, Some(id))(reports[0])
               || IsDuplicateDate(reports[1..], cellId, date, Some(id)) by {
        assert forall i :: 1 <= i < |reports| ==> reports[i] == reports[1..][i - 1];
      }
      assert IsDuplicateDate(head + rest, cellId, date, None)
          <==> (head != [] && DuplicateOf(cellId, date, None)(head[0]))
               || IsDuplicateDate(rest, cellId, date, None) by {
        assert forall i :: |head| <= i < |head + rest| ==> (head + rest)[i] == rest[i - |head|];
        assert forall i :: 0 <= i < |rest| ==> rest[i] == (head + rest)[i + |head|];
      }
    }
  }

  // ---------------------------------------------------------------- visitors

  const BlankVisitor: Visitor := Visitor("", "", "", false, false)

  function Blanks(n: nat): (r: seq<Visitor>)
    ensures |r| == n && forall i :: 0 <= i < n ==> r[i] == BlankVisitor
  {
    seq(n, _ => BlankVisitor)
  }

  /** Where `splice(count)` cuts a list of length len. */
  function SpliceStart(len: nat, count: int): (k: nat)
    ensures k <= len || count > len
  {
    if count >= 0 then count else if len + count > 0 then len + count else 0
  }

  /** The list after `handleFirstTimeCountChange(count)`. */
  function Resized(list: seq<Visitor>, count: int): seq<Visitor>
  {
    if count > |list| then list + Blanks(count - |list|)
    else if count < |list| then list[..SpliceStart(|list|, count)]
    else list
  }

  function Below(n: int): int -> bool
  {
    (i: int) => i < n
  }

  /** The saved indices after `handleFirstTimeCountChange(count)`. */
  function ResizedSaved(saved: seq<int>, listLength: nat, count: int): seq<int>
  {
    if count < listLength then Filter(saved, Below(count)) else saved
  }

  /** For a count that is not negative the list gets exactly that length,
      the visitors it keeps are unchanged and the new places are blank; a
      negative count drops that many visitors from the end. */
  lemma ResizedSpec(list: seq<Visitor>, count: int)
    ensures count >= 0 ==> |Resized(list, count)| == count
    ensures count < 0 ==> |Resized(list, count)| == if |list| + count > 0 then |list| + count else 0
    ensures forall i :: 0 <= i < |Resized(list, count)| && i < |list| ==> Resized(list, count)[i] == list[i]
    ensures forall i :: |list| <= i < |Resized(list, count)| ==> Resized(list, count)[i] == BlankVisitor
  {
  }

  /** Every index left saved is below the new count. */
  lemma ResizedSavedBelow(saved: seq<int>, list: seq<Visitor>, count: int)
    requires forall i :: 0 <= i < |saved| ==> 0 <= saved[i] < |list|
    ensures var s := ResizedSaved(saved, |list|, count);
            forall i :: 0 <= i < |s| ==> 0 <= s[i] < |Resized(list, count)| && (count <= |list| ==> s[i] < count)
  {
    var s := ResizedSaved(saved, |list|, count);
    if count < |list| {
      FilterMembers(saved, Below(count));
      forall i | 0 <= i < |s| ensures 0 <= s[i] < |Resized(list, count)| && s[i] < count {
        assert s[i] in saved;
      }
    }
  }

  /** An edit of one visitor field from the form. */
  datatype VisitorEdit =
    | SetName(name: string)
    | SetPhone(phone: string)
    | SetAddress(address: string)
    | SetBaptized(isBaptized: bool)
    | SetEncounter(hasAttendedEncounter: bool)

  /** `{ ...visitor, [field]: value }`, with non-digits stripped from a
      phone. */
  function ApplyEdit(v: Visitor, e: VisitorEdit): (r: Visitor)
    ensures forall i :: 0 <= i < |r.phone| ==> IsDigit(r.phone[i]) || (!e.SetPhone? && r.phone == v.phone)
    ensures !e.SetName? ==> r.name == v.name
    ensures !e.SetPhone? ==> r.phone == v.phone
    ensures !e.SetAddress? ==> r.address == v.address
    ensures !e.SetBaptized? ==> r.isBaptized == v.isBaptized
    ensures !e.SetEncounter? ==> r.hasAttendedEncounter == v.hasAttendedEncounter
    ensures e.SetName? ==> r.name == e.name
    ensures e.SetPhone? ==> r.phone == DigitsOnly(e.phone)
    ensures e.SetPhone? ==> forall c :: c in r.phone <==> c in e.phone && IsDigit(c)
    ensures e.SetAddress? ==> r.address == e.address
    ensures e.SetBaptized? ==> r.isBaptized == e.isBaptized
    ensures e.SetEncounter? ==> r.hasAttendedEncounter == e.hasAttendedEncounter
  {
    match e
    case SetName(n) => v.(name := n)
    case SetPhone(p) =>
      DigitsOnlyMembers(p);
      assert forall i :: 0 <= i < |DigitsOnly(p)| ==> DigitsOnly(p)[i] in DigitsOnly(p);
      v.(phone := DigitsOnly(p))
    case SetAddress(a) => v.(address := a)
    case SetBaptized(b) => v.(isBaptized := b)
    case SetEncounter(b) => v.(hasAttendedEncounter := b)
  }

  /** The outcome of `handleSaveVisitor`: the alert shown, or Saved. */
  datatype SaveCheck = MissingFullName | BadWhatsApp | MissingAddress | Saved

  /** The three checks of `handleSaveVisitor`, in their order. */
  function CheckVisitor(v: Visitor): SaveCheck
  {
    if WordCount(v.name) < 2 then MissingFullName
    else if v.phone == [] || |v.phone| < 10 then BadWhatsApp
    else if Trim(v.address) == [] then MissingAddress
    else Saved
  }

  /** A visitor is accepted exactly when the trimmed name contains white
      space (two words at least), the phone has ten characters or more and
      the address is not blank. */
  lemma CheckVisitorIff(v: Visitor)
    ensures CheckVisitor(v) == Saved
        <==> (exists i :: 0 <= i < |Trim(v.name)| && IsSpace(Trim(v.name)[i]))
             && |v.phone| >= 10 && Trim(v.address) != []
  {
    WordCountTwo(v.name);
  }

  function IsNot(index: int): int -> bool
  {
    (i: int) => i != index
  }

  // ------------------------------------------------------------- the form

  /** The form fields, each as `Number(...)` reads it. */
  datatype FormData = FormData(
    date: Day, attendance: int, visitors: int, conversions: int, weeklyVisits: int,
    firstTimeVisitorsCount: int, childrenCount: int, offering: int, kidsOffering: int,
    summary: string)

  /** The form `cancelEdit` (and the first render) sets up: today's date
      and every number empty or '0'. */
  function EmptyForm(today: Day): FormData
  {
    FormData(today, 0, 0, 0, 0, 0, 0, 0, 0, "")
  }

  /** The form `handleEditReport` fills from a report. */
  function FormOf(r: Report): FormData
  {
    FormData(r.date, r.attendance, r.visitors, r.conversions, r.weeklyVisits,
             r.firstTimeVisitorsCount, r.childrenCount, r.offering, r.kidsOffering, r.summary)
  }

  function Indices(n: nat): (r: seq<int>)
    ensures |r| == n && forall i :: 0 <= i < n ==> r[i] == i
  {
    seq(n, i => i)
  }

  /** `getDayOfWeek`: the short Portuguese name of a date's weekday. */
  const ShortDays: seq<string> := ["Domingo", "Segunda", "Terça", "Quarta", "Quinta", "Sexta", "Sábado"]

  function DayOfWeek(d: Day): (name: string)
    ensures name in ShortDays && |name| <= 7
  {
    ShortDays[Weekday(d)]
  }

  /** The separator `cell.day` is split on: an en dash between spaces. */
  const EnDashSep: string := " \U{2013} "

  /** `selectedDay.toLowerCase() !== cellMeetingDay.toLowerCase()`. */
  predicate IsLateReport(date: Day, cellDay: string)
  {
    ToLower(DayOfWeek(date)) != ToLower(Trim(Before(cellDay, EnDashSep)))
  }

  /** A meeting day stored with its full name, longer than any short name
      and without an en dash part, marks every report late, whatever its
      date. */
  lemma LongDayAlwaysLate(date: Day, cellDay: string)
    requires forall i :: 0 <= i < |cellDay| ==> !IsSpace(cellDay[i])
    requires |cellDay| > 7
    ensures IsLateReport(date, cellDay)
  {
    assert IsSpace(EnDashSep[0]);
    BeforeAbsent(cellDay, EnDashSep);
    TrimUnchanged(cellDay);
  }

  /** So for the '-Feira' days the application stores, every report is late. */
  lemma FeiraDaysAlwaysLate(date: Day, cellDay: string)
    requires cellDay in ["Segunda-Feira", "Terça-Feira", "Quarta-Feira", "Quinta-Feira", "Sexta-Feira"]
    ensures IsLateReport(date, cellDay)
  {
    LongDayAlwaysLate(date, cellDay);
  }

  predicate YouthCell(t: CellType)
  {
    t == Jovem || t == Juvenil
  }

  /** The `payload` of `handleSubmit`, with the id `id` (empty for an
      added report, which the application numbers itself). */
  function Payload(cell: Cell, form: FormData, visitors: seq<Visitor>, id: string): (r: Report)
    ensures YouthCell(cell.cellType) ==> r.childrenCount == 0 && r.kidsOffering == 0
    ensures !YouthCell(cell.cellType) ==> r.childrenCount == form.childrenCount && r.kidsOffering == form.kidsOffering
    ensures r.cellId == cell.id && r.cellName == cell.name && r.date == form.date && r.id == id
    ensures r.isLate == IsLateReport(form.date, cell.day)
    ensures r.firstTimeVisitorsList == visitors
    ensures r.attendance == form.attendance && r.visitors == form.visitors
            && r.conversions == form.conversions && r.weeklyVisits == form.weeklyVisits
    ensures r.firstTimeVisitorsCount == form.firstTimeVisitorsCount
            && r.offering == form.offering && r.summary == form.summary
  {
    Report(id, cell.id, cell.name, form.date, form.attendance, form.visitors, form.conversions,
           form.weeklyVisits, form.firstTimeVisitorsCount, visitors,
           if YouthCell(cell.cellType) then 0 else form.childrenCount,
           form.offering,
           if YouthCell(cell.cellType) then 0 else form.kidsOffering,
           form.summary, IsLateReport(form.date, cell.day))
  }

  /** Reading a report into the form and submitting it again reproduces the
      report, for a cell whose type keeps children and kids' offering. */
  lemma EditRoundTrip(cell: Cell, r: Report)
    requires !YouthCell(cell.cellType)
    requires r.cellId == cell.id && r.cellName == cell.name && r.isLate == IsLateReport(r.date, cell.day)
    ensures Payload(cell, FormOf(r), r.firstTimeVisitorsList, r.id) == r
  {
  }

  datatype BlockReason = DuplicateDate | UnsavedVisitors

  /** What a submission does: nothing but an alert, or one call. */
  datatype SubmitOutcome =
    | Blocked(reason: BlockReason)
    | AddReportCall(report: Report)
    | UpdateReportCall(report: Report)

  /** `if (editingId)`: an empty id counts as no id. */
  predicate Editing(editingId: Option<string>)
  {
    editingId.Some? && editingId.value != []
  }

  /** Saved indices that are distinct and in range, and at least as many as
      the visitors, name every visitor. */
  lemma AllSaved(saved: seq<int>, n: nat)
    requires NoDuplicates(saved)
    requires forall i :: 0 <= i < |saved| ==> 0 <= saved[i] < n
    requires |saved| >= n
    ensures forall k :: 0 <= k < n ==> k in saved
  {
    IndicesCover(saved, n);
  }

  /** The report-entry form of the leader dashboard: `editingId`, the form
      fields, `firstTimeVisitors` and `savedVisitors`. */
  class ReportEntryForm {
    var editingId: Option<string>
    var form: FormData
    var visitors: seq<Visitor>
    var saved: seq<int>

    /** The saved indices are distinct and name places of the list. */
    ghost predicate Valid()
      reads this
    {
      NoDuplicates(saved) && forall i :: 0 <= i < |saved| ==> 0 <= saved[i] < |visitors|
    }

    constructor(today: Day)
      ensures Valid()
      ensures editingId == None && form == EmptyForm(today) && visitors == [] && saved == []
    {
      editingId := None;
      form := EmptyForm(today);
      visitors := [];
      saved := [];
    }

    /** `handleFirstTimeCountChange`, with `count` the value of
        `parseInt(val) || 0`. */
    method HandleFirstTimeCountChange(count: int)
      requires Valid()
      modifies this
      ensures Valid()
      ensures form == old(form).(firstTimeVisitorsCount := count)
      ensures visitors == Resized(old(visitors), count)
      ensures saved == ResizedSaved(old(saved), |old(visitors)|, count)
      ensures editingId == old(editingId)
    {
      form := form.(firstTimeVisitorsCount := count);
      var newList := visitors;
      if count > |newList| {
        var i := |newList|;
        while i < count
          invariant |visitors| <= i <= count
          invariant newList == visitors + Blanks(i - |visitors|)
        {
          newList := newList + [BlankVisitor];
          i := i + 1;
        }
      } else if count < |newList| {
        newList := newList[..SpliceStart(|newList|, count)];
        ResizedSavedBelow(saved, visitors, count);
        FilterMembers(saved, Below(count));
        FilteredNoDuplicates(saved, Below(count));
        saved := Filter(saved, Below(count));
      }
      visitors := newList;
    }

    /** `updateVisitor(index, field, value)`. */
    method UpdateVisitor(index: int, e: VisitorEdit)
      requires Valid() && 0 <= index < |visitors|
      modifies this
      ensures Valid()
      ensures visitors == old(visitors)[index := ApplyEdit(old(visitors)[index], e)]
      ensures saved == Filter(old(saved), IsNot(index)) && index !in saved
      ensures form == old(form) && editingId == old(editingId)
    {
      var newList := visitors;
      newList := newList[index := ApplyEdit(newList[index], e)];
      visitors := newList;
      FilterMembers(saved, IsNot(index));
      FilteredNoDuplicates(saved, IsNot(index));
      var kept := Filter(saved, IsNot(index));
      forall i | 0 <= i < |kept| ensures 0 <= kept[i] < |visitors| {
        assert kept[i] in saved;
      }
      saved := kept;
    }

    /** `handleSaveVisitor(index)`: the index joins the saved set, once,
        when the visitor passes the checks. */
    method HandleSaveVisitor(index: int) returns (result: SaveCheck)
      requires Valid() && 0 <= index < |visitors|
      modifies this
      ensures visitors == old(visitors) && form == old(form) && editingId == old(editingId)
      ensures Valid()
      ensures result == CheckVisitor(visitors[index])
      ensures result == Saved ==> index in saved
      ensures saved == if result == Saved && index !in old(saved) then old(saved) + [index] else old(saved)
    {
      var visitor := visitors[index];
      result := CheckVisitor(visitor);
      if result != Saved {
        return;
      }
      if index !in saved {
        saved := saved + [index];
      }
    }

    /** `handleEditReport(report)`: the form shows the report and all its
        visitors count as saved. */
    method HandleEditReport(report: Report)
      modifies this
      ensures Valid()
      ensures editingId == Some(report.id) && form == FormOf(report)
      ensures visitors == report.firstTimeVisitorsList
      ensures saved == Indices(|report.firstTimeVisitorsList|)
    {
      editingId := Some(report.id);
      form := FormOf(report);
      visitors := report.firstTimeVisitorsList;
      saved := Indices(|visitors|);
    }

    /** `cancelEdit`. */
    method CancelEdit(today: Day)
      modifies this
      ensures Valid()
      ensures editingId == None && form == EmptyForm(today) && visitors == [] && saved == []
    {
      editingId := None;
      form := EmptyForm(today);
      visitors := [];
      saved := [];
    }

    /** `handleSubmit`: the duplicate-date gate, the unsaved-visitor gate,
        then one add or update call and a reset of the form. */
    method HandleSubmit(cell: Cell, reports: seq<Report>, today: Day) returns (outcome: SubmitOutcome)
      requires Valid()
      modifies this
      ensures Valid()
      ensures outcome == Blocked(DuplicateDate)
              <==> IsDuplicateDate(reports, cell.id, old(form).date, old(editingId))
      ensures outcome == Blocked(UnsavedVisitors)
              <==> !IsDuplicateDate(reports, cell.id, old(form).date, old(editingId))
                   && old(form).firstTimeVisitorsCount > 0 && |old(saved)| < |old(visitors)|
      ensures outcome.Blocked? ==> unchanged(this)
      ensures outcome.AddReportCall?
              ==> !Editing(old(editingId)) && outcome.report == Payload(cell, old(form), old(visitors), "")
      ensures outcome.UpdateReportCall?
              ==> Editing(old(editingId))
                  && outcome.report == Payload(cell, old(form), old(visitors), old(editingId).value)
      ensures !outcome.Blocked? && old(form).firstTimeVisitorsCount > 0
              ==> forall k :: 0 <= k < |old(visitors)| ==> k in old(saved)
      ensures !outcome.Blocked? ==> editingId == None && form == EmptyForm(today) && visitors == [] && saved == []
    {
      if IsDuplicateDate(reports, cell.id, form.date, editingId) {
        return Blocked(DuplicateDate);
      }
      if form.firstTimeVisitorsCount > 0 && |saved| < |visitors| {
        return Blocked(UnsavedVisitors);
      }
      if form.firstTimeVisitorsCount > 0 {
        AllSaved(saved, |visitors|);
      }
      if Editing(editingId) {
        outcome := UpdateReportCall(Payload(cell, form, visitors, editingId.value));
        editingId := None;
      } else {
        outcome := AddReportCall(Payload(cell, form, visitors, ""));
      }
      CancelEdit(today);
    }
  }

  /** Removing elements keeps a sequence free of duplicates. */
  lemma {:induction false} FilteredNoDuplicates<T>(s: seq<T>, p: T -> bool)
    requires NoDuplicates(s)
    ensures NoDuplicates(Filter(s, p))
    decreases |s|
  {
    if s != [] {
      assert NoDuplicates(s[1..]);
      FilteredNoDuplicates(s[1..], p);
      FilterMembers(s[1..], p);
      assert s[0] !in s[1..];
    }
  }

  // ------------------------------------------------------ the leader's list

  /** The test `filteredReportsList` applies to one report. The type and
      name selects are compared with the leader's own cell; "now" is
      today's midnight. */
  predicate LeaderKeeps(cell: Cell, typeF: TypeChoice, nameF: NameChoice, period: Period,
                        year: YearChoice, now: Instant, r: Report)
  {
    var today := DayOf(now);
    var reportYear := Year(r.date);
    var reportMonth := Month(r.date);
    var periodMatch :=
      match period
      case AllPeriods => true
      case Week => WithinWeek(Midnight(today), Noon(r.date))
      case ThisMonth => reportMonth == Month(today) && reportYear == Year(today)
      case Quarter => reportMonth / 3 == Month(today) / 3 && reportYear == Year(today)
      case Semester =>
        (if Month(today) < 6 then 0 else 1) == (if reportMonth < 6 then 0 else 1)
        && reportYear == Year(today)
      case Annual => reportYear == Year(today)
      case MonthNumber(n) => reportMonth + 1 == n && year == InYear(reportYear)
      case _ => true;
    r.cellId == cell.id && TypeMatches(typeF, cell.cellType) && NameMatches(nameF, cell.name)
    && periodMatch && (year.AllYears? || reportYear == year.year)
  }

  function LeaderFilter(cell: Cell, typeF: TypeChoice, nameF: NameChoice, period: Period,
                        year: YearChoice, now: Instant): Report -> bool
  {
    (r: Report) => LeaderKeeps(cell, typeF, nameF, period, year, now, r)
  }

  /** `filteredReportsList`: the leader's matching reports, newest first. */
  function FilteredReportsList(reports: seq<Report>, cell: Cell, typeF: TypeChoice, nameF: NameChoice,
                               period: Period, year: YearChoice, now: Instant): (list: seq<Report>)
    ensures |list| <= |reports|
    ensures forall i, j :: 0 <= i < j < |list| ==> list[i].date >= list[j].date
  {
    var list := SortBy(Filter(reports, LeaderFilter(cell, typeF, nameF, period, year, now)), ReportDateDesc);
    SortByOrders(Filter(reports, LeaderFilter(cell, typeF, nameF, period, year, now)), ReportDateDesc);
    assert forall i, j :: 0 <= i < j < |list| ==> ReportDateDesc(list[i]) <= ReportDateDesc(list[j]);
    list
  }

  /** The list holds each report the leader's filters keep as often as
      `reports` does, and nothing else. */
  lemma LeaderListContents(reports: seq<Report>, cell: Cell, typeF: TypeChoice, nameF: NameChoice,
                           period: Period, year: YearChoice, now: Instant, r: Report)
    ensures var list := FilteredReportsList(reports, cell, typeF, nameF, period, year, now);
            multiset(list)[r] == if LeaderKeeps(cell, typeF, nameF, period, year, now, r) then multiset(reports)[r] else 0
  {
    SortFilterMultiset(reports, LeaderFilter(cell, typeF, nameF, period, year, now), ReportDateDesc);
  }

  /** Reports of the same date keep the order they had in `reports`. */
  lemma LeaderListStable(reports: seq<Report>, cell: Cell, typeF: TypeChoice, nameF: NameChoice,
                         period: Period, year: YearChoice, now: Instant, d: Day)
    ensures var keep := LeaderFilter(cell, typeF, nameF, period, year, now);
            Filter(FilteredReportsList(reports, cell, typeF, nameF, period, year, now), KeyIs(ReportDateDesc, -d))
            == Filter(Filter(reports, keep), KeyIs(ReportDateDesc, -d))
  {
    SortFilterStable(reports, LeaderFilter(cell, typeF, nameF, period, year, now), ReportDateDesc, -d);
  }

  /** What the filters keep: the leader's own reports of the selected year;
      the period 'year' means the current year and a month number means that
      month of the selected year. */
  lemma LeaderKeepsMeans(cell: Cell, typeF: TypeChoice, nameF: NameChoice,
                         period: Period, year: YearChoice, now: Instant, r: Report)
    ensures LeaderKeeps(cell, typeF, nameF, period, year, now, r)
            ==> r.cellId == cell.id && (year.AllYears? || Year(r.date) == year.year)
    ensures period == Annual ==>
            (LeaderKeeps(cell, typeF, nameF, period, year, now, r)
             <==> r.cellId == cell.id && TypeMatches(typeF, cell.cellType) && NameMatches(nameF, cell.name)
                  && Year(r.date) == Year(DayOf(now)) && (year.AllYears? || Year(r.date) == year.year))
    ensures period.MonthNumber? ==>
            (LeaderKeeps(cell, typeF, nameF, period, year, now, r)
             <==> r.cellId == cell.id && TypeMatches(typeF, cell.cellType) && NameMatches(nameF, cell.name)
                  && Month(r.date) + 1 == period.month && year == InYear(Year(r.date)))
  {
  }

  /** A type or name select that does not fit the leader's own cell empties
      the list, whatever the reports. */
  lemma LeaderListMismatch(reports: seq<Report>, cell: Cell, typeF: TypeChoice, nameF: NameChoice,
                           period: Period, year: YearChoice, now: Instant)
    requires !TypeMatches(typeF, cell.cellType) || !NameMatches(nameF, cell.name)
    ensures FilteredReportsList(reports, cell, typeF, nameF, period, year, now) == []
  {
    FilterNone(reports, LeaderFilter(cell, typeF, nameF, period, year, now));
  }
}
