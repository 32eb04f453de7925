/** The administrator's report list and its filters, the goal list filter,
    the cell form submission and the in-app notice fan-out of the admin
    dashboard. "Now" is a parameter: the instant `new Date()` returns. */
module AdminDashboard {
  import opened Seqs
  import opened Types
  import opened Calendar
  import opened Text
  import opened Filters

  /** `checkPeriodMatch(new Date(date + 'T12:00:00'), period, targetYear)`. */
  predicate CheckPeriodMatch(reportDay: Day, period: Period, target: YearChoice, now: Instant)
  {
    var reportYear := Year(reportDay);
    var reportMonth := Month(reportDay);
    var today := DayOf(now);
    if target.InYear? && reportYear != target.year then false
    else
      match period
      case AllPeriods => true
      case Week => WithinWeek(now, Noon(reportDay))
      case ThisMonth => reportMonth == Month(today) && reportYear == Year(today)
      case Bimester => reportMonth / 2 == Month(today) / 2 && reportYear == Year(today)
      case Quarter => reportMonth / 3 == Month(today) / 3 && reportYear == Year(today)
      case Semester =>
        (if Month(today) < 6 then 0 else 1) == (if reportMonth < 6 then 0 else 1)
        && reportYear == Year(today)
      case Annual => target == InYear(reportYear)
      case _ => true
  }

  /** The year select passes a report when it is 'all' or names the
      report's year. */
  predicate YearGate(reportDay: Day, target: YearChoice)
  {
    target.AllYears? || Year(reportDay) == target.year
  }

  /** A report of another year than the selected one never matches, whatever
      the period; with the year passed, period 'all' always matches. */
  lemma PeriodYearGate(reportDay: Day, period: Period, target: YearChoice, now: Instant)
    ensures !YearGate(reportDay, target) ==> !CheckPeriodMatch(reportDay, period, target, now)
    ensures YearGate(reportDay, target) ==> CheckPeriodMatch(reportDay, AllPeriods, target, now)
  {
  }

  /** The bucket size of the calendar periods: a month, two months, three
      months, six months. */
  function BucketMonths(period: Period): (k: Option<int>)
    ensures k.Some? ==> k.value in {1, 2, 3, 6}
  {
    match period
    case ThisMonth => Some(1)
    case Bimester => Some(2)
    case Quarter => Some(3)
    case Semester => Some(6)
    case _ => None
  }

  /** The calendar periods match exactly when the report falls in the
      current year and in the same k-month bucket as today. */
  lemma PeriodBuckets(reportDay: Day, period: Period, target: YearChoice, now: Instant)
    requires BucketMonths(period).Some? && YearGate(reportDay, target)
    ensures var k := BucketMonths(period).value;
            CheckPeriodMatch(reportDay, period, target, now)
            <==> Month(reportDay) / k == Month(DayOf(now)) / k && Year(reportDay) == Year(DayOf(now))
  {
    var rm, nm := Month(reportDay), Month(DayOf(now));
    if period.Semester? {
      assert (if nm < 6 then 0 else 1) == nm / 6;
      assert (if rm < 6 then 0 else 1) == rm / 6;
    }
  }

  /** 'year' matches exactly the reports of the selected year, so together
      with year 'all' it matches nothing. */
  lemma PeriodAnnual(reportDay: Day, target: YearChoice, now: Instant)
    ensures CheckPeriodMatch(reportDay, Annual, target, now) <==> target == InYear(Year(reportDay))
    ensures !CheckPeriodMatch(reportDay, Annual, AllYears, now)
  {
  }

  /** 'week' matches the reports whose noon lies at most seven days from
      now, in either direction. */
  lemma PeriodWeek(reportDay: Day, target: YearChoice, now: Instant)
    ensures CheckPeriodMatch(reportDay, Week, target, now)
            <==> YearGate(reportDay, target) && -7 * MsPerDay <= now - Noon(reportDay) <= 7 * MsPerDay
  {
    WithinWeekIff(now, Noon(reportDay));
  }

  /** A period the switch does not know leaves only the year test. */
  lemma PeriodUnknown(reportDay: Day, period: Period, target: YearChoice, now: Instant)
    requires period.MonthNumber? || period.OtherPeriod?
    ensures CheckPeriodMatch(reportDay, period, target, now) <==> YearGate(reportDay, target)
  {
  }

  /** The test `filteredReportsForList` applies to one report. */
  predicate ListKeeps(cells: seq<Cell>, typeF: TypeChoice, cellF: NameChoice, dateF: Option<Day>,
                      period: Period, target: YearChoice, now: Instant, r: Report)
  {
    var cell := FindCell(cells, r.cellId);
    var matchType := typeF.Todas? || (cell.Some? && cell.value.cellType == typeF.cellType);
    if !matchType || !NameMatches(cellF, r.cellName) then false
    else if dateF.Some? then r.date == dateF.value
    else CheckPeriodMatch(r.date, period, target, now)
  }

  function ListFilter(cells: seq<Cell>, typeF: TypeChoice, cellF: NameChoice, dateF: Option<Day>,
                      period: Period, target: YearChoice, now: Instant): Report -> bool
  {
    r => ListKeeps(cells, typeF, cellF, dateF, period, target, now, r)
  }

  /** `filteredReportsForList`: the matching reports, newest first. */
  function FilteredReportsForList(reports: seq<Report>, cells: seq<Cell>, typeF: TypeChoice,
                                  cellF: NameChoice, dateF: Option<Day>, period: Period,
                                  target: YearChoice, now: Instant): (list: seq<Report>)
    ensures |list| <= |reports|
  {
    SortBy(Filter(reports, ListFilter(cells, typeF, cellF, dateF, period, target, now)), ReportDateDesc)
  }

  /** The list is newest first. */
  lemma {:induction false} FilteredListNewestFirst(reports: seq<Report>, cells: seq<Cell>, typeF: TypeChoice,
                                                   cellF: NameChoice, dateF: Option<Day>, period: Period,
                                                   target: YearChoice, now: Instant)
    ensures var list := FilteredReportsForList(reports, cells, typeF, cellF, dateF, period, target, now);
            forall i, j :: 0 <= i < j < |list| ==> list[i].date >= list[j].date
  {
    var list := FilteredReportsForList(reports, cells, typeF, cellF, dateF, period, target, now);
    SortByOrders(Filter(reports, ListFilter(cells, typeF, cellF, dateF, period, target, now)), ReportDateDesc);
    assert forall i, j :: 0 <= i < j < |list| ==> ReportDateDesc(list[i]) <= ReportDateDesc(list[j]);
  }

  /** The list holds each matching report as often as the input does, and
      nothing else. */
  lemma {:induction false} FilteredListContents(reports: seq<Report>, cells: seq<Cell>, typeF: TypeChoice,
                             cellF: NameChoice, dateF: Option<Day>, period: Period,
                             target: YearChoice, now: Instant, r: Report)
    ensures var list := FilteredReportsForList(reports, cells, typeF, cellF, dateF, period, target, now);
            multiset(list)[r] == if ListKeeps(cells, typeF, cellF, dateF, period, target, now, r)
                                 then multiset(reports)[r] else 0
  {
    SortFilterMultiset(reports, ListFilter(cells, typeF, cellF, dateF, period, target, now), ReportDateDesc);
  }

  /** With a date chosen, the list is exactly the type- and name-matching
      reports of that date, whatever the period and year selects say. */
  lemma FilteredListByDate(reports: seq<Report>, cells: seq<Cell>, typeF: TypeChoice,
                           cellF: NameChoice, d: Day, period: Period, target: YearChoice,
                           now: Instant, r: Report)
    ensures var list := FilteredReportsForList(reports, cells, typeF, cellF, Some(d), period, target, now);
            var cell := FindCell(cells, r.cellId);
            r in list <==> r in reports && r.date == d && NameMatches(cellF, r.cellName)
                           && (typeF.Todas? || (cell.Some? && cell.value.cellType == typeF.cellType))
  {
    FilteredListContents(reports, cells, typeF, cellF, Some(d), period, target, now, r);
    var list := FilteredReportsForList(reports, cells, typeF, cellF, Some(d), period, target, now);
    assert r in list <==> multiset(list)[r] > 0;
    assert r in reports <==> multiset(reports)[r] > 0;
  }

  /** Reports of the same date keep the order they had in `reports`. */
  lemma {:induction false} FilteredListStable(reports: seq<Report>, cells: seq<Cell>, typeF: TypeChoice,
                           cellF: NameChoice, dateF: Option<Day>, period: Period,
                           target: YearChoice, now: Instant, d: Day)
    ensures var keep := ListFilter(cells, typeF, cellF, dateF, period, target, now);
            Filter(FilteredReportsForList(reports, cells, typeF, cellF, dateF, period, target, now),
                   KeyIs(ReportDateDesc, -d))
            == Filter(Filter(reports, keep), KeyIs(ReportDateDesc, -d))
  {
    SortFilterStable(reports, ListFilter(cells, typeF, cellF, dateF, period, target, now), ReportDateDesc, -d);
  }

  /** The goal status select. */
  datatype GoalStatus = GoalsAll | GoalsCompleted | GoalsPending

  predicate GoalShown(status: GoalStatus, g: Goal)
  {
    match status
    case GoalsCompleted => g.isCompleted
    case GoalsPending => !g.isCompleted
    case GoalsAll => true
  }

  function GoalFilter(status: GoalStatus): Goal -> bool
  {
    g => GoalShown(status, g)
  }

  /** `filteredGoals`. */
  function FilteredGoals(goals: seq<Goal>, status: GoalStatus): (r: seq<Goal>)
    ensures |r| <= |goals|
  {
    Filter(goals, GoalFilter(status))
  }

  /** 'all' shows every goal; 'completed' and 'pending' split the goals
      between them. */
  lemma GoalsPartition(goals: seq<Goal>)
    ensures FilteredGoals(goals, GoalsAll) == goals
    ensures |FilteredGoals(goals, GoalsCompleted)| + |FilteredGoals(goals, GoalsPending)| == |goals|
    ensures forall g :: g in FilteredGoals(goals, GoalsCompleted) <==> g in goals && g.isCompleted
    ensures forall g :: g in FilteredGoals(goals, GoalsPending) <==> g in goals && !g.isCompleted
  {
    FilterAll(goals, GoalFilter(GoalsAll));
    FilterComplement(goals, GoalFilter(GoalsCompleted));
    FilterExt(goals, Not(GoalFilter(GoalsCompleted)), GoalFilter(GoalsPending));
    FilterMembers(goals, GoalFilter(GoalsCompleted));
    FilterMembers(goals, GoalFilter(GoalsPending));
  }

  /** The goal lists are taken piecewise, so each keeps the order of the
      goals, and a goal of the right status is listed as often as it occurs. */
  lemma GoalsKeepOrder(a: seq<Goal>, b: seq<Goal>, status: GoalStatus)
    ensures FilteredGoals(a + b, status) == FilteredGoals(a, status) + FilteredGoals(b, status)
    ensures forall g :: multiset(FilteredGoals(a, status))[g]
                        == if GoalShown(status, g) then multiset(a)[g] else 0
  {
    FilterAppend(a, b, GoalFilter(status));
    FilterMultiset(a, GoalFilter(status));
  }

  /** `toggleGoalCompletion`: the goal handed to `onUpdateGoal`. */
  function ToggleGoalCompletion(g: Goal): (r: Goal)
    ensures r.isCompleted != g.isCompleted
    ensures r.(isCompleted := g.isCompleted) == g
  {
    g.(isCompleted := !g.isCompleted)
  }

  /** Toggling moves a goal between the pending and the completed list, and
      a second toggle restores it. */
  lemma ToggleMovesGoal(g: Goal)
    ensures GoalShown(GoalsCompleted, ToggleGoalCompletion(g)) <==> GoalShown(GoalsPending, g)
    ensures ToggleGoalCompletion(ToggleGoalCompletion(g)) == g
  {
  }

  predicate NonBlank(m: string)
  {
    Trim(m) != []
  }

  /** `team.filter(m => m.trim() !== '')`. */
  function CleanTeam(team: seq<string>): (r: seq<string>)
    ensures |r| <= |team|
  {
    Filter(team, NonBlank)
  }

  /** The cleaned team holds exactly the non-blank members, and cleaning
      twice changes nothing. */
  lemma CleanTeamMembers(team: seq<string>)
    ensures forall m :: m in CleanTeam(team) <==> m in team && Trim(m) != []
    ensures CleanTeam(CleanTeam(team)) == CleanTeam(team)
  {
    FilterMembers(team, NonBlank);
    FilterIdempotent(team, NonBlank);
  }

  /** The call `handleCellFormSubmit` makes. */
  datatype CellFormCall = UpdateCellCall(cell: Cell) | AddCellCall(cell: Cell)

  /** `if (editingCellId)`: an empty id counts as no id. */
  predicate EditingCell(editingId: Option<string>)
  {
    editingId.Some? && editingId.value != []
  }

  /** `handleCellFormSubmit`: the form with its blank team members removed,
      sent as an update of the edited cell or as a new cell. */
  function CellFormSubmit(form: Cell, editingId: Option<string>): (call: CellFormCall)
    ensures call.UpdateCellCall? <==> editingId.Some? && editingId.value != []
    ensures call.cell.team == CleanTeam(form.team)
    ensures call.UpdateCellCall? ==> call.cell.id == editingId.value
    ensures call.AddCellCall? ==> call.cell.id == form.id
    ensures call.cell.(team := form.team, id := form.id) == form
  {
    var finalData := form.(team := CleanTeam(form.team));
    if EditingCell(editingId) then UpdateCellCall(finalData.(id := editingId.value))
    else AddCellCall(finalData)
  }

  /** The recipient select of the notice form. */
  datatype Recipient = AllLeaders | OneLeader(cellId: string)

  /** One call of `onNotify(title, message, type, phone, cellId)`. */
  datatype NotifyCall = NotifyCall(
    title: string,
    message: string,
    kind: NotificationType,
    phone: Option<string>,
    cellId: Option<string>)

  function NoticeTo(title: string, message: string): Cell -> NotifyCall
  {
    (c: Cell) => NotifyCall(title, message, AdminNotice, None, Some(c.id))
  }

  /** `handleSendAppNotice`: the notify calls made, in order. */
  function SendAppNotice(title: string, message: string, recipient: Recipient, cells: seq<Cell>)
    : (calls: seq<NotifyCall>)
    ensures title == [] || message == [] ==> calls == []
    ensures title != [] && message != [] && recipient.AllLeaders? ==>
              |calls| == |cells|
              && forall i :: 0 <= i < |cells| ==> calls[i].cellId == Some(cells[i].id)
    ensures title != [] && message != [] && recipient.OneLeader? ==>
              |calls| == 1 && calls[0].cellId == Some(recipient.cellId)
    ensures forall i :: 0 <= i < |calls| ==>
              calls[i].kind == AdminNotice && calls[i].phone == None
              && calls[i].title == title && calls[i].message == message
  {
    if title == [] || message == [] then []
    else
      match recipient
      case AllLeaders => Map(cells, NoticeTo(title, message))
      case OneLeader(id) => [NotifyCall(title, message, AdminNotice, None, Some(id))]
  }
}
