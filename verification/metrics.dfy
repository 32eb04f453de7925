/** `metricsData` of the admin dashboard: the reports the selects keep, their
    totals, the tallies of first-time visitors, the reports grouped by cell
    name and the attention level of every group, most urgent first. */
module Metrics {
  import opened Seqs
  import opened Types
  import opened Filters
  import opened AdminDashboard

  /** The test `metricsData` applies to one report: its cell must exist. */
  predicate MetricsKeeps(cells: seq<Cell>, typeF: TypeChoice, cellF: NameChoice, period: Period,
                         target: YearChoice, now: Instant, r: Report)
  {
    var cell := FindCell(cells, r.cellId);
    cell.Some? && TypeMatches(typeF, cell.value.cellType) && NameMatches(cellF, r.cellName)
    && CheckPeriodMatch(r.date, period, target, now)
  }

  function MetricsFilter(cells: seq<Cell>, typeF: TypeChoice, cellF: NameChoice, period: Period,
                         target: YearChoice, now: Instant): Report -> bool
  {
    (r: Report) => MetricsKeeps(cells, typeF, cellF, period, target, now, r)
  }

  /** A report whose cell has been removed never counts. */
  lemma OrphanReportsIgnored(cells: seq<Cell>, typeF: TypeChoice, cellF: NameChoice, period: Period,
                             target: YearChoice, now: Instant, reports: seq<Report>, r: Report)
    requires forall i :: 0 <= i < |cells| ==> cells[i].id != r.cellId
    ensures r !in Filter(reports, MetricsFilter(cells, typeF, cellF, period, target, now))
  {
    FilterMembers(reports, MetricsFilter(cells, typeF, cellF, period, target, now));
  }

  // ---------------------------------------------------------------- totals

  datatype Totals = Totals(
    adults: int, visitors: int, firstTime: int, conversions: int,
    visits: int, children: int, offeringAdult: int, offeringKids: int)

  function Attendance(r: Report): int { r.attendance }
  function Visitors(r: Report): int { r.visitors }
  function FirstTime(r: Report): int { r.firstTimeVisitorsCount }
  function Conversions(r: Report): int { r.conversions }
  function Visits(r: Report): int { r.weeklyVisits }
  function Children(r: Report): int { r.childrenCount }
  function Offering(r: Report): int { r.offering }
  function KidsOffering(r: Report): int { r.kidsOffering }

  /** The reducer's step: the accumulator plus one report. */
  function AddToTotals(acc: Totals, r: Report): Totals
  {
    Totals(acc.adults + r.attendance, acc.visitors + r.visitors,
           acc.firstTime + r.firstTimeVisitorsCount, acc.conversions + r.conversions,
           acc.visits + r.weeklyVisits, acc.children + r.childrenCount,
           acc.offeringAdult + r.offering, acc.offeringKids + r.kidsOffering)
  }

  /** `reduce` from the all-zero accumulator, left to right. */
  function ReduceTotals(rs: seq<Report>): Totals
  {
    if rs == [] then Totals(0, 0, 0, 0, 0, 0, 0, 0)
    else AddToTotals(ReduceTotals(rs[..|rs| - 1]), rs[|rs| - 1])
  }

  /** Each total is the sum of its field over the reports. */
  lemma {:induction false} TotalsAreSums(rs: seq<Report>)
    ensures ReduceTotals(rs)
         == Totals(SumOf(rs, Attendance), SumOf(rs, Visitors), SumOf(rs, FirstTime),
                   SumOf(rs, Conversions), SumOf(rs, Visits), SumOf(rs, Children),
                   SumOf(rs, Offering), SumOf(rs, KidsOffering))
  {
    if rs != [] {
      var init, last := rs[..|rs| - 1], rs[|rs| - 1];
      TotalsAreSums(init);
      assert rs == init + [last];
      SumOfAppend(init, [last], Attendance);
      SumOfAppend(init, [last], Visitors);
      SumOfAppend(init, [last], FirstTime);
      SumOfAppend(init, [last], Conversions);
      SumOfAppend(init, [last], Visits);
      SumOfAppend(init, [last], Children);
      SumOfAppend(init, [last], Offering);
      SumOfAppend(init, [last], KidsOffering);
    }
  }

  /** `Math.max(0, visitors - firstTime)`. */
  function RecurrentVisitors(t: Totals): (n: nat)
    ensures n + t.firstTime >= t.visitors
    ensures n == 0 || n + t.firstTime == t.visitors
  {
    if t.visitors - t.firstTime > 0 then t.visitors - t.firstTime else 0
  }

  // --------------------------------------------------------------- tallies

  /** The first-time visitor lists of the reports, one after the other. */
  function AllVisitors(rs: seq<Report>): seq<Visitor>
  {
    if rs == [] then [] else AllVisitors(rs[..|rs| - 1]) + rs[|rs| - 1].firstTimeVisitorsList
  }

  predicate IsBaptized(v: Visitor) { v.isBaptized }
  predicate WentToEncounter(v: Visitor) { v.hasAttendedEncounter }

  lemma CountSnoc(s: seq<Visitor>, v: Visitor, p: Visitor -> bool)
    ensures |Filter(s + [v], p)| == |Filter(s, p)| + (if p(v) then 1 else 0)
  {
    FilterSnoc(s, v, p);
  }

  /** The nested `forEach` counting baptized / not baptized and encounter /
      no encounter among the first-time visitors of the reports. */
  method Tally(rs: seq<Report>) returns (baptized: nat, notBaptized: nat, encounterYes: nat, encounterNo: nat)
    ensures baptized == |Filter(AllVisitors(rs), IsBaptized)|
    ensures notBaptized == |Filter(AllVisitors(rs), Not(IsBaptized))|
    ensures encounterYes == |Filter(AllVisitors(rs), WentToEncounter)|
    ensures encounterNo == |Filter(AllVisitors(rs), Not(WentToEncounter))|
  {
    baptized, notBaptized, encounterYes, encounterNo := 0, 0, 0, 0;
    for i := 0 to |rs|
      invariant baptized == |Filter(AllVisitors(rs[..i]), IsBaptized)|
      invariant notBaptized == |Filter(AllVisitors(rs[..i]), Not(IsBaptized))|
      invariant encounterYes == |Filter(AllVisitors(rs[..i]), WentToEncounter)|
      invariant encounterNo == |Filter(AllVisitors(rs[..i]), Not(WentToEncounter))|
    {
      ghost var before := AllVisitors(rs[..i]);
      var vs := rs[i].firstTimeVisitorsList;
      assert before + vs[..0] == before;
      for j := 0 to |vs|
        invariant baptized == |Filter(before + vs[..j], IsBaptized)|
        invariant notBaptized == |Filter(before + vs[..j], Not(IsBaptized))|
        invariant encounterYes == |Filter(before + vs[..j], WentToEncounter)|
        invariant encounterNo == |Filter(before + vs[..j], Not(WentToEncounter))|
      {
        var v := vs[j];
        assert before + vs[..j + 1] == (before + vs[..j]) + [v];
        CountSnoc(before + vs[..j], v, IsBaptized);
        CountSnoc(before + vs[..j], v, Not(IsBaptized));
        CountSnoc(before + vs[..j], v, WentToEncounter);
        CountSnoc(before + vs[..j], v, Not(WentToEncounter));
        if v.isBaptized {
          baptized := baptized + 1;
        } else {
          notBaptized := notBaptized + 1;
        }
        if v.hasAttendedEncounter {
          encounterYes := encounterYes + 1;
        } else {
          encounterNo := encounterNo + 1;
        }
      }
      assert rs[..i + 1][..i] == rs[..i];
      assert vs[..|vs|] == vs;
    }
    assert rs[..|rs|] == rs;
  }

  /** Every listed first-time visitor falls on exactly one side of each
      chart. */
  lemma TallySplitsVisitors(rs: seq<Report>)
    ensures |Filter(AllVisitors(rs), IsBaptized)| + |Filter(AllVisitors(rs), Not(IsBaptized))| == |AllVisitors(rs)|
    ensures |Filter(AllVisitors(rs), WentToEncounter)| + |Filter(AllVisitors(rs), Not(WentToEncounter))|
            == |AllVisitors(rs)|
  {
    FilterComplement(AllVisitors(rs), IsBaptized);
    FilterComplement(AllVisitors(rs), WentToEncounter);
  }

  // -------------------------------------------------------------- grouping

  /** The keys of `cellReports`, in the order the names first occur. */
  function CellNames(rs: seq<Report>): seq<string>
  {
    if rs == [] then []
    else
      var init := CellNames(rs[..|rs| - 1]);
      var n := rs[|rs| - 1].cellName;
      if n in init then init else init + [n]
  }

  /** Some report carries the name n. */
  ghost predicate HasName(rs: seq<Report>, n: string)
  {
    exists i :: 0 <= i < |rs| && rs[i].cellName == n
  }

  /** The names are distinct, and they are exactly the names of the reports. */
  lemma {:induction false} CellNamesSpec(rs: seq<Report>)
    ensures NoDuplicates(CellNames(rs))
    ensures forall n :: n in CellNames(rs) <==> HasName(rs, n)
  {
    if rs != [] {
      var init := rs[..|rs| - 1];
      CellNamesSpec(init);
      forall n ensures HasName(rs, n) <==> HasName(init, n) || rs[|rs| - 1].cellName == n
      {
        if HasName(rs, n) {
          var i :| 0 <= i < |rs| && rs[i].cellName == n;
          if i < |init| {
            assert init[i].cellName == n;
          }
        }
        if HasName(init, n) {
          var i :| 0 <= i < |init| && init[i].cellName == n;
          assert rs[i].cellName == n;
        }
      }
    }
  }

  function NameIs(n: string): Report -> bool
  {
    (r: Report) => r.cellName == n
  }

  /** The state of the grouping after the first i reports: the names met so
      far, in order, are the keys, and each key holds its reports in order. */
  ghost predicate GroupedUpTo(rs: seq<Report>, i: nat, names: seq<string>, groups: map<string, seq<Report>>)
    requires i <= |rs|
  {
    && names == CellNames(rs[..i])
    && (forall n :: n in groups <==> n in names)
    && (forall n :: n in groups ==> groups[n] == Filter(rs[..i], NameIs(n)))
  }

  /** One step of the grouping keeps that state. */
  lemma GroupStep(rs: seq<Report>, i: nat, names: seq<string>, groups: map<string, seq<Report>>,
                  names': seq<string>, groups': map<string, seq<Report>>)
    requires i < |rs| && GroupedUpTo(rs, i, names, groups)
    requires names' == if rs[i].cellName in groups then names else names + [rs[i].cellName]
    requires groups' == groups[rs[i].cellName := (if rs[i].cellName in groups then groups[rs[i].cellName] else [])
                                                 + [rs[i]]]
    ensures GroupedUpTo(rs, i + 1, names', groups')
  {
    var r := rs[i];
    assert rs[..i + 1] == rs[..i] + [r];
    assert rs[..i + 1][..i] == rs[..i];
    forall n ensures Filter(rs[..i + 1], NameIs(n)) == Filter(rs[..i], NameIs(n)) + (if r.cellName == n then [r] else []) {
      FilterSnoc(rs[..i], r, NameIs(n));
    }
    NewNameHasNoGroup(rs[..i], r.cellName);
  }

  /** A name not met yet has no reports so far. */
  lemma NewNameHasNoGroup(rs: seq<Report>, n: string)
    ensures n !in CellNames(rs) ==> Filter(rs, NameIs(n)) == []
  {
    if Filter(rs, NameIs(n)) != [] {
      var x := Filter(rs, NameIs(n))[0];
      FilterMembers(rs, NameIs(n));
      assert x in rs;
      CellNamesSpec(rs);
      var j :| 0 <= j < |rs| && rs[j] == x;
      assert HasName(rs, n);
    }
  }

  /** The `forEach` building `cellReports`: a list per cell name, in report
      order, with the names in the order they were first met. */
  method GroupByCellName(rs: seq<Report>) returns (names: seq<string>, groups: map<string, seq<Report>>)
    ensures names == CellNames(rs)
    ensures forall n :: n in groups <==> n in names
    ensures forall n :: n in groups ==> groups[n] == Filter(rs, NameIs(n))
  {
    names, groups := [], map[];
    for i := 0 to |rs|
      invariant GroupedUpTo(rs, i, names, groups)
    {
      ghost var names0, groups0 := names, groups;
      var r := rs[i];
      if r.cellName !in groups {
        groups := groups[r.cellName := []];
        names := names + [r.cellName];
      }
      groups := groups[r.cellName := groups[r.cellName] + [r]];
      GroupStep(rs, i, names0, groups0, names, groups);
    }
    assert rs[..|rs|] == rs;
  }

  // ------------------------------------------------------------- attention

  datatype Level = Critico | Atencao | Normal

  /** `order[level]` of the final sort. */
  function LevelRank(l: Level): int
  {
    match l
    case Critico => 0
    case Atencao => 1
    case Normal => 2
  }

  /** The number of reports at the head of the list without visitors. */
  function LeadingZeroRun(list: seq<Report>): (k: nat)
    ensures k <= |list|
    ensures forall i :: 0 <= i < k ==> list[i].visitors == 0
    ensures k < |list| ==> list[k].visitors != 0
  {
    if list == [] || list[0].visitors != 0 then 0
    else
      var k := LeadingZeroRun(list[1..]);
      assert forall i :: 1 <= i < k + 1 ==> list[i] == list[1..][i - 1];
      k + 1
  }

  /** The `for ... of` loop counting `weeksWithoutVisitors` up to the first
      report with visitors. */
  method WeeksWithoutVisitors(list: seq<Report>) returns (weeks: nat)
    ensures weeks == LeadingZeroRun(list)
  {
    weeks := 0;
    while weeks < |list|
      invariant weeks <= |list|
      invariant forall i :: 0 <= i < weeks ==> list[i].visitors == 0
    {
      if list[weeks].visitors == 0 {
        weeks := weeks + 1;
      } else {
        break;
      }
    }
    LeadingZeroRunUnique(list, weeks);
  }

  /** The run length is the only count with its two defining properties. */
  lemma LeadingZeroRunUnique(list: seq<Report>, k: nat)
    requires k <= |list|
    requires forall i :: 0 <= i < k ==> list[i].visitors == 0
    requires k < |list| ==> list[k].visitors != 0
    ensures k == LeadingZeroRun(list)
  {
  }

  /** The level chosen from the run of silent reports and the visitor sum
      (whose average is not above zero exactly when the sum is not). */
  function Classify(weeksWithoutVisitors: nat, visitorSum: int): Level
  {
    if weeksWithoutVisitors >= 2 then Atencao
    else if visitorSum <= 0 then Critico
    else Normal
  }

  /** One element of `attentionLevels`: the name, the level and the two
      sums whose quotients by `reportCount` are the averages. */
  datatype AttentionEntry = AttentionEntry(
    name: string, level: Level, visitorSum: int, attendanceSum: int, reportCount: nat)

  function EntryRank(e: AttentionEntry): int
  {
    LevelRank(e.level)
  }

  /** The group of a name, newest report first. */
  function GroupList(rs: seq<Report>, name: string): seq<Report>
  {
    SortBy(Filter(rs, NameIs(name)), ReportDateDesc)
  }

  function GroupLevel(list: seq<Report>): Level
  {
    Classify(LeadingZeroRun(list), SumOf(list, Visitors))
  }

  function EntryFor(rs: seq<Report>, name: string): AttentionEntry
  {
    var list := GroupList(rs, name);
    AttentionEntry(name, GroupLevel(list), SumOf(list, Visitors), SumOf(list, Attendance), |list|)
  }

  function EntryOf(rs: seq<Report>): string -> AttentionEntry
  {
    (name: string) => EntryFor(rs, name)
  }

  /** `attentionLevels`: an entry per cell name, sorted by level. */
  function AttentionLevels(rs: seq<Report>): seq<AttentionEntry>
  {
    SortBy(Map(CellNames(rs), EntryOf(rs)), EntryRank)
  }

  /** With visitor counts never negative, a group is Crítico exactly when
      it is a single report without visitors: two silent reports already
      make it Atenção, and a silent report after one with visitors leaves it
      Normal. */
  lemma CriticoIffSingleSilentReport(list: seq<Report>)
    requires |list| >= 1
    requires forall i :: 0 <= i < |list| ==> list[i].visitors >= 0
    ensures GroupLevel(list) == Critico <==> |list| == 1 && list[0].visitors == 0
  {
    SumOfNonNegative(list, Visitors);
    if GroupLevel(list) == Critico {
      assert forall i :: 0 <= i < |list| ==> Visitors(list[i]) == 0;
      LeadingZeroRunUnique(list, |list|);
    }
    if |list| == 1 && list[0].visitors == 0 {
      assert SumOf(list, Visitors) == Visitors(list[0]) + SumOf(list[1..], Visitors);
    }
  }

  /** The two newest reports without visitors make a group Atenção, whatever
      the rest of its history. */
  lemma TwoSilentReportsIsAtencao(list: seq<Report>)
    requires |list| >= 2 && list[0].visitors == 0 && list[1].visitors == 0
    ensures GroupLevel(list) == Atencao
  {
  }

  /** A group is Normal exactly when its newest report, or the one after
      it, has visitors, and the visitor sum is positive. */
  lemma NormalIff(list: seq<Report>)
    requires |list| >= 1
    ensures GroupLevel(list) == Normal
        <==> (list[0].visitors != 0 || (|list| >= 2 && list[1].visitors != 0))
             && SumOf(list, Visitors) > 0
  {
    var k := LeadingZeroRun(list);
    if list[0].visitors == 0 && |list| >= 2 && list[1].visitors == 0 {
      TwoSilentReportsIsAtencao(list);
    }
    if k >= 2 {
      assert list[0].visitors == 0 && list[1].visitors == 0;
    }
  }

  /** The entries are ordered Crítico, Atenção, Normal; entries of one level
      keep the order of their names; and there is one entry per name. */
  lemma AttentionLevelsOrder(rs: seq<Report>, level: Level)
    ensures var a := AttentionLevels(rs);
            forall i, j :: 0 <= i < j < |a| ==> LevelRank(a[i].level) <= LevelRank(a[j].level)
    ensures Filter(AttentionLevels(rs), KeyIs(EntryRank, LevelRank(level)))
         == Filter(Map(CellNames(rs), EntryOf(rs)), KeyIs(EntryRank, LevelRank(level)))
    ensures multiset(AttentionLevels(rs)) == multiset(Map(CellNames(rs), EntryOf(rs)))
  {
    var a := AttentionLevels(rs);
    SortByOrders(Map(CellNames(rs), EntryOf(rs)), EntryRank);
    SortByPermutes(Map(CellNames(rs), EntryOf(rs)), EntryRank);
    assert forall i, j :: 0 <= i < j < |a| ==> EntryRank(a[i]) <= EntryRank(a[j]);
    SortByStable(Map(CellNames(rs), EntryOf(rs)), EntryRank, LevelRank(level));
  }

  /** Every entry describes the whole group of its name: its count is the
      number of reports with that name. */
  lemma EntryCountsGroup(rs: seq<Report>, name: string)
    ensures EntryFor(rs, name).reportCount == |Filter(rs, NameIs(name))|
    ensures name in CellNames(rs) ==> EntryFor(rs, name).reportCount >= 1
  {
    if name in CellNames(rs) {
      CellNamesSpec(rs);
      assert HasName(rs, name);
      var i :| 0 <= i < |rs| && rs[i].cellName == name;
      FilterMembers(rs, NameIs(name));
      assert rs[i] in Filter(rs, NameIs(name));
    }
  }

  /** The `map` over the keys of `cellReports` followed by the sort. */
  method ComputeAttentionLevels(rs: seq<Report>, names: seq<string>, groups: map<string, seq<Report>>)
    returns (levels: seq<AttentionEntry>)
    requires names == CellNames(rs)
    requires forall n :: n in names ==> n in groups && groups[n] == Filter(rs, NameIs(n))
    ensures levels == AttentionLevels(rs)
  {
    var entries := [];
    for k := 0 to |names|
      invariant entries == Map(names[..k], EntryOf(rs))
    {
      var name := names[k];
      assert name in names;
      var entry := AttentionOf(rs, name, groups[name]);
      MapStep(names, k, EntryOf(rs), entries, entry);
      entries := entries + [entry];
    }
    assert names[..|names|] == names;
    assert entries == Map(CellNames(rs), EntryOf(rs));
    levels := SortBy(entries, EntryRank);
  }

  /** The callback of that `map` for one name, given `cellReports[name]`. */
  method AttentionOf(rs: seq<Report>, name: string, group: seq<Report>) returns (entry: AttentionEntry)
    requires group == Filter(rs, NameIs(name))
    ensures entry == EntryFor(rs, name)
  {
    var reportsList := SortBy(group, ReportDateDesc);
    var weeksWithoutVisitors := WeeksWithoutVisitors(reportsList);
    var visitorSum := SumOf(reportsList, Visitors);
    var attendanceSum := SumOf(reportsList, Attendance);
    var level := Normal;
    if weeksWithoutVisitors >= 2 {
      level := Atencao;
    } else if visitorSum <= 0 {
      level := Critico;
    }
    entry := AttentionEntry(name, level, visitorSum, attendanceSum, |reportsList|);
  }

  /** What `metricsData` returns, without the chart arrays built from it. */
  datatype MetricsResult = MetricsResult(
    totals: Totals, baptized: nat, notBaptized: nat, encounterYes: nat, encounterNo: nat,
    recurrentVisitors: nat, totalPeople: int, attentionLevels: seq<AttentionEntry>)

  /** `metricsData`. */
  method MetricsData(reports: seq<Report>, cells: seq<Cell>, typeF: TypeChoice, cellF: NameChoice,
                     period: Period, target: YearChoice, now: Instant) returns (m: MetricsResult)
    ensures var kept := Filter(reports, MetricsFilter(cells, typeF, cellF, period, target, now));
            && m.totals == ReduceTotals(kept)
            && m.baptized == |Filter(AllVisitors(kept), IsBaptized)|
            && m.notBaptized == |Filter(AllVisitors(kept), Not(IsBaptized))|
            && m.encounterYes == |Filter(AllVisitors(kept), WentToEncounter)|
            && m.encounterNo == |Filter(AllVisitors(kept), Not(WentToEncounter))|
            && m.recurrentVisitors == RecurrentVisitors(m.totals)
            && m.totalPeople == m.totals.adults + m.totals.visitors
            && m.attentionLevels == AttentionLevels(kept)
  {
    var filteredReports := Filter(reports, MetricsFilter(cells, typeF, cellF, period, target, now));
    var totals := ReduceTotals(filteredReports);
    var baptized, notBaptized, encounterYes, encounterNo := Tally(filteredReports);
    var totalPeople := totals.adults + totals.visitors;
    var recurrentVisitors := RecurrentVisitors(totals);
    var names, cellReports := GroupByCellName(filteredReports);
    var attentionLevels := ComputeAttentionLevels(filteredReports, names, cellReports);
    m := MetricsResult(totals, baptized, notBaptized, encounterYes, encounterNo,
                       recurrentVisitors, totalPeople, attentionLevels);
  }
}
