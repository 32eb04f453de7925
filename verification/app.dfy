/** The application's state store (App.tsx): the lists `useState` holds,
    the session and the active tab, and the handlers the pages call to
    change them. Each handler's local update is modelled; the database call
    beside it is modelled by its row mapping (module Rows), and `fetchData`
    by `Store.Sync`, which receives the rows each query returned. */
module App {
  import opened Seqs
  import opened Types
  import opened Rows
  import LateReports

  // ------------------------------------------------------ list operations

  function CellKey(c: Cell): string { c.id }
  function ReportKey(r: Report): string { r.id }
  function GoalKey(g: Goal): string { g.id }
  function ShareKey(s: Share): string { s.id }
  function EventKey(e: AppEvent): string { e.id }
  function NotificationKey(n: AppNotification): string { n.id }

  function KeyIsNot<T>(key: T -> string, id: string): T -> bool
  {
    x => key(x) != id
  }

  function HasKey<T>(key: T -> string, id: string): T -> bool
  {
    x => key(x) == id
  }

  /** `prev.filter(x => x.id !== id)`: exactly the items with that id go;
      what stays is a subsequence of the list, so the order is kept. */
  function RemoveId<T(!new)>(xs: seq<T>, key: T -> string, id: string): (r: seq<T>)
    ensures forall x :: x in r <==> x in xs && key(x) != id
    ensures |r| + |Filter(xs, HasKey(key, id))| == |xs|
  {
    FilterMembers(xs, KeyIsNot(key, id));
    FilterComplement(xs, KeyIsNot(key, id));
    FilterExt(xs, Not(KeyIsNot(key, id)), HasKey(key, id));
    Filter(xs, KeyIsNot(key, id))
  }

  /** Removal works piecewise, so the survivors keep their relative order;
      a list without the id is left as it is, and removing twice is
      removing once. */
  lemma RemoveIdOrder<T(!new)>(a: seq<T>, b: seq<T>, key: T -> string, id: string)
    ensures RemoveId(a + b, key, id) == RemoveId(a, key, id) + RemoveId(b, key, id)
    ensures (forall i :: 0 <= i < |a| ==> key(a[i]) != id) ==> RemoveId(a, key, id) == a
    ensures RemoveId(RemoveId(a, key, id), key, id) == RemoveId(a, key, id)
  {
    FilterAppend(a, b, KeyIsNot(key, id));
    if forall i :: 0 <= i < |a| ==> key(a[i]) != id {
      FilterAll(a, KeyIsNot(key, id));
    }
    FilterIdempotent(a, KeyIsNot(key, id));
  }

  function ReplaceWith<T>(key: T -> string, y: T): T -> T
  {
    x => if key(x) == key(y) then y else x
  }

  /** `prev.map(x => x.id === y.id ? y : x)`. */
  function ReplaceId<T>(xs: seq<T>, key: T -> string, y: T): (r: seq<T>)
    ensures |r| == |xs|
    ensures forall i :: 0 <= i < |xs| && key(xs[i]) == key(y) ==> r[i] == y
    ensures forall i :: 0 <= i < |xs| && key(xs[i]) != key(y) ==> r[i] == xs[i]
  {
    Map(xs, ReplaceWith(key, y))
  }

  /** Every position keeps its id, and a list without y's id is left as
      it is. */
  lemma ReplaceIdKeys<T>(xs: seq<T>, key: T -> string, y: T)
    ensures Map(ReplaceId(xs, key, y), key) == Map(xs, key)
    ensures (forall i :: 0 <= i < |xs| ==> key(xs[i]) != key(y)) ==> ReplaceId(xs, key, y) == xs
  {
    var r := ReplaceId(xs, key, y);
    assert forall i :: 0 <= i < |xs| ==> key(r[i]) == key(xs[i]);
  }

  /** y ends up in the list exactly when its id was there. */
  lemma ReplaceIdPresent<T>(xs: seq<T>, key: T -> string, y: T)
    ensures y in ReplaceId(xs, key, y) <==> exists i :: 0 <= i < |xs| && key(xs[i]) == key(y)
  {
    var r := ReplaceId(xs, key, y);
    if y in r {
      var i :| 0 <= i < |r| && r[i] == y;
      assert key(xs[i]) == key(y);
    }
    if exists i :: 0 <= i < |xs| && key(xs[i]) == key(y) {
      var i :| 0 <= i < |xs| && key(xs[i]) == key(y);
      assert r[i] == y;
    }
  }

  /** Replacing twice is replacing once. */
  lemma ReplaceIdIdempotent<T>(xs: seq<T>, key: T -> string, y: T)
    ensures ReplaceId(ReplaceId(xs, key, y), key, y) == ReplaceId(xs, key, y)
  {
    var r := ReplaceId(xs, key, y);
    var rr := ReplaceId(r, key, y);
    forall i | 0 <= i < |xs| ensures rr[i] == r[i] {
      if key(xs[i]) == key(y) {
        assert r[i] == y;
      } else {
        assert r[i] == xs[i];
      }
    }
  }

  function DismissWith(cellId: string, date: Day): Cell -> Cell
  {
    (c: Cell) => if c.id == cellId then c.(dismissedLateDate := Some(date)) else c
  }

  /** `handleDismissLateAlert`'s update of the cell list. */
  function DismissIn(cells: seq<Cell>, cellId: string, date: Day): (r: seq<Cell>)
    ensures |r| == |cells|
    ensures forall i :: 0 <= i < |cells| ==>
              r[i] == if cells[i].id == cellId then cells[i].(dismissedLateDate := Some(date)) else cells[i]
  {
    Map(cells, DismissWith(cellId, date))
  }

  /** Dismissing changes the dismissed date of the matching cells and
      nothing else, and it silences the alert of the dismissed date: the
      alert the admin dashboard showed for that cell is gone. */
  lemma DismissSilencesAlert(cells: seq<Cell>, reports: seq<Report>, now: Instant, i: int)
    requires 0 <= i < |cells|
    requires LateReports.AlertFor(cells[i], reports, now).Some?
    ensures var d := LateReports.AlertFor(cells[i], reports, now).value.date;
            var r := DismissIn(cells, cells[i].id, d);
            && (forall j :: 0 <= j < |cells| ==>
                  r[j].(dismissedLateDate := None) == cells[j].(dismissedLateDate := None))
            && LateReports.AlertFor(r[i], reports, now).None?
  {
    var d := LateReports.AlertFor(cells[i], reports, now).value.date;
    assert DismissIn(cells, cells[i].id, d)[i] == cells[i].(dismissedLateDate := Some(d));
    LateReports.DismissingAlertDateSilences(cells[i], reports, now);
  }

  function MarkWith(id: string): AppNotification -> AppNotification
  {
    (n: AppNotification) => if n.id == id then n.(isRead := true) else n
  }

  /** `markNotifRead`'s update of the list. */
  function MarkRead(ns: seq<AppNotification>, id: string): (r: seq<AppNotification>)
    ensures |r| == |ns|
    ensures forall i :: 0 <= i < |ns| ==> r[i] == if ns[i].id == id then ns[i].(isRead := true) else ns[i]
  {
    Map(ns, MarkWith(id))
  }

  /** Marking is idempotent, and afterwards nothing with that id is unread. */
  lemma MarkReadIdempotent(ns: seq<AppNotification>, id: string)
    ensures MarkRead(MarkRead(ns, id), id) == MarkRead(ns, id)
    ensures forall i :: 0 <= i < |ns| && MarkRead(ns, id)[i].id == id ==> MarkRead(ns, id)[i].isRead
  {
  }

  // ---------------------------------------------- visitor notifications

  /** `addNotification('Novo Visitante!', ...)` for one visitor of a new
      report; `noticeId(k)` is the fresh id of the k-th call. */
  function NoticeForVisitor(cellName: string, cellId: string, v: Visitor, k: nat, noticeId: nat -> string,
                            now: string): AppNotification
  {
    AppNotification(noticeId(k), "Novo Visitante!",
                    v.name + " visitou a c\U{00E9}lula " + cellName + ".",
                    now, false, VisitorNotice, Some(v.phone), Some(cellId))
  }

  /** The notifications the `forEach` prepends for the first k visitors of
      the report's list, the k-th visitor's first. */
  function VisitorNotices(vs: seq<Visitor>, k: nat, cellName: string, cellId: string, noticeId: nat -> string,
                          now: string): (r: seq<AppNotification>)
    requires k <= |vs|
    ensures |r| == k
  {
    if k == 0 then []
    else [NoticeForVisitor(cellName, cellId, vs[k - 1], k - 1, noticeId, now)]
         + VisitorNotices(vs, k - 1, cellName, cellId, noticeId, now)
  }

  /** One unread visitor notice for the cell per visitor, newest visitor
      first, the j-th from the front for visitor k - 1 - j. */
  lemma {:induction false} VisitorNoticesSpec(vs: seq<Visitor>, k: nat, cellName: string, cellId: string,
                                              noticeId: nat -> string, now: string)
    requires k <= |vs|
    ensures forall j :: 0 <= j < k ==>
              VisitorNotices(vs, k, cellName, cellId, noticeId, now)[j]
              == NoticeForVisitor(cellName, cellId, vs[k - 1 - j], k - 1 - j, noticeId, now)
    ensures forall j :: 0 <= j < k ==>
              var n := VisitorNotices(vs, k, cellName, cellId, noticeId, now)[j];
              !n.isRead && n.kind == VisitorNotice && n.cellId == Some(cellId)
  {
    if k > 0 {
      VisitorNoticesSpec(vs, k - 1, cellName, cellId, noticeId, now);
      var r := VisitorNotices(vs, k, cellName, cellId, noticeId, now);
      var rest := VisitorNotices(vs, k - 1, cellName, cellId, noticeId, now);
      assert r == [NoticeForVisitor(cellName, cellId, vs[k - 1], k - 1, noticeId, now)] + rest;
      forall j | 1 <= j < k
        ensures r[j] == NoticeForVisitor(cellName, cellId, vs[k - 1 - j], k - 1 - j, noticeId, now)
      {
        var i := j - 1;
        assert r[j] == rest[i];
        assert rest[i] == NoticeForVisitor(cellName, cellId, vs[k - 1 - 1 - i], k - 1 - 1 - i, noticeId, now);
      }
    }
  }

  /** One more turn of the `forEach`: the next visitor's notice goes in
      front of those already added. */
  lemma VisitorNoticesStep(vs: seq<Visitor>, k: nat, cellName: string, cellId: string, noticeId: nat -> string,
                           now: string, before: seq<AppNotification>)
    requires k < |vs|
    ensures [NoticeForVisitor(cellName, cellId, vs[k], k, noticeId, now)]
            + (VisitorNotices(vs, k, cellName, cellId, noticeId, now) + before)
            == VisitorNotices(vs, k + 1, cellName, cellId, noticeId, now) + before
  {
    var n := NoticeForVisitor(cellName, cellId, vs[k], k, noticeId, now);
    var done := VisitorNotices(vs, k, cellName, cellId, noticeId, now);
    assert VisitorNotices(vs, k + 1, cellName, cellId, noticeId, now) == [n] + done;
    assert [n] + (done + before) == ([n] + done) + before;
  }

  /** The notifications `handleAddReport` adds: none unless the report has a
      positive first-time count. */
  function NewVisitorNotices(data: Report, noticeId: nat -> string, now: string): (r: seq<AppNotification>)
    ensures |r| == if data.firstTimeVisitorsCount > 0 then |data.firstTimeVisitorsList| else 0
  {
    if data.firstTimeVisitorsCount > 0
    then VisitorNotices(data.firstTimeVisitorsList, |data.firstTimeVisitorsList|, data.cellName, data.cellId, noticeId, now)
    else []
  }

  // ---------------------------------------------------------------- events

  /** `[...prev, e].sort(by date)`: the list with e is sorted by date, and
      among events of one date the earlier ones keep their order with the
      new one after them. */
  lemma EventsAfterAdd(events: seq<AppEvent>, e: AppEvent, day: int)
    ensures SortedBy(SortBy(events + [e], EventDateAsc), EventDateAsc)
    ensures multiset(SortBy(events + [e], EventDateAsc)) == multiset(events) + multiset{e}
    ensures Filter(SortBy(events + [e], EventDateAsc), KeyIs(EventDateAsc, day))
            == Filter(events, KeyIs(EventDateAsc, day)) + (if e.date == day then [e] else [])
  {
    var all := events + [e];
    var onDay := KeyIs(EventDateAsc, day);
    SortByOrders(all, EventDateAsc);
    SortByPermutes(all, EventDateAsc);
    assert multiset(all) == multiset(events) + multiset{e};
    SortByStable(all, EventDateAsc, day);
    FilterSnoc(events, e, onDay);
    assert onDay(e) <==> e.date == day;
  }

  // ---------------------------------------------------------------- session

  /** `authState`. */
  datatype Session = Session(role: Role, cell: Option<Cell>, isAuthenticated: bool, isConfirmed: bool)

  const SignedOut: Session := Session(NoRole, None, false, false)

  /** The session `handleLogin` sets: authenticated, and confirmed exactly
      for an admin. */
  function SignedIn(role: Role, cell: Option<Cell>): (s: Session)
    ensures s.isAuthenticated && s.role == role && s.cell == cell
    ensures s.isConfirmed <==> role == Admin
  {
    Session(role, cell, true, role == Admin)
  }

  /** The tab `handleLogin` opens. */
  function LandingTab(role: Role): string
  {
    if role == Admin then "admin-relatorios" else "cadastrar"
  }

  /** `handleUpdateCell` refreshes the session's cell when it is the one
      updated. */
  function SessionAfterCellUpdate(s: Session, c: Cell): (r: Session)
    ensures r.role == s.role && r.isAuthenticated == s.isAuthenticated && r.isConfirmed == s.isConfirmed
    ensures s.cell.Some? && s.cell.value.id == c.id ==> r.cell == Some(c)
    ensures !(s.cell.Some? && s.cell.value.id == c.id) ==> r == s
  {
    if s.cell.Some? && s.cell.value.id == c.id then s.(cell := Some(c)) else s
  }

  // ------------------------------------------------------------------ store

  datatype StoreState = StoreState(
    cells: seq<Cell>,
    reports: seq<Report>,
    shares: seq<Share>,
    baptisms: seq<Baptism>,
    goals: seq<Goal>,
    events: seq<AppEvent>,
    notifications: seq<AppNotification>,
    auth: Session,
    activeTab: string)

  /** `fetchData`'s result for one table: the query's rows, or None when the
      query returned no data. */
  function Fetched<R, T>(rows: Option<seq<R>>, f: R -> T, current: seq<T>): seq<T>
  {
    if rows.Some? then Map(rows.value, f) else current
  }

  /** The cell list is replaced only by a non-empty result. */
  function FetchedCells(rows: Option<seq<CellRow>>, current: seq<Cell>): seq<Cell>
  {
    if rows.Some? && |rows.value| > 0 then Map(rows.value, FetchCell) else current
  }

  class Store {
    var cells: seq<Cell>
    var reports: seq<Report>
    var shares: seq<Share>
    var baptisms: seq<Baptism>
    var goals: seq<Goal>
    var events: seq<AppEvent>
    var notifications: seq<AppNotification>
    var auth: Session
    var activeTab: string

    function State(): StoreState
      reads this
    {
      StoreState(cells, reports, shares, baptisms, goals, events, notifications, auth, activeTab)
    }

    /** The initial state: the built-in cells, empty lists, and the session
        and tab restored from the browser (parameters here). */
    constructor(initialCells: seq<Cell>, session: Session, tab: string)
      ensures State() == StoreState(initialCells, [], [], [], [], [], [], session, tab)
    {
      cells, reports, shares, baptisms := initialCells, [], [], [];
      goals, events, notifications := [], [], [];
      auth, activeTab := session, tab;
    }

    /** `fetchData`: each table's rows replace the list (the cells only when
        there is at least one); a table without data leaves its list. */
    method Sync(cellRows: Option<seq<CellRow>>, reportRows: Option<seq<ReportRow>>,
                shareRows: Option<seq<ShareRow>>, baptismRows: Option<seq<BaptismRow>>,
                goalRows: Option<seq<GoalRow>>, notificationRows: Option<seq<NotificationRow>>,
                eventRows: Option<seq<EventRow>>)
      modifies this
      ensures State() == old(State()).(cells := FetchedCells(cellRows, old(cells)),
                                       reports := Fetched(reportRows, FetchReport, old(reports)),
                                       shares := Fetched(shareRows, FetchShare, old(shares)),
                                       baptisms := Fetched(baptismRows, FetchBaptism, old(baptisms)),
                                       goals := Fetched(goalRows, FetchGoal, old(goals)),
                                       notifications := Fetched(notificationRows, FetchNotification, old(notifications)),
                                       events := Fetched(eventRows, FetchEvent, old(events)))
    {
      SyncCongregation(cellRows, reportRows, shareRows, baptismRows);
      SyncAgenda(goalRows, notificationRows, eventRows);
    }

    /** The first four of `fetchData`'s results. */
    method SyncCongregation(cellRows: Option<seq<CellRow>>, reportRows: Option<seq<ReportRow>>,
                            shareRows: Option<seq<ShareRow>>, baptismRows: Option<seq<BaptismRow>>)
      modifies this
      ensures State() == old(State()).(cells := FetchedCells(cellRows, old(cells)),
                                       reports := Fetched(reportRows, FetchReport, old(reports)),
                                       shares := Fetched(shareRows, FetchShare, old(shares)),
                                       baptisms := Fetched(baptismRows, FetchBaptism, old(baptisms)))
    {
      cells, reports := FetchedCells(cellRows, cells), Fetched(reportRows, FetchReport, reports);
      shares, baptisms := Fetched(shareRows, FetchShare, shares), Fetched(baptismRows, FetchBaptism, baptisms);
    }

    /** The last three of `fetchData`'s results. */
    method SyncAgenda(goalRows: Option<seq<GoalRow>>, notificationRows: Option<seq<NotificationRow>>,
                      eventRows: Option<seq<EventRow>>)
      modifies this
      ensures State() == old(State()).(goals := Fetched(goalRows, FetchGoal, old(goals)),
                                       notifications := Fetched(notificationRows, FetchNotification, old(notifications)),
                                       events := Fetched(eventRows, FetchEvent, old(events)))
    {
      goals := Fetched(goalRows, FetchGoal, goals);
      notifications := Fetched(notificationRows, FetchNotification, notifications);
      events := Fetched(eventRows, FetchEvent, events);
    }

    /** `handleLogin`: authenticated, confirmed iff admin, on the role's
        first tab. */
    method HandleLogin(role: Role, cell: Option<Cell>)
      modifies this
      ensures State() == old(State()).(auth := SignedIn(role, cell), activeTab := LandingTab(role))
      ensures auth.isAuthenticated && (auth.isConfirmed <==> role == Admin)
    {
      auth := SignedIn(role, cell);
      activeTab := LandingTab(role);
    }

    /** `handleLogout`. */
    method HandleLogout()
      modifies this
      ensures State() == old(State()).(auth := SignedOut, activeTab := "cadastrar")
    {
      auth := SignedOut;
      activeTab := "cadastrar";
    }

    // ------------------------------------------------------------ cells

    /** `handleAddCell`: appended under the fresh id. */
    method AddCell(data: Cell, tempId: string)
      modifies this
      ensures State() == old(State()).(cells := old(cells) + [data.(id := tempId)])
    {
      cells := cells + [data.(id := tempId)];
    }

    /** `handleUpdateCell`: the cell replaces those with its id; a session
        on that cell sees the new version. */
    method UpdateCell(c: Cell)
      modifies this
      ensures State() == old(State()).(cells := ReplaceId(old(cells), CellKey, c),
                                       auth := SessionAfterCellUpdate(old(auth), c))
    {
      cells := ReplaceId(cells, CellKey, c);
      if auth.cell.Some? && auth.cell.value.id == c.id {
        auth := auth.(cell := Some(c));
      }
    }

    /** `handleDeleteCell`. */
    method DeleteCell(id: string)
      modifies this
      ensures State() == old(State()).(cells := RemoveId(old(cells), CellKey, id))
      ensures forall c :: c in cells <==> c in old(cells) && c.id != id
    {
      cells := RemoveId(cells, CellKey, id);
    }

    /** `handleDismissLateAlert`. */
    method DismissLateAlert(cellId: string, date: Day)
      modifies this
      ensures State() == old(State()).(cells := DismissIn(old(cells), cellId, date))
    {
      cells := DismissIn(cells, cellId, date);
    }

    // ---------------------------------------------------------- reports

    /** `addNotification`: an unread notification, prepended. */
    method AddNotification(title: string, message: string, kind: NotificationType,
                           visitorPhone: Option<string>, cellId: Option<string>,
                           tempId: string, now: string)
      modifies this
      ensures State() == old(State()).(notifications :=
        [AppNotification(tempId, title, message, now, false, kind, visitorPhone, cellId)] + old(notifications))
    {
      notifications := [AppNotification(tempId, title, message, now, false, kind, visitorPhone, cellId)] + notifications;
    }

    /** `handleAddReport`: the report is prepended, then with a positive
        first-time count each listed visitor gets an unread notification. */
    method AddReport(data: Report, tempId: string, noticeId: nat -> string, now: string)
      modifies this
      ensures State() == old(State()).(reports := [data.(id := tempId)] + old(reports),
                                       notifications := NewVisitorNotices(data, noticeId, now) + old(notifications))
    {
      var added := data.(id := tempId);
      reports := [added] + reports;
      if data.firstTimeVisitorsCount > 0 {
        var vs, cellName, cellId := data.firstTimeVisitorsList, data.cellName, data.cellId;
        for k := 0 to |vs|
          invariant State() == old(State()).(reports := [added] + old(reports),
                                             notifications := VisitorNotices(vs, k, cellName, cellId, noticeId, now)
                                                              + old(notifications))
        {
          var v := vs[k];
          VisitorNoticesStep(vs, k, cellName, cellId, noticeId, now, old(notifications));
          AddNotification("Novo Visitante!", v.name + " visitou a c\U{00E9}lula " + cellName + ".",
                          VisitorNotice, Some(v.phone), Some(cellId), noticeId(k), now);
        }
      }
    }

    /** `handleDeleteReport`. */
    method DeleteReport(id: string)
      modifies this
      ensures State() == old(State()).(reports := RemoveId(old(reports), ReportKey, id))
    {
      reports := RemoveId(reports, ReportKey, id);
    }

    /** `handleUpdateReport`. */
    method UpdateReport(r: Report)
      modifies this
      ensures State() == old(State()).(reports := ReplaceId(old(reports), ReportKey, r))
    {
      reports := ReplaceId(reports, ReportKey, r);
    }

    // ------------------------------------------------------------ goals

    /** `handleAddGoal`: appended. */
    method AddGoal(data: Goal, tempId: string)
      modifies this
      ensures State() == old(State()).(goals := old(goals) + [data.(id := tempId)])
    {
      goals := goals + [data.(id := tempId)];
    }

    method UpdateGoal(g: Goal)
      modifies this
      ensures State() == old(State()).(goals := ReplaceId(old(goals), GoalKey, g))
    {
      goals := ReplaceId(goals, GoalKey, g);
    }

    method DeleteGoal(id: string)
      modifies this
      ensures State() == old(State()).(goals := RemoveId(old(goals), GoalKey, id))
    {
      goals := RemoveId(goals, GoalKey, id);
    }

    // ---------------------------------------------------- notifications

    /** `markNotifRead`. */
    method MarkNotifRead(id: string)
      modifies this
      ensures State() == old(State()).(notifications := MarkRead(old(notifications), id))
    {
      notifications := MarkRead(notifications, id);
    }

    /** `deleteNotification`. */
    method DeleteNotification(id: string)
      modifies this
      ensures State() == old(State()).(notifications := RemoveId(old(notifications), NotificationKey, id))
    {
      notifications := RemoveId(notifications, NotificationKey, id);
    }

    // ------------------------------------------ shares, baptisms, events

    /** `handleAddShare`: prepended. */
    method AddShare(data: Share, tempId: string)
      modifies this
      ensures State() == old(State()).(shares := [data.(id := tempId)] + old(shares))
    {
      shares := [data.(id := tempId)] + shares;
    }

    method DeleteShare(id: string)
      modifies this
      ensures State() == old(State()).(shares := RemoveId(old(shares), ShareKey, id))
    {
      shares := RemoveId(shares, ShareKey, id);
    }

    /** `handleAddBaptism`: appended. */
    method AddBaptism(data: Baptism, tempId: string)
      modifies this
      ensures State() == old(State()).(baptisms := old(baptisms) + [data.(id := tempId)])
    {
      baptisms := baptisms + [data.(id := tempId)];
    }

    /** `handleAddEvent`: the list with the new event, sorted by date. */
    method AddEvent(data: AppEvent, tempId: string)
      modifies this
      ensures State() == old(State()).(events := SortBy(old(events) + [data.(id := tempId)], EventDateAsc))
      ensures SortedBy(events, EventDateAsc)
      ensures multiset(events) == multiset(old(events)) + multiset{data.(id := tempId)}
    {
      EventsAfterAdd(events, data.(id := tempId), 0);
      events := SortBy(events + [data.(id := tempId)], EventDateAsc);
    }

    /** `handleDeleteEvent`; a list in date order stays in date order. */
    method DeleteEvent(id: string)
      modifies this
      ensures State() == old(State()).(events := RemoveId(old(events), EventKey, id))
      ensures SortedBy(old(events), EventDateAsc) ==> SortedBy(events, EventDateAsc)
    {
      if SortedBy(events, EventDateAsc) {
        FilterSorted(events, KeyIsNot(EventKey, id), EventDateAsc);
      }
      events := RemoveId(events, EventKey, id);
    }
  }
}
