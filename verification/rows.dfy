/** The database rows behind the application's records, and the mappings
    between them in App.tsx: the column lists written by the insert and
    update calls, and the per-row mappings `fetchData` applies to the
    result of each `select('*')`.

    A row is written with the column names of the tables (snake_case),
    which is what distinguishes it from the record it maps to. Columns the
    database fills in itself (an id the insert leaves out, `created_at`)
    are parameters of the insert. */
module Rows {
  import opened Seqs
  import opened Types

  datatype CellRow = CellRow(
    id: string,
    name: string,
    leader: string,
    host: string,
    trainee: string,
    secretary: string,
    team: seq<string>,
    address: string,
    cellType: CellType,             // column `type`
    day: string,
    time: string,
    region: string,
    phone: string,
    leader_photo: Option<string>,
    dismissed_late_date: Option<Day>)

  datatype ReportRow = ReportRow(
    id: string,
    cell_id: string,
    cell_name: string,
    date: Day,
    attendance: int,
    visitors: int,
    conversions: int,
    weekly_visits: int,
    first_time_visitors_count: int,
    first_time_visitors_list: seq<Visitor>,
    children_count: int,
    offering: int,
    kids_offering: int,
    summary: string,
    is_late: bool)

  datatype GoalRow = GoalRow(
    id: string,
    name: string,
    start_date: string,
    end_date: string,
    objective: string,
    cell_type: TypeChoice,
    cell_id: Option<string>,
    report: string,
    is_completed: bool)

  datatype EventRow = EventRow(
    id: string,
    title: string,
    description: string,
    date: Day,
    location: string,
    cell_type: TypeChoice)

  datatype NotificationRow = NotificationRow(
    id: string,
    title: string,
    message: string,
    kind: NotificationType,         // column `type`
    is_read: bool,
    created_at: string,
    visitor_phone: Option<string>,
    cell_id: Option<string>)

  datatype ShareRow = ShareRow(id: string, title: string, description: string, date: string, file_url: string)

  datatype BaptismRow = BaptismRow(id: string, name: string, whatsapp: string, date: string, cell_name: string)

  // ---------------------------------------------------------------- cells

  /** `handleAddCell`'s insert: every column but `dismissed_late_date`,
      which stays null. */
  function InsertCellRow(c: Cell, tempId: string): CellRow
  {
    CellRow(tempId, c.name, c.leader, c.host, c.trainee, c.secretary, c.team, c.address,
            c.cellType, c.day, c.time, c.region, c.phone, c.leaderPhoto, None)
  }

  /** `handleUpdateCell`'s update of the row with the cell's id: the same
      columns as the insert; `id` and `dismissed_late_date` are kept. */
  function UpdateCellRow(row: CellRow, c: Cell): CellRow
  {
    row.(name := c.name, leader := c.leader, host := c.host, trainee := c.trainee,
         secretary := c.secretary, team := c.team, address := c.address,
         cellType := c.cellType, day := c.day, time := c.time, region := c.region,
         phone := c.phone, leader_photo := c.leaderPhoto)
  }

  /** `handleDismissLateAlert`'s update: the one column. */
  function DismissCellRow(row: CellRow, date: Day): CellRow
  {
    row.(dismissed_late_date := Some(date))
  }

  /** The fetch mapping: the row's columns, `leader_photo` and
      `dismissed_late_date` renamed. */
  function FetchCell(row: CellRow): Cell
  {
    Cell(row.id, row.name, row.leader, row.host, row.trainee, row.secretary, row.team,
         row.address, row.cellType, row.day, row.time, row.region, row.phone,
         row.leader_photo, row.dismissed_late_date)
  }

  /** A cell added and read back is the cell added, except that a dismissal
      it carried is not stored: the round trip is exact exactly for cells
      without one. */
  lemma CellRoundTrip(c: Cell, tempId: string)
    ensures FetchCell(InsertCellRow(c, tempId)) == c.(id := tempId, dismissedLateDate := None)
    ensures FetchCell(InsertCellRow(c, tempId)) == c.(id := tempId) <==> c.dismissedLateDate.None?
  {
  }

  /** An update read back is the updated cell with the dismissal the row
      already held. */
  lemma CellUpdateRoundTrip(row: CellRow, c: Cell)
    requires row.id == c.id
    ensures FetchCell(UpdateCellRow(row, c)) == c.(dismissedLateDate := row.dismissed_late_date)
  {
  }

  /** The dismissal read back is the change made to the local list. */
  lemma CellDismissRoundTrip(row: CellRow, date: Day)
    ensures FetchCell(DismissCellRow(row, date)) == FetchCell(row).(dismissedLateDate := Some(date))
  {
  }

  // -------------------------------------------------------------- reports

  /** `handleAddReport`'s insert. */
  function InsertReportRow(r: Report, tempId: string): ReportRow
  {
    ReportRow(tempId, r.cellId, r.cellName, r.date, r.attendance, r.visitors, r.conversions,
              r.weeklyVisits, r.firstTimeVisitorsCount, r.firstTimeVisitorsList,
              r.childrenCount, r.offering, r.kidsOffering, r.summary, r.isLate)
  }

  /** `handleUpdateReport`'s update: every column but `id`, `cell_id` and
      `cell_name`. */
  function UpdateReportRow(row: ReportRow, r: Report): ReportRow
  {
    row.(date := r.date, attendance := r.attendance, visitors := r.visitors,
         conversions := r.conversions, weekly_visits := r.weeklyVisits,
         first_time_visitors_count := r.firstTimeVisitorsCount,
         first_time_visitors_list := r.firstTimeVisitorsList,
         children_count := r.childrenCount, offering := r.offering,
         kids_offering := r.kidsOffering, summary := r.summary, is_late := r.isLate)
  }

  /** The fetch mapping (`Number(...)` is the identity on stored numbers). */
  function FetchReport(row: ReportRow): Report
  {
    Report(row.id, row.cell_id, row.cell_name, row.date, row.attendance, row.visitors,
           row.conversions, row.weekly_visits, row.first_time_visitors_count,
           row.first_time_visitors_list, row.children_count, row.offering,
           row.kids_offering, row.summary, row.is_late)
  }

  /** A report inserted and fetched back is the report the application
      prepended to its list. */
  lemma ReportRoundTrip(r: Report, tempId: string)
    ensures FetchReport(InsertReportRow(r, tempId)) == r.(id := tempId)
  {
  }

  /** An update read back is the updated report, provided it belongs to the
      same cell under the same name (columns the update does not write). */
  lemma ReportUpdateRoundTrip(row: ReportRow, r: Report)
    requires row.id == r.id && row.cell_id == r.cellId && row.cell_name == r.cellName
    ensures FetchReport(UpdateReportRow(row, r)) == r
  {
  }

  // ---------------------------------------------------------------- goals

  function InsertGoalRow(g: Goal, tempId: string): GoalRow
  {
    GoalRow(tempId, g.name, g.startDate, g.endDate, g.objective, g.cellType, g.cellId,
            g.report, g.isCompleted)
  }

  function UpdateGoalRow(row: GoalRow, g: Goal): GoalRow
  {
    row.(name := g.name, start_date := g.startDate, end_date := g.endDate,
         objective := g.objective, cell_type := g.cellType, cell_id := g.cellId,
         report := g.report, is_completed := g.isCompleted)
  }

  function FetchGoal(row: GoalRow): Goal
  {
    Goal(row.id, row.name, row.start_date, row.end_date, row.objective, row.cell_type,
         row.cell_id, row.report, row.is_completed)
  }

  lemma GoalRoundTrip(g: Goal, tempId: string)
    ensures FetchGoal(InsertGoalRow(g, tempId)) == g.(id := tempId)
  {
  }

  lemma GoalUpdateRoundTrip(row: GoalRow, g: Goal)
    requires row.id == g.id
    ensures FetchGoal(UpdateGoalRow(row, g)) == g
  {
  }

  // --------------------------------------------------------------- events

  /** `handleAddEvent`'s insert leaves `id` out: the database chooses it. */
  function InsertEventRow(e: AppEvent, dbId: string): EventRow
  {
    EventRow(dbId, e.title, e.description, e.date, e.location, e.cellType)
  }

  function FetchEvent(row: EventRow): AppEvent
  {
    AppEvent(row.id, row.title, row.description, row.date, row.location, row.cell_type)
  }

  /** An event read back differs from the local copy in its id alone. */
  lemma EventRoundTrip(e: AppEvent, dbId: string)
    ensures FetchEvent(InsertEventRow(e, dbId)) == e.(id := dbId)
  {
  }

  // -------------------------------------------------------- notifications

  /** `addNotification`'s insert: always unread; `id` and `created_at` are
      the database's. */
  function InsertNotificationRow(title: string, message: string, kind: NotificationType,
                                 visitorPhone: Option<string>, cellId: Option<string>,
                                 dbId: string, createdAt: string): NotificationRow
  {
    NotificationRow(dbId, title, message, kind, false, createdAt, visitorPhone, cellId)
  }

  /** `markNotifRead`'s update. */
  function MarkReadRow(row: NotificationRow): NotificationRow
  {
    row.(is_read := true)
  }

  function FetchNotification(row: NotificationRow): AppNotification
  {
    AppNotification(row.id, row.title, row.message, row.created_at, row.is_read, row.kind,
                    row.visitor_phone, row.cell_id)
  }

  /** A notification read back is the unread one created locally, with the
      database's id and creation time. */
  lemma NotificationRoundTrip(n: AppNotification, dbId: string, createdAt: string)
    requires !n.isRead
    ensures FetchNotification(InsertNotificationRow(n.title, n.message, n.kind, n.visitorPhone,
                                                    n.cellId, dbId, createdAt))
         == n.(id := dbId, date := createdAt)
  {
  }

  lemma MarkReadRoundTrip(row: NotificationRow)
    ensures FetchNotification(MarkReadRow(row)) == FetchNotification(row).(isRead := true)
  {
  }

  // ---------------------------------------------------- shares, baptisms

  function InsertShareRow(s: Share, tempId: string): ShareRow
  {
    ShareRow(tempId, s.title, s.description, s.date, s.fileUrl)
  }

  function InsertBaptismRow(b: Baptism, tempId: string): BaptismRow
  {
    BaptismRow(tempId, b.name, b.whatsapp, b.date, b.cellName)
  }

  /** What a component reads from a stored object under the property names
      of `Share` and `Baptism`: a property the object does not have reads as
      `undefined` (None). */
  datatype LoadedShare = LoadedShare(id: string, title: string, description: string, date: string,
                                     fileUrl: Option<string>)
  datatype LoadedBaptism = LoadedBaptism(id: string, name: string, whatsapp: string, date: string,
                                         cellName: Option<string>)

  /** A share or baptism as the application would hold it. */
  function ShareLoaded(s: Share): LoadedShare
  {
    LoadedShare(s.id, s.title, s.description, s.date, Some(s.fileUrl))
  }

  function BaptismLoaded(b: Baptism): LoadedBaptism
  {
    LoadedBaptism(b.id, b.name, b.whatsapp, b.date, Some(b.cellName))
  }

  /** As written, `fetchData` stores the share rows themselves: the object
      has a `file_url` property and no `fileUrl`. */
  function LoadShareAsWritten(row: ShareRow): LoadedShare
  {
    LoadedShare(row.id, row.title, row.description, row.date, None)
  }

  /** Likewise the baptism rows: `cell_name`, and no `cellName`. */
  function LoadBaptismAsWritten(row: BaptismRow): LoadedBaptism
  {
    LoadedBaptism(row.id, row.name, row.whatsapp, row.date, None)
  }

  /** As written, no share survives the round trip: its link is lost. */
  lemma ShareLinkLostAsWritten(s: Share, tempId: string)
    ensures LoadShareAsWritten(InsertShareRow(s, tempId)) != ShareLoaded(s.(id := tempId))
    ensures LoadShareAsWritten(InsertShareRow(s, tempId)).fileUrl.None?
  {
  }

  /** As written, no baptism candidate keeps its cell through the round trip. */
  lemma BaptismCellLostAsWritten(b: Baptism, tempId: string)
    ensures LoadBaptismAsWritten(InsertBaptismRow(b, tempId)) != BaptismLoaded(b.(id := tempId))
    ensures LoadBaptismAsWritten(InsertBaptismRow(b, tempId)).cellName.None?
  {
  }

  /** The mapping the other tables get: `file_url` renamed to `fileUrl`. */
  function FetchShare(row: ShareRow): Share
  {
    Share(row.id, row.title, row.description, row.date, row.file_url)
  }

  /** `cell_name` renamed to `cellName`. */
  function FetchBaptism(row: BaptismRow): Baptism
  {
    Baptism(row.id, row.name, row.whatsapp, row.date, row.cell_name)
  }

  lemma ShareRoundTrip(s: Share, tempId: string)
    ensures FetchShare(InsertShareRow(s, tempId)) == s.(id := tempId)
    ensures ShareLoaded(FetchShare(InsertShareRow(s, tempId))) == ShareLoaded(s.(id := tempId))
  {
  }

  lemma BaptismRoundTrip(b: Baptism, tempId: string)
    ensures FetchBaptism(InsertBaptismRow(b, tempId)) == b.(id := tempId)
    ensures BaptismLoaded(FetchBaptism(InsertBaptismRow(b, tempId))) == BaptismLoaded(b.(id := tempId))
  {
  }
}
