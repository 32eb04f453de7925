/** The records of the cell-management application (one datatype per
    interface in types.ts), with the conventions the model uses for the
    values JavaScript keeps as strings, floats and Date objects:

    - a calendar date ('YYYY-MM-DD') is a Day: the number of days since
      1970-01-01 in local time;
    - "now" and every other point in time is an Instant: milliseconds
      since 1970-01-01T00:00 local time;
    - money (offering, kidsOffering) is an integer number of cents;
    - an optional field is an Option, except firstTimeVisitorsList, where
      a missing list is the empty list (every use treats the two alike). */
module Types {
  import opened Seqs

  type Day = int
  type Instant = int

  const MsPerMinute: int := 60000
  const MsPerHour: int := 3600000
  const MsPerDay: int := 86400000

  datatype CellType = Adulto | Jovem | Juvenil | Kids

  /** A cell type, or 'Todas' (every type): the type filter of both
      dashboards and the `cellType` of goals and events. */
  datatype TypeChoice = Todas | OfType(cellType: CellType)

  datatype Visitor = Visitor(
    name: string,
    phone: string,
    address: string,
    isBaptized: bool,
    hasAttendedEncounter: bool)

  datatype Cell = Cell(
    id: string,
    name: string,
    leader: string,
    host: string,
    trainee: string,
    secretary: string,
    team: seq<string>,
    address: string,
    cellType: CellType,
    day: string,                    // weekday name, e.g. "Quinta-Feira"
    time: string,                   // meeting time, e.g. "20:00"
    region: string,
    phone: string,
    leaderPhoto: Option<string>,
    dismissedLateDate: Option<Day>) // the missed meeting whose alert was dismissed

  datatype Report = Report(
    id: string,
    cellId: string,
    cellName: string,
    date: Day,
    attendance: int,
    visitors: int,
    conversions: int,
    weeklyVisits: int,
    firstTimeVisitorsCount: int,
    firstTimeVisitorsList: seq<Visitor>,
    childrenCount: int,
    offering: int,                  // cents
    kidsOffering: int,              // cents
    summary: string,
    isLate: bool)

  datatype Baptism = Baptism(id: string, name: string, whatsapp: string, date: string, cellName: string)

  datatype Share = Share(id: string, title: string, description: string, date: string, fileUrl: string)

  datatype AppEvent = AppEvent(
    id: string,
    title: string,
    description: string,
    date: Day,
    location: string,
    cellType: TypeChoice)

  datatype Goal = Goal(
    id: string,
    name: string,
    startDate: string,
    endDate: string,
    objective: string,
    cellType: TypeChoice,
    cellId: Option<string>,
    report: string,
    isCompleted: bool)

  datatype NotificationType = VisitorNotice | LateNotice | EventNotice | InfoNotice | AdminNotice

  datatype AppNotification = AppNotification(
    id: string,
    title: string,
    message: string,
    date: string,
    isRead: bool,
    kind: NotificationType,
    visitorPhone: Option<string>,
    cellId: Option<string>)

  /** UserRole: 'leader' | 'admin' | null. */
  datatype Role = Leader | Admin | NoRole

  /** `cells.find(c => c.id === id)`: the first cell with that id. */
  function FindCell(cells: seq<Cell>, id: string): (r: Option<Cell>)
    ensures r.Some? ==> r.value in cells && r.value.id == id
    ensures r.Some? ==> exists i :: 0 <= i < |cells| && cells[i] == r.value
                                    && forall j :: 0 <= j < i ==> cells[j].id != id
    ensures r.None? <==> forall i :: 0 <= i < |cells| ==> cells[i].id != id
  {
    Find(cells, (c: Cell) => c.id == id)
  }

  /** Sort keys: JavaScript compares `new Date(x.date).getTime()`, which
      orders dates as their day numbers do. */
  function ReportDateDesc(r: Report): int { -r.date }
  function EventDateAsc(e: AppEvent): int { e.date }
}
