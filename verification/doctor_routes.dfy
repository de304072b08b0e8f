/** The doctor router: every route runs `authenticate` and then
    `authorize("doctor")`; the patient routes are further gated on the
    caller's stored `assignedPatients`. */
module DoctorRoutes {
  import opened Common
  import opened Strings
  import opened Paging
  import opened Sorting
  import opened Listing
  import opened UserModel
  import opened FoodLogModel
  import opened Store
  import opened LogQuery
  import opened AuthMiddleware

  /** A patient as `populate("assignedPatients", "name email profilePicture
      lastLogin createdAt")` returns it. */
  datatype PatientCard = PatientCard(id: Id, name: string, email: string, profilePicture: Option<string>,
                                     lastLogin: Option<int>, createdAt: int)

  function Card(u: User): PatientCard
  {
    PatientCard(u.id, u.name, u.email, u.profilePicture, u.lastLogin, u.createdAt)
  }

  /** `populate` over a list of ids: each id that finds a stored user is
      replaced by that user's card, in list order; an id that finds none is
      dropped. */
  function Populate(users: seq<User>, ids: seq<Id>): (r: seq<PatientCard>)
    ensures |r| <= |ids|
    ensures (forall i :: 0 <= i < |ids| ==> FindUser(users, ids[i]).Some?) ==> |r| == |ids|
    ensures forall i :: 0 <= i < |r| ==> r[i].id in ids
    ensures forall i :: 0 <= i < |r| ==> exists k :: 0 <= k < |users| && r[i] == Card(users[k])
    decreases |ids|
  {
    if |ids| == 0 then []
    else
      var rest := Populate(users, ids[1..]);
      match FindUser(users, ids[0])
      case None => rest
      case Some(k) => [Card(users[k])] + rest
  }

  /** `GET /patients` for the caller's id. */
  function Patients(db: Db, callerId: Id): (r: Reply<seq<PatientCard>>)
    ensures r.Fail? <==> FindUser(db.users, callerId).None?
    ensures r.Fail? ==> r == Fail(404, "Doctor not found")
    ensures r.Ok? ==> r.status == 200
    ensures r.Ok? ==> forall i :: 0 <= i < |r.value| ==>
              r.value[i].id in db.users[FindUser(db.users, callerId).value].assignedPatients
  {
    match FindUser(db.users, callerId)
    case None => Fail(404, "Doctor not found")
    case Some(k) => Ok(200, Populate(db.users, db.users[k].assignedPatients))
  }

  /** With no dangling ids the list has one card per assigned id, in
      order: exactly the caller's `assignedPatients`. */
  lemma {:induction false} PopulateExact(users: seq<User>, ids: seq<Id>)
    requires forall i :: 0 <= i < |ids| ==> FindUser(users, ids[i]).Some?
    ensures |Populate(users, ids)| == |ids|
    ensures forall i :: 0 <= i < |ids| ==> Populate(users, ids)[i].id == ids[i]
    decreases |ids|
  {
    if |ids| > 0 {
      PopulateExact(users, ids[1..]);
    }
  }

  /** The `patient` object: `findById(patientId).select("name email")`,
      `None` for `null`. */
  datatype Contact = Contact(id: Id, name: string, email: string)

  function ContactOf(users: seq<User>, id: Id): (r: Option<Contact>)
    ensures r.Some? <==> FindUser(users, id).Some?
    ensures r.Some? ==> r.value.id == id
  {
    match FindUser(users, id)
    case None => None
    case Some(k) => Some(Contact(users[k].id, users[k].name, users[k].email))
  }

  /** The assignment gate of the patient routes: the caller's stored
      document must list the patient id. The list is turned into strings and
      searched for the path text as it is, without a cast. A caller that has
      vanished from the store makes the handler throw (500). */
  function Gate(db: Db, callerId: Id, patientId: Id): (r: Option<Refusal>)
    ensures r == None <==> FindUser(db.users, callerId).Some?
                           && patientId in db.users[FindUser(db.users, callerId).value].assignedPatients
    ensures r.Some? && FindUser(db.users, callerId).Some? ==>
              r.value == Refusal(403, "This patient is not assigned to you")
    ensures r.Some? && FindUser(db.users, callerId).None? ==> r.value == Refusal(500, "Server error")
  {
    match FindUser(db.users, callerId)
    case None => Some(Refusal(500, "Server error"))
    case Some(k) =>
      if patientId in db.users[k].assignedPatients then None
      else Some(Refusal(403, "This patient is not assigned to you"))
  }

  /** Stored ids print in lower case, so the gate refuses an assigned
      patient's id spelled with upper-case hexadecimal digits. */
  lemma GateComparesText(db: Db, callerId: Id, patientId: Id)
    requires FindUser(db.users, callerId).Some?
    requires var list := db.users[FindUser(db.users, callerId).value].assignedPatients;
             forall i :: 0 <= i < |list| ==> IsCanonicalId(list[i])
    requires !IsCanonicalId(patientId)
    ensures Gate(db, callerId, patientId) == Some(Refusal(403, "This patient is not assigned to you"))
  {
  }

  /** The error reply of a refused request. */
  datatype Refusal = Refusal(status: int, error: string)

  /** The query parameters of `GET /patients/:id/logs`. */
  datatype LogsQuery = LogsQuery(page: Option<int>, limit: Option<int>, from: string, to: string)

  const DefaultPage: int := 1
  const DefaultLogsLimit: int := 50

  function PatientFilter(patientId: Id, w: Window): FoodLog -> bool
  {
    (l: FoodLog) => l.user == patientId && InWindow(l, w)
  }

  datatype PatientLogsView = PatientLogsView(patient: Option<Contact>, logs: Page<FoodLog>)

  /** `GET /patients/:id/logs`. Past the gate, the log filter and the
      patient lookup cast the path id. */
  function PatientLogs(db: Db, callerId: Id, patientId: Id, q: LogsQuery, parseDate: DateParser)
    : (r: Reply<PatientLogsView>)
    ensures Gate(db, callerId, patientId).Some? ==>
              r == Fail(Gate(db, callerId, patientId).value.status, Gate(db, callerId, patientId).value.error)
    ensures r.Ok? <==>
              && Gate(db, callerId, patientId).None?
              && IsObjectId(patientId)
              && ParseWindow(q.from, q.to, parseDate).Some?
              && Skip(q.page.UnwrapOr(DefaultPage), q.limit.UnwrapOr(DefaultLogsLimit)) >= 0
    ensures r.Fail? && Gate(db, callerId, patientId).None? ==> r == Fail(500, "Server error")
    ensures r.Ok? ==>
              var pid := CastId(patientId).value;
              var w := ParseWindow(q.from, q.to, parseDate).value;
              var items := r.value.logs.items;
              && r.status == 200
              && r.value.patient == ContactOf(db.users, pid)
              && SortedDesc(items, LoggedAt)
              && (forall i :: 0 <= i < |items| ==>
                    items[i] in db.logs && items[i].user == pid && InWindow(items[i], w))
              && r.value.logs.total == |Filter(db.logs, PatientFilter(pid, w))|
              && r.value.logs.page == q.page.UnwrapOr(DefaultPage)
              && r.value.logs.limit == q.limit.UnwrapOr(DefaultLogsLimit)
              && ListedPage(r.value.logs, SortDesc(Filter(db.logs, PatientFilter(pid, w)), LoggedAt))
  {
    match Gate(db, callerId, patientId)
    case Some(f) => Fail(f.status, f.error)
    case None =>
      var page := q.page.UnwrapOr(DefaultPage);
      var limit := q.limit.UnwrapOr(DefaultLogsLimit);
      match CastId(patientId)
      case None => Fail(500, "Server error")
      case Some(pid) =>
        match ParseWindow(q.from, q.to, parseDate)
        case None => Fail(500, "Server error")
        case Some(w) =>
          var p := PatientFilter(pid, w);
          match Listed(db.logs, p, LoggedAt, page, limit)
          case None => Fail(500, "Server error")
          case Some(pg) =>
            ListingSound(db.logs, p, LoggedAt, page, limit);
            Ok(200, PatientLogsView(ContactOf(db.users, pid), pg))
  }

  /** Every log of an assigned patient inside the window shows up on some
      page of the doctor's view, for any positive limit. */
  lemma PatientLogListed(db: Db, callerId: Id, patientId: Id, from: string, to: string, limit: int,
                         parseDate: DateParser, l: FoodLog) returns (page: int)
    requires Gate(db, callerId, patientId).None? && IsObjectId(patientId) && limit > 0
    requires l in db.logs && l.user == CastId(patientId).value
    requires ParseWindow(from, to, parseDate).Some? && InWindow(l, ParseWindow(from, to, parseDate).value)
    ensures var r := PatientLogs(db, callerId, patientId, LogsQuery(Some(page), Some(limit), from, to), parseDate);
            && r.Ok? && l in r.value.logs.items
            && r.value.logs.pages.Some? && page <= r.value.logs.pages.value
  {
    var w := ParseWindow(from, to, parseDate).value;
    page := ListingComplete(db.logs, PatientFilter(CastId(patientId).value, w), LoggedAt, limit, l);
    assert Skip(page, limit) >= 0 by {
      MulMonotone(0, page - 1, limit);
    }
  }

  /** The `summary` object: the meal count, the per-meal averages and the
      calorie total of a `$group` stage. */
  datatype Figures = Figures(totalMeals: nat, avgCalories: real, avgProtein: real, avgCarbs: real,
                             avgFat: real, totalCalories: real)

  /** The default when the aggregation matches nothing. */
  const NoFigures := Figures(0, 0.0, 0.0, 0.0, 0.0, 0.0)

  /** The figures of a non-empty group (`$avg`, `$sum`) in exact arithmetic,
      or the all-zero default for an empty one. */
  function FiguresOf(t: Totals): (f: Figures)
    ensures f.totalMeals == t.meals
    ensures t.meals == 0 ==> f == NoFigures
    ensures t.meals > 0 ==>
              && f.totalCalories == t.calories
              && f.avgCalories * (t.meals as real) == t.calories
              && f.avgProtein * (t.meals as real) == t.protein
              && f.avgCarbs * (t.meals as real) == t.carbs
              && f.avgFat * (t.meals as real) == t.fat
  {
    if t.meals == 0 then NoFigures
    else
      var n := t.meals as real;
      Figures(t.meals, t.calories / n, t.protein / n, t.carbs / n, t.fat / n, t.calories)
  }

  /** Seven days in milliseconds. */
  const WeekMs: int := 7 * 24 * 60 * 60 * 1000

  function RecentFilter(patientId: Id, nowMs: int): FoodLog -> bool
  {
    (l: FoodLog) => l.user == patientId && l.loggedAt >= nowMs - WeekMs
  }

  datatype SummaryView = SummaryView(patient: Option<Contact>, period: string, summary: Figures)

  /** `GET /patients/:id/summary`. Building the ObjectId of the match stage
      throws for an id that is not one (500); otherwise the stage and the
      patient lookup use the cast id. */
  function PatientSummary(db: Db, callerId: Id, patientId: Id, nowMs: int): (r: Reply<SummaryView>)
    ensures Gate(db, callerId, patientId).Some? ==>
              r == Fail(Gate(db, callerId, patientId).value.status, Gate(db, callerId, patientId).value.error)
    ensures r.Ok? <==> Gate(db, callerId, patientId).None? && IsObjectId(patientId)
    ensures r.Fail? && Gate(db, callerId, patientId).None? ==> r == Fail(500, "Server error")
    ensures r.Ok? ==>
              var pid := CastId(patientId).value;
              && r.status == 200
              && r.value.period == "7 days"
              && r.value.patient == ContactOf(db.users, pid)
              && r.value.summary.totalMeals == |Filter(db.logs, RecentFilter(pid, nowMs))|
              && ((forall j :: 0 <= j < |db.logs| ==> !RecentFilter(pid, nowMs)(db.logs[j])) ==>
                    r.value.summary == NoFigures)
  {
    match Gate(db, callerId, patientId)
    case Some(f) => Fail(f.status, f.error)
    case None =>
      match CastId(patientId)
      case None => Fail(500, "Server error")
      case Some(pid) =>
        var matched := Filter(db.logs, RecentFilter(pid, nowMs));
        Ok(200, SummaryView(ContactOf(db.users, pid), "7 days", FiguresOf(Sum(matched))))
  }

  /** A log of the patient from the last seven days adds one meal and its
      calories to the doctor's summary. */
  lemma RecentLogCounted(db: Db, callerId: Id, patientId: Id, nowMs: int, l: FoodLog)
    requires PatientSummary(db, callerId, patientId, nowMs).Ok?
    requires l.user == CastId(patientId).value && l.loggedAt >= nowMs - WeekMs
    ensures var before := PatientSummary(db, callerId, patientId, nowMs);
            var after := PatientSummary(db.(logs := db.logs + [l]), callerId, patientId, nowMs);
            && after.Ok?
            && after.value.summary.totalMeals == before.value.summary.totalMeals + 1
            && after.value.summary.totalCalories == before.value.summary.totalCalories + l.calories
  {
    var p := RecentFilter(CastId(patientId).value, nowMs);
    FilterAppend(db.logs, [l], p);
    assert Filter([l], p) == [l];
    SumAppend(Filter(db.logs, p), [l]);
    assert Sum([l]) == Plus(NoMeals, One(l));
  }

  /** A request to the doctor router. */
  datatype Request =
    | ListPatients
    | Logs(patientId: Id, q: LogsQuery)
    | Summary(patientId: Id)

  datatype Response =
    | PatientList(patients: seq<PatientCard>)
    | PatientLogsReply(logsView: PatientLogsView)
    | SummaryReply(summaryView: SummaryView)

  /** The doctor router: `authenticate`, `authorize("doctor")`, then the
      handler for the stored caller. No route writes to the store. */
  function Handle(db: Db, c: Credentials, req: Request, parseDate: DateParser): (r: Reply<Response>)
    ensures Guard(db.users, c, Some([Doctor])).Deny? ==>
              r == Fail(Guard(db.users, c, Some([Doctor])).status, Guard(db.users, c, Some([Doctor])).error)
    ensures r.Ok? ==> Authenticate(db.users, c).Pass? && Authenticate(db.users, c).user.role == Doctor
  {
    match Guard(db.users, c, Some([Doctor]))
    case Deny(s, e) => Fail(s, e)
    case Pass(u) =>
      match req
      case ListPatients =>
        (match Patients(db, u.id)
         case Ok(s, v) => Ok(s, PatientList(v))
         case Fail(s, e) => Fail(s, e))
      case Logs(pid, q) =>
        var r := PatientLogs(db, u.id, pid, q, parseDate);
        if r.Ok? then Ok(r.status, PatientLogsReply(r.value)) else Fail(r.status, r.error)
      case Summary(pid) =>
        var r := PatientSummary(db, u.id, pid, c.nowMs);
        if r.Ok? then Ok(r.status, SummaryReply(r.value)) else Fail(r.status, r.error)
  }

  /** An authenticated admin is refused by every doctor route, although
      the admin interface offers the doctor dashboard. */
  lemma AdminRefused(db: Db, c: Credentials, req: Request, parseDate: DateParser)
    requires Authenticate(db.users, c).Pass? && Authenticate(db.users, c).user.role == Admin
    ensures Handle(db, c, req, parseDate) == Fail(403, "Access denied. Required role(s): doctor")
  {
    assert Authenticate(db.users, c).user.role !in [Doctor];
    assert RoleNames([Doctor]) == ["doctor"];
  }

  /** A doctor asking about a patient who is not on their stored list gets
      403 and no data from either patient route. */
  lemma UnassignedRefused(db: Db, callerId: Id, patientId: Id, q: LogsQuery, parseDate: DateParser, nowMs: int)
    requires FindUser(db.users, callerId).Some?
    requires patientId !in db.users[FindUser(db.users, callerId).value].assignedPatients
    ensures PatientLogs(db, callerId, patientId, q, parseDate) == Fail(403, "This patient is not assigned to you")
    ensures PatientSummary(db, callerId, patientId, nowMs) == Fail(403, "This patient is not assigned to you")
  {
  }
}
