/** The food-log router: every route runs `authenticate` and works on the
    caller's own logs. */
module FoodRoutes {
  import opened Common
  import opened Paging
  import opened Sorting
  import opened UserModel
  import opened FoodLogModel
  import opened Store
  import opened LogQuery
  import opened AuthMiddleware
  import opened Listing

  /** The query parameters of `GET /logs`; an absent string parameter is "". */
  datatype LogsQuery = LogsQuery(page: Option<int>, limit: Option<int>, from: string, to: string, mealType: string)

  const DefaultPage: int := 1
  const DefaultLogsLimit: int := 50

  /** The filter of `GET /logs`: the caller's logs in the window, of the
      requested meal type when one is given. The meal type is compared as
      a string, so a value outside the enum matches nothing. */
  function ListFilter(owner: Id, w: Window, mealType: string): FoodLog -> bool
  {
    (l: FoodLog) => l.user == owner && InWindow(l, w) && (mealType == "" || MealTypeName(l.mealType) == mealType)
  }

  /** `GET /logs`: the caller's matching logs newest first, one page. */
  function ListLogs(db: Db, caller: User, q: LogsQuery, parseDate: DateParser): (r: Reply<Page<FoodLog>>)
    ensures r.Fail? ==> r == Fail(500, "Server error")
    ensures r.Ok? <==>
              ParseWindow(q.from, q.to, parseDate).Some?
              && Skip(q.page.UnwrapOr(DefaultPage), q.limit.UnwrapOr(DefaultLogsLimit)) >= 0
    ensures r.Ok? ==>
              var w := ParseWindow(q.from, q.to, parseDate).value;
              && r.status == 200
              && SortedDesc(r.value.items, LoggedAt)
              && (forall i :: 0 <= i < |r.value.items| ==>
                    var l := r.value.items[i];
                    && l in db.logs && l.user == caller.id && InWindow(l, w)
                    && (q.mealType == "" || MealTypeName(l.mealType) == q.mealType))
              && r.value.total == |Filter(db.logs, ListFilter(caller.id, w, q.mealType))|
              && r.value.page == q.page.UnwrapOr(DefaultPage) && r.value.limit == q.limit.UnwrapOr(DefaultLogsLimit)
              && ListedPage(r.value, SortDesc(Filter(db.logs, ListFilter(caller.id, w, q.mealType)), LoggedAt))
  {
    var page := q.page.UnwrapOr(DefaultPage);
    var limit := q.limit.UnwrapOr(DefaultLogsLimit);
    match ParseWindow(q.from, q.to, parseDate)
    case None => Fail(500, "Server error")
    case Some(w) =>
      var p := ListFilter(caller.id, w, q.mealType);
      match Listed(db.logs, p, LoggedAt, page, limit)
      case None => Fail(500, "Server error")
      case Some(pg) =>
        ListingSound(db.logs, p, LoggedAt, page, limit);
        Ok(200, pg)
  }

  /** Every log of the caller inside the window shows up on some page of an
      unfiltered-by-meal listing with a positive limit. */
  lemma OwnLogsListed(db: Db, caller: User, from: string, to: string, limit: int,
                      parseDate: DateParser, l: FoodLog) returns (page: int)
    requires limit > 0 && l in db.logs && l.user == caller.id
    requires ParseWindow(from, to, parseDate).Some? && InWindow(l, ParseWindow(from, to, parseDate).value)
    ensures var r := ListLogs(db, caller, LogsQuery(Some(page), Some(limit), from, to, ""), parseDate);
            && r.Ok? && l in r.value.items && r.value.pages.Some? && page <= r.value.pages.value
  {
    var w := ParseWindow(from, to, parseDate).value;
    page := ListingComplete(db.logs, ListFilter(caller.id, w, ""), LoggedAt, limit, l);
    assert Skip(page, limit) >= 0 by {
      MulMonotone(0, page - 1, limit);
    }
  }

  /** `Number(x) || 0` for a body field: `None` stands for a value that
      converts to NaN (absent, non-numeric). NaN and zero are both falsy. */
  function NumberOrZero(n: Option<real>): real
  {
    if n.Some? then n.value else 0.0
  }

  /** The body of `POST /log`; an absent string field is "". */
  datatype LogBody = LogBody(food: string, calories: Option<real>, protein: Option<real>,
                             carbs: Option<real>, fat: Option<real>, mealType: string)

  /** `mealType || "snack"` */
  function MealChoice(mealType: string): (r: string)
    ensures r != ""
    ensures mealType != "" ==> r == mealType
    ensures mealType == "" ==> r == MealTypeName(Snack)
  {
    if mealType == "" then "snack" else mealType
  }

  /** `POST /log`. `newId` is the ObjectId of the new document and `nowMs`
      the instant the defaults `loggedAt` and `createdAt` take. */
  function CreateLog(db: Db, caller: User, body: LogBody, newId: Id, nowMs: int): (o: Outcome<FoodLog>)
    ensures body.food == "" ==> o == Outcome(Fail(400, "Food name is required"), db)
    ensures o.reply.Fail? ==> o.db == db
    ensures o.reply.Ok? <==> body.food != "" && ParseMealType(MealChoice(body.mealType)).Some?
    ensures body.food != "" && body.mealType == "" ==> o.reply.Ok? && o.reply.value.mealType == Snack
    ensures body.food != "" && ParseMealType(MealChoice(body.mealType)).None? ==>
              o == Outcome(Fail(500, "Server error"), db)
    ensures o.reply.Ok? ==>
              var l := o.reply.value;
              && o.reply.status == 201
              && o.db == db.(logs := db.logs + [l])
              && l.id == newId && l.user == caller.id && l.food == body.food && l.source == Manual
              && l.calories == NumberOrZero(body.calories) && l.protein == NumberOrZero(body.protein)
              && l.carbs == NumberOrZero(body.carbs) && l.fat == NumberOrZero(body.fat)
              && l.confidence.None? && l.details.None? && l.imageFilename.None?
              && l.loggedAt == nowMs
              && l.mealType == ParseMealType(MealChoice(body.mealType)).value
  {
    if body.food == "" then Outcome(Fail(400, "Food name is required"), db)
    else
      var m := Macros(NumberOrZero(body.calories), NumberOrZero(body.protein),
                      NumberOrZero(body.carbs), NumberOrZero(body.fat));
      match FoodLogModel.CreateDocument(newId, caller.id, body.food, m, MealChoice(body.mealType), Manual, nowMs)
      case None => Outcome(Fail(500, "Server error"), db)
      case Some(l) => Outcome(Ok(201, l), db.(logs := db.logs + [l]))
  }

  /** `findOneAndDelete({ _id: id, user })`: the first log with that id
      owned by `owner`. */
  function FindOwnedLog(logs: seq<FoodLog>, id: Id, owner: Id): (r: Option<nat>)
    ensures r.Some? ==> r.value < |logs| && logs[r.value].id == id && logs[r.value].user == owner
    ensures r.Some? ==> forall j :: 0 <= j < r.value ==> !(logs[j].id == id && logs[j].user == owner)
    ensures r.None? <==> forall j :: 0 <= j < |logs| ==> !(logs[j].id == id && logs[j].user == owner)
  {
    FirstWhere(logs, (l: FoodLog) => l.id == id && l.user == owner)
  }

  /** `DELETE /logs/:id`. An id that is not an ObjectId fails the cast
      (500); otherwise the first log whose id is the cast id and which
      belongs to the caller is removed, and no other. */
  function DeleteLog(db: Db, caller: User, id: Id): (o: Outcome<string>)
    ensures o.reply.Fail? ==> o.db == db
    ensures !IsObjectId(id) ==> o.reply == Fail(500, "Server error")
    ensures o.reply.Ok? <==>
              && IsObjectId(id)
              && exists j :: 0 <= j < |db.logs| && db.logs[j].id == CastId(id).value && db.logs[j].user == caller.id
    ensures IsObjectId(id) && o.reply.Fail? ==> o.reply == Fail(404, "Log not found")
    ensures o.reply.Ok? ==>
              var k := FindOwnedLog(db.logs, CastId(id).value, caller.id).value;
              && o.reply == Ok(200, "Log deleted")
              && o.db == db.(logs := RemoveAt(db.logs, k))
              && db.logs[k].id == CastId(id).value && db.logs[k].user == caller.id
              && forall j :: 0 <= j < k ==> !(db.logs[j].id == CastId(id).value && db.logs[j].user == caller.id)
  {
    match CastId(id)
    case None => Outcome(Fail(500, "Server error"), db)
    case Some(lid) =>
      match FindOwnedLog(db.logs, lid, caller.id)
      case None => Outcome(Fail(404, "Log not found"), db)
      case Some(k) => Outcome(Ok(200, "Log deleted"), db.(logs := RemoveAt(db.logs, k)))
  }

  /** Another user's log cannot be deleted: with unique log ids the request
      answers 404 and the log stays. */
  lemma OthersLogUntouched(db: Db, caller: User, k: nat)
    requires k < |db.logs| && db.logs[k].user != caller.id && IsCanonicalId(db.logs[k].id)
    requires forall i, j :: 0 <= i < j < |db.logs| ==> db.logs[i].id != db.logs[j].id
    ensures DeleteLog(db, caller, db.logs[k].id) == Outcome(Fail(404, "Log not found"), db)
  {
    var id := db.logs[k].id;
    CastCanonical(id);
    forall j | 0 <= j < |db.logs|
      ensures !(db.logs[j].id == id && db.logs[j].user == caller.id)
    {
      if j != k {
        if j < k { assert db.logs[j].id != db.logs[k].id; }
        else { assert db.logs[k].id != db.logs[j].id; }
      }
    }
  }

  /** The filter of the "today" figures: the owner's logs from the start of
      the local day on. */
  function TodayFilter(owner: Id, todayStartMs: int): FoodLog -> bool
  {
    (l: FoodLog) => l.user == owner && l.loggedAt >= todayStartMs
  }

  /** The `today` object of `GET /summary`: the group of the caller's logs
      since the start of the day, or all zeros when there are none. */
  function TodaySummary(db: Db, caller: User, todayStartMs: int): (t: Totals)
    ensures t.meals == |Filter(db.logs, TodayFilter(caller.id, todayStartMs))|
    ensures (forall j :: 0 <= j < |db.logs| ==> !TodayFilter(caller.id, todayStartMs)(db.logs[j])) ==>
              t == NoMeals
  {
    var matched := Filter(db.logs, TodayFilter(caller.id, todayStartMs));
    if |matched| == 0 then NoMeals
    else
      Sum(matched)
  }

  /** A meal logged now, after the start of the day, adds exactly its own
      macros and one meal to the caller's "today" figures. */
  lemma CreateAddsToToday(db: Db, caller: User, body: LogBody, newId: Id, nowMs: int, todayStartMs: int)
    requires todayStartMs <= nowMs
    requires CreateLog(db, caller, body, newId, nowMs).reply.Ok?
    ensures var o := CreateLog(db, caller, body, newId, nowMs);
            TodaySummary(o.db, caller, todayStartMs)
              == Plus(TodaySummary(db, caller, todayStartMs), One(o.reply.value))
  {
    var o := CreateLog(db, caller, body, newId, nowMs);
    var l := o.reply.value;
    var p := TodayFilter(caller.id, todayStartMs);
    FilterAppend(db.logs, [l], p);
    assert Filter([l], p) == [l];
    SumAppend(Filter(db.logs, p), [l]);
    assert Sum([l]) == Plus(NoMeals, One(l));
  }

  /** A request to the food router. */
  datatype Request =
    | List(q: LogsQuery)
    | Create(body: LogBody)
    | Delete(id: Id)
    | Summary

  /** A successful reply of the food router. */
  datatype Response =
    | Logs(page: Page<FoodLog>)
    | Created(log: FoodLog)
    | Message(text: string)
    | Today(totals: Totals)

  /** What a request brings besides its parameters: the date parser of
      `new Date(...)`, the id the driver gives a new log, the clock and the
      start of the server's local day. */
  datatype Env = Env(parseDate: DateParser, newId: Id, nowMs: int, todayStartMs: int)

  /** The food router: `authenticate`, then the handler for the stored
      user. */
  function Handle(db: Db, c: Credentials, req: Request, env: Env): (o: Outcome<Response>)
    ensures Authenticate(db.users, c).Deny? ==>
              o == Outcome(Fail(401, Authenticate(db.users, c).error), db)
    ensures o.reply.Ok? ==> Authenticate(db.users, c).Pass?
    ensures o.db != db ==> Authenticate(db.users, c).Pass? && (req.Create? || req.Delete?)
  {
    match Guard(db.users, c, None)
    case Deny(s, e) => Outcome(Fail(s, e), db)
    case Pass(u) =>
      match req
      case List(q) =>
        var r := ListLogs(db, u, q, env.parseDate);
        Outcome(if r.Ok? then Ok(r.status, Logs(r.value)) else Fail(r.status, r.error), db)
      case Create(body) =>
        var o := CreateLog(db, u, body, env.newId, env.nowMs);
        Outcome(if o.reply.Ok? then Ok(o.reply.status, Created(o.reply.value))
                else Fail(o.reply.status, o.reply.error), o.db)
      case Delete(id) =>
        var o := DeleteLog(db, u, id);
        Outcome(if o.reply.Ok? then Ok(o.reply.status, Message(o.reply.value))
                else Fail(o.reply.status, o.reply.error), o.db)
      case Summary => Outcome(Ok(200, Today(TodaySummary(db, u, env.todayStartMs))), db)
  }
}
