/** The admin router: every route runs `authenticate` and then
    `authorize("admin")`. */
module AdminRoutes {
  import opened Common
  import opened Strings
  import opened Paging
  import opened Sorting
  import opened Listing
  import opened UserModel
  import opened FoodLogModel
  import opened Store
  import opened Tokens
  import opened AuthMiddleware

  /** The query parameters of `GET /users`; an absent string is "". */
  datatype UserQuery = UserQuery(page: Option<int>, limit: Option<int>, role: string, search: string)

  const DefaultPage: int := 1
  const DefaultUsersLimit: int := 20

  /** A case-insensitive `$regex` test of a pattern against a field value;
      the regular-expression engine is not part of this model. */
  type RegexMatch = (string, string) -> bool

  /** The filter of `GET /users`: the role, when given, compared as a
      string, and the search pattern, when given, against name or email. */
  function UserFilter(role: string, search: string, matches: RegexMatch): User -> bool
  {
    (u: User) => (role == "" || RoleName(u.role) == role)
                 && (search == "" || matches(search, u.name) || matches(search, u.email))
  }

  /** The sort key of `sort({ createdAt: -1 })`. */
  function CreatedAt(u: User): int
  {
    u.createdAt
  }

  /** `select("-password")` over a page of users: each document keeps
      every field except the password. */
  function Project(us: seq<User>): (r: seq<User>)
    ensures |r| == |us|
    ensures forall i :: 0 <= i < |r| ==> r[i].password.None? && r[i].(password := us[i].password) == us[i]
  {
    seq(|us|, i requires 0 <= i < |us| => WithoutPassword(us[i]))
  }

  /** `GET /users`: the matching users newest first, one page of them,
      without passwords. */
  function ListUsers(db: Db, q: UserQuery, matches: RegexMatch): (r: Reply<Page<User>>)
    ensures r.Fail? ==> r == Fail(500, "Server error")
    ensures r.Ok? <==> Skip(q.page.UnwrapOr(DefaultPage), q.limit.UnwrapOr(DefaultUsersLimit)) >= 0
    ensures r.Ok? ==>
              var page := q.page.UnwrapOr(DefaultPage);
              var limit := q.limit.UnwrapOr(DefaultUsersLimit);
              var sorted := SortDesc(Filter(db.users, UserFilter(q.role, q.search, matches)), CreatedAt);
              var items := r.value.items;
              && r.status == 200
              && SortedDesc(items, CreatedAt)
              && (limit > 0 ==> |items| <= limit)
              && (forall i :: 0 <= i < |items| ==>
                    && items[i].password.None?
                    && items[i].(password := None) in Project(db.users)
                    && UserFilter(q.role, q.search, matches)(items[i]))
              && r.value.total == |sorted|
              && r.value.page == page && r.value.limit == limit
              && r.value.pages == (if limit == 0 then None else Some(CeilDiv(r.value.total, limit)))
              && (Skip(page, limit) + |items| <= |sorted| || items == [])
              && (forall i :: 0 <= i < |items| ==> items[i] == WithoutPassword(sorted[Skip(page, limit) + i]))
  {
    var page := q.page.UnwrapOr(DefaultPage);
    var limit := q.limit.UnwrapOr(DefaultUsersLimit);
    var p := UserFilter(q.role, q.search, matches);
    match Listed(db.users, p, CreatedAt, page, limit)
    case None => Fail(500, "Server error")
    case Some(pg) =>
      ListingSound(db.users, p, CreatedAt, page, limit);
      ProjectKeeps(db.users, pg.items);
      Ok(200, pg.(items := Project(pg.items)))
  }

  lemma ProjectKeeps(us: seq<User>, vs: seq<User>)
    requires forall i :: 0 <= i < |vs| ==> vs[i] in us
    ensures forall i :: 0 <= i < |vs| ==> WithoutPassword(vs[i]) in Project(us)
  {
    forall i | 0 <= i < |vs|
      ensures WithoutPassword(vs[i]) in Project(us)
    {
      var k :| 0 <= k < |us| && us[k] == vs[i];
      assert Project(us)[k] == WithoutPassword(vs[i]);
    }
  }

  /** Every stored user that matches the filters appears, without its
      password, on some page within the advertised page count. */
  lemma UserListed(db: Db, role: string, search: string, matches: RegexMatch, limit: int, u: User)
    returns (page: int)
    requires limit > 0 && u in db.users && UserFilter(role, search, matches)(u)
    ensures var r := ListUsers(db, UserQuery(Some(page), Some(limit), role, search), matches);
            && 1 <= page && r.Ok? && WithoutPassword(u) in r.value.items
            && r.value.pages.Some? && page <= r.value.pages.value
  {
    var p := UserFilter(role, search, matches);
    page := ListingComplete(db.users, p, CreatedAt, limit, u);
    var pg := Listed(db.users, p, CreatedAt, page, limit).value;
    var i :| 0 <= i < |pg.items| && pg.items[i] == u;
    var r := ListUsers(db, UserQuery(Some(page), Some(limit), role, search), matches);
    assert r.value.items == Project(pg.items);
    assert r.value.items[i] == WithoutPassword(u);
  }

  /** `PATCH /users/:id/role`. The role is checked before the id is cast;
      the cast reads the id's hexadecimal digits in either case. */
  function ChangeRole(db: Db, id: Id, role: string): (o: Outcome<User>)
    ensures ParseRole(role).None? ==> o == Outcome(Fail(400, "Invalid role"), db)
    ensures o.reply.Fail? ==> o.db == db
    ensures ParseRole(role).Some? && !IsObjectId(id) ==> o.reply == Fail(500, "Server error")
    ensures o.reply.Ok? <==> ParseRole(role).Some? && IsObjectId(id) && FindUser(db.users, CastId(id).value).Some?
    ensures ParseRole(role).Some? && IsObjectId(id) && FindUser(db.users, CastId(id).value).None? ==>
              o.reply == Fail(404, "User not found")
    ensures o.reply.Ok? ==>
              var k := FindUser(db.users, CastId(id).value).value;
              var changed := db.users[k].(role := ParseRole(role).value);
              && o.db == db.(users := db.users[k := changed])
              && o.reply == Ok(200, WithoutPassword(changed))
              && RoleName(changed.role) == role
  {
    match ParseRole(role)
    case None => Outcome(Fail(400, "Invalid role"), db)
    case Some(r) =>
      match CastId(id)
      case None => Outcome(Fail(500, "Server error"), db)
      case Some(uid) =>
        match FindUser(db.users, uid)
        case None => Outcome(Fail(404, "User not found"), db)
        case Some(k) =>
          var changed := db.users[k].(role := r);
          Outcome(Ok(200, WithoutPassword(changed)), db.(users := db.users[k := changed]))
  }

  lemma ChangeRoleKeepsValid(db: Db, id: Id, role: string)
    requires ValidUsers(db.users)
    ensures ValidUsers(ChangeRole(db, id, role).db.users)
  {
    var o := ChangeRole(db, id, role);
    if o.reply.Ok? {
      var k := FindUser(db.users, CastId(id).value).value;
      ReplaceKeepsValid(db.users, k, db.users[k].(role := ParseRole(role).value));
    }
  }

  /** A role change takes effect on the user's existing tokens: the
      middleware judges a token signed under the old role by the new one. */
  lemma RoleChangeTakesEffect(db: Db, id: Id, role: string, c: Credentials, roles: seq<Role>)
    requires ValidUsers(db.users) && ChangeRole(db, id, role).reply.Ok?
    requires ExtractToken(c.header).Some? && Verify(Presented(c), c.nowMs).Valid?
    requires CastId(Verify(Presented(c), c.nowMs).id) == CastId(id)
    ensures Guard(ChangeRole(db, id, role).db.users, c, Some(roles)).Pass?
            <==> ParseRole(role).value in roles
  {
    var o := ChangeRole(db, id, role);
    var k := FindUser(db.users, CastId(id).value).value;
    ChangeRoleKeepsValid(db, id, role);
    StoredRoleDecides(o.db.users, c, k, roles);
  }

  /** Removes the user at `k` and every food log whose owner is `uid`
      (`findByIdAndDelete` and `deleteMany({ user })`). */
  function Purge(db: Db, k: nat, uid: Id): (r: Db)
    requires k < |db.users|
    ensures r.users == RemoveAt(db.users, k)
    ensures forall l :: l in r.logs <==> l in db.logs && l.user != uid
  {
    var p := (l: FoodLog) => l.user != uid;
    var logs := Filter(db.logs, p);
    assert forall l :: l in logs <==> l in db.logs && l.user != uid by {
      forall l
        ensures l in logs <==> l in db.logs && l.user != uid
      {
        FilterMember(db.logs, p, l);
      }
    }
    Db(RemoveAt(db.users, k), logs)
  }

  /** The part of `DELETE /users/:id` after the self-deletion guard: the
      path id is cast, the user found by it removed together with the food
      logs it owns. */
  function DeleteById(db: Db, id: Id): (o: Outcome<string>)
    ensures o.reply.Fail? ==> o.db == db
    ensures !IsObjectId(id) ==> o.reply == Fail(500, "Server error")
    ensures o.reply.Ok? <==> IsObjectId(id) && FindUser(db.users, CastId(id).value).Some?
    ensures IsObjectId(id) && FindUser(db.users, CastId(id).value).None? ==>
              o.reply == Fail(404, "User not found")
    ensures o.reply.Ok? ==>
              && o.reply == Ok(200, "User deleted")
              && o.db.users == RemoveAt(db.users, FindUser(db.users, CastId(id).value).value)
              && (forall l :: l in o.db.logs <==> l in db.logs && l.user != CastId(id).value)
  {
    match CastId(id)
    case None => Outcome(Fail(500, "Server error"), db)
    case Some(uid) =>
      match FindUser(db.users, uid)
      case None => Outcome(Fail(404, "User not found"), db)
      case Some(k) => Outcome(Ok(200, "User deleted"), Purge(db, k, uid))
  }

  /** `DELETE /users/:id` as written: the self-deletion guard compares the
      path text with the caller's id as strings, while the lookup, the
      delete and the log cleanup cast it. */
  function DeleteUserAsWritten(db: Db, caller: User, id: Id): (o: Outcome<string>)
    ensures id == caller.id ==> o == Outcome(Fail(400, "Cannot delete your own account"), db)
    ensures id != caller.id ==> o == DeleteById(db, id)
    ensures o.reply.Ok? <==> id != caller.id && IsObjectId(id) && FindUser(db.users, CastId(id).value).Some?
  {
    if id == caller.id then Outcome(Fail(400, "Cannot delete your own account"), db)
    else DeleteById(db, id)
  }

  /** The caller's own id spelled with upper-case hexadecimal digits passes
      the guard of `DeleteUserAsWritten`, and the admin's account is
      deleted. */
  lemma SelfDeletionBypass(db: Db, caller: User, id: Id, k: nat)
    requires UniqueIds(db.users) && k < |db.users| && db.users[k].id == caller.id
    requires id != caller.id && CastId(id) == Some(caller.id)
    ensures DeleteUserAsWritten(db, caller, id).reply == Ok(200, "User deleted")
    ensures FindUser(DeleteUserAsWritten(db, caller, id).db.users, caller.id).None?
  {
    FindUserUnique(db.users, caller.id, k);
    RemovedIsGone(db.users, k);
  }

  /** A concrete instance: an admin whose id has a letter among its digits. */
  lemma SelfDeletionExample(db: Db, caller: User)
    requires UniqueIds(db.users) && |db.users| > 0 && db.users[0] == caller
    requires caller.id == "aaaaaaaaaaaaaaaaaaaaaaaa"
    ensures DeleteUserAsWritten(db, caller, "AAAAAAAAAAAAAAAAAAAAAAAA").reply == Ok(200, "User deleted")
    ensures FindUser(DeleteUserAsWritten(db, caller, "AAAAAAAAAAAAAAAAAAAAAAAA").db.users, caller.id).None?
  {
    var id := "AAAAAAAAAAAAAAAAAAAAAAAA";
    assert IsObjectId(id);
    assert CastId(id).value == caller.id;
    SelfDeletionBypass(db, caller, id, 0);
  }

  /** `DELETE /users/:id` with the self-deletion guard applied to the cast
      id, so that no spelling of the caller's own id gets past it: the
      evidently intended route. The router, as written, uses
      `DeleteUserAsWritten`. */
  function DeleteUser(db: Db, caller: User, id: Id): (o: Outcome<string>)
    ensures id == caller.id || CastId(id) == Some(caller.id) ==>
              o == Outcome(Fail(400, "Cannot delete your own account"), db)
    ensures o.reply.Fail? ==> o.db == db
    ensures id != caller.id && !IsObjectId(id) ==> o.reply == Fail(500, "Server error")
    ensures o.reply.Ok? <==>
              && id != caller.id && IsObjectId(id) && CastId(id).value != caller.id
              && FindUser(db.users, CastId(id).value).Some?
    ensures o.reply.Fail? && o.reply.status == 404 ==> o.reply.error == "User not found"
    ensures id != caller.id && IsObjectId(id) && CastId(id).value != caller.id
            && FindUser(db.users, CastId(id).value).None? ==>
              o.reply == Fail(404, "User not found")
    ensures o.reply.Ok? ==>
              && o.reply == Ok(200, "User deleted")
              && o.db.users == RemoveAt(db.users, FindUser(db.users, CastId(id).value).value)
              && (forall l :: l in o.db.logs <==> l in db.logs && l.user != CastId(id).value)
  {
    if id == caller.id || CastId(id) == Some(caller.id) then
      Outcome(Fail(400, "Cannot delete your own account"), db)
    else DeleteById(db, id)
  }

  /** Removing one position of a collection with unique ids leaves no
      document with that position's id. */
  lemma RemovedIsGone(users: seq<User>, k: nat)
    requires UniqueIds(users) && k < |users|
    ensures FindUser(RemoveAt(users, k), users[k].id).None?
  {
    var r := RemoveAt(users, k);
    forall j | 0 <= j < |r|
      ensures r[j].id != users[k].id
    {
      if j < k {
        assert r[j] == users[j];
      } else {
        assert r[j] == users[j + 1];
      }
    }
  }

  /** An admin stored in the collection survives every delete request of
      its own, whatever the spelling of the id. */
  lemma NoSelfDeletion(db: Db, caller: User, id: Id, k: nat)
    requires UniqueIds(db.users) && k < |db.users| && db.users[k].id == caller.id
    ensures db.users[k] in DeleteUser(db, caller, id).db.users
  {
    var o := DeleteUser(db, caller, id);
    if o.reply.Ok? {
      var kd := FindUser(db.users, CastId(id).value).value;
      assert kd != k;
      if k < kd {
        assert o.db.users[k] == db.users[k];
      } else {
        assert o.db.users[k - 1] == db.users[k];
      }
    }
  }

  /** With unique ids a deleted user is gone for good: no lookup finds the
      id afterwards. */
  lemma DeletedIsGone(db: Db, caller: User, id: Id)
    requires UniqueIds(db.users) && DeleteUser(db, caller, id).reply.Ok?
    ensures FindUser(DeleteUser(db, caller, id).db.users, CastId(id).value).None?
  {
    RemovedIsGone(db.users, FindUser(db.users, CastId(id).value).value);
  }

  /** Deleting a patient leaves the id in every doctor's list that held it:
      the delete does not cascade to `assignedPatients`. */
  lemma DeleteLeavesDanglingReference(db: Db, caller: User, id: Id, d: nat)
    requires UniqueIds(db.users) && DeleteUser(db, caller, id).reply.Ok?
    requires d < |db.users| && db.users[d].id != CastId(id).value
    requires CastId(id).value in db.users[d].assignedPatients
    ensures var after := DeleteUser(db, caller, id).db.users;
            && db.users[d] in after
            && CastId(id).value in db.users[d].assignedPatients
            && FindUser(after, CastId(id).value).None?
  {
    var k := FindUser(db.users, CastId(id).value).value;
    var after := DeleteUser(db, caller, id).db.users;
    DeletedIsGone(db, caller, id);
    if d < k {
      assert after[d] == db.users[d];
    } else {
      assert d != k;
      assert after[d - 1] == db.users[d];
    }
  }

  /** `User.findById(x)` for a body field: an absent id finds nothing; a
      present id that is not an ObjectId fails the cast (`None`); any other
      is looked up by its cast value. */
  function Lookup(users: seq<User>, x: Option<Id>): (r: Option<Option<nat>>)
    ensures r.None? <==> x.Some? && !IsObjectId(x.value)
    ensures x.None? ==> r == Some(None)
    ensures x.Some? && IsObjectId(x.value) ==> r == Some(FindUser(users, CastId(x.value).value))
  {
    if x.None? then Some(None)
    else
      match CastId(x.value)
      case None => None
      case Some(id) => Some(FindUser(users, id))
  }

  /** The doctor's list after an assignment: the patient is appended unless
      already there. */
  function WithPatient(list: seq<Id>, patientId: Id): (r: seq<Id>)
    ensures patientId in r
    ensures forall x :: x in r <==> x in list || x == patientId
    ensures patientId in list ==> r == list
    ensures patientId !in list ==> r == list + [patientId]
  {
    if patientId in list then list else list + [patientId]
  }

  /** A lookup that found a stored doctor (`doctor && doctor.role === "doctor"`). */
  predicate IsDoctorFound(users: seq<User>, k: Option<nat>)
  {
    k.Some? && k.value < |users| && users[k.value].role == Doctor
  }

  /** A lookup that found a stored patient. */
  predicate IsPatientFound(users: seq<User>, k: Option<nat>)
  {
    k.Some? && k.value < |users| && users[k.value].role == Patient
  }

  /** `POST /assign-patient`. Both lookups run before either role check, so
      a malformed id on either side answers 500 first. The references
      stored on both documents are the cast ids. */
  function AssignPatient(db: Db, doctorId: Option<Id>, patientId: Option<Id>): (o: Outcome<string>)
    ensures o.reply.Fail? ==> o.db == db
    ensures Lookup(db.users, doctorId).None? || Lookup(db.users, patientId).None? ==>
              o.reply == Fail(500, "Server error")
    ensures o.reply.Ok? <==>
              && doctorId.Some? && IsObjectId(doctorId.value)
              && patientId.Some? && IsObjectId(patientId.value)
              && FindUser(db.users, CastId(doctorId.value).value).Some?
              && db.users[FindUser(db.users, CastId(doctorId.value).value).value].role == Doctor
              && FindUser(db.users, CastId(patientId.value).value).Some?
              && db.users[FindUser(db.users, CastId(patientId.value).value).value].role == Patient
    ensures o.reply.Fail? && o.reply.status == 400 ==>
              o.reply.error == "Invalid doctor" || o.reply.error == "Invalid patient"
    ensures Lookup(db.users, doctorId).Some? && Lookup(db.users, patientId).Some?
            && !IsDoctorFound(db.users, Lookup(db.users, doctorId).value) ==>
              o.reply == Fail(400, "Invalid doctor")
    ensures Lookup(db.users, doctorId).Some? && Lookup(db.users, patientId).Some?
            && IsDoctorFound(db.users, Lookup(db.users, doctorId).value)
            && !IsPatientFound(db.users, Lookup(db.users, patientId).value) ==>
              o.reply == Fail(400, "Invalid patient")
    ensures o.reply.Ok? ==>
              var did := CastId(doctorId.value).value;
              var pid := CastId(patientId.value).value;
              var kd := FindUser(db.users, did).value;
              var kp := FindUser(db.users, pid).value;
              && kd != kp
              && o.reply == Ok(200, "Patient assigned to doctor")
              && o.db.logs == db.logs
              && |o.db.users| == |db.users|
              && o.db.users[kd] == db.users[kd].(assignedPatients := WithPatient(db.users[kd].assignedPatients, pid))
              && o.db.users[kp] == db.users[kp].(assignedDoctor := Some(did))
              && forall j :: 0 <= j < |db.users| && j != kd && j != kp ==> o.db.users[j] == db.users[j]
  {
    match (Lookup(db.users, doctorId), Lookup(db.users, patientId))
    case (None, _) => Outcome(Fail(500, "Server error"), db)
    case (_, None) => Outcome(Fail(500, "Server error"), db)
    case (Some(d), Some(p)) =>
      if d.None? || db.users[d.value].role != Doctor then Outcome(Fail(400, "Invalid doctor"), db)
      else if p.None? || db.users[p.value].role != Patient then Outcome(Fail(400, "Invalid patient"), db)
      else
        var doctor := db.users[d.value];
        var patient := db.users[p.value];
        var doctor' := doctor.(assignedPatients := WithPatient(doctor.assignedPatients, CastId(patientId.value).value));
        var patient' := patient.(assignedDoctor := Some(CastId(doctorId.value).value));
        Outcome(Ok(200, "Patient assigned to doctor"),
                db.(users := db.users[d.value := doctor'][p.value := patient']))
  }

  /** Assigning is idempotent: repeating the same assignment changes
      nothing more. */
  lemma AssignIdempotent(db: Db, doctorId: Option<Id>, patientId: Option<Id>)
    requires AssignPatient(db, doctorId, patientId).reply.Ok?
    ensures var once := AssignPatient(db, doctorId, patientId).db;
            AssignPatient(once, doctorId, patientId) == Outcome(Ok(200, "Patient assigned to doctor"), once)
  {
    var once := AssignPatient(db, doctorId, patientId).db;
    var did := CastId(doctorId.value).value;
    var pid := CastId(patientId.value).value;
    var kd := FindUser(db.users, did).value;
    var kp := FindUser(db.users, pid).value;
    SameIdsSameLookup(db.users, once.users, did);
    SameIdsSameLookup(db.users, once.users, pid);
    assert once.users[kd] == once.users[kd].(assignedPatients := WithPatient(once.users[kd].assignedPatients, pid));
    assert once.users[kp] == once.users[kp].(assignedDoctor := Some(did));
    var twice := AssignPatient(once, doctorId, patientId).db;
    assert twice.users == once.users;
  }

  /** Lookups by id only depend on the ids, position by position. */
  lemma SameIdsSameLookup(us: seq<User>, vs: seq<User>, id: Id)
    requires |us| == |vs| && forall j :: 0 <= j < |us| ==> us[j].id == vs[j].id
    ensures FindUser(us, id) == FindUser(vs, id)
  {
  }

  /** An assignment keeps the collection's invariants. */
  lemma AssignKeepsValid(db: Db, doctorId: Option<Id>, patientId: Option<Id>)
    requires ValidUsers(db.users)
    ensures ValidUsers(AssignPatient(db, doctorId, patientId).db.users)
  {
    var o := AssignPatient(db, doctorId, patientId);
    if o.reply.Ok? {
      var kd := FindUser(db.users, CastId(doctorId.value).value).value;
      var kp := FindUser(db.users, CastId(patientId.value).value).value;
      var mid := db.users[kd := o.db.users[kd]];
      ReplaceKeepsValid(db.users, kd, o.db.users[kd]);
      ReplaceKeepsValid(mid, kp, o.db.users[kp]);
      assert o.db.users == mid[kp := o.db.users[kp]];
    }
  }

  /** Re-assigning a patient to a second doctor leaves the patient in the
      first doctor's list: afterwards the patient names the second doctor
      while the first still lists the patient. */
  lemma ReassignBreaksBidirectional(db: Db, d1: Id, d2: Id, p: Id)
    requires AssignPatient(db, Some(d1), Some(p)).reply.Ok?
    requires AssignPatient(AssignPatient(db, Some(d1), Some(p)).db, Some(d2), Some(p)).reply.Ok?
    requires CastId(d1) != CastId(d2)
    ensures var mid := AssignPatient(db, Some(d1), Some(p)).db;
            var after := AssignPatient(mid, Some(d2), Some(p)).db;
            && FindUser(after.users, CastId(d1).value).Some?
            && CastId(p).value in after.users[FindUser(after.users, CastId(d1).value).value].assignedPatients
            && FindUser(after.users, CastId(p).value).Some?
            && after.users[FindUser(after.users, CastId(p).value).value].assignedDoctor == CastId(d2)
  {
    var mid := AssignPatient(db, Some(d1), Some(p)).db;
    var after := AssignPatient(mid, Some(d2), Some(p)).db;
    var c1, c2, cp := CastId(d1).value, CastId(d2).value, CastId(p).value;
    var k1 := FindUser(db.users, c1).value;
    SameIdsSameLookup(db.users, mid.users, c1);
    SameIdsSameLookup(mid.users, after.users, c1);
    SameIdsSameLookup(mid.users, after.users, cp);
    var k2 := FindUser(mid.users, c2).value;
    assert k2 != k1;
    assert after.users[k1] == mid.users[k1];
  }

  /** A request to the admin router (`/stats` is not part of this model). */
  datatype Request =
    | Users(q: UserQuery)
    | SetRole(id: Id, role: string)
    | Remove(id: Id)
    | Assign(doctorId: Option<Id>, patientId: Option<Id>)

  datatype Response =
    | UserPage(page: Page<User>)
    | OneUser(user: User)
    | Message(text: string)

  /** The admin router: only a stored admin reaches a handler, and every
      other caller leaves the store as it was. */
  function Handle(db: Db, c: Credentials, req: Request, matches: RegexMatch): (o: Outcome<Response>)
    ensures Guard(db.users, c, Some([Admin])).Deny? ==>
              o == Outcome(Fail(Guard(db.users, c, Some([Admin])).status, Guard(db.users, c, Some([Admin])).error), db)
    ensures Authenticate(db.users, c).Pass? && Authenticate(db.users, c).user.role != Admin ==>
              o.db == db && o.reply == Fail(403, "Access denied. Required role(s): admin")
    ensures o.db != db ==> Authenticate(db.users, c).Pass? && Authenticate(db.users, c).user.role == Admin
    ensures req.Remove? && Guard(db.users, c, Some([Admin])).Pass? ==>
              o.db == DeleteUserAsWritten(db, Guard(db.users, c, Some([Admin])).user, req.id).db
  {
    match Guard(db.users, c, Some([Admin]))
    case Deny(s, e) =>
      assert RoleNames([Admin]) == ["admin"];
      assert Join(RoleNames([Admin]), ", ") == "admin";
      assert "Access denied. Required role(s): " + "admin" == "Access denied. Required role(s): admin";
      assert Authenticate(db.users, c).Pass? && Authenticate(db.users, c).user.role != Admin ==>
               Authenticate(db.users, c).user.role !in [Admin];
      Outcome(Fail(s, e), db)
    case Pass(u) =>
      match req
      case Users(q) =>
        var r := ListUsers(db, q, matches);
        Outcome(if r.Ok? then Ok(r.status, UserPage(r.value)) else Fail(r.status, r.error), db)
      case SetRole(id, role) =>
        var o := ChangeRole(db, id, role);
        Outcome(if o.reply.Ok? then Ok(o.reply.status, OneUser(o.reply.value))
                else Fail(o.reply.status, o.reply.error), o.db)
      case Remove(id) =>
        var o := DeleteUserAsWritten(db, u, id);
        Outcome(if o.reply.Ok? then Ok(o.reply.status, Message(o.reply.value))
                else Fail(o.reply.status, o.reply.error), o.db)
      case Assign(d, p) =>
        var o := AssignPatient(db, d, p);
        Outcome(if o.reply.Ok? then Ok(o.reply.status, Message(o.reply.value))
                else Fail(o.reply.status, o.reply.error), o.db)
  }
}
