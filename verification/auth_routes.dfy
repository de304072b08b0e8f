/** The account routes: `POST /register`, `POST /login` and `GET /me`.
    Absent or falsy body fields are modelled as the empty string. */
module AuthRoutes {
  import opened Common
  import opened Strings
  import opened UserModel
  import opened Store
  import opened Tokens
  import opened AuthMiddleware

  /** A register or login reply: the signed token and the public user. */
  datatype Session = Session(token: Token, user: PublicUser)

  /** Only `patient` and `doctor` may be requested; anything else,
      `admin` included, registers a patient. */
  function RegistrationRole(role: string): (r: Role)
    ensures r != Admin
    ensures r == Doctor <==> role == "doctor"
  {
    if role == "doctor" then Doctor else Patient
  }

  /** `POST /register`. `newId` is the ObjectId the driver generates for
      the new document. */
  function Register(db: Db, name: string, email: string, password: string, role: string, newId: Id, nowMs: int)
    : (o: Outcome<Session>)
    requires IsCanonicalId(newId) && FindUser(db.users, newId).None?
    ensures name == "" || email == "" || password == "" ==>
              o == Outcome(Fail(400, "Name, email, and password are required"), db)
    ensures o.reply.Fail? && o.reply.status == 409 <==>
              name != "" && email != "" && password != "" && FindByEmail(db.users, email).Some?
    ensures o.reply.Fail? ==> o.db == db
    ensures o.reply.Ok? <==>
              && name != "" && email != "" && password != ""
              && FindByEmail(db.users, email).None?
              && Trim(name) != "" && NormalizeEmail(email) != "" && Utf16Length(password) >= MinPasswordLength
    ensures o.reply.Ok? ==>
              && o.reply.status == 201
              && var u := CreateDocument(newId, name, email, password, RegistrationRole(role), nowMs).value;
                 && o.db == db.(users := db.users + [u])
                 && o.reply.value == Session(SignToken(newId, u.role, nowMs), Public(u))
  {
    if name == "" || email == "" || password == "" then
      Outcome(Fail(400, "Name, email, and password are required"), db)
    else if FindByEmail(db.users, email).Some? then
      Outcome(Fail(409, "Email already registered"), db)
    else
      match CreateDocument(newId, name, email, password, RegistrationRole(role), nowMs)
      case None => Outcome(Fail(500, "Server error"), db)
      case Some(u) =>
        Outcome(Ok(201, Session(SignToken(u.id, u.role, nowMs), Public(u))),
                db.(users := db.users + [u]))
  }

  /** `POST /login`. A stored document without a password makes bcrypt
      throw, answered with 500. */
  function Login(db: Db, email: string, password: string, nowMs: int): (o: Outcome<Session>)
    ensures email == "" || password == "" ==>
              o == Outcome(Fail(400, "Email and password are required"), db)
    ensures o.reply.Fail? ==> o.db == db
    ensures o.reply.Fail? && o.reply.status == 401 ==> o.reply.error == "Invalid credentials"
    ensures email != "" && password != "" && FindByEmail(db.users, email).None? ==>
              o.reply == Fail(401, "Invalid credentials")
    ensures email != "" && password != "" && FindByEmail(db.users, email).Some?
            && db.users[FindByEmail(db.users, email).value].password.Some?
            && !ComparePassword(password, db.users[FindByEmail(db.users, email).value].password.value) ==>
              o.reply == Fail(401, "Invalid credentials")
    ensures o.reply.Ok? <==>
              && email != "" && password != ""
              && FindByEmail(db.users, email).Some?
              && db.users[FindByEmail(db.users, email).value].password.Some?
              && ComparePassword(password, db.users[FindByEmail(db.users, email).value].password.value)
    ensures o.reply.Ok? ==>
              var k := FindByEmail(db.users, email).value;
              && o.reply.status == 200
              && o.db == db.(users := db.users[k := db.users[k].(lastLogin := Some(nowMs))])
              && o.reply.value == Session(SignToken(db.users[k].id, db.users[k].role, nowMs), Public(db.users[k]))
  {
    if email == "" || password == "" then
      Outcome(Fail(400, "Email and password are required"), db)
    else
      match FindByEmail(db.users, email)
      case None => Outcome(Fail(401, "Invalid credentials"), db)
      case Some(k) =>
        var u := db.users[k];
        if u.password.None? then Outcome(Fail(500, "Server error"), db)
        else if !ComparePassword(password, u.password.value) then
          Outcome(Fail(401, "Invalid credentials"), db)
        else
          var saved := PreSave(u.(lastLogin := Some(nowMs)), None);
          Outcome(Ok(200, Session(SignToken(saved.id, saved.role, nowMs), Public(saved))),
                  db.(users := db.users[k := saved]))
  }

  /** The user object of `GET /me`. */
  datatype Profile = Profile(id: Id, name: string, email: string, role: Role,
                             profilePicture: Option<string>, createdAt: int)

  /** `GET /me`, behind `authenticate`. */
  function Me(db: Db, c: Credentials): (r: Reply<Profile>)
    ensures r.Ok? <==> Authenticate(db.users, c).Pass?
    ensures r.Fail? ==> r == Fail(401, Authenticate(db.users, c).error)
    ensures r.Ok? ==>
              var u := Authenticate(db.users, c).user;
              r == Ok(200, Profile(u.id, u.name, u.email, u.role, u.profilePicture, u.createdAt))
  {
    match Authenticate(db.users, c)
    case Deny(s, e) => Fail(s, e)
    case Pass(u) => Ok(200, Profile(u.id, u.name, u.email, u.role, u.profilePicture, u.createdAt))
  }

  /** Registration keeps the collection's invariants: ids and emails stay
      unique and the new document is well formed. */
  lemma RegisterKeepsValid(db: Db, name: string, email: string, password: string, role: string, newId: Id, nowMs: int)
    requires IsCanonicalId(newId) && FindUser(db.users, newId).None?
    requires ValidUsers(db.users)
    ensures ValidUsers(Register(db, name, email, password, role, newId, nowMs).db.users)
  {
    var o := Register(db, name, email, password, role, newId, nowMs);
    var d := CreateDocument(newId, name, email, password, RegistrationRole(role), nowMs);
    if o.reply.Ok? {
      assert o.db.users == db.users + [d.value];
      AppendKeepsValid(db.users, d.value);
    }
  }

  /** A wrong password changes nothing, `lastLogin` included. */
  lemma WrongPasswordKeepsStore(db: Db, email: string, password: string, nowMs: int, k: nat)
    requires FindByEmail(db.users, email) == Some(k)
    requires db.users[k].password.Some? && !ComparePassword(password, db.users[k].password.value)
    ensures Login(db, email, password, nowMs).db == db
    ensures Login(db, email, password, nowMs).reply.Fail?
  {
  }

  /** A token signed for a stored user, presented as a bearer header during
      its lifetime, opens `GET /me` on that user's profile. */
  lemma SessionOpensMe(db: Db, k: nat, text: string, c: Credentials, signedMs: int)
    requires k < |db.users| && IsCanonicalId(db.users[k].id)
    requires FindUser(db.users, db.users[k].id) == Some(k)
    requires text != "" && ' ' !in text && c.header == Some(BearerPrefix + text)
    requires c.decode(text) == Some(SignToken(db.users[k].id, db.users[k].role, signedMs))
    requires signedMs <= c.nowMs && c.nowMs + 1000 <= signedMs + Lifetime * 1000
    ensures var u := db.users[k];
            Me(db, c) == Ok(200, Profile(u.id, u.name, u.email, u.role, u.profilePicture, u.createdAt))
  {
    var u := db.users[k];
    CastCanonical(u.id);
    BearerRoundTrip(text);
    assert Presented(c) == Some(SignToken(u.id, u.role, signedMs));
    ValidForSevenDays(u.id, u.role, signedMs, c.nowMs);
    assert Authenticate(db.users, c) == Pass(WithoutPassword(u));
  }

  /** The token a successful registration returns opens `GET /me` for the
      new account, with the role that was granted, during the token's
      lifetime. */
  lemma RegisterThenMe(db: Db, name: string, email: string, password: string, role: string,
                       newId: Id, nowMs: int, text: string, c: Credentials)
    requires IsCanonicalId(newId) && FindUser(db.users, newId).None?
    requires Register(db, name, email, password, role, newId, nowMs).reply.Ok?
    requires text != "" && ' ' !in text
    requires c.header == Some(BearerPrefix + text)
    requires c.decode(text) == Some(Register(db, name, email, password, role, newId, nowMs).reply.value.token)
    requires nowMs <= c.nowMs && c.nowMs + 1000 <= nowMs + Lifetime * 1000
    ensures var o := Register(db, name, email, password, role, newId, nowMs);
            Me(o.db, c).Ok? && Me(o.db, c).value.id == newId
            && Me(o.db, c).value.role == RegistrationRole(role)
  {
    var o := Register(db, name, email, password, role, newId, nowMs);
    var u := CreateDocument(newId, name, email, password, RegistrationRole(role), nowMs).value;
    assert o.db.users == db.users + [u];
    FindAppended(db.users, u);
    SessionOpensMe(o.db, |db.users|, text, c, nowMs);
  }

  /** A login only stamps `lastLogin`, so the collection's invariants hold
      afterwards. */
  lemma LoginKeepsValid(db: Db, email: string, password: string, nowMs: int)
    requires ValidUsers(db.users)
    ensures ValidUsers(Login(db, email, password, nowMs).db.users)
  {
    var o := Login(db, email, password, nowMs);
    if o.reply.Ok? {
      var k := FindByEmail(db.users, email).value;
      ReplaceKeepsValid(db.users, k, db.users[k].(lastLogin := Some(nowMs)));
    }
  }

  /** The token a successful login returns opens `GET /me` on the account
      that logged in, when ids are unique and during the token's lifetime. */
  lemma LoginThenMe(db: Db, email: string, password: string, nowMs: int, text: string, c: Credentials)
    requires ValidUsers(db.users)
    requires Login(db, email, password, nowMs).reply.Ok?
    requires text != "" && ' ' !in text && c.header == Some(BearerPrefix + text)
    requires c.decode(text) == Some(Login(db, email, password, nowMs).reply.value.token)
    requires nowMs <= c.nowMs && c.nowMs + 1000 <= nowMs + Lifetime * 1000
    ensures var k := FindByEmail(db.users, email).value;
            Me(Login(db, email, password, nowMs).db, c).Ok?
            && Me(Login(db, email, password, nowMs).db, c).value.id == db.users[k].id
            && Me(Login(db, email, password, nowMs).db, c).value.email == NormalizeEmail(email)
  {
    var o := Login(db, email, password, nowMs);
    var k := FindByEmail(db.users, email).value;
    LoginKeepsValid(db, email, password, nowMs);
    FindUserUnique(o.db.users, o.db.users[k].id, k);
    SessionOpensMe(o.db, k, text, c, nowMs);
  }
}
