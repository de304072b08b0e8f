/** The browser side of a session: the signed-in user the React context
    keeps, its saved copy in local storage, the header it attaches to API
    calls and the role flags the pages read. */
module AuthContext {
  import opened Common
  import opened Strings
  import opened UserModel
  import opened Store
  import opened Tokens
  import opened AuthMiddleware
  import opened AuthRoutes

  /** The context's `user`: the server's user object plus the token text.
      The profile fields only come back from `GET /me`. */
  datatype AuthUser = AuthUser(id: Id, name: string, email: string, role: Role,
                               profilePicture: Option<string>, createdAt: Option<int>, token: string)

  /** The `nutrisync_auth` entry: a user written by this code, or text that
      `JSON.parse` rejects. */
  datatype Saved = Entry(user: AuthUser) | Corrupt

  datatype Client = Client(user: Option<AuthUser>, loading: bool, saved: Option<Saved>)

  /** `getAuthHeaders`: at most an Authorization header, present exactly
      when there is a token, carrying the token after the bearer prefix. */
  function AuthHeaders(user: Option<AuthUser>): (h: map<string, string>)
    ensures h.Keys <= {"Authorization"}
    ensures h == map[] <==> user.None? || user.value.token == ""
    ensures "Authorization" in h ==>
              && StartsWith(h["Authorization"], BearerPrefix)
              && h["Authorization"][|BearerPrefix|..] == user.value.token
  {
    if user.None? || user.value.token == "" then map[]
    else
      var h := map["Authorization" := BearerPrefix + user.value.token];
      assert "Authorization" in h;
      h
  }

  /** The header the context builds yields its own token back in
      `authenticate`, for a token without spaces (a compact JWT has none). */
  lemma HeaderRoundTrip(u: AuthUser)
    requires u.token != "" && ' ' !in u.token
    ensures "Authorization" in AuthHeaders(Some(u))
    ensures ExtractToken(Some(AuthHeaders(Some(u))["Authorization"])) == Some(u.token)
  {
    BearerRoundTrip(u.token);
  }

  /** `isPatient`, `isDoctor`, `isAdmin` and `isAuthenticated`. */
  datatype Flags = Flags(isPatient: bool, isDoctor: bool, isAdmin: bool, isAuthenticated: bool)

  function FlagsOf(user: Option<AuthUser>): (f: Flags)
    ensures f.isAuthenticated <==> user.Some?
    ensures !f.isAuthenticated ==> !f.isPatient && !f.isDoctor && !f.isAdmin
    ensures f.isAuthenticated ==> (f.isPatient <==> user.value.role == Patient)
                                  && (f.isDoctor <==> user.value.role == Doctor)
                                  && (f.isAdmin <==> user.value.role == Admin)
    ensures !(f.isPatient && f.isDoctor) && !(f.isPatient && f.isAdmin) && !(f.isDoctor && f.isAdmin)
  {
    match user
    case None => Flags(false, false, false, false)
    case Some(u) => Flags(RoleName(u.role) == "patient", RoleName(u.role) == "doctor", RoleName(u.role) == "admin", true)
  }

  /** `logout` */
  function Logout(c: Client): (r: Client)
    ensures r.user.None? && r.saved.None? && r.loading == c.loading
    ensures !FlagsOf(r.user).isAuthenticated && AuthHeaders(r.user) == map[]
  {
    c.(user := None, saved := None)
  }

  const LoginFailed: string := "Login failed"
  const RegistrationFailed: string := "Registration failed"

  /** The outcome of `login` or `register`: the resolved user, or the error
      thrown to the form. */
  datatype Attempt = Signed(client: Client, user: AuthUser) | Thrown(message: string, client: Client)

  /** `login`/`register` given the server's answer. `encode` is the text
      `jwt.sign` produced for the token; `fallback` is the default message
      used when the error field is empty. */
  function SignIn(c: Client, answer: Reply<Session>, encode: Token -> string, fallback: string): (a: Attempt)
    ensures answer.Fail? <==> a.Thrown?
    ensures a.Thrown? ==> a.client == c
    ensures a.Thrown? ==> (a.message == answer.error || (answer.error == "" && a.message == fallback))
    ensures a.Signed? ==>
              && a.client.user == Some(a.user) && a.client.saved == Some(Entry(a.user))
              && a.client.loading == c.loading
              && a.user.token == encode(answer.value.token)
              && a.user.id == answer.value.user.id && a.user.role == answer.value.user.role
              && a.user.email == answer.value.user.email
  {
    match answer
    case Fail(_, e) => Thrown(if e != "" then e else fallback, c)
    case Ok(_, s) =>
      var u := AuthUser(s.user.id, s.user.name, s.user.email, s.user.role, None, None, encode(s.token));
      Signed(c.(user := Some(u), saved := Some(Entry(u))), u)
  }

  /** The user `GET /me` restores: the profile with the saved token. */
  function Restored(p: Profile, token: string): (u: AuthUser)
    ensures u.id == p.id && u.role == p.role && u.token == token
  {
    AuthUser(p.id, p.name, p.email, p.role, p.profilePicture, Some(p.createdAt), token)
  }

  /** The mount effect: a saved entry is checked against `GET /me` (`me`
      answers for a token text). A corrupt or rejected entry is removed and
      nobody is signed in; an accepted one signs the stored profile in, with
      its current role, and leaves the entry as it was. */
  function Startup(saved: Option<Saved>, me: string -> Reply<Profile>): (c: Client)
    ensures !c.loading
    ensures c.user.Some? <==> saved.Some? && saved.value.Entry? && me(saved.value.user.token).Ok?
    ensures c.user.None? ==> c.saved.None?
    ensures c.user.Some? ==>
              var p := me(saved.value.user.token).value;
              && c.user.value.id == p.id && c.user.value.role == p.role
              && c.user.value.name == p.name && c.user.value.email == p.email
              && c.user.value.token == saved.value.user.token
              && c.saved == saved
  {
    match saved
    case None => Client(None, false, None)
    case Some(Corrupt) => Client(None, false, None)
    case Some(Entry(u)) =>
      match me(u.token)
      case Fail(_, _) => Client(None, false, None)
      case Ok(_, p) => Client(Some(Restored(p, u.token)), false, saved)
  }

  /** After `logout` a reload starts signed out without asking the server. */
  lemma LogoutThenReload(c: Client, me: string -> Reply<Profile>)
    ensures Startup(Logout(c).saved, me).user.None?
  {
  }

  /** A successful login on the server leaves the browser with a header that
      opens `GET /me` on the same account, while the token lives, provided
      the JWT text has no spaces and decodes to the token signed. */
  lemma LoginHeaderOpensMe(db: Db, email: string, password: string, nowMs: int, c: Client,
                           encode: Token -> string, decode: string -> Option<Token>, clockMs: int)
    requires ValidUsers(db.users)
    requires Login(db, email, password, nowMs).reply.Ok?
    requires var t := Login(db, email, password, nowMs).reply.value.token;
             encode(t) != "" && ' ' !in encode(t) && decode(encode(t)) == Some(t)
    requires nowMs <= clockMs && clockMs + 1000 <= nowMs + Lifetime * 1000
    ensures var a := SignIn(c, Login(db, email, password, nowMs).reply, encode, LoginFailed);
            && a.Signed?
            && "Authorization" in AuthHeaders(a.client.user)
            && var creds := Credentials(Some(AuthHeaders(a.client.user)["Authorization"]), decode, clockMs);
               Me(Login(db, email, password, nowMs).db, creds).Ok?
               && Me(Login(db, email, password, nowMs).db, creds).value.id == a.user.id
  {
    var o := Login(db, email, password, nowMs);
    var a := SignIn(c, o.reply, encode, LoginFailed);
    var text := encode(o.reply.value.token);
    var k := FindByEmail(db.users, email).value;
    assert a.user.token == text;
    assert a.user.id == db.users[k].id;
    HeaderRoundTrip(a.user);
    var creds := Credentials(Some(BearerPrefix + text), decode, clockMs);
    assert AuthHeaders(a.client.user)["Authorization"] == BearerPrefix + text;
    LoginThenMe(db, email, password, nowMs, text, creds);
  }

  /** A reload restores the role the server now stores, so a role change
      made by an administrator shows after the next reload even though the
      saved entry still holds the old role. */
  lemma ReloadShowsStoredRole(u: AuthUser, db: Db, decode: string -> Option<Token>, clockMs: int)
    requires Me(db, Credentials(Some(BearerPrefix + u.token), decode, clockMs)).Ok?
    ensures var me := (text: string) => Me(db, Credentials(Some(BearerPrefix + text), decode, clockMs));
            var c := Startup(Some(Entry(u)), me);
            && c.user.Some?
            && c.user.value.role == Authenticate(db.users, Credentials(Some(BearerPrefix + u.token), decode, clockMs)).user.role
  {
  }
}
