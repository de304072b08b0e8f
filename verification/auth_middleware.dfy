/** `authenticate` and `authorize`: the bearer-token gate in front of every
    protected route. */
module AuthMiddleware {
  import opened Common
  import opened Strings
  import opened UserModel
  import opened Store
  import opened Tokens

  /** The case-sensitive prefix `authenticate` requires (the bearer scheme
      of section 2.1 of RFC 6750). */
  const BearerPrefix: string := "Bearer "

  /** The text up to the first space: one field of `split(" ")`. */
  function FirstField(s: string): (r: string)
    ensures StartsWith(s, r)
    ensures ' ' !in r
    ensures |r| < |s| ==> s[|r|] == ' '
    decreases |s|
  {
    if |s| == 0 || s[0] == ' ' then "" else [s[0]] + FirstField(s[1..])
  }

  /** `header.split(" ")[1]` for a header that starts with "Bearer ";
      `None` when the header is missing or has another prefix. */
  function ExtractToken(header: Option<string>): (r: Option<string>)
    ensures r.None? <==> header.None? || !StartsWith(header.value, BearerPrefix)
    ensures r.Some? ==> ' ' !in r.value && StartsWith(header.value, BearerPrefix + r.value)
    ensures r.Some? ==> |BearerPrefix + r.value| == |header.value|
                        || header.value[|BearerPrefix + r.value|] == ' '
  {
    if header.None? || !StartsWith(header.value, BearerPrefix) then None
    else
      var rest := header.value[|BearerPrefix|..];
      var t := FirstField(rest);
      assert header.value == BearerPrefix + rest;
      assert (BearerPrefix + rest)[..|BearerPrefix + t|] == BearerPrefix + t;
      Some(t)
  }

  lemma {:induction false} FirstFieldOfSpaceless(t: string)
    requires ' ' !in t
    ensures FirstField(t) == t
    decreases |t|
  {
    if |t| > 0 {
      assert ' ' !in t[1..];
      FirstFieldOfSpaceless(t[1..]);
      assert t == [t[0]] + t[1..];
    }
  }

  /** The header a client builds from a token without spaces yields exactly
      that token back. */
  lemma BearerRoundTrip(t: string)
    requires ' ' !in t
    ensures ExtractToken(Some(BearerPrefix + t)) == Some(t)
  {
    assert (BearerPrefix + t)[|BearerPrefix|..] == t;
    FirstFieldOfSpaceless(t);
  }

  /** What a request brings to `authenticate`: its Authorization header,
      how the JWT library decodes a token text (`None`: not a JWT), and the
      clock in milliseconds. */
  datatype Credentials = Credentials(header: Option<string>, decode: string -> Option<Token>, nowMs: int)

  /** The outcome of a middleware: continue with the request's user, or
      answer with a status and an error message. */
  datatype Gate = Pass(user: User) | Deny(status: int, error: string)

  /** The token `jwt.verify` is given; the empty text is rejected by the
      library before any decoding. */
  function Presented(c: Credentials): (t: Option<Token>)
    requires ExtractToken(c.header).Some?
  {
    var text := ExtractToken(c.header).value;
    if text == "" then None else c.decode(text)
  }

  /** `authenticate`. The claimed id is cast before the lookup, so its
      hexadecimal digits may be in either case; a claim that is not a
      castable id makes the lookup throw, and like every other failure
      inside the `try` it surfaces as "Invalid token". On success the
      request's user is the live stored document without its password. */
  function Authenticate(users: seq<User>, c: Credentials): (g: Gate)
    ensures g.Deny? ==> g.status == 401
    ensures ExtractToken(c.header).None? ==> g == Deny(401, "No token provided")
    ensures ExtractToken(c.header).Some? ==>
              (g == Deny(401, "Token expired") <==> Verify(Presented(c), c.nowMs) == Expired)
    ensures ExtractToken(c.header).Some? && Verify(Presented(c), c.nowMs) == Invalid ==>
              g == Deny(401, "Invalid token")
    ensures ExtractToken(c.header).Some? && Verify(Presented(c), c.nowMs).Valid?
            && !IsObjectId(Verify(Presented(c), c.nowMs).id) ==>
              g == Deny(401, "Invalid token")
    ensures ExtractToken(c.header).Some? && Verify(Presented(c), c.nowMs).Valid?
            && IsObjectId(Verify(Presented(c), c.nowMs).id)
            && FindUser(users, CastId(Verify(Presented(c), c.nowMs).id).value).None? ==>
              g == Deny(401, "User not found")
    ensures g.Pass? <==>
              && ExtractToken(c.header).Some?
              && Verify(Presented(c), c.nowMs).Valid?
              && IsObjectId(Verify(Presented(c), c.nowMs).id)
              && FindUser(users, CastId(Verify(Presented(c), c.nowMs).id).value).Some?
    ensures g.Pass? ==>
              g.user == WithoutPassword(users[FindUser(users, CastId(Verify(Presented(c), c.nowMs).id).value).value])
  {
    if ExtractToken(c.header).None? then Deny(401, "No token provided")
    else
      match Verify(Presented(c), c.nowMs)
      case Expired => Deny(401, "Token expired")
      case Invalid => Deny(401, "Invalid token")
      case Valid(id, _) =>
        match CastId(id)
        case None => Deny(401, "Invalid token")
        case Some(uid) =>
          match FindUser(users, uid)
          case None => Deny(401, "User not found")
          case Some(k) => Pass(WithoutPassword(users[k]))
  }

  function RoleNames(roles: seq<Role>): (r: seq<string>)
    ensures |r| == |roles|
    ensures forall i :: 0 <= i < |r| ==> r[i] == RoleName(roles[i])
  {
    seq(|roles|, i requires 0 <= i < |roles| => RoleName(roles[i]))
  }

  /** `authorize(...roles)` given the request's user, if any. */
  function Authorize(user: Option<User>, roles: seq<Role>): (g: Gate)
    ensures user.None? ==> g == Deny(401, "Not authenticated")
    ensures user.Some? ==> (g.Pass? <==> user.value.role in roles)
    ensures g.Pass? ==> g.user == user.value
    ensures user.Some? && user.value.role !in roles ==>
              g == Deny(403, "Access denied. Required role(s): " + Join(RoleNames(roles), ", "))
  {
    if user.None? then Deny(401, "Not authenticated")
    else if user.value.role !in roles then
      Deny(403, "Access denied. Required role(s): " + Join(RoleNames(roles), ", "))
    else Pass(user.value)
  }

  /** The middleware chain of a router: `authenticate`, then
      `authorize(...roles)` when the router restricts roles. */
  function Guard(users: seq<User>, c: Credentials, roles: Option<seq<Role>>): (g: Gate)
    ensures Authenticate(users, c).Deny? ==> g == Authenticate(users, c)
    ensures g.Pass? <==>
              Authenticate(users, c).Pass? && (roles.None? || Authenticate(users, c).user.role in roles.value)
    ensures g.Pass? ==> g.user == Authenticate(users, c).user
    ensures g.Deny? ==> g.status == 401 || g.status == 403
    ensures Authenticate(users, c).Pass? && roles.Some? && Authenticate(users, c).user.role !in roles.value ==>
              g == Deny(403, "Access denied. Required role(s): " + Join(RoleNames(roles.value), ", "))
  {
    match Authenticate(users, c)
    case Deny(s, e) => Deny(s, e)
    case Pass(u) => if roles.None? then Pass(u) else Authorize(Some(u), roles.value)
  }

  /** The role that authorisation checks is the stored one, not the claim
      in the token: a user whose role changed after the token was signed
      is judged by the new role. */
  lemma StoredRoleDecides(users: seq<User>, c: Credentials, k: nat, roles: seq<Role>)
    requires k < |users| && UniqueIds(users)
    requires ExtractToken(c.header).Some? && Verify(Presented(c), c.nowMs).Valid?
    requires CastId(Verify(Presented(c), c.nowMs).id) == Some(users[k].id)
    ensures Guard(users, c, Some(roles)).Pass? <==> users[k].role in roles
  {
    FindUserUnique(users, users[k].id, k);
  }

  /** A still-valid token whose user has been deleted is rejected. */
  lemma DeletedUserRejected(users: seq<User>, c: Credentials, id: Id)
    requires ExtractToken(c.header).Some?
    requires Verify(Presented(c), c.nowMs).Valid? && CastId(Verify(Presented(c), c.nowMs).id) == Some(id)
    requires forall j :: 0 <= j < |users| ==> users[j].id != id
    ensures Authenticate(users, c) == Deny(401, "User not found")
  {
  }

  /** A header without the exact "Bearer " prefix never reaches a handler. */
  lemma NoBearerNoEntry(users: seq<User>, c: Credentials, roles: Option<seq<Role>>)
    requires c.header.None? || !StartsWith(c.header.value, BearerPrefix)
    ensures Guard(users, c, roles) == Deny(401, "No token provided")
  {
  }
}
