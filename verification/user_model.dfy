/** The user schema: field setters, validation, defaults, the password
    pre-save hook, `comparePassword` and the password-free projections. */
module UserModel {
  import opened Common
  import opened Strings

  /** A bcrypt hash. It is an abstract value: the model keeps the preimage
      inside so that comparison can be stated, and only `ComparePassword`
      looks at it. */
  datatype Digest = Digest(preimage: string)

  /** `bcrypt.hash(password, 12)` */
  function HashPassword(plain: string): Digest
  {
    Digest(plain)
  }

  /** `comparePassword`: whether the candidate hashes to the stored digest. */
  function ComparePassword(candidate: string, stored: Digest): (ok: bool)
    ensures ok <==> HashPassword(candidate) == stored
  {
    candidate == stored.preimage
  }

  /** bcrypt is a function of the password alone as far as comparison goes:
      a digest accepts exactly the password it was made from. */
  lemma CompareHashed(candidate: string, plain: string)
    ensures ComparePassword(candidate, HashPassword(plain)) <==> candidate == plain
  {
  }

  /** The `minlength` of the password path, counted in UTF-16 code units. */
  const MinPasswordLength: nat := 6

  datatype User = User(
    id: Id,
    name: string,
    email: string,
    password: Option<Digest>,   // None once projected with select("-password")
    role: Role,
    assignedPatients: seq<Id>,  // a doctor's patients
    assignedDoctor: Option<Id>, // a patient's doctor
    profilePicture: Option<string>,
    lastLogin: Option<int>,
    createdAt: int)

  /** The `lowercase` and `trim` setters of the email path. */
  function NormalizeEmail(s: string): (r: string)
    ensures |r| <= |s|
    ensures r == Lower(Trim(s))
    ensures IsTrimmed(r) && IsLowerAscii(r)
  {
    TrimLowerCommute(s);
    LowerIsLower(Trim(s));
    Trim(Lower(s))
  }

  /** A stored email is a fixed point of the setters. */
  lemma NormalizeNormal(s: string)
    requires IsTrimmed(s) && IsLowerAscii(s)
    ensures NormalizeEmail(s) == s
  {
    TrimOfTrimmed(s);
    LowerOfLower(s);
  }

  lemma NormalizeEmailIdempotent(s: string)
    ensures NormalizeEmail(NormalizeEmail(s)) == NormalizeEmail(s)
  {
    NormalizeNormal(NormalizeEmail(s));
  }

  /** Schema invariants of a stored user document: a canonical id, a required
      trimmed name, a required trimmed lower-case email, a password hash. */
  predicate WellFormed(u: User)
  {
    && IsCanonicalId(u.id)
    && u.name != "" && IsTrimmed(u.name)
    && u.email != "" && IsTrimmed(u.email) && IsLowerAscii(u.email)
    && u.password.Some?
  }

  /** `User.create({ name, email, password, role })` for a fresh id: casting
      applies the setters, validation checks `required` and `minlength`,
      defaults fill the rest and the pre-save hook hashes the password.
      `None` is a ValidationError. */
  function CreateDocument(id: Id, name: string, email: string, password: string, role: Role, now: int)
    : (r: Option<User>)
    requires IsCanonicalId(id)
    ensures r.Some? <==> Trim(name) != "" && NormalizeEmail(email) != "" && Utf16Length(password) >= MinPasswordLength
    ensures r.Some? ==> WellFormed(r.value)
    ensures r.Some? ==> && r.value.id == id && r.value.role == role && r.value.createdAt == now
                        && r.value.name == Trim(name) && r.value.email == NormalizeEmail(email)
                        && ComparePassword(password, r.value.password.value)
                        && r.value.assignedPatients == [] && r.value.assignedDoctor == None
                        && r.value.profilePicture == None && r.value.lastLogin == None
  {
    var n := Trim(name);
    var e := NormalizeEmail(email);
    if n == "" || e == "" || Utf16Length(password) < MinPasswordLength then None
    else
      Some(User(id, n, e, Some(HashPassword(password)), role, [], None, None, None, now))
  }

  /** The pre-save hook: the password is hashed only when it was modified
      (`modifiedPassword` holds the new plain text). */
  function PreSave(u: User, modifiedPassword: Option<string>): (r: User)
    ensures r.(password := u.password) == u
    ensures modifiedPassword.None? ==> r.password == u.password
    ensures modifiedPassword.Some? ==>
              r.password.Some? && ComparePassword(modifiedPassword.value, r.password.value)
  {
    match modifiedPassword
    case None => u
    case Some(p) => u.(password := Some(HashPassword(p)))
  }

  /** `select("-password")` and `toJSON`: the password field is dropped and
      every other field is kept. */
  function WithoutPassword(u: User): (r: User)
    ensures r.password.None?
    ensures r.(password := u.password) == u
  {
    u.(password := None)
  }

  /** The user object of the register and login replies. */
  datatype PublicUser = PublicUser(id: Id, name: string, email: string, role: Role)

  function Public(u: User): PublicUser
  {
    PublicUser(u.id, u.name, u.email, u.role)
  }
}
