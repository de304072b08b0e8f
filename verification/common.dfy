/** Shared vocabulary of the NutriSync backend: optional values, HTTP replies,
    the closed role set and the shape of MongoDB object ids. */
module Common {

  /** A value that may be absent (JavaScript `undefined`/`null`, Python `None`). */
  datatype Option<T> = None | Some(value: T)
  {
    /** The value, or `d` when absent (a destructuring default). */
    function UnwrapOr(d: T): T
    {
      if Some? then value else d
    }
  }

  /** An HTTP reply: a status code with either a payload or an error message. */
  datatype Reply<T> = Ok(status: int, value: T) | Fail(status: int, error: string)

  /** Identifiers are the hexadecimal strings of MongoDB object ids. */
  type Id = string

  /** The closed role set of the user schema. */
  datatype Role = Patient | Doctor | Admin

  /** The string stored in the `role` field. */
  function RoleName(r: Role): string
  {
    match r
    case Patient => "patient"
    case Doctor => "doctor"
    case Admin => "admin"
  }

  /** Membership test against the enum `["patient", "doctor", "admin"]`. */
  function ParseRole(s: string): (r: Option<Role>)
    ensures r.Some? ==> RoleName(r.value) == s
    ensures r.None? <==> (forall x: Role :: RoleName(x) != s)
  {
    if s == "patient" then Some(Patient)
    else if s == "doctor" then Some(Doctor)
    else if s == "admin" then Some(Admin)
    else None
  }

  lemma ParseRoleName(r: Role)
    ensures ParseRole(RoleName(r)) == Some(r)
  {
  }

  predicate IsHexDigit(c: char)
  {
    ('0' <= c <= '9') || ('a' <= c <= 'f') || ('A' <= c <= 'F')
  }

  /** Whether Mongoose can cast a string to an ObjectId (24 hexadecimal digits);
      any other string makes a query by `_id` throw a CastError. */
  predicate IsObjectId(s: string)
  {
    |s| == 24 && forall i :: 0 <= i < |s| ==> IsHexDigit(s[i])
  }

  predicate IsLowerHexDigit(c: char)
  {
    ('0' <= c <= '9') || ('a' <= c <= 'f')
  }

  /** The text of a stored ObjectId: `toString()` prints 24 lower-case
      hexadecimal digits. */
  predicate IsCanonicalId(s: string)
  {
    |s| == 24 && forall i :: 0 <= i < |s| ==> IsLowerHexDigit(s[i])
  }

  function LowerHex(c: char): (r: char)
    ensures IsHexDigit(c) ==> IsLowerHexDigit(r)
    ensures IsLowerHexDigit(c) ==> r == c
  {
    if 'A' <= c <= 'F' then (c as int + 32) as char else c
  }

  /** The id a query by `_id` (or by a reference field) matches when given
      the string `s`: Mongoose casts the text to an ObjectId, reading the
      hexadecimal digits in either case, and `None` stands for the
      CastError a malformed string raises. */
  function CastId(s: string): (r: Option<Id>)
    ensures r.Some? <==> IsObjectId(s)
    ensures r.Some? ==> IsCanonicalId(r.value) && |r.value| == |s|
    ensures r.Some? ==> forall i :: 0 <= i < |s| ==> r.value[i] == LowerHex(s[i])
  {
    if IsObjectId(s) then Some(seq(|s|, i requires 0 <= i < |s| => LowerHex(s[i])))
    else None
  }

  /** A stored id's own text casts back to that id. */
  lemma CastCanonical(s: string)
    requires IsCanonicalId(s)
    ensures CastId(s) == Some(s)
  {
    assert IsObjectId(s);
    assert CastId(s).value == s;
  }

  /** Casting is idempotent: a cast id is already canonical. */
  lemma CastTwice(s: string)
    requires IsObjectId(s)
    ensures CastId(CastId(s).value) == CastId(s)
  {
    CastCanonical(CastId(s).value);
  }

  /** The position of the first element satisfying `p`, as a collection's
      `findOne` scans documents in natural order. */
  function FirstWhere<T>(xs: seq<T>, p: T -> bool): (r: Option<nat>)
    ensures r.Some? ==> r.value < |xs| && p(xs[r.value])
    ensures r.Some? ==> forall j :: 0 <= j < r.value ==> !p(xs[j])
    ensures r.None? <==> forall j :: 0 <= j < |xs| ==> !p(xs[j])
    decreases |xs|
  {
    if |xs| == 0 then None
    else if p(xs[0]) then Some(0)
    else
      match FirstWhere(xs[1..], p)
      case None => None
      case Some(k) => Some(k + 1)
  }

  /** The elements satisfying `p`, in their original order (a `find` with a
      filter, before sorting). */
  function Filter<T>(xs: seq<T>, p: T -> bool): (r: seq<T>)
    ensures |r| <= |xs|
    ensures forall i :: 0 <= i < |r| ==> r[i] in xs && p(r[i])
    ensures forall i :: 0 <= i < |xs| && p(xs[i]) ==> xs[i] in r
    decreases |xs|
  {
    if |xs| == 0 then []
    else if p(xs[0]) then [xs[0]] + Filter(xs[1..], p)
    else Filter(xs[1..], p)
  }

  /** Membership in a filtered collection, both ways. */
  lemma FilterMember<T>(xs: seq<T>, p: T -> bool, x: T)
    ensures x in Filter(xs, p) <==> x in xs && p(x)
  {
    var r := Filter(xs, p);
    if x in r {
      var i :| 0 <= i < |r| && r[i] == x;
    }
    if x in xs && p(x) {
      var i :| 0 <= i < |xs| && xs[i] == x;
    }
  }

  /** Filtering distributes over concatenation, so a document appended to
      a collection shows up last among the matches iff it matches. */
  lemma {:induction false} FilterAppend<T>(xs: seq<T>, ys: seq<T>, p: T -> bool)
    ensures Filter(xs + ys, p) == Filter(xs, p) + Filter(ys, p)
    decreases |xs|
  {
    if |xs| == 0 {
      assert xs + ys == ys;
    } else {
      assert (xs + ys)[1..] == xs[1..] + ys;
      FilterAppend(xs[1..], ys, p);
    }
  }

  /** Removes the element at position `k`; every other element keeps its order. */
  function RemoveAt<T>(xs: seq<T>, k: nat): (r: seq<T>)
    requires k < |xs|
    ensures |r| == |xs| - 1
    ensures forall i :: 0 <= i < k ==> r[i] == xs[i]
    ensures forall i :: k <= i < |r| ==> r[i] == xs[i + 1]
  {
    xs[..k] + xs[k + 1..]
  }
}
