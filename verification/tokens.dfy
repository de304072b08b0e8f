/** `signToken` and the part of `jwt.verify` the middleware depends on, with
    the token as an abstract record instead of signed bytes. */
module Tokens {
  import opened Common

  /** `expiresIn: "7d"`, in seconds. */
  const Lifetime: int := 7 * 24 * 60 * 60

  /** A JSON Web Token as the verifier sees it: the payload claims
      `{ id, role, iat, exp }` (seconds since the epoch) and whether the
      signature matches the server's secret. */
  datatype Token = Token(id: Id, role: Role, iat: int, exp: int, signatureOk: bool)

  /** `jwt.sign({ id, role }, secret, { expiresIn: "7d" })` at `nowMs`
      milliseconds: `iat` is the current second and `exp` lies seven days
      later. */
  function SignToken(id: Id, role: Role, nowMs: int): (t: Token)
    ensures t.id == id && t.role == role && t.signatureOk
    ensures t.exp - t.iat == Lifetime
    ensures t.iat * 1000 <= nowMs < t.iat * 1000 + 1000
  {
    var iat := nowMs / 1000;
    Token(id, role, iat, iat + Lifetime, true)
  }

  datatype Verdict = Valid(id: Id, role: Role) | Expired | Invalid

  /** `jwt.verify` on a decoded token (`None`: the text is not a JWT). The
      signature is checked first, then the `exp` claim of section 4.1.4 of
      RFC 7519: the token is expired once the current second reaches `exp`. */
  function Verify(t: Option<Token>, nowMs: int): (v: Verdict)
    ensures t.None? || !t.value.signatureOk ==> v == Invalid
    ensures t.Some? && t.value.signatureOk ==> (v == Expired <==> nowMs / 1000 >= t.value.exp)
    ensures v.Valid? ==> v == Valid(t.value.id, t.value.role)
    ensures t.Some? && t.value.signatureOk && nowMs / 1000 < t.value.exp ==>
              v == Valid(t.value.id, t.value.role)
  {
    if t.None? || !t.value.signatureOk then Invalid
    else if nowMs / 1000 >= t.value.exp then Expired
    else Valid(t.value.id, t.value.role)
  }

  /** A freshly signed token verifies to its own claims for exactly seven
      days (counted in whole seconds) and is reported expired, never
      invalid, afterwards. */
  lemma SignThenVerify(id: Id, role: Role, signedMs: int, nowMs: int)
    ensures nowMs / 1000 < signedMs / 1000 + Lifetime ==>
              Verify(Some(SignToken(id, role, signedMs)), nowMs) == Valid(id, role)
    ensures nowMs / 1000 >= signedMs / 1000 + Lifetime ==>
              Verify(Some(SignToken(id, role, signedMs)), nowMs) == Expired
  {
  }

  /** Because `iat` is truncated to the second, a token lives between seven
      days less a second and seven days: it is valid at every instant at
      least a second before the seventh anniversary of its signing. */
  lemma ValidForSevenDays(id: Id, role: Role, signedMs: int, nowMs: int)
    requires signedMs <= nowMs && nowMs + 1000 <= signedMs + Lifetime * 1000
    ensures Verify(Some(SignToken(id, role, signedMs)), nowMs) == Valid(id, role)
  {
    var t := SignToken(id, role, signedMs);
    assert nowMs < t.exp * 1000 by {
      assert signedMs < t.iat * 1000 + 1000;
    }
    assert nowMs / 1000 < t.exp by {
      assert (nowMs / 1000) * 1000 <= nowMs;
    }
  }

  /** A signature mismatch is reported as invalid whatever the clock says. */
  lemma TamperedIsInvalid(t: Token, nowMs: int)
    requires !t.signatureOk
    ensures Verify(Some(t), nowMs) == Invalid
  {
  }
}
