/** The two MongoDB collections the backend routes share, as sequences in
    natural order, with the lookups the handlers perform. */
module Store {
  import opened Common
  import opened UserModel
  import opened FoodLogModel

  datatype Db = Db(users: seq<User>, logs: seq<FoodLog>)

  /** What a handler produces: its HTTP reply and the store afterwards. */
  datatype Outcome<T> = Outcome(reply: Reply<T>, db: Db)

  /** `User.findById(id)`: the position of the document with that id. */
  function FindUser(users: seq<User>, id: Id): (r: Option<nat>)
    ensures r.Some? ==> r.value < |users| && users[r.value].id == id
    ensures r.Some? ==> forall j :: 0 <= j < r.value ==> users[j].id != id
    ensures r.None? <==> forall j :: 0 <= j < |users| ==> users[j].id != id
  {
    FirstWhere(users, (u: User) => u.id == id)
  }

  /** `User.findOne({ email })`; the filter goes through the same setters
      as the stored field. */
  function FindByEmail(users: seq<User>, email: string): (r: Option<nat>)
    ensures r.Some? ==> r.value < |users| && users[r.value].email == NormalizeEmail(email)
    ensures r.Some? ==> forall j :: 0 <= j < r.value ==> users[j].email != NormalizeEmail(email)
    ensures r.None? <==> forall j :: 0 <= j < |users| ==> users[j].email != NormalizeEmail(email)
  {
    var e := NormalizeEmail(email);
    FirstWhere(users, (u: User) => u.email == e)
  }

  /** A document inserted with a new id is the one `findById` returns. */
  lemma FindAppended(users: seq<User>, u: User)
    requires FindUser(users, u.id).None?
    ensures FindUser(users + [u], u.id) == Some(|users|)
  {
    var r := users + [u];
    assert forall j :: 0 <= j < |users| ==> r[j].id == users[j].id;
    var f := FindUser(r, u.id);
    assert r[|users|].id == u.id;
    assert f.Some?;
    assert f.value >= |users|;
  }

  predicate UniqueIds(users: seq<User>)
  {
    forall i, j :: 0 <= i < j < |users| ==> users[i].id != users[j].id
  }

  predicate UniqueEmails(users: seq<User>)
  {
    forall i, j :: 0 <= i < j < |users| ==> users[i].email != users[j].email
  }

  /** The invariants the schema and its unique index keep on the users
      collection. */
  predicate ValidUsers(users: seq<User>)
  {
    && UniqueIds(users)
    && UniqueEmails(users)
    && forall i :: 0 <= i < |users| ==> WellFormed(users[i])
  }

  /** With unique ids the lookup finds the one document carrying the id. */
  lemma FindUserUnique(users: seq<User>, id: Id, k: nat)
    requires UniqueIds(users) && k < |users|
    ensures FindUser(users, id) == Some(k) <==> users[k].id == id
  {
  }

  /** Replacing one document by another with the same id and email keeps
      the collection's invariants. */
  lemma ReplaceKeepsValid(users: seq<User>, k: nat, u: User)
    requires ValidUsers(users) && k < |users|
    requires u.id == users[k].id && u.email == users[k].email && WellFormed(u)
    ensures ValidUsers(users[k := u])
  {
    var r := users[k := u];
    forall i, j | 0 <= i < j < |r|
      ensures r[i].id != r[j].id && r[i].email != r[j].email
    {
      assert r[i].id == users[i].id && r[i].email == users[i].email;
      assert r[j].id == users[j].id && r[j].email == users[j].email;
    }
    forall i | 0 <= i < |r|
      ensures WellFormed(r[i])
    {
      if i != k {
        assert r[i] == users[i];
      }
    }
  }

  /** Inserting a well-formed document whose id and email are both new
      keeps the collection's invariants. */
  lemma AppendKeepsValid(users: seq<User>, u: User)
    requires ValidUsers(users) && WellFormed(u)
    requires forall j :: 0 <= j < |users| ==> users[j].id != u.id && users[j].email != u.email
    ensures ValidUsers(users + [u])
  {
    var r := users + [u];
    forall i, j | 0 <= i < j < |r|
      ensures r[i].id != r[j].id && r[i].email != r[j].email
    {
      assert r[i] == users[i];
    }
    forall i | 0 <= i < |r|
      ensures WellFormed(r[i])
    {
      if i < |users| {
        assert r[i] == users[i];
      }
    }
  }
}
