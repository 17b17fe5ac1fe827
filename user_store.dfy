/**
 * The in-memory user table held by the user resource: a map from an email
 * address to the `User` stored under it, and the four request handlers
 * (create, get, delete, update) as transitions on that map. Each handler
 * yields the new table and the response: an HTTP status plus an optional
 * body. The class in module UserResource performs these same steps in place
 * on its field; the functions here are what its methods are proved against,
 * and what the lemmas about sequences of requests are stated over.
 */
module UserStore {

  datatype Option<+T> = None | Some(value: T)

  /**
   * A user record. Only the email is inspected by the store; the remaining
   * properties of the record are carried as an uninterpreted profile.
   */
  datatype User = User(email: string, profile: map<string, string>)

  /** The table: email -> stored user. */
  type Table = map<string, User>

  /** The four statuses the handlers produce. */
  datatype Status = Ok | Created | NotFound | Conflict {
    /** The numeric HTTP status code. */
    function Code(): int {
      match this
      case Ok => 200
      case Created => 201
      case NotFound => 404
      case Conflict => 409
    }
  }

  /** A response: status and optional user body. */
  datatype Response = Response(status: Status, body: Option<User>)

  /** The effect of one handler: the table afterwards and the response. */
  datatype Outcome = Outcome(table: Table, response: Response)

  /** What `Map.get` gives back: the stored value, or nothing (Java's null). */
  function Find(m: Table, email: string): (r: Option<User>)
    ensures r.Some? <==> email in m
    ensures r.Some? ==> r.value == m[email]
  {
    if email in m then Some(m[email]) else None
  }

  /**
   * POST: insert the user under its own email unless that email is already
   * a key. The table gains exactly the key user.email and keeps every
   * value it had; on conflict nothing is stored and no body is returned.
   */
  function CreateUser(m: Table, user: User): (s: Outcome)
    ensures s.table.Keys == m.Keys + {user.email}
    ensures forall k :: k in m ==> s.table[k] == m[k]
    ensures s.response.status == Created <==> user.email !in m
    ensures s.response.status == Conflict <==> user.email in m
    ensures s.response.status == Created ==>
              s.response.body == Some(user) && s.table[user.email] == user
              && s.table[user.email].email == user.email
    ensures s.response.status == Conflict ==> s.response.body == None
  {
    if user.email in m then
      Outcome(m, Response(Conflict, None))
    else
      Outcome(m[user.email := user], Response(Created, Some(user)))
  }

  /** GET: the stored user with 200, or 404 without a body. */
  function GetUser(m: Table, email: string): (r: Response)
    ensures r.status == Ok <==> email in m
    ensures r.status == NotFound <==> email !in m
    ensures r.body.Some? <==> email in m
    ensures r.body.Some? ==> r.body.value == m[email]
  {
    match Find(m, email)
    case None => Response(NotFound, None)
    case Some(user) => Response(Ok, Some(user))
  }

  /**
   * DELETE: remove the entry for email (a no-op when absent); 200 with the
   * removed user when there was one, else 404 without a body. Every other
   * entry keeps its value.
   */
  function DeleteUser(m: Table, email: string): (s: Outcome)
    ensures s.table.Keys == m.Keys - {email}
    ensures forall k :: k in s.table ==> s.table[k] == m[k]
    ensures s.response.status == Ok <==> email in m
    ensures s.response.status == NotFound <==> email !in m
    ensures email in m ==> s.response.body == Some(m[email])
    ensures email !in m ==> s.response.body == None
  {
    var user := Find(m, email);
    var m' := m - {email};
    match user
    case None => Outcome(m', Response(NotFound, None))
    case Some(u) => Outcome(m', Response(Ok, Some(u)))
  }

  /**
   * PUT: replace the entry stored under the path email, whatever the body's
   * own email is, provided there is one; otherwise 404 and no insertion.
   * The key set never changes and no other key's value changes.
   */
  function UpdateUser(m: Table, email: string, user: User): (s: Outcome)
    ensures s.table.Keys == m.Keys
    ensures forall k :: k in m && k != email ==> s.table[k] == m[k]
    ensures s.response.status == Ok <==> email in m
    ensures s.response.status == NotFound <==> email !in m
    ensures email in m ==> s.table[email] == user && s.response.body == Some(user)
    ensures email !in m ==> s.table == m && s.response.body == None
  {
    match Find(m, email)
    case None => Outcome(m, Response(NotFound, None))
    case Some(_) => Outcome(m[email := user], Response(Ok, Some(user)))
  }

  // ---------------------------------------------------------------------
  // Sequences of requests

  /** One request to the resource, as routed by method and path. */
  datatype Request =
    | Post(user: User)
    | Get(email: string)
    | Delete(email: string)
    | Put(email: string, user: User)

  /** The table key a request addresses. */
  function Key(req: Request): string {
    match req
    case Post(u) => u.email
    case Get(e) => e
    case Delete(e) => e
    case Put(e, _) => e
  }

  /** Dispatch one request to its handler. */
  function Apply(m: Table, req: Request): Outcome {
    match req
    case Post(u) => CreateUser(m, u)
    case Get(e) => Outcome(m, GetUser(m, e))
    case Delete(e) => DeleteUser(m, e)
    case Put(e, u) => UpdateUser(m, e, u)
  }

  /** The final table and the responses of a sequence of requests. */
  datatype Trace = Trace(table: Table, responses: seq<Response>)

  /** Handle the requests one after the other, starting from table m. */
  function Run(m: Table, reqs: seq<Request>): (t: Trace)
    ensures |t.responses| == |reqs|
    ensures t.table.Keys <= m.Keys + set i | 0 <= i < |reqs| :: Key(reqs[i])
    decreases |reqs|
  {
    if reqs == [] then Trace(m, [])
    else
      var o := Apply(m, reqs[0]);
      var t := Run(o.table, reqs[1..]);
      assert forall i :: 0 <= i < |reqs| - 1 ==> reqs[1..][i] == reqs[i + 1];
      Trace(t.table, [o.response] + t.responses)
  }

  // ---------------------------------------------------------------------
  // Keying of stored users by their own email

  /** The entry under k, if any, is a user whose own email is k. */
  predicate KeyedByOwnEmail(m: Table, k: string) {
    k in m ==> m[k].email == k
  }

  /** Every entry is keyed by its own email. */
  predicate SelfKeyed(m: Table) {
    forall k :: k in m ==> KeyedByOwnEmail(m, k)
  }

  /** A request whose body, if any, carries the email it is filed under. */
  predicate Consistent(req: Request) {
    req.Put? ==> req.user.email == req.email
  }

  /** Create, get, delete and a consistent update keep every entry self-keyed. */
  lemma ApplyPreservesSelfKeyed(m: Table, req: Request)
    requires SelfKeyed(m)
    requires Consistent(req)
    ensures SelfKeyed(Apply(m, req).table)
  {
  }

  /**
   * Starting from a self-keyed table (the empty one, say), any sequence of
   * requests whose updates name the body's email keeps the table self-keyed.
   */
  lemma {:induction false} RunPreservesSelfKeyed(m: Table, reqs: seq<Request>)
    requires SelfKeyed(m)
    requires forall i :: 0 <= i < |reqs| ==> Consistent(reqs[i])
    ensures SelfKeyed(Run(m, reqs).table)
    decreases |reqs|
  {
    if reqs != [] {
      ApplyPreservesSelfKeyed(m, reqs[0]);
      var o := Apply(m, reqs[0]);
      assert forall i :: 0 <= i < |reqs| - 1 ==> reqs[1..][i] == reqs[i + 1];
      RunPreservesSelfKeyed(o.table, reqs[1..]);
    }
  }

  /**
   * An update filed under one email with a body carrying another succeeds
   * and leaves an entry whose key differs from its own email.
   */
  lemma UpdateMayBreakSelfKeyed()
    ensures var a := User("a@x.com", map[]);
            var b := User("b@x.com", map[]);
            var s := UpdateUser(map["a@x.com" := a], "a@x.com", b);
            SelfKeyed(map["a@x.com" := a])
            && s.response == Response(Ok, Some(b))
            && !SelfKeyed(s.table)
  {
  }

  // ---------------------------------------------------------------------
  // Properties relating several requests

  /**
   * A sequence of requests none of which addresses key k leaves the entry
   * under k exactly as it was: present or absent, with the same value.
   */
  lemma {:induction false} RunLeavesOtherKeys(m: Table, reqs: seq<Request>, k: string)
    requires forall i :: 0 <= i < |reqs| ==> Key(reqs[i]) != k
    ensures k in Run(m, reqs).table <==> k in m
    ensures k in m ==> Run(m, reqs).table[k] == m[k]
    decreases |reqs|
  {
    if reqs != [] {
      var o := Apply(m, reqs[0]);
      assert k in o.table <==> k in m;
      assert k in m ==> o.table[k] == m[k];
      assert forall i :: 0 <= i < |reqs| - 1 ==> reqs[1..][i] == reqs[i + 1];
      RunLeavesOtherKeys(o.table, reqs[1..], k);
    }
  }

  /** Without a create among them, requests never add a key to the table. */
  lemma {:induction false} RunWithoutPostInsertsNothing(m: Table, reqs: seq<Request>)
    requires forall i :: 0 <= i < |reqs| ==> !reqs[i].Post?
    ensures Run(m, reqs).table.Keys <= m.Keys
    decreases |reqs|
  {
    if reqs != [] {
      var o := Apply(m, reqs[0]);
      assert o.table.Keys <= m.Keys;
      assert forall i :: 0 <= i < |reqs| - 1 ==> reqs[1..][i] == reqs[i + 1];
      RunWithoutPostInsertsNothing(o.table, reqs[1..]);
    }
  }

  /**
   * A create succeeds at most once per email: a second create with the same
   * email, whatever its other fields, is a conflict and the first user stays.
   */
  lemma SecondCreateConflicts(m: Table, first: User, second: User)
    requires first.email !in m
    requires second.email == first.email
    ensures var s1 := CreateUser(m, first);
            var s2 := CreateUser(s1.table, second);
            s1.response.status == Created
            && s2.response == Response(Conflict, None)
            && s2.table == s1.table
            && s2.table[first.email] == first
  {
  }

  /** Fetching an email that is not a key is a 404. */
  lemma GetAbsentIsNotFound(m: Table, email: string)
    requires email !in m
    ensures GetUser(m, email) == Response(NotFound, None)
  {
  }

  /**
   * After a delete, a get of the same email is a 404 and a second delete is
   * a 404 that changes nothing.
   */
  lemma DeleteIsFinal(m: Table, email: string)
    ensures var d := DeleteUser(m, email);
            GetUser(d.table, email) == Response(NotFound, None)
            && DeleteUser(d.table, email) == Outcome(d.table, Response(NotFound, None))
  {
  }

  /** After a successful update, a get of the path email returns the new user. */
  lemma UpdateThenGet(m: Table, email: string, user: User)
    requires email in m
    ensures GetUser(UpdateUser(m, email, user).table, email) == Response(Ok, Some(user))
  {
  }

  /** Deleting what a create just stored restores the table and returns the user. */
  lemma CreateThenDelete(m: Table, user: User)
    requires user.email !in m
    ensures var c := CreateUser(m, user);
            DeleteUser(c.table, user.email) == Outcome(m, Response(Ok, Some(user)))
  {
  }

  /**
   * Re-creating the user a delete returned restores the table, when that
   * user was keyed by its own email.
   */
  lemma DeleteThenCreate(m: Table, email: string)
    requires email in m
    requires KeyedByOwnEmail(m, email)
    ensures var d := DeleteUser(m, email);
            CreateUser(d.table, m[email]) == Outcome(m, Response(Created, Some(m[email])))
  {
  }

  /**
   * Create, repeat the create, fetch, update, delete, fetch again: the
   * statuses are 201, 409, 200, 200, 200 and 404.
   */
  lemma CrudScenario()
    ensures var a := User("a@x.com", map["name" := "A"]);
            var b := User("a@x.com", map["name" := "B"]);
            var t := Run(map[], [Post(a), Post(a), Get("a@x.com"), Put("a@x.com", b),
                                 Delete("a@x.com"), Get("a@x.com")]);
            t.table == map[]
            && t.responses == [Response(Created, Some(a)), Response(Conflict, None),
                               Response(Ok, Some(a)), Response(Ok, Some(b)),
                               Response(Ok, Some(b)), Response(NotFound, None)]
  {
    var a := User("a@x.com", map["name" := "A"]);
    var b := User("a@x.com", map["name" := "B"]);
    var reqs := [Post(a), Post(a), Get("a@x.com"), Put("a@x.com", b),
                 Delete("a@x.com"), Get("a@x.com")];
    var m1 := map["a@x.com" := a];
    var m2 := map["a@x.com" := b];
    assert Apply(map[], reqs[0]) == Outcome(m1, Response(Created, Some(a)));
    assert Apply(m1, reqs[1]) == Outcome(m1, Response(Conflict, None));
    assert Apply(m1, reqs[2]) == Outcome(m1, Response(Ok, Some(a)));
    assert Apply(m1, reqs[3]) == Outcome(m2, Response(Ok, Some(b)));
    assert Apply(m2, reqs[4]) == Outcome(map[], Response(Ok, Some(b)));
    assert Apply(map[], reqs[5]) == Outcome(map[], Response(NotFound, None));
    assert reqs[5..] == [reqs[5]];
    assert reqs[5..][1..] == [];
    var r := [Response(NotFound, None)];
    assert Run(map[], reqs[5..]) == Trace(map[], r);
    assert reqs[4..][1..] == reqs[5..];
    r := [Response(Ok, Some(b))] + r;
    assert Run(m2, reqs[4..]) == Trace(map[], r);
    assert reqs[3..][1..] == reqs[4..];
    r := [Response(Ok, Some(b))] + r;
    assert Run(m1, reqs[3..]) == Trace(map[], r);
    assert reqs[2..][1..] == reqs[3..];
    r := [Response(Ok, Some(a))] + r;
    assert Run(m1, reqs[2..]) == Trace(map[], r);
    assert reqs[1..][1..] == reqs[2..];
    r := [Response(Conflict, None)] + r;
    assert Run(m1, reqs[1..]) == Trace(map[], r);
  }
}
