/**
 * The `/api/users` handlers: get one or list all, create, partial update and
 * delete over the users table. Each handler takes the table and the parsed
 * request and gives back a status, a JSON body and the table afterwards.
 */
module UsersRoute {
  import opened Wrappers
  import opened Text
  import opened UserTable
  import opened UserSql

  /** The JSON bodies the handlers answer with. */
  datatype Body =
    | Error(error: string, details: Option<string>)   // { error, details? }
    | One(user: User)                                  // { user }
    | Saved(message: string, user: User)               // { message, user }
    | All(users: seq<User>, count: int)                // { users, count }
    | Removed(message: string, deletedId: int)         // { message, deletedId }

  datatype Reply = Reply(status: int, body: Body, db: Db)

  /**
   * The error taxonomy: 400 invalid input, 404 no such user, 409 duplicate
   * email, 500 store failure; a body carries `error` exactly on those.
   */
  predicate WellFormed(r: Reply) {
    && r.status in {200, 201, 400, 404, 409, 500}
    && (r.body.Error? <==> r.status >= 400)
  }

  // ---------------------------------------------------------------------------
  // GET /api/users[?id=]
  // ---------------------------------------------------------------------------

  /**
   * `id` is the parsed `id` query parameter, `None` when it is absent or
   * empty; with it the handler looks one user up, without it it lists all.
   */
  function Get(db: Db, id: Option<int>, fault: Fault): (r: Reply)
    requires Valid(db)
    ensures r.db == db && WellFormed(r)
    ensures r.status == 500 <==> fault.Some?
    ensures fault.None? && id.Some? ==>
      if id.value in db.rows then r == Reply(200, One(db.rows[id.value]), db)
      else r == Reply(404, Error("User not found", None), db)
    ensures fault.None? && id.None? ==>
      && r.status == 200 && r.body.All?
      && r.body.count == |r.body.users|
      && (forall x :: x in r.body.users ==> x.id in db.rows && db.rows[x.id] == x)
      && (forall k :: k in db.rows ==> db.rows[k] in r.body.users)
      && DistinctIds(r.body.users)
      && NewestFirst(r.body.users)
  {
    if id.Some? then
      match SelectById(db, id.value, fault)
      case Err(e) => Reply(500, Error("Database query failed", Some(Describe(e))), db)
      case Ok(None) => Reply(404, Error("User not found", None), db)
      case Ok(Some(u)) => Reply(200, One(u), db)
    else
      match SelectAll(db, fault)
      case Err(e) => Reply(500, Error("Database query failed", Some(Describe(e))), db)
      case Ok(users) => Reply(200, All(users, |users|), db)
  }

  // ---------------------------------------------------------------------------
  // POST /api/users    { email, name }
  // ---------------------------------------------------------------------------

  datatype CreateInput = CreateInput(email: Option<string>, name: Option<string>)

  /** Both required fields are present and non-empty. */
  predicate Complete(c: CreateInput) {
    Truthy(c.email) && Truthy(c.name)
  }

  /**
   * `input` is the parsed JSON body, or the error `request.json()` threw.
   * A duplicate email is the one store error answered with 409.
   */
  function Create(db: Db, input: Result<CreateInput, string>, now: Timestamp, fault: Fault): (r: Reply)
    requires Valid(db)
    ensures Valid(r.db) && WellFormed(r)
    ensures r.status == 400 <==> input.Ok? && !Complete(input.value)
    ensures r.status == 500 <==> input.Err? || (Complete(input.value) && fault.Some?)
    ensures r.status == 409 <==>
      input.Ok? && Complete(input.value) && fault.None? && EmailInUse(db, input.value.email.value)
    ensures r.status != 201 ==> r.db == db
    ensures r.status == 201 ==>
      && input.Ok? && r.body.Saved?
      && var u := r.body.user;
      && u.id == db.nextId && u.id >= 1 && u.id !in db.rows
      && u.email == input.value.email.value && u.name == input.value.name.value
      && u.createdAt == now && u.updatedAt == now
      && r.db.rows == db.rows[u.id := u]
  {
    match input
    case Err(e) => Reply(500, Error("Failed to create user", Some(e)), db)
    case Ok(req) =>
      if !Complete(req) then Reply(400, Error("Missing required fields: email and name", None), db)
      else
        match InsertReturning(db, req.email.value, req.name.value, now, fault)
        case Ok(ins) => Reply(201, Saved("User created successfully", ins.user), ins.db)
        case Err(UniqueViolation) => Reply(409, Error("A user with this email already exists", None), db)
        case Err(e) => Reply(500, Error("Failed to create user", Some(Describe(e))), db)
  }

  // ---------------------------------------------------------------------------
  // PUT /api/users    { id, name?, email? }
  // ---------------------------------------------------------------------------

  datatype UpdateInput = UpdateInput(id: Option<int>, name: Option<string>, email: Option<string>)

  /** JavaScript truthiness of an optional number: absent and 0 are both falsy. */
  predicate IdTruthy(id: Option<int>) {
    id.Some? && id.value != 0
  }

  /** At least one updatable field is present and non-empty. */
  predicate HasChanges(req: UpdateInput) {
    Truthy(req.name) || Truthy(req.email)
  }

  /** The input passes both validation steps, so an UPDATE reaches the store. */
  predicate Issues(input: Result<UpdateInput, string>) {
    input.Ok? && IdTruthy(input.value.id) && HasChanges(input.value)
  }

  /** The row after the update: the supplied fields replaced, `updated_at` refreshed. */
  function Patched(u: User, req: UpdateInput, now: Timestamp): User {
    u.(name := if Truthy(req.name) then req.name.value else u.name,
       email := if Truthy(req.email) then req.email.value else u.email,
       updatedAt := now)
  }

  /**
   * What PUT does, field patch by field patch. Every store error, a duplicate
   * email included, is answered with 500.
   */
  function UpdateOutcome(db: Db, input: Result<UpdateInput, string>, now: Timestamp, fault: Fault): (r: Reply)
    requires Valid(db)
    ensures Valid(r.db) && WellFormed(r)
    ensures r.status != 201 && r.status != 409
    ensures r.status != 200 ==> r.db == db
    ensures input.Err? || (Issues(input) && fault.Some?) ==> r.status == 500
    ensures r.status == 400 <==> input.Ok? && (!IdTruthy(input.value.id) || !HasChanges(input.value))
    ensures r.status == 404 <==> Issues(input) && fault.None? && input.value.id.value !in db.rows
    ensures r.status == 200 ==>
      && Issues(input) && input.value.id.value in db.rows && r.body.Saved?
      && var req := input.value;
      && var before := db.rows[req.id.value];
      && var u := r.body.user;
      && u.id == before.id && u.createdAt == before.createdAt && u.updatedAt == now
      && u.name == (if Truthy(req.name) then req.name.value else before.name)
      && u.email == (if Truthy(req.email) then req.email.value else before.email)
      && r.db == db.(rows := db.rows[req.id.value := u])
    ensures Issues(input) && fault.None? && input.value.id.value in db.rows ==>
      (r.status == 500 <==> EmailInUseByOther(db, Patched(db.rows[input.value.id.value], input.value, now).email, input.value.id.value))
  {
    match input
    case Err(e) => Reply(500, Error("Failed to update user", Some(e)), db)
    case Ok(req) =>
      if !IdTruthy(req.id) then Reply(400, Error("Missing required field: id", None), db)
      else if !HasChanges(req) then Reply(400, Error("No fields to update", None), db)
      else if fault.Some? then Reply(500, Error("Failed to update user", Some(fault.value)), db)
      else if req.id.value !in db.rows then Reply(404, Error("User not found", None), db)
      else
        var u := Patched(db.rows[req.id.value], req, now);
        if EmailInUseByOther(db, u.email, req.id.value) then
          Reply(500, Error("Failed to update user", Some(Describe(UniqueViolation))), db)
        else Reply(200, Saved("User updated", u), db.(rows := db.rows[req.id.value := u]))
  }

  /** The SET assignments for the supplied fields, name before email. */
  ghost function SuppliedSets(req: UpdateInput): seq<string> {
    (if Truthy(req.name) then [SetName] else []) + (if Truthy(req.email) then [SetEmail] else [])
  }

  /** The values bound to those assignments, in the same order. */
  ghost function SuppliedValues(req: UpdateInput): seq<Param> {
    (if Truthy(req.name) then [Text(req.name.value)] else [])
    + (if Truthy(req.email) then [Text(req.email.value)] else [])
  }

  /** The statement PUT sends: the supplied fields, then `updated_at`, with the id bound last. */
  ghost function Statement(req: UpdateInput): UpdateStatement
    requires IdTruthy(req.id)
  {
    UpdateStatement(SuppliedSets(req) + [TouchUpdatedAt], SuppliedValues(req) + [Integer(req.id.value)])
  }

  /** How PUT answers what the store did with its UPDATE. */
  function UpdateReply(db: Db, result: Result<Updated, DbError>): Reply {
    match result
    case Err(e) => Reply(500, Error("Failed to update user", Some(Describe(e))), db)
    case Ok(Updated(None, _)) => Reply(404, Error("User not found", None), db)
    case Ok(Updated(Some(u), after)) => Reply(200, Saved("User updated", u), after)
  }

  /** The SET list has one placeholder per value bound to it. */
  lemma SuppliedSetsPlaceholders(req: UpdateInput)
    ensures TotalOccurrences(SuppliedSets(req), '?') == |SuppliedValues(req)|
  {
    var sets := SuppliedSets(req);
    SetNamePlaceholders();
    SetEmailPlaceholders();
    if Truthy(req.name) && Truthy(req.email) {
      assert sets == [SetName] + [SetEmail];
      TotalOccurrencesAppend([SetName], SetEmail, '?');
      assert [SetName][1..] == [];
    } else if sets != [] {
      assert sets[1..] == [];
    }
  }

  /** Applied to a row, the SET list patches exactly the supplied fields and refreshes `updated_at`. */
  lemma {:induction false} SuppliedSetsApply(u: User, req: UpdateInput, now: Timestamp)
    requires HasChanges(req)
    ensures ApplyAssignments(u, SuppliedSets(req) + [TouchUpdatedAt], SuppliedValues(req), now)
         == Some(Patched(u, req, now))
  {
    var sets := SuppliedSets(req);
    var values := SuppliedValues(req);
    var patched := Patched(u, req, now);
    AssignmentsDiffer();
    assert ApplyAssignments(patched, [], [], now) == Some(patched);
    assert ApplyAssignments(patched.(updatedAt := u.updatedAt), [TouchUpdatedAt], [], now) == Some(patched) by {
      assert [TouchUpdatedAt][1..] == [];
    }
    if Truthy(req.name) && Truthy(req.email) {
      assert sets == [SetName] + [SetEmail];
      var named := u.(name := req.name.value);
      assert ApplyAssignments(named, [SetEmail, TouchUpdatedAt], [Text(req.email.value)], now) == Some(patched) by {
        assert [SetEmail, TouchUpdatedAt][1..] == [TouchUpdatedAt];
        assert [Text(req.email.value)][1..] == [];
      }
      assert (sets + [TouchUpdatedAt])[1..] == [SetEmail, TouchUpdatedAt];
      assert values[1..] == [Text(req.email.value)];
    } else if Truthy(req.name) {
      assert sets == [SetName] && sets[1..] == [];
      assert (sets + [TouchUpdatedAt])[1..] == [TouchUpdatedAt];
      assert values[1..] == [];
    } else {
      assert sets == [SetEmail] && sets[1..] == [];
      assert (sets + [TouchUpdatedAt])[1..] == [TouchUpdatedAt];
      assert values[1..] == [];
    }
  }

  /** The statement PUT builds binds exactly one value per placeholder, the id last. */
  lemma StatementBindsAll(req: UpdateInput)
    requires Issues(Ok(req))
    ensures Placeholders(UpdateSql(Statement(req).assignments)) == |Statement(req).params|
  {
    var stmt := Statement(req);
    UpdatePlaceholders(stmt.assignments);
    TotalOccurrencesAppend(SuppliedSets(req), TouchUpdatedAt, '?');
    TouchPlaceholders();
    SuppliedSetsPlaceholders(req);
  }

  /**
   * The store running the statement PUT builds gives exactly the field-patch
   * outcome: the SQL text and the typed patch agree.
   */
  lemma StatementMeansPatch(db: Db, req: UpdateInput, now: Timestamp, fault: Fault)
    requires Valid(db) && Issues(Ok(req))
    ensures UpdateReply(db, UpdateReturning(db, Statement(req), now, fault)) == UpdateOutcome(db, Ok(req), now, fault)
  {
    var stmt := Statement(req);
    var id := req.id.value;
    StatementBindsAll(req);
    assert stmt.params[|stmt.params| - 1] == Integer(id);
    assert stmt.params[..|stmt.params| - 1] == SuppliedValues(req);
    if fault.None? && id in db.rows {
      SuppliedSetsApply(db.rows[id], req, now);
    }
  }

  /**
   * PUT as the handler runs it: the SET list and its bound values are built
   * up step by step, `updated_at` is appended and the id bound last, and one
   * UPDATE is sent. `issued` is that statement, when one is sent.
   */
  method Update(db: Db, input: Result<UpdateInput, string>, now: Timestamp, fault: Fault)
    returns (reply: Reply, issued: Option<UpdateStatement>)
    requires Valid(db)
    ensures reply == UpdateOutcome(db, input, now, fault)
    ensures issued.Some? <==> Issues(input)
    ensures issued.Some? ==>
      && var stmt := issued.value;
      && Placeholders(UpdateSql(stmt.assignments)) == |stmt.params| == |stmt.assignments| > 0
      && stmt.params[|stmt.params| - 1] == Integer(input.value.id.value)
      && stmt.assignments[|stmt.assignments| - 1] == TouchUpdatedAt
  {
    issued := None;
    if input.Err? {
      reply := Reply(500, Error("Failed to update user", Some(input.error)), db);
      return;
    }
    var req := input.value;
    if !IdTruthy(req.id) {
      reply := Reply(400, Error("Missing required field: id", None), db);
      return;
    }
    var id := req.id.value;

    var updates: seq<string> := [];
    var values: seq<Param> := [];
    if Truthy(req.name) {
      updates := updates + [SetName];
      values := values + [Text(req.name.value)];
    }
    if Truthy(req.email) {
      updates := updates + [SetEmail];
      values := values + [Text(req.email.value)];
    }
    assert updates == SuppliedSets(req) && values == SuppliedValues(req);
    if |updates| == 0 {
      reply := Reply(400, Error("No fields to update", None), db);
      return;
    }

    updates := updates + [TouchUpdatedAt];
    values := values + [Integer(id)];

    var stmt := UpdateStatement(updates, values);
    assert stmt == Statement(req);
    StatementBindsAll(req);
    StatementMeansPatch(db, req, now, fault);
    issued := Some(stmt);
    reply := UpdateReply(db, UpdateReturning(db, stmt, now, fault));
  }

  // ---------------------------------------------------------------------------
  // DELETE /api/users?id=
  // ---------------------------------------------------------------------------

  /**
   * `id` is the parsed `id` query parameter, `None` when absent or empty. The
   * existence probe and the delete are two store calls, each with its own fault.
   */
  function Delete(db: Db, id: Option<int>, probeFault: Fault, deleteFault: Fault): (r: Reply)
    requires Valid(db)
    ensures Valid(r.db) && WellFormed(r)
    ensures r.status in {200, 400, 404, 500}
    ensures r.status == 400 <==> id.None?
    ensures r.status == 404 <==> id.Some? && probeFault.None? && id.value !in db.rows
    ensures r.status == 200 <==> id.Some? && probeFault.None? && deleteFault.None? && id.value in db.rows
    ensures r.status != 200 ==> r.db == db
    ensures r.status == 200 ==>
      && r.body == Removed("User deleted successfully", id.value)
      && r.db == db.(rows := db.rows - {id.value})
  {
    if id.None? then Reply(400, Error("Missing required parameter: id", None), db)
    else
      match SelectById(db, id.value, probeFault)
      case Err(e) => Reply(500, Error("Failed to delete user", Some(Describe(e))), db)
      case Ok(None) => Reply(404, Error("User not found", None), db)
      case Ok(Some(_)) =>
        match DeleteById(db, id.value, deleteFault)
        case Err(e) => Reply(500, Error("Failed to delete user", Some(Describe(e))), db)
        case Ok(after) => Reply(200, Removed("User deleted successfully", id.value), after)
  }

  // ---------------------------------------------------------------------------
  // Properties across requests
  // ---------------------------------------------------------------------------

  /** A user just created can be fetched by its id, with a positive id and the email and name given. */
  lemma CreateThenGet(db: Db, email: string, name: string, now: Timestamp)
    requires Valid(db) && email != "" && name != "" && !EmailInUse(db, email)
    ensures var c := Create(db, Ok(CreateInput(Some(email), Some(name))), now, None);
      && c.status == 201
      && var g := Get(c.db, Some(c.body.user.id), None);
      && g.status == 200 && g.body.user == c.body.user
      && g.body.user.id >= 1 && g.body.user.email == email && g.body.user.name == name
  {
  }

  /** Creating a second user with an email already taken is a conflict and adds no record. */
  lemma {:induction false} DuplicateCreateConflicts(db: Db, email: string, name: string, name2: string, now: Timestamp, later: Timestamp)
    requires Valid(db) && email != "" && name != "" && name2 != "" && !EmailInUse(db, email)
    ensures var c := Create(db, Ok(CreateInput(Some(email), Some(name))), now, None);
      && c.status == 201
      && var d := Create(c.db, Ok(CreateInput(Some(email), Some(name2))), later, None);
      && d.status == 409 && d.db == c.db
  {
    var c := Create(db, Ok(CreateInput(Some(email), Some(name))), now, None);
    assert c.db.rows[c.body.user.id].email == email;
  }

  /** Deleting is final: a second delete of the same id is answered 404. */
  lemma DeleteTwice(db: Db, id: int)
    requires Valid(db) && id in db.rows
    ensures var first := Delete(db, Some(id), None, None);
      && first.status == 200
      && first.body.deletedId == id
      && Delete(first.db, Some(id), None, None).status == 404
  {
  }

  /** The users table as the hosting store keeps it across sequential requests. */
  class UserDirectory {
    var db: Db

    ghost predicate Valid()
      reads this
    {
      UserTable.Valid(db)
    }

    constructor ()
      ensures Valid() && db == Empty()
    {
      db := Empty();
    }

    method HandleGet(id: Option<int>, fault: Fault) returns (status: int, body: Body)
      requires Valid()
      ensures Reply(status, body, db) == Get(db, id, fault)
    {
      var r := Get(db, id, fault);
      status, body := r.status, r.body;
    }

    method HandlePost(input: Result<CreateInput, string>, now: Timestamp, fault: Fault) returns (status: int, body: Body)
      requires Valid()
      modifies this
      ensures Valid()
      ensures Reply(status, body, db) == Create(old(db), input, now, fault)
    {
      var r := Create(db, input, now, fault);
      status, body, db := r.status, r.body, r.db;
    }

    method HandlePut(input: Result<UpdateInput, string>, now: Timestamp, fault: Fault) returns (status: int, body: Body)
      requires Valid()
      modifies this
      ensures Valid()
      ensures Reply(status, body, db) == UpdateOutcome(old(db), input, now, fault)
    {
      var r, _ := Update(db, input, now, fault);
      status, body, db := r.status, r.body, r.db;
    }

    method HandleDelete(id: Option<int>, probeFault: Fault, deleteFault: Fault) returns (status: int, body: Body)
      requires Valid()
      modifies this
      ensures Valid()
      ensures Reply(status, body, db) == Delete(old(db), id, probeFault, deleteFault)
    {
      var r := Delete(db, id, probeFault, deleteFault);
      status, body, db := r.status, r.body, r.db;
    }
  }

  /** Create, duplicate create, rename, delete, delete again, on a fresh table. */
  method Scenario() {
    var users := new UserDirectory();
    var alice := CreateInput(Some("a@x.com"), Some("A"));
    var status, body := users.HandlePost(Ok(alice), 1000, None);
    assert status == 201 && body.user.id == 1;
    assert users.db.rows[1].email == "a@x.com";
    status, body := users.HandlePost(Ok(alice), 1001, None);
    assert status == 409;
    status, body := users.HandlePut(Ok(UpdateInput(Some(1), Some("B"), None)), 1002, None);
    assert status == 200 && body.user.name == "B" && body.user.email == "a@x.com";
    status, body := users.HandleDelete(Some(1), None, None);
    assert status == 200 && body.deletedId == 1;
    status, body := users.HandleDelete(Some(1), None, None);
    assert status == 404;
  }
}
