/**
 * An in-memory model of the `users` table of the relational store, reached
 * through the four kinds of statement the users handlers send: select one row
 * by id, select all rows newest first, insert returning the row, update
 * returning the row, and delete by id. Each call takes a `Fault`: `Some(msg)`
 * means the store rejects the call with an unclassified error.
 */
module UserTable {
  import opened Wrappers
  import opened UserSql

  /** A store timestamp; only its order matters to the handlers. */
  type Timestamp = int

  datatype User = User(id: int, email: string, name: string, createdAt: Timestamp, updatedAt: Timestamp)

  /** The table: rows by primary key, and the id the next insert is assigned. */
  datatype Db = Db(rows: map<int, User>, nextId: int)

  /** Why the store rejected a call: the unique index on `email`, or anything else. */
  datatype DbError = UniqueViolation | Failure(message: string)

  /** `Some(message)` when the store call throws for a reason of its own. */
  type Fault = Option<string>

  /** The text the store reports for a duplicate email. */
  const UniqueEmailMessage := "UNIQUE constraint failed: users.email"

  /** What `String(error)` shows of a store error. */
  function Describe(e: DbError): string {
    match e
    case UniqueViolation => UniqueEmailMessage
    case Failure(m) => m
  }

  /**
   * The table's own invariants: rows are keyed by their id, ids are positive
   * and below the next id, and no two rows share an email.
   */
  predicate Valid(db: Db) {
    && db.nextId >= 1
    && (forall k :: k in db.rows ==> 1 <= k < db.nextId && db.rows[k].id == k)
    && (forall j, k :: j in db.rows && k in db.rows && j != k ==> db.rows[j].email != db.rows[k].email)
  }

  function Empty(): (db: Db)
    ensures Valid(db) && db.rows == map[]
  {
    Db(map[], 1)
  }

  predicate EmailInUse(db: Db, email: string) {
    exists k :: k in db.rows && db.rows[k].email == email
  }

  predicate EmailInUseByOther(db: Db, email: string, id: int) {
    exists k :: k in db.rows && k != id && db.rows[k].email == email
  }

  // ---------------------------------------------------------------------------
  // SELECT * FROM users WHERE id = ?    (.first())
  // ---------------------------------------------------------------------------

  function SelectById(db: Db, id: int, fault: Fault): (r: Result<Option<User>, DbError>)
    ensures r.Err? <==> fault.Some?
    ensures r.Ok? ==> (r.value.Some? <==> id in db.rows)
    ensures r.Ok? && r.value.Some? ==> r.value.value == db.rows[id]
    ensures Valid(db) && r.Ok? && r.value.Some? ==> r.value.value.id == id
  {
    if fault.Some? then Err(Failure(fault.value))
    else if id in db.rows then Ok(Some(db.rows[id]))
    else Ok(None)
  }

  // ---------------------------------------------------------------------------
  // SELECT * FROM users ORDER BY created_at DESC    (.all())
  // ---------------------------------------------------------------------------

  predicate DistinctIds(s: seq<User>) {
    forall i, j :: 0 <= i < j < |s| ==> s[i].id != s[j].id
  }

  /** Ordered by `created_at`, most recent first. */
  predicate NewestFirst(s: seq<User>) {
    forall i, j :: 0 <= i < j < |s| ==> s[i].createdAt >= s[j].createdAt
  }

  /** The rows whose id is below `n`, in id order. */
  function RowsBelow(rows: map<int, User>, n: int): (s: seq<User>)
    requires forall k :: k in rows ==> rows[k].id == k
    ensures forall x :: x in s ==> x.id in rows && rows[x.id] == x && 1 <= x.id < n
    ensures forall k :: k in rows && 1 <= k < n ==> rows[k] in s
    ensures DistinctIds(s)
    decreases n
  {
    if n <= 1 then []
    else
      var prefix := RowsBelow(rows, n - 1);
      prefix + (if n - 1 in rows then [rows[n - 1]] else [])
  }

  /** Inserts `u` into a sequence, before the first row no newer than it. */
  function InsertNewestFirst(u: User, s: seq<User>): (r: seq<User>)
    ensures multiset(r) == multiset(s) + multiset{u}
    decreases |s|
  {
    if s == [] || u.createdAt >= s[0].createdAt then [u] + s
    else
      var rest := InsertNewestFirst(u, s[1..]);
      assert s == [s[0]] + s[1..];
      [s[0]] + rest
  }

  lemma {:induction false} InsertKeepsNewestFirst(u: User, s: seq<User>)
    requires NewestFirst(s)
    ensures NewestFirst(InsertNewestFirst(u, s))
    decreases |s|
  {
    if s == [] || u.createdAt >= s[0].createdAt {
    } else {
      var rest := InsertNewestFirst(u, s[1..]);
      InsertKeepsNewestFirst(u, s[1..]);
      forall j | 0 <= j < |rest| ensures s[0].createdAt >= rest[j].createdAt {
        assert rest[j] in multiset(rest);
        if rest[j] != u {
          assert rest[j] in multiset(s[1..]);
          var k :| 0 <= k < |s[1..]| && s[1..][k] == rest[j];
          assert s[k + 1] == rest[j];
        }
      }
      var r := [s[0]] + rest;
      forall i, j | 0 <= i < j < |r| ensures r[i].createdAt >= r[j].createdAt {
        if i > 0 {
          assert r[i] == rest[i - 1] && r[j] == rest[j - 1];
        }
      }
    }
  }

  lemma {:induction false} InsertKeepsDistinct(u: User, s: seq<User>)
    requires DistinctIds(s)
    requires forall x :: x in s ==> x.id != u.id
    ensures DistinctIds(InsertNewestFirst(u, s))
    decreases |s|
  {
    var r := InsertNewestFirst(u, s);
    if s == [] || u.createdAt >= s[0].createdAt {
      forall i, j | 0 <= i < j < |r| ensures r[i].id != r[j].id {
        if i == 0 {
          assert r[j] == s[j - 1];
        } else {
          assert r[i] == s[i - 1] && r[j] == s[j - 1];
        }
      }
    } else {
      var rest := InsertNewestFirst(u, s[1..]);
      assert forall x :: x in s[1..] ==> x in s;
      InsertKeepsDistinct(u, s[1..]);
      forall j | 0 <= j < |rest| ensures rest[j].id != s[0].id {
        assert rest[j] in multiset(rest);
        if rest[j] != u {
          assert rest[j] in multiset(s[1..]);
          var k :| 0 <= k < |s[1..]| && s[1..][k] == rest[j];
          assert s[k + 1] == rest[j];
        }
      }
      forall i, j | 0 <= i < j < |r| ensures r[i].id != r[j].id {
        if i > 0 {
          assert r[i] == rest[i - 1] && r[j] == rest[j - 1];
        }
      }
    }
  }

  /** Insertion sort, newest first. */
  function SortNewestFirst(s: seq<User>): (r: seq<User>)
    ensures multiset(r) == multiset(s)
    decreases |s|
  {
    if s == [] then []
    else
      assert s == [s[0]] + s[1..];
      InsertNewestFirst(s[0], SortNewestFirst(s[1..]))
  }

  lemma {:induction false} SortIsNewestFirst(s: seq<User>)
    ensures NewestFirst(SortNewestFirst(s))
    ensures DistinctIds(s) ==> DistinctIds(SortNewestFirst(s))
    decreases |s|
  {
    if s != [] {
      var rest := SortNewestFirst(s[1..]);
      SortIsNewestFirst(s[1..]);
      InsertKeepsNewestFirst(s[0], rest);
      if DistinctIds(s) {
        forall x | x in rest ensures x.id != s[0].id {
          assert x in multiset(s[1..]);
          var k :| 0 <= k < |s[1..]| && s[1..][k] == x;
          assert s[k + 1] == x;
        }
        InsertKeepsDistinct(s[0], rest);
      }
    }
  }

  /**
   * Every row exactly once, most recently created first. Rows created at the
   * same instant come in an order the store may choose; this model picks one.
   */
  function AllNewestFirst(db: Db): (s: seq<User>)
    requires Valid(db)
    ensures forall x :: x in s ==> x.id in db.rows && db.rows[x.id] == x
    ensures forall k :: k in db.rows ==> db.rows[k] in s
    ensures DistinctIds(s)
    ensures NewestFirst(s)
  {
    var rows := RowsBelow(db.rows, db.nextId);
    var s := SortNewestFirst(rows);
    SortIsNewestFirst(rows);
    assert forall x :: x in s <==> x in rows by {
      forall x ensures x in s <==> x in rows {
        assert x in s <==> x in multiset(s);
        assert x in rows <==> x in multiset(rows);
      }
    }
    s
  }

  function SelectAll(db: Db, fault: Fault): (r: Result<seq<User>, DbError>)
    requires Valid(db)
  {
    if fault.Some? then Err(Failure(fault.value)) else Ok(AllNewestFirst(db))
  }

  // ---------------------------------------------------------------------------
  // INSERT INTO users (email, name) VALUES (?, ?) RETURNING *    (.first())
  // ---------------------------------------------------------------------------

  datatype Inserted = Inserted(user: User, db: Db)

  /** The store assigns the next id and stamps both timestamps with `now`. */
  function InsertReturning(db: Db, email: string, name: string, now: Timestamp, fault: Fault): (r: Result<Inserted, DbError>)
    requires Valid(db)
    ensures r.Ok? <==> fault.None? && !EmailInUse(db, email)
    ensures fault.None? && r.Err? ==> r.error == UniqueViolation
    ensures r.Ok? ==>
      && var u := r.value.user;
      && u.id == db.nextId && u.id >= 1 && u.id !in db.rows
      && u.email == email && u.name == name && u.createdAt == now && u.updatedAt == now
      && r.value.db.rows == db.rows[u.id := u]
      && Valid(r.value.db)
  {
    if fault.Some? then Err(Failure(fault.value))
    else if EmailInUse(db, email) then Err(UniqueViolation)
    else
      var u := User(db.nextId, email, name, now, now);
      Ok(Inserted(u, Db(db.rows[db.nextId := u], db.nextId + 1)))
  }

  // ---------------------------------------------------------------------------
  // UPDATE users SET <assignments> WHERE id = ? RETURNING *    (.first())
  // ---------------------------------------------------------------------------

  /** A value bound to a `?` placeholder. */
  datatype Param = Text(text: string) | Integer(number: int)

  /** An UPDATE statement: its SET list and the values bound to its placeholders, in order. */
  datatype UpdateStatement = UpdateStatement(assignments: seq<string>, params: seq<Param>)

  /**
   * Applies the SET list to a row, taking the bound values from the front of
   * `params` one per placeholder; `None` when a value is missing, is of the
   * wrong kind, is left over, or an assignment is not one the table knows.
   */
  function ApplyAssignments(u: User, assignments: seq<string>, params: seq<Param>, now: Timestamp): (r: Option<User>)
    ensures r.Some? ==> r.value.id == u.id && r.value.createdAt == u.createdAt
    decreases |assignments|
  {
    if assignments == [] then
      if params == [] then Some(u) else None
    else if assignments[0] == TouchUpdatedAt then
      ApplyAssignments(u.(updatedAt := now), assignments[1..], params, now)
    else if params == [] || !params[0].Text? then None
    else if assignments[0] == SetName then
      ApplyAssignments(u.(name := params[0].text), assignments[1..], params[1..], now)
    else if assignments[0] == SetEmail then
      ApplyAssignments(u.(email := params[0].text), assignments[1..], params[1..], now)
    else None
  }

  datatype Updated = Updated(user: Option<User>, db: Db)

  /**
   * Runs an UPDATE: the placeholder count must match the bound values, the
   * last value is the id of the WHERE clause, the others feed the SET list. No
   * matching row returns no row and changes nothing; an email taken by another
   * row violates the unique index.
   */
  function UpdateReturning(db: Db, stmt: UpdateStatement, now: Timestamp, fault: Fault): (r: Result<Updated, DbError>)
    requires Valid(db)
    ensures fault.Some? ==> r.Err?
    ensures Placeholders(UpdateSql(stmt.assignments)) != |stmt.params| || |stmt.params| == 0 ==> r.Err?
    ensures
      (&& fault.None? && Placeholders(UpdateSql(stmt.assignments)) == |stmt.params| > 0
       && !(stmt.params[|stmt.params| - 1].Integer? && stmt.params[|stmt.params| - 1].number in db.rows))
      ==> r == Ok(Updated(None, db))
    ensures
      (&& fault.None? && Placeholders(UpdateSql(stmt.assignments)) == |stmt.params| > 0
       && var key := stmt.params[|stmt.params| - 1];
       && key.Integer? && key.number in db.rows
       && var patched := ApplyAssignments(db.rows[key.number], stmt.assignments, stmt.params[..|stmt.params| - 1], now);
       && patched.Some? && !EmailInUseByOther(db, patched.value.email, key.number))
      ==>
        var key := stmt.params[|stmt.params| - 1];
        var patched := ApplyAssignments(db.rows[key.number], stmt.assignments, stmt.params[..|stmt.params| - 1], now);
        r == Ok(Updated(patched, db.(rows := db.rows[key.number := patched.value])))
    ensures r.Ok? && r.value.user.None? ==> r.value.db == db
    ensures r.Ok? && r.value.user.Some? ==>
      && var u := r.value.user.value;
      && |stmt.params| > 0 && stmt.params[|stmt.params| - 1] == Integer(u.id)
      && u.id in db.rows
      && ApplyAssignments(db.rows[u.id], stmt.assignments, stmt.params[..|stmt.params| - 1], now) == Some(u)
      && !EmailInUseByOther(db, u.email, u.id)
      && r.value.db == db.(rows := db.rows[u.id := u])
    ensures r == Err(UniqueViolation) ==>
      && fault.None? && |stmt.params| > 0
      && var key := stmt.params[|stmt.params| - 1];
      && key.Integer? && key.number in db.rows
      && var patched := ApplyAssignments(db.rows[key.number], stmt.assignments, stmt.params[..|stmt.params| - 1], now);
      && patched.Some? && EmailInUseByOther(db, patched.value.email, key.number)
    ensures r.Ok? ==> Valid(r.value.db)
  {
    if fault.Some? then Err(Failure(fault.value))
    else if Placeholders(UpdateSql(stmt.assignments)) != |stmt.params| || |stmt.params| == 0 then
      Err(Failure("Wrong number of parameter bindings"))
    else
      var key := stmt.params[|stmt.params| - 1];
      if !key.Integer? || key.number !in db.rows then Ok(Updated(None, db))
      else
        var id := key.number;
        match ApplyAssignments(db.rows[id], stmt.assignments, stmt.params[..|stmt.params| - 1], now)
        case None => Err(Failure("Malformed SET list"))
        case Some(u) =>
          if EmailInUseByOther(db, u.email, id) then Err(UniqueViolation)
          else if u.id != id then Err(Failure("Primary key changed"))
          else Ok(Updated(Some(u), db.(rows := db.rows[id := u])))
  }

  // ---------------------------------------------------------------------------
  // SELECT id FROM users WHERE id = ? / DELETE FROM users WHERE id = ?    (.run())
  // ---------------------------------------------------------------------------

  function DeleteById(db: Db, id: int, fault: Fault): (r: Result<Db, DbError>)
    requires Valid(db)
    ensures r.Ok? <==> fault.None?
    ensures r.Ok? ==> r.value == db.(rows := db.rows - {id}) && Valid(r.value)
  {
    if fault.Some? then Err(Failure(fault.value)) else Ok(db.(rows := db.rows - {id}))
  }
}
