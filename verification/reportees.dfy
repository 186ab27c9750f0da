/**
 * `Todo.get_reportees_tasks(user)` (app/db/models/todo.py:174-220): the tasks
 * a manager submitted to the people who report to them, read through a join
 * of `todo` with `user`, sanitised, and gathered into the report.
 */
module Reportees {
  import opened Wrappers
  import opened Seqs
  import opened Schema
  import opened Fields
  import opened Sanitise
  import opened Query
  import opened Grouping

  // ---------------------------------------------------------------------------
  // The join

  /** A `todo` record and a `user` record side by side: one candidate of the join. */
  function Joined(t: Todo, u: User): Tuple
  {
    TodoTuple(t) + UserTuple(u)
  }

  /** A joined tuple reads each `todo` column from the record... */
  lemma JoinedTodoSide(t: Todo, u: User)
    ensures forall c :: Get(Joined(t, u), Col("todo", c)) == Get(TodoTuple(t), Col("todo", c))
  {
    forall c ensures Get(Joined(t, u), Col("todo", c)) == Get(TodoTuple(t), Col("todo", c)) {
      assert Col("todo", c) !in UserTuple(u);
    }
  }

  /** ...and each `user` column from the user. */
  lemma JoinedUserSide(t: Todo, u: User)
    ensures Get(Joined(t, u), Col("user", "username")) == Str(u.username)
    ensures Get(Joined(t, u), Col("user", "name")) == Str(u.name)
    ensures Get(Joined(t, u), Col("user", "manager_id")) == if u.managerId.Some? then Str(u.managerId.value) else Null
  {
  }

  lemma JoinedTodoColumns(t: Todo, u: User)
    ensures Get(Joined(t, u), Col("todo", "owner")) == Str(t.owner)
    ensures Get(Joined(t, u), Col("todo", "submitter")) == Str(t.submitter)
    ensures Get(Joined(t, u), Col("todo", "dtime")) == TimeValue(t.dtime)
  {
    JoinedTodoSide(t, u);
    ColumnsOfTodo(t);
    assert "owner" in TodoColumns && "submitter" in TodoColumns && "dtime" in TodoColumns;
  }

  function Pairing(t: Todo): User -> Tuple
  {
    u => Joined(t, u)
  }

  /** Every pair of a record and a user, record by record: what the join condition is checked on. */
  function Cross(todos: seq<Todo>, users: seq<User>): seq<Tuple>
    decreases |todos|
  {
    if todos == [] then [] else Cross(Init(todos), users) + Map(users, Pairing(Last(todos)))
  }

  /** The candidates are exactly the pairs of a record and a user. */
  lemma CrossPairs(todos: seq<Todo>, users: seq<User>)
    ensures forall tup :: tup in Cross(todos, users) ==> exists t, u :: t in todos && u in users && tup == Joined(t, u)
    ensures forall t, u :: t in todos && u in users ==> Joined(t, u) in Cross(todos, users)
  {
    CrossSound(todos, users);
    CrossComplete(todos, users);
  }

  /** Every candidate pairs a record with a user. */
  lemma CrossSound(todos: seq<Todo>, users: seq<User>)
    ensures forall tup :: tup in Cross(todos, users) ==> exists t, u :: t in todos && u in users && tup == Joined(t, u)
  {
    forall tup | tup in Cross(todos, users) ensures exists t, u :: t in todos && u in users && tup == Joined(t, u) {
      var t, u := CrossFrom(todos, users, tup);
    }
  }

  /** The record and the user a candidate pairs. */
  lemma {:induction false} CrossFrom(todos: seq<Todo>, users: seq<User>, tup: Tuple) returns (t: Todo, u: User)
    requires tup in Cross(todos, users)
    ensures t in todos && u in users && tup == Joined(t, u)
    decreases |todos|
  {
    var prefix := Init(todos);
    var last := Last(todos);
    if tup in Cross(prefix, users) {
      t, u := CrossFrom(prefix, users, tup);
      assert t in todos;
    } else {
      t := last;
      u := MapFrom(users, Pairing(last), tup);
    }
  }

  /** Every pair of a record and a user is a candidate. */
  lemma {:induction false} CrossComplete(todos: seq<Todo>, users: seq<User>)
    ensures forall t, u :: t in todos && u in users ==> Joined(t, u) in Cross(todos, users)
    decreases |todos|
  {
    if todos != [] {
      var prefix := Init(todos);
      var last := Last(todos);
      assert todos == prefix + [last];
      CrossComplete(prefix, users);
      forall t, u | t in todos && u in users ensures Joined(t, u) in Cross(todos, users) {
        if t == last {
          MapHas(users, Pairing(last), u);
        } else {
          assert t in prefix;
        }
      }
    }
  }

  /** `Todo.owner == User.username`, `Todo.submitter == user`, `Todo.owner != user`, `User.manager_id == user`, `Todo.dtime.is_(None)` */
  function ReporteePreds(manager: string): seq<Pred>
  {
    [ Same(Col("todo", "owner"), Col("user", "username")),
      Eq(Col("todo", "submitter"), Str(manager)),
      Ne(Col("todo", "owner"), Str(manager)),
      Eq(Col("user", "manager_id"), Str(manager)),
      Eq(Col("todo", "dtime"), Null) ]
  }

  /** The pairs the report keeps: an active record `manager` submitted to someone else, joined to its owner, who reports to `manager`. */
  predicate Reports(manager: string, t: Todo, u: User)
  {
    && t.owner == u.username
    && t.submitter == manager
    && t.owner != manager
    && u.managerId == Some(manager)
    && t.IsActive()
  }

  lemma AllHoldFive(preds: seq<Pred>, tup: Tuple)
    requires |preds| == 5
    ensures AllHold(preds, tup) <==>
      Holds(preds[0], tup) && Holds(preds[1], tup) && Holds(preds[2], tup) && Holds(preds[3], tup) && Holds(preds[4], tup)
  {
  }

  // Each predicate reads one or two columns of the joined tuple; stated over any tuple holding those values.

  lemma JoinOnOwner(manager: string, tup: Tuple, owner: string, username: string)
    requires Get(tup, Col("todo", "owner")) == Str(owner) && Get(tup, Col("user", "username")) == Str(username)
    ensures Holds(ReporteePreds(manager)[0], tup) <==> owner == username
  {
  }

  lemma SubmittedByManager(manager: string, tup: Tuple, submitter: string)
    requires Get(tup, Col("todo", "submitter")) == Str(submitter)
    ensures Holds(ReporteePreds(manager)[1], tup) <==> submitter == manager
  {
  }

  lemma NotOwnedByManager(manager: string, tup: Tuple, owner: string)
    requires Get(tup, Col("todo", "owner")) == Str(owner)
    ensures Holds(ReporteePreds(manager)[2], tup) <==> owner != manager
  {
  }

  lemma OwnerReportsToManager(manager: string, tup: Tuple, managerId: Option<string>)
    requires Get(tup, Col("user", "manager_id")) == if managerId.Some? then Str(managerId.value) else Null
    ensures Holds(ReporteePreds(manager)[3], tup) <==> managerId == Some(manager)
  {
  }

  lemma NotDeleted(manager: string, tup: Tuple, dtime: Option<int>)
    requires Get(tup, Col("todo", "dtime")) == TimeValue(dtime)
    ensures Holds(ReporteePreds(manager)[4], tup) <==> dtime.None?
  {
  }

  /** The five predicates hold of a pair exactly when the pair belongs in the report. */
  lemma ReporteeHolds(manager: string, t: Todo, u: User)
    ensures AllHold(ReporteePreds(manager), Joined(t, u)) <==> Reports(manager, t, u)
  {
    var tup := Joined(t, u);
    JoinedUserSide(t, u);
    JoinedTodoColumns(t, u);
    JoinOnOwner(manager, tup, t.owner, u.username);
    SubmittedByManager(manager, tup, t.submitter);
    NotOwnedByManager(manager, tup, t.owner);
    OwnerReportsToManager(manager, tup, u.managerId);
    NotDeleted(manager, tup, t.dtime);
    AllHoldFive(ReporteePreds(manager), tup);
  }

  // ---------------------------------------------------------------------------
  // The selected columns

  /** The `todo` columns the report selects, in order; `User.name` follows them. */
  const ReporteeColumns: seq<string> :=
    ["owner", "task_id", "task", "state", "priority", "createtime", "due", "timesmodified", "isgroupitem"]

  function ReporteeFields(): seq<Field>
  {
    ReporteeTodoFields() + [TableField(UserTable, "name", false)]
  }

  /** The row the query returns for a pair. */
  function ReporteeRow(t: Todo, u: User): Row
  {
    Project(ReporteeFields(), Joined(t, u))
  }

  lemma ReporteeColumnsFacts()
    ensures forall c :: c in ReporteeColumns ==> c in TodoColumns
    ensures "name" !in ReporteeColumns
    ensures "owner" in ReporteeColumns && "task_id" in ReporteeColumns && "isgroupitem" in ReporteeColumns
    ensures "state" in ReporteeColumns && "priority" in ReporteeColumns
  {
  }

  function ReporteeTodoFields(): seq<Field>
  {
    Map(ReporteeColumns, Labeler(TodoTable, false))
  }

  /** A report row is the record's projection onto the nine columns, plus the user's `name`. */
  lemma ReporteeRowSplit(t: Todo, u: User)
    ensures ReporteeRow(t, u) == Project(ReporteeTodoFields(), TodoTuple(t))["name" := Str(u.name)]
  {
    var todoPart := ReporteeTodoFields();
    JoinedTodoSide(t, u);
    JoinedUserSide(t, u);
    LabeledColumns(ReporteeColumns, TodoTable, false);
    ProjectAgree(todoPart, Joined(t, u), TodoTuple(t));
    ProjectSnoc(todoPart, TableField(UserTable, "name", false), Joined(t, u));
  }

  /** A report row holds the nine `todo` columns and the owner's `name`... */
  lemma ReporteeRowKeys(t: Todo, u: User)
    ensures ReporteeRow(t, u).Keys == (set c | c in ReporteeColumns) + {"name"}
  {
    ReporteeRowSplit(t, u);
    TodoPartKeys(t);
  }

  lemma TodoPartKeys(t: Todo)
    ensures Project(ReporteeTodoFields(), TodoTuple(t)).Keys == set c | c in ReporteeColumns
  {
    ReporteeColumnsFacts();
    ProjectColumns(ReporteeColumns, t);
  }

  /** ...each `todo` column with the record's value... */
  lemma ReporteeRowColumn(t: Todo, u: User, c: string)
    requires c in ReporteeColumns
    ensures c in ReporteeRow(t, u) && ReporteeRow(t, u)[c] == Column(t, c)
  {
    ReporteeRowSplit(t, u);
    ReporteeColumnsFacts();
    ProjectColumns(ReporteeColumns, t);
  }

  /** ...and `name` with the user's. */
  lemma ReporteeRowName(t: Todo, u: User)
    ensures "name" in ReporteeRow(t, u) && ReporteeRow(t, u)["name"] == Str(u.name)
  {
    ReporteeRowSplit(t, u);
  }

  /** Every row of the query has what the aggregation loop reads, with the record's owner, group flag and task id. */
  lemma ReporteeRowWellFormed(t: Todo, u: User)
    ensures WellFormed(ReporteeRow(t, u))
    ensures ReporteeRow(t, u)["owner"] == Str(t.owner)
    ensures ReporteeRow(t, u)["isgroupitem"] == Bool(t.isgroupitem)
    ensures ReporteeRow(t, u)["task_id"] == Str(t.taskId)
    ensures ReporteeRow(t, u)["name"] == Str(u.name)
  {
    ReporteeColumnsFacts();
    ColumnsOfTodo(t);
    ReporteeRowColumn(t, u, "owner");
    ReporteeRowColumn(t, u, "isgroupitem");
    ReporteeRowColumn(t, u, "task_id");
    ReporteeRowColumn(t, u, "state");
    ReporteeRowColumn(t, u, "priority");
    ReporteeRowName(t, u);
  }

  /** The query of `get_reportees_tasks`, rows in the order the database returns them. */
  function ReporteeRows(todos: seq<Todo>, users: seq<User>, manager: string): seq<Row>
  {
    RunQuery(ReporteeFields(), Satisfying(ReporteePreds(manager)), Cross(todos, users))
  }

  /** Every reporting pair has its row in the query's result. */
  lemma ReporteeRowsComplete(todos: seq<Todo>, users: seq<User>, manager: string, t: Todo, u: User)
    requires t in todos && u in users && Reports(manager, t, u)
    ensures ReporteeRow(t, u) in ReporteeRows(todos, users, manager)
  {
    var cands := Cross(todos, users);
    CrossPairs(todos, users);
    ReporteeHolds(manager, t, u);
    var kept := Filter(cands, Satisfying(ReporteePreds(manager)));
    assert Joined(t, u) in kept by {
      var i :| 0 <= i < |cands| && cands[i] == Joined(t, u);
      assert Satisfying(ReporteePreds(manager))(cands[i]);
    }
    MapHas(kept, Projector(ReporteeFields()), Joined(t, u));
  }

  /** Every row of the query's result comes from a reporting pair. */
  lemma ReporteeRowsSound(todos: seq<Todo>, users: seq<User>, manager: string, r: Row)
    requires r in ReporteeRows(todos, users, manager)
    ensures exists t, u :: t in todos && u in users && Reports(manager, t, u) && r == ReporteeRow(t, u)
  {
    var tup := MapFilterFrom(Cross(todos, users), Satisfying(ReporteePreds(manager)), Projector(ReporteeFields()), r);
    var t, u := CrossFrom(todos, users, tup);
    assert AllHold(ReporteePreds(manager), Joined(t, u));
    ReporteeHolds(manager, t, u);
    ProjectedPair(ReporteeFields(), tup, t, u, r);
  }

  /** A row projected from a candidate is the projection of the pair it joins. */
  lemma ProjectedPair(fields: seq<Field>, tup: Tuple, t: Todo, u: User, r: Row)
    requires r == Projector(fields)(tup) && tup == Joined(t, u)
    ensures r == Project(fields, Joined(t, u))
  {
  }

  lemma ReporteeRowsWellFormed(todos: seq<Todo>, users: seq<User>, manager: string)
    ensures forall r: Row :: r in ReporteeRows(todos, users, manager) ==> WellFormed(r)
  {
    forall r: Row | r in ReporteeRows(todos, users, manager) ensures WellFormed(r) {
      ReporteeRowsSound(todos, users, manager, r);
      var t, u :| t in todos && u in users && Reports(manager, t, u) && r == ReporteeRow(t, u);
      ReporteeRowWellFormed(t, u);
    }
  }

  // ---------------------------------------------------------------------------
  // The report

  type Report = (Dict<string, Row>, Dict<string, seq<Row>>)

  /** What `get_reportees_tasks(manager)` returns, or the exception `sanitise_task_id` raises. */
  function ReporteesReport(todos: seq<Todo>, users: seq<User>, manager: string): Result<Report, Error>
  {
    match SanitiseAll(ReporteeRows(todos, users, manager))
    case Err(e) => Err(e)
    case Ok(rows) => Ok((Groups(rows), Buckets(rows)))
  }

  /** Sanitising keeps what the aggregation loop reads. */
  lemma SanitisedWellFormed(rows: seq<Row>)
    requires forall r :: r in rows ==> WellFormed(r)
    requires SanitiseAll(rows).Ok?
    ensures forall i :: 0 <= i < |SanitiseAll(rows).value| ==> WellFormed(SanitiseAll(rows).value[i])
  {
    var done := SanitiseAll(rows).value;
    forall i | 0 <= i < |done| ensures WellFormed(done[i]) {
      assert rows[i] in rows;
      assert SanitiseRow(rows[i]) == Ok(done[i]);
    }
  }

  /** A reporting record whose `task_id` has no `_` (no submitter namespace to strip) makes the report fail. */
  lemma BareIdFails(todos: seq<Todo>, users: seq<User>, manager: string, t: Todo, u: User)
    requires t in todos && u in users && Reports(manager, t, u) && '_' !in t.taskId
    ensures ReporteesReport(todos, users, manager).Err?
  {
    var rows := ReporteeRows(todos, users, manager);
    ReporteeRowsComplete(todos, users, manager, t, u);
    ReporteeRowWellFormed(t, u);
    var i :| 0 <= i < |rows| && rows[i] == ReporteeRow(t, u);
    assert !SanitiseRow(rows[i]).Ok?;
    assert SanitiseAll(rows).Err?;
  }

  /** The report fails only with `IndexError`, and only because of a reporting record whose `task_id` has no `_`. */
  lemma FailureIsBareId(todos: seq<Todo>, users: seq<User>, manager: string)
    requires ReporteesReport(todos, users, manager).Err?
    ensures ReporteesReport(todos, users, manager).error == IndexError
    ensures exists t, u :: t in todos && u in users && Reports(manager, t, u) && '_' !in t.taskId
  {
    var rows := ReporteeRows(todos, users, manager);
    var i :| 0 <= i < |rows| && SanitiseRow(rows[i]) == Err(SanitiseAll(rows).error);
    assert rows[i] in rows;
    ReporteeRowsSound(todos, users, manager, rows[i]);
    var t, u :| t in todos && u in users && Reports(manager, t, u) && rows[i] == ReporteeRow(t, u);
    ReporteeRowWellFormed(t, u);
  }

  /** `Todo.get_reportees_tasks(manager)`: query, sanitise the rows in place, then aggregate them. */
  method GetReporteesTasks(todos: seq<Todo>, users: seq<User>, manager: string) returns (res: Result<Report, Error>)
    ensures res == ReporteesReport(todos, users, manager)
  {
    var rows := ReporteeRows(todos, users, manager);
    var results := new Row[|rows|](i requires 0 <= i < |rows| => rows[i]);
    assert results[..] == rows;
    var err := SanitiseTaskId(results);
    if err.Some? {
      return Err(err.value);
    }
    ReporteeRowsWellFormed(todos, users, manager);
    SanitisedWellFormed(rows);
    var group, individual := Aggregate(results[..]);
    return Ok((group, individual));
  }
}
