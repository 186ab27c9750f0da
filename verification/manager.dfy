/**
 * The chat bot's view of one user's tasks (app/bot/todo.py): the partition of
 * the user's tasks by submitter, adding a task, soft-deleting one, and the two
 * lists of rows the bot renders as tables.
 */
module Manager {
  import opened Wrappers
  import opened Seqs
  import opened Schema
  import opened Fields
  import opened Sanitise
  import opened Query
  import opened Grouping

  // ---------------------------------------------------------------------------
  // The table behind the session

  /** The `todo` table as the session commits to it: its records in table order and the next primary key. */
  class TaskStore {
    var todos: seq<Todo>
    var nextId: int

    /**
     * Primary keys are distinct, and every one is below the next key the table
     * hands out. This stands for the table's primary-key constraint: every
     * method keeps it, and no other contract relies on it, since records are
     * found by `task_id`, never by `id`.
     */
    predicate Valid()
      reads this
    {
      && (forall i :: 0 <= i < |todos| ==> todos[i].id < nextId)
      && (forall i, j :: 0 <= i < j < |todos| ==> todos[i].id != todos[j].id)
    }

    constructor()
      ensures todos == [] && Valid()
    {
      todos := [];
      nextId := 1;
    }
  }

  // ---------------------------------------------------------------------------
  // __init__: the user's tasks, split by submitter

  /** `x['submitter'] == username` */
  function SubmittedBy(user: string): Row -> bool
  {
    r => "submitter" in r && r["submitter"] == Str(user)
  }

  function SubmitterIs(user: string): Todo -> bool
  {
    (t: Todo) => t.submitter == user
  }

  /** A `fetch_tasks` row passes `x['submitter'] == user` exactly when its record's submitter is `user`. */
  lemma SubmittedRowIff(t: Todo, user: string)
    ensures SubmittedBy(user)(TaskRow(t)) <==> SubmitterIs(user)(t)
  {
    TaskRowValues(t);
    assert "submitter" in TaskColumns;
  }

  /**
   * `user_tasks` and `manager_tasks` split `fetch_tasks(user)`: every row is in
   * exactly one of them, and each keeps the fetched order.
   */
  lemma TasksPartition(table: seq<Todo>, user: string)
    ensures var tasks := FetchTasks(table, user);
      && Interleaving(tasks, Filter(tasks, SubmittedBy(user)), Filter(tasks, Not(SubmittedBy(user))))
      && multiset(Filter(tasks, SubmittedBy(user))) + multiset(Filter(tasks, Not(SubmittedBy(user)))) == multiset(tasks)
  {
    PartitionInterleaves(FetchTasks(table, user), SubmittedBy(user));
  }

  /** `user_tasks` holds, in table order, the rows of the user's active tasks that they submitted themselves. */
  lemma UserTasksSelect(table: seq<Todo>, user: string)
    ensures Filter(FetchTasks(table, user), SubmittedBy(user)) == Map(Filter(Filter(table, ActiveOwnedBy(user)), SubmitterIs(user)), TaskRow)
  {
    var owned := Filter(table, ActiveOwnedBy(user));
    forall i | 0 <= i < |owned| ensures SubmitterIs(user)(owned[i]) <==> SubmittedBy(user)(TaskRow(owned[i])) {
      SubmittedRowIff(owned[i], user);
    }
    FilterMap(owned, TaskRow, SubmittedBy(user), SubmitterIs(user));
  }

  /** `manager_tasks` holds, in table order, the rows of the user's active tasks that somebody else submitted. */
  lemma ManagerTasksSelect(table: seq<Todo>, user: string)
    ensures Filter(FetchTasks(table, user), Not(SubmittedBy(user))) == Map(Filter(Filter(table, ActiveOwnedBy(user)), Not(SubmitterIs(user))), TaskRow)
  {
    var owned := Filter(table, ActiveOwnedBy(user));
    forall i | 0 <= i < |owned| ensures Not(SubmitterIs(user))(owned[i]) <==> Not(SubmittedBy(user))(TaskRow(owned[i])) {
      SubmittedRowIff(owned[i], user);
    }
    FilterMap(owned, TaskRow, Not(SubmittedBy(user)), Not(SubmitterIs(user)));
  }

  // ---------------------------------------------------------------------------
  // add_task

  /** The `task` dict `add_task` receives; `priority` and `state` are enum names. */
  datatype TaskInput = TaskInput(task: string, priority: string, state: string, taskId: string, due: Option<int>)

  /**
   * The record `add_task` builds, with the primary key the table assigns;
   * None when the priority or state is not a member name, which makes the
   * commit fail.
   */
  function NewRecord(id: int, input: TaskInput, owner: string, submitter: string, now: int): (r: Option<Todo>)
    ensures r.Some? <==> PriorityFromName(input.priority).Some? && StateFromName(input.state).Some?
    ensures r.Some? ==> && r.value.id == id && r.value.owner == owner && r.value.submitter == submitter
                        && r.value.task == input.task && r.value.due == input.due
                        && r.value.priority.Name() == input.priority && r.value.state.Name() == input.state
    ensures r.Some? ==> && r.value.taskId == Namespaced(submitter, input.taskId)
                        && r.value.IsActive() && r.value.timesmodified == 0 && !r.value.isgroupitem
                        && r.value.createtime == Some(now) && r.value.mtime == Some(now)
    ensures r.Some? && '_' !in submitter ==> AfterFirstUnderscore(r.value.taskId) == Some(input.taskId)
  {
    match (PriorityFromName(input.priority), StateFromName(input.state))
    case (Some(p), Some(s)) =>
      NamespaceRoundTrip(submitter, input.taskId);
      Some(Todo(id, owner, submitter, input.task, p, s, Namespaced(submitter, input.taskId),
                Some(now), input.due, None, Some(now), 0, false))
    case _ => None
  }

  /** A task added for `owner` is listed, last, by `fetch_tasks(owner)`; nobody else's list changes. */
  lemma AddedTaskIsFetched(table: seq<Todo>, rec: Todo, user: string)
    requires rec.IsActive()
    ensures user == rec.owner ==> FetchTasks(table + [rec], user) == FetchTasks(table, user) + [TaskRow(rec)]
    ensures user != rec.owner ==> FetchTasks(table + [rec], user) == FetchTasks(table, user)
  {
    FilterAppend(table, [rec], ActiveOwnedBy(user));
    FilterSingleton(rec, ActiveOwnedBy(user));
    MapAppend(Filter(table, ActiveOwnedBy(user)), Filter([rec], ActiveOwnedBy(user)), TaskRow);
  }

  // ---------------------------------------------------------------------------
  // delete_task

  /** `Todo.task_id == task_id, Todo.dtime.is_(None)` */
  predicate ActiveWithId(t: Todo, id: string)
  {
    t.taskId == id && t.IsActive()
  }

  /** The position of `fetch[0]`: the first active record with task id `id`, if any. */
  function FirstActive(rows: seq<Todo>, id: string): (r: Option<nat>)
    ensures r.Some? ==> r.value < |rows| && ActiveWithId(rows[r.value], id)
    ensures r.Some? ==> forall j :: 0 <= j < r.value ==> !ActiveWithId(rows[j], id)
    ensures r.None? <==> forall j :: 0 <= j < |rows| ==> !ActiveWithId(rows[j], id)
    decreases |rows|
  {
    if rows == [] then None
    else
      assert forall j :: 0 <= j < |rows| - 1 ==> rows[j] == Init(rows)[j];
      match FirstActive(Init(rows), id)
      case Some(i) => Some(i)
      case None => if ActiveWithId(Last(rows), id) then Some(|rows| - 1) else None
  }

  /** `setattr(fetch, 'dtime', fetch.dtime or now)` on record `i`. */
  function SoftDeleted(rows: seq<Todo>, i: nat, now: int): seq<Todo>
    requires i < |rows|
  {
    rows[i := rows[i].(dtime := if rows[i].dtime.Some? then rows[i].dtime else Some(now))]
  }

  /**
   * A soft delete removes nothing: the found record gets `dtime = now` and
   * stays otherwise as it was, and every other record is unchanged.
   */
  lemma SoftDeleteOnlyStamps(rows: seq<Todo>, id: string, now: int)
    requires FirstActive(rows, id).Some?
    ensures var i := FirstActive(rows, id).value; var after := SoftDeleted(rows, i, now);
      && |after| == |rows|
      && after[i] == rows[i].(dtime := Some(now)) && !after[i].IsActive()
      && forall j :: 0 <= j < |rows| && j != i ==> after[j] == rows[j]
  {
  }

  /**
   * With exactly one active record under the id, a second delete finds
   * nothing, so it returns None and keeps the first delete's `dtime`.
   */
  lemma DeleteTwice(rows: seq<Todo>, id: string, now: int)
    requires FirstActive(rows, id).Some?
    requires forall j, k :: 0 <= j < |rows| && 0 <= k < |rows| && ActiveWithId(rows[j], id) && ActiveWithId(rows[k], id) ==> j == k
    ensures FirstActive(SoftDeleted(rows, FirstActive(rows, id).value, now), id).None?
  {
    var i := FirstActive(rows, id).value;
    var after := SoftDeleted(rows, i, now);
    forall j | 0 <= j < |after| ensures !ActiveWithId(after[j], id) {
      if j != i {
        assert after[j] == rows[j];
      }
    }
  }

  /**
   * The round trip of the two operations: after the user adds a task under a
   * raw id no active record uses, deleting that raw id finds the new record.
   */
  lemma AddThenDelete(rows: seq<Todo>, id: int, input: TaskInput, owner: string, user: string, now: int)
    requires NewRecord(id, input, owner, user, now).Some?
    requires forall j :: 0 <= j < |rows| ==> !ActiveWithId(rows[j], Namespaced(user, input.taskId))
    ensures FirstActive(rows + [NewRecord(id, input, owner, user, now).value], Namespaced(user, input.taskId)) == Some(|rows|)
  {
    var after := rows + [NewRecord(id, input, owner, user, now).value];
    assert forall j :: 0 <= j < |rows| ==> after[j] == rows[j];
  }

  // ---------------------------------------------------------------------------
  // The attribute names `add_task` and `delete_task` use, as written

  /** The keyword arguments `add_task` passes to `Todo(...)`, as written. */
  const AddTaskKeywords: seq<string> := [
    "owner", "submitter", "todo_item", "priority", "state", "taskid", "createtime", "duetime", "dtime", "mtime", "timesmodified"]

  /** The same arguments under the names of the columns they stand for. */
  const IntendedKeywords: seq<string> := [
    "owner", "submitter", "task", "priority", "state", "task_id", "createtime", "due", "dtime", "mtime", "timesmodified"]

  /**
   * The declarative constructor `Todo(**kwargs)` rejects, with a TypeError,
   * the first keyword that is not a column; None when it accepts them all.
   */
  function FirstUnknown(keywords: seq<string>): (r: Option<string>)
    ensures r.None? <==> forall k :: k in keywords ==> k in TodoColumns
    ensures r.Some? ==> r.value in keywords && r.value !in TodoColumns
    ensures r.Some? ==> exists i :: (0 <= i < |keywords| && keywords[i] == r.value
      && forall j :: 0 <= j < i ==> keywords[j] in TodoColumns)
    decreases |keywords|
  {
    if keywords == [] then None
    else if keywords[0] !in TodoColumns then Some(keywords[0])
    else
      assert forall k :: k in keywords ==> k == keywords[0] || k in keywords[1..];
      var rest := FirstUnknown(keywords[1..]);
      assert rest.Some? ==> exists i :: (0 < i < |keywords| && keywords[i] == rest.value
        && forall j :: 0 <= j < i ==> keywords[j] in TodoColumns) by {
        if rest.Some? {
          var i :| (0 <= i < |keywords[1..]| && keywords[1..][i] == rest.value
            && forall j :: 0 <= j < i ==> keywords[1..][j] in TodoColumns);
          assert keywords[i + 1] == rest.value;
          assert forall j :: 0 <= j < i + 1 ==> keywords[j] in TodoColumns by {
            forall j | 0 <= j < i + 1 ensures keywords[j] in TodoColumns {
              if j > 0 { assert keywords[j] == keywords[1..][j - 1]; }
            }
          }
        }
      }
      rest
  }

  /** As written, `add_task` never builds its record: three of its keywords are not columns of `todo`. */
  lemma AddTaskAsWrittenRejected()
    ensures FirstUnknown(AddTaskKeywords).Some?
    ensures "todo_item" in AddTaskKeywords && "todo_item" !in TodoColumns
    ensures "taskid" in AddTaskKeywords && "taskid" !in TodoColumns
    ensures "duetime" in AddTaskKeywords && "duetime" !in TodoColumns
  {
    NotColumn("todo_item");
    NotColumn("taskid");
    NotColumn("duetime");
    assert AddTaskKeywords[2] == "todo_item";
    assert AddTaskKeywords[5] == "taskid";
    assert AddTaskKeywords[7] == "duetime";
  }

  /** A name that differs from every column name is not a column. */
  lemma NotColumn(x: string)
    requires forall i :: 0 <= i < |TodoColumns| ==> TodoColumns[i] != x
    ensures x !in TodoColumns
  {
  }

  /** Under the intended names the constructor accepts every keyword, and they name the fields `NewRecord` sets. */
  lemma IntendedKeywordsAccepted()
    ensures FirstUnknown(IntendedKeywords).None?
  {
    assert forall k :: k in IntendedKeywords ==> k in TodoColumns;
  }

  /** `Todo.<name>`: the column of that name, or AttributeError for a name that is no column. */
  function ClassColumn(name: string): (r: Result<ColumnRef, Error>)
    ensures r.Ok? <==> name in TodoColumns
    ensures r.Err? ==> r.error == AttributeError
  {
    if name in TodoColumns then Ok(Col("todo", name)) else Err(AttributeError)
  }

  /** As written, `delete_task` raises before it queries: `Todo.taskid` is not a column; `Todo.task_id` is. */
  lemma DeleteLookupAsWritten()
    ensures ClassColumn("taskid") == Err(AttributeError)
    ensures ClassColumn("task_id") == Ok(Col("todo", "task_id"))
  {
    assert "task_id" in TodoColumns;
  }

  // ---------------------------------------------------------------------------
  // _get_markdown_table: the rows

  /** `excluded_fields=['mtime', 'id', 'dtime']` */
  const TableExcluded: seq<string> := ["mtime", "id", "dtime"]

  /** The columns `_make_field_list` keeps: those of `todo` but `mtime`, `id` and `dtime`, in declaration order. */
  const TableColumns: seq<string> := [
    "owner", "submitter", "task", "priority", "state", "task_id", "createtime", "due", "timesmodified", "isgroupitem"]

  function TableFields(): seq<Field>
  {
    Map(TableColumns, Labeler(TodoTable, false))
  }

  /** Without a whitelist or joined tables, the field list is the kept columns of `todo`, unlabelled. */
  lemma TableFieldList()
    ensures FieldList(TodoTable, [], TableExcluded, []) == Ok(TableFields())
  {
    KeptColumns(["id"], KeptFront, ["dtime", "mtime"], KeptBack, TableExcluded);
    TodoColumnsSplit();
    UnpackedAlone(TodoTable, TableExcluded, TableColumns);
  }

  const KeptFront: seq<string> := ["owner", "submitter", "task", "priority", "state", "task_id", "createtime", "due"]
  const KeptBack: seq<string> := ["timesmodified", "isgroupitem"]

  /** The columns of `todo` as kept and excluded stretches. */
  lemma TodoColumnsSplit()
    ensures TodoColumns == ["id"] + KeptFront + ["dtime", "mtime"] + KeptBack
    ensures KeptFront + KeptBack == TableColumns
  {
  }

  /** Excluding names drops exactly the excluded stretches of a column list. */
  lemma KeptColumns(a: seq<string>, b: seq<string>, c: seq<string>, d: seq<string>, excluded: seq<string>)
    requires forall x :: x in a || x in c ==> x in excluded
    requires forall x :: x in b || x in d ==> x !in excluded
    ensures Filter(a + b + c + d, NotIn(excluded)) == b + d
  {
    var keep := NotIn(excluded);
    FilterDropsAll(a, keep);
    FilterKeepsAll(b, keep);
    FilterDropsAll(c, keep);
    FilterKeepsAll(d, keep);
    FilterAppend(a, b, keep);
    assert Filter(a + b, keep) == [] + b == b;
    FilterAppend(a + b, c, keep);
    assert Filter(a + b + c, keep) == b + [] == b;
    FilterAppend(a + b + c, d, keep);
  }

  /** Without a whitelist or joined tables, the field list is the kept columns of the main table, unlabelled. */
  lemma UnpackedAlone(main: Table, excluded: seq<string>, kept: seq<string>)
    requires Filter(main.columns, NotIn(excluded)) == kept
    ensures FieldList(main, [], excluded, []) == Ok(Map(kept, Labeler(main, false)))
  {
    assert Unpacked(main, false, excluded) == Map(kept, Labeler(main, false));
    assert ConcatUnpacked([], excluded) == [];
    assert Unpacked(main, false, excluded) + [] == Unpacked(main, false, excluded);
  }

  /** `_fetch_all_where(Todo.owner == user, Todo.dtime.is_(None), excluded_fields=['mtime', 'id', 'dtime'])` */
  function TableQuery(table: seq<Todo>, user: string): Result<seq<Row>, Error>
  {
    FetchAllWhere(TodoTuples(table), OwnedActivePreds(user), TodoTable, [], TableExcluded, [])
  }

  /** `x['owner'] == x['submitter']` */
  predicate SelfSubmitted(r: Row)
  {
    "owner" in r && "submitter" in r && r["owner"] == r["submitter"]
  }

  function SelfSubmittedRow(): Row -> bool
  {
    r => SelfSubmitted(r)
  }

  /** `[x for x in tasks if x not in self_tasks]`: membership by dict equality. */
  function NotSelfTask(tasks: seq<Row>): Row -> bool
  {
    x => x !in Filter(tasks, SelfSubmittedRow())
  }

  /** `manager_tasks` is the complement of `self_tasks`: a row equal to a self task is itself one. */
  lemma {:induction false} ManagerTasksComplement(tasks: seq<Row>)
    ensures Filter(tasks, NotSelfTask(tasks)) == Filter(tasks, Not(SelfSubmittedRow()))
    ensures Interleaving(tasks, Filter(tasks, SelfSubmittedRow()), Filter(tasks, NotSelfTask(tasks)))
    ensures forall x :: x in Filter(tasks, SelfSubmittedRow()) ==> x !in Filter(tasks, NotSelfTask(tasks))
  {
    var selfTasks := Filter(tasks, SelfSubmittedRow());
    forall i | 0 <= i < |tasks| ensures NotSelfTask(tasks)(tasks[i]) <==> Not(SelfSubmittedRow())(tasks[i]) {
      if tasks[i] in selfTasks {
        var k :| 0 <= k < |selfTasks| && selfTasks[k] == tasks[i];
      }
    }
    FilterCongruent(tasks, NotSelfTask(tasks), Not(SelfSubmittedRow()));
    PartitionInterleaves(tasks, SelfSubmittedRow());
    var managerTasks := Filter(tasks, NotSelfTask(tasks));
    forall x | x in selfTasks ensures x !in managerTasks {
    }
  }

  /** What the shaping loops demand of a row: `del` finds both keys and `.name` finds enum values. */
  predicate TableReady(r: Row)
  {
    && "owner" in r && "submitter" in r
    && "priority" in r && r["priority"].PriorityVal?
    && "state" in r && r["state"].StateVal?
  }

  /** A row as the table shows it: `owner` and `submitter` removed, priority and state by name. */
  function TableShaped(r: Row): (s: Row)
    ensures s.Keys == r.Keys - {"owner", "submitter"}
    ensures forall k :: k in s && k != "state" && k != "priority" ==> s[k] == r[k]
  {
    map k | k in r.Keys - {"owner", "submitter"} ::
      if k == "state" || k == "priority" then EnumName(r[k]) else r[k]
  }

  /** The two lists `_get_markdown_table` hands to `tabulate`, or the exception of the query. */
  function TableReport(table: seq<Todo>, user: string): Result<(seq<Row>, seq<Row>), Error>
  {
    match TableQuery(table, user)
    case Err(e) => Err(e)
    case Ok(tasks) =>
      Ok((Map(Filter(tasks, SelfSubmittedRow()), TableShaped), Map(Filter(tasks, NotSelfTask(tasks)), TableShaped)))
  }

  // ---------------------------------------------------------------------------
  // _get_markdown_table: what the rows are, record by record

  /** A stored task id with its namespace stripped (the id itself when it has no `_`). */
  function Stripped(id: string): string
  {
    match AfterFirstUnderscore(id)
    case Some(rest) => rest
    case None => id
  }

  /** What the table shows of column `c` of record `t`: enums by name, the task id without its namespace. */
  function DisplayValue(t: Todo, c: string): Value
  {
    if c == "task_id" then Str(Stripped(t.taskId))
    else if c == "priority" then Str(t.priority.Name())
    else if c == "state" then Str(t.state.Name())
    else Column(t, c)
  }

  /** The table row of record `t`: every column but `id`, `mtime`, `dtime`, `owner` and `submitter`. */
  function TableRowOf(t: Todo): Row
  {
    map c | c in TableColumns && c != "owner" && c != "submitter" :: DisplayValue(t, c)
  }

  function QueryRow(t: Todo): Row
  {
    Project(TableFields(), TodoTuple(t))
  }

  /** The row `_fetch_all_where` returns for record `t`: its kept columns, the task id stripped of its namespace. */
  function SanitisedRow(t: Todo): Row
  {
    map c | c in TableColumns :: if c == "task_id" then Str(Stripped(t.taskId)) else Column(t, c)
  }

  function SelfSubmittedTodo(): Todo -> bool
  {
    (t: Todo) => t.owner == t.submitter
  }

  /** The eight columns a table row shows. */
  lemma TableRowKeys(t: Todo)
    ensures TableRowOf(t).Keys == {"task", "priority", "state", "task_id", "createtime", "due", "timesmodified", "isgroupitem"}
  {
  }

  /** The query row of a record: its columns other than `mtime`, `id` and `dtime`, with the record's values. */
  lemma QueryRowValues(t: Todo)
    ensures QueryRow(t).Keys == set c | c in TableColumns
    ensures forall c :: c in TableColumns ==> QueryRow(t)[c] == Column(t, c)
  {
    ProjectColumns(TableColumns, t);
  }

  lemma QueryRowKeys(t: Todo)
    ensures "owner" in QueryRow(t) && QueryRow(t)["owner"] == Str(t.owner)
    ensures "submitter" in QueryRow(t) && QueryRow(t)["submitter"] == Str(t.submitter)
    ensures "priority" in QueryRow(t) && QueryRow(t)["priority"] == PriorityVal(t.priority)
    ensures "state" in QueryRow(t) && QueryRow(t)["state"] == StateVal(t.state)
    ensures "task_id" in QueryRow(t) && QueryRow(t)["task_id"] == Str(t.taskId)
  {
    QueryRowValues(t);
    assert "owner" in TableColumns && "submitter" in TableColumns && "priority" in TableColumns;
    assert "state" in TableColumns && "task_id" in TableColumns;
    ColumnsOfTodo(t);
  }

  /** The query keeps, in table order, the rows of the active records owned by `user`. */
  lemma TableQueryRows(table: seq<Todo>, user: string)
    ensures RunQuery(TableFields(), Satisfying(OwnedActivePreds(user) + SoftDeletePreds([])), TodoTuples(table))
      == Map(Filter(table, ActiveOwnedBy(user)), QueryRow)
  {
    assert SoftDeletePreds([]) == [];
    assert OwnedActivePreds(user) + [] == OwnedActivePreds(user);
    forall i | 0 <= i < |table| ensures ActiveOwnedBy(user)(table[i]) <==> Satisfying(OwnedActivePreds(user))(TodoTuple(table[i])) {
      OwnedActiveHolds(user, table[i]);
    }
    FilterMap(table, TodoTuple, Satisfying(OwnedActivePreds(user)), ActiveOwnedBy(user));
    MapCompose(Filter(table, ActiveOwnedBy(user)), TodoTuple, Projector(TableFields()), QueryRow);
  }

  /** `_fetch_all_where` here: the query rows of the active records of `user`, then sanitised. */
  lemma TableQueryIs(table: seq<Todo>, user: string)
    ensures TableQuery(table, user) == SanitiseAll(Map(Filter(table, ActiveOwnedBy(user)), QueryRow))
  {
    TableFieldList();
    TaskIdKept();
    FetchAllWhereAlone(TodoTuples(table), OwnedActivePreds(user), TodoTable, TableExcluded, TableFields());
    TableQueryRows(table, user);
  }

  lemma TaskIdKept()
    ensures "task_id" !in TableExcluded
  {
  }

  /** `_fetch_all_where` over the main table alone, with `task_id` kept: the query rows, sanitised. */
  lemma FetchAllWhereAlone(cands: seq<Tuple>, where: seq<Pred>, main: Table, excluded: seq<string>, fields: seq<Field>)
    requires FieldList(main, [], excluded, []) == Ok(fields)
    requires "task_id" !in excluded
    ensures FetchAllWhere(cands, where, main, [], excluded, []) == SanitiseAll(RunQuery(fields, Satisfying(where + SoftDeletePreds([])), cands))
  {
  }

  /** Sanitising a row whose `task_id` is the string `id`: IndexError when `id` has no `_`, else the row with `id` stripped. */
  lemma SanitiseStrips(r: Row, id: string)
    requires "task_id" in r && r["task_id"] == Str(id)
    ensures SanitiseRow(r).Ok? <==> '_' in id
    ensures SanitiseRow(r).Err? ==> SanitiseRow(r).error == IndexError
    ensures SanitiseRow(r).Ok? ==> SanitiseRow(r).value == r["task_id" := Str(Stripped(id))]
  {
  }

  /** Sanitising the query row of a record strips its task id, and fails exactly when the id has no `_`. */
  lemma SanitiseQueryRow(t: Todo)
    ensures SanitiseRow(QueryRow(t)).Ok? <==> '_' in t.taskId
    ensures SanitiseRow(QueryRow(t)).Err? ==> SanitiseRow(QueryRow(t)).error == IndexError
    ensures SanitiseRow(QueryRow(t)).Ok? ==> SanitiseRow(QueryRow(t)).value == SanitisedRow(t)
  {
    QueryRowKeys(t);
    QueryRowValues(t);
    SanitiseStrips(QueryRow(t), t.taskId);
    StrippedRow(QueryRow(t), t);
  }

  /** A row holding record `t`'s kept columns, with its task id stripped, is `t`'s sanitised row. */
  lemma StrippedRow(r: Row, t: Todo)
    requires r.Keys == set c | c in TableColumns
    requires forall c :: c in TableColumns ==> r[c] == Column(t, c)
    ensures r["task_id" := Str(Stripped(t.taskId))] == SanitisedRow(t)
  {
    assert "task_id" in TableColumns;
  }

  /** Sanitising the query rows of some records succeeds exactly when every task id has a `_`. */
  lemma SanitiseQueryRowsOk(owned: seq<Todo>)
    ensures SanitiseAll(Map(owned, QueryRow)).Ok? <==> forall i :: 0 <= i < |owned| ==> '_' in owned[i].taskId
  {
    var rows := Map(owned, QueryRow);
    forall i | 0 <= i < |owned| ensures SanitiseRow(rows[i]).Ok? <==> '_' in owned[i].taskId {
      SanitiseQueryRow(owned[i]);
    }
  }

  /** When it fails, it fails with IndexError. */
  lemma SanitiseQueryRowsErr(owned: seq<Todo>)
    ensures SanitiseAll(Map(owned, QueryRow)).Err? ==> SanitiseAll(Map(owned, QueryRow)).error == IndexError
  {
    var rows := Map(owned, QueryRow);
    if SanitiseAll(rows).Err? {
      var i :| 0 <= i < |rows| && SanitiseRow(rows[i]) == Err(SanitiseAll(rows).error);
      SanitiseQueryRow(owned[i]);
    }
  }

  /** When it succeeds, the rows are the records' sanitised rows. */
  lemma SanitiseQueryRowsValue(owned: seq<Todo>)
    ensures SanitiseAll(Map(owned, QueryRow)).Ok? ==> SanitiseAll(Map(owned, QueryRow)).value == Map(owned, SanitisedRow)
  {
    var rows := Map(owned, QueryRow);
    if SanitiseAll(rows).Ok? {
      var done := SanitiseAll(rows).value;
      var want := Map(owned, SanitisedRow);
      forall i | 0 <= i < |owned| ensures done[i] == want[i] {
        assert rows[i] == QueryRow(owned[i]);
        assert SanitiseRow(rows[i]) == Ok(done[i]);
        SanitiseQueryRow(owned[i]);
      }
      assert |done| == |want|;
    }
  }

  /** A condition on every selected record is a condition on every active record of `user`. */
  lemma OwnedIds(table: seq<Todo>, user: string)
    ensures (forall i :: 0 <= i < |Filter(table, ActiveOwnedBy(user))| ==> '_' in Filter(table, ActiveOwnedBy(user))[i].taskId)
      <==> forall t :: t in table && ActiveOwnedBy(user)(t) ==> '_' in t.taskId
  {
    var owned := Filter(table, ActiveOwnedBy(user));
    if forall i :: 0 <= i < |owned| ==> '_' in owned[i].taskId {
      forall t | t in table && ActiveOwnedBy(user)(t) ensures '_' in t.taskId {
        var k :| 0 <= k < |table| && table[k] == t;
        assert t in owned;
        var j :| 0 <= j < |owned| && owned[j] == t;
      }
    } else {
      var i :| 0 <= i < |owned| && '_' !in owned[i].taskId;
      assert owned[i] in table && ActiveOwnedBy(user)(owned[i]);
    }
  }

  /** The sanitised query: the stripped rows, or IndexError when some active record of `user` has an id without `_`. */
  lemma TableQuerySanitised(table: seq<Todo>, user: string)
    ensures TableQuery(table, user).Ok? <==> forall t :: t in table && ActiveOwnedBy(user)(t) ==> '_' in t.taskId
    ensures TableQuery(table, user).Err? ==> TableQuery(table, user).error == IndexError
    ensures TableQuery(table, user).Ok? ==> TableQuery(table, user).value == Map(Filter(table, ActiveOwnedBy(user)), SanitisedRow)
  {
    TableQueryIs(table, user);
    SanitiseQueryRowsOk(Filter(table, ActiveOwnedBy(user)));
    SanitiseQueryRowsErr(Filter(table, ActiveOwnedBy(user)));
    SanitiseQueryRowsValue(Filter(table, ActiveOwnedBy(user)));
    OwnedIds(table, user);
  }

  /** The sanitised row of a record: the query row with the task id stripped. */
  lemma SanitisedRowValues(t: Todo)
    ensures SanitisedRow(t).Keys == set c | c in TableColumns
    ensures forall c :: c in TableColumns && c != "task_id" ==> SanitisedRow(t)[c] == Column(t, c)
    ensures "task_id" in SanitisedRow(t) && SanitisedRow(t)["task_id"] == Str(Stripped(t.taskId))
  {
    assert "task_id" in TableColumns;
  }

  lemma SanitisedRowKeys(t: Todo)
    ensures "owner" in SanitisedRow(t) && SanitisedRow(t)["owner"] == Str(t.owner)
    ensures "submitter" in SanitisedRow(t) && SanitisedRow(t)["submitter"] == Str(t.submitter)
    ensures "priority" in SanitisedRow(t) && SanitisedRow(t)["priority"] == PriorityVal(t.priority)
    ensures "state" in SanitisedRow(t) && SanitisedRow(t)["state"] == StateVal(t.state)
  {
    assert "owner" in TableColumns && "submitter" in TableColumns && "priority" in TableColumns && "state" in TableColumns;
    ColumnsOfTodo(t);
  }

  /** A sanitised row is a self task exactly when its record's owner submitted it, and it is ready for shaping. */
  lemma SanitisedRowSelf(t: Todo)
    ensures SelfSubmitted(SanitisedRow(t)) <==> t.owner == t.submitter
    ensures TableReady(SanitisedRow(t))
  {
    SanitisedRowKeys(t);
  }

  /** Shaping a row that holds record `t`'s kept columns, with the task id stripped, gives `t`'s table row. */
  lemma ShapeOfRow(r: Row, t: Todo)
    requires r.Keys == set c | c in TableColumns
    requires forall c :: c in r && c != "task_id" ==> r[c] == Column(t, c)
    requires "task_id" in r && r["task_id"] == Str(Stripped(t.taskId))
    ensures TableShaped(r) == TableRowOf(t)
  {
    ShapedKeys(r, t);
    ShapedValues(r, t);
  }

  /** A shaped row has the table row's columns. */
  lemma ShapedKeys(r: Row, t: Todo)
    requires r.Keys == set c | c in TableColumns
    ensures TableShaped(r).Keys == TableRowOf(t).Keys
  {
  }

  /** Every column of a shaped row holds the record's value as the table shows it. */
  lemma ShapedValues(r: Row, t: Todo)
    requires forall c :: c in r && c != "task_id" ==> r[c] == Column(t, c)
    requires "task_id" in r ==> r["task_id"] == Str(Stripped(t.taskId))
    ensures forall c :: c in TableShaped(r) ==> TableShaped(r)[c] == DisplayValue(t, c)
  {
    forall c | c in TableShaped(r) ensures TableShaped(r)[c] == DisplayValue(t, c) {
      ShapedValue(r, t, c);
    }
  }

  /** One column of a shaped row: the record's value as the table shows it. */
  lemma ShapedValue(r: Row, t: Todo, c: string)
    requires c in r && c != "owner" && c != "submitter"
    requires c != "task_id" ==> r[c] == Column(t, c)
    requires c == "task_id" ==> r[c] == Str(Stripped(t.taskId))
    ensures TableShaped(r)[c] == DisplayValue(t, c)
  {
    if c == "state" {
      ColumnsOfTodo(t);
    } else if c == "priority" {
      ColumnsOfTodo(t);
    }
  }

  /** Shaping a record's sanitised row gives its table row. */
  lemma ShapedRowOf(t: Todo)
    ensures TableShaped(SanitisedRow(t)) == TableRowOf(t)
  {
    SanitisedRowValues(t);
    ShapeOfRow(SanitisedRow(t), t);
  }

  /** The self table, record by record. */
  lemma SelfTableRows(table: seq<Todo>, user: string)
    requires TableQuery(table, user).Ok?
    ensures TableReport(table, user).Ok?
    ensures TableReport(table, user).value.0 == Map(Filter(Filter(table, ActiveOwnedBy(user)), SelfSubmittedTodo()), TableRowOf)
  {
    TableQuerySanitised(table, user);
    var owned := Filter(table, ActiveOwnedBy(user));
    forall i | 0 <= i < |owned| ensures SelfSubmittedTodo()(owned[i]) <==> SelfSubmittedRow()(SanitisedRow(owned[i])) {
      SanitisedRowSelf(owned[i]);
    }
    FilterMap(owned, SanitisedRow, SelfSubmittedRow(), SelfSubmittedTodo());
    var picked := Filter(owned, SelfSubmittedTodo());
    forall i | 0 <= i < |picked| ensures TableRowOf(picked[i]) == TableShaped(SanitisedRow(picked[i])) {
      ShapedRowOf(picked[i]);
    }
    MapCompose(picked, SanitisedRow, TableShaped, TableRowOf);
  }

  /** The manager table, record by record. */
  lemma ManagerTableRows(table: seq<Todo>, user: string)
    requires TableQuery(table, user).Ok?
    ensures TableReport(table, user).Ok?
    ensures TableReport(table, user).value.1 == Map(Filter(Filter(table, ActiveOwnedBy(user)), Not(SelfSubmittedTodo())), TableRowOf)
  {
    TableQuerySanitised(table, user);
    ManagerTasksComplement(TableQuery(table, user).value);
    var owned := Filter(table, ActiveOwnedBy(user));
    forall i | 0 <= i < |owned| ensures Not(SelfSubmittedTodo())(owned[i]) <==> Not(SelfSubmittedRow())(SanitisedRow(owned[i])) {
      SanitisedRowSelf(owned[i]);
    }
    FilterMap(owned, SanitisedRow, Not(SelfSubmittedRow()), Not(SelfSubmittedTodo()));
    var picked := Filter(owned, Not(SelfSubmittedTodo()));
    forall i | 0 <= i < |picked| ensures TableRowOf(picked[i]) == TableShaped(SanitisedRow(picked[i])) {
      ShapedRowOf(picked[i]);
    }
    MapCompose(picked, SanitisedRow, TableShaped, TableRowOf);
  }

  /**
   * `_get_markdown_table(user)`: the self table shows, in table order, the
   * active tasks `user` owns and submitted; the manager table the active
   * tasks `user` owns that somebody else submitted. It raises IndexError
   * exactly when one of those records has a task id without `_`.
   */
  lemma TableReportRows(table: seq<Todo>, user: string)
    ensures TableReport(table, user).Ok? <==> forall t :: t in table && ActiveOwnedBy(user)(t) ==> '_' in t.taskId
    ensures TableReport(table, user).Err? ==> TableReport(table, user).error == IndexError
    ensures TableReport(table, user).Ok? ==> var owned := Filter(table, ActiveOwnedBy(user));
      && TableReport(table, user).value.0 == Map(Filter(owned, SelfSubmittedTodo()), TableRowOf)
      && TableReport(table, user).value.1 == Map(Filter(owned, Not(SelfSubmittedTodo())), TableRowOf)
  {
    TableQuerySanitised(table, user);
    if TableQuery(table, user).Ok? {
      SelfTableRows(table, user);
      ManagerTableRows(table, user);
    }
  }

  /** Every row the query returns is ready for the shaping loops. */
  lemma TableQueryReady(table: seq<Todo>, user: string)
    requires TableQuery(table, user).Ok?
    ensures forall r :: r in TableQuery(table, user).value ==> TableReady(r)
  {
    TableQuerySanitised(table, user);
    SanitisedRowsReady(Filter(table, ActiveOwnedBy(user)));
  }

  lemma SanitisedRowsReady(owned: seq<Todo>)
    ensures forall r :: r in Map(owned, SanitisedRow) ==> TableReady(r)
  {
    forall r | r in Map(owned, SanitisedRow) ensures TableReady(r) {
      var i :| 0 <= i < |owned| && Map(owned, SanitisedRow)[i] == r;
      SanitisedRowSelf(owned[i]);
    }
  }

  /** One `for x in ...` loop: `del x['owner']`, `del x['submitter']`, and the enum names, row by row in place. */
  method ShapeRows(rows: array<Row>)
    requires forall i :: 0 <= i < rows.Length ==> TableReady(rows[i])
    modifies rows
    ensures rows[..] == Map(old(rows[..]), TableShaped)
  {
    ghost var before := rows[..];
    assert before[..0] == [];
    for i := 0 to rows.Length
      invariant rows[..i] == Map(before[..i], TableShaped)
      invariant rows[i..] == before[i..]
    {
      assert rows[i] == rows[i..][0] == before[i];
      var x := ShapeForTable(rows[i]);
      MapStep(before, i, TableShaped);
      rows[i] := x;
      assert rows[..i + 1] == rows[..i] + [x];
      assert rows[i + 1..] == before[i + 1..];
    }
    assert rows[..] == rows[..rows.Length];
    assert before == before[..rows.Length];
  }

  /** The dicts of one list, shaped in place by its loop. */
  method ShapedCopy(rows: seq<Row>) returns (shaped: seq<Row>)
    requires forall r :: r in rows ==> TableReady(r)
    ensures shaped == Map(rows, TableShaped)
  {
    var a := new Row[|rows|](i requires 0 <= i < |rows| => rows[i]);
    assert a[..] == rows;
    ShapeRows(a);
    shaped := a[..];
  }

  /** The body of one shaping loop for row `x`. */
  method ShapeForTable(x: Row) returns (s: Row)
    requires TableReady(x)
    ensures s == TableShaped(x)
  {
    s := x;
    s := s - {"owner"};
    s := s - {"submitter"};
    s := s["priority" := Str(s["priority"].p.Name())];
    s := s["state" := Str(s["state"].st.Name())];
  }

  // ---------------------------------------------------------------------------
  // The manager

  class TodoManager {
    const username: string
    const store: TaskStore
    var tasks: seq<Row>
    var userTasks: seq<Row>
    var managerTasks: seq<Row>

    /** `TodoManager(user)`: the user's active tasks, split into those they submitted and the rest. */
    constructor(username: string, store: TaskStore)
      ensures this.username == username && this.store == store
      ensures tasks == FetchTasks(store.todos, username)
      ensures userTasks == Filter(tasks, SubmittedBy(username))
      ensures managerTasks == Filter(tasks, Not(SubmittedBy(username)))
    {
      this.username := username;
      this.store := store;
      var fetched := FetchTasks(store.todos, username);
      tasks := fetched;
      userTasks := Filter(fetched, SubmittedBy(username));
      managerTasks := Filter(fetched, Not(SubmittedBy(username)));
    }

    /**
     * `add_task(task, owner, submitter)`: the new record is appended when it
     * is well formed and the commit succeeds; otherwise the session rolls
     * back and the table is as it was. Nothing is returned either way.
     */
    method AddTask(input: TaskInput, owner: string, submitter: string, now: int, commitOk: bool)
      requires store.Valid()
      modifies store
      ensures store.Valid()
      ensures var rec := NewRecord(old(store.nextId), input, owner, submitter, now);
        if rec.Some? && commitOk then
          store.todos == old(store.todos) + [rec.value] && store.nextId == old(store.nextId) + 1
        else
          store.todos == old(store.todos) && store.nextId == old(store.nextId)
    {
      var rec := NewRecord(store.nextId, input, owner, submitter, now);
      if rec.Some? && commitOk {
        store.todos := store.todos + [rec.value];
        store.nextId := store.nextId + 1;
      }
    }

    /**
     * `delete_task(task_id)`: looks the id up under the caller's own
     * namespace. None when no active record has it; otherwise the first such
     * record gets `dtime = now`, kept when the commit succeeds (True) and
     * rolled back when it fails (False).
     */
    method DeleteTask(raw: string, now: int, commitOk: bool) returns (res: Option<bool>)
      requires store.Valid()
      modifies store
      ensures store.Valid() && store.nextId == old(store.nextId)
      ensures var found := FirstActive(old(store.todos), Namespaced(username, raw));
        && (found.None? ==> res.None? && store.todos == old(store.todos))
        && (found.Some? ==> res == Some(commitOk))
        && (found.Some? && commitOk ==> store.todos == SoftDeleted(old(store.todos), found.value, now))
        && (found.Some? && !commitOk ==> store.todos == old(store.todos))
    {
      var id := username + "_" + raw;
      var found := FirstActive(store.todos, id);
      if found.None? {
        return None;
      }
      var i := found.value;
      if commitOk {
        store.todos := SoftDeleted(store.todos, i, now);
        assert forall j :: 0 <= j < |store.todos| ==> store.todos[j].id == old(store.todos)[j].id;
        return Some(true);
      }
      return Some(false);
    }

    /**
     * `_get_markdown_table()`: the self tasks and the manager tasks of the
     * user's active tasks, each shaped for display, ready for `tabulate`.
     */
    method MarkdownTable() returns (res: Result<(seq<Row>, seq<Row>), Error>)
      ensures res == TableReport(store.todos, username)
    {
      var fetched := TableQuery(store.todos, username);
      if fetched.Err? {
        return Err(fetched.error);
      }
      var tasks := fetched.value;
      TableQueryReady(store.todos, username);
      var selfTasks := Filter(tasks, SelfSubmittedRow());
      var managerTasks := Filter(tasks, NotSelfTask(tasks));
      var selfRows := ShapedCopy(selfTasks);
      var managerRows := ShapedCopy(managerTasks);
      res := Ok((selfRows, managerRows));
    }
  }
}
