/**
 * Running a query over the `todo` table: the WHERE predicates, the row
 * projection of `row._asdict()`, `Todo.fetch_tasks` (app/db/models/todo.py:63-78),
 * `Todo._fetch_all_where` (:127-139) and `Todo._fetch_all` (:141-172).
 * The database computes the FROM clause (a cross product, or the foreign-key
 * join of `query.join`); here it is given as the sequence of candidate tuples.
 */
module Query {
  import opened Wrappers
  import opened Seqs
  import opened Schema
  import opened Fields
  import opened Sanitise

  /**
   * A WHERE predicate as SQLAlchemy builds it. `col == None` becomes `IS NULL`
   * and `col != None` becomes `IS NOT NULL`; otherwise SQL compares, and a NULL
   * column satisfies neither `=` nor `!=`.
   */
  datatype Pred =
    | Eq(ref: ColumnRef, value: Value)         // `col == value`, `col.is_(None)`
    | Ne(ref: ColumnRef, value: Value)         // `col != value`
    | Same(ref: ColumnRef, other: ColumnRef)   // `col == other_col`, a join condition

  function Get(tup: Tuple, ref: ColumnRef): Value
  {
    if ref in tup then tup[ref] else Null
  }

  predicate Holds(p: Pred, tup: Tuple)
  {
    match p
    case Eq(ref, v) => Get(tup, ref) == v
    case Ne(ref, v) => Get(tup, ref) != Null && Get(tup, ref) != v
    case Same(a, b) => Get(tup, a) != Null && Get(tup, a) == Get(tup, b)
  }

  predicate AllHold(preds: seq<Pred>, tup: Tuple)
  {
    forall i :: 0 <= i < |preds| ==> Holds(preds[i], tup)
  }

  function Satisfying(preds: seq<Pred>): Tuple -> bool
  {
    tup => AllHold(preds, tup)
  }

  function FieldRef(f: Field): ColumnRef
  {
    Col(f.table, f.column)
  }

  /** `row._asdict()` of the selected fields: each field's key maps to its column's value; a later field with the same key wins. */
  function Project(fields: seq<Field>, tup: Tuple): (r: Row)
    ensures r.Keys == set f | f in fields :: f.Key()
    decreases |fields|
  {
    if fields == [] then map[]
    else
      assert forall f :: f in fields ==> f in Init(fields) || f == Last(fields);
      Project(Init(fields), tup)[Last(fields).Key() := Get(tup, FieldRef(Last(fields)))]
  }

  /** No two selected fields share a key unless they select the same column. */
  ghost predicate KeysDetermineColumns(fields: seq<Field>)
  {
    forall f, g :: f in fields && g in fields && f.Key() == g.Key() ==> FieldRef(f) == FieldRef(g)
  }

  /** Under unique keys, the row holds each selected field's column value under its key. */
  lemma {:induction false} ProjectAt(fields: seq<Field>, tup: Tuple, f: Field)
    requires KeysDetermineColumns(fields)
    requires f in fields
    ensures f.Key() in Project(fields, tup) && Project(fields, tup)[f.Key()] == Get(tup, FieldRef(f))
    decreases |fields|
  {
    var last := Last(fields);
    assert last in fields;
    if f.Key() != last.Key() {
      assert fields == Init(fields) + [last];
      assert f in Init(fields);
      ProjectAt(Init(fields), tup, f);
    }
  }

  lemma ProjectSnoc(fields: seq<Field>, f: Field, tup: Tuple)
    ensures Project(fields + [f], tup) == Project(fields, tup)[f.Key() := Get(tup, FieldRef(f))]
  {
    assert Init(fields + [f]) == fields && Last(fields + [f]) == f;
  }

  /** A projection reads only the selected columns. */
  lemma {:induction false} ProjectAgree(fields: seq<Field>, a: Tuple, b: Tuple)
    requires forall f :: f in fields ==> Get(a, FieldRef(f)) == Get(b, FieldRef(f))
    ensures Project(fields, a) == Project(fields, b)
    decreases |fields|
  {
    if fields != [] {
      assert Last(fields) in fields;
      assert forall f :: f in Init(fields) ==> f in fields;
      ProjectAgree(Init(fields), a, b);
    }
  }

  function Projector(fields: seq<Field>): Tuple -> Row
  {
    tup => Project(fields, tup)
  }

  /** `query(*fields).filter(cond).all()`, rows as dicts, in the order the database returns them. */
  function RunQuery(fields: seq<Field>, cond: Tuple -> bool, cands: seq<Tuple>): seq<Row>
  {
    Map(Filter(cands, cond), Projector(fields))
  }

  /** The tuples of the `todo` table alone, one per record, in table order. */
  function TodoTuples(table: seq<Todo>): seq<Tuple>
  {
    Map(table, TodoTuple)
  }

  // ---------------------------------------------------------------------------
  // fetch_tasks

  /** The ten columns `fetch_tasks` selects. */
  const TaskColumns: seq<string> := [
    "owner", "submitter", "task", "priority", "state", "task_id", "createtime", "due", "mtime", "timesmodified"]

  function TaskFields(): seq<Field>
  {
    Map(TaskColumns, Labeler(TodoTable, false))
  }

  /** `Todo.owner == user, Todo.dtime.is_(None)` */
  function OwnedActivePreds(user: string): seq<Pred>
  {
    [Eq(Col("todo", "owner"), Str(user)), Eq(Col("todo", "dtime"), Null)]
  }

  function ActiveOwnedBy(user: string): Todo -> bool
  {
    (t: Todo) => t.owner == user && t.IsActive()
  }

  /** `Todo.fetch_tasks(user)`: in table order, the row of each active record owned by `user`. */
  function FetchTasks(table: seq<Todo>, user: string): (r: seq<Row>)
    ensures r == Map(Filter(table, ActiveOwnedBy(user)), TaskRow)
  {
    OwnedActiveQuery(table, user);
    RunQuery(TaskFields(), Satisfying(OwnedActivePreds(user)), TodoTuples(table))
  }

  /** The row `fetch_tasks` returns for record `t`. */
  function TaskRow(t: Todo): Row
  {
    Project(TaskFields(), TodoTuple(t))
  }

  /** The two predicates hold of a record's tuple exactly when it is an active record of `user`. */
  lemma OwnedActiveHolds(user: string, t: Todo)
    ensures AllHold(OwnedActivePreds(user), TodoTuple(t)) <==> ActiveOwnedBy(user)(t)
  {
    TodoTupleAt(t);
    OwnedActiveAt(user, TodoTuple(t), t.owner, t.dtime);
  }

  /** The two predicates read `owner` and `dtime`; stated over any tuple holding those values. */
  lemma OwnedActiveAt(user: string, tup: Tuple, owner: string, dtime: Option<int>)
    requires Get(tup, Col("todo", "owner")) == Str(owner) && Get(tup, Col("todo", "dtime")) == TimeValue(dtime)
    ensures AllHold(OwnedActivePreds(user), tup) <==> owner == user && dtime.None?
  {
    var preds := OwnedActivePreds(user);
    assert AllHold(preds, tup) <==> Holds(preds[0], tup) && Holds(preds[1], tup);
  }

  lemma TodoTupleAt(t: Todo)
    ensures Get(TodoTuple(t), Col("todo", "owner")) == Str(t.owner)
    ensures Get(TodoTuple(t), Col("todo", "dtime")) == TimeValue(t.dtime)
  {
    ColumnsOfTodo(t);
    assert "owner" in TodoColumns && "dtime" in TodoColumns;
  }

  /** Every row of a query over `todo` alone holds exactly its selected columns, with the record's values. */
  lemma {:induction false} ProjectTodo(fields: seq<Field>, t: Todo)
    requires forall f :: f in fields ==> f == TableField(TodoTable, f.column, false) && f.column in TodoColumns
    ensures Project(fields, TodoTuple(t)).Keys == set f | f in fields :: f.column
    ensures forall f :: f in fields ==> Project(fields, TodoTuple(t))[f.column] == Column(t, f.column)
  {
    assert forall f :: f in fields ==> f.Key() == f.column;
    assert (set f | f in fields :: f.Key()) == set f | f in fields :: f.column;
    assert KeysDetermineColumns(fields);
    forall f | f in fields ensures Project(fields, TodoTuple(t))[f.column] == Column(t, f.column) {
      ProjectAt(fields, TodoTuple(t), f);
      assert FieldRef(f) == Col("todo", f.column);
    }
  }

  /** The query of `fetch_tasks` keeps, in table order, the tuple of each active record owned by `user`. */
  lemma OwnedActiveQuery(table: seq<Todo>, user: string)
    ensures RunQuery(TaskFields(), Satisfying(OwnedActivePreds(user)), TodoTuples(table))
      == Map(Filter(table, ActiveOwnedBy(user)), TaskRow)
  {
    forall i | 0 <= i < |table| ensures ActiveOwnedBy(user)(table[i]) <==> Satisfying(OwnedActivePreds(user))(TodoTuple(table[i])) {
      OwnedActiveHolds(user, table[i]);
    }
    FilterMap(table, TodoTuple, Satisfying(OwnedActivePreds(user)), ActiveOwnedBy(user));
    var picked := Filter(table, ActiveOwnedBy(user));
    MapCompose(picked, TodoTuple, Projector(TaskFields()), TaskRow);
  }

  /** Every active record of `user` has its row in `fetch_tasks(user)`. */
  lemma FetchTasksComplete(table: seq<Todo>, user: string, t: Todo)
    requires t in table && t.owner == user && t.IsActive()
    ensures TaskRow(t) in FetchTasks(table, user)
  {
    var picked := Filter(table, ActiveOwnedBy(user));
    assert t in picked by {
      var j :| 0 <= j < |table| && table[j] == t;
      assert ActiveOwnedBy(user)(table[j]);
    }
    MapHas(picked, TaskRow, t);
  }

  /**
   * Every row of `fetch_tasks(user)` comes from an active record of `user`
   * and holds exactly the ten selected columns: `id`, `dtime` and
   * `isgroupitem` are never present.
   */
  lemma FetchTasksSound(table: seq<Todo>, user: string, r: map<string, Value>)
    requires r in FetchTasks(table, user)
    ensures exists t :: t in table && t.owner == user && t.IsActive() && r == TaskRow(t)
    ensures r.Keys == set c | c in TaskColumns
    ensures "id" !in r && "dtime" !in r && "isgroupitem" !in r
  {
    var t := MapFilterFrom(table, ActiveOwnedBy(user), TaskRow, r);
    TaskRowValues(t);
    TaskColumnsOmit();
  }

  /** Selecting some columns of `todo` by name gives a row with exactly those keys and the record's values. */
  lemma ProjectColumns(cols: seq<string>, t: Todo)
    requires forall c :: c in cols ==> c in TodoColumns
    ensures Project(Map(cols, Labeler(TodoTable, false)), TodoTuple(t)).Keys == set c | c in cols
    ensures forall c :: c in cols ==> Project(Map(cols, Labeler(TodoTable, false)), TodoTuple(t))[c] == Column(t, c)
  {
    var fields := Map(cols, Labeler(TodoTable, false));
    forall f | f in fields ensures f == TableField(TodoTable, f.column, false) && f.column in TodoColumns {
      var k :| 0 <= k < |fields| && fields[k] == f;
      assert cols[k] in cols;
    }
    ProjectTodo(fields, t);
    LabelledColumns(cols, fields);
  }

  /** Labelling each column of `cols` keeps exactly the columns of `cols`. */
  lemma LabelledColumns(cols: seq<string>, fields: seq<Field>)
    requires |fields| == |cols|
    requires forall i :: 0 <= i < |cols| ==> fields[i].column == cols[i]
    ensures (set f | f in fields :: f.column) == set c | c in cols
  {
    var keys := set f | f in fields :: f.column;
    forall c | c in cols ensures c in keys {
      var k :| 0 <= k < |cols| && cols[k] == c;
      assert fields[k] in fields;
    }
    forall c | c in keys ensures c in cols {
      var f :| f in fields && f.column == c;
      var k :| 0 <= k < |fields| && fields[k] == f;
      assert cols[k] in cols;
    }
  }

  lemma TaskColumnsOmit()
    ensures "id" !in TaskColumns && "dtime" !in TaskColumns && "isgroupitem" !in TaskColumns
  {
  }

  /** `fetch_tasks` rows carry the record's own values under the column names. */
  lemma TaskRowValues(t: Todo)
    ensures TaskRow(t).Keys == set c | c in TaskColumns
    ensures forall c :: c in TaskColumns ==> TaskRow(t)[c] == Column(t, c)
  {
    ProjectColumns(TaskColumns, t);
  }

  // ---------------------------------------------------------------------------
  // _fetch_all_where

  predicate HasDtime(t: Table)
  {
    "dtime" in t.columns
  }

  function DtimeIsNull(t: Table): Pred
  {
    Eq(Col(t.name, "dtime"), Null)
  }

  /** The `dtime is null` predicates added for the joined tables that have a `dtime` column, in join order. */
  function SoftDeletePreds(joined: seq<Table>): (r: seq<Pred>)
    ensures forall t :: t in joined && "dtime" in t.columns ==> Eq(Col(t.name, "dtime"), Null) in r
    ensures forall i :: 0 <= i < |r| ==> exists t :: t in joined && "dtime" in t.columns && r[i] == Eq(Col(t.name, "dtime"), Null)
  {
    var withDtime := Filter(joined, HasDtime);
    var r := Map(withDtime, DtimeIsNull);
    assert forall t :: t in withDtime ==> DtimeIsNull(t) in r by {
      forall t | t in withDtime ensures DtimeIsNull(t) in r {
        var i :| 0 <= i < |withDtime| && withDtime[i] == t;
        assert r[i] == DtimeIsNull(t);
      }
    }
    r
  }

  /**
   * `Todo._fetch_all_where(*where, joined_tables, excluded_fields, whitelist)`:
   * one row per tuple that satisfies `where` and whose joined tables are not
   * soft-deleted, keyed by the field list; it fails only on a bad field list,
   * or while stripping task ids when `task_id` is not excluded.
   */
  function FetchAllWhere(cands: seq<Tuple>, where: seq<Pred>, main: Table, joined: seq<Table>,
                         excluded: seq<string>, whitelist: seq<string>): (r: Result<seq<Row>, Error>)
    ensures r.Ok? ==> (FieldList(main, joined, excluded, whitelist).Ok?
      && |r.value| == |Filter(cands, Satisfying(where + SoftDeletePreds(joined)))|
      && forall i :: 0 <= i < |r.value| ==>
           r.value[i].Keys == set f | f in FieldList(main, joined, excluded, whitelist).value :: f.Key())
    ensures r.Err? && FieldList(main, joined, excluded, whitelist).Ok? ==> "task_id" !in excluded
    ensures FieldList(main, joined, excluded, whitelist).Err? ==> r == Err(FieldList(main, joined, excluded, whitelist).error)
  {
    match FieldList(main, joined, excluded, whitelist)
    case Err(e) => Err(e)
    case Ok(fields) =>
      var rows := RunQuery(fields, Satisfying(where + SoftDeletePreds(joined)), cands);
      if "task_id" !in excluded then SanitiseAll(rows) else Ok(rows)
  }

  /**
   * `_fetch_all_where` strips the namespace of every row's `task_id` exactly
   * when `task_id` is not excluded; otherwise it returns the query rows as
   * they are. Either way it returns one row per matching tuple, in order.
   */
  lemma FetchAllWhereSanitises(cands: seq<Tuple>, where: seq<Pred>, main: Table, joined: seq<Table>,
                               excluded: seq<string>, whitelist: seq<string>)
    requires FieldList(main, joined, excluded, whitelist).Ok?
    ensures var rows := RunQuery(FieldList(main, joined, excluded, whitelist).value, Satisfying(where + SoftDeletePreds(joined)), cands);
      var r := FetchAllWhere(cands, where, main, joined, excluded, whitelist);
      && ("task_id" in excluded ==> r == Ok(rows))
      && ("task_id" !in excluded ==>
            (r.Ok? <==> forall i :: 0 <= i < |rows| ==> "task_id" in rows[i] && rows[i]["task_id"].Str? && '_' in rows[i]["task_id"].s))
      && (r.Ok? && "task_id" !in excluded ==> |r.value| == |rows| && forall i :: 0 <= i < |rows| ==>
            && r.value[i].Keys == rows[i].Keys
            && Some(r.value[i]["task_id"].s) == AfterFirstUnderscore(rows[i]["task_id"].s)
            && forall k :: k in rows[i] && k != "task_id" ==> r.value[i][k] == rows[i][k])
  {
  }

  /** A kept tuple satisfies every given predicate and has every joined `dtime` null. */
  lemma KeptIsSelected(where: seq<Pred>, joined: seq<Table>, tup: Tuple)
    requires Satisfying(where + SoftDeletePreds(joined))(tup)
    ensures forall p :: p in where ==> Holds(p, tup)
    ensures forall t :: t in joined && "dtime" in t.columns ==> Get(tup, Col(t.name, "dtime")) == Null
  {
    var all := where + SoftDeletePreds(joined);
    var preds := SoftDeletePreds(joined);
    forall p | p in where ensures Holds(p, tup) {
      var i :| 0 <= i < |where| && where[i] == p;
      assert all[i] == p;
    }
    forall t | t in joined && "dtime" in t.columns ensures Get(tup, Col(t.name, "dtime")) == Null {
      var i :| 0 <= i < |preds| && preds[i] == Eq(Col(t.name, "dtime"), Null);
      assert all[|where| + i] == preds[i];
    }
  }

  /** A tuple that satisfies every given predicate and has every joined `dtime` null is kept. */
  lemma SelectedIsKept(where: seq<Pred>, joined: seq<Table>, tup: Tuple)
    requires forall p :: p in where ==> Holds(p, tup)
    requires forall t :: t in joined && "dtime" in t.columns ==> Get(tup, Col(t.name, "dtime")) == Null
    ensures Satisfying(where + SoftDeletePreds(joined))(tup)
  {
    var all := where + SoftDeletePreds(joined);
    var preds := SoftDeletePreds(joined);
    forall i | 0 <= i < |all| ensures Holds(all[i], tup) {
      if i < |where| {
        assert all[i] == where[i];
      } else {
        assert all[i] == preds[i - |where|];
        var t :| t in joined && "dtime" in t.columns && preds[i - |where|] == Eq(Col(t.name, "dtime"), Null);
      }
    }
  }

  /**
   * `_fetch_all_where` keeps a tuple exactly when it satisfies every given
   * predicate and every joined table that has `dtime` has it null.
   */
  lemma FetchAllWhereSoftDeletes(where: seq<Pred>, joined: seq<Table>, tup: Tuple)
    ensures Satisfying(where + SoftDeletePreds(joined))(tup) <==>
      && (forall p :: p in where ==> Holds(p, tup))
      && (forall t :: t in joined && "dtime" in t.columns ==> Get(tup, Col(t.name, "dtime")) == Null)
  {
    if Satisfying(where + SoftDeletePreds(joined))(tup) {
      KeptIsSelected(where, joined, tup);
    }
    if (forall p :: p in where ==> Holds(p, tup))
      && (forall t :: t in joined && "dtime" in t.columns ==> Get(tup, Col(t.name, "dtime")) == Null)
    {
      SelectedIsKept(where, joined, tup);
    }
  }

  // ---------------------------------------------------------------------------
  // _fetch_all

  /** A filter value of `_fetch_all`: marshmallow's `missing`, or a value to compare with. */
  datatype FilterArg = Missing | Given(value: Value)

  /** `{k: v for k, v in filters.items() if v is not missing}` */
  function PruneMissing(filters: map<string, FilterArg>): (kept: map<string, Value>)
    ensures kept.Keys == set k | k in filters && filters[k].Given?
    ensures forall k :: k in kept ==> filters[k] == Given(kept[k])
  {
    map k | k in filters && filters[k].Given? :: filters[k].value
  }

  /** A key marked `missing` is the same as a key not passed at all. */
  lemma MissingIsAbsent(filters: map<string, FilterArg>, k: string)
    ensures PruneMissing(filters[k := Missing]) == PruneMissing(filters - {k})
  {
  }

  /** `filter_by(**kept)` on the main table: each kept key equals its value (`IS NULL` for None). */
  predicate MatchesFilters(kept: map<string, Value>, main: Table, tup: Tuple)
  {
    forall k :: k in kept ==> Holds(Eq(Col(main.name, k), kept[k]), tup)
  }

  /**
   * Marking a filter `missing` drops it from the WHERE clause, which is not the
   * same as passing None: a row whose column is set passes the first and
   * fails the second.
   */
  lemma MissingIsNotNone(main: Table, k: string, tup: Tuple)
    requires Get(tup, Col(main.name, k)) != Null
    ensures MatchesFilters(PruneMissing(map[k := Missing]), main, tup)
    ensures !MatchesFilters(PruneMissing(map[k := Given(Null)]), main, tup)
  {
    assert PruneMissing(map[k := Missing]) == map[];
    assert k in PruneMissing(map[k := Given(Null)]);
  }

  const JoinFailed: Error := ValidationError(400, "Must choose at least one field from main table")

  function FetchAllCondition(kept: map<string, Value>, main: Table, joined: seq<Table>): Tuple -> bool
  {
    tup => MatchesFilters(kept, main, tup) && AllHold(SoftDeletePreds(joined), tup)
  }

  /**
   * `Todo._fetch_all(filters, joined_tables, excluded_fields, whitelist)`.
   * `joinable` names the tables the database can join to the query; joining
   * any other raises. `filter_by` with a name that is not a column raises.
   */
  function FetchAll(cands: seq<Tuple>, filters: map<string, FilterArg>, main: Table, joined: seq<Table>,
                    excluded: seq<string>, whitelist: seq<string>, joinable: set<string>): (r: Result<seq<Row>, Error>)
    ensures r.Ok? ==> (FieldList(main, joined, excluded, whitelist).Ok?
      && (forall k :: k in filters && filters[k].Given? ==> k in main.columns)
      && (forall t :: t in joined ==> t.name in joinable))
    ensures r.Err? && FieldList(main, joined, excluded, whitelist).Ok? && (forall t :: t in joined ==> t.name in joinable) ==>
      (r.error == InvalidRequest && exists k :: k in filters && filters[k].Given? && k !in main.columns)
    ensures FieldList(main, joined, excluded, whitelist).Err? ==> r == Err(FieldList(main, joined, excluded, whitelist).error)
    ensures (FieldList(main, joined, excluded, whitelist).Ok?
      && (forall k :: k in filters && filters[k].Given? ==> k in main.columns)
      && (exists t :: t in joined && t.name !in joinable)) ==> r == Err(JoinFailed)
  {
    var kept := PruneMissing(filters);
    match FieldList(main, joined, excluded, whitelist)
    case Err(e) => Err(e)
    case Ok(fields) =>
      if exists k :: k in kept && k !in main.columns then Err(InvalidRequest)
      else if exists t :: t in joined && t.name !in joinable then Err(JoinFailed)
      else Ok(RunQuery(fields, FetchAllCondition(kept, main, joined), cands))
  }

  /**
   * The tuples `_fetch_all` is meant to return, stated without SQL: every
   * given filter equals the main table's column, and every joined table that
   * soft-deletes is not deleted.
   */
  function FetchAllSelection(filters: map<string, FilterArg>, main: Table, joined: seq<Table>): Tuple -> bool
  {
    tup =>
      && (forall k :: k in filters && filters[k].Given? ==> Get(tup, Col(main.name, k)) == filters[k].value)
      && (forall t :: t in joined && "dtime" in t.columns ==> Get(tup, Col(t.name, "dtime")) == Null)
  }

  /** The pruned `filter_by` and the joined `dtime IS NULL` filters keep exactly the selected tuples. */
  lemma FetchAllConditionIff(filters: map<string, FilterArg>, main: Table, joined: seq<Table>, tup: Tuple)
    ensures FetchAllCondition(PruneMissing(filters), main, joined)(tup) <==> FetchAllSelection(filters, main, joined)(tup)
  {
    var preds := SoftDeletePreds(joined);
    if forall t :: t in joined && "dtime" in t.columns ==> Get(tup, Col(t.name, "dtime")) == Null {
      forall i | 0 <= i < |preds| ensures Holds(preds[i], tup) {
        var t :| t in joined && "dtime" in t.columns && preds[i] == Eq(Col(t.name, "dtime"), Null);
      }
    }
    if AllHold(preds, tup) {
      forall t | t in joined && "dtime" in t.columns ensures Get(tup, Col(t.name, "dtime")) == Null {
        var i :| 0 <= i < |preds| && preds[i] == Eq(Col(t.name, "dtime"), Null);
        assert Holds(preds[i], tup);
      }
    }
  }

  /**
   * When `_fetch_all` succeeds it returns, in order, one row per selected
   * candidate tuple, holding the tuple's values under the field list's keys.
   */
  lemma FetchAllSelects(cands: seq<Tuple>, filters: map<string, FilterArg>, main: Table, joined: seq<Table>,
                        excluded: seq<string>, whitelist: seq<string>, joinable: set<string>)
    requires FetchAll(cands, filters, main, joined, excluded, whitelist, joinable).Ok?
    ensures FetchAll(cands, filters, main, joined, excluded, whitelist, joinable).value ==
      Map(Filter(cands, FetchAllSelection(filters, main, joined)), Projector(FieldList(main, joined, excluded, whitelist).value))
  {
    forall i | 0 <= i < |cands|
      ensures FetchAllCondition(PruneMissing(filters), main, joined)(cands[i]) <==> FetchAllSelection(filters, main, joined)(cands[i])
    {
      FetchAllConditionIff(filters, main, joined, cands[i]);
    }
    FilterCongruent(cands, FetchAllCondition(PruneMissing(filters), main, joined), FetchAllSelection(filters, main, joined));
  }
}
