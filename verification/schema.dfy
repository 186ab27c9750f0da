/**
 * The `todo` table (app/db/models/todo.py:16-61), the two columns of the user
 * directory that the report joins on, and the values a query row can hold.
 */
module Schema {
  import opened Wrappers

  /** `StateEnum`; the column stores a member by its name. */
  datatype StateEnum = Initial | Active | Completed | Reopened {
    function Name(): string
    {
      match this
      case Initial => "initial"
      case Active => "active"
      case Completed => "completed"
      case Reopened => "reopened"
    }
  }

  /** `PriorityEnum`; the column stores a member by its name. */
  datatype PriorityEnum = Low | Medium | High {
    function Name(): string
    {
      match this
      case Low => "low"
      case Medium => "medium"
      case High => "high"
    }
  }

  /** The enum column's lookup of a member by name: None for a name that is not a member. */
  function StateFromName(name: string): (r: Option<StateEnum>)
    ensures r.Some? ==> r.value.Name() == name
    ensures r.None? ==> forall e: StateEnum :: e.Name() != name
  {
    if name == "initial" then Some(Initial)
    else if name == "active" then Some(Active)
    else if name == "completed" then Some(Completed)
    else if name == "reopened" then Some(Reopened)
    else None
  }

  function PriorityFromName(name: string): (r: Option<PriorityEnum>)
    ensures r.Some? ==> r.value.Name() == name
    ensures r.None? ==> forall e: PriorityEnum :: e.Name() != name
  {
    if name == "low" then Some(Low)
    else if name == "medium" then Some(Medium)
    else if name == "high" then Some(High)
    else None
  }

  /** Storing an enum by its name and reading it back gives the same member. */
  lemma EnumNamesRoundTrip(s: StateEnum, p: PriorityEnum)
    ensures StateFromName(s.Name()) == Some(s)
    ensures PriorityFromName(p.Name()) == Some(p)
  {
    match s
    case Initial =>
    case Active =>
    case Completed =>
    case Reopened =>
    match p
    case Low =>
    case Medium =>
    case High =>
  }

  /** A value in a result row: a column's value, or a rendered string. Datetimes are integer timestamps. */
  datatype Value =
    | Null
    | Str(s: string)
    | Int(i: int)
    | Bool(b: bool)
    | Time(t: int)
    | PriorityVal(p: PriorityEnum)
    | StateVal(st: StateEnum)

  function TimeValue(t: Option<int>): Value
  {
    if t.Some? then Time(t.value) else Null
  }

  /** A record of the `todo` table. A record is active while `dtime` is None. */
  datatype Todo = Todo(
    id: int,
    owner: string,
    submitter: string,
    task: string,
    priority: PriorityEnum,
    state: StateEnum,
    taskId: string,
    createtime: Option<int>,
    due: Option<int>,
    dtime: Option<int>,
    mtime: Option<int>,
    timesmodified: int,
    isgroupitem: bool)
  {
    predicate IsActive()
    {
      dtime.None?
    }
  }

  /** The columns of `todo`, in declaration order. */
  const TodoColumns: seq<string> := [
    "id", "owner", "submitter", "task", "priority", "state", "task_id",
    "createtime", "due", "dtime", "mtime", "timesmodified", "isgroupitem"]

  /** A table as the field-list builder sees it: its `__tablename__` and its column names in order. */
  datatype Table = Table(name: string, columns: seq<string>)

  const TodoTable: Table := Table("todo", TodoColumns)

  /** The value of column `c` of record `t` (Null for a name that is not a column). */
  function Column(t: Todo, c: string): Value
  {
    if c == "id" then Int(t.id)
    else if c == "owner" then Str(t.owner)
    else if c == "submitter" then Str(t.submitter)
    else if c == "task" then Str(t.task)
    else if c == "priority" then PriorityVal(t.priority)
    else if c == "state" then StateVal(t.state)
    else if c == "task_id" then Str(t.taskId)
    else if c == "createtime" then TimeValue(t.createtime)
    else if c == "due" then TimeValue(t.due)
    else if c == "dtime" then TimeValue(t.dtime)
    else if c == "mtime" then TimeValue(t.mtime)
    else if c == "timesmodified" then Int(t.timesmodified)
    else if c == "isgroupitem" then Bool(t.isgroupitem)
    else Null
  }

  lemma ColumnsOfTodo(t: Todo)
    ensures Column(t, "owner") == Str(t.owner) && Column(t, "submitter") == Str(t.submitter)
    ensures Column(t, "task_id") == Str(t.taskId) && Column(t, "isgroupitem") == Bool(t.isgroupitem)
    ensures Column(t, "state") == StateVal(t.state) && Column(t, "priority") == PriorityVal(t.priority)
    ensures Column(t, "dtime") == TimeValue(t.dtime)
  {
  }

  /** A user of the directory the report joins on: only the three columns it reads. */
  datatype User = User(username: string, name: string, managerId: Option<string>)

  const UserTable: Table := Table("user", ["username", "name", "manager_id"])

  /** A column qualified by its table, as in `Todo.owner` or `User.name`. */
  datatype ColumnRef = Col(table: string, column: string)

  /** One candidate row of a query's FROM clause: a value for every column of every table in it. */
  type Tuple = map<ColumnRef, Value>

  /** A result row after `row._asdict()`: field key to value. */
  type Row = map<string, Value>

  function TodoTuple(t: Todo): (tup: Tuple)
    ensures forall c :: c in TodoColumns ==> Col("todo", c) in tup && tup[Col("todo", c)] == Column(t, c)
    ensures forall r :: r in tup ==> r.table == "todo"
  {
    map c | c in TodoColumns :: Col("todo", c) := Column(t, c)
  }

  function UserTuple(u: User): (tup: Tuple)
    ensures forall r :: r in tup ==> r.table == "user"
    ensures Col("user", "username") in tup && tup[Col("user", "username")] == Str(u.username)
    ensures Col("user", "name") in tup && tup[Col("user", "name")] == Str(u.name)
    ensures Col("user", "manager_id") in tup && tup[Col("user", "manager_id")] == if u.managerId.Some? then Str(u.managerId.value) else Null
  {
    map[
      Col("user", "username") := Str(u.username),
      Col("user", "name") := Str(u.name),
      Col("user", "manager_id") := if u.managerId.Some? then Str(u.managerId.value) else Null]
  }

  /** The exceptions that reach the caller. */
  datatype Error =
    | ValidationError(status: nat, message: string)  // webargs ValidationError
    | InvalidRequest                                 // `filter_by` with a name that is not a column
    | KeyError(key: string)
    | AttributeError                                 // `.split` on a non-string, `Todo.<name>` for a name that is no column
    | IndexError                                     // `split('_', 1)[1]` on a string without `_`
}
