# assistot tasks, modelled in Dafny

This project models the task store of the assistot chat bot.

- **The `todo` table** (`Todo`). Records are soft-deleted by stamping `dtime`. Each record's `task_id` is namespaced as `<submitter>_<raw id>`.
- **Its query helpers:**
  - `fetch_tasks`;
  - `_make_field_list` and `unpack_fields`;
  - `_fetch_all_where` and `_fetch_all`;
  - `get_reportees_tasks`, with its aggregation into a group dict and a per-owner dict;
  - `sanitise_task_id`.
- **The bot's `TodoManager`:**
  - the constructor splits the user's tasks by submitter;
  - `add_task`;
  - `delete_task`, a soft delete;
  - `_get_markdown_table`, which produces the two lists of rows the bot renders.

Modules, one per concern:

| file | module | what it holds |
|---|---|---|
| `wrappers.dfy` | `Wrappers` | `Option` and `Result` (Python's None and the exceptions that reach the caller) |
| `seqs.dfy` | `Seqs` | `Filter`, `Map` and `Interleaving`, standing for list comprehensions, with their lemmas |
| `schema.dfy` | `Schema` | the enums, the `Todo` record and its columns, values, tuples, rows and errors |
| `fields.dfy` | `Fields` | `unpack_fields` and `_make_field_list` |
| `sanitise.dfy` | `Sanitise` | task-id namespacing and `sanitise_task_id` (an in-place method over an array) |
| `query.dfy` | `Query` | WHERE predicates with SQL's NULL semantics, row projection, `fetch_tasks`, `_fetch_all_where`, `_fetch_all` |
| `aggregate.dfy` | `Grouping` | the aggregation loop of `get_reportees_tasks`, over insertion-ordered dicts |
| `reportees.dfy` | `Reportees` | the join of `todo` with `user` and the whole report |
| `manager.dfy` | `Manager` | `TaskStore` (the table as the session commits to it) and the `TodoManager` class |

**How the database is modelled.**
- The database's FROM clause is given as a sequence of candidate tuples. A tuple maps each qualified column to its value.
- A query filters the candidates with SQLAlchemy's predicates and projects each kept tuple onto the selected fields, as `row._asdict()` does.
- `col == None` becomes `IS NULL`. A NULL column satisfies neither `=` nor `!=`.
- Single-table queries return records in table order. The join returns, record by record, each pairing with a user.

**How the bot's state is modelled.**
- `TaskStore` is a class whose methods reassign its record sequence and next primary key.
- `TodoManager.AddTask` and `TodoManager.DeleteTask` change the store in place. The commit outcome is a parameter, and so is the current time.
- As in the source, the manager's cached `tasks`, `userTasks` and `managerTasks` are computed once, in the constructor.

**Two places where the code does not do what it evidently means.**
- *Deleting twice.* `delete_task` stamps `fetch.dtime or datetime.now()` (app/bot/todo.py:39), which keeps an existing deletion time. But the query looks only at records whose `dtime` is null (app/bot/todo.py:32-35), so that branch can never run. A second delete finds nothing and returns None (Manager.DeleteTwice).
- *Namespace round trip.* `add_task` stores `<submitter>_<raw id>` (app/bot/todo.py:16), but `sanitise_task_id` splits at the first `_` (app/db/models/todo.py:245). A submitter whose name contains `_` therefore leaks part of that name into the displayed id (Sanitise.NamespaceRoundTrip, Sanitise.UnderscoreInSubmitterLeaks).

## Model

| member | source | states |
|---|---|---|
| Schema.StateFromName | app/db/models/todo.py:16-20 | the member carrying a stored name; None exactly when no member has that name |
| Schema.PriorityFromName | app/db/models/todo.py:22-25 | the member carrying a stored name; None exactly when no member has that name |
| Schema.EnumNamesRoundTrip | app/db/models/todo.py:16-25 | storing a member by name and reading it back gives the same member |
| Schema.TodoTuple | app/db/models/todo.py:46-61 | a record's tuple holds every `todo` column with the record's value, and only `todo` columns |
| Schema.UserTuple | app/db/models/todo.py:185-190 | a user's tuple holds `username`, `name` and `manager_id` (NULL when absent), and only `user` columns |
| Fields.Unpacked | app/db/models/todo.py:223-241 | every field is a non-excluded column of the table, labelled `<table>_<column>` exactly when joining; every non-excluded column has its field |
| Fields.UnpackedOrder | app/db/models/todo.py:236-241 | the fields' columns are the table's columns minus the excluded ones, in table order; keys are bare or table-prefixed by `join` |
| Fields.UnpackFields | app/db/models/todo.py:236-241 | the loop builds exactly `Unpacked` |
| Fields.ConcatUnpacked | app/db/models/todo.py:119-124 | every field is a labelled non-blacklisted column of some joined table, and every such column is there |
| Fields.PicksFromSpec | app/db/models/todo.py:109-116 | picking from one joined table fails (400 "Invalid Field Supplied") exactly when a prefixed name has no column; otherwise one labelled field per prefixed name, nothing else |
| Fields.JoinedPicksSpec | app/db/models/todo.py:109-116 | the same across all joined tables: failure exactly on a bad prefixed name; each pick is a labelled column of a joined table and every prefixed name is picked |
| Fields.ConcatUnpackedBlock | app/db/models/todo.py:119-124 | the joined fields are those of each table, labelled, in join order: table `i`'s sit between those of the tables before and after it |
| Fields.FieldListJoinOrder | app/db/models/todo.py:117-124 | without a whitelist, the main table's unpacked columns come first, then each joined table's labelled columns in join order |
| Fields.FieldListWithoutWhitelist | app/db/models/todo.py:117-124 | without a whitelist the list never fails, starts with the main table's unpacked columns, holds every non-blacklisted column of every table and no blacklisted one |
| Fields.WhitelistBaseSpec | app/db/models/todo.py:87-103 | with a whitelist the list starts with the `id`/`*_id` columns, then every whitelisted main column, all unlabelled main-table fields |
| Fields.FieldListWhitelistError | app/db/models/todo.py:105-116 | with a whitelist the list fails exactly when a whitelisted non-column name carries a joined table's prefix but names none of its columns, and the error is the 400 ValidationError |
| Fields.FieldListWhitelistShape | app/db/models/todo.py:86-116 | a successful whitelisted list is the base fields followed by picks, each named in the whitelist, not a main column, and a labelled column of a joined table |
| Fields.FieldListWhitelistPicks | app/db/models/todo.py:105-113 | every whitelisted `<table>_<column>` name of a joined table is selected under that name |
| Fields.FieldListWhitelistDrops | app/db/models/todo.py:92-113 | a whitelisted name that is neither a main column nor prefixed by a joined table is silently dropped |
| Fields.SortWhitelist | app/db/models/todo.py:87-103 | the whitelist loop yields the base fields and the candidate joined names |
| Fields.MakeFieldList | app/db/models/todo.py:80-125 | `_make_field_list` returns exactly `FieldList`, error included |
| Sanitise.FirstUnderscore | app/db/models/todo.py:245 | the position of the first `_`, with none before it; None exactly when there is no `_` |
| Sanitise.AfterFirstUnderscore | app/db/models/todo.py:245 | `split('_', 1)[1]`: None (IndexError) exactly when there is no `_`, else the text after the first `_` |
| Sanitise.NamespaceRoundTrip | app/bot/todo.py:16 | stripping the namespace of `<submitter>_<raw>` gives `raw` back exactly when the submitter has no `_` |
| Sanitise.UnderscoreInSubmitterLeaks | app/db/models/todo.py:245 | submitter `a_b` with raw id `1` reads back as `b_1` |
| Sanitise.SanitiseRow | app/db/models/todo.py:245 | one row succeeds exactly when its `task_id` is a string with `_`; the keys and other values are kept and `task_id` is stripped |
| Sanitise.SanitiseAll | app/db/models/todo.py:243-246 | success exactly when every row succeeds, row by row; otherwise the error of the first failing row |
| Sanitise.SanitiseTaskId | app/db/models/todo.py:243-246 | in place: on success the array holds the sanitised rows; on failure it returns the first error, with the rows before it rewritten and the rest untouched |
| Query.Project | app/db/models/todo.py:136 | `row._asdict()` has exactly the selected fields' keys |
| Query.ProjectAt | app/db/models/todo.py:136 | under keys that determine columns, each field's key holds its column's value |
| Query.ProjectAgree | app/db/models/todo.py:136 | a projection reads only the selected columns |
| Query.OwnedActiveHolds | app/db/models/todo.py:69-70 | `owner == user` and `dtime IS NULL` hold of a record exactly when it is an active record of `user` |
| Query.FetchTasks | app/db/models/todo.py:63-78 | `fetch_tasks(user)` is the row of each active record of `user`, in table order |
| Query.OwnedActiveQuery | app/db/models/todo.py:66-76 | the query with `owner == user` and `dtime IS NULL`, projected onto the ten fields, gives exactly those rows |
| Query.FetchTasksComplete | app/db/models/todo.py:63-78 | every active record of `user` has its row in the result |
| Query.FetchTasksSound | app/db/models/todo.py:63-78 | every row comes from an active record of `user` and has exactly the ten selected columns (no `id`, `dtime`, `isgroupitem`) |
| Query.TaskRowValues | app/db/models/todo.py:66-68 | a `fetch_tasks` row holds the record's own value under each selected column |
| Query.SoftDeletePreds | app/db/models/todo.py:129-131 | one `dtime IS NULL` predicate for each joined table with `dtime`, and no other |
| Query.FetchAllWhere | app/db/models/todo.py:127-139 | on success, one row per candidate that satisfies the given predicates and the joined `dtime IS NULL` ones, each with exactly the field list's keys; it fails only with an invalid field list (that error) or while sanitising `task_id` |
| Query.FetchAllWhereSanitises | app/db/models/todo.py:127-139 | rows are sanitised exactly when `task_id` is not excluded; success and failure of that as for `sanitise_task_id`, row by row |
| Query.FetchAllWhereSoftDeletes | app/db/models/todo.py:129-135 | a tuple is kept exactly when it satisfies every given predicate and has every joined `dtime` null |
| Query.PruneMissing | app/db/models/todo.py:153 | keeps exactly the filters that are not `missing`, with their values |
| Query.MissingIsAbsent | app/db/models/todo.py:153 | a filter marked `missing` is the same as no filter |
| Query.MissingIsNotNone | app/db/models/todo.py:153-160 | `missing` drops a filter while None demands NULL: a set column passes one and fails the other |
| Query.FetchAll | app/db/models/todo.py:141-172 | success only with a valid field list, every filter a column and every table joinable; a failing field list returns that list's error (the 400 "Invalid Field Supplied"); a failure despite a valid field list and joinable tables is InvalidRequest, caused by a filter that is not a column; with a valid field list and column filters, a table that cannot be joined returns the 400 "Must choose at least one field from main table" |
| Query.FetchAllConditionIff | app/db/models/todo.py:153-167 | the query's condition holds of a tuple exactly when every filter that is not `missing` equals its main-table column and every joined `dtime` is null |
| Query.FetchAllSelects | app/db/models/todo.py:153-172 | on success `_fetch_all` returns, in candidate order, the projection onto the field list of exactly the tuples that match every given filter and have every joined `dtime` null |
| Grouping.PutValid | app/db/models/todo.py:212-218 | dict assignment keeps each key once, keeps the old keys' order, adds a new key last and leaves other entries alone |
| Grouping.Shaped | app/db/models/todo.py:199-206 | a reported row loses `owner`, `isgroupitem` and `name`; other keys keep their values, except that a `state` or `priority` enum becomes its name |
| Grouping.ShapeRow | app/db/models/todo.py:199-206 | the loop body's key-by-key rewrite gives `Shaped` |
| Grouping.GroupIdsSpec | app/db/models/todo.py:208-213 | a task id is a key of the group dict exactly when some group row carries it, each once |
| Grouping.GroupEntryJoin | app/db/models/todo.py:209-210 | a group row of a known id appends its `name (owner)` label to `belongs to` |
| Grouping.GroupEntryOpen | app/db/models/todo.py:211-213 | a group row of a new id opens its entry, belonging to its own owner |
| Grouping.GroupEntryOther | app/db/models/todo.py:208-213 | other groups' entries are unchanged by a row |
| Grouping.GroupsClosedForm | app/db/models/todo.py:196-213 | the group dict lists the group ids in order of first appearance, each with its first row and the labels of all its rows |
| Grouping.OwnersSpec | app/db/models/todo.py:214-218 | an owner is a key of the individual dict exactly when one of their rows is individual, each once |
| Grouping.BucketGrows | app/db/models/todo.py:214-218 | an individual row is appended to its owner's list; other lists are unchanged |
| Grouping.BucketsClosedForm | app/db/models/todo.py:197-218 | the individual dict lists owners in order of first appearance, each with their individual rows, shaped, in order |
| Grouping.ReportValid | app/db/models/todo.py:196-197 | both dicts list each key once |
| Grouping.GroupsCover | app/db/models/todo.py:208-213 | every group row is reported under its task id, whose `belongs to` joins, with a comma and a newline, the labels of all group rows of that id, in row order, this row's among them |
| Grouping.BucketsCover | app/db/models/todo.py:214-218 | every individual row appears, shaped, in its owner's list |
| Grouping.IndividualCount | app/db/models/todo.py:214-218 | the per-owner lists hold, together, exactly as many rows as there are individual rows |
| Grouping.BucketsSound | app/db/models/todo.py:214-218 | every list entry comes from an individual row of that owner |
| Grouping.Aggregate | app/db/models/todo.py:196-220 | the loop builds exactly the two dicts in closed form |
| Reportees.CrossPairs | app/db/models/todo.py:186-187 | the join's candidates are exactly the pairs of a record and a user |
| Reportees.ReporteeHolds | app/db/models/todo.py:186-191 | the five conditions hold of a pair exactly when the record is active, submitted by the manager to someone else, and owned by a user who reports to the manager |
| Reportees.ReporteeRowSplit | app/db/models/todo.py:176-185 | a report row is the record's nine columns plus the user's `name` |
| Reportees.ReporteeRowKeys | app/db/models/todo.py:176-185 | a report row has exactly the nine `todo` columns and `name` |
| Reportees.ReporteeRowColumn | app/db/models/todo.py:176-184 | each `todo` column holds the record's value |
| Reportees.ReporteeRowName | app/db/models/todo.py:185 | `name` holds the user's name |
| Reportees.ReporteeRowWellFormed | app/db/models/todo.py:176-203 | a report row holds what the loop reads: owner, group flag, task id, name and enum values |
| Reportees.ReporteeRowsComplete | app/db/models/todo.py:176-194 | every reporting pair has its row in the result |
| Reportees.ReporteeRowsSound | app/db/models/todo.py:176-194 | every row of the result comes from a reporting pair |
| Reportees.ReporteeRowsWellFormed | app/db/models/todo.py:194-203 | every row of the result is well formed for the loop |
| Reportees.SanitisedWellFormed | app/db/models/todo.py:195 | sanitising keeps rows well formed |
| Reportees.BareIdFails | app/db/models/todo.py:195 | a reporting record whose task id has no `_` makes the report fail |
| Reportees.FailureIsBareId | app/db/models/todo.py:195 | the report fails only with IndexError, and only because of such a record |
| Reportees.GetReporteesTasks | app/db/models/todo.py:174-220 | query, in-place sanitising and aggregation give the report, or the exception |
| Manager.TaskStore.constructor | app/db/models/todo.py:46-61 | an empty table that satisfies the store invariant |
| Manager.SubmittedRowIff | app/bot/todo.py:11-12 | a fetched row passes `x['submitter'] == user` exactly when its record's submitter is `user` |
| Manager.TasksPartition | app/bot/todo.py:11-12 | `user_tasks` and `manager_tasks` interleave to the fetched tasks, as a multiset too |
| Manager.UserTasksSelect | app/bot/todo.py:11 | `user_tasks` is the rows of the user's active records they submitted, in table order |
| Manager.ManagerTasksSelect | app/bot/todo.py:12 | `manager_tasks` is the rows of the user's active records someone else submitted, in table order |
| Manager.TodoManager.constructor | app/bot/todo.py:8-12 | the cached tasks are `fetch_tasks(user)`, split by submitter |
| Manager.NewRecord | app/bot/todo.py:15-18 | the new record carries the given fields, namespaced task id, creation and modification time `now`, zero edits, active; it exists exactly when priority and state are member names |
| Manager.AddedTaskIsFetched | app/bot/todo.py:14-23 | an added task is listed last by `fetch_tasks(owner)`; nobody else's list changes |
| Manager.TodoManager.AddTask | app/bot/todo.py:14-28 | a committed well-formed record is appended under the next key; otherwise the table is as it was; keys stay distinct |
| Manager.FirstActive | app/bot/todo.py:32-38 | the first active record with the id, with none before it; None exactly when there is none |
| Manager.SoftDeleteOnlyStamps | app/bot/todo.py:39 | a soft delete stamps only the found record's `dtime` with `now` and removes nothing |
| Manager.DeleteTwice | app/bot/todo.py:30-39 | with one active record under the id, a second delete finds nothing |
| Manager.AddThenDelete | app/bot/todo.py:14-38 | a task added under a fresh raw id is the record that deleting that raw id finds |
| Manager.TodoManager.DeleteTask | app/bot/todo.py:30-47 | None when nothing is found; else True and the record soft-deleted on commit, False and the table unchanged on rollback; keys unchanged |
| Manager.FirstUnknown | app/bot/todo.py:15-18 | the constructor's first keyword that is not a column: every keyword before it is one; None exactly when every keyword is one |
| Manager.AddTaskAsWrittenRejected | app/bot/todo.py:15-18 | as written, `todo_item`, `taskid` and `duetime` are not columns, so the constructor rejects the call |
| Manager.IntendedKeywordsAccepted | app/bot/todo.py:15-18 | under the intended column names every keyword is accepted |
| Manager.ClassColumn | app/bot/todo.py:33 | `Todo.<name>` is a column exactly when the name is one; AttributeError otherwise |
| Manager.DeleteLookupAsWritten | app/bot/todo.py:33 | `Todo.taskid` raises AttributeError; `Todo.task_id` is the column |
| Manager.TableFieldList | app/bot/todo.py:50 | excluding `mtime`, `id` and `dtime` selects the other ten columns, unlabelled, in declaration order |
| Manager.TableQueryIs | app/bot/todo.py:50 | the table query is the query rows of the user's active records, sanitised |
| Manager.SanitiseQueryRow | app/bot/todo.py:50 | sanitising a record's query row fails (IndexError) exactly when its id has no `_`, else strips it |
| Manager.SanitiseQueryRowsOk | app/bot/todo.py:50 | sanitising the query rows succeeds exactly when every task id has a `_` |
| Manager.SanitiseQueryRowsErr | app/bot/todo.py:50 | a failure is IndexError |
| Manager.SanitiseQueryRowsValue | app/bot/todo.py:50 | on success the rows are the records' rows with stripped ids |
| Manager.TableQuerySanitised | app/bot/todo.py:50 | the table query fails (IndexError) exactly when an active record of the user has an id without `_`; otherwise it yields their stripped rows in table order |
| Manager.ManagerTasksComplement | app/bot/todo.py:51-52 | `x not in self_tasks` keeps exactly the rows that are not self tasks; the two lists interleave to the tasks and share no row |
| Manager.TableShaped | app/bot/todo.py:54-64 | a shaped row loses `owner` and `submitter`; every other value except `state` and `priority` is kept |
| Manager.ShapeOfRow | app/bot/todo.py:54-64 | shaping a row holding a record's kept columns, id stripped, gives the record's table row |
| Manager.ShapedRowOf | app/bot/todo.py:54-64 | shaping a record's sanitised row gives its table row |
| Manager.SelfTableRows | app/bot/todo.py:49-58 | the self table is the table rows of the user's active records they submitted, in table order |
| Manager.ManagerTableRows | app/bot/todo.py:49-64 | the manager table is the table rows of the user's active records others submitted, in table order |
| Manager.TableReportRows | app/bot/todo.py:49-68 | both tables record by record, and failure exactly on an id without `_`, with IndexError |
| Manager.TableQueryReady | app/bot/todo.py:50-58 | every queried row has what the shaping loops read |
| Manager.ShapeForTable | app/bot/todo.py:55-58 | the loop body's deletes and renames give `TableShaped` |
| Manager.ShapeRows | app/bot/todo.py:54-58 | the loop shapes every row of the list in place |
| Manager.ShapedCopy | app/bot/todo.py:54-64 | a list of rows, shaped |
| Manager.TodoManager.MarkdownTable | app/bot/todo.py:49-68 | the two lists handed to `tabulate`, or the query's exception |

## Left out

- The SQL engine, the Flask application and the session are not modelled. Query results are given as candidate tuples in table order. The order a real database returns rows in is not modelled.
- `datetime.now()` is the parameter `now`; times are integer timestamps.
- Manager.TodoManager.AddTask: `add_task` reads `datetime.now()` twice (app/bot/todo.py:17-18), so `createtime` and `mtime` can differ by a few microseconds. The model uses one `now` for both.
- Whether `session.commit()` succeeds is the parameter `commitOk`. An IntegrityError and any other exception both roll back, as in the source.
- The primary key the database assigns is modelled as `TaskStore.nextId`.
- `tabulate` rendering is not modelled. `_get_markdown_table` yields the two lists of rows it hands to `tabulate`.
- The `print` in `_make_field_list` is not modelled, because it has no effect on the result.
- `TodoSchema` (marshmallow) is not modelled, because no operation of the core uses it.
- Dict key order in result rows is not modelled; rows are maps. The two dicts of `get_reportees_tasks` are modelled with their insertion order.
- Column length limits and nullability are not modelled. `owner`, `submitter`, `task` and `task_id` are non-null strings; `priority` and `state` are non-null enum members.
- `getattr(cls, name)` in the whitelist loop treats only columns as attributes. The source also finds methods such as `fetch_tasks`.
- `cls.__dict__` in `_make_field_list` is read as the columns in declaration order.
- `app/db/models/user.py` is not part of this model. A user is the three columns the join reads.
- The `order_by` parameter of `_fetch_all` is not used by the source, so there is nothing to model.
- Whether the database can join a table is the parameter `joinable`.
- `TodoManager` receives only `user['username']`, the one key it reads.
- `add_task`'s `task` dict is the record `TaskInput`: its KeyError paths are not modelled. Priority and state arrive as names. SQLAlchemy's `Enum` column passes an unknown name through to the database, which rejects it when `commit()` flushes the insert; the model shows this as a failed commit, so nothing is added.
- `add_task` and `delete_task` are modelled with the column names they evidently mean (see Findings): `task`, `task_id`, `due` and `Todo.task_id`.
- Manager.ShapedCopy: the source deletes keys from the very dicts the query returned, in place. The model shapes a copy; aliasing between `tasks` and the two lists is not modelled.
- Grouping.Aggregate: requires every row to hold the keys and kinds the loop reads, so the loop's KeyError and AttributeError paths are not modelled. The rows of the report's query always hold them (Reportees.ReporteeRowsWellFormed).
- Grouping.ShapeRow: requires the same of its row, for the same reason.
- Manager.ShapeRows: requires every row to hold `owner`, `submitter` and enum values, so the KeyError path is not modelled. The rows of the table query always hold them (Manager.TableQueryReady).
- Manager.ShapeForTable: requires the same of its row, for the same reason.

## Findings

| source | as written | input that shows it | evidently intended | confidence | as-written member | corrected member |
|---|---|---|---|---|---|---|
| app/bot/todo.py:15-18 | `Todo(...)` is passed `todo_item=`, `taskid=` and `duetime=`, none of them a column, so the declarative constructor raises TypeError and no task is ever added | any call, e.g. `add_task({'task': 'x', 'priority': 'low', 'state': 'initial', 'task_id': '1', 'due': None}, 'alice', 'bob')` | the columns `task`, `task_id` and `due` | not executed; high | Manager.AddTaskAsWrittenRejected | Manager.TodoManager.AddTask |
| app/bot/todo.py:32-35 | the filter reads `Todo.taskid`, which `Todo` does not have, so every call raises AttributeError before querying | any call, e.g. `delete_task('1')` | the column `Todo.task_id` | not executed; high | Manager.DeleteLookupAsWritten | Manager.TodoManager.DeleteTask |
