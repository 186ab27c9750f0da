/**
 * Building the list of fields a query selects: `unpack_fields`
 * (app/db/models/todo.py:223-241) and `Todo._make_field_list` (:80-125).
 * A table's attributes are its column names, in declaration order.
 */
module Fields {
  import opened Wrappers
  import opened Seqs
  import opened Schema

  /** A selected column, possibly renamed with `.label(...)`. */
  datatype Field = Field(table: string, column: string, alias: Option<string>) {
    /** The key the field gets in `row._asdict()`: its alias (`.label(...)`), else its column name. */
    function Key(): string
    {
      if alias.Some? then alias.value else column
    }
  }

  /** Column `c` of `t` as `unpack_fields`' labeler returns it: labelled `<table>_<column>` when joining. */
  function TableField(t: Table, c: string, join: bool): Field
  {
    Field(t.name, c, if join then Some(t.name + "_" + c) else None)
  }

  function Labeler(t: Table, join: bool): string -> Field
  {
    c => TableField(t, c, join)
  }

  function ColumnOf(f: Field): string
  {
    f.column
  }

  function NotIn(names: seq<string>): string -> bool
  {
    c => c !in names
  }

  function In(names: seq<string>): string -> bool
  {
    c => c in names
  }

  /** Labelling a list of columns gives one field of `t` per column. */
  lemma LabeledColumns(cols: seq<string>, t: Table, join: bool)
    ensures forall f :: f in Map(cols, Labeler(t, join)) ==> f == TableField(t, f.column, join) && f.column in cols
  {
    forall f | f in Map(cols, Labeler(t, join)) ensures f == TableField(t, f.column, join) && f.column in cols {
      var i :| 0 <= i < |cols| && Map(cols, Labeler(t, join))[i] == f;
    }
  }

  const InvalidField: Error := ValidationError(400, "Invalid Field Supplied")

  /** `unpack_fields(t, join, excluded)`: the columns of `t` not named in `excluded`, in table order. */
  function Unpacked(t: Table, join: bool, excluded: seq<string>): (r: seq<Field>)
    ensures forall i :: 0 <= i < |r| ==>
      r[i] == TableField(t, r[i].column, join) && r[i].column in t.columns && r[i].column !in excluded
    ensures forall c :: c in t.columns && c !in excluded ==> TableField(t, c, join) in r
  {
    var kept := Filter(t.columns, NotIn(excluded));
    assert forall c :: c in kept ==> TableField(t, c, join) in Map(kept, Labeler(t, join)) by {
      forall c | c in kept ensures TableField(t, c, join) in Map(kept, Labeler(t, join)) {
        var i :| 0 <= i < |kept| && kept[i] == c;
        assert Map(kept, Labeler(t, join))[i] == TableField(t, c, join);
      }
    }
    Map(kept, Labeler(t, join))
  }

  /**
   * The columns `unpack_fields` returns are the table's columns minus the
   * excluded ones, in table order; joined fields are keyed `<table>_<column>`,
   * unjoined ones by the bare column name.
   */
  lemma UnpackedOrder(t: Table, join: bool, excluded: seq<string>)
    ensures Map(Unpacked(t, join, excluded), ColumnOf) == Filter(t.columns, NotIn(excluded))
    ensures Subsequence(Map(Unpacked(t, join, excluded), ColumnOf), t.columns)
    ensures forall f :: f in Unpacked(t, join, excluded) ==>
      f.Key() == if join then t.name + "_" + f.column else f.column
  {
    var kept := Filter(t.columns, NotIn(excluded));
    assert Map(Unpacked(t, join, excluded), ColumnOf) == kept;
    FilterIsSubsequence(t.columns, NotIn(excluded));
  }

  /** The loop of `unpack_fields`. */
  method UnpackFields(t: Table, join: bool, excluded: seq<string>) returns (fields: seq<Field>)
    ensures fields == Unpacked(t, join, excluded)
  {
    fields := [];
    for i := 0 to |t.columns|
      invariant fields == Map(Filter(t.columns[..i], NotIn(excluded)), Labeler(t, join))
    {
      UnpackStep(t, join, excluded, i);
      var x := t.columns[i];
      if x !in excluded {
        fields := fields + [TableField(t, x, join)];
      }
    }
    assert t.columns[..|t.columns|] == t.columns;
  }

  /** One step of the `unpack_fields` loop: a column not excluded adds its field. */
  lemma UnpackStep(t: Table, join: bool, excluded: seq<string>, i: nat)
    requires i < |t.columns|
    ensures Map(Filter(t.columns[..i + 1], NotIn(excluded)), Labeler(t, join)) ==
      Map(Filter(t.columns[..i], NotIn(excluded)), Labeler(t, join))
      + if t.columns[i] !in excluded then [TableField(t, t.columns[i], join)] else []
  {
    FilterMapStep(t.columns, i, NotIn(excluded), Labeler(t, join));
    assert Labeler(t, join)(t.columns[i]) == TableField(t, t.columns[i], join);
  }

  /** `reduce(lambda x, y: x + unpack_fields(y, True, blacklist), joined_tables, [])` */
  function ConcatUnpacked(ts: seq<Table>, blacklist: seq<string>): (r: seq<Field>)
    ensures forall f :: f in r ==> exists t :: (t in ts && f == TableField(t, f.column, true)
      && f.column in t.columns && f.column !in blacklist)
    ensures forall t, c :: t in ts && c in t.columns && c !in blacklist ==> TableField(t, c, true) in r
    decreases |ts|
  {
    if ts == [] then []
    else
      assert forall t :: t in ts ==> t in Init(ts) || t == Last(ts);
      ConcatUnpacked(Init(ts), blacklist) + Unpacked(Last(ts), true, blacklist)
  }

  /** `lambda y: unpack_fields(y, True, blacklist)` */
  function JoinedUnpacker(blacklist: seq<string>): Table -> seq<Field>
  {
    t => Unpacked(t, true, blacklist)
  }

  lemma {:induction false} ConcatIsFlatten(ts: seq<Table>, blacklist: seq<string>)
    ensures ConcatUnpacked(ts, blacklist) == Flatten(Map(ts, JoinedUnpacker(blacklist)))
    decreases |ts|
  {
    if ts != [] {
      ConcatIsFlatten(Init(ts), blacklist);
      var m := Map(ts, JoinedUnpacker(blacklist));
      assert Init(m) == Map(Init(ts), JoinedUnpacker(blacklist));
      assert Last(m) == Unpacked(Last(ts), true, blacklist);
    }
  }

  /**
   * The joined fields come table by table, in join order: the fields of
   * `ts[i]`, its own `unpack_fields` list, sit between the fields of the
   * tables before it and those of the tables after it.
   */
  lemma ConcatUnpackedBlock(ts: seq<Table>, blacklist: seq<string>, i: nat)
    requires i < |ts|
    ensures ConcatUnpacked(ts, blacklist) ==
      ConcatUnpacked(ts[..i], blacklist) + Unpacked(ts[i], true, blacklist) + ConcatUnpacked(ts[i + 1..], blacklist)
  {
    var f := JoinedUnpacker(blacklist);
    var m := Map(ts, f);
    ConcatIsFlatten(ts, blacklist);
    ConcatIsFlatten(ts[..i], blacklist);
    ConcatIsFlatten(ts[i + 1..], blacklist);
    MapSlices(ts, f, i);
    FlattenBlock(m, i);
  }

  predicate IsIdName(c: string)
  {
    c == "id" || EndsWith(c, "_id")
  }

  /** The `id` and `*_id` columns of `t`, in declaration order. */
  function IdFields(t: Table): seq<Field>
  {
    Map(Filter(t.columns, IsIdName), Labeler(t, false))
  }

  /** The fields of a joined table `t` named in `names` as `<table>_<column>`; an error if such a name has no column. */
  function PicksFrom(t: Table, names: seq<string>): Result<seq<Field>, Error>
    decreases |names|
  {
    if names == [] then Ok([])
    else
      match PicksFrom(t, Init(names))
      case Err(e) => Err(e)
      case Ok(fs) =>
        var x := Last(names);
        var prefix := t.name + "_";
        if !StartsWith(x, prefix) then Ok(fs)
        else if x[|prefix|..] in t.columns then Ok(fs + [Field(t.name, x[|prefix|..], Some(x))])
        else Err(InvalidField)
  }

  /** A name of `names` that starts with `<t>_` but whose remainder is not a column of `t`. */
  predicate BadPick(t: Table, x: string)
  {
    StartsWith(x, t.name + "_") && x[|t.name| + 1..] !in t.columns
  }

  /** The field `getattr(t, x[len(t) + 1:]).label(x)` for a name `x` that starts with `<t>_`. */
  function PickedField(t: Table, x: string): Field
    requires StartsWith(x, t.name + "_")
  {
    Field(t.name, x[|t.name| + 1..], Some(x))
  }

  /**
   * Picking from one joined table fails exactly when some name carries its
   * prefix but no column of it; otherwise it yields one labelled field per
   * prefixed name and nothing else.
   */
  lemma {:induction false} PicksFromSpec(t: Table, names: seq<string>)
    ensures PicksFrom(t, names).Err? <==> exists x :: x in names && BadPick(t, x)
    ensures PicksFrom(t, names).Err? ==> PicksFrom(t, names).error == InvalidField
    ensures PicksFrom(t, names).Ok? ==> forall f :: f in PicksFrom(t, names).value ==>
      f == TableField(t, f.column, true) && f.column in t.columns && f.Key() in names
    ensures PicksFrom(t, names).Ok? ==> forall x :: x in names && StartsWith(x, t.name + "_") ==>
      PickedField(t, x) in PicksFrom(t, names).value
    decreases |names|
  {
    if names != [] {
      PicksFromSpec(t, Init(names));
      assert forall x :: x in names ==> x in Init(names) || x == Last(names);
      var x := Last(names);
      assert |t.name + "_"| == |t.name| + 1;
      if StartsWith(x, t.name + "_") {
        assert x == t.name + "_" + x[|t.name| + 1..];
        if BadPick(t, x) {
          assert PicksFrom(t, Init(names)).Ok? ==> PicksFrom(t, names).Err?;
        } else {
          assert PicksFrom(t, Init(names)).Ok? ==>
            PicksFrom(t, names).value == PicksFrom(t, Init(names)).value + [PickedField(t, x)];
        }
      }
    }
  }

  /** `[getattr(t, x[len(t) + 1:]).label(x) for t in joined for x in names if x.startswith(t + '_')]` */
  function JoinedPicks(ts: seq<Table>, names: seq<string>): Result<seq<Field>, Error>
    decreases |ts|
  {
    if ts == [] then Ok([])
    else
      match JoinedPicks(Init(ts), names)
      case Err(e) => Err(e)
      case Ok(fs) =>
        match PicksFrom(Last(ts), names)
        case Err(e) => Err(e)
        case Ok(more) => Ok(fs + more)
  }

  /** The same over all joined tables, table by table. */
  lemma {:induction false} JoinedPicksSpec(ts: seq<Table>, names: seq<string>)
    ensures JoinedPicks(ts, names).Err? <==> exists t, x :: t in ts && x in names && BadPick(t, x)
    ensures JoinedPicks(ts, names).Err? ==> JoinedPicks(ts, names).error == InvalidField
    ensures JoinedPicks(ts, names).Ok? ==> forall f :: f in JoinedPicks(ts, names).value ==>
      (f.Key() in names && exists t :: t in ts && f == TableField(t, f.column, true) && f.column in t.columns)
    ensures JoinedPicks(ts, names).Ok? ==> forall t, x :: t in ts && x in names && StartsWith(x, t.name + "_") ==>
      PickedField(t, x) in JoinedPicks(ts, names).value
    decreases |ts|
  {
    if ts != [] {
      JoinedPicksSpec(Init(ts), names);
      PicksFromSpec(Last(ts), names);
      assert forall t :: t in ts ==> t in Init(ts) || t == Last(ts);
    }
  }

  /** `Todo._make_field_list(joined, blacklist, whitelist)`. */
  function FieldList(main: Table, joined: seq<Table>, blacklist: seq<string>, whitelist: seq<string>): Result<seq<Field>, Error>
  {
    if whitelist != [] then
      var base := WhitelistBase(main, whitelist);
      var joinFields := JoinFieldNames(main, whitelist);
      if joined != [] && joinFields != [] then
        match JoinedPicks(joined, joinFields)
        case Err(e) => Err(e)
        case Ok(more) => Ok(base + more)
      else Ok(base)
    else Ok(Unpacked(main, false, blacklist) + ConcatUnpacked(joined, blacklist))
  }

  /** The `id`/`*_id` fields, then the whitelisted names that are columns of the main table. */
  function WhitelistBase(main: Table, whitelist: seq<string>): seq<Field>
  {
    IdFields(main) + Map(Filter(whitelist, In(main.columns)), Labeler(main, false))
  }

  /** The whitelisted names that are not columns of the main table. */
  function JoinFieldNames(main: Table, whitelist: seq<string>): seq<string>
  {
    Filter(whitelist, NotIn(main.columns))
  }

  /**
   * Without a whitelist: the main table's non-blacklisted columns unlabelled,
   * then every non-blacklisted column of every joined table labelled
   * `<table>_<column>`, and nothing else; this never fails.
   */
  lemma FieldListWithoutWhitelist(main: Table, joined: seq<Table>, blacklist: seq<string>)
    ensures FieldList(main, joined, blacklist, []).Ok?
    ensures var fs := FieldList(main, joined, blacklist, []).value;
      && fs[..|Unpacked(main, false, blacklist)|] == Unpacked(main, false, blacklist)
      && (forall c :: c in main.columns && c !in blacklist ==> TableField(main, c, false) in fs)
      && (forall t, c :: t in joined && c in t.columns && c !in blacklist ==> TableField(t, c, true) in fs)
      && (forall f :: f in fs ==> f.column !in blacklist)
  {
    var fs := FieldList(main, joined, blacklist, []).value;
    var u := Unpacked(main, false, blacklist);
    var v := ConcatUnpacked(joined, blacklist);
    assert fs == u + v;
    assert fs[..|u|] == u;
    forall f | f in fs ensures f.column !in blacklist {
      if f in v {
        var t :| t in joined && f == TableField(t, f.column, true) && f.column in t.columns && f.column !in blacklist;
      }
    }
  }

  /**
   * Without a whitelist the joined tables' fields follow the main table's in
   * join order: those of `joined[i]` sit between the fields of the tables
   * joined before it and those joined after it.
   */
  lemma FieldListJoinOrder(main: Table, joined: seq<Table>, blacklist: seq<string>, i: nat)
    requires i < |joined|
    ensures FieldList(main, joined, blacklist, []) == Ok(Unpacked(main, false, blacklist)
      + ConcatUnpacked(joined[..i], blacklist) + Unpacked(joined[i], true, blacklist) + ConcatUnpacked(joined[i + 1..], blacklist))
  {
    ConcatUnpackedBlock(joined, blacklist, i);
    var u := Unpacked(main, false, blacklist);
    var a, b, c := ConcatUnpacked(joined[..i], blacklist), Unpacked(joined[i], true, blacklist), ConcatUnpacked(joined[i + 1..], blacklist);
    AppendAssoc4(u, a, b, c);
  }

  /** The fields before the joined ones: the `id`/`*_id` columns first, then every whitelisted main column, all unlabelled. */
  lemma WhitelistBaseSpec(main: Table, whitelist: seq<string>)
    ensures WhitelistBase(main, whitelist)[..|IdFields(main)|] == IdFields(main)
    ensures forall c :: c in main.columns && IsIdName(c) ==> TableField(main, c, false) in WhitelistBase(main, whitelist)
    ensures forall w :: w in whitelist && w in main.columns ==> TableField(main, w, false) in WhitelistBase(main, whitelist)
    ensures forall f :: f in WhitelistBase(main, whitelist) ==> f == TableField(main, f.column, false) && f.column in main.columns
  {
    var ids := IdFields(main);
    var picked := Map(Filter(whitelist, In(main.columns)), Labeler(main, false));
    assert WhitelistBase(main, whitelist) == ids + picked;
    LabeledColumns(Filter(main.columns, IsIdName), main, false);
    LabeledColumns(Filter(whitelist, In(main.columns)), main, false);
    IdFieldsComplete(main);
    PickedComplete(main, whitelist);
  }

  /** Every `id`/`*_id` column of the main table has its field. */
  lemma IdFieldsComplete(main: Table)
    ensures forall c :: c in main.columns && IsIdName(c) ==> TableField(main, c, false) in IdFields(main)
  {
    var ids := Filter(main.columns, IsIdName);
    forall c | c in main.columns && IsIdName(c) ensures TableField(main, c, false) in IdFields(main) {
      MapHas(ids, Labeler(main, false), c);
    }
  }

  /** Every whitelisted main column has its field. */
  lemma PickedComplete(main: Table, whitelist: seq<string>)
    ensures forall w :: w in whitelist && w in main.columns ==>
      TableField(main, w, false) in Map(Filter(whitelist, In(main.columns)), Labeler(main, false))
  {
    var inMain := Filter(whitelist, In(main.columns));
    forall w | w in whitelist && w in main.columns ensures TableField(main, w, false) in Map(inMain, Labeler(main, false)) {
      var i :| 0 <= i < |whitelist| && whitelist[i] == w;
      assert In(main.columns)(whitelist[i]);
      MapHas(inMain, Labeler(main, false), w);
    }
  }

  /**
   * With a whitelist, the field list fails (a 400 ValidationError) exactly when
   * a whitelisted name that is not a main column starts with a joined table's
   * `<table>_` but its remainder is not a column of that table.
   */
  lemma FieldListWhitelistError(main: Table, joined: seq<Table>, blacklist: seq<string>, whitelist: seq<string>)
    requires whitelist != []
    ensures FieldList(main, joined, blacklist, whitelist).Err? <==>
      exists t, x :: t in joined && x in whitelist && x !in main.columns && BadPick(t, x)
    ensures FieldList(main, joined, blacklist, whitelist).Err? ==>
      FieldList(main, joined, blacklist, whitelist).error == InvalidField
  {
    var names := JoinFieldNames(main, whitelist);
    JoinedPicksSpec(joined, names);
    if exists t, x :: t in joined && x in whitelist && x !in main.columns && BadPick(t, x) {
      var t, x :| t in joined && x in whitelist && x !in main.columns && BadPick(t, x);
      assert x in names;
    }
  }

  /** With a whitelist, a successful field list is the base fields followed by fields picked from joined tables. */
  lemma FieldListWhitelistShape(main: Table, joined: seq<Table>, blacklist: seq<string>, whitelist: seq<string>)
    requires whitelist != []
    requires FieldList(main, joined, blacklist, whitelist).Ok?
    ensures var fs := FieldList(main, joined, blacklist, whitelist).value;
      && fs[..|WhitelistBase(main, whitelist)|] == WhitelistBase(main, whitelist)
      && forall f :: f in fs[|WhitelistBase(main, whitelist)|..] ==>
           (f.Key() in whitelist && f.Key() !in main.columns
            && exists t :: t in joined && f == TableField(t, f.column, true) && f.column in t.columns)
  {
    var fs := FieldList(main, joined, blacklist, whitelist).value;
    var base := WhitelistBase(main, whitelist);
    var names := JoinFieldNames(main, whitelist);
    if joined != [] && names != [] {
      JoinedPicksSpec(joined, names);
      var more := JoinedPicks(joined, names).value;
      assert fs == base + more;
      assert fs[..|base|] == base;
      assert fs[|base|..] == more;
    } else {
      assert fs == base;
    }
  }

  /** With a whitelist, every whitelisted `<table>_<column>` name of a joined table is selected, under that name. */
  lemma FieldListWhitelistPicks(main: Table, joined: seq<Table>, blacklist: seq<string>, whitelist: seq<string>)
    requires whitelist != []
    requires FieldList(main, joined, blacklist, whitelist).Ok?
    ensures forall t, x :: t in joined && x in whitelist && x !in main.columns && StartsWith(x, t.name + "_") ==>
      PickedField(t, x) in FieldList(main, joined, blacklist, whitelist).value
  {
    var names := JoinFieldNames(main, whitelist);
    assert forall x :: x in whitelist && x !in main.columns ==> x in names;
    if joined != [] && names != [] {
      JoinedPicksSpec(joined, names);
      var more := JoinedPicks(joined, names).value;
      assert FieldList(main, joined, blacklist, whitelist).value == WhitelistBase(main, whitelist) + more;
    }
  }

  /** With a whitelist, a name that is neither a main column nor prefixed by a joined table's name selects nothing. */
  lemma FieldListWhitelistDrops(main: Table, joined: seq<Table>, blacklist: seq<string>, whitelist: seq<string>, w: string)
    requires whitelist != []
    requires FieldList(main, joined, blacklist, whitelist).Ok?
    requires w in whitelist && w !in main.columns
    requires forall t :: t in joined ==> !StartsWith(w, t.name + "_")
    ensures forall f :: f in FieldList(main, joined, blacklist, whitelist).value ==> f.Key() != w
  {
    var fs := FieldList(main, joined, blacklist, whitelist).value;
    var base := WhitelistBase(main, whitelist);
    WhitelistBaseSpec(main, whitelist);
    FieldListWhitelistShape(main, joined, blacklist, whitelist);
    var more := fs[|base|..];
    assert fs == fs[..|base|] + more;
    BaseKeysNot(base, main, w);
    PickedKeysNot(more, joined, w);
  }

  /** Unlabelled main-table fields are keyed by main columns only. */
  lemma BaseKeysNot(base: seq<Field>, main: Table, w: string)
    requires forall f :: f in base ==> f == TableField(main, f.column, false) && f.column in main.columns
    requires w !in main.columns
    ensures forall f :: f in base ==> f.Key() != w
  {
  }

  /** Fields picked from joined tables are keyed `<table>_<column>`, so a name without such a prefix is none of them. */
  lemma PickedKeysNot(more: seq<Field>, joined: seq<Table>, w: string)
    requires forall f :: f in more ==> exists t :: t in joined && f == TableField(t, f.column, true) && f.column in t.columns
    requires forall t :: t in joined ==> !StartsWith(w, t.name + "_")
    ensures forall f :: f in more ==> f.Key() != w
  {
    forall f | f in more ensures f.Key() != w {
      var t :| t in joined && f == TableField(t, f.column, true) && f.column in t.columns;
      assert f.Key() == t.name + "_" + f.column;
      assert StartsWith(f.Key(), t.name + "_");
    }
  }

  /** `_make_field_list`: with a whitelist, the base fields plus the picks from joined tables; without one, every unpacked column. */
  method MakeFieldList(main: Table, joined: seq<Table>, blacklist: seq<string>, whitelist: seq<string>)
    returns (res: Result<seq<Field>, Error>)
    ensures res == FieldList(main, joined, blacklist, whitelist)
  {
    if whitelist != [] {
      var fields, joinFields := SortWhitelist(main, whitelist);
      if joined != [] && joinFields != [] {
        var picked := JoinedPicks(joined, joinFields);
        if picked.Err? {
          return Err(picked.error);
        }
        fields := fields + picked.value;
      }
      return Ok(fields);
    } else {
      var fields := UnpackFields(main, false, blacklist);
      return Ok(fields + ConcatUnpacked(joined, blacklist));
    }
  }

  /** The whitelist loop of `_make_field_list`: sorts names into main-table fields and candidate joined fields. */
  method SortWhitelist(main: Table, whitelist: seq<string>) returns (fields: seq<Field>, joinFields: seq<string>)
    ensures fields == WhitelistBase(main, whitelist)
    ensures joinFields == JoinFieldNames(main, whitelist)
  {
    fields := IdFields(main);
    joinFields := [];
    assert whitelist[..0] == [];
    for i := 0 to |whitelist|
      invariant fields == WhitelistBase(main, whitelist[..i])
      invariant joinFields == JoinFieldNames(main, whitelist[..i])
    {
      SortStep(main, whitelist, i);
      var name := whitelist[i];
      if name in main.columns {
        fields := fields + [TableField(main, name, false)];
      } else {
        joinFields := joinFields + [name];
      }
    }
    assert whitelist[..|whitelist|] == whitelist;
  }

  /** One step of the whitelist loop: a main column extends the base fields, any other name the candidates. */
  lemma SortStep(main: Table, whitelist: seq<string>, i: nat)
    requires i < |whitelist|
    ensures WhitelistBase(main, whitelist[..i + 1]) ==
      WhitelistBase(main, whitelist[..i]) + if whitelist[i] in main.columns then [TableField(main, whitelist[i], false)] else []
    ensures JoinFieldNames(main, whitelist[..i + 1]) ==
      JoinFieldNames(main, whitelist[..i]) + if whitelist[i] in main.columns then [] else [whitelist[i]]
  {
    SortStepBase(main, whitelist, i);
    FilterMapStep(whitelist, i, NotIn(main.columns), Labeler(main, false));
  }

  /** The base-field half of one whitelist step. */
  lemma SortStepBase(main: Table, whitelist: seq<string>, i: nat)
    requires i < |whitelist|
    ensures WhitelistBase(main, whitelist[..i + 1]) ==
      WhitelistBase(main, whitelist[..i]) + if whitelist[i] in main.columns then [TableField(main, whitelist[i], false)] else []
  {
    var named := Labeler(main, false);
    var before := Map(Filter(whitelist[..i], In(main.columns)), named);
    var after := Map(Filter(whitelist[..i + 1], In(main.columns)), named);
    FilterMapStep(whitelist, i, In(main.columns), named);
    assert WhitelistBase(main, whitelist[..i]) == IdFields(main) + before;
    assert WhitelistBase(main, whitelist[..i + 1]) == IdFields(main) + after;
    if whitelist[i] in main.columns {
      assert named(whitelist[i]) == TableField(main, whitelist[i], false);
      assert after == before + [TableField(main, whitelist[i], false)];
      AppendAssoc(IdFields(main), before, [TableField(main, whitelist[i], false)]);
    } else {
      assert after == before + [] == before;
    }
  }
}
