/**
 * The loop of `Todo.get_reportees_tasks` (app/db/models/todo.py:196-220) that
 * turns the sanitised rows into the manager's report: group tasks keyed by
 * `task_id`, with the owners they belong to listed in one string, and
 * individual tasks in one list per owner. Python dicts keep insertion order,
 * and the report shows them in that order, so both are modelled with it.
 */
module Grouping {
  import opened Seqs
  import opened Schema

  /** A Python dict: its keys in insertion order, and its entries. */
  datatype Dict<K(==), V> = Dict(keys: seq<K>, items: map<K, V>) {
    /** Every key is listed once, and the listed keys are exactly the entries' keys. */
    predicate Valid()
    {
      && (forall i, j :: 0 <= i < j < |keys| ==> keys[i] != keys[j])
      && items.Keys == set k | k in keys
    }

    /** `d[k] = v`: a new key goes to the end, an existing one keeps its place. */
    function Put(k: K, v: V): Dict<K, V>
    {
      if k in items then Dict(keys, items[k := v]) else Dict(keys + [k], items[k := v])
    }
  }

  /** Assignment keeps a dict well formed, keeps the order of the old keys, and leaves the other entries alone. */
  lemma PutValid<K, V>(d: Dict<K, V>, k: K, v: V)
    requires d.Valid()
    ensures d.Put(k, v).Valid()
    ensures k in d.Put(k, v).items && d.Put(k, v).items[k] == v
    ensures forall j :: j in d.items && j != k ==> j in d.Put(k, v).items && d.Put(k, v).items[j] == d.items[j]
    ensures d.Put(k, v).keys[..|d.keys|] == d.keys
    ensures |d.Put(k, v).keys| == if k in d.items then |d.keys| else |d.keys| + 1
  {
    var r := d.Put(k, v);
    if k !in d.items {
      assert forall i :: 0 <= i < |d.keys| ==> r.keys[i] == d.keys[i] && r.keys[i] in d.items;
    }
  }

  // ---------------------------------------------------------------------------
  // Rows

  /** The string under `k`, or "" where there is none. */
  function StrAt(r: Row, k: string): string
  {
    if k in r && r[k].Str? then r[k].s else ""
  }

  /** `if groupitem:` */
  predicate IsGroupItem(r: Row)
  {
    "isgroupitem" in r && r["isgroupitem"] == Bool(true)
  }

  /** The keys the loop reads, holding the kinds of value it uses. */
  predicate WellFormed(r: Row)
  {
    && "owner" in r && r["owner"].Str?
    && "name" in r && r["name"].Str?
    && "isgroupitem" in r && r["isgroupitem"].Bool?
    && "task_id" in r && r["task_id"].Str?
    && "state" in r && r["state"].StateVal?
    && "priority" in r && r["priority"].PriorityVal?
  }

  /** `.name` of a state or priority value. */
  function EnumName(v: Value): Value
  {
    match v
    case StateVal(st) => Str(st.Name())
    case PriorityVal(p) => Str(p.Name())
    case _ => v
  }

  /** A row as the report shows it: `owner`, `isgroupitem` and `name` removed, state and priority by name. */
  function Shaped(r: Row): (s: Row)
    ensures s.Keys == r.Keys - {"owner", "isgroupitem", "name"}
    ensures forall k :: k in s && k != "state" && k != "priority" ==> s[k] == r[k]
    ensures "state" in r && r["state"].StateVal? ==> "state" in s && s["state"] == Str(r["state"].st.Name())
    ensures "priority" in r && r["priority"].PriorityVal? ==> "priority" in s && s["priority"] == Str(r["priority"].p.Name())
  {
    map k | k in r.Keys - {"owner", "isgroupitem", "name"} ::
      if k == "state" || k == "priority" then EnumName(r[k]) else r[k]
  }

  /** `f"{ownername} ({owner})"` */
  function Label(r: Row): string
  {
    StrAt(r, "name") + " (" + StrAt(r, "owner") + ")"
  }

  const Separator: string := ",\n"

  // ---------------------------------------------------------------------------
  // Group tasks

  function InGroup(tid: string): Row -> bool
  {
    r => IsGroupItem(r) && StrAt(r, "task_id") == tid
  }

  /** The task ids of the group rows, each once, in order of first appearance. */
  function GroupIds(rows: seq<Row>): seq<string>
    decreases |rows|
  {
    if rows == [] then []
    else
      var ids := GroupIds(Init(rows));
      var r := Last(rows);
      if IsGroupItem(r) && StrAt(r, "task_id") !in ids then ids + [StrAt(r, "task_id")] else ids
  }

  /**
   * The report entry of group task `tid`: the first row with that id, shaped,
   * with `belongs to` listing the label of every row with that id, in order.
   */
  function GroupEntry(rows: seq<Row>, tid: string): Row
  {
    var members := Filter(rows, InGroup(tid));
    if members == [] then map[]
    else Shaped(members[0])["belongs to" := Str(Join(Separator, Map(members, Label)))]
  }

  /** `entry['belongs to'] += f",\n{label}"` */
  function Appended(entry: Row, line: string): Row
  {
    entry["belongs to" := Str(StrAt(entry, "belongs to") + Separator + line)]
  }

  /** What one row does to `task_dict_group`. */
  function AddGroupRow(group: Dict<string, Row>, r: Row): Dict<string, Row>
  {
    var tid := StrAt(r, "task_id");
    if !IsGroupItem(r) then group
    else if tid in group.items then group.Put(tid, Appended(group.items[tid], Label(r)))
    else group.Put(tid, Shaped(r)["belongs to" := Str(Label(r))])
  }

  /** `task_dict_group` after the loop has seen `rows`. */
  function Groups(rows: seq<Row>): Dict<string, Row>
    decreases |rows|
  {
    if rows == [] then Dict([], map[]) else AddGroupRow(Groups(Init(rows)), Last(rows))
  }

  /** A task id is listed exactly when some group row carries it, and no id is listed twice. */
  lemma {:induction false} GroupIdsSpec(rows: seq<Row>)
    ensures forall tid :: tid in GroupIds(rows) <==> Filter(rows, InGroup(tid)) != []
    ensures forall i, j :: 0 <= i < j < |GroupIds(rows)| ==> GroupIds(rows)[i] != GroupIds(rows)[j]
    decreases |rows|
  {
    if rows != [] {
      GroupIdsSpec(Init(rows));
    }
  }

  lemma GroupIdsStep(rows: seq<Row>, r: Row)
    ensures GroupIds(rows + [r]) ==
      if IsGroupItem(r) && StrAt(r, "task_id") !in GroupIds(rows) then GroupIds(rows) + [StrAt(r, "task_id")] else GroupIds(rows)
  {
    assert Init(rows + [r]) == rows && Last(rows + [r]) == r;
  }

  /** The entry of a group the new row does not belong to is unchanged. */
  lemma GroupEntryOther(rows: seq<Row>, r: Row, tid: string)
    requires !InGroup(tid)(r)
    ensures GroupEntry(rows + [r], tid) == GroupEntry(rows, tid)
  {
    assert Init(rows + [r]) == rows && Last(rows + [r]) == r;
    assert Filter(rows + [r], InGroup(tid)) == Filter(rows, InGroup(tid));
  }

  /** A group row of a known task id appends its label to that entry's `belongs to`. */
  lemma GroupEntryJoin(rows: seq<Row>, r: Row)
    requires IsGroupItem(r) && StrAt(r, "task_id") in GroupIds(rows)
    ensures GroupEntry(rows + [r], StrAt(r, "task_id")) == Appended(GroupEntry(rows, StrAt(r, "task_id")), Label(r))
  {
    var tid := StrAt(r, "task_id");
    assert Init(rows + [r]) == rows && Last(rows + [r]) == r;
    GroupIdsSpec(rows);
    var members := Filter(rows, InGroup(tid));
    assert Filter(rows + [r], InGroup(tid)) == members + [r];
    var labels := Map(members, Label);
    assert Init(members + [r]) == members;
    assert Map(members + [r], Label) == labels + [Label(r)];
    assert Init(labels + [Label(r)]) == labels;
    assert (members + [r])[0] == members[0];
  }

  /** A group row of a new task id opens its entry: the row itself, belonging to its owner alone. */
  lemma GroupEntryOpen(rows: seq<Row>, r: Row)
    requires IsGroupItem(r) && StrAt(r, "task_id") !in GroupIds(rows)
    ensures GroupEntry(rows + [r], StrAt(r, "task_id")) == Shaped(r)["belongs to" := Str(Label(r))]
  {
    var tid := StrAt(r, "task_id");
    assert Init(rows + [r]) == rows && Last(rows + [r]) == r;
    GroupIdsSpec(rows);
    assert Filter(rows + [r], InGroup(tid)) == [r];
    assert Map([r], Label) == [Label(r)];
  }

  /**
   * The loop's `task_dict_group` in closed form: one entry per task id of a
   * group row, in order of first appearance, each holding the first row of
   * that id with the labels of all of them.
   */
  lemma {:induction false} GroupsClosedForm(rows: seq<Row>)
    ensures Groups(rows).keys == GroupIds(rows)
    ensures Groups(rows).items.Keys == set tid | tid in GroupIds(rows)
    ensures forall tid :: tid in Groups(rows).items ==> Groups(rows).items[tid] == GroupEntry(rows, tid)
    decreases |rows|
  {
    if rows != [] {
      var prefix := Init(rows);
      var r := Last(rows);
      assert rows == prefix + [r];
      GroupsClosedForm(prefix);
      GroupIdsStep(prefix, r);
      forall tid | tid in Groups(rows).items ensures Groups(rows).items[tid] == GroupEntry(rows, tid) {
        if IsGroupItem(r) && tid == StrAt(r, "task_id") {
          if tid in GroupIds(prefix) {
            GroupEntryJoin(prefix, r);
          } else {
            GroupEntryOpen(prefix, r);
          }
        } else {
          GroupEntryOther(prefix, r, tid);
        }
      }
    }
  }

  // ---------------------------------------------------------------------------
  // Individual tasks

  function IndividualOf(owner: string): Row -> bool
  {
    r => !IsGroupItem(r) && StrAt(r, "owner") == owner
  }

  /** The owners of the individual rows, each once, in order of first appearance. */
  function Owners(rows: seq<Row>): seq<string>
    decreases |rows|
  {
    if rows == [] then []
    else
      var owners := Owners(Init(rows));
      var r := Last(rows);
      if !IsGroupItem(r) && StrAt(r, "owner") !in owners then owners + [StrAt(r, "owner")] else owners
  }

  /** The list of `owner`: each individual row of that owner, shaped, in order. */
  function Bucket(rows: seq<Row>, owner: string): seq<Row>
  {
    Map(Filter(rows, IndividualOf(owner)), Shaped)
  }

  /** What one row does to `task_dict_individual`. */
  function AddIndividualRow(individual: Dict<string, seq<Row>>, r: Row): Dict<string, seq<Row>>
  {
    var owner := StrAt(r, "owner");
    if IsGroupItem(r) then individual
    else if owner in individual.items then individual.Put(owner, individual.items[owner] + [Shaped(r)])
    else individual.Put(owner, [Shaped(r)])
  }

  /** `task_dict_individual` after the loop has seen `rows`. */
  function Buckets(rows: seq<Row>): Dict<string, seq<Row>>
    decreases |rows|
  {
    if rows == [] then Dict([], map[]) else AddIndividualRow(Buckets(Init(rows)), Last(rows))
  }

  /** An owner is listed exactly when one of their rows is individual, and no owner is listed twice. */
  lemma {:induction false} OwnersSpec(rows: seq<Row>)
    ensures forall o :: o in Owners(rows) <==> Filter(rows, IndividualOf(o)) != []
    ensures forall i, j :: 0 <= i < j < |Owners(rows)| ==> Owners(rows)[i] != Owners(rows)[j]
    decreases |rows|
  {
    if rows != [] {
      OwnersSpec(Init(rows));
    }
  }

  lemma OwnersStep(rows: seq<Row>, r: Row)
    ensures Owners(rows + [r]) ==
      if !IsGroupItem(r) && StrAt(r, "owner") !in Owners(rows) then Owners(rows) + [StrAt(r, "owner")] else Owners(rows)
  {
    assert Init(rows + [r]) == rows && Last(rows + [r]) == r;
  }

  /** The list of each owner the new row does not add to is unchanged; the row's own owner gets it appended. */
  lemma BucketGrows(rows: seq<Row>, r: Row, owner: string)
    ensures Bucket(rows + [r], owner) == if IndividualOf(owner)(r) then Bucket(rows, owner) + [Shaped(r)] else Bucket(rows, owner)
  {
    assert Init(rows + [r]) == rows && Last(rows + [r]) == r;
    var members := Filter(rows, IndividualOf(owner));
    if IndividualOf(owner)(r) {
      assert Filter(rows + [r], IndividualOf(owner)) == members + [r];
      assert Init(members + [r]) == members;
    } else {
      assert Filter(rows + [r], IndividualOf(owner)) == members;
    }
  }

  /**
   * The loop's `task_dict_individual` in closed form: one list per owner of an
   * individual row, in order of first appearance, holding that owner's
   * individual rows, shaped, in order.
   */
  lemma {:induction false} BucketsClosedForm(rows: seq<Row>)
    ensures Buckets(rows).keys == Owners(rows)
    ensures Buckets(rows).items.Keys == set o | o in Owners(rows)
    ensures forall o :: o in Buckets(rows).items ==> Buckets(rows).items[o] == Bucket(rows, o)
    decreases |rows|
  {
    if rows != [] {
      var prefix := Init(rows);
      var r := Last(rows);
      assert rows == prefix + [r];
      BucketsClosedForm(prefix);
      OwnersStep(prefix, r);
      forall o | o in Buckets(rows).items ensures Buckets(rows).items[o] == Bucket(rows, o) {
        BucketGrows(prefix, r, o);
        if !IsGroupItem(r) && o == StrAt(r, "owner") && o !in Buckets(prefix).items {
          OwnersSpec(prefix);
        }
      }
    }
  }

  // ---------------------------------------------------------------------------
  // What the report holds

  /** Both dicts list each key once. */
  lemma ReportValid(rows: seq<Row>)
    ensures Groups(rows).Valid() && Buckets(rows).Valid()
  {
    GroupsClosedForm(rows);
    BucketsClosedForm(rows);
    GroupIdsSpec(rows);
    OwnersSpec(rows);
  }

  /**
   * Every group row is reported under its task id, whose `belongs to` joins
   * the labels of all rows of that id, this row's among them.
   */
  lemma GroupsCover(rows: seq<Row>, i: nat)
    requires i < |rows| && IsGroupItem(rows[i])
    ensures StrAt(rows[i], "task_id") in Groups(rows).items
    ensures var tid := StrAt(rows[i], "task_id");
      && "belongs to" in Groups(rows).items[tid]
      && Groups(rows).items[tid]["belongs to"] == Str(Join(Separator, Map(Filter(rows, InGroup(tid)), Label)))
    ensures Label(rows[i]) in Map(Filter(rows, InGroup(StrAt(rows[i], "task_id"))), Label)
  {
    var tid := StrAt(rows[i], "task_id");
    assert InGroup(tid)(rows[i]);
    GroupsClosedForm(rows);
    GroupIdsSpec(rows);
    MapHas(Filter(rows, InGroup(tid)), Label, rows[i]);
  }

  /** Every individual row appears, shaped, in its owner's list. */
  lemma BucketsCover(rows: seq<Row>, i: nat)
    requires i < |rows| && !IsGroupItem(rows[i])
    ensures StrAt(rows[i], "owner") in Buckets(rows).items
    ensures Shaped(rows[i]) in Buckets(rows).items[StrAt(rows[i], "owner")]
  {
    var owner := StrAt(rows[i], "owner");
    assert IndividualOf(owner)(rows[i]);
    BucketsClosedForm(rows);
    OwnersSpec(rows);
    MapHas(Filter(rows, IndividualOf(owner)), Shaped, rows[i]);
  }

  /** A list entry of owner `o` always comes from an individual row of `o`. */
  lemma BucketsSound(rows: seq<Row>, o: string, x: Row)
    requires o in Buckets(rows).items && x in Buckets(rows).items[o]
    ensures exists r :: r in rows && !IsGroupItem(r) && StrAt(r, "owner") == o && x == Shaped(r)
  {
    BucketsClosedForm(rows);
    var members := Filter(rows, IndividualOf(o));
    assert x in Map(members, Shaped);
    var k :| 0 <= k < |members| && Map(members, Shaped)[k] == x;
    assert members[k] in rows && IndividualOf(o)(members[k]);
  }

  /** The individual rows. */
  function Individual(): Row -> bool
  {
    r => !IsGroupItem(r)
  }

  /** The total length of the lists of `owners` in `individual`. */
  function TotalLength(individual: Dict<string, seq<Row>>, owners: seq<string>): nat
    decreases |owners|
  {
    if owners == [] then 0
    else
      var o := Last(owners);
      TotalLength(individual, Init(owners)) + if o in individual.items then |individual.items[o]| else 0
  }

  /** The total length of the closed-form lists of `owners`. */
  function BucketSizes(rows: seq<Row>, owners: seq<string>): nat
    decreases |owners|
  {
    if owners == [] then 0 else BucketSizes(rows, Init(owners)) + |Bucket(rows, Last(owners))|
  }

  /** A row that is individual to none of `owners` leaves their lists' total alone. */
  lemma {:induction false} SizesSame(rows: seq<Row>, r: Row, owners: seq<string>)
    requires forall o :: o in owners ==> !IndividualOf(o)(r)
    ensures BucketSizes(rows + [r], owners) == BucketSizes(rows, owners)
    decreases |owners|
  {
    if owners != [] {
      SizesSame(rows, r, Init(owners));
      BucketGrows(rows, r, Last(owners));
    }
  }

  /** An individual row of one of `owners`, listed once, adds one to their lists' total. */
  lemma {:induction false} SizesOne(rows: seq<Row>, r: Row, owners: seq<string>)
    requires !IsGroupItem(r) && StrAt(r, "owner") in owners
    requires forall i, j :: 0 <= i < j < |owners| ==> owners[i] != owners[j]
    ensures BucketSizes(rows + [r], owners) == BucketSizes(rows, owners) + 1
    decreases |owners|
  {
    var o := Last(owners);
    BucketGrows(rows, r, o);
    if o == StrAt(r, "owner") {
      assert forall x :: x in Init(owners) ==> x != o by {
        forall x | x in Init(owners) ensures x != o {
          var i :| 0 <= i < |Init(owners)| && Init(owners)[i] == x;
          assert owners[i] == x && owners[|owners| - 1] == o;
        }
      }
      SizesSame(rows, r, Init(owners));
    } else {
      assert StrAt(r, "owner") in Init(owners) by {
        var i :| 0 <= i < |owners| && owners[i] == StrAt(r, "owner");
        assert i != |owners| - 1;
        assert Init(owners)[i] == owners[i];
      }
      SizesOne(rows, r, Init(owners));
    }
  }

  /** A row whose owner is not yet listed adds that owner with a one-row list. */
  lemma SizesNewOwner(rows: seq<Row>, r: Row)
    requires !IsGroupItem(r) && StrAt(r, "owner") !in Owners(rows)
    ensures BucketSizes(rows + [r], Owners(rows) + [StrAt(r, "owner")]) == BucketSizes(rows, Owners(rows)) + 1
  {
    var o := StrAt(r, "owner");
    OwnersSpec(rows);
    SizesSame(rows, r, Owners(rows));
    assert Init(Owners(rows) + [o]) == Owners(rows) && Last(Owners(rows) + [o]) == o;
    BucketGrows(rows, r, o);
    assert Filter(rows, IndividualOf(o)) == [];
  }

  /** One more row adds one to the lists' total exactly when it is individual. */
  lemma SizesStep(rows: seq<Row>, r: Row)
    ensures BucketSizes(rows + [r], Owners(rows + [r])) == BucketSizes(rows, Owners(rows)) + if IsGroupItem(r) then 0 else 1
  {
    OwnersStep(rows, r);
    if IsGroupItem(r) {
      SizesSame(rows, r, Owners(rows));
    } else if StrAt(r, "owner") in Owners(rows) {
      OwnersSpec(rows);
      SizesOne(rows, r, Owners(rows));
    } else {
      SizesNewOwner(rows, r);
    }
  }

  /** The closed-form lists hold as many rows together as there are individual rows. */
  lemma {:induction false} BucketSizesCount(rows: seq<Row>)
    ensures BucketSizes(rows, Owners(rows)) == |Filter(rows, Individual())|
    decreases |rows|
  {
    if rows != [] {
      var prefix := Init(rows);
      var r := Last(rows);
      assert rows == prefix + [r];
      BucketSizesCount(prefix);
      SizesStep(prefix, r);
      FilterAppend(prefix, [r], Individual());
      FilterSingleton(r, Individual());
    }
  }

  /** The total length of the lists of `owners` in a dict that holds their closed-form lists. */
  lemma {:induction false} TotalIsSizes(rows: seq<Row>, individual: Dict<string, seq<Row>>, owners: seq<string>)
    requires forall o :: o in owners ==> o in individual.items && individual.items[o] == Bucket(rows, o)
    ensures TotalLength(individual, owners) == BucketSizes(rows, owners)
    decreases |owners|
  {
    if owners != [] {
      TotalIsSizes(rows, individual, Init(owners));
    }
  }

  /** `task_dict_individual`'s lists hold, together, exactly as many rows as there are individual rows. */
  lemma IndividualCount(rows: seq<Row>)
    ensures TotalLength(Buckets(rows), Buckets(rows).keys) == |Filter(rows, Individual())|
  {
    BucketsClosedForm(rows);
    TotalIsSizes(rows, Buckets(rows), Owners(rows));
    BucketSizesCount(rows);
  }

  // ---------------------------------------------------------------------------
  // The loop

  /** The loop body's rewrite of one row, key by key as the source does it. */
  method ShapeRow(task: Row) returns (shaped: Row)
    requires WellFormed(task)
    ensures shaped == Shaped(task)
  {
    shaped := task;
    shaped := shaped["state" := Str(shaped["state"].st.Name())];
    shaped := shaped["priority" := Str(shaped["priority"].p.Name())];
    shaped := shaped - {"owner"};
    shaped := shaped - {"isgroupitem"};
    shaped := shaped - {"name"};
  }

  /** The `for task in results` loop: both dicts, built row by row. */
  method Aggregate(results: seq<Row>) returns (group: Dict<string, Row>, individual: Dict<string, seq<Row>>)
    requires forall i :: 0 <= i < |results| ==> WellFormed(results[i])
    ensures group == Groups(results) && individual == Buckets(results)
    ensures group.keys == GroupIds(results) && forall tid :: tid in group.items ==> group.items[tid] == GroupEntry(results, tid)
    ensures individual.keys == Owners(results) && forall o :: o in individual.items ==> individual.items[o] == Bucket(results, o)
  {
    group := Dict([], map[]);
    individual := Dict([], map[]);
    for i := 0 to |results|
      invariant group == Groups(results[..i])
      invariant individual == Buckets(results[..i])
    {
      var task := results[i];
      assert Init(results[..i + 1]) == results[..i] && Last(results[..i + 1]) == task;
      var owner := task["owner"].s;
      var ownername := task["name"].s;
      var groupitem := task["isgroupitem"].b;
      var shaped := ShapeRow(task);
      if groupitem {
        var tid := task["task_id"].s;
        var belongsTo := ownername + " (" + owner + ")";
        if tid in group.items {
          var entry := group.items[tid];
          group := group.Put(tid, entry["belongs to" := Str(StrAt(entry, "belongs to") + Separator + belongsTo)]);
        } else {
          group := group.Put(tid, shaped["belongs to" := Str(belongsTo)]);
        }
      } else {
        if owner in individual.items {
          individual := individual.Put(owner, individual.items[owner] + [shaped]);
        } else {
          individual := individual.Put(owner, [shaped]);
        }
      }
    }
    assert results[..|results|] == results;
    GroupsClosedForm(results);
    BucketsClosedForm(results);
  }
}
