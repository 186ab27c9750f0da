/**
 * Task-id namespacing: a stored `task_id` is `<submitter>_<raw id>`, and
 * `sanitise_task_id` (app/db/models/todo.py:243-246) strips everything up to
 * the first `_` again.
 */
module Sanitise {
  import opened Wrappers
  import opened Seqs
  import opened Schema

  /** The position of the first `_` in `s`, if any. */
  function FirstUnderscore(s: string): (r: Option<nat>)
    ensures r.Some? ==> r.value < |s| && s[r.value] == '_' && '_' !in s[..r.value]
    ensures r.None? <==> '_' !in s
    decreases |s|
  {
    if s == [] then None
    else if s[0] == '_' then Some(0)
    else
      match FirstUnderscore(s[1..])
      case None => None
      case Some(i) =>
        assert s[..i + 1] == [s[0]] + s[1..][..i];
        Some(i + 1)
  }

  /** `s.split('_', 1)[1]`; None where Python raises IndexError (no `_` in `s`). */
  function AfterFirstUnderscore(s: string): (r: Option<string>)
    ensures r.None? <==> '_' !in s
    ensures r.Some? ==> exists k :: 0 <= k < |s| && s[k] == '_' && '_' !in s[..k] && r.value == s[k + 1..]
  {
    match FirstUnderscore(s)
    case None => None
    case Some(k) => Some(s[k + 1..])
  }

  /** The stored id of raw id `raw` submitted by `submitter` (app/bot/todo.py:16 and :31). */
  function Namespaced(submitter: string, raw: string): string
  {
    submitter + "_" + raw
  }

  /**
   * Stripping the namespace gives back the raw id exactly when the submitter's
   * name has no `_`; otherwise the part of the name after its first `_` stays.
   */
  lemma {:induction false} NamespaceRoundTrip(submitter: string, raw: string)
    ensures '_' !in submitter ==> AfterFirstUnderscore(Namespaced(submitter, raw)) == Some(raw)
    ensures '_' in submitter ==> AfterFirstUnderscore(Namespaced(submitter, raw)) != Some(raw)
  {
    var s := Namespaced(submitter, raw);
    var n := |submitter|;
    assert s[..n] == submitter;
    assert s[n] == '_';
    var k := FirstUnderscore(s).value;
    if '_' !in submitter {
      assert s[k + 1..] == raw;
    } else {
      var m :| 0 <= m < n && submitter[m] == '_';
      assert |s[k + 1..]| > |raw|;
    }
  }

  /** The example behind the restriction: `a_b` submitting `1` reads back as `b_1`. */
  lemma UnderscoreInSubmitterLeaks()
    ensures AfterFirstUnderscore(Namespaced("a_b", "1")) == Some("b_1")
  {
    assert Namespaced("a_b", "1") == "a_b_1";
    assert FirstUnderscore("b_1") == Some(1);
    assert FirstUnderscore("_b_1") == Some(0);
    assert FirstUnderscore("a_b_1") == Some(1);
  }

  /** The statement of the loop body for one row: KeyError, AttributeError or IndexError, or the row with its `task_id` stripped. */
  function SanitiseRow(r: Row): (res: Result<Row, Error>)
    ensures res.Ok? <==> "task_id" in r && r["task_id"].Str? && '_' in r["task_id"].s
    ensures res.Ok? ==> res.value.Keys == r.Keys
    ensures res.Ok? ==> forall k :: k in r && k != "task_id" ==> res.value[k] == r[k]
    ensures res.Ok? ==> res.value["task_id"].Str? && Some(res.value["task_id"].s) == AfterFirstUnderscore(r["task_id"].s)
  {
    if "task_id" !in r then Err(KeyError("task_id"))
    else if !r["task_id"].Str? then Err(AttributeError)
    else
      match AfterFirstUnderscore(r["task_id"].s)
      case None => Err(IndexError)
      case Some(rest) => Ok(r["task_id" := Str(rest)])
  }

  /** What `sanitise_task_id(rows)` returns, or the exception of the first row that fails. */
  function SanitiseAll(rows: seq<Row>): (res: Result<seq<Row>, Error>)
    ensures res.Ok? <==> forall i :: 0 <= i < |rows| ==> SanitiseRow(rows[i]).Ok?
    ensures res.Ok? ==> |res.value| == |rows| && forall i :: 0 <= i < |rows| ==> SanitiseRow(rows[i]) == Ok(res.value[i])
    ensures res.Err? ==> exists i :: (0 <= i < |rows| && SanitiseRow(rows[i]) == Err(res.error)
      && forall j :: 0 <= j < i ==> SanitiseRow(rows[j]).Ok?)
    decreases |rows|
  {
    if rows == [] then Ok([])
    else
      assert forall i :: 0 <= i < |rows| - 1 ==> rows[i] == Init(rows)[i];
      match SanitiseAll(Init(rows))
      case Err(e) => Err(e)
      case Ok(done) =>
        match SanitiseRow(Last(rows))
        case Err(e) => Err(e)
        case Ok(r) => Ok(done + [r])
  }

  /**
   * `sanitise_task_id`: rewrites each row's `task_id` in place. When a row fails,
   * the rows before it have already been rewritten and the rest are untouched.
   */
  method SanitiseTaskId(data: array<Row>) returns (err: Option<Error>)
    modifies data
    ensures SanitiseAll(old(data[..])).Ok? ==> err.None? && data[..] == SanitiseAll(old(data[..])).value
    ensures SanitiseAll(old(data[..])).Err? ==> err == Some(SanitiseAll(old(data[..])).error)
    ensures err.Some? ==> exists k :: (0 <= k < data.Length && data[k..] == old(data[k..])
      && SanitiseAll(old(data[..k])) == Ok(data[..k]) && SanitiseRow(old(data[k])).Err?)
  {
    ghost var rows := data[..];
    assert rows[..0] == [];
    for i := 0 to data.Length
      invariant data[i..] == rows[i..]
      invariant SanitiseAll(rows[..i]) == Ok(data[..i])
    {
      assert data[i] == rows[i];
      match SanitiseRow(data[i])
      case Err(e) =>
        SanitiseFailsAt(rows, i);
        assert old(data[..i]) == rows[..i] && old(data[i..]) == rows[i..];
        return Some(e);
      case Ok(row) =>
        SanitiseStep(rows, i);
        data[i] := row;
        assert data[..i + 1] == data[..i] + [row];
    }
    assert data[..] == data[..data.Length];
    assert rows == rows[..data.Length];
    return None;
  }

  /** Sanitising one more row appends that row's result. */
  lemma SanitiseStep(rows: seq<Row>, i: nat)
    requires i < |rows| && SanitiseAll(rows[..i]).Ok? && SanitiseRow(rows[i]).Ok?
    ensures SanitiseAll(rows[..i + 1]) == Ok(SanitiseAll(rows[..i]).value + [SanitiseRow(rows[i]).value])
  {
    assert Init(rows[..i + 1]) == rows[..i];
    assert Last(rows[..i + 1]) == rows[i];
  }

  /** When every row before `i` sanitises and row `i` fails, the whole list fails with row `i`'s error. */
  lemma SanitiseFailsAt(rows: seq<Row>, i: nat)
    requires i < |rows| && SanitiseAll(rows[..i]).Ok? && SanitiseRow(rows[i]).Err?
    ensures SanitiseAll(rows) == Err(SanitiseRow(rows[i]).error)
  {
    assert Init(rows[..i + 1]) == rows[..i];
    assert Last(rows[..i + 1]) == rows[i];
    assert SanitiseAll(rows[..i + 1]) == Err(SanitiseRow(rows[i]).error);
    SanitiseErrKept(rows, i + 1);
  }

  /** Once a prefix fails, longer lists fail with the same error. */
  lemma {:induction false} SanitiseErrKept(rows: seq<Row>, n: nat)
    requires n <= |rows| && SanitiseAll(rows[..n]).Err?
    ensures SanitiseAll(rows) == SanitiseAll(rows[..n])
    decreases |rows| - n
  {
    if n == |rows| {
      assert rows[..n] == rows;
    } else {
      assert Init(rows[..n + 1]) == rows[..n];
      assert SanitiseAll(rows[..n + 1]) == SanitiseAll(rows[..n]);
      SanitiseErrKept(rows, n + 1);
    }
  }
}
