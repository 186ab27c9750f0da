/**
 * Sequence helpers standing for Python list comprehensions.
 * Filter and Map are defined by their LAST element, so that a loop that walks
 * a list from the front keeps `acc == Filter(s[..i], p)` with one unfolding.
 */
module Seqs {

  function Init<T>(s: seq<T>): seq<T>
    requires s != []
  {
    s[..|s| - 1]
  }

  function Last<T>(s: seq<T>): T
    requires s != []
  {
    s[|s| - 1]
  }

  function Not<T>(p: T -> bool): T -> bool
  {
    x => !p(x)
  }

  /** `[x for x in s if p(x)]` */
  function Filter<T>(s: seq<T>, p: T -> bool): (r: seq<T>)
    ensures |r| <= |s|
    ensures forall i :: 0 <= i < |r| ==> r[i] in s && p(r[i])
    ensures forall i :: 0 <= i < |s| && p(s[i]) ==> s[i] in r
    decreases |s|
  {
    if s == [] then []
    else
      assert s == Init(s) + [Last(s)];
      Filter(Init(s), p) + if p(Last(s)) then [Last(s)] else []
  }

  /** `[f(x) for x in s]` */
  function Map<T, U>(s: seq<T>, f: T -> U): (r: seq<U>)
    ensures |r| == |s|
    ensures forall i :: 0 <= i < |s| ==> r[i] == f(s[i])
    decreases |s|
  {
    if s == [] then [] else Map(Init(s), f) + [f(Last(s))]
  }

  lemma {:induction false} FilterAppend<T>(a: seq<T>, b: seq<T>, p: T -> bool)
    ensures Filter(a + b, p) == Filter(a, p) + Filter(b, p)
    decreases |b|
  {
    if b != [] {
      assert Init(a + b) == a + Init(b);
      assert Last(a + b) == Last(b);
      FilterAppend(a, Init(b), p);
    } else {
      assert a + b == a;
    }
  }

  /** One more element of a prefix, as a loop over `s` sees it. */
  lemma FilterMapStep<T, U>(s: seq<T>, i: nat, p: T -> bool, f: T -> U)
    requires i < |s|
    ensures Filter(s[..i + 1], p) == Filter(s[..i], p) + if p(s[i]) then [s[i]] else []
    ensures Map(Filter(s[..i + 1], p), f) == Map(Filter(s[..i], p), f) + if p(s[i]) then [f(s[i])] else []
  {
    assert Init(s[..i + 1]) == s[..i];
    if p(s[i]) {
      assert Init(Filter(s[..i + 1], p)) == Filter(s[..i], p);
    }
  }

  lemma MapStep<T, U>(s: seq<T>, i: nat, f: T -> U)
    requires i < |s|
    ensures Map(s[..i + 1], f) == Map(s[..i], f) + [f(s[i])]
  {
    assert Init(s[..i + 1]) == s[..i];
  }

  lemma MapSlices<T, U>(s: seq<T>, f: T -> U, i: nat)
    requires i < |s|
    ensures Map(s, f)[..i] == Map(s[..i], f)
    ensures Map(s, f)[i + 1..] == Map(s[i + 1..], f)
  {
    var m := Map(s, f);
    var front, back := Map(s[..i], f), Map(s[i + 1..], f);
    forall k | 0 <= k < i ensures m[..i][k] == front[k] {
      assert s[..i][k] == s[k];
    }
    assert m[..i] == front;
    forall k | 0 <= k < |s| - i - 1 ensures m[i + 1..][k] == back[k] {
      assert s[i + 1..][k] == s[i + 1 + k];
    }
    assert m[i + 1..] == back;
  }

  lemma AppendAssoc<T>(a: seq<T>, b: seq<T>, c: seq<T>)
    ensures a + b + c == a + (b + c)
  {
  }

  lemma AppendAssoc4<T>(u: seq<T>, a: seq<T>, b: seq<T>, c: seq<T>)
    ensures u + (a + b + c) == u + a + b + c
  {
  }

  lemma MapAppend<T, U>(a: seq<T>, b: seq<T>, f: T -> U)
    ensures Map(a + b, f) == Map(a, f) + Map(b, f)
  {
  }

  /** Filtering the images equals taking the images of the elements whose image passes. */
  lemma {:induction false} FilterMap<T, U>(s: seq<T>, f: T -> U, q: U -> bool, p: T -> bool)
    requires forall i :: 0 <= i < |s| ==> (p(s[i]) <==> q(f(s[i])))
    ensures Filter(Map(s, f), q) == Map(Filter(s, p), f)
    decreases |s|
  {
    if s != [] {
      assert Init(Map(s, f)) == Map(Init(s), f);
      FilterMap(Init(s), f, q, p);
      var x := Last(s);
      if p(x) {
        MapAppend(Filter(Init(s), p), [x], f);
      }
    }
  }

  /** A filter every element passes keeps the whole sequence. */
  lemma {:induction false} FilterKeepsAll<T>(s: seq<T>, p: T -> bool)
    requires forall i :: 0 <= i < |s| ==> p(s[i])
    ensures Filter(s, p) == s
    decreases |s|
  {
    if s != [] {
      FilterKeepsAll(Init(s), p);
    }
  }

  /** A filter no element passes keeps nothing. */
  lemma {:induction false} FilterDropsAll<T>(s: seq<T>, p: T -> bool)
    requires forall i :: 0 <= i < |s| ==> !p(s[i])
    ensures Filter(s, p) == []
    decreases |s|
  {
    if s != [] {
      FilterDropsAll(Init(s), p);
    }
  }

  lemma FilterSingleton<T>(x: T, p: T -> bool)
    ensures Filter([x], p) == if p(x) then [x] else []
  {
    assert Init([x]) == [];
  }

  lemma MapHas<T, U>(s: seq<T>, f: T -> U, x: T)
    requires x in s
    ensures f(x) in Map(s, f)
  {
    var i :| 0 <= i < |s| && s[i] == x;
    assert Map(s, f)[i] == f(x);
  }

  /** An element of `[f(x) for x in s]` is `f` of some `x` of `s`. */
  lemma MapFrom<T, U>(s: seq<T>, f: T -> U, y: U) returns (x: T)
    requires y in Map(s, f)
    ensures x in s && y == f(x)
  {
    var i :| 0 <= i < |s| && Map(s, f)[i] == y;
    x := s[i];
  }

  /** An element of `[f(x) for x in s if p(x)]` comes from some `x` of `s` that passes `p`. */
  lemma MapFilterFrom<T, U>(s: seq<T>, p: T -> bool, f: T -> U, y: U) returns (x: T)
    requires y in Map(Filter(s, p), f)
    ensures x in s && p(x) && y == f(x)
  {
    var kept := Filter(s, p);
    var i :| 0 <= i < |kept| && Map(kept, f)[i] == y;
    x := kept[i];
  }

  lemma MapCompose<T, U, V>(s: seq<T>, f: T -> U, g: U -> V, h: T -> V)
    requires forall i :: 0 <= i < |s| ==> h(s[i]) == g(f(s[i]))
    ensures Map(Map(s, f), g) == Map(s, h)
  {
  }

  /** `a` is `s` with some elements left out, the rest kept in order. */
  ghost predicate Subsequence<T>(a: seq<T>, s: seq<T>)
    decreases |s|
  {
    if a == [] then true
    else if s == [] then false
    else (Last(a) == Last(s) && Subsequence(Init(a), Init(s))) || Subsequence(a, Init(s))
  }

  lemma {:induction false} FilterIsSubsequence<T>(s: seq<T>, p: T -> bool)
    ensures Subsequence(Filter(s, p), s)
    decreases |s|
  {
    if s != [] {
      FilterIsSubsequence(Init(s), p);
      if p(Last(s)) {
        assert Init(Filter(s, p)) == Filter(Init(s), p);
      } else {
        assert Filter(s, p) == Filter(Init(s), p);
      }
    }
  }

  /** `s` is a merge of `a` and `b`: every element of `s` is taken, in order, from the front of one of them. */
  ghost predicate Interleaving<T>(s: seq<T>, a: seq<T>, b: seq<T>)
    decreases |s|
  {
    if s == [] then a == [] && b == []
    else
      (a != [] && Last(a) == Last(s) && Interleaving(Init(s), Init(a), b))
      || (b != [] && Last(b) == Last(s) && Interleaving(Init(s), a, Init(b)))
  }

  lemma {:induction false} InterleavingSplits<T>(s: seq<T>, a: seq<T>, b: seq<T>)
    requires Interleaving(s, a, b)
    ensures |s| == |a| + |b|
    ensures multiset(s) == multiset(a) + multiset(b)
    decreases |s|
  {
    if s != [] {
      assert s == Init(s) + [Last(s)];
      if a != [] && Last(a) == Last(s) && Interleaving(Init(s), Init(a), b) {
        InterleavingSplits(Init(s), Init(a), b);
        assert a == Init(a) + [Last(a)];
      } else {
        InterleavingSplits(Init(s), a, Init(b));
        assert b == Init(b) + [Last(b)];
      }
    }
  }

  /**
   * Splitting a list with a condition and its negation loses nothing, duplicates
   * nothing and keeps the relative order on both sides.
   */
  lemma {:induction false} PartitionInterleaves<T>(s: seq<T>, p: T -> bool)
    ensures Interleaving(s, Filter(s, p), Filter(s, Not(p)))
    ensures |Filter(s, p)| + |Filter(s, Not(p))| == |s|
    ensures multiset(Filter(s, p)) + multiset(Filter(s, Not(p))) == multiset(s)
    decreases |s|
  {
    if s != [] {
      PartitionInterleaves(Init(s), p);
      if p(Last(s)) {
        assert Init(Filter(s, p)) == Filter(Init(s), p);
        assert Filter(s, Not(p)) == Filter(Init(s), Not(p));
      } else {
        assert Init(Filter(s, Not(p))) == Filter(Init(s), Not(p));
        assert Filter(s, p) == Filter(Init(s), p);
      }
    }
    InterleavingSplits(s, Filter(s, p), Filter(s, Not(p)));
  }

  /** Two conditions that agree on every element select the same elements. */
  lemma {:induction false} FilterCongruent<T>(s: seq<T>, p: T -> bool, q: T -> bool)
    requires forall i :: 0 <= i < |s| ==> (p(s[i]) <==> q(s[i]))
    ensures Filter(s, p) == Filter(s, q)
    decreases |s|
  {
    if s != [] {
      FilterCongruent(Init(s), p, q);
    }
  }

  /** The parts, one after another, in order. */
  function Flatten<T>(parts: seq<seq<T>>): seq<T>
    decreases |parts|
  {
    if parts == [] then [] else Flatten(Init(parts)) + Last(parts)
  }

  lemma {:induction false} FlattenAppend<T>(a: seq<seq<T>>, b: seq<seq<T>>)
    ensures Flatten(a + b) == Flatten(a) + Flatten(b)
    decreases |b|
  {
    if b != [] {
      FlattenAppend(a, Init(b));
      assert Init(a + b) == a + Init(b) && Last(a + b) == Last(b);
    } else {
      assert a + b == a;
    }
  }

  /** `parts[i]` sits in `Flatten(parts)` between the parts before it and the parts after it. */
  lemma FlattenBlock<T>(parts: seq<seq<T>>, i: nat)
    requires i < |parts|
    ensures Flatten(parts) == Flatten(parts[..i]) + parts[i] + Flatten(parts[i + 1..])
  {
    assert parts == parts[..i + 1] + parts[i + 1..];
    FlattenAppend(parts[..i + 1], parts[i + 1..]);
    assert Init(parts[..i + 1]) == parts[..i] && Last(parts[..i + 1]) == parts[i];
  }

  function StartsWith(s: string, prefix: string): bool
  {
    |prefix| <= |s| && s[..|prefix|] == prefix
  }

  function EndsWith(s: string, suffix: string): bool
  {
    |suffix| <= |s| && s[|s| - |suffix|..] == suffix
  }

  /** `sep.join(parts)`, written the way the report builds it: the first part, then `sep + part` for each further one. */
  function Join(sep: string, parts: seq<string>): string
    decreases |parts|
  {
    if parts == [] then ""
    else if |parts| == 1 then parts[0]
    else Join(sep, Init(parts)) + sep + Last(parts)
  }
}
