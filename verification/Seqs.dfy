/** Sums, filters and stable sorting over sequences, shared by the other modules. */
module Seqs {

  datatype Option<+T> = None | Some(value: T)

  function Min(a: int, b: int): int { if a <= b then a else b }

  function Max(a: int, b: int): int { if a >= b then a else b }

  /** Unsigned subtraction that stops at zero. */
  function Sub(a: nat, b: nat): nat { if a >= b then a - b else 0 }

  function Get<K>(m: map<K, nat>, k: K): nat { if k in m then m[k] else 0 }

  function Sum(s: seq<nat>): nat {
    if s == [] then 0 else s[0] + Sum(s[1..])
  }

  function SumBy<T>(s: seq<T>, f: T -> nat): nat {
    if s == [] then 0 else f(s[0]) + SumBy(s[1..], f)
  }

  function Filter<T>(s: seq<T>, keep: T -> bool): seq<T> {
    if s == [] then []
    else if keep(s[0]) then [s[0]] + Filter(s[1..], keep)
    else Filter(s[1..], keep)
  }

  /** The stable sort behind the source's `sort_by_key`. */
  function SortBy<T>(s: seq<T>, key: T -> int): seq<T> {
    if s == [] then [] else InsertBy(s[0], SortBy(s[1..], key), key)
  }

  function InsertBy<T>(x: T, s: seq<T>, key: T -> int): seq<T> {
    if s == [] || key(x) <= key(s[0]) then [x] + s else [s[0]] + InsertBy(x, s[1..], key)
  }

  ghost predicate SortedBy<T>(s: seq<T>, key: T -> int) {
    forall i, j :: 0 <= i < j < |s| ==> key(s[i]) <= key(s[j])
  }

  /** Elements with equal keys are equal: the key identifies the element. */
  ghost predicate KeyInjective<T(!new)>(s: seq<T>, key: T -> int) {
    forall x, y :: x in s && y in s && key(x) == key(y) ==> x == y
  }

  // ---- sums ----

  lemma {:induction false} SumAppend(a: seq<nat>, b: seq<nat>)
    ensures Sum(a + b) == Sum(a) + Sum(b)
  {
    if a == [] {
      assert a + b == b;
    } else {
      SumAppend(a[1..], b);
      assert (a + b)[1..] == a[1..] + b;
    }
  }

  lemma {:induction false} SumByAppend<T>(a: seq<T>, b: seq<T>, f: T -> nat)
    ensures SumBy(a + b, f) == SumBy(a, f) + SumBy(b, f)
  {
    if a == [] {
      assert a + b == b;
    } else {
      SumByAppend(a[1..], b, f);
      assert (a + b)[1..] == a[1..] + b;
    }
  }

  lemma SumOfThree<T>(a: T, b: T, c: T, f: T -> nat)
    ensures SumBy([a, b, c], f) == f(a) + f(b) + f(c)
  {
    assert [a, b, c][1..] == [b, c] && [b, c][1..] == [c];
    assert [c][1..] == [] && SumBy([c], f) == f(c);
    assert SumBy([b, c], f) == f(b) + SumBy([c], f);
  }

  // ---- stable sorting ----

  lemma {:induction false} InsertKeepsElements<T>(x: T, s: seq<T>, key: T -> int)
    ensures multiset(InsertBy(x, s, key)) == multiset(s) + multiset{x}
  {
    if s != [] && key(x) > key(s[0]) {
      InsertKeepsElements(x, s[1..], key);
      assert s == [s[0]] + s[1..];
    }
  }

  lemma {:induction false} InsertKeepsSorted<T>(x: T, s: seq<T>, key: T -> int)
    requires SortedBy(s, key)
    ensures SortedBy(InsertBy(x, s, key), key)
  {
    if s != [] && key(x) > key(s[0]) {
      var t := InsertBy(x, s[1..], key);
      InsertKeepsSorted(x, s[1..], key);
      InsertKeepsElements(x, s[1..], key);
      forall j | 0 <= j < |t| ensures key(s[0]) <= key(t[j]) {
        assert t[j] in multiset(t);
        assert t[j] == x || t[j] in s[1..];
      }
    }
  }

  lemma {:induction false} SortByFacts<T>(s: seq<T>, key: T -> int)
    ensures multiset(SortBy(s, key)) == multiset(s)
    ensures SortedBy(SortBy(s, key), key)
  {
    if s != [] {
      SortByFacts(s[1..], key);
      InsertKeepsElements(s[0], SortBy(s[1..], key), key);
      InsertKeepsSorted(s[0], SortBy(s[1..], key), key);
      assert s == [s[0]] + s[1..];
    }
  }

  lemma SortMembers<T>(s: seq<T>, key: T -> int)
    ensures forall x :: x in SortBy(s, key) <==> x in s
  {
    SortByFacts(s, key);
    var t := SortBy(s, key);
    forall x: T ensures x in t <==> x in s {
      assert x in t <==> x in multiset(t);
      assert x in s <==> x in multiset(s);
    }
  }

  lemma {:induction false} SortedIsUnique<T(!new)>(a: seq<T>, b: seq<T>, key: T -> int)
    requires SortedBy(a, key) && SortedBy(b, key)
    requires multiset(a) == multiset(b) && KeyInjective(a, key)
    ensures a == b
  {
    if a == [] {
      assert |multiset(b)| == 0;
    } else {
      var x, y := a[0], b[0];
      assert y in multiset(b) && y in a;
      assert x in multiset(a) && x in b;
      assert key(x) <= key(y) && key(y) <= key(x);
      TailOf(a, key);
      TailOf(b, key);
      SortedIsUnique(a[1..], b[1..], key);
    }
  }

  lemma TailOf<T(!new)>(s: seq<T>, key: T -> int)
    requires s != [] && SortedBy(s, key)
    ensures SortedBy(s[1..], key)
    ensures multiset(s[1..]) == multiset(s) - multiset{s[0]}
    ensures s == [s[0]] + s[1..]
    ensures KeyInjective(s, key) ==> KeyInjective(s[1..], key)
  {
    assert s == [s[0]] + s[1..];
  }

  /** Sorting by an identifying key forgets the order of the input. */
  lemma SortForgetsOrder<T(!new)>(a: seq<T>, b: seq<T>, key: T -> int)
    requires multiset(a) == multiset(b) && KeyInjective(a, key)
    ensures SortBy(a, key) == SortBy(b, key)
  {
    SortByFacts(a, key);
    SortByFacts(b, key);
    SortMembers(a, key);
    SortedIsUnique(SortBy(a, key), SortBy(b, key), key);
  }

  lemma {:induction false} SumByInsert<T>(x: T, s: seq<T>, key: T -> int, f: T -> nat)
    ensures SumBy(InsertBy(x, s, key), f) == f(x) + SumBy(s, f)
  {
    if s != [] && key(x) > key(s[0]) {
      SumByInsert(x, s[1..], key, f);
    }
  }

  lemma {:induction false} SumBySort<T>(s: seq<T>, key: T -> int, f: T -> nat)
    ensures SumBy(SortBy(s, key), f) == SumBy(s, f)
  {
    if s != [] {
      SumBySort(s[1..], key, f);
      SumByInsert(s[0], SortBy(s[1..], key), key, f);
    }
  }

  /** A sum over identified elements forgets their order. */
  lemma SumForgetsOrder<T(!new)>(a: seq<T>, b: seq<T>, key: T -> int, f: T -> nat)
    requires multiset(a) == multiset(b) && KeyInjective(a, key)
    ensures SumBy(a, f) == SumBy(b, f)
  {
    SortForgetsOrder(a, b, key);
    SumBySort(a, key, f);
    SumBySort(b, key, f);
  }

  // ---- filters ----

  lemma {:induction false} FilterMembers<T>(s: seq<T>, keep: T -> bool)
    ensures forall i :: 0 <= i < |Filter(s, keep)| ==> Filter(s, keep)[i] in s && keep(Filter(s, keep)[i])
    ensures forall x :: x in s && keep(x) ==> x in Filter(s, keep)
  {
    if s != [] {
      FilterMembers(s[1..], keep);
      assert s == [s[0]] + s[1..];
    }
  }

  lemma {:induction false} FilterAppend<T>(a: seq<T>, b: seq<T>, keep: T -> bool)
    ensures Filter(a + b, keep) == Filter(a, keep) + Filter(b, keep)
  {
    if a == [] {
      assert a + b == b;
    } else {
      FilterAppend(a[1..], b, keep);
      assert (a + b)[0] == a[0] && (a + b)[1..] == a[1..] + b;
      var h, t, u := [a[0]], Filter(a[1..], keep), Filter(b, keep);
      assert h + (t + u) == (h + t) + u;
    }
  }

  lemma FilterCons<T>(x: T, s: seq<T>, keep: T -> bool)
    ensures Filter([x] + s, keep) == if keep(x) then [x] + Filter(s, keep) else Filter(s, keep)
  {
    assert ([x] + s)[1..] == s;
  }

  lemma {:induction false} FilterInsert<T>(x: T, s: seq<T>, key: T -> int, keep: T -> bool)
    requires SortedBy(s, key)
    ensures Filter(InsertBy(x, s, key), keep)
         == if keep(x) then InsertBy(x, Filter(s, keep), key) else Filter(s, keep)
  {
    var t := Filter(s, keep);
    if s == [] || key(x) <= key(s[0]) {
      FilterCons(x, s, keep);
      FilterMembers(s, keep);
      if t != [] {
        var i :| 0 <= i < |s| && s[i] == t[0];
        assert key(s[0]) <= key(s[i]);
      }
    } else {
      var rest := s[1..];
      FilterInsert(x, rest, key, keep);
      FilterCons(s[0], InsertBy(x, rest, key), keep);
      if keep(s[0]) {
        assert t == [s[0]] + Filter(rest, keep);
        assert t[1..] == Filter(rest, keep);
      }
    }
  }

  /** Stable sorting and dropping elements commute. */
  lemma {:induction false} FilterSort<T>(s: seq<T>, key: T -> int, keep: T -> bool)
    ensures Filter(SortBy(s, key), keep) == SortBy(Filter(s, keep), key)
  {
    if s != [] {
      var rest := s[1..];
      FilterSort(rest, key, keep);
      SortByFacts(rest, key);
      FilterInsert(s[0], SortBy(rest, key), key, keep);
      if keep(s[0]) {
        var t := [s[0]] + Filter(rest, keep);
        assert t[0] == s[0] && t[1..] == Filter(rest, keep);
      }
    }
  }

  lemma {:induction false} FilterTwice<T>(s: seq<T>, f: T -> bool, g: T -> bool, h: T -> bool)
    requires forall i :: 0 <= i < |s| ==> (h(s[i]) <==> f(s[i]) && g(s[i]))
    ensures Filter(Filter(s, f), g) == Filter(s, h)
  {
    if s != [] {
      FilterTwice(s[1..], f, g, h);
      if f(s[0]) {
        FilterCons(s[0], Filter(s[1..], f), g);
      }
    }
  }

  lemma {:induction false} FilterAll<T>(s: seq<T>, keep: T -> bool)
    requires forall i :: 0 <= i < |s| ==> keep(s[i])
    ensures Filter(s, keep) == s
  {
    if s != [] {
      FilterAll(s[1..], keep);
      assert s == [s[0]] + s[1..];
    }
  }

  /** What is kept of one sequence is kept, element by element, of the other. */
  lemma {:induction false} FilterCount<T>(xs: seq<T>, ys: seq<T>, f: T -> bool, g: T -> bool)
    requires |xs| == |ys| && forall i :: 0 <= i < |xs| && f(xs[i]) ==> g(ys[i])
    ensures |Filter(xs, f)| <= |Filter(ys, g)|
    ensures (exists i :: 0 <= i < |xs| && !f(xs[i]) && g(ys[i])) ==> |Filter(xs, f)| < |Filter(ys, g)|
  {
    if xs != [] {
      assert f(xs[0]) ==> g(ys[0]);
      forall i | 0 <= i < |xs[1..]| && f(xs[1..][i]) ensures g(ys[1..][i]) {
        assert g(ys[i + 1]);
      }
      FilterCount(xs[1..], ys[1..], f, g);
      if i :| 0 < i < |xs| && !f(xs[i]) && g(ys[i]) {
        assert !f(xs[1..][i - 1]) && g(ys[1..][i - 1]);
      }
    }
  }
}
