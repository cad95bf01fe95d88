/** Sequence helpers shared by the engine: order-preserving filtering,
    prefix truncation (`slice(0, n)`), `indexOf`, and a leftmost search. */
module Seqs {
  import opened Options

  /** The entries of `s` that satisfy `f`, in their original order
      (JavaScript's `Array.prototype.filter`). */
  function Filter<T(!new)>(s: seq<T>, f: T -> bool): (r: seq<T>)
    ensures |r| <= |s|
    ensures forall x :: x in r <==> x in s && f(x)
    ensures forall i :: 0 <= i < |r| ==> f(r[i])
  {
    if |s| == 0 then []
    else (if f(s[0]) then [s[0]] else []) + Filter(s[1..], f)
  }

  lemma {:induction false} FilterConcat<T(!new)>(a: seq<T>, b: seq<T>, f: T -> bool)
    ensures Filter(a + b, f) == Filter(a, f) + Filter(b, f)
    decreases |a|
  {
    if |a| == 0 {
      assert a + b == b;
    } else {
      assert (a + b)[1..] == a[1..] + b;
      FilterConcat(a[1..], b, f);
    }
  }

  /** Filtering in two stages is filtering by the conjunction. */
  lemma {:induction false} FilterTwice<T(!new)>(s: seq<T>, f: T -> bool, g: T -> bool, h: T -> bool)
    requires forall x :: h(x) == (f(x) && g(x))
    ensures Filter(Filter(s, f), g) == Filter(s, h)
    decreases |s|
  {
    if |s| > 0 {
      FilterTwice(s[1..], f, g, h);
      var head := if f(s[0]) then [s[0]] else [];
      FilterConcat(head, Filter(s[1..], f), g);
    }
  }

  /** Filters by predicates that agree everywhere agree. */
  lemma {:induction false} FilterPointwise<T(!new)>(s: seq<T>, f: T -> bool, g: T -> bool)
    requires forall x :: f(x) == g(x)
    ensures Filter(s, f) == Filter(s, g)
    decreases |s|
  {
    if |s| > 0 {
      FilterPointwise(s[1..], f, g);
    }
  }

  /** A filter stage that runs only when `enabled` adds `enabled ==> f`
      to the predicate filtered so far. */
  lemma FilterStage<T(!new)>(s: seq<T>, before: T -> bool, enabled: bool, f: T -> bool, after: T -> bool)
    requires forall x :: after(x) == (before(x) && (enabled ==> f(x)))
    ensures (if enabled then Filter(Filter(s, before), f) else Filter(s, before)) == Filter(s, after)
  {
    if enabled {
      FilterTwice(s, before, f, after);
    } else {
      FilterPointwise(s, before, after);
    }
  }

  /** A filter that rejects nothing is the identity. */
  lemma {:induction false} FilterKeepsAll<T(!new)>(s: seq<T>, f: T -> bool)
    requires forall i :: 0 <= i < |s| ==> f(s[i])
    ensures Filter(s, f) == s
    decreases |s|
  {
    if |s| > 0 {
      FilterKeepsAll(s[1..], f);
    }
  }

  /** Index of the first `x` in `s`, or `|s|` when there is none
      (`indexOf`, with `|s|` in place of -1). */
  function IndexOf<T(==)>(s: seq<T>, x: T): (k: nat)
    ensures k <= |s|
    ensures k < |s| ==> s[k] == x
    ensures forall j :: 0 <= j < k ==> s[j] != x
  {
    if |s| == 0 then 0
    else if s[0] == x then 0
    else 1 + IndexOf(s[1..], x)
  }

  /** No entry occurs twice. */
  predicate Distinct<T(==)>(s: seq<T>)
  {
    forall i, j :: 0 <= i < j < |s| ==> s[i] != s[j]
  }

  /** Filtering a sequence without repeats keeps its order and adds no
      repeats: the survivors sit at strictly increasing positions of `s`. */
  lemma {:induction false} FilterKeepsOrder<T(!new)>(s: seq<T>, f: T -> bool)
    requires Distinct(s)
    ensures forall i, j :: 0 <= i < j < |Filter(s, f)| ==>
      IndexOf(s, Filter(s, f)[i]) < IndexOf(s, Filter(s, f)[j])
    decreases |s|
  {
    if |s| > 0 {
      var tail := s[1..];
      DistinctTail(s);
      FilterKeepsOrder(tail, f);
      var rt := Filter(tail, f);
      var head := if f(s[0]) then [s[0]] else [];
      assert Filter(s, f) == head + rt;
      HeadNotInTail(s);
      assert forall i :: 0 <= i < |rt| ==> rt[i] != s[0] by {
        forall i | 0 <= i < |rt| ensures rt[i] != s[0] {
          assert rt[i] in rt;
        }
      }
      if f(s[0]) {
        ConsKeepsOrder(s, rt);
      } else {
        ShiftKeepsOrder(s, rt);
      }
    }
  }

  /** Entries other than `s[0]`, in increasing order of position in the
      tail of `s`, are in increasing order of position in `s`. */
  lemma ShiftKeepsOrder<T>(s: seq<T>, rt: seq<T>)
    requires |s| > 0
    requires forall i :: 0 <= i < |rt| ==> rt[i] != s[0]
    requires forall i, j :: 0 <= i < j < |rt| ==> IndexOf(s[1..], rt[i]) < IndexOf(s[1..], rt[j])
    ensures forall i, j :: 0 <= i < j < |rt| ==> IndexOf(s, rt[i]) < IndexOf(s, rt[j])
  {
    forall i, j | 0 <= i < j < |rt| ensures IndexOf(s, rt[i]) < IndexOf(s, rt[j]) {
      assert IndexOf(s, rt[i]) == 1 + IndexOf(s[1..], rt[i]);
      assert IndexOf(s, rt[j]) == 1 + IndexOf(s[1..], rt[j]);
    }
  }

  /** The same, with `s[0]` put in front. */
  lemma ConsKeepsOrder<T>(s: seq<T>, rt: seq<T>)
    requires |s| > 0
    requires forall i :: 0 <= i < |rt| ==> rt[i] != s[0]
    requires forall i, j :: 0 <= i < j < |rt| ==> IndexOf(s[1..], rt[i]) < IndexOf(s[1..], rt[j])
    ensures forall i, j :: 0 <= i < j < |[s[0]] + rt| ==>
      IndexOf(s, ([s[0]] + rt)[i]) < IndexOf(s, ([s[0]] + rt)[j])
  {
    ShiftKeepsOrder(s, rt);
    var r := [s[0]] + rt;
    forall i, j | 0 <= i < j < |r| ensures IndexOf(s, r[i]) < IndexOf(s, r[j]) {
      assert r[j] == rt[j - 1];
      if i == 0 {
        assert r[0] == s[0];
        assert IndexOf(s, rt[j - 1]) == 1 + IndexOf(s[1..], rt[j - 1]);
      } else {
        assert r[i] == rt[i - 1];
      }
    }
  }

  lemma DistinctTail<T>(s: seq<T>)
    requires |s| > 0 && Distinct(s)
    ensures Distinct(s[1..])
  {
    forall i, j | 0 <= i < j < |s| - 1 ensures s[1..][i] != s[1..][j] {
      assert s[1..][i] == s[i + 1] && s[1..][j] == s[j + 1];
    }
  }

  lemma HeadNotInTail<T>(s: seq<T>)
    requires |s| > 0 && Distinct(s)
    ensures s[0] !in s[1..]
  {
    forall m | 0 <= m < |s| - 1 ensures s[1..][m] != s[0] {
      assert s[1..][m] == s[m + 1];
    }
  }

  /** The first `n` entries, or all of them when there are fewer
      (JavaScript's `slice(0, n)`). */
  function Take<T>(s: seq<T>, n: nat): (r: seq<T>)
    ensures |r| == if |s| < n then |s| else n
    ensures r <= s
  {
    if |s| <= n then s else s[..n]
  }

  /** The least index `i` in `[from, n)` with `p(i)`, if any: the model of
      a left-to-right `find` and of a regular expression's leftmost match. */
  function FirstWhere(n: nat, from: nat, p: nat -> bool): (r: Option<nat>)
    ensures r.None? <==> forall i :: from <= i < n ==> !p(i)
    ensures r.Some? ==> from <= r.value < n && p(r.value)
    ensures r.Some? ==> forall i :: from <= i < r.value ==> !p(i)
    decreases n - from
  {
    if from >= n then None
    else if p(from) then Some(from)
    else FirstWhere(n, from + 1, p)
  }
}
