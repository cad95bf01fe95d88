/** A stable sort by descending key: the model of `Array.prototype.sort`
    (stable since ECMAScript 2019) with a comparator `key(b) - key(a)`. */
module StableSort {

  /** Keys never increase along `s`. */
  predicate SortedDesc<T>(s: seq<T>, key: T -> real)
  {
    forall i, j :: 0 <= i < j < |s| ==> key(s[i]) >= key(s[j])
  }

  /** The entries of `s` whose key is `v`, in their order in `s`. */
  function KeyClass<T>(s: seq<T>, key: T -> real, v: real): seq<T>
  {
    if |s| == 0 then []
    else (if key(s[0]) == v then [s[0]] else []) + KeyClass(s[1..], key, v)
  }

  /** `x` placed after every entry whose key is at least its own. */
  function Insert<T>(x: T, s: seq<T>, key: T -> real): seq<T>
  {
    if |s| == 0 then [x]
    else if key(s[0]) >= key(x) then [s[0]] + Insert(x, s[1..], key)
    else [x] + s
  }

  /** Insertion sort, taking the entries of `s` from left to right. */
  function SortDesc<T>(s: seq<T>, key: T -> real): (r: seq<T>)
    ensures multiset(r) == multiset(s)
    ensures SortedDesc(r, key)
    ensures forall v :: KeyClass(r, key, v) == KeyClass(s, key, v)
  {
    if |s| == 0 then []
    else
      var sorted := SortDesc(s[..|s| - 1], key);
      InsertLast(s[..|s| - 1], s[|s| - 1], sorted, key);
      assert s == s[..|s| - 1] + [s[|s| - 1]];
      Insert(s[|s| - 1], sorted, key)
  }

  /** One step of the insertion sort keeps the three sort properties. */
  lemma InsertLast<T>(init: seq<T>, last: T, sorted: seq<T>, key: T -> real)
    requires multiset(sorted) == multiset(init)
    requires SortedDesc(sorted, key)
    requires forall v :: KeyClass(sorted, key, v) == KeyClass(init, key, v)
    ensures multiset(Insert(last, sorted, key)) == multiset(init + [last])
    ensures SortedDesc(Insert(last, sorted, key), key)
    ensures forall v :: KeyClass(Insert(last, sorted, key), key, v) == KeyClass(init + [last], key, v)
  {
    InsertPermutes(last, sorted, key);
    InsertSorted(last, sorted, key);
    forall v
      ensures KeyClass(Insert(last, sorted, key), key, v) == KeyClass(init + [last], key, v)
    {
      InsertStable(last, sorted, key, v);
      KeyClassConcat(init, [last], key, v);
    }
  }

  lemma {:induction false} InsertPermutes<T>(x: T, s: seq<T>, key: T -> real)
    ensures multiset(Insert(x, s, key)) == multiset(s) + multiset{x}
    decreases |s|
  {
    if |s| > 0 && key(s[0]) >= key(x) {
      InsertPermutes(x, s[1..], key);
      assert s == [s[0]] + s[1..];
    }
  }

  lemma {:induction false} InsertSorted<T>(x: T, s: seq<T>, key: T -> real)
    requires SortedDesc(s, key)
    ensures SortedDesc(Insert(x, s, key), key)
    ensures |Insert(x, s, key)| > 0
    ensures Insert(x, s, key)[0] == (if |s| > 0 && key(s[0]) >= key(x) then s[0] else x)
    decreases |s|
  {
    if |s| > 0 && key(s[0]) >= key(x) {
      InsertSorted(x, s[1..], key);
      InsertPermutes(x, s[1..], key);
      var rest := Insert(x, s[1..], key);
      forall k | 0 <= k < |rest|
        ensures key(s[0]) >= key(rest[k])
      {
        assert rest[k] in multiset(rest);
        assert rest[k] in multiset(s[1..]) + multiset{x};
        if rest[k] != x {
          assert rest[k] in s[1..];
        }
      }
    }
  }

  lemma {:induction false} KeyClassConcat<T>(a: seq<T>, b: seq<T>, key: T -> real, v: real)
    ensures KeyClass(a + b, key, v) == KeyClass(a, key, v) + KeyClass(b, key, v)
    decreases |a|
  {
    if |a| == 0 {
      assert a + b == b;
    } else {
      var head := if key(a[0]) == v then [a[0]] else [];
      assert (a + b)[0] == a[0] && (a + b)[1..] == a[1..] + b;
      KeyClassConcat(a[1..], b, key, v);
      assert KeyClass(a + b, key, v) == head + (KeyClass(a[1..], key, v) + KeyClass(b, key, v));
    }
  }

  /** No entry of `s` has key `v`. */
  lemma {:induction false} KeyClassEmpty<T>(s: seq<T>, key: T -> real, v: real)
    requires forall i :: 0 <= i < |s| ==> key(s[i]) < v
    ensures KeyClass(s, key, v) == []
    decreases |s|
  {
    if |s| > 0 {
      KeyClassEmpty(s[1..], key, v);
    }
  }

  /** Inserting `x` into a sorted sequence puts it after every entry with
      the same key. */
  lemma {:induction false} InsertStable<T>(x: T, s: seq<T>, key: T -> real, v: real)
    requires SortedDesc(s, key)
    ensures KeyClass(Insert(x, s, key), key, v)
         == KeyClass(s, key, v) + (if key(x) == v then [x] else [])
    decreases |s|
  {
    if |s| == 0 {
    } else if key(s[0]) >= key(x) {
      SortedTail(s, key);
      InsertStable(x, s[1..], key, v);
      InsertAfterHead(x, s, key, v);
    } else {
      InsertBeforeAll(x, s, key, v);
    }
  }

  /** `x` passing the first entry: the head's class membership is unchanged
      and the rest follows from the tail. */
  lemma InsertAfterHead<T>(x: T, s: seq<T>, key: T -> real, v: real)
    requires |s| > 0 && key(s[0]) >= key(x)
    requires KeyClass(Insert(x, s[1..], key), key, v)
          == KeyClass(s[1..], key, v) + (if key(x) == v then [x] else [])
    ensures KeyClass(Insert(x, s, key), key, v)
         == KeyClass(s, key, v) + (if key(x) == v then [x] else [])
  {
    var head := if key(s[0]) == v then [s[0]] else [];
    var ins := Insert(x, s, key);
    assert ins == [s[0]] + Insert(x, s[1..], key);
    assert ins[0] == s[0] && ins[1..] == Insert(x, s[1..], key);
    assert KeyClass(ins, key, v) == head + KeyClass(ins[1..], key, v);
    assert KeyClass(s, key, v) == head + KeyClass(s[1..], key, v);
  }

  lemma SortedTail<T>(s: seq<T>, key: T -> real)
    requires |s| > 0 && SortedDesc(s, key)
    ensures SortedDesc(s[1..], key)
  {
    forall i, j | 0 <= i < j < |s| - 1 ensures key(s[1..][i]) >= key(s[1..][j]) {
      assert s[1..][i] == s[i + 1] && s[1..][j] == s[j + 1];
    }
  }

  /** `x` going in front of a sorted sequence whose keys are all below its
      own is the last of its key class. */
  lemma InsertBeforeAll<T>(x: T, s: seq<T>, key: T -> real, v: real)
    requires SortedDesc(s, key) && |s| > 0 && key(s[0]) < key(x)
    ensures KeyClass(Insert(x, s, key), key, v)
         == KeyClass(s, key, v) + (if key(x) == v then [x] else [])
  {
    KeyClassConcat([x], s, key, v);
    if key(x) == v {
      KeyClassEmpty(s, key, v);
    }
  }

  /** The sort depends on the keys' values only. */
  lemma {:induction false} SortByEqualKeys<T>(s: seq<T>, k1: T -> real, k2: T -> real)
    requires forall x :: k1(x) == k2(x)
    ensures SortDesc(s, k1) == SortDesc(s, k2)
    decreases |s|
  {
    if |s| > 0 {
      SortByEqualKeys(s[..|s| - 1], k1, k2);
      InsertByEqualKeys(s[|s| - 1], SortDesc(s[..|s| - 1], k1), k1, k2);
    }
  }

  lemma {:induction false} InsertByEqualKeys<T>(x: T, s: seq<T>, k1: T -> real, k2: T -> real)
    requires forall y :: k1(y) == k2(y)
    ensures Insert(x, s, k1) == Insert(x, s, k2)
    decreases |s|
  {
    if |s| > 0 {
      InsertByEqualKeys(x, s[1..], k1, k2);
    }
  }
}
