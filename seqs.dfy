/** Generic sequence operations that the components use over and over:
    `filter`, the add-or-remove toggle on a list, `Array.from(new Set(...))`,
    replacement and removal by key, and the stable `Array.prototype.sort`. */
module Seqs {

  // ---------------------------------------------------------------------------
  // Filtering and counting

  /** `s.filter(p)` */
  function Filter<T(!new)>(s: seq<T>, p: T -> bool): (r: seq<T>)
    ensures |r| <= |s|
    ensures forall x :: x in r <==> x in s && p(x)
  {
    if s == [] then [] else (if p(s[0]) then [s[0]] else []) + Filter(s[1..], p)
  }

  lemma {:induction false} FilterAppend<T(!new)>(a: seq<T>, b: seq<T>, p: T -> bool)
    ensures Filter(a + b, p) == Filter(a, p) + Filter(b, p)
  {
    if a == [] {
      assert a + b == b;
    } else {
      var h: seq<T> := if p(a[0]) then [a[0]] else [];
      assert (a + b)[0] == a[0];
      assert (a + b)[1..] == a[1..] + b;
      FilterAppend(a[1..], b, p);
      calc {
        Filter(a + b, p);
        h + Filter(a[1..] + b, p);
        h + (Filter(a[1..], p) + Filter(b, p));
        (h + Filter(a[1..], p)) + Filter(b, p);
      }
    }
  }

  /** Filtering by `p` and then by `q` is filtering once by both. */
  lemma {:induction false} FilterFilter<T(!new)>(s: seq<T>, p: T -> bool, q: T -> bool, pq: T -> bool)
    requires forall x :: pq(x) == (p(x) && q(x))
    ensures Filter(Filter(s, p), q) == Filter(s, pq)
  {
    if s != [] {
      var h: seq<T> := if p(s[0]) then [s[0]] else [];
      FilterAppend(h, Filter(s[1..], p), q);
      FilterFilter(s[1..], p, q, pq);
      if p(s[0]) {
        assert Filter(h, q) == (if q(s[0]) then [s[0]] else []) + Filter(h[1..], q);
      }
    }
  }

  /** A filter keeps everything when every element passes. */
  lemma {:induction false} FilterAll<T(!new)>(s: seq<T>, p: T -> bool)
    requires forall x :: x in s ==> p(x)
    ensures Filter(s, p) == s
  {
    if s != [] {
      FilterAll(s[1..], p);
    }
  }

  /** Number of elements satisfying `p`. */
  function Count<T(!new)>(s: seq<T>, p: T -> bool): nat
  {
    |Filter(s, p)|
  }

  lemma CountSnoc<T(!new)>(s: seq<T>, x: T, p: T -> bool)
    ensures Count(s + [x], p) == Count(s, p) + (if p(x) then 1 else 0)
  {
    FilterAppend(s, [x], p);
  }

  /** Number of occurrences of `x`. */
  function Occurrences<T(==,!new)>(s: seq<T>, x: T): (n: nat)
    ensures n == multiset(s)[x]
  {
    if s == [] then 0
    else
      assert s == [s[0]] + s[1..];
      (if s[0] == x then 1 else 0) + Occurrences(s[1..], x)
  }

  // ---------------------------------------------------------------------------
  // Removing and toggling a value

  /** `s.filter(i => i !== v)`: the other values, in their order. */
  function Without<T(==,!new)>(s: seq<T>, v: T): (r: seq<T>)
    ensures r == Filter(s, (x: T) => x != v)
    ensures v !in r
    ensures forall x :: x != v ==> (x in r <==> x in s)
    ensures |r| <= |s|
  {
    if s == [] then [] else (if s[0] == v then [] else [s[0]]) + Without(s[1..], v)
  }

  /** `s.includes(v) ? s.filter(i => i !== v) : [...s, v]` */
  function Toggled<T(==,!new)>(s: seq<T>, v: T): (r: seq<T>)
    ensures v in r <==> v !in s
    ensures forall x :: x != v ==> (x in r <==> x in s)
  {
    if v in s then Without(s, v) else s + [v]
  }

  lemma ToggledTwice<T(!new)>(s: seq<T>, v: T)
    ensures forall x :: x in Toggled(Toggled(s, v), v) <==> x in s
  {
  }

  /** In a list without repeats, dropping a present value shortens it by one. */
  lemma {:induction false} WithoutDistinct<T(!new)>(s: seq<T>, v: T)
    requires NoDup(s) && v in s
    ensures NoDup(Without(s, v)) && |Without(s, v)| == |s| - 1
  {
    if s[0] == v {
      assert v !in s[1..] by {
        forall j | 0 <= j < |s| - 1 ensures s[1..][j] != v {
          assert s[j + 1] != s[0];
        }
      }
      WithoutAbsent(s[1..], v);
    } else {
      WithoutDistinct(s[1..], v);
      var r := Without(s[1..], v);
      assert s[0] !in r by {
        forall j | 0 <= j < |s| - 1 ensures s[1..][j] != s[0] {
          assert s[j + 1] != s[0];
        }
      }
    }
  }

  lemma {:induction false} WithoutAbsent<T(!new)>(s: seq<T>, v: T)
    requires v !in s
    ensures Without(s, v) == s
  {
    if s != [] {
      WithoutAbsent(s[1..], v);
      assert s == [s[0]] + s[1..];
    }
  }

  /** Toggling in a list without repeats keeps it so and changes its length
      by one. */
  lemma ToggleCount<T(!new)>(s: seq<T>, v: T)
    requires NoDup(s)
    ensures NoDup(Toggled(s, v))
    ensures |Toggled(s, v)| == if v in s then |s| - 1 else |s| + 1
  {
    if v in s {
      WithoutDistinct(s, v);
    }
  }

  /** `s.filter(x => !drop.has(x))` */
  function RemoveAll<T(==,!new)>(s: seq<T>, drop: set<T>): (r: seq<T>)
    ensures forall x :: x in r <==> x in s && x !in drop
  {
    Filter(s, x => x !in drop)
  }

  /** Removing keeps the relative order of what stays: the result is what the
      input keeps when the dropped values are filtered out, element by element. */
  lemma {:induction false} RemoveAllAppend<T(!new)>(a: seq<T>, b: seq<T>, drop: set<T>)
    ensures RemoveAll(a + b, drop) == RemoveAll(a, drop) + RemoveAll(b, drop)
  {
    FilterAppend(a, b, x => x !in drop);
  }

  // ---------------------------------------------------------------------------
  // Duplicate-free union (`Array.from(new Set(xs))`)

  predicate NoDup<T(==,!new)>(s: seq<T>)
  {
    forall i, j :: 0 <= i < j < |s| ==> s[i] != s[j]
  }

  /** Appends to `acc` every element of `xs` not already present, in order. */
  function AppendNew<T(==,!new)>(acc: seq<T>, xs: seq<T>): (r: seq<T>)
    ensures forall x :: x in r <==> x in acc || x in xs
    ensures |acc| <= |r| && r[..|acc|] == acc
    decreases |xs|
  {
    if xs == [] then acc
    else AppendNew(if xs[0] in acc then acc else acc + [xs[0]], xs[1..])
  }

  /** One step of `AppendNew` over the suffix of `xs` from `i`. */
  lemma AppendNewStep<T(!new)>(acc: seq<T>, xs: seq<T>, i: nat)
    requires i < |xs|
    ensures AppendNew(acc, xs[i..]) == AppendNew(if xs[i] in acc then acc else acc + [xs[i]], xs[i + 1..])
  {
    assert xs[i..][0] == xs[i] && xs[i..][1..] == xs[i + 1..];
  }

  /** `Array.from(new Set(xs))`: first occurrences, in order. */
  function Dedup<T(==,!new)>(xs: seq<T>): seq<T>
  {
    AppendNew([], xs)
  }

  /** `Array.from(new Set(xs))` as the `Set` builds it: walks `xs` once and
      keeps each element the first time it is met. */
  method DedupOf<T(==,!new)>(xs: seq<T>) returns (acc: seq<T>)
    ensures acc == Dedup(xs)
  {
    acc := [];
    var i := 0;
    while i < |xs|
      invariant 0 <= i <= |xs|
      invariant AppendNew(acc, xs[i..]) == Dedup(xs)
    {
      AppendNewStep(acc, xs, i);
      if xs[i] !in acc {
        acc := acc + [xs[i]];
      }
      i := i + 1;
    }
    assert xs[i..] == [];
  }

  lemma {:induction false} AppendNewNoDup<T(!new)>(acc: seq<T>, xs: seq<T>)
    requires NoDup(acc)
    ensures NoDup(AppendNew(acc, xs))
    decreases |xs|
  {
    if xs != [] {
      var acc' := if xs[0] in acc then acc else acc + [xs[0]];
      assert NoDup(acc');
      AppendNewNoDup(acc', xs[1..]);
    }
  }

  /** Appending only values that are already present changes nothing. */
  lemma {:induction false} AppendNewPresent<T(!new)>(acc: seq<T>, xs: seq<T>)
    requires forall x :: x in xs ==> x in acc
    ensures AppendNew(acc, xs) == acc
    decreases |xs|
  {
    if xs != [] {
      AppendNewPresent(acc, xs[1..]);
    }
  }

  lemma AppendNewOne<T(!new)>(acc: seq<T>, v: T)
    ensures AppendNew(acc, [v]) == if v in acc then acc else acc + [v]
  {
    assert [v][1..] == [];
  }

  lemma {:induction false} AppendNewSplit<T(!new)>(acc: seq<T>, a: seq<T>, b: seq<T>)
    ensures AppendNew(acc, a + b) == AppendNew(AppendNew(acc, a), b)
    decreases |a|
  {
    if a == [] {
      assert a + b == b;
    } else {
      assert (a + b)[0] == a[0];
      assert (a + b)[1..] == a[1..] + b;
      AppendNewSplit(if a[0] in acc then acc else acc + [a[0]], a[1..], b);
    }
  }

  /** A duplicate-free sequence is its own duplicate-free union. */
  lemma {:induction false} AppendNewDistinct<T(!new)>(acc: seq<T>, xs: seq<T>)
    requires NoDup(acc + xs)
    ensures AppendNew(acc, xs) == acc + xs
    decreases |xs|
  {
    if xs != [] {
      assert xs[0] !in acc by {
        forall i | 0 <= i < |acc| ensures acc[i] != xs[0] {
          assert (acc + xs)[i] != (acc + xs)[|acc|];
        }
      }
      assert acc + xs == (acc + [xs[0]]) + xs[1..];
      AppendNewDistinct(acc + [xs[0]], xs[1..]);
    }
  }

  // ---------------------------------------------------------------------------
  // Replacing and removing by key (`s.map(x => key(x) === k ? v : x)`,
  // `s.filter(x => key(x) !== k)`)

  function ReplaceByKey<T(!new), K(==)>(s: seq<T>, key: T -> K, k: K, v: T): (r: seq<T>)
    ensures |r| == |s|
    ensures forall i :: 0 <= i < |s| ==> r[i] == if key(s[i]) == k then v else s[i]
  {
    seq(|s|, i requires 0 <= i < |s| => if key(s[i]) == k then v else s[i])
  }

  function RemoveByKey<T(!new), K(==)>(s: seq<T>, key: T -> K, k: K): (r: seq<T>)
    ensures forall x :: x in r <==> x in s && key(x) != k
  {
    Filter(s, x => key(x) != k)
  }

  /** Removing a key that no element carries changes nothing. */
  lemma {:induction false} RemoveByKeyAbsent<T(!new), K>(s: seq<T>, key: T -> K, k: K)
    requires forall i :: 0 <= i < |s| ==> key(s[i]) != k
    ensures RemoveByKey(s, key, k) == s
  {
    if s != [] {
      RemoveByKeyAbsent(s[1..], key, k);
    }
  }

  lemma {:induction false} RemoveByKeyAppend<T(!new), K>(a: seq<T>, b: seq<T>, key: T -> K, k: K)
    ensures RemoveByKey(a + b, key, k) == RemoveByKey(a, key, k) + RemoveByKey(b, key, k)
  {
    FilterAppend(a, b, x => key(x) != k);
  }

  // ---------------------------------------------------------------------------
  // Stable sorting by a total preorder (`Array.prototype.sort` with a
  // comparator that returns 0 on ties: ties keep their input order)

  ghost predicate TotalPreorder<T(!new)>(le: (T, T) -> bool)
  {
    && (forall a, b :: le(a, b) || le(b, a))
    && (forall a, b, c :: le(a, b) && le(b, c) ==> le(a, c))
  }

  ghost predicate SortedBy<T(!new)>(s: seq<T>, le: (T, T) -> bool)
  {
    forall i, j :: 0 <= i < j < |s| ==> le(s[i], s[j])
  }

  /** Places `x` before the first element it does not sort after. */
  function Insert<T(!new)>(x: T, s: seq<T>, le: (T, T) -> bool): (r: seq<T>)
    ensures multiset(r) == multiset(s) + multiset{x}
  {
    if s == [] then [x]
    else if le(x, s[0]) then [x] + s
    else
      assert s == [s[0]] + s[1..];
      [s[0]] + Insert(x, s[1..], le)
  }

  function SortBy<T(!new)>(s: seq<T>, le: (T, T) -> bool): (r: seq<T>)
    ensures multiset(r) == multiset(s)
  {
    if s == [] then []
    else
      assert s == [s[0]] + s[1..];
      Insert(s[0], SortBy(s[1..], le), le)
  }

  lemma {:induction false} InsertSorted<T(!new)>(x: T, s: seq<T>, le: (T, T) -> bool)
    requires TotalPreorder(le)
    requires SortedBy(s, le)
    ensures SortedBy(Insert(x, s, le), le)
    decreases |s|
  {
    if s != [] && !le(x, s[0]) {
      InsertSorted(x, s[1..], le);
      var r := Insert(x, s, le);
      var t := Insert(x, s[1..], le);
      assert r == [s[0]] + t;
      forall i, j | 0 <= i < j < |r| ensures le(r[i], r[j]) {
        if i == 0 {
          assert r[j] in multiset(t);
          assert r[j] == x || r[j] in s[1..];
        }
      }
    }
  }

  lemma {:induction false} SortBySorted<T(!new)>(s: seq<T>, le: (T, T) -> bool)
    requires TotalPreorder(le)
    ensures SortedBy(SortBy(s, le), le)
  {
    if s != [] {
      SortBySorted(s[1..], le);
      InsertSorted(s[0], SortBy(s[1..], le), le);
    }
  }

  lemma SortByMembers<T(!new)>(s: seq<T>, le: (T, T) -> bool)
    ensures |SortBy(s, le)| == |s|
    ensures forall x :: x in SortBy(s, le) <==> x in s
  {
    var r := SortBy(s, le);
    assert |multiset(r)| == |multiset(s)|;
    forall x ensures x in r <==> x in s {
      assert x in r <==> x in multiset(r);
      assert x in s <==> x in multiset(s);
    }
  }

  /** The elements of `s` that tie with `x` under `le`, in their order in `s`. */
  function Ties<T(!new)>(s: seq<T>, le: (T, T) -> bool, x: T): seq<T>
  {
    if s == [] then []
    else (if le(x, s[0]) && le(s[0], x) then [s[0]] else []) + Ties(s[1..], le, x)
  }

  lemma {:induction false} InsertTies<T(!new)>(y: T, s: seq<T>, le: (T, T) -> bool, x: T)
    requires TotalPreorder(le)
    ensures Ties(Insert(y, s, le), le, x)
         == (if le(x, y) && le(y, x) then [y] else []) + Ties(s, le, x)
    decreases |s|
  {
    if s != [] && !le(y, s[0]) {
      InsertTies(y, s[1..], le, x);
      TiesApart(le, x, y, s[0]);
      InsertTiesStep(y, s, le, x);
    } else {
      var r := Insert(y, s, le);
      assert r == [y] + s && r[1..] == s;
    }
  }

  /** The step of `InsertTies` where `y` goes after the head of `s`, knowing
      that `y` and the head do not both tie with `x`. */
  lemma InsertTiesStep<T(!new)>(y: T, s: seq<T>, le: (T, T) -> bool, x: T)
    requires s != [] && !le(y, s[0])
    requires !(le(x, y) && le(y, x)) || !(le(x, s[0]) && le(s[0], x))
    requires Ties(Insert(y, s[1..], le), le, x) == (if le(x, y) && le(y, x) then [y] else []) + Ties(s[1..], le, x)
    ensures Ties(Insert(y, s, le), le, x) == (if le(x, y) && le(y, x) then [y] else []) + Ties(s, le, x)
  {
    var r := Insert(y, s, le);
    var t := Insert(y, s[1..], le);
    var rest := Ties(s[1..], le, x);
    assert r == [s[0]] + t;
    assert r[0] == s[0] && r[1..] == t;
    var a := if le(x, s[0]) && le(s[0], x) then [s[0]] else [];
    var b := if le(x, y) && le(y, x) then [y] else [];
    assert Ties(r, le, x) == a + Ties(t, le, x);
    assert Ties(s, le, x) == a + rest;
    EmptySwap(a, b, rest);
  }

  lemma EmptySwap<T>(a: seq<T>, b: seq<T>, rest: seq<T>)
    requires a == [] || b == []
    ensures a + (b + rest) == b + (a + rest)
  {
    if a == [] {
      assert a + (b + rest) == b + rest;
    } else {
      assert b + (a + rest) == a + rest;
    }
  }

  /** Two elements in the wrong order cannot both tie with the same element. */
  lemma TiesApart<T(!new)>(le: (T, T) -> bool, x: T, y: T, z: T)
    requires TotalPreorder(le)
    requires !le(y, z)
    ensures !(le(x, y) && le(y, x)) || !(le(x, z) && le(z, x))
  {
  }

  /** Stability: the sort keeps every group of tied elements in input order. */
  lemma {:induction false} SortByStable<T(!new)>(s: seq<T>, le: (T, T) -> bool, x: T)
    requires TotalPreorder(le)
    ensures Ties(SortBy(s, le), le, x) == Ties(s, le, x)
  {
    if s != [] {
      SortByStable(s[1..], le, x);
      InsertTies(s[0], SortBy(s[1..], le), le, x);
    }
  }

  /** The head of the ties of `x` is the first element of `s` that ties
      with `x`. */
  lemma {:induction false} TiesFirst<T(!new)>(s: seq<T>, le: (T, T) -> bool, x: T)
    requires Ties(s, le, x) != []
    ensures exists i :: 0 <= i < |s| && s[i] == Ties(s, le, x)[0] && le(x, s[i]) && le(s[i], x)
              && forall j :: 0 <= j < i ==> !(le(x, s[j]) && le(s[j], x))
    decreases |s|
  {
    if !(le(x, s[0]) && le(s[0], x)) {
      TiesFirst(s[1..], le, x);
      var i :| 0 <= i < |s[1..]| && s[1..][i] == Ties(s[1..], le, x)[0] && le(x, s[1..][i]) && le(s[1..][i], x)
              && forall j :: 0 <= j < i ==> !(le(x, s[1..][j]) && le(s[1..][j], x));
      forall j | 0 <= j < i + 1 ensures !(le(x, s[j]) && le(s[j], x)) {
        if j > 0 {
          assert s[j] == s[1..][j - 1];
        }
      }
      assert s[i + 1] == s[1..][i];
    }
  }

  /** The order in which `le` compares by a key function's image under another
      total preorder; used to build the application's sort orders. */
  lemma KeyedPreorder<T(!new), K(!new)>(key: T -> K, kle: (K, K) -> bool)
    requires TotalPreorder(kle)
    ensures TotalPreorder((a: T, b: T) => kle(key(a), key(b)))
  {
  }

  /** `s.map(f)` */
  function MapSeq<A, B>(f: A -> B, s: seq<A>): (r: seq<B>)
    ensures |r| == |s| && forall k :: 0 <= k < |s| ==> r[k] == f(s[k])
  {
    seq(|s|, k requires 0 <= k < |s| => f(s[k]))
  }

  /** Mapping one more element appends its image. */
  lemma MapSeqStep<A, B>(f: A -> B, s: seq<A>, i: nat)
    requires i < |s|
    ensures MapSeq(f, s[..i + 1]) == MapSeq(f, s[..i]) + [f(s[i])]
  {
    var r := MapSeq(f, s[..i + 1]);
    var t := MapSeq(f, s[..i]) + [f(s[i])];
    forall k | 0 <= k < i + 1
      ensures r[k] == t[k]
    {
      assert s[..i + 1][k] == s[k];
      if k < i {
        assert s[..i][k] == s[k];
      }
    }
  }

  /** `s.map((x, k) => f(x, base + k))` */
  function MapIndexed<A, B>(f: (A, nat) -> B, s: seq<A>, base: nat): (r: seq<B>)
    ensures |r| == |s| && forall k :: 0 <= k < |s| ==> r[k] == f(s[k], base + k)
  {
    seq(|s|, k requires 0 <= k < |s| => f(s[k], base + k))
  }

  /** Mapping one more element appends its image. */
  lemma MapIndexedStep<A, B>(f: (A, nat) -> B, s: seq<A>, base: nat, i: nat)
    requires i < |s|
    ensures MapIndexed(f, s[..i + 1], base) == MapIndexed(f, s[..i], base) + [f(s[i], base + i)]
  {
    var r := MapIndexed(f, s[..i + 1], base);
    var t := MapIndexed(f, s[..i], base) + [f(s[i], base + i)];
    forall k | 0 <= k < i + 1
      ensures r[k] == t[k]
    {
      assert s[..i + 1][k] == s[k];
      if k < i {
        assert s[..i][k] == s[k];
      }
    }
  }

  // ---------------------------------------------------------------------------
  // Counting into a dictionary (`m[k] = (m[k] || 0) + 1`)

  /** `m[k] || 0` */
  function Lookup<K(!new)>(m: map<K, nat>, k: K): nat
  {
    if k in m then m[k] else 0
  }

  /** One more `k`. */
  function Bump<K(!new)>(m: map<K, nat>, k: K): (r: map<K, nat>)
    ensures r.Keys == m.Keys + {k}
    ensures Lookup(r, k) == Lookup(m, k) + 1
    ensures forall j :: j != k ==> Lookup(r, j) == Lookup(m, j)
  {
    m[k := Lookup(m, k) + 1]
  }

  /** The sum of the counts. */
  ghost function MapSum<K(!new)>(m: map<K, nat>): nat
    decreases |m.Keys|
  {
    if m.Keys == {} then 0
    else
      var k :| k in m.Keys;
      m[k] + MapSum(m - {k})
  }

  /** Any key can be taken out first. */
  lemma {:induction false} MapSumRemove<K(!new)>(m: map<K, nat>, k: K)
    requires k in m
    ensures MapSum(m) == m[k] + MapSum(m - {k})
    decreases |m.Keys|
  {
    var j :| j in m.Keys && MapSum(m) == m[j] + MapSum(m - {j});
    if j != k {
      MapSumRemove(m - {j}, k);
      MapSumRemove(m - {k}, j);
      assert (m - {j}) - {k} == (m - {k}) - {j};
    }
  }

  lemma MapSumBump<K(!new)>(m: map<K, nat>, k: K)
    ensures MapSum(Bump(m, k)) == MapSum(m) + 1
  {
    var r := Bump(m, k);
    MapSumRemove(r, k);
    if k in m {
      MapSumRemove(m, k);
      assert r - {k} == m - {k};
    } else {
      assert r - {k} == m;
    }
  }
}
