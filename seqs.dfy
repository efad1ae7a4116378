/**
 * Generic list processing that several scripts share: keeping the first
 * element per key (a `seen` dict, or a check-then-append loop), filtering
 * with a list comprehension, subsequences and flattening.
 * The definitions peel the LAST element, so that a loop which appends
 * in input order maintains them one element at a time.
 */
module Seqs {

  /** Some element of `xs` has key `k`. */
  predicate HasKey<T, K(==,!new)>(xs: seq<T>, key: T -> K, k: K) {
    exists i :: 0 <= i < |xs| && key(xs[i]) == k
  }

  /** The keys of `xs` are pairwise distinct. */
  ghost predicate DistinctKeys<T, K(!new)>(xs: seq<T>, key: T -> K) {
    forall i, j :: 0 <= i < j < |xs| ==> key(xs[i]) != key(xs[j])
  }

  /** The set of keys of `xs`. */
  ghost function KeySet<T, K(!new)>(xs: seq<T>, key: T -> K): set<K> {
    set i | 0 <= i < |xs| :: key(xs[i])
  }

  lemma HasKeyAppend<T, K(!new)>(xs: seq<T>, x: T, key: T -> K, k: K)
    ensures HasKey(xs + [x], key, k) <==> HasKey(xs, key, k) || key(x) == k
  {
    if HasKey(xs + [x], key, k) && key(x) != k {
      var i :| 0 <= i < |xs + [x]| && key((xs + [x])[i]) == k;
      assert i < |xs| && key(xs[i]) == k;
    }
    if HasKey(xs, key, k) {
      var i :| 0 <= i < |xs| && key(xs[i]) == k;
      assert key((xs + [x])[i]) == k;
    }
    if key(x) == k {
      assert key((xs + [x])[|xs|]) == k;
    }
  }

  /** The first element of `xs` for each key, in order of first occurrence. */
  function DedupBy<T, K(==,!new)>(xs: seq<T>, key: T -> K): (r: seq<T>)
    ensures |r| <= |xs|
    ensures forall k :: HasKey(r, key, k) <==> HasKey(xs, key, k)
    ensures DistinctKeys(r, key)
  {
    if xs == [] then []
    else
      var init := xs[..|xs| - 1];
      var x := xs[|xs| - 1];
      var p := DedupBy(init, key);
      assert xs == init + [x];
      assert forall k :: HasKey(xs, key, k) <==> HasKey(init, key, k) || key(x) == k by {
        forall k ensures HasKey(xs, key, k) <==> HasKey(init, key, k) || key(x) == k {
          HasKeyAppend(init, x, key, k);
        }
      }
      if HasKey(p, key, key(x)) then p
      else
        assert forall k :: HasKey(p + [x], key, k) <==> HasKey(p, key, k) || key(x) == k by {
          forall k ensures HasKey(p + [x], key, k) <==> HasKey(p, key, k) || key(x) == k {
            HasKeyAppend(p, x, key, k);
          }
        }
        p + [x]
  }

  /** One more element is kept exactly when no kept element has its key yet. */
  lemma DedupByStep<T, K(!new)>(xs: seq<T>, x: T, key: T -> K)
    ensures DedupBy(xs + [x], key) == if HasKey(DedupBy(xs, key), key, key(x)) then DedupBy(xs, key) else DedupBy(xs, key) + [x]
  {
    assert (xs + [x])[..|xs + [x]| - 1] == xs;
  }

  /** `DedupBy` over one more element of a prefix of `xs`. */
  lemma DedupByPrefixStep<T, K(!new)>(xs: seq<T>, i: nat, key: T -> K)
    requires i < |xs|
    ensures DedupBy(xs[..i + 1], key)
            == if HasKey(DedupBy(xs[..i], key), key, key(xs[i])) then DedupBy(xs[..i], key) else DedupBy(xs[..i], key) + [xs[i]]
  {
    assert xs[..i + 1] == xs[..i] + [xs[i]];
    DedupByStep(xs[..i], xs[i], key);
  }

  /** The index of the first element of `xs` with key `k`. */
  function FirstIndex<T, K(==,!new)>(xs: seq<T>, key: T -> K, k: K): (i: nat)
    requires HasKey(xs, key, k)
    ensures i < |xs| && key(xs[i]) == k
    ensures forall j :: 0 <= j < i ==> key(xs[j]) != k
  {
    if key(xs[0]) == k then 0
    else
      assert HasKey(xs[1..], key, k) by {
        var i :| 0 <= i < |xs| && key(xs[i]) == k;
        assert key(xs[1..][i - 1]) == k;
      }
      1 + FirstIndex(xs[1..], key, k)
  }

  lemma FirstIndexAppend<T, K(!new)>(xs: seq<T>, x: T, key: T -> K, k: K)
    requires HasKey(xs, key, k)
    ensures HasKey(xs + [x], key, k)
    ensures FirstIndex(xs + [x], key, k) == FirstIndex(xs, key, k)
  {
    HasKeyAppend(xs, x, key, k);
    var i := FirstIndex(xs, key, k);
    var j := FirstIndex(xs + [x], key, k);
    assert key((xs + [x])[i]) == k;
    assert j < |xs| ==> key(xs[j]) == k;
  }

  /** Each element kept by `DedupBy` is the first element of `xs` with its key. */
  lemma {:induction false} DedupByFirst<T, K(!new)>(xs: seq<T>, key: T -> K, n: nat)
    requires n < |DedupBy(xs, key)|
    ensures HasKey(xs, key, key(DedupBy(xs, key)[n]))
    ensures DedupBy(xs, key)[n] == xs[FirstIndex(xs, key, key(DedupBy(xs, key)[n]))]
  {
    var r := DedupBy(xs, key);
    assert HasKey(r, key, key(r[n]));
    var init := xs[..|xs| - 1];
    var x := xs[|xs| - 1];
    assert xs == init + [x];
    var p := DedupBy(init, key);
    if n < |p| {
      assert r[n] == p[n];
      DedupByFirst(init, key, n);
      FirstIndexAppend(init, x, key, key(p[n]));
    } else {
      assert r == p + [x] && r[n] == x;
      assert !HasKey(init, key, key(x));
      assert FirstIndex(xs, key, key(x)) == |init|;
    }
  }

  /** `DedupBy` keeps the order of first occurrence. */
  lemma {:induction false} DedupByOrder<T, K(!new)>(xs: seq<T>, key: T -> K, a: nat, b: nat)
    requires a < b < |DedupBy(xs, key)|
    ensures HasKey(xs, key, key(DedupBy(xs, key)[a])) && HasKey(xs, key, key(DedupBy(xs, key)[b]))
    ensures FirstIndex(xs, key, key(DedupBy(xs, key)[a])) < FirstIndex(xs, key, key(DedupBy(xs, key)[b]))
  {
    var r := DedupBy(xs, key);
    var init := xs[..|xs| - 1];
    var x := xs[|xs| - 1];
    assert xs == init + [x];
    var p := DedupBy(init, key);
    DedupByFirst(xs, key, a);
    DedupByFirst(xs, key, b);
    DedupByFirst(init, key, a);
    assert r[a] == p[a];
    FirstIndexAppend(init, x, key, key(p[a]));
    if b < |p| {
      assert r[b] == p[b];
      DedupByOrder(init, key, a, b);
      FirstIndexAppend(init, x, key, key(p[b]));
    } else {
      assert r[b] == x && !HasKey(init, key, key(x));
      assert FirstIndex(xs, key, key(x)) == |init|;
    }
  }

  /** `DedupBy` keeps exactly one element per distinct key. */
  lemma {:induction false} DedupByCount<T, K(!new)>(xs: seq<T>, key: T -> K)
    ensures |DedupBy(xs, key)| == |KeySet(xs, key)|
  {
    if xs != [] {
      var init := xs[..|xs| - 1];
      var x := xs[|xs| - 1];
      assert xs == init + [x];
      DedupByCount(init, key);
      assert KeySet(xs, key) == KeySet(init, key) + {key(x)} by {
        forall k | k in KeySet(xs, key) ensures k in KeySet(init, key) + {key(x)} {
          var i :| 0 <= i < |xs| && key(xs[i]) == k;
          if i < |init| {
            assert key(init[i]) == k;
          }
        }
        forall k | k in KeySet(init, key) ensures k in KeySet(xs, key) {
          var i :| 0 <= i < |init| && key(init[i]) == k;
          assert key(xs[i]) == k;
        }
        assert key(xs[|init|]) == key(x);
      }
      assert key(x) in KeySet(init, key) <==> HasKey(init, key, key(x)) by {
        if HasKey(init, key, key(x)) {
          var i :| 0 <= i < |init| && key(init[i]) == key(x);
          assert key(x) in KeySet(init, key);
        }
      }
    }
  }

  /** The elements of `xs` that satisfy `p`, in order (a list comprehension with an `if`). */
  function Filter<T(!new)>(xs: seq<T>, p: T -> bool): (r: seq<T>)
    ensures |r| <= |xs|
    ensures forall i :: 0 <= i < |r| ==> p(r[i])
    ensures forall x :: x in r <==> x in xs && p(x)
  {
    if xs == [] then []
    else
      var init := xs[..|xs| - 1];
      var x := xs[|xs| - 1];
      assert xs == init + [x];
      Filter(init, p) + (if p(x) then [x] else [])
  }

  /** A filter keeps every copy of a passing element and no copy of a failing one. */
  lemma {:induction false} FilterCount<T(!new)>(xs: seq<T>, p: T -> bool, x: T)
    ensures multiset(Filter(xs, p))[x] == if p(x) then multiset(xs)[x] else 0
  {
    if xs != [] {
      var init := xs[..|xs| - 1];
      assert xs == init + [xs[|xs| - 1]];
      FilterCount(init, p, x);
    }
  }

  lemma {:induction false} FilterConcat<T(!new)>(a: seq<T>, b: seq<T>, p: T -> bool)
    ensures Filter(a + b, p) == Filter(a, p) + Filter(b, p)
  {
    if b != [] {
      var binit := b[..|b| - 1];
      assert (a + b)[..|a + b| - 1] == a + binit;
      assert b == binit + [b[|b| - 1]];
      FilterConcat(a, binit, p);
    } else {
      assert a + b == a;
    }
  }

  /** A key occurs in the filtered list exactly when some passing element has it. */
  lemma FilterHasKey<T(!new), K(!new)>(xs: seq<T>, p: T -> bool, key: T -> K, k: K)
    ensures HasKey(Filter(xs, p), key, k) <==> exists i :: 0 <= i < |xs| && p(xs[i]) && key(xs[i]) == k
  {
    var ys := Filter(xs, p);
    if HasKey(ys, key, k) {
      var j :| 0 <= j < |ys| && key(ys[j]) == k;
      var y := ys[j];
      assert y in ys;
      var i :| 0 <= i < |xs| && xs[i] == y;
      assert p(xs[i]) && key(xs[i]) == k;
    }
    if exists i :: 0 <= i < |xs| && p(xs[i]) && key(xs[i]) == k {
      var i :| 0 <= i < |xs| && p(xs[i]) && key(xs[i]) == k;
      var x := xs[i];
      assert x in xs;
      assert x in ys;
      var j :| 0 <= j < |ys| && ys[j] == x;
      assert key(ys[j]) == k;
    }
  }

  /** An element that fails the filter can be dropped from anywhere in the input. */
  lemma FilterSkip<T(!new)>(a: seq<T>, x: T, b: seq<T>, p: T -> bool)
    requires !p(x)
    ensures Filter(a + [x] + b, p) == Filter(a + b, p)
  {
    assert [x][..0] == [];
    assert Filter([x], p) == [];
    calc {
      Filter(a + [x] + b, p);
      { FilterConcat(a + [x], b, p); }
      Filter(a + [x], p) + Filter(b, p);
      { FilterConcat(a, [x], p); assert Filter(a, p) + [] == Filter(a, p); }
      Filter(a, p) + Filter(b, p);
      { FilterConcat(a, b, p); }
      Filter(a + b, p);
    }
  }

  predicate IsSubseq<T(==)>(xs: seq<T>, ys: seq<T>)
    decreases |ys|
  {
    xs == [] ||
    (ys != [] &&
     ((xs[|xs| - 1] == ys[|ys| - 1] && IsSubseq(xs[..|xs| - 1], ys[..|ys| - 1]))
      || IsSubseq(xs, ys[..|ys| - 1])))
  }

  lemma {:induction false} FilterIsSubseq<T(!new)>(xs: seq<T>, p: T -> bool)
    ensures IsSubseq(Filter(xs, p), xs)
  {
    if xs != [] {
      var init := xs[..|xs| - 1];
      FilterIsSubseq(init, p);
      var r := Filter(xs, p);
      if p(xs[|xs| - 1]) {
        assert r[..|r| - 1] == Filter(init, p);
        assert r[|r| - 1] == xs[|xs| - 1];
      } else {
        assert r == Filter(init, p);
      }
    }
  }

  lemma {:induction false} SubseqPrefix<T>(xs: seq<T>, ys: seq<T>, n: nat)
    requires IsSubseq(xs, ys) && n <= |xs|
    ensures IsSubseq(xs[..n], ys)
    decreases |ys|
  {
    if n > 0 {
      var yinit := ys[..|ys| - 1];
      if IsSubseq(xs, yinit) {
        SubseqPrefix(xs, yinit, n);
      } else if n == |xs| {
        assert xs[..n] == xs;
      } else {
        SubseqPrefix(xs[..|xs| - 1], yinit, n);
        assert xs[..|xs| - 1][..n] == xs[..n];
        assert IsSubseq(xs[..n], yinit);
      }
    }
  }

  lemma TakeStep<T>(xs: seq<T>, k: nat)
    requires k < |xs|
    ensures xs[..k + 1] == xs[..k] + [xs[k]]
  {
  }

  lemma TakeAll<T>(xs: seq<T>)
    ensures xs[..|xs|] == xs
  {
  }

  lemma AppendAssoc<T>(a: seq<T>, b: seq<T>, c: seq<T>)
    ensures a + b + c == a + (b + c)
  {
  }

  /** `f` applied to each element, results concatenated in order. */
  function FlatMap<T, U>(xs: seq<T>, f: T -> seq<U>): seq<U> {
    if xs == [] then [] else f(xs[0]) + FlatMap(xs[1..], f)
  }

  /** The elements on which `f` yields nothing, in order. */
  function Failures<T, U>(xs: seq<T>, f: T -> seq<U>): seq<T> {
    if xs == [] then [] else (if f(xs[0]) == [] then [xs[0]] else []) + Failures(xs[1..], f)
  }

  /**
   * One step of a loop that extends `found` with `f(x)` when that is
   * non-empty and appends `x` to `failed` otherwise.
   */
  lemma FlatMapStep<T, U>(xs: seq<T>, f: T -> seq<U>, found: seq<U>, failed: seq<T>)
    requires xs != []
    ensures (if f(xs[0]) != [] then found + f(xs[0]) else found) + FlatMap(xs[1..], f) == found + FlatMap(xs, f)
    ensures (if f(xs[0]) == [] then failed + [xs[0]] else failed) + Failures(xs[1..], f) == failed + Failures(xs, f)
  {
    AppendAssoc(found, f(xs[0]), FlatMap(xs[1..], f));
    AppendAssoc(failed, [xs[0]], Failures(xs[1..], f));
  }

  lemma {:induction false} FlatMapHas<T, U>(xs: seq<T>, f: T -> seq<U>, x: T, y: U)
    requires x in xs && y in f(x)
    ensures y in FlatMap(xs, f)
  {
    if x != xs[0] {
      assert x in xs[1..];
      FlatMapHas(xs[1..], f, x, y);
    }
  }

  lemma {:induction false} FlatMapFrom<T, U>(xs: seq<T>, f: T -> seq<U>, y: U)
    requires y in FlatMap(xs, f)
    ensures exists x :: x in xs && y in f(x)
  {
    if y !in f(xs[0]) {
      FlatMapFrom(xs[1..], f, y);
      var x :| x in xs[1..] && y in f(x);
      assert x in xs;
    }
  }

  lemma {:induction false} FailuresHas<T, U>(xs: seq<T>, f: T -> seq<U>, x: T)
    requires x in xs
    ensures x in Failures(xs, f) <==> f(x) == []
  {
    if x != xs[0] {
      assert x in xs[1..];
      FailuresHas(xs[1..], f, x);
    } else if x in xs[1..] {
      FailuresHas(xs[1..], f, x);
    } else {
      FailuresOf(xs[1..], f, x);
    }
  }

  lemma {:induction false} FailuresOf<T, U>(xs: seq<T>, f: T -> seq<U>, x: T)
    ensures x in Failures(xs, f) ==> x in xs
  {
    if xs != [] {
      FailuresOf(xs[1..], f, x);
    }
  }

  /** The index of the last element of `xs` with key `k`. */
  function LastIndex<T, K(==,!new)>(xs: seq<T>, key: T -> K, k: K): (i: nat)
    requires HasKey(xs, key, k)
    ensures i < |xs| && key(xs[i]) == k
    ensures forall j :: i < j < |xs| ==> key(xs[j]) != k
  {
    var init := xs[..|xs| - 1];
    if key(xs[|xs| - 1]) == k then |xs| - 1
    else
      assert HasKey(init, key, k) by {
        var i :| 0 <= i < |xs| && key(xs[i]) == k;
        assert key(init[i]) == k;
      }
      LastIndex(init, key, k)
  }

  /**
   * A dict comprehension `{key(x): val(x) for x in xs}`: one entry per key,
   * holding the value of the last element with that key.
   */
  function LastBy<T, K(==,!new), V>(xs: seq<T>, key: T -> K, val: T -> V): (m: map<K, V>)
    ensures forall k :: k in m <==> HasKey(xs, key, k)
  {
    if xs == [] then map[]
    else
      var init := xs[..|xs| - 1];
      var x := xs[|xs| - 1];
      assert xs == init + [x];
      forall k ensures HasKey(xs, key, k) <==> HasKey(init, key, k) || key(x) == k {
        HasKeyAppend(init, x, key, k);
      }
      LastBy(init, key, val)[key(x) := val(x)]
  }

  /** The entry for a key holds the value of the last element with that key. */
  lemma {:induction false} LastByValue<T, K(!new), V>(xs: seq<T>, key: T -> K, val: T -> V, k: K)
    requires k in LastBy(xs, key, val)
    ensures LastBy(xs, key, val)[k] == val(xs[LastIndex(xs, key, k)])
  {
    var init := xs[..|xs| - 1];
    var x := xs[|xs| - 1];
    if key(x) != k {
      assert xs == init + [x];
      HasKeyAppend(init, x, key, k);
      LastByValue(init, key, val, k);
      var i := LastIndex(xs, key, k);
      var j := LastIndex(init, key, k);
      assert key(xs[j]) == k;
      assert i < |init| && key(init[i]) == k;
    }
  }

  /** An element whose key does not occur later supplies the value for that key. */
  lemma LastByLast<T, K(!new), V>(xs: seq<T>, key: T -> K, val: T -> V, i: nat)
    requires i < |xs|
    requires forall j :: i < j < |xs| ==> key(xs[j]) != key(xs[i])
    ensures key(xs[i]) in LastBy(xs, key, val)
    ensures LastBy(xs, key, val)[key(xs[i])] == val(xs[i])
  {
    assert HasKey(xs, key, key(xs[i]));
    LastByValue(xs, key, val, key(xs[i]));
    var l := LastIndex(xs, key, key(xs[i]));
    assert l == i;
  }

  /** Appending an element with another key leaves the other entries of `LastBy` alone. */
  lemma LastByAppend<T, K(!new), V>(xs: seq<T>, x: T, key: T -> K, val: T -> V, k: K)
    requires k != key(x)
    ensures k in LastBy(xs + [x], key, val) <==> k in LastBy(xs, key, val)
    ensures k in LastBy(xs, key, val) ==> LastBy(xs + [x], key, val)[k] == LastBy(xs, key, val)[k]
  {
    assert (xs + [x])[..|xs|] == xs;
  }

  /**
   * The comprehension `{key(x): val(x) for x in xs if p(x)}`: an element that
   * passes the filter, with no later passing element of the same key, supplies
   * the value for its key.
   */
  lemma {:induction false} LastByFilter<T(!new), K(!new), V>(xs: seq<T>, p: T -> bool, key: T -> K, val: T -> V, i: nat)
    requires i < |xs| && p(xs[i])
    requires forall j :: i < j < |xs| && p(xs[j]) ==> key(xs[j]) != key(xs[i])
    ensures key(xs[i]) in LastBy(Filter(xs, p), key, val)
    ensures LastBy(Filter(xs, p), key, val)[key(xs[i])] == val(xs[i])
  {
    var init := xs[..|xs| - 1];
    var x := xs[|xs| - 1];
    assert xs == init + [x];
    var ys := Filter(init, p);
    if i == |xs| - 1 {
      assert Filter(xs, p) == ys + [x];
      LastByLast(ys + [x], key, val, |ys|);
    } else {
      assert init[i] == xs[i];
      LastByFilter(init, p, key, val, i);
      if p(x) {
        assert Filter(xs, p) == ys + [x];
        LastByAppend(ys, x, key, val, key(xs[i]));
      } else {
        assert Filter(xs, p) == ys;
      }
    }
  }

  /** Some element satisfies `p`. */
  ghost predicate Any<T>(xs: seq<T>, p: T -> bool) {
    exists i :: 0 <= i < |xs| && p(xs[i])
  }

  /** Extending a prefix by one element adds that element's case. */
  lemma AnyStep<T>(xs: seq<T>, n: nat, p: T -> bool)
    requires n < |xs|
    ensures Any(xs[..n + 1], p) <==> Any(xs[..n], p) || p(xs[n])
  {
    var pre, pre1 := xs[..n], xs[..n + 1];
    if Any(pre1, p) {
      var i :| 0 <= i < |pre1| && p(pre1[i]);
      if i < n {
        assert pre1[i] == pre[i];
      }
    }
    if Any(pre, p) {
      var i :| 0 <= i < |pre| && p(pre[i]);
      assert pre1[i] == pre[i];
    }
    assert pre1[n] == xs[n];
  }
}
