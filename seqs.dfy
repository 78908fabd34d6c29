/** Generic sequence helpers shared by the model: first match, filter, subsequence. */
module Seqs {
  import opened Wrappers

  /** Index of the first element satisfying `p`, or |s| when none does (Array.prototype.findIndex). */
  function FirstIndex<T>(s: seq<T>, p: T -> bool): (k: nat)
    ensures k <= |s|
    ensures forall j :: 0 <= j < k ==> !p(s[j])
    ensures k < |s| ==> p(s[k])
  {
    if s == [] then 0
    else if p(s[0]) then 0
    else 1 + FirstIndex(s[1..], p)
  }

  /** The first element satisfying `p` (Array.prototype.find): none exactly when no element does. */
  function First<T>(s: seq<T>, p: T -> bool): (r: Option<T>)
    ensures r.None? <==> forall j :: 0 <= j < |s| ==> !p(s[j])
    ensures r.Some? ==> p(r.value) && r.value in s
    ensures r.Some? ==> r.value == s[FirstIndex(s, p)]
  {
    var k := FirstIndex(s, p);
    if k < |s| then Some(s[k]) else None
  }

  /** `a` can be obtained from `b` by deleting elements (order preserved). */
  predicate IsSubsequence<T(==)>(a: seq<T>, b: seq<T>)
    decreases |b|
  {
    if a == [] then true
    else if b == [] then false
    else if a[|a| - 1] == b[|b| - 1] then IsSubsequence(a[..|a| - 1], b[..|b| - 1])
    else IsSubsequence(a, b[..|b| - 1])
  }

  /** The elements of `s` satisfying `p`, in order (Array.prototype.filter). */
  function Filter<T(!new)>(s: seq<T>, p: T -> bool): (r: seq<T>)
    ensures |r| <= |s|
    ensures forall x :: x in r <==> x in s && p(x)
    ensures forall i :: 0 <= i < |r| ==> p(r[i])
  {
    if s == [] then []
    else
      var init := Filter(s[..|s| - 1], p);
      assert forall x :: x in s <==> x in s[..|s| - 1] || x == s[|s| - 1];
      if p(s[|s| - 1]) then init + [s[|s| - 1]] else init
  }

  lemma {:induction false} FilterIsSubsequence<T(!new)>(s: seq<T>, p: T -> bool)
    ensures IsSubsequence(Filter(s, p), s)
    decreases |s|
  {
    if s != [] {
      var init := s[..|s| - 1];
      FilterIsSubsequence(init, p);
      if p(s[|s| - 1]) {
        var r := Filter(s, p);
        assert r[..|r| - 1] == Filter(init, p);
      } else {
        SubsequenceDropLast(Filter(s, p), s);
      }
    }
  }

  /** Filtering keeps every occurrence of a passing element and none of a failing one. */
  lemma {:induction false} FilterCount<T(!new)>(s: seq<T>, p: T -> bool)
    ensures forall x :: multiset(Filter(s, p))[x] == if p(x) then multiset(s)[x] else 0
    decreases |s|
  {
    if s != [] {
      var init := s[..|s| - 1];
      FilterCount(init, p);
      assert s == init + [s[|s| - 1]];
    }
  }

  /** A filter that every element passes keeps the whole sequence. */
  lemma {:induction false} FilterAll<T(!new)>(s: seq<T>, p: T -> bool)
    requires forall i :: 0 <= i < |s| ==> p(s[i])
    ensures Filter(s, p) == s
    decreases |s|
  {
    if s != [] {
      FilterAll(s[..|s| - 1], p);
      assert s[..|s| - 1] + [s[|s| - 1]] == s;
    }
  }

  /** Appending the same element to both keeps a subsequence. */
  lemma SubsequenceSnoc<T>(a: seq<T>, b: seq<T>, x: T)
    requires IsSubsequence(a, b)
    ensures IsSubsequence(a + [x], b + [x])
  {
    assert (a + [x])[..|a|] == a;
    assert (b + [x])[..|b|] == b;
  }

  /** Dropping the last element of `b` when it is not needed keeps a subsequence. */
  lemma {:induction false} SubsequenceDropLast<T>(a: seq<T>, b: seq<T>)
    requires b != [] && IsSubsequence(a, b[..|b| - 1])
    ensures IsSubsequence(a, b)
    decreases |b|, 0
  {
    if a != [] && a[|a| - 1] == b[|b| - 1] {
      SubsequenceShorten(a, b[..|b| - 1]);
    }
  }

  /** Removing the last element of a subsequence leaves a subsequence. */
  lemma {:induction false} SubsequenceShorten<T>(a: seq<T>, c: seq<T>)
    requires a != [] && IsSubsequence(a, c)
    ensures IsSubsequence(a[..|a| - 1], c)
    decreases |c|, 1
  {
    var a' := a[..|a| - 1];
    if a' != [] {
      var c' := c[..|c| - 1];
      if a[|a| - 1] == c[|c| - 1] {
        SubsequenceDropLast(a', c);
      } else {
        SubsequenceShorten(a, c');
        SubsequenceDropLast(a', c);
      }
    }
  }

  /** The keys of the elements of `s`, in order. */
  function KeysOf<T, K>(s: seq<T>, key: T -> K): (r: seq<K>)
    ensures |r| == |s|
    ensures forall i :: 0 <= i < |s| ==> r[i] == key(s[i])
  {
    if s == [] then [] else KeysOf(s[..|s| - 1], key) + [key(s[|s| - 1])]
  }

  /**
   * De-duplication by key, first occurrence wins: the last element is kept exactly when no
   * earlier element has the same key.
   */
  function FirstByKey<T, K(==)>(s: seq<T>, key: T -> K): seq<T> {
    if s == [] then []
    else
      var init := s[..|s| - 1];
      if key(s[|s| - 1]) in KeysOf(init, key) then FirstByKey(init, key)
      else FirstByKey(init, key) + [s[|s| - 1]]
  }

  lemma {:induction false} FirstByKeySubsequence<T, K>(s: seq<T>, key: T -> K)
    ensures IsSubsequence(FirstByKey(s, key), s)
  {
    if s != [] {
      var init := s[..|s| - 1];
      FirstByKeySubsequence(init, key);
      var r := FirstByKey(s, key);
      if key(s[|s| - 1]) in KeysOf(init, key) {
        SubsequenceDropLast(r, s);
      } else {
        assert r[..|r| - 1] == FirstByKey(init, key);
      }
    }
  }

  /** When no two elements share a key, de-duplication keeps every element. */
  lemma {:induction false} FirstByKeyNoRepeat<T, K>(s: seq<T>, key: T -> K)
    requires forall i, j :: 0 <= i < j < |s| ==> key(s[i]) != key(s[j])
    ensures FirstByKey(s, key) == s
  {
    if s != [] {
      var init := s[..|s| - 1];
      FirstByKeyNoRepeat(init, key);
      var ks := KeysOf(init, key);
      assert forall i :: 0 <= i < |ks| ==> ks[i] == key(s[i]) != key(s[|s| - 1]);
      assert init + [s[|s| - 1]] == s;
    }
  }

  /** No two survivors share a key, and every key of the input is still represented. */
  lemma {:induction false} FirstByKeyDistinct<T, K>(s: seq<T>, key: T -> K)
    ensures var r := KeysOf(FirstByKey(s, key), key);
      && (forall i, j :: 0 <= i < j < |r| ==> r[i] != r[j])
      && (forall k :: k in r <==> k in KeysOf(s, key))
  {
    if s != [] {
      var init := s[..|s| - 1];
      FirstByKeyDistinct(init, key);
      var r0 := FirstByKey(init, key);
      var k := key(s[|s| - 1]);
      assert KeysOf(s, key) == KeysOf(init, key) + [k];
      if k !in KeysOf(init, key) {
        var k0 := KeysOf(r0, key);
        assert KeysOf(r0 + [s[|s| - 1]], key) == k0 + [k];
        NotInSame(k0, KeysOf(init, key), k);
        assert forall i :: 0 <= i < |k0| ==> k0[i] != k;
      }
    }
  }

  /** An element whose key does not occur earlier in the input survives de-duplication. */
  lemma {:induction false} FirstOccurrenceKept<T, K>(s: seq<T>, key: T -> K, n: nat)
    requires n < |s| && key(s[n]) !in KeysOf(s[..n], key)
    ensures s[n] in FirstByKey(s, key)
  {
    var init := s[..|s| - 1];
    if n < |s| - 1 {
      assert init[..n] == s[..n];
      FirstOccurrenceKept(init, key, n);
    } else {
      assert init == s[..n];
    }
  }

  /** Every element of a subsequence occurs in the sequence. */
  lemma {:induction false} SubsequenceIn<T>(a: seq<T>, b: seq<T>)
    requires IsSubsequence(a, b)
    ensures forall x :: x in a ==> x in b
    decreases |b|
  {
    if a != [] {
      var b' := b[..|b| - 1];
      if a[|a| - 1] == b[|b| - 1] {
        SubsequenceIn(a[..|a| - 1], b');
        assert forall x :: x in a ==> x in a[..|a| - 1] || x == a[|a| - 1];
      } else {
        SubsequenceIn(a, b');
      }
    }
  }

  lemma {:induction false} SubsequenceTransitive<T>(a: seq<T>, b: seq<T>, c: seq<T>)
    requires IsSubsequence(a, b) && IsSubsequence(b, c)
    ensures IsSubsequence(a, c)
    decreases |c|
  {
    if a != [] && b != [] {
      var b' := b[..|b| - 1];
      var c' := c[..|c| - 1];
      if b[|b| - 1] == c[|c| - 1] {
        if a[|a| - 1] == b[|b| - 1] {
          SubsequenceTransitive(a[..|a| - 1], b', c');
        } else {
          SubsequenceTransitive(a, b', c');
          SubsequenceDropLast(a, c);
        }
      } else {
        SubsequenceTransitive(a, b, c');
        SubsequenceDropLast(a, c);
      }
    }
  }

  lemma NotInSame<K>(a: seq<K>, b: seq<K>, k: K)
    requires forall x :: x in a <==> x in b
    requires k !in b
    ensures k !in a
  {
  }

  /** The key of every element occurs among the keys. */
  lemma KeyOfMember<T, K>(s: seq<T>, key: T -> K)
    ensures forall x :: x in s ==> key(x) in KeysOf(s, key)
  {
    var ks := KeysOf(s, key);
    forall x | x in s ensures key(x) in ks {
      var i :| 0 <= i < |s| && s[i] == x;
      assert ks[i] == key(x);
    }
  }

  /** `f` applied to every element, the results concatenated in order. */
  function FlatMap<T, U>(s: seq<T>, f: T -> seq<U>): seq<U> {
    if s == [] then [] else FlatMap(s[..|s| - 1], f) + f(s[|s| - 1])
  }

  /** One more element contributes its results at the end. */
  lemma FlatMapSnoc<T, U>(s: seq<T>, f: T -> seq<U>, k: nat)
    requires k < |s|
    ensures FlatMap(s[..k + 1], f) == FlatMap(s[..k], f) + f(s[k])
  {
    assert s[..k + 1][..k] == s[..k];
  }

  /** Processing two batches one after the other gives the results of the first batch first. */
  lemma {:induction false} FlatMapAppend<T, U>(a: seq<T>, b: seq<T>, f: T -> seq<U>)
    ensures FlatMap(a + b, f) == FlatMap(a, f) + FlatMap(b, f)
    decreases |b|
  {
    if b != [] {
      var b' := b[..|b| - 1];
      assert (a + b)[..|a + b| - 1] == a + b';
      FlatMapAppend(a, b', f);
    } else {
      assert a + b == a;
    }
  }
}
