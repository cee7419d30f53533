/**
 * Order-preserving list operations shared by the pipeline: filtering rows,
 * keeping the first element per key (pandas drop_duplicates(keep='first'),
 * dict.fromkeys, and the `seen`/`unique_urls` loops), and the subsequence
 * relation that says an operation only deletes.
 */
module Seqs {

  function Identity<T>(x: T): T { x }

  // ------------------------------------------------------------------
  // Subsequences
  // ------------------------------------------------------------------

  /** a is b with some elements deleted, the rest kept in order. */
  predicate IsSubseq<T(==)>(a: seq<T>, b: seq<T>)
    decreases |b|
  {
    a == [] || (b != [] &&
      ((a[|a| - 1] == b[|b| - 1] && IsSubseq(a[..|a| - 1], b[..|b| - 1])) || IsSubseq(a, b[..|b| - 1])))
  }

  lemma {:induction false} SubseqRefl<T>(s: seq<T>)
    ensures IsSubseq(s, s)
  {
    if s != [] {
      SubseqRefl(s[..|s| - 1]);
    }
  }

  lemma {:induction false} SubseqTrans<T>(a: seq<T>, b: seq<T>, c: seq<T>)
    requires IsSubseq(a, b) && IsSubseq(b, c)
    ensures IsSubseq(a, c)
    decreases |c|
  {
    if a != [] {
      assert b != [] && c != [];
      var a', b', c' := a[..|a| - 1], b[..|b| - 1], c[..|c| - 1];
      if b[|b| - 1] == c[|c| - 1] && IsSubseq(b', c') {
        if a[|a| - 1] == b[|b| - 1] && IsSubseq(a', b') {
          SubseqTrans(a', b', c');
        } else {
          SubseqTrans(a, b', c');
        }
      } else {
        SubseqTrans(a, b, c');
      }
    }
  }

  /** Deleting never invents elements. */
  lemma {:induction false} SubseqMembers<T>(a: seq<T>, b: seq<T>)
    requires IsSubseq(a, b)
    ensures forall x :: x in a ==> x in b
    decreases |b|
  {
    if a != [] {
      var a', b' := a[..|a| - 1], b[..|b| - 1];
      assert a == a' + [a[|a| - 1]] && b == b' + [b[|b| - 1]];
      if a[|a| - 1] == b[|b| - 1] && IsSubseq(a', b') {
        SubseqMembers(a', b');
      } else {
        SubseqMembers(a, b');
      }
    }
  }

  // ------------------------------------------------------------------
  // Filtering
  // ------------------------------------------------------------------

  /** The elements of s that satisfy p, in their original order. */
  function Filter<T>(s: seq<T>, p: T -> bool): (r: seq<T>)
    ensures |r| <= |s|
    ensures forall i :: 0 <= i < |r| ==> p(r[i])
  {
    if s == [] then [] else Filter(s[..|s| - 1], p) + (if p(s[|s| - 1]) then [s[|s| - 1]] else [])
  }

  /** Filtering one more element keeps it exactly when it passes. */
  lemma FilterSnoc<T>(s: seq<T>, p: T -> bool, x: T)
    ensures Filter(s + [x], p) == Filter(s, p) + (if p(x) then [x] else [])
  {
    assert (s + [x])[..|s|] == s;
  }

  lemma {:induction false} FilterMembers<T>(s: seq<T>, p: T -> bool, x: T)
    ensures x in Filter(s, p) <==> x in s && p(x)
  {
    if s != [] {
      assert s == s[..|s| - 1] + [s[|s| - 1]];
      FilterMembers(s[..|s| - 1], p, x);
    }
  }

  lemma {:induction false} FilterSubseq<T>(s: seq<T>, p: T -> bool)
    ensures IsSubseq(Filter(s, p), s)
  {
    if s != [] {
      var s' := s[..|s| - 1];
      FilterSubseq(s', p);
      var r := Filter(s, p);
      if p(s[|s| - 1]) {
        assert r[..|r| - 1] == Filter(s', p);
      } else if r != [] {
        assert r == Filter(s', p);
      }
    }
  }

  /** A filter keeps everything when everything passes. */
  lemma {:induction false} FilterKeepsAll<T>(s: seq<T>, p: T -> bool)
    requires forall i :: 0 <= i < |s| ==> p(s[i])
    ensures Filter(s, p) == s
  {
    if s != [] {
      FilterKeepsAll(s[..|s| - 1], p);
      assert s == s[..|s| - 1] + [s[|s| - 1]];
    }
  }

  /** Filtering twice is filtering once by both tests. */
  lemma {:induction false} FilterTwice<T>(s: seq<T>, p: T -> bool, q: T -> bool, r: T -> bool)
    requires forall i :: 0 <= i < |s| ==> r(s[i]) == (p(s[i]) && q(s[i]))
    ensures Filter(Filter(s, p), q) == Filter(s, r)
  {
    if s != [] {
      var s', x := s[..|s| - 1], s[|s| - 1];
      assert forall i :: 0 <= i < |s'| ==> s'[i] == s[i];
      FilterTwice(s', p, q, r);
      assert r(x) == (p(x) && q(x));
      assert Filter(s, r) == Filter(s', r) + (if r(x) then [x] else []);
      if p(x) {
        assert Filter(s, p) == Filter(s', p) + [x];
        FilterSnoc(Filter(s', p), q, x);
      } else {
        assert Filter(s, p) == Filter(s', p) + [];
        assert Filter(s, p) == Filter(s', p);
      }
    }
  }

  /** A filter and its complement split s without loss. */
  lemma {:induction false} FilterPartition<T>(s: seq<T>, p: T -> bool, q: T -> bool)
    requires forall x :: q(x) == !p(x)
    ensures multiset(Filter(s, p)) + multiset(Filter(s, q)) == multiset(s)
    ensures |Filter(s, p)| + |Filter(s, q)| == |s|
  {
    if s != [] {
      var s', x := s[..|s| - 1], s[|s| - 1];
      FilterPartition(s', p, q);
      assert s == s' + [x];
      if p(x) {
        assert Filter(s, p) == Filter(s', p) + [x] && Filter(s, q) == Filter(s', q);
      } else {
        assert Filter(s, q) == Filter(s', q) + [x] && Filter(s, p) == Filter(s', p);
      }
    }
  }

  // ------------------------------------------------------------------
  // Keeping the first element per key
  // ------------------------------------------------------------------

  function Keys<T, K>(s: seq<T>, key: T -> K): (ks: seq<K>)
    ensures |ks| == |s| && forall i :: 0 <= i < |s| ==> ks[i] == key(s[i])
  {
    seq(|s|, i requires 0 <= i < |s| => key(s[i]))
  }

  lemma KeysOfPrefix<T, K>(s: seq<T>, key: T -> K, n: nat)
    requires n <= |s|
    ensures Keys(s[..n], key) == Keys(s, key)[..n]
  {
  }

  predicate DistinctKeys<T, K(==,!new)>(s: seq<T>, key: T -> K) {
    forall i, j :: 0 <= i < j < |s| ==> key(s[i]) != key(s[j])
  }

  /**
   * Every element whose key has not been seen earlier, in order: exactly
   * what a left-to-right scan with a `seen` set keeps.
   */
  function DedupBy<T, K(==,!new)>(s: seq<T>, key: T -> K): (r: seq<T>)
    ensures |r| <= |s|
    ensures DistinctKeys(r, key)
    ensures forall k :: k in Keys(r, key) <==> k in Keys(s, key)
  {
    if s == [] then []
    else
      var s', x := s[..|s| - 1], s[|s| - 1];
      var r' := DedupBy(s', key);
      assert Keys(s, key) == Keys(s', key) + [key(x)];
      if key(x) in Keys(s', key) then r'
      else
        var r := r' + [x];
        assert Keys(r, key) == Keys(r', key) + [key(x)];
        assert forall i :: 0 <= i < |r'| ==> key(r[i]) in Keys(r', key);
        r
  }

  lemma {:induction false} DedupBySubseq<T, K(!new)>(s: seq<T>, key: T -> K)
    ensures IsSubseq(DedupBy(s, key), s)
  {
    if s != [] {
      var s' := s[..|s| - 1];
      DedupBySubseq(s', key);
      var r, r' := DedupBy(s, key), DedupBy(s', key);
      if r == r' {
        if r != [] {
          assert IsSubseq(r, s');
        }
      } else {
        assert r[..|r| - 1] == r';
      }
    }
  }

  /**
   * The element kept for each key is its first occurrence: s[i] survives
   * exactly when no earlier element has its key.
   */
  lemma {:induction false} DedupByKeepsFirst<T, K(!new)>(s: seq<T>, key: T -> K, i: nat)
    requires i < |s|
    requires key(s[i]) !in Keys(s[..i], key)
    ensures s[i] in DedupBy(s, key)
  {
    var s' := s[..|s| - 1];
    if i < |s| - 1 {
      assert s'[..i] == s[..i] && s'[i] == s[i];
      DedupByKeepsFirst(s', key, i);
    } else {
      assert s[..i] == s';
    }
  }

  /** Conversely, every kept element is the first occurrence of its key. */
  lemma {:induction false} DedupByOnlyFirsts<T, K(!new)>(s: seq<T>, key: T -> K, x: T)
    requires x in DedupBy(s, key)
    ensures exists i | 0 <= i < |s| :: s[i] == x && key(x) !in Keys(s[..i], key)
  {
    var s', y := s[..|s| - 1], s[|s| - 1];
    var r' := DedupBy(s', key);
    if x in r' {
      DedupByOnlyFirsts(s', key, x);
      var i :| 0 <= i < |s'| && s'[i] == x && key(x) !in Keys(s'[..i], key);
      assert s[..i] == s'[..i] && s[i] == x;
    } else {
      assert x == y && key(y) !in Keys(s', key);
      assert s[..|s| - 1] == s';
    }
  }

  /** An element is kept exactly when it is the first occurrence of its key. */
  lemma DedupByMembers<T, K(!new)>(s: seq<T>, key: T -> K, x: T)
    ensures x in DedupBy(s, key) <==> exists i | 0 <= i < |s| :: s[i] == x && key(x) !in Keys(s[..i], key)
  {
    if x in DedupBy(s, key) {
      DedupByOnlyFirsts(s, key, x);
    }
    if exists i | 0 <= i < |s| :: s[i] == x && key(x) !in Keys(s[..i], key) {
      var i :| 0 <= i < |s| && s[i] == x && key(x) !in Keys(s[..i], key);
      DedupByKeepsFirst(s, key, i);
    }
  }

  /** Nothing is dropped from a sequence whose keys are already distinct. */
  lemma {:induction false} DedupByDistinct<T, K(!new)>(s: seq<T>, key: T -> K)
    requires DistinctKeys(s, key)
    ensures DedupBy(s, key) == s
  {
    if s != [] {
      var s' := s[..|s| - 1];
      assert DistinctKeys(s', key);
      DedupByDistinct(s', key);
      assert key(s[|s| - 1]) !in Keys(s', key) by {
        forall i | 0 <= i < |s'| ensures Keys(s', key)[i] != key(s[|s| - 1]) {
          assert Keys(s', key)[i] == key(s[i]);
        }
      }
      assert s == s' + [s[|s| - 1]];
    }
  }

  /** Deleting elements keeps keys distinct. */
  lemma {:induction false} DistinctKeysSubseq<T, K(!new)>(a: seq<T>, b: seq<T>, key: T -> K)
    requires IsSubseq(a, b) && DistinctKeys(b, key)
    ensures DistinctKeys(a, key)
    decreases |b|
  {
    if a != [] {
      var a', b' := a[..|a| - 1], b[..|b| - 1];
      assert DistinctKeys(b', key);
      if a[|a| - 1] == b[|b| - 1] && IsSubseq(a', b') {
        DistinctKeysSubseq(a', b', key);
        SubseqMembers(a', b');
        forall i | 0 <= i < |a'| ensures key(a[i]) != key(a[|a| - 1]) {
          assert a'[i] in b';
          var j :| 0 <= j < |b'| && b'[j] == a'[i];
          assert b[j] == a[i];
        }
      } else {
        DistinctKeysSubseq(a, b', key);
      }
    }
  }

  // ------------------------------------------------------------------
  // Plain duplicates: dict.fromkeys and the seen-set loops
  // ------------------------------------------------------------------

  predicate NoDuplicates<T(==)>(s: seq<T>) {
    forall i, j :: 0 <= i < j < |s| ==> s[i] != s[j]
  }

  /** The first occurrence of every element, in order. */
  function Dedup<T(==,!new)>(s: seq<T>): seq<T> {
    DedupBy(s, Identity)
  }

  lemma KeysIdentity<T>(s: seq<T>)
    ensures Keys(s, Identity) == s
  {
  }

  /** Dedup keeps the set of elements, drops repeats, only deletes. */
  lemma DedupProperties<T(!new)>(s: seq<T>)
    ensures NoDuplicates(Dedup(s))
    ensures forall x :: x in Dedup(s) <==> x in s
    ensures IsSubseq(Dedup(s), s)
  {
    var r := Dedup(s);
    KeysIdentity(s);
    KeysIdentity(r);
    assert forall i :: 0 <= i < |r| ==> Identity(r[i]) == r[i];
    DedupBySubseq(s, Identity);
  }

  /** One more element is kept exactly when it is new. */
  lemma DedupSnoc<T(!new)>(s: seq<T>, x: T)
    ensures Dedup(s + [x]) == if x in s then Dedup(s) else Dedup(s) + [x]
  {
    assert (s + [x])[..|s|] == s;
    assert (s + [x])[|s|] == x;
    KeysIdentity(s);
  }

  /** One step of the first-occurrence loop, stated on the list kept so far. */
  lemma DedupStep<T(!new)>(s: seq<T>, x: T, kept: seq<T>)
    requires kept == Dedup(s)
    ensures Dedup(s + [x]) == if x in kept then kept else kept + [x]
  {
    DedupProperties(s);
    DedupSnoc(s, x);
  }

  /**
   * The `seen`/`unique` loop of every get_search_urls: keeps the first
   * occurrence of each element, in order.
   */
  method DedupInOrder<T(==,!new)>(s: seq<T>) returns (unique: seq<T>)
    ensures unique == Dedup(s)
    ensures NoDuplicates(unique)
    ensures forall x :: x in unique <==> x in s
  {
    var seen: set<T> := {};
    unique := [];
    var i := 0;
    while i < |s|
      invariant 0 <= i <= |s|
      invariant unique == Dedup(s[..i])
      invariant forall x :: x in seen <==> x in s[..i]
    {
      assert s[..i + 1][..i] == s[..i];
      KeysIdentity(s[..i]);
      if s[i] !in seen {
        unique := unique + [s[i]];
        seen := seen + {s[i]};
      }
      i := i + 1;
    }
    assert s[..i] == s;
    DedupProperties(s);
  }
}
