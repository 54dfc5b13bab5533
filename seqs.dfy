/**
 * Order-preserving sequence facts shared by the three stages: subsequences,
 * and "keep the first element of each key", which the scripts use twice
 * (case-insensitively for a record's files, exactly for a group's files).
 */
module Seqs {

  /** `a` is obtained from `b` by deleting elements, keeping the order of the rest. */
  predicate IsSubseq<T(==)>(a: seq<T>, b: seq<T>)
    decreases |b|
  {
    if b == [] then a == []
    else (a != [] && a[|a| - 1] == b[|b| - 1] && IsSubseq(a[..|a| - 1], b[..|b| - 1]))
         || IsSubseq(a, b[..|b| - 1])
  }

  lemma {:induction false} SubseqLength<T>(a: seq<T>, b: seq<T>)
    requires IsSubseq(a, b)
    ensures |a| <= |b|
    decreases |b|
  {
    if b != [] {
      if a != [] && a[|a| - 1] == b[|b| - 1] && IsSubseq(a[..|a| - 1], b[..|b| - 1]) {
        SubseqLength(a[..|a| - 1], b[..|b| - 1]);
      } else {
        SubseqLength(a, b[..|b| - 1]);
      }
    }
  }

  lemma {:induction false} SubseqMembers<T>(a: seq<T>, b: seq<T>)
    requires IsSubseq(a, b)
    ensures forall x :: x in a ==> x in b
    decreases |b|
  {
    if b != [] {
      var b' := b[..|b| - 1];
      if a != [] && a[|a| - 1] == b[|b| - 1] && IsSubseq(a[..|a| - 1], b') {
        SubseqMembers(a[..|a| - 1], b');
        assert a == a[..|a| - 1] + [a[|a| - 1]];
      } else {
        SubseqMembers(a, b');
      }
      assert b == b' + [b[|b| - 1]];
    }
  }

  lemma {:induction false} SubseqRefl<T>(a: seq<T>)
    ensures IsSubseq(a, a)
    decreases |a|
  {
    if a != [] { SubseqRefl(a[..|a| - 1]); }
  }

  /** The set of keys of the elements of `p`. */
  function Keys(p: seq<string>, key: string -> string): set<string>
  {
    if p == [] then {} else Keys(p[..|p| - 1], key) + {key(p[|p| - 1])}
  }

  lemma {:induction false} KeysMember(p: seq<string>, key: string -> string, k: string)
    ensures k in Keys(p, key) <==> exists i :: 0 <= i < |p| && key(p[i]) == k
  {
    if p != [] {
      var p' := p[..|p| - 1];
      KeysMember(p', key, k);
      if k in Keys(p', key) {
        var i :| 0 <= i < |p'| && key(p'[i]) == k;
        assert p[i] == p'[i];
      }
      if exists i :: 0 <= i < |p| && key(p[i]) == k {
        var i :| 0 <= i < |p| && key(p[i]) == k;
        if i < |p'| { assert p'[i] == p[i]; }
      }
    }
  }

  lemma {:induction false} KeysConcat(p: seq<string>, q: seq<string>, key: string -> string)
    ensures Keys(p + q, key) == Keys(p, key) + Keys(q, key)
    decreases |q|
  {
    if q == [] {
      assert p + q == p;
    } else {
      var q' := q[..|q| - 1];
      assert (p + q)[..|p + q| - 1] == p + q';
      KeysConcat(p, q', key);
    }
  }

  /** No two elements of `p` share a key. */
  predicate DistinctKeys(p: seq<string>, key: string -> string)
  {
    forall i, j :: 0 <= i < j < |p| ==> key(p[i]) != key(p[j])
  }

  /** Appends to `acc`, in order, each element of `xs` whose key has not been seen yet. */
  function DedupOnto(acc: seq<string>, xs: seq<string>, key: string -> string): seq<string>
  {
    if xs == [] then acc
    else
      var prev := DedupOnto(acc, xs[..|xs| - 1], key);
      var x := xs[|xs| - 1];
      if key(x) in Keys(prev, key) then prev else prev + [x]
  }

  /** The first element of `xs` for each key, in the order those first elements appear. */
  function DedupBy(xs: seq<string>, key: string -> string): seq<string>
  {
    DedupOnto([], xs, key)
  }

  /** Deduplicating `xs + ys` is deduplicating `xs` and then carrying on with `ys`. */
  lemma {:induction false} DedupOntoAppend(acc: seq<string>, xs: seq<string>, ys: seq<string>, key: string -> string)
    ensures DedupOnto(acc, xs + ys, key) == DedupOnto(DedupOnto(acc, xs, key), ys, key)
    decreases |ys|
  {
    if ys == [] {
      assert xs + ys == xs;
    } else {
      var ys' := ys[..|ys| - 1];
      assert (xs + ys)[..|xs + ys| - 1] == xs + ys';
      assert (xs + ys)[|xs + ys| - 1] == ys[|ys| - 1];
      DedupOntoAppend(acc, xs, ys', key);
    }
  }

  /** Deduplication neither loses nor invents a key. */
  lemma {:induction false} DedupOntoKeys(acc: seq<string>, xs: seq<string>, key: string -> string)
    ensures Keys(DedupOnto(acc, xs, key), key) == Keys(acc, key) + Keys(xs, key)
    decreases |xs|
  {
    if xs != [] {
      var xs' := xs[..|xs| - 1];
      var prev := DedupOnto(acc, xs', key);
      DedupOntoKeys(acc, xs', key);
      KeysConcat(prev, [xs[|xs| - 1]], key);
    }
  }

  lemma {:induction false} DedupOntoDistinct(acc: seq<string>, xs: seq<string>, key: string -> string)
    requires DistinctKeys(acc, key)
    ensures DistinctKeys(DedupOnto(acc, xs, key), key)
    decreases |xs|
  {
    if xs != [] {
      var xs' := xs[..|xs| - 1];
      var prev := DedupOnto(acc, xs', key);
      var x := xs[|xs| - 1];
      DedupOntoDistinct(acc, xs', key);
      if key(x) !in Keys(prev, key) {
        KeysMember(prev, key, key(x));
        var r := prev + [x];
        forall i, j | 0 <= i < j < |r|
          ensures key(r[i]) != key(r[j])
        {
          if j < |prev| { assert r[i] == prev[i] && r[j] == prev[j]; }
          else { assert r[i] == prev[i] && r[j] == x; }
        }
      }
    }
  }

  /** Within the result no two elements are equal under `key`. */
  lemma DedupDistinct(xs: seq<string>, key: string -> string)
    ensures DistinctKeys(DedupBy(xs, key), key)
  {
    DedupOntoDistinct([], xs, key);
  }

  /** Every key of the input is represented in the result, and no other. */
  lemma DedupCovers(xs: seq<string>, key: string -> string)
    ensures Keys(DedupBy(xs, key), key) == Keys(xs, key)
  {
    DedupOntoKeys([], xs, key);
  }

  /** The result keeps the input's order: it is a subsequence of it. */
  lemma {:induction false} DedupSubseq(xs: seq<string>, key: string -> string)
    ensures IsSubseq(DedupBy(xs, key), xs)
    decreases |xs|
  {
    if xs != [] {
      var xs' := xs[..|xs| - 1];
      var prev := DedupBy(xs', key);
      DedupSubseq(xs', key);
      if key(xs[|xs| - 1]) !in Keys(prev, key) {
        var r := prev + [xs[|xs| - 1]];
        assert r[..|r| - 1] == prev;
      }
    }
  }

  /** The index of the first element of `xs` with key `k`. */
  function FirstIndex(xs: seq<string>, k: string, key: string -> string): (j: nat)
    requires k in Keys(xs, key)
    ensures j < |xs| && key(xs[j]) == k
    ensures forall i :: 0 <= i < j ==> key(xs[i]) != k
  {
    var xs' := xs[..|xs| - 1];
    if k in Keys(xs', key) then
      var j := FirstIndex(xs', k, key);
      assert forall i :: 0 <= i < j ==> xs[i] == xs'[i];
      j
    else
      KeysMember(xs', key, k);
      assert forall i :: 0 <= i < |xs'| ==> xs[i] == xs'[i];
      |xs| - 1
  }

  /** Each element of the result is the first element of the input with its key, in its original form. */
  lemma {:induction false} DedupFirstSeen(xs: seq<string>, key: string -> string, y: string)
    requires y in DedupBy(xs, key)
    ensures key(y) in Keys(xs, key) && y == xs[FirstIndex(xs, key(y), key)]
    decreases |xs|
  {
    var xs' := xs[..|xs| - 1];
    var prev := DedupBy(xs', key);
    var x := xs[|xs| - 1];
    DedupCovers(xs', key);
    if y in prev {
      DedupFirstSeen(xs', key, y);
      var j := FirstIndex(xs', key(y), key);
      assert xs[j] == xs'[j];
    } else {
      assert y == x && key(x) !in Keys(xs', key);
    }
  }

  /** Growing `xs` at the end does not move the first occurrence of a key it already had. */
  lemma FirstIndexPrefix(xs: seq<string>, k: string, key: string -> string)
    requires xs != [] && k in Keys(xs[..|xs| - 1], key)
    ensures k in Keys(xs, key) && FirstIndex(xs, k, key) == FirstIndex(xs[..|xs| - 1], k, key)
  {
  }

  /** The result lists the keys in the order of their first appearance in the input: an
      element before another in the result has its key's first occurrence earlier. With
      `DedupFirstSeen` this fixes the result completely. */
  lemma {:induction false} DedupOrder(xs: seq<string>, key: string -> string)
    ensures var r := DedupBy(xs, key);
      && (forall i :: 0 <= i < |r| ==> key(r[i]) in Keys(xs, key))
      && (forall i, j :: 0 <= i < j < |r| ==> FirstIndex(xs, key(r[i]), key) < FirstIndex(xs, key(r[j]), key))
    decreases |xs|
  {
    if xs != [] {
      var xs' := xs[..|xs| - 1];
      var prev := DedupBy(xs', key);
      var x := xs[|xs| - 1];
      DedupOrder(xs', key);
      forall i | 0 <= i < |prev|
        ensures key(prev[i]) in Keys(xs, key)
        ensures FirstIndex(xs, key(prev[i]), key) == FirstIndex(xs', key(prev[i]), key) < |xs'|
      {
        FirstIndexPrefix(xs, key(prev[i]), key);
      }
      if key(x) !in Keys(prev, key) {
        DedupCovers(xs', key);
        var r := prev + [x];
        assert FirstIndex(xs, key(x), key) == |xs| - 1;
        forall i, j | 0 <= i < j < |r|
          ensures FirstIndex(xs, key(r[i]), key) < FirstIndex(xs, key(r[j]), key)
        {
          assert r[i] == prev[i];
          if j < |prev| { assert r[j] == prev[j]; } else { assert r[j] == x; }
        }
        forall i | 0 <= i < |r|
          ensures key(r[i]) in Keys(xs, key)
        {
          if i < |prev| { assert r[i] == prev[i]; } else { assert r[i] == x; }
        }
      }
    }
  }

  /** A sequence whose keys are already distinct is left as it is. */
  lemma {:induction false} DedupOfDistinct(xs: seq<string>, key: string -> string)
    requires DistinctKeys(xs, key)
    ensures DedupBy(xs, key) == xs
    decreases |xs|
  {
    if xs != [] {
      var xs' := xs[..|xs| - 1];
      var x := xs[|xs| - 1];
      assert DistinctKeys(xs', key) by {
        forall i, j | 0 <= i < j < |xs'| ensures key(xs'[i]) != key(xs'[j]) {
          assert xs'[i] == xs[i] && xs'[j] == xs[j];
        }
      }
      DedupOfDistinct(xs', key);
      forall i | 0 <= i < |xs'| ensures key(xs'[i]) != key(x) {
        assert xs'[i] == xs[i];
      }
      KeysMember(xs', key, key(x));
      assert key(x) !in Keys(xs', key);
      assert xs == xs' + [x];
    }
  }

  /** Deduplicating twice is deduplicating once. */
  lemma DedupIdempotent(xs: seq<string>, key: string -> string)
    ensures DedupBy(DedupBy(xs, key), key) == DedupBy(xs, key)
  {
    DedupDistinct(xs, key);
    DedupOfDistinct(DedupBy(xs, key), key);
  }
}
