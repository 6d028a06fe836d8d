/**
 * Sequence helpers shared by the read-side folds and the UI state:
 * order-preserving filtering, subsequences, and deduplication by a key
 * (the "push unless some element already has this id" pattern).
 */
module Seqs {

  /** The elements of `s` that satisfy `p`, in their original order
      (`Array.prototype.filter`). */
  function Filter<T(==)>(s: seq<T>, p: T -> bool): (r: seq<T>)
    ensures |r| <= |s|
    ensures forall i :: 0 <= i < |r| ==> r[i] in s && p(r[i])
    ensures forall i :: 0 <= i < |s| && p(s[i]) ==> s[i] in r
  {
    if |s| == 0 then []
    else
      assert s == s[..|s| - 1] + [s[|s| - 1]];
      Filter(s[..|s| - 1], p) + (if p(s[|s| - 1]) then [s[|s| - 1]] else [])
  }

  /** `a` can be obtained from `b` by deleting elements (order preserved). */
  predicate IsSubseq<T(==)>(a: seq<T>, b: seq<T>)
    decreases |b|
  {
    if |a| == 0 then true
    else if |b| == 0 then false
    else if a[|a| - 1] == b[|b| - 1] then IsSubseq(a[..|a| - 1], b[..|b| - 1])
    else IsSubseq(a, b[..|b| - 1])
  }

  /** All pairs in order are related by `le`. */
  ghost predicate SortedBy<T>(s: seq<T>, le: (T, T) -> bool)
  {
    forall i, j :: 0 <= i < j < |s| ==> le(s[i], s[j])
  }

  /** No two positions hold the same key. */
  predicate Distinct(xs: seq<int>)
  {
    forall i, j :: 0 <= i < j < |xs| ==> xs[i] != xs[j]
  }

  /** The key of every element (`s.map(key)`). */
  function KeysOf<T>(s: seq<T>, key: T -> int): (r: seq<int>)
    ensures |r| == |s|
    ensures forall i :: 0 <= i < |s| ==> r[i] == key(s[i])
  {
    seq(|s|, i requires 0 <= i < |s| => key(s[i]))
  }

  /** Appends `x` unless an element with the same key is already there
      (`if (!r.some(y => y.id === x.id)) r.push(x)`). */
  function AppendNew<T>(r: seq<T>, x: T, key: T -> int): seq<T>
  {
    if key(x) in KeysOf(r, key) then r else r + [x]
  }

  /** A list is a subsequence of itself. */
  lemma {:induction false} SubseqReflexive<T>(s: seq<T>)
    ensures IsSubseq(s, s)
  {
    if |s| > 0 {
      SubseqReflexive(s[..|s| - 1]);
    }
  }

  /** `s` with every element whose key occurred earlier dropped: the first
      element for each key survives, and the keys of the result are distinct
      and cover every key of `s`. */
  function DedupBy<T>(s: seq<T>, key: T -> int): (r: seq<T>)
    ensures Distinct(KeysOf(r, key))
    ensures forall i :: 0 <= i < |s| ==> key(s[i]) in KeysOf(r, key)
  {
    if |s| == 0 then []
    else
      var d := DedupBy(s[..|s| - 1], key);
      var r := AppendNew(d, s[|s| - 1], key);
      assert forall i :: 0 <= i < |s| - 1 ==> s[i] == s[..|s| - 1][i];
      assert r != d ==> KeysOf(r, key) == KeysOf(d, key) + [key(s[|s| - 1])];
      r
  }

  lemma {:induction false} FilterIsSubseq<T>(s: seq<T>, p: T -> bool)
    ensures IsSubseq(Filter(s, p), s)
  {
    if |s| > 0 {
      var init, last := s[..|s| - 1], s[|s| - 1];
      FilterIsSubseq(init, p);
      var f := Filter(init, p);
      if p(last) {
        assert Filter(s, p) == f + [last];
        assert (f + [last])[..|f|] == f;
      } else {
        assert Filter(s, p) == f;
        if |f| > 0 {
          assert f[|f| - 1] in f;
        }
      }
    }
  }

  lemma {:induction false} SubseqMembers<T>(a: seq<T>, b: seq<T>)
    requires IsSubseq(a, b)
    ensures forall x :: x in a ==> x in b
    decreases |b|
  {
    if |a| > 0 {
      var bi := b[..|b| - 1];
      assert b == bi + [b[|b| - 1]];
      if a[|a| - 1] == b[|b| - 1] {
        SubseqMembers(a[..|a| - 1], bi);
        assert a == a[..|a| - 1] + [a[|a| - 1]];
      } else {
        SubseqMembers(a, bi);
      }
    }
  }

  /** Dropping the last element of a subsequence leaves a subsequence. */
  lemma {:induction false} SubseqDropLast<T>(a: seq<T>, b: seq<T>)
    requires |a| > 0 && IsSubseq(a, b)
    ensures IsSubseq(a[..|a| - 1], b)
    decreases |b|, 0
  {
    var ai := a[..|a| - 1];
    if |ai| > 0 {
      var bi := b[..|b| - 1];
      if a[|a| - 1] == b[|b| - 1] {
        // ai is a subsequence of bi, hence of b
        SubseqExtend(ai, bi, b[|b| - 1]);
        assert bi + [b[|b| - 1]] == b;
      } else {
        SubseqDropLast(a, bi);
        SubseqExtend(ai, bi, b[|b| - 1]);
        assert bi + [b[|b| - 1]] == b;
      }
    }
  }

  /** A subsequence of `b` is a subsequence of any extension of `b`. */
  lemma {:induction false} SubseqExtend<T>(a: seq<T>, b: seq<T>, x: T)
    requires IsSubseq(a, b)
    ensures IsSubseq(a, b + [x])
    decreases |b|, 1
  {
    var bx := b + [x];
    assert bx[..|b|] == b;
    if |a| > 0 && a[|a| - 1] == x {
      SubseqDropLast(a, b);
    }
  }

  lemma {:induction false} SubseqLength<T>(a: seq<T>, b: seq<T>)
    requires IsSubseq(a, b)
    ensures |a| <= |b|
    decreases |b|
  {
    if |a| > 0 {
      if a[|a| - 1] == b[|b| - 1] {
        SubseqLength(a[..|a| - 1], b[..|b| - 1]);
      } else {
        SubseqLength(a, b[..|b| - 1]);
      }
    }
  }

  /** A subsequence of a sorted sequence is sorted. */
  lemma {:induction false} SubseqSorted<T>(a: seq<T>, b: seq<T>, le: (T, T) -> bool)
    requires IsSubseq(a, b) && SortedBy(b, le)
    ensures SortedBy(a, le)
    decreases |b|
  {
    if |a| > 0 {
      var bi := b[..|b| - 1];
      assert SortedBy(bi, le);
      if a[|a| - 1] == b[|b| - 1] {
        var ai := a[..|a| - 1];
        SubseqSorted(ai, bi, le);
        SubseqMembers(ai, bi);
        forall i, j | 0 <= i < j < |a| ensures le(a[i], a[j]) {
          if j < |a| - 1 {
            assert a[i] == ai[i] && a[j] == ai[j];
          } else {
            assert a[i] == ai[i];
            assert ai[i] in bi;
            var m :| 0 <= m < |bi| && bi[m] == ai[i];
            assert b[m] == a[i] && b[|b| - 1] == a[j];
          }
        }
      } else {
        SubseqSorted(a, bi, le);
      }
    }
  }

  /** Keeping fewer elements gives a subsequence of keeping more. */
  lemma {:induction false} FilterMonotone<T>(s: seq<T>, p: T -> bool, q: T -> bool)
    requires forall x :: x in s && p(x) ==> q(x)
    ensures IsSubseq(Filter(s, p), Filter(s, q))
  {
    if |s| > 0 {
      var init, last := s[..|s| - 1], s[|s| - 1];
      assert forall x :: x in init ==> x in s;
      FilterMonotone(init, p, q);
      var fp, fq := Filter(init, p), Filter(init, q);
      if p(last) {
        assert Filter(s, p) == fp + [last] && Filter(s, q) == fq + [last];
        assert (fp + [last])[..|fp|] == fp && (fq + [last])[..|fq|] == fq;
      } else if q(last) {
        assert Filter(s, p) == fp && Filter(s, q) == fq + [last];
        assert (fq + [last])[..|fq|] == fq;
        if |fp| > 0 {
          assert fp[|fp| - 1] in fp;
        }
      } else {
        assert Filter(s, p) == fp && Filter(s, q) == fq;
      }
    }
  }

  /** Filtering with a predicate that holds everywhere changes nothing. */
  lemma {:induction false} FilterAll<T>(s: seq<T>, p: T -> bool)
    requires forall i :: 0 <= i < |s| ==> p(s[i])
    ensures Filter(s, p) == s
  {
    if |s| > 0 {
      var init, last := s[..|s| - 1], s[|s| - 1];
      assert forall i :: 0 <= i < |init| ==> init[i] == s[i];
      FilterAll(init, p);
      assert p(last);
      assert s == init + [last];
    }
  }

  /** Every survivor of DedupBy is an element of `s`, taken in order. */
  lemma {:induction false} DedupBySubseq<T>(s: seq<T>, key: T -> int)
    ensures IsSubseq(DedupBy(s, key), s)
  {
    if |s| > 0 {
      var init, last := s[..|s| - 1], s[|s| - 1];
      DedupBySubseq(init, key);
      var d := DedupBy(init, key);
      if key(last) in KeysOf(d, key) {
        assert DedupBy(s, key) == d;
        if |d| > 0 && d[|d| - 1] == last {
          SubseqDropLast(d, init);
        }
      } else {
        assert DedupBy(s, key) == d + [last];
        assert (d + [last])[..|d|] == d;
      }
    }
  }

  /** Helper: in a sequence with distinct keys, the last element's key does
      not occur earlier. */
  lemma DedupByNoRepeat<T>(d: seq<T>, key: T -> int, x: T)
    requires |d| > 0 && d[|d| - 1] == x && Distinct(KeysOf(d, key))
    ensures key(x) !in KeysOf(d[..|d| - 1], key)
  {
    var k := KeysOf(d[..|d| - 1], key);
    forall m | 0 <= m < |k| ensures k[m] != key(x) {
      assert k[m] == KeysOf(d, key)[m] != KeysOf(d, key)[|d| - 1];
    }
  }

  /** An element is dropped only if an earlier element has the same key. */
  lemma {:induction false} DedupByDropsOnlyRepeats<T>(s: seq<T>, key: T -> int, i: int)
    requires 0 <= i < |s| && s[i] !in DedupBy(s, key)
    ensures exists j :: 0 <= j < i && key(s[j]) == key(s[i])
  {
    var init, last := s[..|s| - 1], s[|s| - 1];
    var d := DedupBy(init, key);
    assert DedupBy(s, key) == AppendNew(d, last, key);
    if i < |s| - 1 {
      assert s[i] == init[i];
      assert s[i] !in d;
      DedupByDropsOnlyRepeats(init, key, i);
      var j :| 0 <= j < i && key(init[j]) == key(init[i]);
      assert s[j] == init[j];
    } else {
      assert key(last) in KeysOf(d, key);
      var m :| 0 <= m < |d| && KeysOf(d, key)[m] == key(last);
      DedupBySubseq(init, key);
      SubseqMembers(d, init);
      assert d[m] in init;
      var j :| 0 <= j < |init| && init[j] == d[m];
      assert s[j] == init[j];
    }
  }

  lemma KeyAbsent<T>(s: seq<T>, x: T, key: T -> int)
    requires forall i :: 0 <= i < |s| ==> key(s[i]) != key(x)
    ensures key(x) !in KeysOf(s, key)
  {
  }

  lemma DedupByKeepsFresh<T>(init: seq<T>, last: T, key: T -> int)
    requires DedupBy(init, key) == init && key(last) !in KeysOf(init, key)
    ensures DedupBy(init + [last], key) == init + [last]
  {
    DedupByAppend(init, last, key);
  }

  /** Deduplicating a sequence whose keys are already distinct changes nothing. */
  lemma {:induction false} DedupByDistinct<T>(s: seq<T>, key: T -> int)
    requires forall i, j :: 0 <= i < j < |s| ==> key(s[i]) != key(s[j])
    ensures DedupBy(s, key) == s
  {
    if |s| > 0 {
      var init, last := s[..|s| - 1], s[|s| - 1];
      assert forall i :: 0 <= i < |init| ==> init[i] == s[i];
      DedupByDistinct(init, key);
      KeyAbsent(init, last, key);
      DedupByKeepsFresh(init, last, key);
      assert s == init + [last];
    }
  }

  /** Filtering only looks at the predicate on the elements present. */
  lemma {:induction false} FilterExt<T>(s: seq<T>, p: T -> bool, q: T -> bool)
    requires forall i :: 0 <= i < |s| ==> p(s[i]) == q(s[i])
    ensures Filter(s, p) == Filter(s, q)
  {
    if |s| > 0 {
      FilterExt(s[..|s| - 1], p, q);
    }
  }

  /** A subsequence of a sequence with distinct keys has distinct keys. */
  lemma SubseqDistinct<T>(a: seq<T>, b: seq<T>, key: T -> int)
    requires IsSubseq(a, b) && Distinct(KeysOf(b, key))
    ensures Distinct(KeysOf(a, key))
  {
    var differ := (x: T, y: T) => key(x) != key(y);
    assert SortedBy(b, differ) by {
      forall i, j | 0 <= i < j < |b| ensures differ(b[i], b[j]) {
        assert KeysOf(b, key)[i] != KeysOf(b, key)[j];
      }
    }
    SubseqSorted(a, b, differ);
    forall i, j | 0 <= i < j < |a| ensures KeysOf(a, key)[i] != KeysOf(a, key)[j] {
      assert differ(a[i], a[j]);
    }
  }

  /** Deduplicating one more element only considers that element. */
  lemma DedupByAppend<T>(s: seq<T>, x: T, key: T -> int)
    ensures DedupBy(s + [x], key) == AppendNew(DedupBy(s, key), x, key)
  {
    assert (s + [x])[..|s|] == s;
  }

  /** Removing keeps exactly the entries with another id, in order. */
  lemma RemoveKeepsOthers<T>(s: seq<T>, key: T -> int, id: int, keep: T -> bool)
    requires forall x :: keep(x) == (key(x) != id)
    ensures forall x :: x in Filter(s, keep) <==> x in s && key(x) != id
    ensures IsSubseq(Filter(s, keep), s)
    ensures forall k :: 0 <= k < |s| && key(s[k]) != id ==> s[k] in Filter(s, keep)
  {
    FilterIsSubseq(s, keep);
  }
}
