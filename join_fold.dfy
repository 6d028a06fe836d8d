/**
 * The fold both list endpoints run over the rows of a left join: a `Map`
 * from parent id to an entry, filled row by row. A row whose parent has no
 * entry yet opens one with no children; a row that carries a child pushes
 * it onto its parent's entry unless a child with the same id is already
 * there. The answer is the map's values in insertion order.
 *
 * `Grouped` states the answer declaratively (the distinct parents in order
 * of first row, each with the distinct children of its rows in order of
 * first row); `FoldRows` is the row-by-row fold, and `FoldRowsIsGrouped`
 * proves the two equal.
 */
module JoinFold {
  import opened Wrappers
  import opened Seqs

  /** One row of `parents LEFT JOIN links LEFT JOIN children`. */
  datatype Joined<P, C> = Joined(parent: P, child: Option<C>)

  /** A parent with its children, as the endpoints return it. */
  datatype Group<P, C> = Group(parent: P, children: seq<C>)

  function Parents<P, C>(js: seq<Joined<P, C>>): (r: seq<P>)
    ensures |r| == |js| && forall k :: 0 <= k < |js| ==> r[k] == js[k].parent
  {
    seq(|js|, k requires 0 <= k < |js| => js[k].parent)
  }

  /** Keeping some of the rows keeps their parents in order. */
  lemma {:induction false} SubseqParents<P, C>(a: seq<Joined<P, C>>, b: seq<Joined<P, C>>)
    requires IsSubseq(a, b)
    ensures IsSubseq(Parents(a), Parents(b))
  {
    if |a| > 0 {
      var b0 := b[..|b| - 1];
      assert Parents(b) == Parents(b0) + [b[|b| - 1].parent];
      if a[|a| - 1] == b[|b| - 1] {
        var a0 := a[..|a| - 1];
        assert IsSubseq(a0, b0);
        SubseqParents(a0, b0);
        assert Parents(a) == Parents(a0) + [a[|a| - 1].parent];
      } else {
        SubseqParents(a, b0);
        SubseqExtend(Parents(a), Parents(b0), b[|b| - 1].parent);
      }
    }
  }

  function GroupParents<P, C>(g: seq<Group<P, C>>): (r: seq<P>)
    ensures |r| == |g| && forall j :: 0 <= j < |g| ==> r[j] == g[j].parent
  {
    seq(|g|, j requires 0 <= j < |g| => g[j].parent)
  }

  /** The children of the rows of parent `id`, in row order, repeats
      included. */
  function ChildrenOf<P, C>(js: seq<Joined<P, C>>, id: int, pkey: P -> int): (r: seq<C>)
    ensures |r| <= |js|
  {
    if |js| == 0 then []
    else
      var last := js[|js| - 1];
      ChildrenOf(js[..|js| - 1], id, pkey)
        + (if pkey(last.parent) == id && last.child.Some? then [last.child.value] else [])
  }

  /** Every child of a row of parent `id` is collected. */
  lemma {:induction false} ChildrenOfHas<P, C>(js: seq<Joined<P, C>>, id: int, pkey: P -> int, k: int)
    requires 0 <= k < |js| && pkey(js[k].parent) == id && js[k].child.Some?
    ensures js[k].child.value in ChildrenOf(js, id, pkey)
  {
    var init := js[..|js| - 1];
    if k < |js| - 1 {
      assert init[k] == js[k];
      ChildrenOfHas(init, id, pkey, k);
    }
  }

  /** A parent none of whose rows carries a child collects nothing. */
  lemma {:induction false} NoChildren<P, C>(js: seq<Joined<P, C>>, id: int, pkey: P -> int)
    requires forall k :: 0 <= k < |js| && pkey(js[k].parent) == id ==> js[k].child.None?
    ensures ChildrenOf(js, id, pkey) == []
  {
    if |js| > 0 {
      var init := js[..|js| - 1];
      assert forall k :: 0 <= k < |init| ==> init[k] == js[k];
      NoChildren(init, id, pkey);
    }
  }

  /** The distinct parents of the rows, in order of first row. */
  function DistinctParents<P, C>(js: seq<Joined<P, C>>, pkey: P -> int): seq<P>
  {
    DedupBy(Parents(js), pkey)
  }

  /** The entry of parent `p`: its distinct children, in order of first row. */
  function GroupOf<P, C>(js: seq<Joined<P, C>>, p: P, pkey: P -> int, ckey: C -> int): Group<P, C>
  {
    Group(p, DedupBy(ChildrenOf(js, pkey(p), pkey), ckey))
  }

  /** The answer: one entry per parent id, in the order of the first row of
      each, holding the distinct children of that parent's rows in the
      order they first appear. */
  function Grouped<P, C>(js: seq<Joined<P, C>>, pkey: P -> int, ckey: C -> int): (r: seq<Group<P, C>>)
    ensures |r| <= |js|
  {
    var dp := DistinctParents(js, pkey);
    DedupBySubseq(Parents(js), pkey);
    SubseqLength(dp, Parents(js));
    seq(|dp|, j requires 0 <= j < |dp| => GroupOf(js, dp[j], pkey, ckey))
  }

  function GroupKey<P, C>(pkey: P -> int): Group<P, C> -> int
  {
    (e: Group<P, C>) => pkey(e.parent)
  }

  /** Each parent id of the rows has exactly one entry, every entry's
      children have distinct ids, and each entry holds every child of its
      parent's rows. */
  lemma GroupedFacts<P, C>(js: seq<Joined<P, C>>, pkey: P -> int, ckey: C -> int)
    ensures Distinct(KeysOf(Grouped(js, pkey, ckey), GroupKey(pkey)))
    ensures forall k :: 0 <= k < |js| ==> pkey(js[k].parent) in KeysOf(Grouped(js, pkey, ckey), GroupKey(pkey))
    ensures forall j :: 0 <= j < |Grouped(js, pkey, ckey)|
              ==> Distinct(KeysOf(Grouped(js, pkey, ckey)[j].children, ckey))
    ensures forall j, k :: 0 <= j < |Grouped(js, pkey, ckey)| && 0 <= k < |js|
              && pkey(js[k].parent) == pkey(Grouped(js, pkey, ckey)[j].parent) && js[k].child.Some?
              ==> ckey(js[k].child.value) in KeysOf(Grouped(js, pkey, ckey)[j].children, ckey)
  {
    var r := Grouped(js, pkey, ckey);
    var dp := DistinctParents(js, pkey);
    assert KeysOf(r, GroupKey(pkey)) == KeysOf(dp, pkey);
    forall k | 0 <= k < |js| ensures pkey(js[k].parent) in KeysOf(r, GroupKey(pkey)) {
      assert js[k].parent == Parents(js)[k];
    }
    forall j, k | 0 <= j < |r| && 0 <= k < |js| && pkey(js[k].parent) == pkey(r[j].parent)
                  && js[k].child.Some?
      ensures ckey(js[k].child.value) in KeysOf(r[j].children, ckey)
    {
      var fs := ChildrenOf(js, pkey(r[j].parent), pkey);
      ChildrenOfHas(js, pkey(r[j].parent), pkey, k);
      var m :| 0 <= m < |fs| && fs[m] == js[k].child.value;
      assert ckey(fs[m]) in KeysOf(r[j].children, ckey);
    }
  }

  /** A parent whose rows carry no child gets an entry with no children. */
  lemma NoChildRowsEmptyGroup<P, C>(js: seq<Joined<P, C>>, pkey: P -> int, ckey: C -> int, j: int)
    requires 0 <= j < |Grouped(js, pkey, ckey)|
    requires forall k :: 0 <= k < |js| && pkey(js[k].parent) == pkey(Grouped(js, pkey, ckey)[j].parent)
                         ==> js[k].child.None?
    ensures Grouped(js, pkey, ckey)[j].children == []
  {
    NoChildren(js, pkey(Grouped(js, pkey, ckey)[j].parent), pkey);
  }

  /** The entries' parents are the distinct parents of the rows, so they
      keep the rows' order. */
  lemma GroupedParents<P, C>(js: seq<Joined<P, C>>, pkey: P -> int, ckey: C -> int)
    ensures GroupParents(Grouped(js, pkey, ckey)) == DistinctParents(js, pkey)
    ensures IsSubseq(GroupParents(Grouped(js, pkey, ckey)), Parents(js))
  {
    DedupBySubseq(Parents(js), pkey);
    assert GroupParents(Grouped(js, pkey, ckey)) == DistinctParents(js, pkey);
  }

  /** Rows sorted by their parents give entries in the same order. */
  lemma GroupedKeepsOrder<P, C>(js: seq<Joined<P, C>>, pkey: P -> int, ckey: C -> int, le: (P, P) -> bool)
    requires SortedBy(Parents(js), le)
    ensures SortedBy(GroupParents(Grouped(js, pkey, ckey)), le)
  {
    GroupedParents(js, pkey, ckey);
    SubseqSorted(GroupParents(Grouped(js, pkey, ckey)), Parents(js), le);
  }

  /** The parent of every row has an entry. */
  lemma ParentHasEntry<P, C>(js: seq<Joined<P, C>>, pkey: P -> int, ckey: C -> int, k: int)
    requires 0 <= k < |js|
    ensures GroupIndex(Grouped(js, pkey, ckey), pkey(js[k].parent), pkey) < |Grouped(js, pkey, ckey)|
  {
    var g := Grouped(js, pkey, ckey);
    GroupedFacts(js, pkey, ckey);
    var m :| 0 <= m < |g| && KeysOf(g, GroupKey(pkey))[m] == pkey(js[k].parent);
  }

  /** A row without a child, for a parent that already has an entry,
      changes nothing (`if (row.child)` skips it). */
  lemma ChildlessRowChangesNothing<P, C>(js: seq<Joined<P, C>>, p: P, pkey: P -> int, ckey: C -> int, k: int)
    requires 0 <= k < |js| && pkey(js[k].parent) == pkey(p)
    ensures Grouped(js + [Joined(p, None)], pkey, ckey) == Grouped(js, pkey, ckey)
  {
    var g := Grouped(js, pkey, ckey);
    ParentHasEntry(js, pkey, ckey, k);
    GroupedStepKnown(js, Joined(p, None), pkey, ckey);
    var j := GroupIndex(g, pkey(p), pkey);
    assert g[j := g[j]] == g;
  }

  // ------------------------------------------------- the fold, row by row

  /** `map.has(id)` / `map.get(id)`: the position of the entry for parent
      `id`, or the number of entries when there is none. */
  function GroupIndex<P, C>(g: seq<Group<P, C>>, id: int, pkey: P -> int): (r: nat)
    ensures r <= |g|
    ensures r < |g| ==> pkey(g[r].parent) == id
    ensures forall k :: 0 <= k < r ==> pkey(g[k].parent) != id
  {
    if |g| == 0 then 0
    else if pkey(g[0].parent) == id then 0
    else 1 + GroupIndex(g[1..], id, pkey)
  }

  /** An entry after one more row of its parent: the row's child is
      pushed unless one with its id is already there. */
  function Absorb<P, C>(e: Group<P, C>, row: Joined<P, C>, ckey: C -> int): Group<P, C>
  {
    if row.child.None? then e
    else e.(children := AppendNew(e.children, row.child.value, ckey))
  }

  /** One step of the fold: open an entry for the row's parent when it has
      none, then absorb the row's child into that entry. */
  function AddRow<P, C>(g: seq<Group<P, C>>, row: Joined<P, C>, pkey: P -> int, ckey: C -> int)
    : seq<Group<P, C>>
  {
    var j := GroupIndex(g, pkey(row.parent), pkey);
    if j == |g| then g + [Absorb(Group(row.parent, []), row, ckey)]
    else g[j := Absorb(g[j], row, ckey)]
  }

  /** The fold over all rows, one `AddRow` per row in order. */
  function FoldRows<P, C>(js: seq<Joined<P, C>>, pkey: P -> int, ckey: C -> int): seq<Group<P, C>>
  {
    if |js| == 0 then [] else AddRow(FoldRows(js[..|js| - 1], pkey, ckey), js[|js| - 1], pkey, ckey)
  }

  lemma FoldRowsSnoc<P, C>(js: seq<Joined<P, C>>, row: Joined<P, C>, pkey: P -> int, ckey: C -> int)
    ensures FoldRows(js + [row], pkey, ckey) == AddRow(FoldRows(js, pkey, ckey), row, pkey, ckey)
  {
    assert (js + [row])[..|js|] == js;
  }

  lemma ChildrenOfStep<P, C>(js: seq<Joined<P, C>>, row: Joined<P, C>, id: int, pkey: P -> int)
    ensures ChildrenOf(js + [row], id, pkey)
         == ChildrenOf(js, id, pkey)
            + (if pkey(row.parent) == id && row.child.Some? then [row.child.value] else [])
  {
    assert (js + [row])[..|js|] == js;
  }

  lemma DistinctParentsStep<P, C>(js: seq<Joined<P, C>>, row: Joined<P, C>, pkey: P -> int)
    ensures DistinctParents(js + [row], pkey) == AppendNew(DistinctParents(js, pkey), row.parent, pkey)
  {
    assert Parents(js + [row]) == Parents(js) + [row.parent];
    DedupByAppend(Parents(js), row.parent, pkey);
  }

  lemma GroupOfStep<P, C>(js: seq<Joined<P, C>>, row: Joined<P, C>, q: P, pkey: P -> int, ckey: C -> int)
    ensures GroupOf(js + [row], q, pkey, ckey)
         == if pkey(q) == pkey(row.parent) then Absorb(GroupOf(js, q, pkey, ckey), row, ckey)
            else GroupOf(js, q, pkey, ckey)
  {
    ChildrenOfStep(js, row, pkey(q), pkey);
    var s := ChildrenOf(js, pkey(q), pkey);
    if pkey(q) == pkey(row.parent) && row.child.Some? {
      var t := row.child.value;
      assert ChildrenOf(js + [row], pkey(q), pkey) == s + [t];
      DedupByAppend(s, t, ckey);
      assert GroupOf(js + [row], q, pkey, ckey).children
          == AppendNew(GroupOf(js, q, pkey, ckey).children, t, ckey);
    } else {
      assert ChildrenOf(js + [row], pkey(q), pkey) == s;
    }
  }

  /** One more row for a parent that already has an entry. */
  lemma GroupedStepKnown<P, C>(js: seq<Joined<P, C>>, row: Joined<P, C>, pkey: P -> int, ckey: C -> int)
    requires GroupIndex(Grouped(js, pkey, ckey), pkey(row.parent), pkey) < |Grouped(js, pkey, ckey)|
    ensures var g := Grouped(js, pkey, ckey);
            var j := GroupIndex(g, pkey(row.parent), pkey);
            Grouped(js + [row], pkey, ckey) == g[j := Absorb(g[j], row, ckey)]
  {
    var g := Grouped(js, pkey, ckey);
    var j := GroupIndex(g, pkey(row.parent), pkey);
    var dp := DistinctParents(js, pkey);
    var ks := KeysOf(dp, pkey);
    DistinctParentsStep(js, row, pkey);
    assert ks[j] == pkey(row.parent);
    assert DistinctParents(js + [row], pkey) == dp;
    var g' := Grouped(js + [row], pkey, ckey);
    forall m | 0 <= m < |g| ensures g'[m] == g[j := Absorb(g[j], row, ckey)][m] {
      GroupOfStep(js, row, dp[m], pkey, ckey);
      if m != j {
        assert ks[m] != ks[j];
      }
    }
  }

  /** One more row for a parent without an entry yet. */
  lemma GroupedStepNew<P, C>(js: seq<Joined<P, C>>, row: Joined<P, C>, pkey: P -> int, ckey: C -> int)
    requires GroupIndex(Grouped(js, pkey, ckey), pkey(row.parent), pkey) == |Grouped(js, pkey, ckey)|
    ensures Grouped(js + [row], pkey, ckey)
         == Grouped(js, pkey, ckey) + [Absorb(Group(row.parent, []), row, ckey)]
  {
    var g := Grouped(js, pkey, ckey);
    var dp := DistinctParents(js, pkey);
    var ks := KeysOf(dp, pkey);
    DistinctParentsStep(js, row, pkey);
    assert pkey(row.parent) !in ks by {
      forall m | 0 <= m < |ks| ensures ks[m] != pkey(row.parent) {
        assert g[m].parent == dp[m];
      }
    }
    assert DistinctParents(js + [row], pkey) == dp + [row.parent];
    var g' := Grouped(js + [row], pkey, ckey);
    forall m | 0 <= m < |g| ensures g'[m] == g[m] {
      GroupOfStep(js, row, dp[m], pkey, ckey);
    }
    NewParentGroup(js, row, pkey, ckey);
  }

  lemma NewParentGroup<P, C>(js: seq<Joined<P, C>>, row: Joined<P, C>, pkey: P -> int, ckey: C -> int)
    requires pkey(row.parent) !in KeysOf(DistinctParents(js, pkey), pkey)
    ensures GroupOf(js + [row], row.parent, pkey, ckey) == Absorb(Group(row.parent, []), row, ckey)
  {
    forall k | 0 <= k < |js| ensures pkey(js[k].parent) != pkey(row.parent) {
      assert pkey(Parents(js)[k]) in KeysOf(DistinctParents(js, pkey), pkey);
    }
    NoRowsNoChildren(js, pkey(row.parent), pkey);
    GroupOfStep(js, row, row.parent, pkey, ckey);
  }

  lemma {:induction false} NoRowsNoChildren<P, C>(js: seq<Joined<P, C>>, id: int, pkey: P -> int)
    requires forall k :: 0 <= k < |js| ==> pkey(js[k].parent) != id
    ensures ChildrenOf(js, id, pkey) == []
  {
    if |js| > 0 {
      NoRowsNoChildren(js[..|js| - 1], id, pkey);
    }
  }

  /** Folding the rows one at a time builds exactly the grouping. */
  lemma {:induction false} FoldRowsIsGrouped<P, C>(js: seq<Joined<P, C>>, pkey: P -> int, ckey: C -> int)
    ensures FoldRows(js, pkey, ckey) == Grouped(js, pkey, ckey)
  {
    if |js| == 0 {
      assert |Grouped(js, pkey, ckey)| == 0;
    } else {
      var init, last := js[..|js| - 1], js[|js| - 1];
      FoldRowsIsGrouped(init, pkey, ckey);
      assert js == init + [last];
      if GroupIndex(Grouped(init, pkey, ckey), pkey(last.parent), pkey) == |Grouped(init, pkey, ckey)| {
        GroupedStepNew(init, last, pkey, ckey);
      } else {
        GroupedStepKnown(init, last, pkey, ckey);
      }
    }
  }

  /** `if (!e.children.some(c => c.id === child.id)) e.children.push(child)` */
  method PushChild<P, C>(e: Group<P, C>, child: C, ckey: C -> int) returns (r: Group<P, C>)
    ensures r == Absorb(e, Joined(e.parent, Some(child)), ckey)
  {
    r := e;
    if ckey(child) !in KeysOf(r.children, ckey) {
      r := r.(children := r.children + [child]);
    }
  }

  /** The body of `forEach` for one row: open the parent's entry when the
      map lacks it, then push the row's child onto it unless the entry has
      a child with its id. */
  method AddRowInPlace<P, C>(g: seq<Group<P, C>>, row: Joined<P, C>, pkey: P -> int, ckey: C -> int)
    returns (g': seq<Group<P, C>>)
    ensures g' == AddRow(g, row, pkey, ckey)
  {
    var j := GroupIndex(g, pkey(row.parent), pkey);
    g' := g;
    if j == |g'| {
      g' := g' + [Group(row.parent, [])];
    }
    if row.child.Some? {
      var e := PushChild(g'[j], row.child.value, ckey);
      g' := g'[j := e];
    }
  }

  /** `rows.forEach(...)` followed by `Array.from(map.values())`. */
  method FoldInPlace<P, C>(js: seq<Joined<P, C>>, pkey: P -> int, ckey: C -> int)
    returns (g: seq<Group<P, C>>)
    ensures g == Grouped(js, pkey, ckey)
  {
    g := [];
    var i := 0;
    while i < |js|
      invariant 0 <= i <= |js|
      invariant g == FoldRows(js[..i], pkey, ckey)
    {
      assert js[..i + 1] == js[..i] + [js[i]];
      FoldRowsSnoc(js[..i], js[i], pkey, ckey);
      g := AddRowInPlace(g, js[i], pkey, ckey);
      i := i + 1;
    }
    assert js[..i] == js;
    FoldRowsIsGrouped(js, pkey, ckey);
  }
}
