/**
 * Grouping single-category skills into a record keyed by category: for each
 * skill in order, create the category's list if it is missing, then push the
 * skill onto it. The record is modelled as its list of keys, the categories
 * in order of first appearance, each with its bucket. A JavaScript object
 * would enumerate integer-like keys first in ascending order, and a category
 * named like an inherited member (`constructor`, `toString`, `__proto__`)
 * finds that member instead of a missing list, so the `push` throws; neither
 * is captured here.
 */
module CategoryGroups {
  import opened Seqs
  import opened Schema
  import Text

  /** The distinct categories of `ss`, in order of first appearance. */
  function CategoryOrder(ss: seq<Skill>): (r: seq<string>)
    ensures forall i, j :: 0 <= i < j < |r| ==> r[i] != r[j]
    ensures forall c :: c in r <==> exists k :: 0 <= k < |ss| && ss[k].category == c
  {
    if |ss| == 0 then []
    else
      var init := ss[..|ss| - 1];
      var prev := CategoryOrder(init);
      var c := ss[|ss| - 1].category;
      assert forall k :: 0 <= k < |init| ==> init[k] == ss[k];
      if c in prev then prev else prev + [c]
  }

  /** The skills of category `c`, in input order. */
  function InCategory(ss: seq<Skill>, c: string): (r: seq<Skill>)
    ensures forall i :: 0 <= i < |r| ==> r[i].category == c && r[i] in ss
    ensures forall k :: 0 <= k < |ss| && ss[k].category == c ==> ss[k] in r
  {
    Filter(ss, (s: Skill) => s.category == c)
  }

  lemma InCategoryStep(ss: seq<Skill>, i: int, c: string)
    requires 0 <= i < |ss|
    ensures InCategory(ss[..i + 1], c)
         == InCategory(ss[..i], c) + (if ss[i].category == c then [ss[i]] else [])
  {
    assert ss[..i + 1][..i] == ss[..i];
  }

  lemma CategoryOrderStep(ss: seq<Skill>, i: int)
    requires 0 <= i < |ss|
    ensures CategoryOrder(ss[..i + 1])
         == if ss[i].category in CategoryOrder(ss[..i]) then CategoryOrder(ss[..i])
            else CategoryOrder(ss[..i]) + [ss[i].category]
  {
    assert ss[..i + 1][..i] == ss[..i];
  }

  /** A category with a skill in it is among the keys. */
  lemma NonEmptyGroupHasKey(ss: seq<Skill>, c: string)
    ensures |InCategory(ss, c)| > 0 ==> c in CategoryOrder(ss)
  {
    var r := InCategory(ss, c);
    if |r| > 0 {
      var k :| 0 <= k < |ss| && ss[k] == r[0];
    }
  }

  /** `keys` and `groups` are the record built from `prefix`. */
  ghost predicate Grouped(prefix: seq<Skill>, keys: seq<string>, groups: map<string, seq<Skill>>)
  {
    && keys == CategoryOrder(prefix)
    && (forall c :: c in groups <==> c in keys)
    && forall c :: c in groups ==> groups[c] == InCategory(prefix, c)
  }

  lemma GroupedStep(ss: seq<Skill>, i: int, keys: seq<string>, groups: map<string, seq<Skill>>,
                    keys': seq<string>, groups': map<string, seq<Skill>>)
    requires 0 <= i < |ss| && Grouped(ss[..i], keys, groups)
    requires var c := ss[i].category;
      && keys' == (if c in groups then keys else keys + [c])
      && groups' == groups[c := (if c in groups then groups[c] else []) + [ss[i]]]
    ensures Grouped(ss[..i + 1], keys', groups')
  {
    CategoryOrderStep(ss, i);
    GroupsStep(ss, i, groups, groups');
  }

  lemma GroupsStep(ss: seq<Skill>, i: int, groups: map<string, seq<Skill>>, groups': map<string, seq<Skill>>)
    requires 0 <= i < |ss|
    requires forall c :: c in groups ==> groups[c] == InCategory(ss[..i], c)
    requires forall c :: c in groups <==> c in CategoryOrder(ss[..i])
    requires var c := ss[i].category;
      groups' == groups[c := (if c in groups then groups[c] else []) + [ss[i]]]
    ensures forall d :: d in groups' ==> groups'[d] == InCategory(ss[..i + 1], d)
  {
    var c := ss[i].category;
    if c !in groups {
      NonEmptyGroupHasKey(ss[..i], c);
    }
    forall d | d in groups' ensures groups'[d] == InCategory(ss[..i + 1], d) {
      InCategoryStep(ss, i, d);
    }
  }

  /** Groups `ss` by category; `keys` is the key order of the record. */
  method GroupByCategory(ss: seq<Skill>) returns (keys: seq<string>, groups: map<string, seq<Skill>>)
    ensures keys == CategoryOrder(ss)
    ensures forall c :: c in groups <==> c in keys
    ensures forall c :: c in groups ==> groups[c] == InCategory(ss, c)
  {
    keys, groups := [], map[];
    var i := 0;
    while i < |ss|
      invariant 0 <= i <= |ss|
      invariant Grouped(ss[..i], keys, groups)
    {
      ghost var keys0, groups0 := keys, groups;
      var c := ss[i].category;
      if c !in groups {
        groups := groups[c := []];
        keys := keys + [c];
      }
      groups := groups[c := groups[c] + [ss[i]]];
      GroupedStep(ss, i, keys0, groups0, keys, groups);
      i := i + 1;
    }
    assert ss[..i] == ss;
  }

  /** Every skill lies in the group of its own category and in no other. */
  lemma SkillInOwnGroupOnly(ss: seq<Skill>, k: int, c: string)
    requires 0 <= k < |ss|
    ensures ss[k] in InCategory(ss, c) <==> c == ss[k].category
  {
    if ss[k] in InCategory(ss, c) {
      var r := InCategory(ss, c);
      var m :| 0 <= m < |r| && r[m] == ss[k];
    }
  }

  /** Every group that exists is non-empty. */
  lemma GroupsNonEmpty(ss: seq<Skill>, c: string)
    requires c in CategoryOrder(ss)
    ensures |InCategory(ss, c)| > 0
  {
    var k :| 0 <= k < |ss| && ss[k].category == c;
    assert ss[k] in InCategory(ss, c);
  }

  /** Each group keeps the input order: it is a subsequence of the input. */
  lemma GroupIsSubseq(ss: seq<Skill>, c: string)
    ensures IsSubseq(InCategory(ss, c), ss)
  {
    FilterIsSubseq(ss, (s: Skill) => s.category == c);
  }

  /** The sum of the sizes of the groups named in `ks`. */
  function GroupSizes(ss: seq<Skill>, ks: seq<string>): nat
  {
    if |ks| == 0 then 0 else |InCategory(ss, ks[0])| + GroupSizes(ss, ks[1..])
  }

  function Occurrences(ks: seq<string>, c: string): nat
  {
    if |ks| == 0 then 0 else (if ks[0] == c then 1 else 0) + Occurrences(ks[1..], c)
  }

  lemma {:induction false} OccursOnce(ks: seq<string>, c: string)
    requires c in ks
    requires forall i, j :: 0 <= i < j < |ks| ==> ks[i] != ks[j]
    ensures Occurrences(ks, c) == 1
  {
    if ks[0] == c {
      OccursNever(ks[1..], c);
    } else {
      OccursOnce(ks[1..], c);
    }
  }

  lemma {:induction false} OccursNever(ks: seq<string>, c: string)
    requires c !in ks
    ensures Occurrences(ks, c) == 0
  {
    if |ks| > 0 {
      OccursNever(ks[1..], c);
    }
  }

  lemma {:induction false} GroupSizesStep(ss: seq<Skill>, ks: seq<string>)
    requires |ss| > 0
    ensures GroupSizes(ss, ks)
         == GroupSizes(ss[..|ss| - 1], ks) + Occurrences(ks, ss[|ss| - 1].category)
  {
    if |ks| > 0 {
      InCategoryStep(ss, |ss| - 1, ks[0]);
      assert ss[..|ss|] == ss;
      GroupSizesStep(ss, ks[1..]);
    }
  }

  /** Counting every group named in a duplicate-free list that covers all
      categories counts every skill exactly once. */
  lemma {:induction false} GroupSizesTotal(ss: seq<Skill>, ks: seq<string>)
    requires forall i, j :: 0 <= i < j < |ks| ==> ks[i] != ks[j]
    requires forall k :: 0 <= k < |ss| ==> ss[k].category in ks
    ensures GroupSizes(ss, ks) == |ss|
  {
    if |ss| == 0 {
      GroupSizesEmpty(ks);
    } else {
      var init := ss[..|ss| - 1];
      assert forall k :: 0 <= k < |init| ==> init[k] == ss[k];
      GroupSizesTotal(init, ks);
      GroupSizesStep(ss, ks);
      OccursOnce(ks, ss[|ss| - 1].category);
    }
  }

  lemma {:induction false} GroupSizesEmpty(ks: seq<string>)
    ensures GroupSizes([], ks) == 0
  {
    if |ks| > 0 {
      GroupSizesEmpty(ks[1..]);
    }
  }

  /** The group sizes add up to the number of skills. */
  lemma SizesSumToCount(ss: seq<Skill>)
    ensures GroupSizes(ss, CategoryOrder(ss)) == |ss|
  {
    GroupSizesTotal(ss, CategoryOrder(ss));
  }

  /** `ORDER BY category, name`: the order the skills endpoint requests. */
  predicate CategoryThenName(a: Skill, b: Skill)
  {
    (Text.StrLe(a.category, b.category) && a.category != b.category)
    || (a.category == b.category && Text.StrLe(a.name, b.name))
  }

  /** Input sorted by category then name gives groups sorted by name. */
  lemma GroupsSortedByName(ss: seq<Skill>, c: string)
    requires SortedBy(ss, CategoryThenName)
    ensures forall i, j :: 0 <= i < j < |InCategory(ss, c)| ==>
              Text.StrLe(InCategory(ss, c)[i].name, InCategory(ss, c)[j].name)
  {
    GroupIsSubseq(ss, c);
    SubseqSorted(InCategory(ss, c), ss, CategoryThenName);
  }
}
