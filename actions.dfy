/**
 * The server actions: the mutations of the store behind the dashboard.
 * `Store` holds the three tables and the two `serial` counters; each action
 * is a method that changes them in the order the action issues its
 * statements, and keeps the table constraints of `Schema.Consistent`
 * (including the foreign keys, which have no cascading delete).
 *
 * An insert that would break a `unique` column is rejected by the database
 * and the action throws; the model answers `None` and leaves the table as
 * it was. `new Date(...)` and the column default `now()` are parameters.
 */
module Actions {
  import opened Wrappers
  import opened Seqs
  import opened Schema
  import JsonStrings
  import Http

  // ------------------------------------------------------------- inputs

  /** The argument of `createProject`; `date` is already parsed. */
  datatype ProjectInput = ProjectInput(
    title: string,
    slug: string,
    company: string,
    description: string,
    caseStudy: string,
    date: Timestamp,
    githubUrl: Option<string>,
    demoUrl: Option<string>,
    imageUrl: Option<string>,
    featured: int)

  /** The argument of `createSkill`. */
  datatype SkillInput = SkillInput(
    name: string,
    categories: seq<string>,
    level: int,
    icon: Option<string>,
    color: Option<string>)

  /** `value || null`: an absent or empty string is stored as null. */
  function OrNull(v: Option<string>): (r: Option<string>)
    ensures r.Some? <==> Http.Truthy(v)
    ensures r.Some? ==> r == v && r.value != ""
  {
    if Http.Truthy(v) then v else None
  }

  // ---------------------------------------------------------- deletions

  /** `ne(projectsToSkills.projectId, id)`: the links a project delete keeps. */
  function NotLinkedToProject(id: int): ProjectToSkill -> bool
  {
    (a: ProjectToSkill) => a.projectId != id
  }

  /** `ne(projectsToSkills.skillId, id)`: the links a skill delete keeps. */
  function NotLinkedToSkill(id: int): ProjectToSkill -> bool
  {
    (a: ProjectToSkill) => a.skillId != id
  }

  /** `ne(projects.id, id)` */
  function NotProject(id: int): Project -> bool
  {
    (p: Project) => p.id != id
  }

  /** `ne(skills.id, id)` */
  function NotSkill(id: int): SkillRow -> bool
  {
    (s: SkillRow) => s.id != id
  }

  /** A filter keeps exactly the elements that satisfy the predicate. */
  lemma FilterMembers<T>(s: seq<T>, p: T -> bool)
    ensures forall x :: x in Filter(s, p) <==> x in s && p(x)
  {
    forall x | x in s && p(x) ensures x in Filter(s, p) {
      var k :| 0 <= k < |s| && s[k] == x;
    }
  }

  /** A key of a kept element is a key of the filtered sequence. */
  lemma KeptKey<T>(s: seq<T>, p: T -> bool, key: T -> int, k: int)
    requires 0 <= k < |s| && p(s[k])
    ensures key(s[k]) in KeysOf(Filter(s, p), key)
  {
    var f := Filter(s, p);
    assert s[k] in f;
    var m :| 0 <= m < |f| && f[m] == s[k];
    assert KeysOf(f, key)[m] == key(s[k]);
  }

  /** Deleting a project's links, then the project, keeps the constraints
      after each step. */
  lemma DeleteProjectConsistent(ps: seq<Project>, ss: seq<SkillRow>, assoc: seq<ProjectToSkill>, id: int)
    requires Consistent(ps, ss, assoc)
    ensures Consistent(ps, ss, Filter(assoc, NotLinkedToProject(id)))
    ensures Consistent(Filter(ps, NotProject(id)), ss, Filter(assoc, NotLinkedToProject(id)))
  {
    var assoc', ps' := Filter(assoc, NotLinkedToProject(id)), Filter(ps, NotProject(id));
    assert ReferencesExist(assoc', ps, ss) by {
      forall k | 0 <= k < |assoc'|
        ensures assoc'[k].projectId in KeysOf(ps, ProjectId) && assoc'[k].skillId in KeysOf(ss, SkillRowId)
      {
        var m :| 0 <= m < |assoc| && assoc[m] == assoc'[k];
      }
    }
    assert ReferencesExist(assoc', ps', ss) by {
      forall k | 0 <= k < |assoc'| ensures assoc'[k].projectId in KeysOf(ps', ProjectId) {
        var m :| 0 <= m < |ps| && KeysOf(ps, ProjectId)[m] == assoc'[k].projectId;
        KeptKey(ps, NotProject(id), ProjectId, m);
      }
    }
    FilterIsSubseq(ps, NotProject(id));
    SubseqDistinctProjects(ps', ps);
  }

  /** Afterwards nothing refers to `id`, and every other project and link
      is still there, in its order. */
  lemma DeleteProjectRemovesOnly(ps: seq<Project>, assoc: seq<ProjectToSkill>, id: int)
    ensures forall a :: a in Filter(assoc, NotLinkedToProject(id)) <==> a in assoc && a.projectId != id
    ensures forall p :: p in Filter(ps, NotProject(id)) <==> p in ps && p.id != id
    ensures IsSubseq(Filter(assoc, NotLinkedToProject(id)), assoc)
    ensures IsSubseq(Filter(ps, NotProject(id)), ps)
  {
    FilterMembers(assoc, NotLinkedToProject(id));
    FilterMembers(ps, NotProject(id));
    FilterIsSubseq(assoc, NotLinkedToProject(id));
    FilterIsSubseq(ps, NotProject(id));
  }

  /** Deleting a skill's links, then the skill: the same as for projects. */
  lemma DeleteSkillConsistent(ps: seq<Project>, ss: seq<SkillRow>, assoc: seq<ProjectToSkill>, id: int)
    requires Consistent(ps, ss, assoc)
    ensures Consistent(ps, ss, Filter(assoc, NotLinkedToSkill(id)))
    ensures Consistent(ps, Filter(ss, NotSkill(id)), Filter(assoc, NotLinkedToSkill(id)))
  {
    var assoc', ss' := Filter(assoc, NotLinkedToSkill(id)), Filter(ss, NotSkill(id));
    assert ReferencesExist(assoc', ps, ss) by {
      forall k | 0 <= k < |assoc'|
        ensures assoc'[k].projectId in KeysOf(ps, ProjectId) && assoc'[k].skillId in KeysOf(ss, SkillRowId)
      {
        var m :| 0 <= m < |assoc| && assoc[m] == assoc'[k];
      }
    }
    assert ReferencesExist(assoc', ps, ss') by {
      forall k | 0 <= k < |assoc'| ensures assoc'[k].skillId in KeysOf(ss', SkillRowId) {
        var m :| 0 <= m < |ss| && KeysOf(ss, SkillRowId)[m] == assoc'[k].skillId;
        KeptKey(ss, NotSkill(id), SkillRowId, m);
      }
    }
    FilterIsSubseq(ss, NotSkill(id));
    SubseqDistinctSkills(ss', ss);
  }

  /** Afterwards nothing refers to `id`, and every other skill and link is
      still there, in its order. */
  lemma DeleteSkillRemovesOnly(ss: seq<SkillRow>, assoc: seq<ProjectToSkill>, id: int)
    ensures forall a :: a in Filter(assoc, NotLinkedToSkill(id)) <==> a in assoc && a.skillId != id
    ensures forall s :: s in Filter(ss, NotSkill(id)) <==> s in ss && s.id != id
    ensures IsSubseq(Filter(assoc, NotLinkedToSkill(id)), assoc)
    ensures IsSubseq(Filter(ss, NotSkill(id)), ss)
  {
    FilterMembers(assoc, NotLinkedToSkill(id));
    FilterMembers(ss, NotSkill(id));
    FilterIsSubseq(assoc, NotLinkedToSkill(id));
    FilterIsSubseq(ss, NotSkill(id));
  }

  /** Deleting a skill keeps every remaining category text well formed. */
  lemma DeleteSkillKeepsCategories(ss: seq<SkillRow>, id: int)
    requires CategoriesWellFormed(ss)
    ensures CategoriesWellFormed(Filter(ss, NotSkill(id)))
  {
    FilterIsSubseq(ss, NotSkill(id));
    CategoriesSubseq(Filter(ss, NotSkill(id)), ss);
  }

  lemma {:induction false} SubseqDistinctProjects(a: seq<Project>, b: seq<Project>)
    requires IsSubseq(a, b) && ProjectKeysUnique(b)
    ensures ProjectKeysUnique(a)
    decreases |b|
  {
    if |a| > 0 && |b| > 0 {
      var ai, bi := a[..|a| - 1], b[..|b| - 1];
      assert ProjectKeysUnique(bi);
      if a[|a| - 1] == b[|b| - 1] {
        SubseqDistinctProjects(ai, bi);
        SubseqMembers(ai, bi);
        forall i | 0 <= i < |ai| ensures ai[i].id != a[|a| - 1].id && ai[i].slug != a[|a| - 1].slug {
          assert ai[i] in bi;
        }
      } else {
        SubseqDistinctProjects(a, bi);
      }
    }
  }

  lemma {:induction false} SubseqDistinctSkills(a: seq<SkillRow>, b: seq<SkillRow>)
    requires IsSubseq(a, b) && SkillKeysUnique(b)
    ensures SkillKeysUnique(a)
    decreases |b|
  {
    if |a| > 0 && |b| > 0 {
      var ai, bi := a[..|a| - 1], b[..|b| - 1];
      assert SkillKeysUnique(bi);
      if a[|a| - 1] == b[|b| - 1] {
        SubseqDistinctSkills(ai, bi);
        SubseqMembers(ai, bi);
        forall i | 0 <= i < |ai| ensures ai[i].id != a[|a| - 1].id && ai[i].name != a[|a| - 1].name {
          assert ai[i] in bi;
        }
      } else {
        SubseqDistinctSkills(a, bi);
      }
    }
  }

  /** The other order is refused by the foreign key: deleting a project that
      still has a link leaves that link pointing at no project. */
  lemma ProjectFirstBreaksReferences(ps: seq<Project>, ss: seq<SkillRow>, assoc: seq<ProjectToSkill>, k: int)
    requires 0 <= k < |assoc|
    ensures !ReferencesExist(assoc, Filter(ps, NotProject(assoc[k].projectId)), ss)
  {
    var id := assoc[k].projectId;
    var ps' := Filter(ps, NotProject(id));
    assert id !in KeysOf(ps', ProjectId) by {
      forall m | 0 <= m < |ps'| ensures KeysOf(ps', ProjectId)[m] != id {
        assert NotProject(id)(ps'[m]);
      }
    }
  }

  /** The same for a skill that still has a link. */
  lemma SkillFirstBreaksReferences(ps: seq<Project>, ss: seq<SkillRow>, assoc: seq<ProjectToSkill>, k: int)
    requires 0 <= k < |assoc|
    ensures !ReferencesExist(assoc, ps, Filter(ss, NotSkill(assoc[k].skillId)))
  {
    var id := assoc[k].skillId;
    var ss' := Filter(ss, NotSkill(id));
    assert id !in KeysOf(ss', SkillRowId) by {
      forall m | 0 <= m < |ss'| ensures KeysOf(ss', SkillRowId)[m] != id {
        assert NotSkill(id)(ss'[m]);
      }
    }
  }

  // ------------------------------------------------------ category rename

  /** `categories.map(cat => cat === oldName ? newName : cat)` */
  function RenameIn(cats: seq<string>, oldName: string, newName: string): (r: seq<string>)
    ensures |r| == |cats|
  {
    if |cats| == 0 then [] else
      [if cats[0] == oldName then newName else cats[0]] + RenameIn(cats[1..], oldName, newName)
  }

  /** Each entry is replaced when it is the old name and kept otherwise. */
  lemma {:induction false} RenameInAt(cats: seq<string>, oldName: string, newName: string, i: int)
    requires 0 <= i < |cats|
    ensures RenameIn(cats, oldName, newName)[i] == if cats[i] == oldName then newName else cats[i]
  {
    if i > 0 {
      RenameInAt(cats[1..], oldName, newName, i - 1);
    }
  }

  /** After the rename a name is in the list exactly when it is the new
      name and the old one was there, or it was there and is not the old
      name. */
  lemma RenameMembers(cats: seq<string>, oldName: string, newName: string, x: string)
    ensures x in RenameIn(cats, oldName, newName)
        <==> (x == newName && oldName in cats) || (x != oldName && x in cats)
  {
    var r := RenameIn(cats, oldName, newName);
    if x in r {
      var i :| 0 <= i < |r| && r[i] == x;
      RenameInAt(cats, oldName, newName, i);
    }
    if x == newName && oldName in cats {
      var i :| 0 <= i < |cats| && cats[i] == oldName;
      RenameInAt(cats, oldName, newName, i);
    }
    if x != oldName && x in cats {
      var i :| 0 <= i < |cats| && cats[i] == x;
      RenameInAt(cats, oldName, newName, i);
    }
  }

  /** A list without the old name is left as it is, and renaming twice
      is renaming once. */
  lemma RenameStable(cats: seq<string>, oldName: string, newName: string)
    ensures oldName !in cats ==> RenameIn(cats, oldName, newName) == cats
    ensures RenameIn(RenameIn(cats, oldName, newName), oldName, newName) == RenameIn(cats, oldName, newName)
  {
    var r := RenameIn(cats, oldName, newName);
    var rr := RenameIn(r, oldName, newName);
    forall i | 0 <= i < |cats| ensures r[i] == (if cats[i] == oldName then newName else cats[i]) {
      RenameInAt(cats, oldName, newName, i);
    }
    forall i | 0 <= i < |r| ensures rr[i] == r[i] {
      RenameInAt(r, oldName, newName, i);
    }
  }

  /** `s.map(f)` where `f` may throw: every result, or `None` as soon as
      one application fails. */
  function MapAll<T, U>(s: seq<T>, f: T -> Option<U>): (r: Option<seq<U>>)
    ensures r.Some? ==> |r.value| == |s|
  {
    if |s| == 0 then Some([])
    else
      match MapAll(s[..|s| - 1], f)
      case None => None
      case Some(us) =>
        match f(s[|s| - 1])
        case None => None
        case Some(u) => Some(us + [u])
  }

  /** The map succeeds exactly when every application does, and then
      holds the results in order. */
  lemma {:induction false} MapAllAt<T, U>(s: seq<T>, f: T -> Option<U>, k: int)
    requires 0 <= k < |s|
    ensures MapAll(s, f).Some? ==> f(s[k]) == Some(MapAll(s, f).value[k])
    ensures f(s[k]).None? ==> MapAll(s, f).None?
  {
    if k < |s| - 1 {
      MapAllAt(s[..|s| - 1], f, k);
    }
  }

  /** Mapping one more element extends the results or fails. */
  lemma MapAllStep<T, U>(s: seq<T>, f: T -> Option<U>, i: int, us: seq<U>)
    requires 0 <= i < |s| && MapAll(s[..i], f) == Some(us)
    ensures MapAll(s[..i + 1], f) == if f(s[i]).None? then None else Some(us + [f(s[i]).value])
  {
    assert s[..i + 1][..i] == s[..i];
  }

  /** `JSON.parse(skill.categories)` */
  function ParseCategories(): SkillRow -> Option<seq<string>>
  {
    (row: SkillRow) => JsonStrings.Decode(row.categories)
  }

  /** Every skill's list, or `None` when some text does not parse. */
  function ParseAll(ss: seq<SkillRow>): (r: Option<seq<seq<string>>>)
    ensures r.Some? ==> |r.value| == |ss|
  {
    MapAll(ss, ParseCategories())
  }

  /** Every text parses exactly when the table is well formed. */
  lemma {:induction false} ParseAllWellFormed(ss: seq<SkillRow>)
    ensures ParseAll(ss).Some? <==> CategoriesWellFormed(ss)
  {
    if |ss| > 0 {
      ParseAllWellFormed(ss[..|ss| - 1]);
    }
  }

  /** The k-th list is the k-th skill's text parsed. */
  lemma ParseAllAt(ss: seq<SkillRow>, k: int)
    requires ParseAll(ss).Some? && 0 <= k < |ss|
    ensures JsonStrings.Decode(ss[k].categories) == Some(ParseAll(ss).value[k])
  {
    MapAllAt(ss, ParseCategories(), k);
  }

  /** One skill after the rename, given its parsed list: the list rewritten
      and stored again as JSON text when it holds the old name, the row
      untouched otherwise. */
  function RenameRow(row: SkillRow, cats: seq<string>, oldName: string, newName: string): SkillRow
  {
    if oldName in cats then row.(categories := JsonStrings.Encode(RenameIn(cats, oldName, newName)))
    else row
  }

  /** The skill table after the rename, given every skill's parsed list. */
  function RenamedRows(ss: seq<SkillRow>, lists: seq<seq<string>>, oldName: string, newName: string): (r: seq<SkillRow>)
    requires |lists| == |ss|
    ensures |r| == |ss|
  {
    if |ss| == 0 then []
    else RenamedRows(ss[..|ss| - 1], lists[..|ss| - 1], oldName, newName)
         + [RenameRow(ss[|ss| - 1], lists[|ss| - 1], oldName, newName)]
  }

  lemma {:induction false} RenamedRowsAt(ss: seq<SkillRow>, lists: seq<seq<string>>, oldName: string, newName: string, k: int)
    requires |lists| == |ss| && 0 <= k < |ss|
    ensures RenamedRows(ss, lists, oldName, newName)[k] == RenameRow(ss[k], lists[k], oldName, newName)
  {
    if k < |ss| - 1 {
      RenamedRowsAt(ss[..|ss| - 1], lists[..|ss| - 1], oldName, newName, k);
    }
  }

  /** Renaming one more skill appends its renamed row, and counts it when
      its list holds the old name. */
  lemma RenameStep(ss: seq<SkillRow>, lists: seq<seq<string>>, oldName: string, newName: string, i: int)
    requires |lists| == |ss| && 0 <= i < |ss|
    ensures RenamedRows(ss[..i + 1], lists[..i + 1], oldName, newName)
            == RenamedRows(ss[..i], lists[..i], oldName, newName) + [RenameRow(ss[i], lists[i], oldName, newName)]
    ensures CountWithCategory(lists[..i + 1], oldName)
            == CountWithCategory(lists[..i], oldName) + if oldName in lists[i] then 1 else 0
  {
    assert ss[..i + 1][..i] == ss[..i] && lists[..i + 1][..i] == lists[..i];
  }

  /** Each renamed skill keeps its id, name, level, icon, colour and
      creation time; its text reads back as its old list with the old name
      replaced; a skill whose list lacks the old name is unchanged. */
  lemma RenamedReadsBack(ss: seq<SkillRow>, oldName: string, newName: string, k: int)
    requires ParseAll(ss).Some? && 0 <= k < |ss|
    ensures var lists := ParseAll(ss).value;
            var row, row' := ss[k], RenamedRows(ss, lists, oldName, newName)[k];
            row' == row.(categories := row'.categories)
            && JsonStrings.Decode(row'.categories) == Some(RenameIn(lists[k], oldName, newName))
            && (oldName !in lists[k] ==> row' == row)
  {
    var lists := ParseAll(ss).value;
    RenamedRowsAt(ss, lists, oldName, newName, k);
    ParseAllAt(ss, k);
    RenameStable(lists[k], oldName, newName);
    JsonStrings.DecodeEncode(RenameIn(lists[k], oldName, newName));
  }

  /** The rename keeps every skill's id and name. */
  lemma RenamedKeys(ss: seq<SkillRow>, lists: seq<seq<string>>, oldName: string, newName: string)
    requires |lists| == |ss|
    ensures var ss' := RenamedRows(ss, lists, oldName, newName);
            forall k :: 0 <= k < |ss| ==> ss'[k].id == ss[k].id && ss'[k].name == ss[k].name
  {
    var ss' := RenamedRows(ss, lists, oldName, newName);
    forall k | 0 <= k < |ss| ensures ss'[k].id == ss[k].id && ss'[k].name == ss[k].name {
      RenamedRowsAt(ss, lists, oldName, newName, k);
    }
  }

  /** The rename keeps the table constraints, and every id stays below
      `bound` when it was. */
  lemma RenamedRowsConsistent(ps: seq<Project>, ss: seq<SkillRow>, assoc: seq<ProjectToSkill>,
                              lists: seq<seq<string>>, oldName: string, newName: string, bound: int)
    requires |lists| == |ss| && Consistent(ps, ss, assoc)
    requires forall s :: s in ss ==> s.id < bound
    ensures Consistent(ps, RenamedRows(ss, lists, oldName, newName), assoc)
    ensures forall s :: s in RenamedRows(ss, lists, oldName, newName) ==> s.id < bound
  {
    var ss' := RenamedRows(ss, lists, oldName, newName);
    RenamedKeys(ss, lists, oldName, newName);
    SameKeysConsistent(ps, ss, ss', assoc);
    forall s | s in ss' ensures s.id < bound {
      var k :| 0 <= k < |ss'| && ss'[k] == s;
      assert ss[k] in ss;
    }
  }

  /** A skill table with the same ids and names, row by row, meets the
      same constraints. */
  lemma SameKeysConsistent(ps: seq<Project>, ss: seq<SkillRow>, ss': seq<SkillRow>, assoc: seq<ProjectToSkill>)
    requires Consistent(ps, ss, assoc) && |ss'| == |ss|
    requires forall k :: 0 <= k < |ss| ==> ss'[k].id == ss[k].id && ss'[k].name == ss[k].name
    ensures Consistent(ps, ss', assoc)
  {
    assert KeysOf(ss', SkillRowId) == KeysOf(ss, SkillRowId);
  }

  /** The rename writes only text that parses. */
  lemma {:induction false} RenamedRowsParse(ss: seq<SkillRow>, oldName: string, newName: string)
    requires ParseAll(ss).Some?
    ensures CategoriesWellFormed(RenamedRows(ss, ParseAll(ss).value, oldName, newName))
  {
    if |ss| > 0 {
      var init, last := ss[..|ss| - 1], ss[|ss| - 1];
      var lists := ParseAll(ss).value;
      assert ParseAll(init).Some? && lists[..|ss| - 1] == ParseAll(init).value;
      RenamedRowsParse(init, oldName, newName);
      JsonStrings.DecodeEncode(RenameIn(lists[|ss| - 1], oldName, newName));
      CategoriesAppend(RenamedRows(init, lists[..|ss| - 1], oldName, newName),
                       RenameRow(last, lists[|ss| - 1], oldName, newName));
    }
  }

  /** How many skills the rename updates (`updatePromises.length`). */
  function CountWithCategory(lists: seq<seq<string>>, name: string): (r: nat)
    ensures r <= |lists|
  {
    if |lists| == 0 then 0
    else CountWithCategory(lists[..|lists| - 1], name) + (if name in lists[|lists| - 1] then 1 else 0)
  }

  /** `categories.includes(name)` */
  function Includes(name: string): seq<string> -> bool
  {
    (cats: seq<string>) => name in cats
  }

  /** The count is the length of the filtered list the updates are made from. */
  lemma {:induction false} CountIsFilterLength(lists: seq<seq<string>>, name: string)
    ensures CountWithCategory(lists, name) == |Filter(lists, Includes(name))|
  {
    if |lists| > 0 {
      CountIsFilterLength(lists[..|lists| - 1], name);
    }
  }

  // -------------------------------------------------------------- store

  /** The three tables and the next value of each `serial` id. */
  class Store {
    var projects: seq<Project>
    var skills: seq<SkillRow>
    var assoc: seq<ProjectToSkill>
    var nextProjectId: int
    var nextSkillId: int

    /** The table constraints, and every id below its counter. */
    ghost predicate Valid()
      reads this
    {
      && Consistent(projects, skills, assoc)
      && (forall p :: p in projects ==> p.id < nextProjectId)
      && (forall s :: s in skills ==> s.id < nextSkillId)
    }

    constructor ()
      ensures Valid() && projects == [] && skills == [] && assoc == []
    {
      projects, skills, assoc := [], [], [];
      nextProjectId, nextSkillId := 1, 1;
    }

    /** `createProject`: inserts the row and returns it; `None` when the
        slug is taken. The counter advances either way, as a sequence
        does. */
    method CreateProject(data: ProjectInput, now: Timestamp) returns (r: Option<Project>)
      requires Valid()
      modifies this
      ensures Valid()
      ensures skills == old(skills) && assoc == old(assoc) && nextSkillId == old(nextSkillId)
      ensures nextProjectId == old(nextProjectId) + 1
      ensures r.None? <==> exists k :: 0 <= k < |old(projects)| && old(projects)[k].slug == data.slug
      ensures r.None? ==> projects == old(projects)
      ensures r.Some? ==>
                var p := r.value;
                projects == old(projects) + [p]
                && p.id == old(nextProjectId) && p.title == data.title && p.slug == data.slug
                && p.company == data.company && p.description == data.description
                && p.caseStudy == Some(data.caseStudy) && p.date == Some(data.date)
                && p.githubUrl == OrNull(data.githubUrl) && p.demoUrl == OrNull(data.demoUrl)
                && p.imageUrl == OrNull(data.imageUrl)
                && p.featured == Some(data.featured) && p.createdAt == Some(now)
    {
      var id := nextProjectId;
      nextProjectId := nextProjectId + 1;
      var i := 0;
      while i < |projects|
        invariant 0 <= i <= |projects|
        invariant forall k :: 0 <= k < i ==> projects[k].slug != data.slug
      {
        if projects[i].slug == data.slug {
          return None;
        }
        i := i + 1;
      }
      var p := Project(id, data.title, data.slug, data.company, Some(data.date), data.description,
                       OrNull(data.githubUrl), OrNull(data.demoUrl), OrNull(data.imageUrl),
                       Some(data.caseStudy), Some(data.featured), Some(now));
      AppendProjectConsistent(projects, skills, assoc, p);
      projects := projects + [p];
      return Some(p);
    }

    /** `deleteProject`: the project's links first, then the project. */
    method DeleteProject(id: int)
      requires Valid()
      modifies this
      ensures Valid()
      ensures assoc == Filter(old(assoc), NotLinkedToProject(id))
      ensures projects == Filter(old(projects), NotProject(id))
      ensures skills == old(skills)
      ensures nextProjectId == old(nextProjectId) && nextSkillId == old(nextSkillId)
    {
      DeleteProjectConsistent(projects, skills, assoc, id);
      FilterMembers(projects, NotProject(id));
      assoc := Filter(assoc, NotLinkedToProject(id));
      projects := Filter(projects, NotProject(id));
    }

    /** `createSkill`: stores the list as JSON text and returns the row with
        the text parsed back; `None` when the name is taken. */
    method CreateSkill(data: SkillInput, now: Timestamp) returns (r: Option<TaggedSkill>)
      requires Valid()
      modifies this
      ensures Valid()
      ensures projects == old(projects) && assoc == old(assoc) && nextProjectId == old(nextProjectId)
      ensures nextSkillId == old(nextSkillId) + 1
      ensures r.None? <==> exists k :: 0 <= k < |old(skills)| && old(skills)[k].name == data.name
      ensures r.None? ==> skills == old(skills)
      ensures r.Some? ==>
                var s := r.value;
                skills == old(skills) + [SkillRow(s.id, s.name, JsonStrings.Encode(data.categories),
                                                  s.level, s.icon, s.color, s.createdAt)]
                && s.id == old(nextSkillId) && s.name == data.name
                && s.categories == data.categories && s.level == data.level
                && s.icon == OrNull(data.icon) && s.color == OrNull(data.color)
                && s.createdAt == Some(now)
    {
      var id := nextSkillId;
      nextSkillId := nextSkillId + 1;
      var i := 0;
      while i < |skills|
        invariant 0 <= i <= |skills|
        invariant forall k :: 0 <= k < i ==> skills[k].name != data.name
      {
        if skills[i].name == data.name {
          return None;
        }
        i := i + 1;
      }
      var row := SkillRow(id, data.name, JsonStrings.Encode(data.categories), data.level,
                          OrNull(data.icon), OrNull(data.color), Some(now));
      AppendSkillConsistent(projects, skills, assoc, row);
      skills := skills + [row];
      var skill := ReadBack(row, data.categories);
      return Some(skill);
    }

    /** `deleteSkill`: the skill's links first, then the skill. */
    method DeleteSkill(id: int)
      requires Valid()
      modifies this
      ensures Valid()
      ensures assoc == Filter(old(assoc), NotLinkedToSkill(id))
      ensures skills == Filter(old(skills), NotSkill(id))
      ensures projects == old(projects)
      ensures nextProjectId == old(nextProjectId) && nextSkillId == old(nextSkillId)
    {
      DeleteSkillConsistent(projects, skills, assoc, id);
      FilterMembers(skills, NotSkill(id));
      assoc := Filter(assoc, NotLinkedToSkill(id));
      skills := Filter(skills, NotSkill(id));
    }

    /** `renameCategory`: every skill whose list holds `oldName` gets the
        list with each `oldName` replaced by `newName`; `updatedCount` is
        the number of such skills. The lists are all parsed before any
        update is issued, so a text that does not parse throws (`None`)
        with the table unchanged. */
    method RenameCategory(oldName: string, newName: string) returns (updatedCount: Option<nat>)
      requires Valid()
      modifies this
      ensures Valid()
      ensures updatedCount.None? <==> ParseAll(old(skills)).None?
      ensures updatedCount.None? ==> skills == old(skills)
      ensures updatedCount.Some? ==>
                && ParseAll(old(skills)).Some?
                && skills == RenamedRows(old(skills), ParseAll(old(skills)).value, oldName, newName)
                && updatedCount.value == CountWithCategory(ParseAll(old(skills)).value, oldName)
      ensures projects == old(projects) && assoc == old(assoc)
      ensures nextProjectId == old(nextProjectId) && nextSkillId == old(nextSkillId)
    {
      var all := skills;
      var parsed := ParseEach(all);
      if parsed.None? {
        return None;
      }
      var updated, count := RenameEach(all, parsed.value, oldName, newName);
      RenamedRowsConsistent(projects, all, assoc, parsed.value, oldName, newName, nextSkillId);
      skills := updated;
      return Some(count);
    }
  }

  /** The parse of every skill's text, in the order the skills were read. */
  method ParseEach(all: seq<SkillRow>) returns (r: Option<seq<seq<string>>>)
    ensures r == ParseAll(all)
  {
    var lists: seq<seq<string>> := [];
    var i := 0;
    while i < |all|
      invariant 0 <= i <= |all|
      invariant MapAll(all[..i], ParseCategories()) == Some(lists)
    {
      var parsed := JsonStrings.Decode(all[i].categories);
      MapAllStep(all, ParseCategories(), i, lists);
      if parsed.None? {
        MapAllAt(all, ParseCategories(), i);
        return None;
      }
      lists := lists + [parsed.value];
      i := i + 1;
    }
    assert all[..i] == all;
    return Some(lists);
  }

  /** The filter and the map of `renameCategory` over the parsed lists: the
      table the updates leave and the number of updates. */
  method RenameEach(all: seq<SkillRow>, lists: seq<seq<string>>, oldName: string, newName: string)
    returns (updated: seq<SkillRow>, count: nat)
    requires |lists| == |all|
    ensures updated == RenamedRows(all, lists, oldName, newName)
    ensures count == CountWithCategory(lists, oldName)
  {
    updated, count := [], 0;
    var i := 0;
    while i < |all|
      invariant 0 <= i <= |all|
      invariant updated == RenamedRows(all[..i], lists[..i], oldName, newName)
      invariant count == CountWithCategory(lists[..i], oldName)
    {
      RenameStep(all, lists, oldName, newName, i);
      var row := all[i];
      if oldName in lists[i] {
        row := row.(categories := JsonStrings.Encode(RenameIn(lists[i], oldName, newName)));
        count := count + 1;
      }
      assert row == RenameRow(all[i], lists[i], oldName, newName);
      updated := updated + [row];
      i := i + 1;
    }
    assert all[..i] == all && lists[..i] == lists;
  }

  /** The value `createSkill` returns: the inserted row with its text
      parsed again (`JSON.parse(newSkill.categories || "[]")`). Text the
      encoder wrote is never empty and reads back as the list written. */
  method ReadBack(row: SkillRow, ghost cats: seq<string>) returns (t: TaggedSkill)
    requires row.categories == JsonStrings.Encode(cats)
    ensures t == TaggedSkill(row.id, row.name, cats, row.level, row.icon, row.color, row.createdAt)
  {
    var text := if row.categories != "" then row.categories else "[]";
    JsonStrings.DecodeEncode(cats);
    var parsed := JsonStrings.Decode(text);
    t := TaggedSkill(row.id, row.name, parsed.value, row.level, row.icon, row.color, row.createdAt);
  }

  /** Appending a project with a fresh id and slug keeps the constraints. */
  lemma AppendProjectConsistent(ps: seq<Project>, ss: seq<SkillRow>, assoc: seq<ProjectToSkill>, p: Project)
    requires Consistent(ps, ss, assoc)
    requires forall k :: 0 <= k < |ps| ==> ps[k].id < p.id && ps[k].slug != p.slug
    ensures Consistent(ps + [p], ss, assoc)
  {
    assert KeysOf(ps + [p], ProjectId) == KeysOf(ps, ProjectId) + [p.id];
  }

  /** Appending a skill with a fresh id and name, whose categories are
      encoded text, keeps the constraints. */
  lemma AppendSkillConsistent(ps: seq<Project>, ss: seq<SkillRow>, assoc: seq<ProjectToSkill>,
                              row: SkillRow)
    requires Consistent(ps, ss, assoc)
    requires forall k :: 0 <= k < |ss| ==> ss[k].id < row.id && ss[k].name != row.name
    ensures Consistent(ps, ss + [row], assoc)
  {
    assert KeysOf(ss + [row], SkillRowId) == KeysOf(ss, SkillRowId) + [row.id];
  }

  /** A row whose text the encoder wrote keeps the table well formed. */
  lemma EncodedRowKeepsCategories(ss: seq<SkillRow>, row: SkillRow, cats: seq<string>)
    requires CategoriesWellFormed(ss) && row.categories == JsonStrings.Encode(cats)
    ensures CategoriesWellFormed(ss + [row])
  {
    JsonStrings.DecodeEncode(cats);
    CategoriesAppend(ss, row);
  }
}
