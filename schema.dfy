/**
 * The entities of the portfolio's relational store (`portfolio_projects`,
 * `portfolio_skills`, `portfolio_projects_to_skills`), the nested shapes the
 * read paths return, and the table constraints as predicates over the three
 * tables.
 *
 * Two skill shapes coexist and are kept apart: `SkillRow`/`TaggedSkill`
 * carry a list of categories (stored as JSON text, exposed parsed), while
 * `Skill` is the older shape with a single `category` string that the mock
 * tables, the skills endpoint and the dashboard still use.
 */
module Schema {
  import opened Wrappers
  import opened Seqs
  import JsonStrings

  /** Dates and timestamps are opaque, totally ordered instants. */
  type Timestamp = int

  /** A row of `portfolio_projects`. `date`, the URLs, `caseStudy`,
      `featured` and `createdAt` are nullable columns. */
  datatype Project = Project(
    id: int,
    title: string,
    slug: string,
    company: string,
    date: Option<Timestamp>,
    description: string,
    githubUrl: Option<string>,
    demoUrl: Option<string>,
    imageUrl: Option<string>,
    caseStudy: Option<string>,
    featured: Option<int>,
    createdAt: Option<Timestamp>)

  /** A row of `portfolio_skills`; `categories` is JSON text. */
  datatype SkillRow = SkillRow(
    id: int,
    name: string,
    categories: string,
    level: int,
    icon: Option<string>,
    color: Option<string>,
    createdAt: Option<Timestamp>)

  /** A skill with its category list parsed, as read paths return it. */
  datatype TaggedSkill = TaggedSkill(
    id: int,
    name: string,
    categories: seq<string>,
    level: int,
    icon: Option<string>,
    color: Option<string>,
    createdAt: Option<Timestamp>)

  /** The single-category skill shape. */
  datatype Skill = Skill(
    id: int,
    name: string,
    category: string,
    level: int,
    icon: Option<string>,
    color: Option<string>,
    createdAt: Option<Timestamp>)

  /** A row of `portfolio_projects_to_skills`. */
  datatype ProjectToSkill = ProjectToSkill(projectId: int, skillId: int)

  /** A project with the skills linked to it. */
  datatype ProjectWithSkills = ProjectWithSkills(project: Project, skills: seq<Skill>)

  /** A skill with the projects linked to it. */
  datatype SkillWithProjects = SkillWithProjects(skill: Skill, projects: seq<Project>)

  /** The column default of `featured`. */
  const FeaturedDefault := 0

  function ProjectId(p: Project): int { p.id }
  function SkillId(s: Skill): int { s.id }
  function SkillRowId(s: SkillRow): int { s.id }
  function TaggedSkillId(s: TaggedSkill): int { s.id }

  /** `featured === 1` */
  predicate IsFeatured(p: Project)
  {
    p.featured == Some(1)
  }

  /** Reading a stored skill: its category text parsed as a JSON array. */
  function ParseSkillRow(row: SkillRow): (r: Option<TaggedSkill>)
    ensures r.Some? ==> r.value.id == row.id && r.value.name == row.name && r.value.level == row.level
  {
    match JsonStrings.Decode(row.categories)
    case None => None
    case Some(cats) =>
      Some(TaggedSkill(row.id, row.name, cats, row.level, row.icon, row.color, row.createdAt))
  }

  // ---------------------------------------------------------- constraints

  /** `id serial primary key` on projects, and `slug ... unique()`. */
  predicate ProjectKeysUnique(ps: seq<Project>)
  {
    forall i, j :: 0 <= i < j < |ps| ==> ps[i].id != ps[j].id && ps[i].slug != ps[j].slug
  }

  /** `id serial primary key` on skills, and `name ... unique()`. */
  predicate SkillKeysUnique(ss: seq<SkillRow>)
  {
    forall i, j :: 0 <= i < j < |ss| ==> ss[i].id != ss[j].id && ss[i].name != ss[j].name
  }

  /** The foreign keys of the association table. There is no uniqueness on
      the pair, so the same link may be stored twice. */
  predicate ReferencesExist(assoc: seq<ProjectToSkill>, ps: seq<Project>, ss: seq<SkillRow>)
  {
    forall k :: 0 <= k < |assoc| ==>
      assoc[k].projectId in KeysOf(ps, ProjectId) && assoc[k].skillId in KeysOf(ss, SkillRowId)
  }

  /** Every row's `categories` text holds a JSON array of strings. The
      column is plain text, so this is kept by the code that writes it,
      not by the database. */
  predicate CategoriesWellFormed(ss: seq<SkillRow>)
  {
    |ss| == 0
    || (CategoriesWellFormed(ss[..|ss| - 1]) && JsonStrings.Decode(ss[|ss| - 1].categories).Some?)
  }

  /** A row whose text does not parse makes the table ill formed. */
  lemma {:induction false} CategoriesFail(ss: seq<SkillRow>, k: int)
    requires 0 <= k < |ss| && JsonStrings.Decode(ss[k].categories).None?
    ensures !CategoriesWellFormed(ss)
  {
    if k < |ss| - 1 {
      CategoriesFail(ss[..|ss| - 1], k);
    }
  }

  lemma CategoriesStep(ss: seq<SkillRow>, i: int)
    requires 0 <= i < |ss|
    ensures CategoriesWellFormed(ss[..i + 1])
        <==> CategoriesWellFormed(ss[..i]) && JsonStrings.Decode(ss[i].categories).Some?
  {
    assert ss[..i + 1][..i] == ss[..i];
  }

  lemma {:induction false} CategoriesAt(ss: seq<SkillRow>, k: int)
    requires CategoriesWellFormed(ss) && 0 <= k < |ss|
    ensures JsonStrings.Decode(ss[k].categories).Some?
  {
    if k < |ss| - 1 {
      CategoriesAt(ss[..|ss| - 1], k);
    }
  }

  lemma CategoriesAppend(ss: seq<SkillRow>, row: SkillRow)
    requires CategoriesWellFormed(ss) && JsonStrings.Decode(row.categories).Some?
    ensures CategoriesWellFormed(ss + [row])
  {
    assert (ss + [row])[..|ss|] == ss;
  }

  /** Rows taken from well-formed rows, in order, are well formed. */
  lemma {:induction false} CategoriesSubseq(a: seq<SkillRow>, b: seq<SkillRow>)
    requires IsSubseq(a, b) && CategoriesWellFormed(b)
    ensures CategoriesWellFormed(a)
    decreases |b|
  {
    if |a| > 0 {
      var bi := b[..|b| - 1];
      if a[|a| - 1] == b[|b| - 1] {
        CategoriesSubseq(a[..|a| - 1], bi);
      } else {
        CategoriesSubseq(a, bi);
      }
    }
  }

  /** The database's constraints together: keys, unique columns and
      foreign keys. */
  predicate Consistent(ps: seq<Project>, ss: seq<SkillRow>, assoc: seq<ProjectToSkill>)
  {
    ProjectKeysUnique(ps) && SkillKeysUnique(ss) && ReferencesExist(assoc, ps, ss)
  }

  /** A row whose categories were written by the encoder reads back with
      exactly the list that was written. */
  lemma ParseEncodedRow(row: SkillRow, cats: seq<string>)
    requires row.categories == JsonStrings.Encode(cats)
    ensures ParseSkillRow(row)
         == Some(TaggedSkill(row.id, row.name, cats, row.level, row.icon, row.color, row.createdAt))
  {
    JsonStrings.DecodeEncode(cats);
  }
}
