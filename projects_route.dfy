/**
 * The projects endpoint. `GET` answers three queries over the rows of
 * `projects LEFT JOIN projects_to_skills LEFT JOIN skills`: one project by
 * slug, the featured projects newest first, and all projects newest first.
 * The two list queries fold their rows into one entry per project with its
 * distinct skills. `POST` checks the required fields and builds the new
 * project.
 *
 * Each row's category text is parsed as JSON while the rows are walked; a
 * text that does not parse throws, and the handler answers 500. The
 * specification functions of the folds are stated over the parsed rows, and
 * `ParseRows` connects them to the rows the database returns.
 */
module ProjectsRoute {
  import opened Wrappers
  import opened Seqs
  import opened Schema
  import opened JoinFold
  import opened Http

  /** One row of the join, as the database returns it. */
  type Row = Joined<Project, SkillRow>

  /** One row of the join with its skill's categories parsed. */
  type ParsedRow = Joined<Project, TaggedSkill>

  /** A project with its skills, as every branch returns it. */
  type ProjectEntry = Group<Project, TaggedSkill>

  // ------------------------------------------------------------ parsing

  /** `JSON.parse(row.child.categories)` for a row that carries a skill;
      `None` when it throws. */
  function ParseRow(row: Row): (r: Option<ParsedRow>)
    ensures r.None? <==> row.child.Some? && ParseSkillRow(row.child.value).None?
    ensures r.Some? ==> r.value.parent == row.parent
    ensures r.Some? ==> (r.value.child.None? <==> row.child.None?)
    ensures r.Some? && r.value.child.Some? ==> r.value.child.value.id == row.child.value.id
  {
    if row.child.None? then Some(Joined(row.parent, None))
    else match ParseSkillRow(row.child.value)
      case None => None
      case Some(t) => Some(Joined(row.parent, Some(t)))
  }

  /** Every row parsed, in order; `None` as soon as one does not parse. */
  function ParseRows(rows: seq<Row>): (r: Option<seq<ParsedRow>>)
    ensures r.Some? ==> |r.value| == |rows|
  {
    if |rows| == 0 then Some([])
    else match ParseRows(rows[..|rows| - 1])
      case None => None
      case Some(ps) =>
        match ParseRow(rows[|rows| - 1])
        case None => None
        case Some(p) => Some(ps + [p])
  }

  lemma ParseRowsStep(rows: seq<Row>, row: Row)
    ensures ParseRows(rows + [row])
         == if ParseRows(rows).Some? && ParseRow(row).Some?
            then Some(ParseRows(rows).value + [ParseRow(row).value]) else None
  {
    assert (rows + [row])[..|rows|] == rows;
  }

  /** When the rows parse, each parsed row is the parse of its own row. */
  lemma {:induction false} ParseRowsAt(rows: seq<Row>, k: int)
    requires ParseRows(rows).Some? && 0 <= k < |rows|
    ensures ParseRow(rows[k]) == Some(ParseRows(rows).value[k])
  {
    var init := rows[..|rows| - 1];
    if k < |rows| - 1 {
      assert rows[k] == init[k];
      ParseRowsAt(init, k);
    }
  }

  /** One row that does not parse makes the whole walk fail. */
  lemma {:induction false} ParseRowsFails(rows: seq<Row>, k: int)
    requires 0 <= k < |rows| && ParseRow(rows[k]).None?
    ensures ParseRows(rows).None?
  {
    var init := rows[..|rows| - 1];
    if k < |rows| - 1 {
      assert rows[k] == init[k];
      ParseRowsFails(init, k);
    }
  }

  // ------------------------------------------------------------- by slug

  predicate HasSkill(p: ParsedRow) { p.child.Some? }

  /** `filter(row => row.child !== null).map(...)`: the skill of every row
      that carries one, in row order, repeats kept. */
  function SlugSkills(ps: seq<ParsedRow>): (r: seq<TaggedSkill>)
    ensures |r| <= |ps|
  {
    var f := Filter(ps, HasSkill);
    seq(|f|, i requires 0 <= i < |f| => f[i].child.value)
  }

  /** When every row carries a skill, the slug query lists one skill per
      row, in row order, with no deduplication. */
  lemma SlugSkillsOnePerRow(ps: seq<ParsedRow>)
    requires forall k :: 0 <= k < |ps| ==> ps[k].child.Some?
    ensures |SlugSkills(ps)| == |ps|
    ensures forall k :: 0 <= k < |ps| ==> SlugSkills(ps)[k] == ps[k].child.value
  {
    FilterAll(ps, HasSkill);
  }

  /** A row without a skill contributes nothing. */
  lemma SlugSkillsSkipsEmpty(ps: seq<ParsedRow>, p: Project)
    ensures SlugSkills(ps + [Joined(p, None)]) == SlugSkills(ps)
  {
    assert (ps + [Joined(p, None)])[..|ps|] == ps;
  }

  /** The slug query's answer, given the rows whose project has the slug:
      404 without rows, 500 when a category list does not parse, and
      otherwise the first row's project with the skills of all rows. */
  function BySlug(rows: seq<Row>): (r: Response<ProjectEntry>)
    ensures r.NotFound? <==> |rows| == 0
    ensures r.ServerError? <==> |rows| > 0 && ParseRows(rows).None?
    ensures r.Ok? ==> (r.body.parent == rows[0].parent
                       && r.body.children == SlugSkills(ParseRows(rows).value))
    ensures !r.BadRequest?
  {
    if |rows| == 0 then NotFound
    else match ParseRows(rows)
      case None => ServerError
      case Some(ps) => Ok(Group(rows[0].parent, SlugSkills(ps)))
  }

  // ------------------------------------------------------------ list fold

  /** The list queries' fold over the rows the query returned: 500 when a
      category list does not parse, and otherwise one entry per project in
      order of first row, each with the distinct skills of its rows. Each
      row is parsed before its project's entry is opened; the source opens
      the entry first, but a parse failure discards the map either way. */
  method GroupRows(rows: seq<Row>) returns (r: Response<seq<ProjectEntry>>)
    ensures r.ServerError? <==> ParseRows(rows).None?
    ensures r.Ok? ==> r.body == Grouped(ParseRows(rows).value, ProjectId, TaggedSkillId)
    ensures !r.NotFound? && !r.BadRequest?
  {
    var entries: seq<ProjectEntry> := [];
    ghost var parsed: seq<ParsedRow> := [];
    var i := 0;
    while i < |rows|
      invariant 0 <= i <= |rows|
      invariant ParseRows(rows[..i]) == Some(parsed)
      invariant entries == FoldRows(parsed, ProjectId, TaggedSkillId)
    {
      var row := rows[i];
      assert rows[..i + 1] == rows[..i] + [row];
      ParseRowsStep(rows[..i], row);
      var p := ParseRow(row);
      if p.None? {
        ParseRowsFails(rows, i);
        return ServerError;
      }
      FoldRowsSnoc(parsed, p.value, ProjectId, TaggedSkillId);
      parsed := parsed + [p.value];
      entries := AddRowInPlace(entries, p.value, ProjectId, TaggedSkillId);
      i := i + 1;
    }
    assert rows[..i] == rows;
    FoldRowsIsGrouped(parsed, ProjectId, TaggedSkillId);
    return Ok(entries);
  }

  // --------------------------------------------------- the GET dispatcher

  /** The query string: `slug` and `featured`, each absent or present. */
  datatype Query = Query(slug: Option<string>, featured: Option<string>)

  /** `GET` answers one project for a slug query and a list otherwise. */
  datatype GetAnswer = One(one: Response<ProjectEntry>) | Many(many: Response<seq<ProjectEntry>>)

  /** `where(eq(projects.slug, slug))` */
  function WithSlug(slug: string): Row -> bool
  {
    (r: Row) => r.parent.slug == slug
  }

  /** `where(eq(projects.featured, 1))` */
  predicate FeaturedRow(r: Row)
  {
    IsFeatured(r.parent)
  }

  /** `if (slug)`: a present, non-empty slug. */
  predicate SlugGiven(q: Query)
  {
    q.slug.Some? && q.slug.value != ""
  }

  /** `GET /api/projects`. `joined` is every row of the join, in the order
      the query returns them; each branch keeps the rows its `where`
      selects, in that order. */
  method Get(q: Query, joined: seq<Row>) returns (a: GetAnswer)
    ensures SlugGiven(q) ==> a == One(BySlug(Filter(joined, WithSlug(q.slug.value))))
    ensures !SlugGiven(q) && q.featured == Some("true") ==>
              a.Many? && (a.many.ServerError? <==> ParseRows(Filter(joined, FeaturedRow)).None?)
              && (a.many.Ok? ==> a.many.body == Grouped(ParseRows(Filter(joined, FeaturedRow)).value, ProjectId, TaggedSkillId))
    ensures !SlugGiven(q) && q.featured != Some("true") ==>
              a.Many? && (a.many.ServerError? <==> ParseRows(joined).None?)
              && (a.many.Ok? ==> a.many.body == Grouped(ParseRows(joined).value, ProjectId, TaggedSkillId))
  {
    if SlugGiven(q) {
      return One(BySlug(Filter(joined, WithSlug(q.slug.value))));
    }
    if q.featured == Some("true") {
      var r := GroupRows(Filter(joined, FeaturedRow));
      return Many(r);
    }
    var r := GroupRows(joined);
    return Many(r);
  }

  /** Every entry of the featured list is a featured project. */
  lemma FeaturedEntriesOnly(rows: seq<Row>)
    requires ParseRows(Filter(rows, FeaturedRow)).Some?
    ensures var g := Grouped(ParseRows(Filter(rows, FeaturedRow)).value, ProjectId, TaggedSkillId);
            forall j :: 0 <= j < |g| ==> IsFeatured(g[j].parent)
  {
    var f := Filter(rows, FeaturedRow);
    var ps := ParseRows(f).value;
    var g := Grouped(ps, ProjectId, TaggedSkillId);
    GroupedParents(ps, ProjectId, TaggedSkillId);
    ParsedProjects(f);
    SubseqMembers(GroupParents(g), Parents(f));
    forall j | 0 <= j < |g| ensures IsFeatured(g[j].parent) {
      assert GroupParents(g)[j] in Parents(f);
      var k :| 0 <= k < |f| && Parents(f)[k] == g[j].parent;
      assert FeaturedRow(f[k]);
    }
  }

  /** Parsing leaves the rows' projects as they are. */
  lemma ParsedProjects(rows: seq<Row>)
    requires ParseRows(rows).Some?
    ensures Parents(ParseRows(rows).value) == Parents(rows)
  {
    var ps := ParseRows(rows).value;
    forall k | 0 <= k < |ps| ensures Parents(ps)[k] == Parents(rows)[k] {
      ParseRowsAt(rows, k);
    }
  }

  /** `orderBy(desc(projects.date))`: `a` may come before `b`. A missing
      date sorts first, as `DESC` orders nulls in PostgreSQL. */
  predicate DateDesc(a: Project, b: Project)
  {
    a.date.None? || (b.date.Some? && a.date.value >= b.date.value)
  }

  /** Keeping the featured rows keeps them newest first. */
  lemma FeaturedKeepsDateOrder(rows: seq<Row>)
    requires SortedBy(Parents(rows), DateDesc)
    requires ParseRows(Filter(rows, FeaturedRow)).Some?
    ensures SortedBy(Parents(ParseRows(Filter(rows, FeaturedRow)).value), DateDesc)
  {
    var f := Filter(rows, FeaturedRow);
    var ps := ParseRows(f).value;
    FilterIsSubseq(rows, FeaturedRow);
    SubseqParents(f, rows);
    SubseqSorted(Parents(f), Parents(rows), DateDesc);
    ParsedProjects(f);
  }

  // ----------------------------------------------------------------- POST

  /** The body of a create request; every field may be absent. */
  datatype CreateProjectRequest = CreateProjectRequest(
    title: Option<string>,
    slug: Option<string>,
    company: Option<string>,
    date: Option<string>,
    description: Option<string>,
    caseStudy: Option<string>,
    githubUrl: Option<string>,
    demoUrl: Option<string>,
    imageUrl: Option<string>,
    featured: Option<int>)

  /** The required fields of a create request. */
  datatype ProjectField = Title | Slug | Company | Date | Description | CaseStudy

  /** The field checks, in the order they are made. */
  const RequiredProjectFields: seq<ProjectField> := [Title, Slug, Company, Date, Description, CaseStudy]

  /** The field's name in the request body and in the error message. */
  function ProjectFieldName(f: ProjectField): string
  {
    match f
    case Title => "title"
    case Slug => "slug"
    case Company => "company"
    case Date => "date"
    case Description => "description"
    case CaseStudy => "caseStudy"
  }

  /** `body[field]` for a required field. */
  function RequestField(body: CreateProjectRequest, f: ProjectField): Option<string>
  {
    match f
    case Title => body.title
    case Slug => body.slug
    case Company => body.company
    case Date => body.date
    case Description => body.description
    case CaseStudy => body.caseStudy
  }

  /** `!!body[field]` for a required field. */
  function ProjectFieldPresent(body: CreateProjectRequest): ProjectField -> bool
  {
    (f: ProjectField) => Truthy(RequestField(body, f))
  }

  /** `POST /api/projects`. `body` is `None` when the request body is not
      JSON; `id` stands for `Date.now()`, `date` for `new Date(body.date)`
      and `now` for `new Date()`. */
  method Post(body: Option<CreateProjectRequest>, id: int, date: Option<Timestamp>, now: Timestamp)
    returns (r: Response<ProjectEntry>)
    ensures body.None? ==> r.ServerError?
    ensures !r.NotFound?
    ensures body.Some? ==> !r.ServerError?
    ensures body.Some? ==>
              var m := FirstMissing(RequiredProjectFields, ProjectFieldPresent(body.value));
              (r.BadRequest? <==> m < |RequiredProjectFields|)
              && (r.BadRequest? ==> r.message == RequiredMessage(ProjectFieldName(RequiredProjectFields[m])))
    ensures r.Ok? ==>
              var b := body.value;
              var p := r.body.parent;
              p.id == id && Some(p.title) == b.title && Some(p.slug) == b.slug
              && Some(p.company) == b.company && p.date == date
              && Some(p.description) == b.description && p.caseStudy == b.caseStudy
              && p.githubUrl == b.githubUrl && p.demoUrl == b.demoUrl && p.imageUrl == b.imageUrl
              && p.featured == Some(b.featured.GetOr(FeaturedDefault))
              && p.createdAt == Some(now)
              && r.body.children == []
  {
    if body.None? {
      return ServerError;
    }
    var b := body.value;
    var m := FindMissing(RequiredProjectFields, ProjectFieldPresent(b));
    if m < |RequiredProjectFields| {
      return BadRequest(RequiredMessage(ProjectFieldName(RequiredProjectFields[m])));
    }
    assert Truthy(b.title) && Truthy(b.slug) && Truthy(b.company)
           && Truthy(b.description) && Truthy(b.caseStudy) by {
      assert RequiredProjectFields[0] == Title && RequiredProjectFields[1] == Slug;
      assert RequiredProjectFields[2] == Company && RequiredProjectFields[4] == Description;
      assert RequiredProjectFields[5] == CaseStudy;
    }
    var project := Project(
      id, b.title.value, b.slug.value, b.company.value, date, b.description.value,
      b.githubUrl, b.demoUrl, b.imageUrl, b.caseStudy,
      Some(b.featured.GetOr(FeaturedDefault)), Some(now));
    return Ok(Group(project, []));
  }
}
