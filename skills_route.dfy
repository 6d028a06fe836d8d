/**
 * The skills endpoint. `GET ?byCategory=true` answers the skills, read in
 * category-then-name order, as a record from category to its skills. Any
 * other `GET` folds the rows of `skills LEFT JOIN projects_to_skills LEFT
 * JOIN projects` into one entry per skill with its distinct projects.
 * `POST` checks the required fields and builds the new skill.
 */
module SkillsRoute {
  import opened Wrappers
  import opened Seqs
  import opened Schema
  import opened JoinFold
  import CategoryGroups
  import Text
  import opened Http

  /** One row of the join: a skill and, when it has links, one project. */
  type Row = Joined<Skill, Project>

  /** A skill with its projects, as the list query returns it. */
  type SkillEntry = Group<Skill, Project>

  // ------------------------------------------------------------------ GET

  /** The two shapes `GET` answers with: the category record, modelled as
      its keys in order of first appearance with a bucket per key, or the
      list of skills with their projects. */
  datatype GetAnswer =
    | ByCategory(keys: seq<string>, groups: map<string, seq<Skill>>)
    | WithProjects(entries: seq<SkillEntry>)

  /** `GET /api/skills`. `byCategory` is the query parameter, `allSkills`
      the skills in the order the database returns them, and `joined` the
      rows of the join in the order the database returns them. */
  method Get(byCategory: Option<string>, allSkills: seq<Skill>, joined: seq<Row>) returns (a: GetAnswer)
    ensures byCategory == Some("true") ==>
              && a.ByCategory?
              && a.keys == CategoryGroups.CategoryOrder(allSkills)
              && (forall c :: c in a.groups <==> c in a.keys)
              && (forall c :: c in a.groups ==> a.groups[c] == CategoryGroups.InCategory(allSkills, c))
    ensures byCategory != Some("true") ==> a == WithProjects(Grouped(joined, SkillId, ProjectId))
  {
    if byCategory == Some("true") {
      var keys, groups := CategoryGroups.GroupByCategory(allSkills);
      return ByCategory(keys, groups);
    }
    var entries := FoldInPlace(joined, SkillId, ProjectId);
    return WithProjects(entries);
  }

  /** Skills read in category-then-name order give each category's list in
      name order, and the lists hold every skill exactly once between them. */
  lemma ByCategoryOrdered(allSkills: seq<Skill>, c: string)
    requires SortedBy(allSkills, CategoryGroups.CategoryThenName)
    ensures var g := CategoryGroups.InCategory(allSkills, c);
            forall i, j :: 0 <= i < j < |g| ==> Text.StrLe(g[i].name, g[j].name)
    ensures CategoryGroups.GroupSizes(allSkills, CategoryGroups.CategoryOrder(allSkills)) == |allSkills|
  {
    CategoryGroups.GroupsSortedByName(allSkills, c);
    CategoryGroups.SizesSumToCount(allSkills);
  }

  // ----------------------------------------------------------------- POST

  /** The body of a create request; every field may be absent. */
  datatype CreateSkillRequest = CreateSkillRequest(
    name: Option<string>,
    category: Option<string>,
    level: Option<int>,
    icon: Option<string>,
    color: Option<string>)

  /** The required fields of a create request. */
  datatype SkillField = Name | Category | Level

  /** The field checks, in the order they are made. */
  const RequiredSkillFields: seq<SkillField> := [Name, Category, Level]

  /** The icon of a skill created without one. */
  const DefaultIcon := "code"

  /** The colour of a skill created without one. */
  const DefaultColor := "from-[#B97452] to-[#C17E3D]"

  /** The field's name in the request body and in the error message. */
  function SkillFieldName(f: SkillField): string
  {
    match f
    case Name => "name"
    case Category => "category"
    case Level => "level"
  }

  /** `!!body[field]`: a string field is present when non-empty, the level
      when it is not 0. */
  function SkillFieldPresent(body: CreateSkillRequest): SkillField -> bool
  {
    (f: SkillField) =>
      match f
      case Name => Truthy(body.name)
      case Category => Truthy(body.category)
      case Level => body.level.Some? && body.level.value != 0
  }

  /** `POST /api/skills`. `body` is `None` when the request body is not
      JSON; `id` stands for `Date.now()` and `now` for `new Date()`. */
  method Post(body: Option<CreateSkillRequest>, id: int, now: Timestamp) returns (r: Response<Skill>)
    ensures body.None? ==> r.ServerError?
    ensures !r.NotFound?
    ensures body.Some? ==> !r.ServerError?
    ensures body.Some? ==>
              var m := FirstMissing(RequiredSkillFields, SkillFieldPresent(body.value));
              (r.BadRequest? <==> m < |RequiredSkillFields|)
              && (r.BadRequest? ==> r.message == RequiredMessage(SkillFieldName(RequiredSkillFields[m])))
    ensures r.Ok? ==>
              var b := body.value;
              var s := r.body;
              s.id == id && Some(s.name) == b.name && s.name != ""
              && Some(s.category) == b.category && s.category != ""
              && Some(s.level) == b.level && s.level != 0
              && s.icon == Some(b.icon.GetOr(DefaultIcon))
              && s.color == Some(b.color.GetOr(DefaultColor))
              && s.createdAt == Some(now)
  {
    if body.None? {
      return ServerError;
    }
    var b := body.value;
    var m := FindMissing(RequiredSkillFields, SkillFieldPresent(b));
    if m < |RequiredSkillFields| {
      return BadRequest(RequiredMessage(SkillFieldName(RequiredSkillFields[m])));
    }
    assert Truthy(b.name) && Truthy(b.category) && b.level.Some? && b.level.value != 0 by {
      assert RequiredSkillFields[0] == Name && RequiredSkillFields[1] == Category;
      assert RequiredSkillFields[2] == Level;
    }
    var skill := Skill(id, b.name.value, b.category.value, b.level.value,
                       Some(b.icon.GetOr(DefaultIcon)), Some(b.color.GetOr(DefaultColor)), Some(now));
    return Ok(skill);
  }
}
