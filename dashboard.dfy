/**
 * The dashboard's local state: the skills and projects shown, the two
 * add forms and their error lines. Adding validates the form field by
 * field, stopping at the first blank field, then rejects a name or slug
 * that already exists ignoring case, and otherwise appends one entry with
 * the next id. Removing filters by id. The slug suggestion is a chain of
 * regular-expression replaces.
 */
module Dashboard {
  import opened Wrappers
  import opened Seqs
  import opened Schema
  import opened Http
  import Text

  /** The level, icon and colour of a skill added from the dashboard. */
  const NewSkillLevel := 50
  const NewSkillIcon := "code"
  const NewSkillColor := "from-[#B97452] to-[#C17E3D]"

  // ---------------------------------------------------------------- ids

  /** `Math.max(...s.map(x => x.id))`; the empty list gives 0. */
  function MaxKey<T>(s: seq<T>, key: T -> int): (m: int)
    ensures forall k :: 0 <= k < |s| ==> key(s[k]) <= m
  {
    if |s| == 0 then 0
    else if |s| == 1 then key(s[0])
    else
      var r := MaxKey(s[1..], key);
      if key(s[0]) > r then key(s[0]) else r
  }

  /** The maximum of a non-empty list is one of its ids. */
  lemma {:induction false} MaxKeyAttained<T>(s: seq<T>, key: T -> int)
    requires |s| > 0
    ensures exists k :: 0 <= k < |s| && key(s[k]) == MaxKey(s, key)
  {
    if |s| > 1 && key(s[0]) <= MaxKey(s[1..], key) {
      MaxKeyAttained(s[1..], key);
      var k :| 0 <= k < |s| - 1 && key(s[1..][k]) == MaxKey(s[1..], key);
      assert key(s[k + 1]) == MaxKey(s, key);
    } else {
      assert key(s[0]) == MaxKey(s, key);
    }
  }

  /** `Math.max(...s.map(x => x.id)) + 1`: above every id in the list. */
  function NextId<T>(s: seq<T>, key: T -> int): (r: int)
    ensures forall k :: 0 <= k < |s| ==> key(s[k]) < r
  {
    MaxKey(s, key) + 1
  }

  // ------------------------------------------------------------- skills

  /** The fields of the add-skill form, in the order they are checked. */
  datatype SkillFormField = SkillName | SkillCategory

  const SkillFormFields: seq<SkillFormField> := [SkillName, SkillCategory]

  function SkillFieldMessage(f: SkillFormField): string
  {
    match f
    case SkillName => "Skill name is required"
    case SkillCategory => "Skill category is required"
  }

  /** `!!value.trim()` for each field of the form: the value holds more
      than whitespace (`Text.TrimEmptyIffBlank`). */
  function SkillFieldFilled(name: string, category: string): SkillFormField -> bool
  {
    (f: SkillFormField) =>
      match f
      case SkillName => !Text.IsBlank(name)
      case SkillCategory => !Text.IsBlank(category)
  }

  const DuplicateSkillMessage := "A skill with this name already exists"

  /** `skills.some(s => s.name.toLowerCase() === name.trim().toLowerCase())` */
  predicate NameTaken(skills: seq<Skill>, name: string)
  {
    exists k :: 0 <= k < |skills| && Text.SameIgnoringCase(skills[k].name, Text.Trim(name))
  }

  /** The error line `handleAddSkill` sets, or `None` when it adds: the
      checks run in order and the first that fails gives the message. */
  function SkillFormError(skills: seq<Skill>, name: string, category: string): (r: Option<string>)
    ensures r.Some? ==> r.value != ""
  {
    if Text.IsBlank(name) then Some("Skill name is required")
    else if Text.IsBlank(category) then Some("Skill category is required")
    else if NameTaken(skills, name) then Some(DuplicateSkillMessage)
    else None
  }

  /** The form is accepted exactly when both fields trim to something and
      the name is new ignoring case; a rejection for a blank field names
      the first such field, and the duplicate is reported only when both
      fields are filled. */
  lemma SkillFormErrorMeaning(skills: seq<Skill>, name: string, category: string)
    ensures var r := SkillFormError(skills, name, category);
            && (r.None? <==> Text.Trim(name) != "" && Text.Trim(category) != "" && !NameTaken(skills, name))
            && (r.Some? && r != Some(DuplicateSkillMessage) ==>
                  var m := FirstMissing(SkillFormFields, SkillFieldFilled(name, category));
                  m < |SkillFormFields| && r == Some(SkillFieldMessage(SkillFormFields[m])))
            && (r == Some(DuplicateSkillMessage) ==>
                  FirstMissing(SkillFormFields, SkillFieldFilled(name, category)) == |SkillFormFields|)
  {
    Text.TrimEmptyIffBlank(name);
    Text.TrimEmptyIffBlank(category);
    var present := SkillFieldFilled(name, category);
    assert present(SkillFormFields[0]) <==> !Text.IsBlank(name);
    assert present(SkillFormFields[1]) <==> !Text.IsBlank(category);
  }

  /** The skill `handleAddSkill` appends. */
  function NewSkill(skills: seq<Skill>, name: string, category: string, now: Timestamp): Skill
  {
    Skill(NextId(skills, SkillId), Text.Trim(name), category, NewSkillLevel,
          Some(NewSkillIcon), Some(NewSkillColor), Some(now))
  }

  /** The appended skill has an id no listed skill has, and a name that
      differs, ignoring case, from every listed name. */
  lemma NewSkillIsFresh(skills: seq<Skill>, name: string, category: string, now: Timestamp)
    requires SkillFormError(skills, name, category).None?
    ensures var s := NewSkill(skills, name, category, now);
            && (forall k :: 0 <= k < |skills| ==> skills[k].id != s.id)
            && (forall k :: 0 <= k < |skills| ==> !Text.SameIgnoringCase(skills[k].name, s.name))
            && s.name != "" && s.name == Text.Trim(s.name)
  {
    Text.TrimEmptyIffBlank(name);
    Text.TrimIdempotent(name);
  }

  /** `skills.filter(s => s.id !== id)` */
  function WithoutSkill(id: int): Skill -> bool
  {
    (s: Skill) => s.id != id
  }

  // ----------------------------------------------------------- projects

  /** The add-project form; every input is text, `featured` a number. */
  datatype ProjectForm = ProjectForm(
    title: string,
    slug: string,
    company: string,
    date: string,
    description: string,
    githubUrl: string,
    demoUrl: string,
    imageUrl: string,
    caseStudy: string,
    featured: int)

  /** The form as it is opened and reset. */
  const EmptyProjectForm := ProjectForm("", "", "", "", "", "", "", "", "", 0)

  /** The fields of the add-project form, in the order they are checked. */
  datatype ProjectFormField = Title | Slug | Company | Date | Description | CaseStudy

  const ProjectFormFields: seq<ProjectFormField> := [Title, Slug, Company, Date, Description, CaseStudy]

  function ProjectFieldMessage(f: ProjectFormField): string
  {
    match f
    case Title => "Project title is required"
    case Slug => "Project slug is required"
    case Company => "Company is required"
    case Date => "Date is required"
    case Description => "Description is required"
    case CaseStudy => "Case study is required"
  }

  /** `!!form[field].trim()`: the field holds more than whitespace
      (`Text.TrimEmptyIffBlank`); the date is not trimmed, only tested for
      being empty. */
  predicate FieldFilled(form: ProjectForm, f: ProjectFormField)
  {
    match f
    case Title => !Text.IsBlank(form.title)
    case Slug => !Text.IsBlank(form.slug)
    case Company => !Text.IsBlank(form.company)
    case Date => form.date != ""
    case Description => !Text.IsBlank(form.description)
    case CaseStudy => !Text.IsBlank(form.caseStudy)
  }

  function ProjectFieldFilled(form: ProjectForm): ProjectFormField -> bool
  {
    (f: ProjectFormField) => FieldFilled(form, f)
  }

  const DuplicateSlugMessage := "A project with this slug already exists"

  /** `projects.some(p => p.slug.toLowerCase() === slug.trim().toLowerCase())` */
  predicate SlugTaken(projects: seq<Project>, slug: string)
  {
    exists k :: 0 <= k < |projects| && Text.SameIgnoringCase(projects[k].slug, Text.Trim(slug))
  }

  /** Every field the form checks is filled:
      `form.title.trim() && form.slug.trim() && ... && form.date && ...` */
  predicate ProjectFormFilled(form: ProjectForm)
  {
    && Text.Trim(form.title) != "" && Text.Trim(form.slug) != "" && Text.Trim(form.company) != ""
    && form.date != "" && Text.Trim(form.description) != "" && Text.Trim(form.caseStudy) != ""
  }

  /** The error line `handleAddProject` sets, or `None` when it adds: the
      checks run in order and the first that fails gives the message. */
  function ProjectFormError(projects: seq<Project>, form: ProjectForm): (r: Option<string>)
    ensures r.Some? ==> r.value != ""
  {
    if Text.IsBlank(form.title) then Some("Project title is required")
    else if Text.IsBlank(form.slug) then Some("Project slug is required")
    else if Text.IsBlank(form.company) then Some("Company is required")
    else if form.date == "" then Some("Date is required")
    else if Text.IsBlank(form.description) then Some("Description is required")
    else if Text.IsBlank(form.caseStudy) then Some("Case study is required")
    else if SlugTaken(projects, form.slug) then Some(DuplicateSlugMessage)
    else None
  }

  /** The form is accepted exactly when every checked field is filled and
      the slug is new ignoring case. */
  lemma ProjectFormErrorMeaning(projects: seq<Project>, form: ProjectForm)
    ensures ProjectFormError(projects, form).None? <==> ProjectFormFilled(form) && !SlugTaken(projects, form.slug)
    ensures ProjectFormError(projects, form) == Some(DuplicateSlugMessage)
            <==> ProjectFormFilled(form) && SlugTaken(projects, form.slug)
  {
    Text.TrimEmptyIffBlank(form.title);
    Text.TrimEmptyIffBlank(form.slug);
    Text.TrimEmptyIffBlank(form.company);
    Text.TrimEmptyIffBlank(form.description);
    Text.TrimEmptyIffBlank(form.caseStudy);
  }

  /** A rejection for a blank field names the first field, in the checked
      order, that is blank. */
  lemma ProjectFormErrorFirstBlank(projects: seq<Project>, form: ProjectForm)
    requires ProjectFormError(projects, form).Some?
    requires ProjectFormError(projects, form) != Some(DuplicateSlugMessage)
    ensures var m := FirstMissing(ProjectFormFields, ProjectFieldFilled(form));
            m < |ProjectFormFields| && ProjectFormError(projects, form) == Some(ProjectFieldMessage(ProjectFormFields[m]))
  {
    FirstMissingIs(ProjectFormFields, ProjectFieldFilled(form), FirstBlankIndex(form));
  }

  /** The position, in the checked order, of the first unfilled field of a
      form that has one. */
  function FirstBlankIndex(form: ProjectForm): nat
  {
    if Text.IsBlank(form.title) then 0
    else if Text.IsBlank(form.slug) then 1
    else if Text.IsBlank(form.company) then 2
    else if form.date == "" then 3
    else if Text.IsBlank(form.description) then 4
    else 5
  }

  /** The project `handleAddProject` appends: the form with its text fields
      trimmed, the parsed date, the next id and the creation time. The
      URLs are kept as typed, empty text included. */
  function NewProject(projects: seq<Project>, form: ProjectForm, date: Timestamp, now: Timestamp): Project
  {
    Project(NextId(projects, ProjectId), Text.Trim(form.title), Text.Trim(form.slug),
            Text.Trim(form.company), Some(date), Text.Trim(form.description),
            Some(form.githubUrl), Some(form.demoUrl), Some(form.imageUrl),
            Some(Text.Trim(form.caseStudy)), Some(form.featured), Some(now))
  }

  /** The appended project has an id above every listed id and a slug that
      differs, ignoring case, from every listed slug. */
  lemma NewProjectIsFresh(projects: seq<Project>, form: ProjectForm, date: Timestamp, now: Timestamp)
    requires ProjectFormError(projects, form).None?
    ensures var p := NewProject(projects, form, date, now);
            && (forall k :: 0 <= k < |projects| ==> projects[k].id < p.id)
            && (forall k :: 0 <= k < |projects| ==> !Text.SameIgnoringCase(projects[k].slug, p.slug))
            && p.title != "" && p.slug != "" && p.company != "" && p.description != ""
  {
    Text.TrimEmptyIffBlank(form.title);
    Text.TrimEmptyIffBlank(form.slug);
    Text.TrimEmptyIffBlank(form.company);
    Text.TrimEmptyIffBlank(form.description);
  }

  /** `projects.filter(p => p.id !== id)` */
  function WithoutProject(id: int): Project -> bool
  {
    (p: Project) => p.id != id
  }

  // ---------------------------------------------------------------- slug

  /** `[a-z0-9\s-]`: the characters the first replace keeps. */
  predicate SlugSourceChar(c: char)
  {
    ('a' <= c <= 'z') || ('0' <= c <= '9') || Text.IsWhitespace(c) || c == '-'
  }

  /** `[a-z0-9-]`: the characters a slug is made of. */
  predicate SlugChar(c: char)
  {
    ('a' <= c <= 'z') || ('0' <= c <= '9') || c == '-'
  }

  /** `s.replace(/[^a-z0-9\s-]/g, "")` */
  function KeepSlugSource(s: string): (r: string)
    ensures forall i :: 0 <= i < |r| ==> SlugSourceChar(r[i])
  {
    if |s| == 0 then ""
    else (if SlugSourceChar(s[0]) then [s[0]] else []) + KeepSlugSource(s[1..])
  }

  /** `s` without its leading characters that satisfy `p`. */
  function DropWhile(s: string, p: char -> bool): (r: string)
    ensures |r| <= |s| && r == s[|s| - |r|..]
    ensures r == [] || !p(r[0])
  {
    if |s| > 0 && p(s[0]) then DropWhile(s[1..], p) else s
  }

  /** `s.replace(/x+/g, c)` where `p` is the class `x`: each maximal run of
      characters satisfying `p` becomes the single character `c`. */
  function CollapseRuns(s: string, p: char -> bool, c: char): (r: string)
    ensures |s| == 0 ==> r == []
    ensures |s| > 0 && !p(s[0]) ==> |r| > 0 && r[0] == s[0]
    ensures forall i :: 0 <= i < |r| ==> r[i] == c || (r[i] in s && !p(r[i]))
    decreases |s|
  {
    if |s| == 0 then ""
    else if p(s[0]) then [c] + CollapseRuns(DropWhile(s[1..], p), p, c)
    else [s[0]] + CollapseRuns(s[1..], p, c)
  }

  predicate IsHyphen(c: char) { c == '-' }

  /** No two hyphens next to each other. */
  predicate NoDoubleHyphen(s: string)
  {
    forall i :: 0 <= i < |s| - 1 ==> !(s[i] == '-' && s[i + 1] == '-')
  }

  /** `generateSlugFromTitle`: lower-case, drop every character outside
      `[a-z0-9\s-]`, turn each whitespace run into a hyphen, squeeze hyphen
      runs, and trim. */
  function SlugFromTitle(title: string): (r: string)
  {
    Text.Trim(CollapseRuns(CollapseRuns(KeepSlugSource(Text.ToLower(title)), Text.IsWhitespace, '-'), IsHyphen, '-'))
  }

  /** Squeezing hyphen runs leaves no two hyphens together. */
  lemma {:induction false} CollapseLeavesSingleHyphens(s: string)
    ensures NoDoubleHyphen(CollapseRuns(s, IsHyphen, '-'))
    decreases |s|
  {
    if |s| > 0 {
      if IsHyphen(s[0]) {
        var t := DropWhile(s[1..], IsHyphen);
        CollapseLeavesSingleHyphens(t);
        var r := CollapseRuns(t, IsHyphen, '-');
        assert CollapseRuns(s, IsHyphen, '-') == ['-'] + r;
        assert r == [] || r[0] != '-';
      } else {
        CollapseLeavesSingleHyphens(s[1..]);
        assert CollapseRuns(s, IsHyphen, '-') == [s[0]] + CollapseRuns(s[1..], IsHyphen, '-');
      }
    }
  }

  /** Squeezing runs of a class with no two members together changes only
      each member into `c`; with `c` itself a member, nothing changes. */
  lemma {:induction false} CollapseSingles(s: string, p: char -> bool, c: char)
    requires forall i :: 0 <= i < |s| - 1 ==> !(p(s[i]) && p(s[i + 1]))
    requires forall i :: 0 <= i < |s| && p(s[i]) ==> s[i] == c
    ensures CollapseRuns(s, p, c) == s
    decreases |s|
  {
    if |s| > 0 {
      CollapseSingles(s[1..], p, c);
      if p(s[0]) {
        assert DropWhile(s[1..], p) == s[1..];
      }
    }
  }

  /** A string without whitespace is its own trim. */
  lemma TrimNoWhitespace(s: string)
    requires forall i :: 0 <= i < |s| ==> !Text.IsWhitespace(s[i])
    ensures Text.Trim(s) == s
  {
    Text.TrimUntouched(s);
  }

  /** The slug is made of `[a-z0-9-]` and never holds two hyphens in a row. */
  lemma SlugShape(title: string)
    ensures var r := SlugFromTitle(title);
            (forall i :: 0 <= i < |r| ==> SlugChar(r[i])) && NoDoubleHyphen(r)
  {
    var a := KeepSlugSource(Text.ToLower(title));
    var b := CollapseRuns(a, Text.IsWhitespace, '-');
    var c := CollapseRuns(b, IsHyphen, '-');
    assert forall i :: 0 <= i < |b| ==> SlugChar(b[i]);
    assert forall i :: 0 <= i < |c| ==> SlugChar(c[i]);
    CollapseLeavesSingleHyphens(b);
    TrimNoWhitespace(c);
  }

  /** Slug characters are not whitespace. */
  lemma SlugCharsNotWhitespace(s: string)
    requires forall i :: 0 <= i < |s| ==> SlugChar(s[i])
    ensures forall i :: 0 <= i < |s| ==> !Text.IsWhitespace(s[i])
  {
  }

  /** Lower-casing leaves slug characters alone. */
  lemma LowerSlugChars(s: string)
    requires forall i :: 0 <= i < |s| ==> SlugChar(s[i])
    ensures Text.ToLower(s) == s
  {
    assert forall i :: 0 <= i < |s| ==> Text.ToLower(s)[i] == s[i];
  }

  /** Every step of the chain leaves a slug as it is. */
  lemma SlugFixed(r: string)
    requires forall i :: 0 <= i < |r| ==> SlugChar(r[i])
    requires NoDoubleHyphen(r)
    ensures SlugFromTitle(r) == r
  {
    LowerSlugChars(r);
    KeepAllSlugChars(r);
    SlugCharsNotWhitespace(r);
    CollapseSingles(r, Text.IsWhitespace, '-');
    CollapseSingles(r, IsHyphen, '-');
    TrimNoWhitespace(r);
  }

  /** Suggesting a slug for a suggested slug gives it back. */
  lemma SlugIdempotent(title: string)
    ensures SlugFromTitle(SlugFromTitle(title)) == SlugFromTitle(title)
  {
    SlugShape(title);
    SlugFixed(SlugFromTitle(title));
  }

  /** The first replace keeps a string of slug characters whole. */
  lemma {:induction false} KeepAllSlugChars(s: string)
    requires forall i :: 0 <= i < |s| ==> SlugChar(s[i])
    ensures KeepSlugSource(s) == s
  {
    if |s| > 0 {
      KeepAllSlugChars(s[1..]);
    }
  }

  // --------------------------------------------------------------- state

  /** The component state of the dashboard. */
  class DashboardState {
    var skills: seq<Skill>
    var projects: seq<Project>
    var isAddingSkill: bool
    var newSkillName: string
    var newSkillCategory: string
    var error: string
    var isAddingProject: bool
    var newProject: ProjectForm
    var projectError: string

    /** The initial state over the given lists (the mock tables). */
    constructor(initialSkills: seq<Skill>, initialProjects: seq<Project>)
      ensures skills == initialSkills && projects == initialProjects
      ensures !isAddingSkill && newSkillName == "" && newSkillCategory == "" && error == ""
      ensures !isAddingProject && newProject == EmptyProjectForm && projectError == ""
    {
      skills := initialSkills;
      projects := initialProjects;
      isAddingSkill := false;
      newSkillName := "";
      newSkillCategory := "";
      error := "";
      isAddingProject := false;
      newProject := EmptyProjectForm;
      projectError := "";
    }

    /** `handleAddSkill`: on a form error only the error line changes; on
        success one skill is appended and the form is cleared and closed. */
    method HandleAddSkill(now: Timestamp)
      modifies this
      ensures var e := SkillFormError(old(skills), old(newSkillName), old(newSkillCategory));
              if e.Some? then
                && error == e.value && skills == old(skills)
                && newSkillName == old(newSkillName) && newSkillCategory == old(newSkillCategory)
                && isAddingSkill == old(isAddingSkill)
              else
                && error == ""
                && skills == old(skills) + [NewSkill(old(skills), old(newSkillName), old(newSkillCategory), now)]
                && newSkillName == "" && newSkillCategory == "" && !isAddingSkill
      ensures projects == old(projects) && newProject == old(newProject)
      ensures isAddingProject == old(isAddingProject) && projectError == old(projectError)
    {
      error := "";
      if Text.IsBlank(newSkillName) {
        error := "Skill name is required";
        return;
      }
      if Text.IsBlank(newSkillCategory) {
        error := "Skill category is required";
        return;
      }
      var isDuplicate := NameTaken(skills, newSkillName);
      if isDuplicate {
        error := DuplicateSkillMessage;
        return;
      }
      var newSkill := Skill(NextId(skills, SkillId), Text.Trim(newSkillName), newSkillCategory,
                            NewSkillLevel, Some(NewSkillIcon), Some(NewSkillColor), Some(now));
      skills := skills + [newSkill];
      newSkillName := "";
      newSkillCategory := "";
      isAddingSkill := false;
    }

    /** `handleCancelAddSkill` */
    method HandleCancelAddSkill()
      modifies this
      ensures !isAddingSkill && newSkillName == "" && newSkillCategory == "" && error == ""
      ensures skills == old(skills) && projects == old(projects) && newProject == old(newProject)
      ensures isAddingProject == old(isAddingProject) && projectError == old(projectError)
    {
      isAddingSkill := false;
      newSkillName := "";
      newSkillCategory := "";
      error := "";
    }

    /** `handleRemoveSkill`: the skills with another id, in order. */
    method HandleRemoveSkill(id: int)
      modifies this
      ensures skills == Filter(old(skills), WithoutSkill(id))
      ensures projects == old(projects) && newProject == old(newProject)
      ensures isAddingSkill == old(isAddingSkill) && newSkillName == old(newSkillName)
      ensures newSkillCategory == old(newSkillCategory) && error == old(error)
      ensures isAddingProject == old(isAddingProject) && projectError == old(projectError)
    {
      skills := Filter(skills, WithoutSkill(id));
    }

    /** `handleAddProject`: on a form error only the error line changes; on
        success one project is appended and the form is reset and closed.
        `date` is `new Date(form.date)`. */
    method HandleAddProject(date: Timestamp, now: Timestamp)
      modifies this
      ensures var e := ProjectFormError(old(projects), old(newProject));
              if e.Some? then
                && projectError == e.value && projects == old(projects)
                && newProject == old(newProject) && isAddingProject == old(isAddingProject)
              else
                && projectError == ""
                && projects == old(projects) + [NewProject(old(projects), old(newProject), date, now)]
                && newProject == EmptyProjectForm && !isAddingProject
      ensures skills == old(skills) && isAddingSkill == old(isAddingSkill)
      ensures newSkillName == old(newSkillName) && newSkillCategory == old(newSkillCategory)
      ensures error == old(error)
    {
      projectError := "";
      var form := newProject;
      if Text.IsBlank(form.title) {
        projectError := "Project title is required";
        return;
      }
      if Text.IsBlank(form.slug) {
        projectError := "Project slug is required";
        return;
      }
      if Text.IsBlank(form.company) {
        projectError := "Company is required";
        return;
      }
      if form.date == "" {
        projectError := "Date is required";
        return;
      }
      if Text.IsBlank(form.description) {
        projectError := "Description is required";
        return;
      }
      if Text.IsBlank(form.caseStudy) {
        projectError := "Case study is required";
        return;
      }
      var isDuplicateSlug := SlugTaken(projects, form.slug);
      if isDuplicateSlug {
        projectError := DuplicateSlugMessage;
        return;
      }
      var created := Project(NextId(projects, ProjectId), Text.Trim(form.title), Text.Trim(form.slug),
                             Text.Trim(form.company), Some(date), Text.Trim(form.description),
                             Some(form.githubUrl), Some(form.demoUrl), Some(form.imageUrl),
                             Some(Text.Trim(form.caseStudy)), Some(form.featured), Some(now));
      projects := projects + [created];
      newProject := EmptyProjectForm;
      isAddingProject := false;
    }

    /** `handleCancelAddProject` */
    method HandleCancelAddProject()
      modifies this
      ensures !isAddingProject && newProject == EmptyProjectForm && projectError == ""
      ensures skills == old(skills) && projects == old(projects) && isAddingSkill == old(isAddingSkill)
      ensures newSkillName == old(newSkillName) && newSkillCategory == old(newSkillCategory)
      ensures error == old(error)
    {
      isAddingProject := false;
      newProject := EmptyProjectForm;
      projectError := "";
    }

    /** `handleRemoveProject`: the projects with another id, in order. */
    method HandleRemoveProject(id: int)
      modifies this
      ensures projects == Filter(old(projects), WithoutProject(id))
      ensures skills == old(skills) && newProject == old(newProject)
      ensures isAddingSkill == old(isAddingSkill) && newSkillName == old(newSkillName)
      ensures newSkillCategory == old(newSkillCategory) && error == old(error)
      ensures isAddingProject == old(isAddingProject) && projectError == old(projectError)
    {
      projects := Filter(projects, WithoutProject(id));
    }
  }
}
