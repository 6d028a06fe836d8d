/**
 * The in-memory query helpers over the mock tables: every project with its
 * linked skills, every skill with its linked projects, one project by slug,
 * and the featured projects. Grouping the mock skills by category is
 * `CategoryGroups.GroupByCategory`.
 */
module MockData {
  import opened Wrappers
  import opened Seqs
  import opened Schema

  /** The skill ids the association rows link to project `pid`. */
  function LinkedSkillIds(assoc: seq<ProjectToSkill>, pid: int): (r: seq<int>)
    ensures |r| <= |assoc|
    ensures forall sid :: sid in r <==> ProjectToSkill(pid, sid) in assoc
  {
    if |assoc| == 0 then []
    else
      var init := assoc[..|assoc| - 1];
      var last := assoc[|assoc| - 1];
      assert assoc == init + [last];
      LinkedSkillIds(init, pid) + (if last.projectId == pid then [last.skillId] else [])
  }

  /** The project ids the association rows link to skill `sid`. */
  function LinkedProjectIds(assoc: seq<ProjectToSkill>, sid: int): (r: seq<int>)
    ensures |r| <= |assoc|
    ensures forall pid :: pid in r <==> ProjectToSkill(pid, sid) in assoc
  {
    if |assoc| == 0 then []
    else
      var init := assoc[..|assoc| - 1];
      var last := assoc[|assoc| - 1];
      assert assoc == init + [last];
      LinkedProjectIds(init, sid) + (if last.skillId == sid then [last.projectId] else [])
  }

  /** `skillIds.includes(skill.id)` */
  function LinkedToProject(assoc: seq<ProjectToSkill>, pid: int): Skill -> bool
  {
    (s: Skill) => s.id in LinkedSkillIds(assoc, pid)
  }

  /** `projectIds.includes(project.id)` */
  function LinkedToSkill(assoc: seq<ProjectToSkill>, sid: int): Project -> bool
  {
    (p: Project) => p.id in LinkedProjectIds(assoc, sid)
  }

  /** The skills of project `pid`, in skill-table order. */
  function SkillsOf(ss: seq<Skill>, assoc: seq<ProjectToSkill>, pid: int): (r: seq<Skill>)
    ensures forall i :: 0 <= i < |r| ==> r[i] in ss && ProjectToSkill(pid, r[i].id) in assoc
    ensures forall k :: 0 <= k < |ss| && ProjectToSkill(pid, ss[k].id) in assoc ==> ss[k] in r
  {
    Filter(ss, LinkedToProject(assoc, pid))
  }

  /** The projects of skill `sid`, in project-table order. */
  function ProjectsOf(ps: seq<Project>, assoc: seq<ProjectToSkill>, sid: int): (r: seq<Project>)
    ensures forall i :: 0 <= i < |r| ==> r[i] in ps && ProjectToSkill(r[i].id, sid) in assoc
    ensures forall k :: 0 <= k < |ps| && ProjectToSkill(ps[k].id, sid) in assoc ==> ps[k] in r
  {
    Filter(ps, LinkedToSkill(assoc, sid))
  }

  /** The linked skills keep table order, and a skill table with distinct
      ids yields no skill twice, however often a link is stored. */
  lemma SkillsOfOrdered(ss: seq<Skill>, assoc: seq<ProjectToSkill>, pid: int)
    ensures IsSubseq(SkillsOf(ss, assoc, pid), ss)
    ensures Distinct(KeysOf(ss, SkillId)) ==> Distinct(KeysOf(SkillsOf(ss, assoc, pid), SkillId))
  {
    FilterIsSubseq(ss, LinkedToProject(assoc, pid));
    if Distinct(KeysOf(ss, SkillId)) {
      SubseqDistinct(SkillsOf(ss, assoc, pid), ss, SkillId);
    }
  }

  /** Storing a link a second time changes no project's skill list. */
  lemma RepeatedLinkChangesNothing(ss: seq<Skill>, assoc: seq<ProjectToSkill>, pid: int, k: int)
    requires 0 <= k < |assoc|
    ensures SkillsOf(ss, assoc + [assoc[k]], pid) == SkillsOf(ss, assoc, pid)
  {
    var assoc' := assoc + [assoc[k]];
    forall i | 0 <= i < |ss|
      ensures LinkedToProject(assoc', pid)(ss[i]) == LinkedToProject(assoc, pid)(ss[i])
    {
      assert ProjectToSkill(pid, ss[i].id) in assoc' <==> ProjectToSkill(pid, ss[i].id) in assoc;
    }
    FilterExt(ss, LinkedToProject(assoc', pid), LinkedToProject(assoc, pid));
  }

  /** Every project, in table order, with the skills linked to it. */
  function ProjectsWithSkills(ps: seq<Project>, ss: seq<Skill>, assoc: seq<ProjectToSkill>)
    : (r: seq<ProjectWithSkills>)
    ensures |r| == |ps|
    ensures forall i :: 0 <= i < |r| ==> r[i].project == ps[i]
    ensures forall i, s :: 0 <= i < |r| ==>
              (s in r[i].skills <==> s in ss && ProjectToSkill(ps[i].id, s.id) in assoc)
  {
    seq(|ps|, i requires 0 <= i < |ps| => ProjectWithSkills(ps[i], SkillsOf(ss, assoc, ps[i].id)))
  }

  /** Every skill, in table order, with the projects linked to it. */
  function SkillsWithProjects(ps: seq<Project>, ss: seq<Skill>, assoc: seq<ProjectToSkill>)
    : (r: seq<SkillWithProjects>)
    ensures |r| == |ss|
    ensures forall j :: 0 <= j < |r| ==> r[j].skill == ss[j]
    ensures forall j, p :: 0 <= j < |r| ==>
              (p in r[j].projects <==> p in ps && ProjectToSkill(p.id, ss[j].id) in assoc)
  {
    seq(|ss|, j requires 0 <= j < |ss| => SkillWithProjects(ss[j], ProjectsOf(ps, assoc, ss[j].id)))
  }

  /** The two directions of the join agree: a skill is listed under a
      project exactly when the project is listed under the skill. */
  lemma {:induction false} JoinsAreSymmetric(ps: seq<Project>, ss: seq<Skill>, assoc: seq<ProjectToSkill>, i: int, j: int)
    requires 0 <= i < |ps| && 0 <= j < |ss|
    ensures ss[j] in ProjectsWithSkills(ps, ss, assoc)[i].skills
        <==> ps[i] in SkillsWithProjects(ps, ss, assoc)[j].projects
  {
    var pws := ProjectsWithSkills(ps, ss, assoc);
    var swp := SkillsWithProjects(ps, ss, assoc);
    assert ss[j] in pws[i].skills <==> ProjectToSkill(ps[i].id, ss[j].id) in assoc;
    assert ps[i] in swp[j].projects <==> ProjectToSkill(ps[i].id, ss[j].id) in assoc;
  }

  /** `projectsData.find(p => p.slug === slug)`, as an index. */
  function FindBySlug(ps: seq<Project>, slug: string): (r: Option<nat>)
    ensures r.None? <==> forall i :: 0 <= i < |ps| ==> ps[i].slug != slug
    ensures r.Some? ==> r.value < |ps| && ps[r.value].slug == slug
                        && forall j :: 0 <= j < r.value ==> ps[j].slug != slug
  {
    if |ps| == 0 then None
    else if ps[0].slug == slug then Some(0)
    else match FindBySlug(ps[1..], slug)
      case None => None
      case Some(i) => Some(i + 1)
  }

  /** The first project with the slug, with its skills; `None` when no
      project has it. */
  function ProjectBySlug(ps: seq<Project>, ss: seq<Skill>, assoc: seq<ProjectToSkill>, slug: string)
    : (r: Option<ProjectWithSkills>)
    ensures r.None? <==> forall i :: 0 <= i < |ps| ==> ps[i].slug != slug
    ensures r.Some? ==> r.value.project.slug == slug
  {
    match FindBySlug(ps, slug)
    case None => None
    case Some(i) => Some(ProjectWithSkills(ps[i], SkillsOf(ss, assoc, ps[i].id)))
  }

  /** Looking a project up by slug returns the same entry as the bulk
      query, at the first project carrying that slug. */
  lemma BySlugAgreesWithBulk(ps: seq<Project>, ss: seq<Skill>, assoc: seq<ProjectToSkill>, slug: string, i: int)
    requires 0 <= i < |ps| && ps[i].slug == slug
    requires forall j :: 0 <= j < i ==> ps[j].slug != slug
    ensures ProjectBySlug(ps, ss, assoc, slug) == Some(ProjectsWithSkills(ps, ss, assoc)[i])
  {
    var f := FindBySlug(ps, slug);
    assert f.Some?;
    assert f.value == i;
  }

  /** With unique slugs the lookup finds the one project with that slug. */
  lemma BySlugUnique(ps: seq<Project>, ss: seq<Skill>, assoc: seq<ProjectToSkill>, i: int)
    requires ProjectKeysUnique(ps) && 0 <= i < |ps|
    ensures ProjectBySlug(ps, ss, assoc, ps[i].slug) == Some(ProjectsWithSkills(ps, ss, assoc)[i])
  {
    BySlugAgreesWithBulk(ps, ss, assoc, ps[i].slug, i);
  }

  /** `project.featured === 1` on a joined entry. */
  predicate FeaturedEntry(e: ProjectWithSkills)
  {
    IsFeatured(e.project)
  }

  /** The featured projects, with their skills, in table order. */
  function FeaturedProjects(ps: seq<Project>, ss: seq<Skill>, assoc: seq<ProjectToSkill>)
    : (r: seq<ProjectWithSkills>)
    ensures forall i :: 0 <= i < |r| ==> IsFeatured(r[i].project)
  {
    Filter(ProjectsWithSkills(ps, ss, assoc), FeaturedEntry)
  }

  /** The featured list is the bulk list with exactly the non-featured
      projects removed. */
  lemma FeaturedIsFilteredBulk(ps: seq<Project>, ss: seq<Skill>, assoc: seq<ProjectToSkill>)
    ensures IsSubseq(FeaturedProjects(ps, ss, assoc), ProjectsWithSkills(ps, ss, assoc))
    ensures forall i :: 0 <= i < |ps| ==>
              (ProjectsWithSkills(ps, ss, assoc)[i] in FeaturedProjects(ps, ss, assoc) <==> IsFeatured(ps[i]))
  {
    var all := ProjectsWithSkills(ps, ss, assoc);
    FilterIsSubseq(all, FeaturedEntry);
    forall i | 0 <= i < |ps|
      ensures all[i] in FeaturedProjects(ps, ss, assoc) <==> IsFeatured(ps[i])
    {
      if all[i] in FeaturedProjects(ps, ss, assoc) {
        var r := FeaturedProjects(ps, ss, assoc);
        var m :| 0 <= m < |r| && r[m] == all[i];
      }
    }
  }
}
