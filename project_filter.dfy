/**
 * The tarot-spread project filter: three slots, each empty or holding a
 * skill dropped from the deck, and the list of projects shown, which is
 * every project carrying every selected skill.
 */
module ProjectFilter {
  import opened Wrappers
  import opened Seqs
  import opened Schema

  /** The spread has three slots. */
  const SlotCount := 3

  /** The index of a slot; the slots are rendered from the slot list, so a
      drop target or a remove button only ever names one of them. */
  type Position = i: int | 0 <= i < SlotCount

  /** `[null, null, null]` */
  const EmptySlots: seq<Option<Skill>> := [None, None, None]

  /** `skills.filter((skill) => skill !== null)`: the selected skills, in
      slot order. */
  function Selected(slots: seq<Option<Skill>>): (r: seq<Skill>)
    ensures |r| <= |slots|
    ensures forall s :: s in r <==> Some(s) in slots
  {
    if |slots| == 0 then []
    else
      var init := Selected(slots[..|slots| - 1]);
      assert slots == slots[..|slots| - 1] + [slots[|slots| - 1]];
      match slots[|slots| - 1]
      case None => init
      case Some(s) => init + [s]
  }

  /** `project.skills.some((projectSkill) => projectSkill.id === id)` */
  predicate HasSkill(p: ProjectWithSkills, id: int)
  {
    exists k :: 0 <= k < |p.skills| && p.skills[k].id == id
  }

  /** `validSkills.every((s) => project.skills.some(...))` */
  predicate CarriesAll(p: ProjectWithSkills, selected: seq<Skill>)
  {
    forall s :: s in selected ==> HasSkill(p, s.id)
  }

  function CarriesAllOf(selected: seq<Skill>): ProjectWithSkills -> bool
  {
    (p: ProjectWithSkills) => CarriesAll(p, selected)
  }

  /** `filterProjects`: every project when no slot holds a skill, otherwise
      the projects carrying every selected skill, in catalogue order. */
  function FilterProjects(all: seq<ProjectWithSkills>, slots: seq<Option<Skill>>): (r: seq<ProjectWithSkills>)
  {
    var validSkills := Selected(slots);
    if |validSkills| == 0 then all
    else Filter(all, CarriesAllOf(validSkills))
  }

  /** The early return for an empty spread is the general filter with a
      condition that every project meets. */
  lemma FilterProjectsIsFilter(all: seq<ProjectWithSkills>, slots: seq<Option<Skill>>)
    ensures FilterProjects(all, slots) == Filter(all, CarriesAllOf(Selected(slots)))
  {
    if |Selected(slots)| == 0 {
      FilterAll(all, CarriesAllOf(Selected(slots)));
    }
  }

  /** With every slot empty all projects are shown; otherwise a project is
      shown exactly when it carries every selected skill; either way the
      shown list keeps the catalogue order. */
  lemma ShownMeaning(all: seq<ProjectWithSkills>, slots: seq<Option<Skill>>)
    ensures (forall j :: 0 <= j < |slots| ==> slots[j].None?) ==> FilterProjects(all, slots) == all
    ensures forall p :: p in FilterProjects(all, slots) <==> p in all && CarriesAll(p, Selected(slots))
    ensures IsSubseq(FilterProjects(all, slots), all)
  {
    FilterProjectsIsFilter(all, slots);
    FilterIsSubseq(all, CarriesAllOf(Selected(slots)));
    var r := FilterProjects(all, slots);
    forall p | p in r
      ensures p in all && CarriesAll(p, Selected(slots))
    {
      var i :| 0 <= i < |r| && r[i] == p;
    }
    SelectedCountMeaning(slots);
  }

  /** Every skill selected before a slot is filled is still selected after. */
  lemma FillKeepsSelected(slots: seq<Option<Skill>>, position: int, skill: Skill)
    requires 0 <= position < |slots| && slots[position].None?
    ensures forall s :: s in Selected(slots) ==> s in Selected(slots[position := Some(skill)])
    ensures skill in Selected(slots[position := Some(skill)])
  {
    var filled := slots[position := Some(skill)];
    forall s | s in Selected(slots)
      ensures Some(s) in filled
    {
      var j :| 0 <= j < |slots| && slots[j] == Some(s);
      assert filled[j] == Some(s);
    }
    assert filled[position] == Some(skill);
  }

  /** Filling an empty slot never enlarges the shown list: what is shown
      afterwards was shown before, in the same order. */
  lemma FillNarrows(all: seq<ProjectWithSkills>, slots: seq<Option<Skill>>, position: int, skill: Skill)
    requires 0 <= position < |slots| && slots[position].None?
    ensures IsSubseq(FilterProjects(all, slots[position := Some(skill)]), FilterProjects(all, slots))
  {
    var filled := slots[position := Some(skill)];
    FillKeepsSelected(slots, position, skill);
    FilterProjectsIsFilter(all, slots);
    FilterProjectsIsFilter(all, filled);
    FilterMonotone(all, CarriesAllOf(Selected(filled)), CarriesAllOf(Selected(slots)));
  }

  /** Emptying a slot never shrinks the shown list. */
  lemma ClearWidens(all: seq<ProjectWithSkills>, slots: seq<Option<Skill>>, position: int)
    requires 0 <= position < |slots|
    ensures IsSubseq(FilterProjects(all, slots), FilterProjects(all, slots[position := None]))
  {
    var cleared := slots[position := None];
    if slots[position].Some? {
      assert cleared[position := slots[position]] == slots;
      FillNarrows(all, cleared, position, slots[position].value);
    } else {
      assert cleared == slots;
      FilterIsSubseq(all, CarriesAllOf(Selected(slots)));
      FilterProjectsIsFilter(all, slots);
      SubseqReflexive(FilterProjects(all, slots));
    }
  }

  /** `selectedSkills.filter(Boolean).length`: the number of filled slots,
      zero exactly when every slot is empty. */
  lemma SelectedCountMeaning(slots: seq<Option<Skill>>)
    ensures |Selected(slots)| <= |slots|
    ensures |Selected(slots)| == 0 <==> forall j :: 0 <= j < |slots| ==> slots[j].None?
  {
    forall j | 0 <= j < |slots| && slots[j].Some?
      ensures slots[j].value in Selected(slots)
    {
    }
    if |Selected(slots)| > 0 {
      assert Selected(slots)[0] in Selected(slots);
    }
  }

  /** What a drag carries or lands on (`data.current`). */
  datatype DragData =
    | SkillCard(skill: Skill)
    | Slot(position: Position)
    | Untyped

  /** A drag that ended: what was dragged and what it was dropped on, if
      anything. */
  datatype DragEndEvent = DragEndEvent(active: DragData, over: Option<DragData>)

  /** The filter component's state; the catalogue is the mock join of
      projects with their skills, read afresh on each filter. */
  class FilterState {
    const catalog: seq<ProjectWithSkills>
    var selectedSkills: seq<Option<Skill>>
    var filteredProjects: seq<ProjectWithSkills>
    var activeId: Option<int>

    /** Three slots, and the shown list is always the filter of them. */
    predicate Valid()
      reads this
    {
      |selectedSkills| == SlotCount && filteredProjects == FilterProjects(catalog, selectedSkills)
    }

    constructor(projects: seq<ProjectWithSkills>)
      ensures Valid()
      ensures catalog == projects && selectedSkills == EmptySlots
      ensures filteredProjects == projects && activeId == None
    {
      catalog := projects;
      selectedSkills := EmptySlots;
      filteredProjects := projects;
      activeId := None;
      assert Selected(EmptySlots) == [];
    }

    /** `selectedSkillCount`: at most three. */
    function SelectedSkillCount(): (r: nat)
      reads this
      requires Valid()
      ensures r <= SlotCount
      ensures r == 0 <==> forall j :: 0 <= j < SlotCount ==> selectedSkills[j].None?
    {
      SelectedCountMeaning(selectedSkills);
      |Selected(selectedSkills)|
    }

    /** `filterProjects(skills)` as a state update. */
    method ApplyFilter(skills: seq<Option<Skill>>)
      modifies this
      ensures filteredProjects == FilterProjects(catalog, skills)
      ensures selectedSkills == old(selectedSkills) && activeId == old(activeId)
    {
      var validSkills := Selected(skills);
      if |validSkills| == 0 {
        filteredProjects := catalog;
        return;
      }
      filteredProjects := Filter(catalog, CarriesAllOf(validSkills));
    }

    /** `resetFilter`: all slots empty, every project shown. */
    method ResetFilter()
      modifies this
      ensures Valid()
      ensures selectedSkills == EmptySlots && filteredProjects == catalog
      ensures activeId == old(activeId)
    {
      selectedSkills := EmptySlots;
      filteredProjects := catalog;
      assert Selected(EmptySlots) == [];
    }

    /** `handleDragStart` */
    method HandleDragStart(id: int)
      requires Valid()
      modifies this
      ensures Valid()
      ensures activeId == Some(id)
      ensures selectedSkills == old(selectedSkills) && filteredProjects == old(filteredProjects)
    {
      activeId := Some(id);
    }

    /** `handleDragEnd`: a skill dropped on a slot takes that slot and the
        list is filtered again; any other drop, or none, changes no slot. */
    method HandleDragEnd(event: DragEndEvent)
      requires Valid()
      modifies this
      ensures Valid()
      ensures activeId == None
      ensures if event.active.SkillCard? && event.over.Some? && event.over.value.Slot? then
                selectedSkills == old(selectedSkills)[event.over.value.position := Some(event.active.skill)]
              else
                selectedSkills == old(selectedSkills) && filteredProjects == old(filteredProjects)
    {
      activeId := None;
      if event.over.None? {
        return;
      }
      var activeData := event.active;
      var overData := event.over.value;
      if activeData.SkillCard? && overData.Slot? {
        var newSelectedSkills := selectedSkills[overData.position := Some(activeData.skill)];
        selectedSkills := newSelectedSkills;
        ApplyFilter(newSelectedSkills);
      }
    }

    /** `removeSkillFromSlot`: that slot is emptied, the others kept, and
        the list is filtered again. */
    method RemoveSkillFromSlot(position: Position)
      requires Valid()
      modifies this
      ensures Valid()
      ensures selectedSkills == old(selectedSkills)[position := None]
      ensures activeId == old(activeId)
    {
      var newSelectedSkills := selectedSkills[position := None];
      selectedSkills := newSelectedSkills;
      ApplyFilter(newSelectedSkills);
    }
  }
}
