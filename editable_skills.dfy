/**
 * The skill badges of a project page in edit mode: the current skills,
 * the skills still available to add, and the add/remove handlers, whose
 * server call reports success or failure.
 */
module EditableSkills {
  import opened Wrappers
  import opened Seqs
  import opened Schema

  /** `assignedSkills.some((assigned) => assigned.id === id)` */
  predicate IsAssigned(current: seq<TaggedSkill>, id: int)
  {
    exists k :: 0 <= k < |current| && current[k].id == id
  }

  function NotAssigned(current: seq<TaggedSkill>): TaggedSkill -> bool
  {
    (skill: TaggedSkill) => !IsAssigned(current, skill.id)
  }

  /** `availableSkills`: the skills of the catalogue no current skill
      shares an id with, in catalogue order. */
  function AvailableSkills(allSkills: seq<TaggedSkill>, current: seq<TaggedSkill>): (r: seq<TaggedSkill>)
  {
    Filter(allSkills, NotAssigned(current))
  }

  /** A catalogue skill is offered exactly when its id is not current; the
      offer keeps the catalogue order. */
  lemma AvailableMeaning(allSkills: seq<TaggedSkill>, current: seq<TaggedSkill>)
    ensures forall s :: s in AvailableSkills(allSkills, current) <==> s in allSkills && !IsAssigned(current, s.id)
    ensures IsSubseq(AvailableSkills(allSkills, current), allSkills)
  {
    var r := AvailableSkills(allSkills, current);
    forall s | s in r
      ensures s in allSkills && !IsAssigned(current, s.id)
    {
      var i :| 0 <= i < |r| && r[i] == s;
    }
    FilterIsSubseq(allSkills, NotAssigned(current));
  }

  /** The offered and the current skills share no id. */
  lemma AvailableDisjoint(allSkills: seq<TaggedSkill>, current: seq<TaggedSkill>)
    ensures forall i, j :: 0 <= i < |AvailableSkills(allSkills, current)| && 0 <= j < |current| ==>
              AvailableSkills(allSkills, current)[i].id != current[j].id
  {
  }

  /** `assignedSkills.filter((s) => s.id !== skillId)` */
  function WithoutSkillId(skillId: int): TaggedSkill -> bool
  {
    (s: TaggedSkill) => s.id != skillId
  }

  /** Once a skill is current it is no longer offered. */
  lemma AddedIsWithdrawn(allSkills: seq<TaggedSkill>, current: seq<TaggedSkill>, skill: TaggedSkill)
    ensures forall s :: s in AvailableSkills(allSkills, current + [skill]) ==> s.id != skill.id
    ensures IsSubseq(AvailableSkills(allSkills, current + [skill]), AvailableSkills(allSkills, current))
  {
    var after := current + [skill];
    assert after[|current|].id == skill.id;
    forall id | IsAssigned(current, id)
      ensures IsAssigned(after, id)
    {
      var k :| 0 <= k < |current| && current[k].id == id;
      assert after[k].id == id;
    }
    FilterMonotone(allSkills, NotAssigned(after), NotAssigned(current));
  }

  /** Once a skill id is unassigned, every catalogue skill with that id is
      offered again (unless another current skill shares the id). */
  lemma RemovedIsOffered(allSkills: seq<TaggedSkill>, current: seq<TaggedSkill>, skillId: int)
    ensures forall s :: s in allSkills && s.id == skillId ==>
              s in AvailableSkills(allSkills, Filter(current, WithoutSkillId(skillId)))
  {
    var after := Filter(current, WithoutSkillId(skillId));
    forall s | s in allSkills && s.id == skillId
      ensures s in AvailableSkills(allSkills, after)
    {
      forall k | 0 <= k < |after|
        ensures after[k].id != skillId
      {
        assert WithoutSkillId(skillId)(after[k]);
      }
      var i :| 0 <= i < |allSkills| && allSkills[i] == s;
    }
  }

  /** The component's state; `assignedSkills` is the parent's list, which
      `onUpdate` replaces. */
  class SkillsEditor {
    const allSkills: seq<TaggedSkill>
    var assignedSkills: seq<TaggedSkill>
    var isAdding: bool
    var isLoading: Option<int>

    constructor(current: seq<TaggedSkill>, catalogue: seq<TaggedSkill>)
      ensures assignedSkills == current && allSkills == catalogue
      ensures !isAdding && isLoading == None
    {
      allSkills := catalogue;
      assignedSkills := current;
      isAdding := false;
      isLoading := None;
    }

    /** The "Add Skill" control: shown while the picker is closed and some
        skill is left to add. */
    function ShowsAddButton(): (r: bool)
      reads this
      ensures r <==> !isAdding && exists s :: s in allSkills && !IsAssigned(assignedSkills, s.id)
    {
      AvailableMeaning(allSkills, assignedSkills);
      var available := AvailableSkills(allSkills, assignedSkills);
      if |available| > 0 then
        assert available[0] in available;
        !isAdding
      else
        false
    }

    /** `setIsAdding(true)` and `setIsAdding(false)` of the picker. */
    method SetIsAdding(open: bool)
      modifies this
      ensures isAdding == open
      ensures assignedSkills == old(assignedSkills) && isLoading == old(isLoading)
    {
      isAdding := open;
    }

    /** `handleRemoveSkill`; `succeeded` is the server's answer, a throw
        counting as failure. On success every entry with that id is
        dropped; the loading marker is cleared either way. */
    method HandleRemoveSkill(skillId: int, succeeded: bool)
      modifies this
      ensures assignedSkills == if succeeded then Filter(old(assignedSkills), WithoutSkillId(skillId)) else old(assignedSkills)
      ensures isLoading == None && isAdding == old(isAdding)
    {
      isLoading := Some(skillId);
      if succeeded {
        assignedSkills := Filter(assignedSkills, WithoutSkillId(skillId));
      }
      isLoading := None;
    }

    /** `handleAddSkill`; on success the skill is appended. The loading
        marker is cleared and the picker closed either way. */
    method HandleAddSkill(skill: TaggedSkill, succeeded: bool)
      modifies this
      ensures assignedSkills == if succeeded then old(assignedSkills) + [skill] else old(assignedSkills)
      ensures isLoading == None && !isAdding
    {
      isLoading := Some(skill.id);
      if succeeded {
        var copy := TaggedSkill(skill.id, skill.name, skill.categories, skill.level,
                                skill.icon, skill.color, skill.createdAt);
        assignedSkills := assignedSkills + [copy];
      }
      isLoading := None;
      isAdding := false;
    }
  }
}
