/**
 * The "magical" skill cards of the home page: one card per category, a
 * tier label for each skill's level, a card selected by clicking it (a
 * second click deselects), and the rounded average level of a category.
 */
module SkillCard {
  import opened Wrappers

  /** A skill of a card: its name and level in percent. */
  datatype CardSkill = CardSkill(name: string, level: int)

  /** A category card; its icon and gradient are presentation only. */
  datatype SkillCategory = SkillCategory(name: string, skills: seq<CardSkill>)

  /** `skillCategories` */
  const SkillCategories: seq<SkillCategory> := [
    SkillCategory("Frontend", [CardSkill("React", 90), CardSkill("TypeScript", 85),
                               CardSkill("Next.js", 85), CardSkill("Tailwind CSS", 90)]),
    SkillCategory("Backend", [CardSkill("Node.js", 85), CardSkill("Express", 80),
                              CardSkill("GraphQL", 75), CardSkill("REST APIs", 90)]),
    SkillCategory("Database", [CardSkill("MongoDB", 80), CardSkill("PostgreSQL", 75),
                               CardSkill("Redis", 70), CardSkill("Prisma", 80)]),
    SkillCategory("Cloud & DevOps", [CardSkill("AWS", 70), CardSkill("Docker", 75),
                                     CardSkill("CI/CD", 80), CardSkill("Vercel", 85)]),
    SkillCategory("Testing", [CardSkill("Jest", 75), CardSkill("Cypress", 70),
                              CardSkill("React Testing", 80), CardSkill("E2E Testing", 75)]),
    SkillCategory("Tools", [CardSkill("Git", 90), CardSkill("Webpack", 70),
                            CardSkill("Vite", 80), CardSkill("Redux", 80)])
  ]

  // ---------------------------------------------------------------- tier

  /** The tooltip's tier, lowest first. */
  datatype Tier = Learning | Intermediate | Advanced | Expert

  function Rank(t: Tier): nat
  {
    match t
    case Learning => 0
    case Intermediate => 1
    case Advanced => 2
    case Expert => 3
  }

  function TierLabel(t: Tier): string
  {
    match t
    case Learning => "Learning"
    case Intermediate => "Intermediate"
    case Advanced => "Advanced"
    case Expert => "Expert"
  }

  /** The tier of a level: Expert from 85, Advanced from 70, Intermediate
      from 50, Learning below. */
  function TierOf(level: int): (r: Tier)
    ensures r == Expert <==> level >= 85
    ensures r == Advanced <==> 70 <= level < 85
    ensures r == Intermediate <==> 50 <= level < 70
    ensures r == Learning <==> level < 50
  {
    if level >= 85 then Expert
    else if level >= 70 then Advanced
    else if level >= 50 then Intermediate
    else Learning
  }

  /** A higher level never gets a lower tier. */
  lemma TierMonotone(a: int, b: int)
    requires a <= b
    ensures Rank(TierOf(a)) <= Rank(TierOf(b))
  {
  }

  // ----------------------------------------------------------- selection

  /** `selectedCategory === index ? null : index` */
  function Toggle(selected: Option<nat>, index: nat): (r: Option<nat>)
    ensures r == Some(index) <==> selected != Some(index)
    ensures r.None? <==> selected == Some(index)
  {
    if selected == Some(index) then None else Some(index)
  }

  /** Clicking the same card twice restores the selection exactly when no
      card or that card was selected before; when another card was, the
      two clicks leave none selected. */
  lemma ToggleTwice(selected: Option<nat>, index: nat)
    ensures Toggle(Toggle(selected, index), index) == selected <==> selected.None? || selected == Some(index)
    ensures selected.Some? && selected != Some(index) ==> Toggle(Toggle(selected, index), index).None?
  {
  }

  // ------------------------------------------------------------- average

  /** `skills.reduce((acc, skill) => acc + skill.level, 0)` */
  function SumLevels(skills: seq<CardSkill>): int
  {
    if |skills| == 0 then 0 else SumLevels(skills[..|skills| - 1]) + skills[|skills| - 1].level
  }

  /** `Math.round(sum / n)` for a positive `n`: JavaScript rounds halves up,
      which on integers is `floor((2 * sum + n) / (2 * n))`. */
  function RoundedMean(sum: int, n: int): (r: int)
    requires n > 0
    ensures 2 * n * r <= 2 * sum + n < 2 * n * r + 2 * n
  {
    var q := (2 * sum + n) / (2 * n);
    DivBounds(2 * sum + n, 2 * n);
    q
  }

  /** Euclidean division brackets its dividend. */
  lemma DivBounds(a: int, d: int)
    requires d > 0
    ensures d * (a / d) <= a < d * (a / d) + d
  {
  }

  /** The "Avg" of a card. */
  function AverageLevel(skills: seq<CardSkill>): (r: int)
    requires |skills| > 0
  {
    RoundedMean(SumLevels(skills), |skills|)
  }

  /** The levels all lie between `lo` and `hi`. */
  predicate LevelsWithin(skills: seq<CardSkill>, lo: int, hi: int)
  {
    forall k :: 0 <= k < |skills| ==> lo <= skills[k].level <= hi
  }

  /** The sum of levels within bounds lies within the bounds times the
      count. */
  lemma {:induction false} SumWithin(skills: seq<CardSkill>, lo: int, hi: int)
    requires LevelsWithin(skills, lo, hi)
    ensures |skills| * lo <= SumLevels(skills) <= |skills| * hi
  {
    if |skills| > 0 {
      var init := skills[..|skills| - 1];
      assert LevelsWithin(init, lo, hi) by {
        forall k | 0 <= k < |init| ensures lo <= init[k].level <= hi {
          assert init[k] == skills[k];
        }
      }
      SumWithin(init, lo, hi);
      assert |skills| * lo == |init| * lo + lo;
      assert |skills| * hi == |init| * hi + hi;
    }
  }

  /** A rounded mean of values between `lo` and `hi` is between them too. */
  lemma RoundedMeanWithin(sum: int, n: int, lo: int, hi: int)
    requires n > 0 && n * lo <= sum <= n * hi
    ensures lo <= RoundedMean(sum, n) <= hi
  {
    var r := RoundedMean(sum, n);
    MulMonotone(2, n * lo, sum);
    MulMonotone(2, sum, n * hi);
    assert 2 * n * lo < 2 * n * (r + 1);
    MulCancel(2 * n, lo, r + 1);
    assert 2 * n * r < 2 * n * (hi + 1);
    MulCancel(2 * n, r, hi + 1);
  }

  lemma MulMonotone(c: int, a: int, b: int)
    requires c > 0 && a <= b
    ensures c * a <= c * b
  {
  }

  /** A positive factor can be cancelled from a strict inequality. */
  lemma MulCancel(c: int, a: int, b: int)
    requires c > 0 && c * a < c * b
    ensures a < b
  {
  }

  /** The average of a card lies between its lowest and its highest level. */
  lemma AverageWithin(skills: seq<CardSkill>, lo: int, hi: int)
    requires |skills| > 0 && LevelsWithin(skills, lo, hi)
    ensures lo <= AverageLevel(skills) <= hi
  {
    SumWithin(skills, lo, hi);
    RoundedMeanWithin(SumLevels(skills), |skills|, lo, hi);
  }

  /** Frontend's levels sum to 350 over four skills: 87.5 rounds up to 88. */
  lemma FrontendAverageRoundsUp()
    ensures SumLevels(SkillCategories[0].skills) == 350
    ensures AverageLevel(SkillCategories[0].skills) == 88
  {
    var s := SkillCategories[0].skills;
    assert SumLevels(s[..1]) == 90 by { assert s[..1][..0] == []; }
    assert SumLevels(s[..2]) == 175 by { assert s[..2][..1] == s[..1]; }
    assert SumLevels(s[..3]) == 260 by { assert s[..3][..2] == s[..2]; }
    assert SumLevels(s) == 350 by { assert s[..3] == s[..|s| - 1]; }
  }

  // --------------------------------------------------------------- state

  /** The cards' state: the selected card and the skill under the pointer. */
  class SkillCards {
    var selectedCategory: Option<nat>
    var hoveredSkill: Option<string>

    constructor()
      ensures selectedCategory == None && hoveredSkill == None
    {
      selectedCategory := None;
      hoveredSkill := None;
    }

    /** A click on card `index`. */
    method ClickCard(index: nat)
      modifies this
      ensures selectedCategory == Toggle(old(selectedCategory), index)
      ensures hoveredSkill == old(hoveredSkill)
    {
      selectedCategory := if selectedCategory == Some(index) then None else Some(index);
    }

    /** `onMouseEnter` of a skill row. */
    method MouseEnter(name: string)
      modifies this
      ensures hoveredSkill == Some(name) && selectedCategory == old(selectedCategory)
    {
      hoveredSkill := Some(name);
    }

    /** `onMouseLeave` of a skill row. */
    method MouseLeave()
      modifies this
      ensures hoveredSkill == None && selectedCategory == old(selectedCategory)
    {
      hoveredSkill := None;
    }

    /** A skill's bar is filled when its card is selected or the skill is
        under the pointer. */
    function BarWidth(index: nat, skill: CardSkill): (r: int)
      reads this
      ensures r == skill.level || r == 0
      ensures r == skill.level <== selectedCategory == Some(index) || hoveredSkill == Some(skill.name)
      ensures selectedCategory != Some(index) && hoveredSkill != Some(skill.name) ==> r == 0
    {
      if selectedCategory == Some(index) || hoveredSkill == Some(skill.name) then skill.level else 0
    }
  }
}
