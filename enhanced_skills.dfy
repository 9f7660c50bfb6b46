/**
 * The enhanced skills grid: the category buttons, the `selectedCategory`
 * filter, the single hovered skill, the category name and colour tables, and
 * the progress bar's value.
 *
 * The skill list is a constructor parameter; the fourteen skills of
 * `EnhancedSkills.tsx` (name, level and category) are a concrete instance.
 */
module EnhancedSkills {
  import opened Wrappers
  import opened Gallery
  import opened ClassStrings

  datatype SkillCategory = Backend | Frontend | Cloud | Database | Design | Devops

  datatype Skill = Skill(name: string, level: int, category: SkillCategory)

  /** The colour name of each entry of `categoryColors`. */
  function Hue(c: SkillCategory): string {
    match c
    case Backend => "primary"
    case Frontend => "accent"
    case Cloud => "orange-500"
    case Database => "blue-500"
    case Design => "pink-500"
    case Devops => "green-500"
  }

  /** `categoryColors`: for instance `bg-orange-500/10 text-orange-500 border-orange-500/20` for cloud. */
  function CategoryColor(c: SkillCategory): string {
    ColourClasses(Hue(c))
  }

  /** `categoryNames`. */
  const CategoryNames: map<SkillCategory, string> := map[
    Backend := "Backend Development",
    Frontend := "Frontend Development",
    Cloud := "Cloud & Infrastructure",
    Database := "Database Management",
    Design := "Design & UX",
    Devops := "DevOps & Tools"]

  /** The name table is total over the categories, so every button and badge label is defined. */
  lemma NamesTotal()
    ensures forall c: SkillCategory :: c in CategoryNames
  {
    forall c: SkillCategory
      ensures c in CategoryNames
    {
      match c
      case Backend =>
      case Frontend =>
      case Cloud =>
      case Database =>
      case Design =>
      case Devops =>
    }
  }

  /** The active category button's classes: for every category, its colour with the first `/10` deleted. */
  lemma ActiveFilterClasses(c: SkillCategory)
    ensures ActiveFilterClass(CategoryColor(c)) == ReplaceFirst(CategoryColor(c), "/10", "")
  {
    ActiveColourClasses(Hue(c));
  }

  function CategoryOf(s: Skill): SkillCategory {
    s.category
  }

  function NameOf(s: Skill): string {
    s.name
  }

  /** `categories`. */
  function Categories(skills: seq<Skill>): seq<SkillCategory> {
    DistinctKeys(skills, CategoryOf)
  }

  /** `filteredSkills`. */
  function Filtered(skills: seq<Skill>, selected: Option<SkillCategory>): seq<Skill> {
    Select(skills, CategoryOf, selected)
  }

  /** The skills' names, in order. */
  function Names(skills: seq<Skill>): seq<string> {
    Keys(skills, NameOf)
  }

  /** The value the progress bar is given: the level once the section is in view, 0 before. */
  function BarValue(s: Skill, inView: bool): (v: int)
    ensures inView ==> v == s.level
    ensures !inView ==> v == 0
  {
    if inView then s.level else 0
  }

  /** A level within a percentage gives a bar value within a percentage, never above the level. */
  lemma BarInRange(s: Skill, inView: bool)
    requires 0 <= s.level <= 100
    ensures 0 <= BarValue(s, inView) <= s.level <= 100
  {
  }

  class View {
    const skills: seq<Skill>
    var selectedCategory: Option<SkillCategory>
    var hoveredSkill: Option<string>

    constructor (skills: seq<Skill>)
      ensures this.skills == skills
      ensures selectedCategory == None && hoveredSkill == None
    {
      this.skills := skills;
      selectedCategory := None;
      hoveredSkill := None;
    }

    function FilteredSkills(): seq<Skill>
      reads this
    {
      Filtered(skills, selectedCategory)
    }

    /** "All Skills". */
    method SelectAll()
      modifies this`selectedCategory
      ensures selectedCategory == None && FilteredSkills() == skills
      ensures hoveredSkill == old(hoveredSkill)
    {
      selectedCategory := None;
    }

    /** A category button. */
    method SelectCategory(c: SkillCategory)
      modifies this`selectedCategory
      ensures selectedCategory == Some(c)
      ensures hoveredSkill == old(hoveredSkill)
    {
      selectedCategory := Some(c);
    }

    /** `onHoverStart` of a skill's card. */
    method HoverStart(name: string)
      modifies this`hoveredSkill
      ensures hoveredSkill == Some(name)
      ensures selectedCategory == old(selectedCategory)
    {
      hoveredSkill := Some(name);
    }

    /** `onHoverEnd` of a skill's card. */
    method HoverEnd()
      modifies this`hoveredSkill
      ensures hoveredSkill == None
      ensures selectedCategory == old(selectedCategory)
    {
      hoveredSkill := None;
    }
  }

  /** With distinct names at most one card is hovered, and none when nothing is. */
  lemma AtMostOneHovered(skills: seq<Skill>, hovered: Option<string>)
    requires Distinct(Names(skills))
    ensures hovered.Some? ==> |Positions(Names(skills), hovered.value)| <= 1
  {
    if hovered.Some? {
      DistinctPositions(Names(skills), hovered.value);
    }
  }

  /** The fourteen skills of the page. */
  const PageSkills: seq<Skill> := [
    Skill("Python", 95, Backend),
    Skill("Rust", 85, Backend),
    Skill("SQL", 90, Database),
    Skill("JavaScript/TypeScript", 88, Frontend),
    Skill("React Ecosystem", 85, Frontend),
    Skill("AWS", 88, Cloud),
    Skill("GCP", 82, Cloud),
    Skill("Docker & K8s", 82, Devops),
    Skill("NoSQL", 85, Database),
    Skill("Data Analytics", 90, Backend),
    Skill("AI-driven Development", 75, Backend),
    Skill("UI/UX Design", 78, Design),
    Skill("CI/CD & Git", 85, Devops),
    Skill("System Architecture", 88, Backend)]

  /** Every level of the page lies in 0..100, so every bar value does. */
  lemma PageLevelsInRange()
    ensures forall i :: 0 <= i < |PageSkills| ==> 0 <= PageSkills[i].level <= 100
  {
  }

  /** The fourteen names differ, so at most one card of the page is hovered. */
  lemma PageNamesDistinct()
    ensures Distinct(Names(PageSkills))
  {
    var ns := Names(PageSkills);
    assert ns == ["Python", "Rust", "SQL", "JavaScript/TypeScript", "React Ecosystem", "AWS", "GCP",
      "Docker & K8s", "NoSQL", "Data Analytics", "AI-driven Development", "UI/UX Design", "CI/CD & Git",
      "System Architecture"];
  }
}
