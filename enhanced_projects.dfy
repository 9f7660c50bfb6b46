/**
 * The enhanced projects gallery: the category buttons (`categories`, the
 * distinct categories of the projects), the `selectedCategory` filter, the
 * single expanded card (`expandedProject`) and the active button's classes.
 *
 * The project list is a constructor parameter; the six projects of
 * `EnhancedProjects.tsx` appear only as concrete instances (their ids and
 * their categories, in order).
 */
module EnhancedProjects {
  import opened Wrappers
  import opened Gallery
  import opened ClassStrings

  datatype Category = Backend | Frontend | Fullstack | Automation | Analytics

  datatype Project = Project(
    id: string,
    description: string,
    longDescription: string,
    technologies: seq<string>,
    category: Category,
    features: seq<string>)

  /** The colour name of each entry of `categoryColors`. */
  function Hue(c: Category): string {
    match c
    case Backend => "primary"
    case Frontend => "accent"
    case Fullstack => "purple-500"
    case Automation => "green-500"
    case Analytics => "orange-500"
  }

  /** `categoryColors`: for instance `bg-primary/10 text-primary border-primary/20` for backend. */
  function CategoryColor(c: Category): string {
    ColourClasses(Hue(c))
  }

  /** The active category button's classes: for every category, its colour with the first `/10` deleted. */
  lemma ActiveFilterClasses(c: Category)
    ensures ActiveFilterClass(CategoryColor(c)) == ReplaceFirst(CategoryColor(c), "/10", "")
  {
    ActiveColourClasses(Hue(c));
  }

  /** The projects' ids, in order. */
  function Ids(ps: seq<Project>): seq<string> {
    Keys(ps, (p: Project) => p.id)
  }

  /** `categories`: the distinct categories of the projects, in first-occurrence order. */
  function Categories(ps: seq<Project>): seq<Category> {
    DistinctKeys(ps, (p: Project) => p.category)
  }

  /** `filteredProjects`: all projects for no selection, else those of the selected category. */
  function Filtered(ps: seq<Project>, selected: Option<Category>): seq<Project> {
    Select(ps, (p: Project) => p.category, selected)
  }

  /** What a card shows: its text, and the feature list (empty when not shown). */
  datatype CardText = CardText(text: string, features: seq<string>)

  /** An expanded card shows the long description and the features; a collapsed one the description only. */
  function Card(p: Project, expanded: bool): (c: CardText)
    ensures expanded ==> c == CardText(p.longDescription, p.features)
    ensures !expanded ==> c == CardText(p.description, [])
  {
    if expanded then CardText(p.longDescription, p.features) else CardText(p.description, [])
  }

  class View {
    const projects: seq<Project>
    var selectedCategory: Option<Category>
    var expandedProject: Option<string>

    constructor (projects: seq<Project>)
      ensures this.projects == projects
      ensures selectedCategory == None && expandedProject == None
    {
      this.projects := projects;
      selectedCategory := None;
      expandedProject := None;
    }

    function FilteredProjects(): seq<Project>
      reads this
    {
      Filtered(projects, selectedCategory)
    }

    /** `isExpanded` for a project. */
    predicate IsExpanded(p: Project)
      reads this
    {
      expandedProject == Some(p.id)
    }

    /** The "All Projects" button: no filter; the expanded card is kept. */
    method SelectAll()
      modifies this`selectedCategory
      ensures selectedCategory == None && FilteredProjects() == projects
      ensures expandedProject == old(expandedProject)
    {
      selectedCategory := None;
    }

    /** A category button: filter by it; the expanded card is kept. */
    method SelectCategory(c: Category)
      modifies this`selectedCategory
      ensures selectedCategory == Some(c)
      ensures expandedProject == old(expandedProject)
    {
      selectedCategory := Some(c);
    }

    /** "Learn More" / "Show Less" on the card of the project with id `id`. */
    method ToggleExpanded(id: string)
      modifies this`expandedProject
      ensures expandedProject == Toggle(old(expandedProject), id)
      ensures selectedCategory == old(selectedCategory)
    {
      expandedProject := if expandedProject == Some(id) then None else Some(id);
    }
  }

  /** With distinct project ids at most one project is expanded, whatever the state. */
  lemma AtMostOneExpanded(ps: seq<Project>, expanded: Option<string>)
    requires Distinct(Ids(ps))
    ensures expanded.Some? ==> |Positions(Ids(ps), expanded.value)| <= 1
  {
    if expanded.Some? {
      DistinctPositions(Ids(ps), expanded.value);
    }
  }

  /**
   * Opening the card at position `k` from a fresh gallery: that card shows
   * its long description and features, and every other card (ids distinct)
   * its description alone.
   */
  method ExpandOne(ps: seq<Project>, k: nat) returns (cards: seq<CardText>)
    requires k < |ps| && Distinct(Ids(ps))
    ensures |cards| == |ps|
    ensures cards[k] == CardText(ps[k].longDescription, ps[k].features)
    ensures forall j :: 0 <= j < |ps| && j != k ==> cards[j] == CardText(ps[j].description, [])
  {
    var view := new View(ps);
    view.ToggleExpanded(ps[k].id);
    var shown := view.FilteredProjects();
    assert shown == ps;
    cards := seq(|shown|, j requires 0 <= j < |shown| reads view => Card(shown[j], view.IsExpanded(shown[j])));
    forall j | 0 <= j < |ps| && j != k
      ensures !view.IsExpanded(ps[j])
    {
      assert Ids(ps)[j] != Ids(ps)[k];
    }
  }

  /** The categories of the six projects, in order. */
  const ProjectCategories: seq<Category> := [Backend, Backend, Backend, Analytics, Fullstack, Automation]

  /** The ids of the six projects, in order. */
  const ProjectIds: seq<string> :=
    ["alerting-psa", "api-n8n-workflow", "server-migration", "billing-analytics", "licensing-portal", "sql-automation"]

  /** The category buttons of the page, after "All Projects": backend, analytics, fullstack, automation. */
  lemma PageCategories()
    ensures Dedup(ProjectCategories) == [Backend, Analytics, Fullstack, Automation]
  {
    var s := ProjectCategories;
    assert s[..1][..0] == [] && Dedup(s[..1]) == [Backend];
    assert s[..2][..1] == s[..1] && Dedup(s[..2]) == [Backend];
    assert s[..3][..2] == s[..2] && Dedup(s[..3]) == [Backend];
    assert s[..4][..3] == s[..3] && Dedup(s[..4]) == [Backend, Analytics];
    assert s[..5][..4] == s[..4] && Dedup(s[..5]) == [Backend, Analytics, Fullstack];
    assert s[..5] == s[..|s| - 1];
  }

  lemma PageIdsDistinct()
    ensures Distinct(ProjectIds)
  {
  }
}
