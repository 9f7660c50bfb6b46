/**
 * The projects gallery: the `'all'`-or-category filter, the category icon
 * and colour lookups, and the project modal opened and closed by clicks.
 *
 * A click runs the handlers on the path from the clicked element outwards,
 * innermost first; a handler that calls `stopPropagation` ends the walk.
 * Each handler either leaves `selectedProject` alone or sets it; when several
 * set it, the last one wins.
 */
module Projects {
  import opened Wrappers
  import opened Gallery

  datatype Project = Project(
    id: string,
    description: string,
    longDescription: string,
    category: string,
    technologies: seq<string>,
    achievements: seq<string>,
    featured: bool)

  /** The categories a project's type allows. */
  const CategoryUnion: set<string> := {"backend", "frontend", "fullstack", "devops", "analytics"}

  /** The ids of the filter buttons, in order. */
  const FilterIds: seq<string> := ["all", "backend", "devops", "analytics"]

  /** The filter button every project passes. */
  const AllId := "all"

  /** Every filter button is `all` or a category, and `all` is no category. */
  lemma FilterIdsSpec()
    ensures forall i :: 0 <= i < |FilterIds| ==> FilterIds[i] == AllId || FilterIds[i] in CategoryUnion
    ensures AllId !in CategoryUnion
    ensures Distinct(FilterIds)
  {
  }

  /** `filteredProjects`. */
  function Filtered(ps: seq<Project>, selected: string): seq<Project> {
    if selected == AllId then ps else Filter(ps, (p: Project) => p.category == selected)
  }

  /**
   * `all` shows the list unchanged; any other selection an order-preserving
   * selection with every project of that category, as often as the list
   * has it, and no other; a category no project has shows nothing.
   */
  lemma FilteredSpec(ps: seq<Project>, selected: string)
    ensures selected == AllId ==> Filtered(ps, selected) == ps
    ensures selected != AllId ==> IsSubsequence(Filtered(ps, selected), ps)
    ensures selected != AllId ==> forall i :: 0 <= i < |Filtered(ps, selected)| ==>
      Filtered(ps, selected)[i].category == selected
    ensures selected != AllId ==>
      forall p :: multiset(Filtered(ps, selected))[p] == (if p.category == selected then multiset(ps)[p] else 0)
    ensures selected != AllId && (forall i :: 0 <= i < |ps| ==> ps[i].category != selected) ==>
      Filtered(ps, selected) == []
  {
    if selected != AllId {
      var p := (q: Project) => q.category == selected;
      FilterSubsequence(ps, p);
      forall q: Project
        ensures multiset(Filtered(ps, selected))[q] == if q.category == selected then multiset(ps)[q] else 0
      {
        FilterCount(ps, p, q);
      }
      if forall i :: 0 <= i < |ps| ==> ps[i].category != selected {
        FilterNone(ps, p);
      }
    }
  }

  datatype Icon = Server | Cloud | BarChart3 | Code

  /** `getCategoryIcon`. */
  function CategoryIcon(category: string): Icon {
    match category
    case "backend" => Server
    case "devops" => Cloud
    case "analytics" => BarChart3
    case _ => Code
  }

  /** The colour classes `getCategoryColor` falls back to. */
  const DefaultColor := "text-foreground bg-muted border-border"

  /** `getCategoryColor`. */
  function CategoryColor(category: string): string {
    match category
    case "backend" => "text-primary bg-primary/10 border-primary/20"
    case "devops" => "text-accent bg-accent/10 border-accent/20"
    case "analytics" => "text-primary-glow bg-primary-glow/10 border-primary-glow/20"
    case _ => DefaultColor
  }

  /**
   * The two lookups agree on which categories are known: exactly `backend`,
   * `devops` and `analytics` get an icon other than the default and a colour
   * other than the default. `frontend` and `fullstack` fall to the defaults.
   */
  lemma LookupsAgree(category: string)
    ensures CategoryIcon(category) == Code <==> category !in {"backend", "devops", "analytics"}
    ensures CategoryColor(category) == DefaultColor <==> category !in {"backend", "devops", "analytics"}
  {
    assert |DefaultColor| == 38;
    assert |CategoryColor("backend")| == 44;
    assert |CategoryColor("devops")| == 41;
    assert |CategoryColor("analytics")| == 59;
  }

  /** The three known categories get three different icons and three different colours. */
  lemma KnownLookupsDistinct()
    ensures Distinct([CategoryIcon("backend"), CategoryIcon("devops"), CategoryIcon("analytics")])
    ensures Distinct([CategoryColor("backend"), CategoryColor("devops"), CategoryColor("analytics")])
  {
    assert |CategoryColor("backend")| == 44;
    assert |CategoryColor("devops")| == 41;
    assert |CategoryColor("analytics")| == 59;
  }

  /**
   * A card's technology row: the first four technologies in order, and a
   * `+k` badge counting the rest exactly when there are more than four.
   */
  function CardTags(p: Project): (r: (seq<string>, Option<nat>))
    ensures |r.0| == (if |p.technologies| < MaxTags then |p.technologies| else MaxTags)
    ensures r.0 == p.technologies[..|r.0|]
    ensures r.1.Some? <==> |p.technologies| > MaxTags
    ensures r.1.Some? ==> r.1.value == |p.technologies| - MaxTags
  {
    TagsAccount(p.technologies);
    (Shown(p.technologies), More(p.technologies))
  }

  // ----- the modal -----

  /** A click handler: the selection it sets, if any, and whether it stops propagation. */
  datatype Handler = Handler(sets: Option<Option<Project>>, stops: bool)

  /** Runs the handlers of a click path on the current selection. */
  function Dispatch(path: seq<Handler>, selected: Option<Project>): Option<Project> {
    if |path| == 0 then selected
    else
      var next := if path[0].sets.Some? then path[0].sets.value else selected;
      if path[0].stops then next else Dispatch(path[1..], next)
  }

  /** The card: opens the modal on its project. */
  function CardHandler(p: Project): Handler {
    Handler(Some(Some(p)), false)
  }

  /** "View Details": opens the modal on the project and stops, so the card's handler does not run. */
  function DetailsHandler(p: Project): Handler {
    Handler(Some(Some(p)), true)
  }

  /** The GitHub and live-demo buttons on a card: they only stop propagation. */
  const LinkHandler := Handler(None, true)

  /** The modal's overlay, behind the backdrop: closes the modal. */
  const OverlayHandler := Handler(Some(None), false)

  /** The modal content: stops propagation, so clicks inside do not reach the overlay. */
  const ContentHandler := Handler(None, true)

  /** The X button inside the content: closes the modal. */
  const CloseHandler := Handler(Some(None), false)

  datatype Click = CardClick(p: Project) | DetailsClick(p: Project) | LinkClick(p: Project)
                 | BackdropClick | ContentClick | CloseClick

  /** The handlers a click passes, innermost first. */
  function Path(c: Click): seq<Handler> {
    match c
    case CardClick(p) => [CardHandler(p)]
    case DetailsClick(p) => [DetailsHandler(p), CardHandler(p)]
    case LinkClick(p) => [LinkHandler, CardHandler(p)]
    case BackdropClick => [OverlayHandler]
    case ContentClick => [ContentHandler, OverlayHandler]
    case CloseClick => [CloseHandler, ContentHandler, OverlayHandler]
  }

  /**
   * What each click does to the modal: a card or its "View Details" opens it
   * on that project; the backdrop and the X close it; a click inside the
   * content, or on a card's link buttons, changes nothing.
   */
  lemma ClickOutcome(c: Click, selected: Option<Project>)
    ensures c.CardClick? || c.DetailsClick? ==> Dispatch(Path(c), selected) == Some(c.p)
    ensures c.BackdropClick? || c.CloseClick? ==> Dispatch(Path(c), selected) == None
    ensures c.ContentClick? || c.LinkClick? ==> Dispatch(Path(c), selected) == selected
  {
    match c
    case CloseClick =>
      assert Path(c)[1..] == [ContentHandler, OverlayHandler];
    case _ =>
  }

  class View {
    const projects: seq<Project>
    var selectedCategory: string
    var selectedProject: Option<Project>

    constructor (projects: seq<Project>)
      ensures this.projects == projects
      ensures selectedCategory == AllId && selectedProject == None
    {
      this.projects := projects;
      selectedCategory := AllId;
      selectedProject := None;
    }

    function FilteredProjects(): seq<Project>
      reads this
    {
      Filtered(projects, selectedCategory)
    }

    /** A filter button. */
    method SelectCategory(id: string)
      modifies this`selectedCategory
      ensures selectedCategory == id && selectedProject == old(selectedProject)
    {
      selectedCategory := id;
    }

    /** A click: the handlers on its path update the selection. */
    method HandleClick(c: Click)
      modifies this`selectedProject
      ensures selectedProject == Dispatch(Path(c), old(selectedProject))
      ensures selectedCategory == old(selectedCategory)
    {
      var path := Path(c);
      var i := 0;
      var stopped := false;
      while i < |path| && !stopped
        invariant 0 <= i <= |path|
        invariant Dispatch(path, old(selectedProject)) ==
          (if stopped then selectedProject else Dispatch(path[i..], selectedProject))
      {
        if path[i].sets.Some? {
          selectedProject := path[i].sets.value;
        }
        stopped := path[i].stops;
        i := i + 1;
      }
    }
  }

  /**
   * Opening a project's details and then clicking inside the modal keeps it
   * open on that project; the X then closes it.
   */
  method OpenInspectClose(ps: seq<Project>, p: Project) returns (afterOpen: Option<Project>, afterInside: Option<Project>, afterClose: Option<Project>)
    ensures afterOpen == Some(p) && afterInside == Some(p) && afterClose == None
  {
    var view := new View(ps);
    view.HandleClick(DetailsClick(p));
    afterOpen := view.selectedProject;
    view.HandleClick(ContentClick);
    afterInside := view.selectedProject;
    view.HandleClick(CloseClick);
    afterClose := view.selectedProject;
    ClickOutcome(DetailsClick(p), None);
    ClickOutcome(ContentClick, Some(p));
    ClickOutcome(CloseClick, Some(p));
  }
}
