/**
 * The vertical career timeline: events alternate sides by index parity, and
 * one event at a time (`expandedEvent`) shows its details: the achievements
 * and, when the event lists them, all its technologies.
 */
module Timeline {
  import opened Wrappers
  import opened Gallery
  import HorizontalTimeline

  type Event = HorizontalTimeline.Event

  /** `getTypeColor` of this component, a copy of the carousel's. */
  function TypeColor(eventType: string): (c: string)
    ensures eventType !in {"education", "achievement"} ==> c == HorizontalTimeline.WorkStyle
  {
    match eventType
    case "work" => "text-primary border-primary bg-primary/10"
    case "education" => "text-accent border-accent bg-accent/10"
    case "achievement" => "text-accent-glow border-accent-glow bg-accent-glow/10"
    case _ => "text-primary border-primary bg-primary/10"
  }

  /** The two copies give every type the same style. */
  lemma TypeColorsAgree(eventType: string)
    ensures TypeColor(eventType) == HorizontalTimeline.TypeColor(eventType)
  {
  }

  /** The row direction of an event on wide screens. */
  datatype Direction = Row | RowReverse

  /** `isEven`: even indices run left to right, odd ones reversed. */
  function Layout(index: nat): (d: Direction)
    ensures d == Row <==> index % 2 == 0
  {
    if index % 2 == 0 then Row else RowReverse
  }

  /** Neighbouring events sit on opposite sides, and the pattern repeats every two. */
  lemma LayoutAlternates(index: nat)
    ensures Layout(index) != Layout(index + 1)
    ensures Layout(index) == Layout(index + 2)
  {
  }

  /** The expand button's label. */
  function ButtonLabel(expanded: bool): string {
    if expanded then "Show Less" else "Show Details"
  }

  /** The label says "Show Less" exactly when the event is expanded. */
  lemma ButtonLabelSpec(expanded: bool)
    ensures ButtonLabel(expanded) == "Show Less" <==> expanded
    ensures ButtonLabel(expanded) == "Show Details" <==> !expanded
  {
    assert |"Show Less"| != |"Show Details"|;
  }

  /** The expanded part of a card: the achievements, and the technologies when the event lists any. */
  datatype Details = Details(achievements: seq<string>, technologies: Option<seq<string>>)

  /** Only an expanded event shows details; they hold all its achievements and all its technologies, untruncated. */
  function EventDetails(e: Event, expanded: bool): (r: Option<Details>)
    ensures r.Some? <==> expanded
    ensures r.Some? ==> r.value.achievements == e.achievements && r.value.technologies == e.technologies
  {
    if expanded then Some(Details(e.achievements, e.technologies)) else None
  }

  class View {
    var expandedEvent: Option<string>

    /** Nothing is expanded at first. */
    constructor ()
      ensures expandedEvent == None
    {
      expandedEvent := None;
    }

    /** `isExpanded` of an event. */
    predicate IsExpanded(e: Event)
      reads this
    {
      expandedEvent == Some(e.id)
    }

    /** The expand button of event `e`: collapse it when it is expanded, else expand it alone. */
    method ToggleEvent(e: Event)
      modifies this
      ensures expandedEvent == Toggle(old(expandedEvent), e.id)
      ensures IsExpanded(e) <==> !old(IsExpanded(e))
    {
      expandedEvent := if IsExpanded(e) then None else Some(e.id);
    }
  }

  function EventId(e: Event): string {
    e.id
  }

  /** The events' ids, in order: the cards' keys. */
  function Ids(events: seq<Event>): seq<string> {
    Keys(events, EventId)
  }

  /** With distinct event ids at most one event is expanded, whatever the state. */
  lemma AtMostOneExpanded(events: seq<Event>, expanded: Option<string>)
    requires Distinct(Ids(events))
    ensures expanded.Some? ==> |Positions(Ids(events), expanded.value)| <= 1
  {
    if expanded.Some? {
      DistinctPositions(Ids(events), expanded.value);
    }
  }

  /**
   * Expanding the event at position `k` from a fresh timeline: that event
   * shows its details and every other one (ids distinct) shows none; the
   * directions alternate along the list.
   */
  method ExpandOne(events: seq<Event>, k: nat) returns (details: seq<Option<Details>>, directions: seq<Direction>)
    requires k < |events|
    requires Distinct(Ids(events))
    ensures |details| == |events| && |directions| == |events|
    ensures details[k] == Some(Details(events[k].achievements, events[k].technologies))
    ensures forall j :: 0 <= j < |events| && j != k ==> details[j] == None
    ensures forall j :: 0 <= j < |events| ==> (directions[j] == Row <==> j % 2 == 0)
  {
    var view := new View();
    view.ToggleEvent(events[k]);
    details := seq(|events|, j requires 0 <= j < |events| reads view => EventDetails(events[j], view.IsExpanded(events[j])));
    directions := seq(|events|, (j: int) requires 0 <= j => Layout(j));
    forall j | 0 <= j < |events| && j != k
      ensures !view.IsExpanded(events[j])
    {
      assert Ids(events)[j] != Ids(events)[k];
    }
  }
}
