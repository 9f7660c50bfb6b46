/**
 * The horizontal career timeline: a carousel of event cards with prev/next
 * buttons, a "k of n" counter, one active card and dot, and each card's
 * first four technology tags.
 *
 * The carousel library is not modelled: what it answers when the component
 * asks (`selectedScrollSnap`, `canScrollPrev`, `canScrollNext`) is a `Snap`
 * given to `OnSelect`, and what the component asks of it (`scrollPrev`,
 * `scrollNext`, `scrollTo`) is a `Request` returned by the handlers.
 */
module HorizontalTimeline {
  import opened Wrappers
  import opened Gallery

  /** A timeline event, as both timeline components declare it (the presentational fields left out). */
  datatype Event = Event(
    id: string,
    eventType: string,
    description: string,
    achievements: seq<string>,
    technologies: Option<seq<string>>)

  /** The carousel's answers at a `select` or `reInit` event. */
  datatype Snap = Snap(selectedScrollSnap: nat, canScrollPrev: bool, canScrollNext: bool)

  /** What the component asks the carousel to do. */
  datatype Request = ScrollPrev | ScrollNext | ScrollTo(index: nat)

  class Carousel {
    const events: seq<Event>
    /** Whether the carousel API is available yet. */
    var hasApi: bool
    var selectedIndex: nat
    var prevBtnDisabled: bool
    var nextBtnDisabled: bool

    /** Index 0 with both buttons disabled, before the carousel API exists. */
    constructor (events: seq<Event>)
      ensures this.events == events && !hasApi
      ensures selectedIndex == 0 && prevBtnDisabled && nextBtnDisabled
    {
      this.events := events;
      hasApi := false;
      selectedIndex := 0;
      prevBtnDisabled := true;
      nextBtnDisabled := true;
    }

    /**
     * `onSelect`, run on every `select` and `reInit` event: the index is the
     * carousel's snap and each button is disabled exactly when the carousel
     * cannot scroll that way, all three set together.
     */
    method OnSelect(s: Snap)
      modifies this`selectedIndex, this`prevBtnDisabled, this`nextBtnDisabled
      ensures selectedIndex == s.selectedScrollSnap
      ensures prevBtnDisabled <==> !s.canScrollPrev
      ensures nextBtnDisabled <==> !s.canScrollNext
      ensures hasApi == old(hasApi)
    {
      selectedIndex := s.selectedScrollSnap;
      prevBtnDisabled := !s.canScrollPrev;
      nextBtnDisabled := !s.canScrollNext;
    }

    /** The effect that runs once the API exists: one `onSelect` straight away, then the listeners. */
    method Attach(s: Snap)
      modifies this
      ensures hasApi
      ensures selectedIndex == s.selectedScrollSnap
      ensures prevBtnDisabled <==> !s.canScrollPrev
      ensures nextBtnDisabled <==> !s.canScrollNext
    {
      hasApi := true;
      OnSelect(s);
    }

    /** `scrollPrev`: a request only when the API exists. */
    method HandleScrollPrev() returns (r: Option<Request>)
      ensures r.Some? <==> hasApi
      ensures r.Some? ==> r.value == ScrollPrev
    {
      r := if hasApi then Some(ScrollPrev) else None;
    }

    /** `scrollNext`: a request only when the API exists. */
    method HandleScrollNext() returns (r: Option<Request>)
      ensures r.Some? <==> hasApi
      ensures r.Some? ==> r.value == ScrollNext
    {
      r := if hasApi then Some(ScrollNext) else None;
    }

    /** A click on the prev button: a disabled button runs no handler. */
    method ClickPrev() returns (r: Option<Request>)
      ensures r.Some? <==> hasApi && !prevBtnDisabled
      ensures r.Some? ==> r.value == ScrollPrev
    {
      if prevBtnDisabled {
        r := None;
      } else {
        r := HandleScrollPrev();
      }
    }

    /** A click on the next button: a disabled button runs no handler. */
    method ClickNext() returns (r: Option<Request>)
      ensures r.Some? <==> hasApi && !nextBtnDisabled
      ensures r.Some? ==> r.value == ScrollNext
    {
      if nextBtnDisabled {
        r := None;
      } else {
        r := HandleScrollNext();
      }
    }

    /** A click on dot `index`: `scrollTo(index)` when the API exists. */
    method ClickDot(index: nat) returns (r: Option<Request>)
      ensures r.Some? <==> hasApi
      ensures r.Some? ==> r.value == ScrollTo(index)
    {
      r := if hasApi then Some(ScrollTo(index)) else None;
    }
  }

  /** The counter `selectedIndex + 1 of n`: one-based, and within 1..n when the index is an event's. */
  function Counter(selectedIndex: nat, total: nat): (c: (nat, nat))
    ensures c.0 >= 1 && c.0 - 1 == selectedIndex && c.1 == total
    ensures selectedIndex < total ==> c.0 <= c.1
  {
    (selectedIndex + 1, total)
  }

  /** `isActive` of a card, and the active test of a dot. */
  predicate IsActive(index: nat, selectedIndex: nat) {
    index == selectedIndex
  }

  /**
   * The cards and the dots marked active (`index === selectedIndex`, the same
   * test for both): exactly the selected one when it is an event's index,
   * none otherwise.
   */
  function ActiveIndices(total: nat, selectedIndex: nat): (r: set<nat>)
    ensures selectedIndex < total ==> r == {selectedIndex}
    ensures selectedIndex >= total ==> r == {}
  {
    set i: nat | i < total && IsActive(i, selectedIndex)
  }

  /** The technology block of a card: up to four tags and the `+k more` badge. */
  datatype TechBlock = TechBlock(tags: seq<string>, more: Option<nat>)

  /**
   * The block appears whenever the event lists technologies (an empty list
   * included); it shows the first four tags in order, and the badge counts
   * the rest exactly when there are more than four.
   */
  function TechStack(e: Event): (r: Option<TechBlock>)
    ensures r.Some? <==> e.technologies.Some?
    ensures r.Some? ==> r.value.tags <= e.technologies.value && |r.value.tags| <= MaxTags
    ensures r.Some? ==> (r.value.more.Some? <==> |e.technologies.value| > MaxTags)
    ensures r.Some? && r.value.more.Some? ==>
      |r.value.tags| == MaxTags && r.value.more.value == |e.technologies.value| - MaxTags
    ensures r.Some? && r.value.more.None? ==> r.value.tags == e.technologies.value
  {
    match e.technologies
    case None => None
    case Some(ts) => TagsAccount(ts); Some(TechBlock(Shown(ts), More(ts)))
  }

  const WorkStyle := "text-primary border-primary bg-primary/10"
  const EducationStyle := "text-accent border-accent bg-accent/10"
  const AchievementStyle := "text-accent-glow border-accent-glow bg-accent-glow/10"

  /** `getTypeColor`: the three types' styles, and the work style for anything else. */
  function TypeColor(eventType: string): (c: string)
    ensures eventType == "education" ==> c == EducationStyle
    ensures eventType == "achievement" ==> c == AchievementStyle
    ensures eventType !in {"education", "achievement"} ==> c == WorkStyle
  {
    match eventType
    case "work" => WorkStyle
    case "education" => EducationStyle
    case "achievement" => AchievementStyle
    case _ => WorkStyle
  }

  /** The three styles differ, so the work style is given exactly to the types other than education and achievement. */
  lemma TypeColorWork(eventType: string)
    ensures Distinct([WorkStyle, EducationStyle, AchievementStyle])
    ensures TypeColor(eventType) == WorkStyle <==> eventType !in {"education", "achievement"}
  {
    assert |WorkStyle| == 41 && |EducationStyle| == 38 && |AchievementStyle| == 53;
  }

  /**
   * Before the API exists every button and dot is inert and the counter
   * reads `1 of n`; once it is attached with snap `s` the counter and the
   * active card follow `s`.
   */
  method AttachAndRead(events: seq<Event>, s: Snap) returns (
    before: seq<Option<Request>>, counterBefore: (nat, nat),
    after: seq<Option<Request>>, counterAfter: (nat, nat), active: set<nat>)
    requires s.selectedScrollSnap < |events|
    ensures before == [None, None, None]
    ensures counterBefore == (1, |events|)
    ensures after == [if s.canScrollPrev then Some(ScrollPrev) else None,
                      if s.canScrollNext then Some(ScrollNext) else None,
                      Some(ScrollTo(s.selectedScrollSnap))]
    ensures counterAfter == (s.selectedScrollSnap + 1, |events|)
    ensures active == {s.selectedScrollSnap}
  {
    var c := new Carousel(events);
    var p := c.ClickPrev();
    var n := c.ClickNext();
    var d := c.ClickDot(0);
    before := [p, n, d];
    counterBefore := Counter(c.selectedIndex, |c.events|);
    c.Attach(s);
    p := c.ClickPrev();
    n := c.ClickNext();
    d := c.ClickDot(s.selectedScrollSnap);
    after := [p, n, d];
    counterAfter := Counter(c.selectedIndex, |c.events|);
    active := ActiveIndices(|c.events|, c.selectedIndex);
  }

  /** The ids of the five events of the page, in order. */
  const PageIds: seq<string> := ["current", "interviewer", "ksrtc-software", "ksrtc-maintenance", "education"]

  /** The types of the five events, in order. */
  const PageTypes: seq<string> := ["work", "achievement", "work", "work", "education"]

  /** How many technologies each of the five events lists. */
  const PageTechnologyCounts: seq<nat> := [6, 4, 5, 5, 4]

  /** The event ids are distinct, which the cards' keys rely on. */
  lemma PageIdsDistinct()
    ensures Distinct(PageIds)
  {
  }

  /**
   * Which cards show a badge: `+2 more` on the first, `+1 more` on the third
   * and fourth, none on the others.
   */
  lemma PageBadges(ts: seq<seq<string>>)
    requires |ts| == |PageTechnologyCounts|
    requires forall i :: 0 <= i < |ts| ==> |ts[i]| == PageTechnologyCounts[i]
    ensures More(ts[0]) == Some(2) && More(ts[1]) == None && More(ts[2]) == Some(1)
    ensures More(ts[3]) == Some(1) && More(ts[4]) == None
  {
  }
}
