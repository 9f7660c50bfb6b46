# Portfolio page: a Dafny model

A single-page React portfolio holds its behaviour in component state (the
active section, the menu, the category filters, the expanded or hovered card,
the carousel index, the contact forms' fields and status) and in a few pure
computations over its content (category lists, filters, tag truncation,
colour lookups and the `mailto:` link the contact forms open). This project
models that behaviour in Dafny and proves what the components promise.

One module per component, plus shared ones:

- `Portfolio` (`src/pages/Portfolio.tsx`) is the page. It tracks the active
  section while the page scrolls and computes where a section request scrolls
  to. The measured section bounds are a `map` from ids to bounds, and the
  scroll offset is an input.
- `Navigation` is the navigation bar: the `scrolled` flag, the mobile menu and
  the active nav item.
- `ContactForm` holds the four-field record and its keyed update.
  `UriComponent` is `encodeURIComponent`, with a decoder as its partner.
  `Mailto` builds the links and parses them in the manner of section 2 of
  RFC 6068.
- `EnhancedContact` and `Contact` are the two contact forms, as classes.
  Timer callbacks are explicit pending events that the browser may run.
- `EnhancedProjects`, `Projects` and `EnhancedSkills` are the galleries.
  `Gallery` holds what they share: order-preserving filter, first-occurrence
  dedup, toggle, positions of a selection and first-four tag truncation.
  `ClassStrings` holds JavaScript's first-occurrence `replace`, which the
  active filter buttons apply to a colour entry.
- `HorizontalTimeline` is the carousel. Its library's answers are inputs to
  `OnSelect`, and its requests come back as values. `Timeline` is the
  vertical, expandable timeline.

Most content arrays are constructor parameters. Some of the page's own data
appears as concrete instances: event ids, project categories in order, skill levels,
technology counts.

## Model

| member | source | states |
|---|---|---|
| UriComponent.Utf8 | src/components/EnhancedContact.tsx:96-99 | the UTF-8 encoding `encodeURIComponent` escapes: 1 to 4 bytes, one byte exactly for ASCII, lead and continuation byte ranges |
| UriComponent.Encode | src/components/EnhancedContact.tsx:96-99 | the encoding is 1 to 12 times as long as the input and consists only of unescaped characters and `%` |
| UriComponent.EncodeCharCases | src/components/EnhancedContact.tsx:96-99 | unescaped characters are copied; any other character becomes, for each of its UTF-8 bytes in order, `%` and the byte's two upper-case hex digits |
| UriComponent.EncodeUnescaped | src/components/EnhancedContact.tsx:96-99 | a string of unescaped characters is its own encoding |
| UriComponent.EncodeAppend | src/components/EnhancedContact.tsx:96-99 | encoding distributes over concatenation |
| UriComponent.NoDelimiters | src/components/EnhancedContact.tsx:100 | no `?`, `&`, `=` or `#` survives encoding, so an encoded value cannot split the link's fields |
| UriComponent.DecodeEncodeChar | src/components/EnhancedContact.tsx:96-99 | decoding an encoded character followed by anything gives the character and then the decoding of the rest |
| UriComponent.DecodeEncode | src/components/EnhancedContact.tsx:96-99 | decoding undoes encoding for every string |
| UriComponent.EncodeInjective | src/components/EnhancedContact.tsx:96-99 | different strings have different encodings |
| UriComponent.EncodeCharExamples | src/components/EnhancedContact.tsx:96-99 | a space, `&` and `é` become `%20`, `%26` and `%C3%A9` |
| ContactForm.FormData.With | src/components/EnhancedContact.tsx:86-89 | the named field takes the new value and every other field keeps its old one |
| ContactForm.WithSameValue | src/components/Contact.tsx:82-85 | writing a field's own value back changes nothing |
| ContactForm.WithOverwrite | src/components/Contact.tsx:82-85 | the last write to a field wins |
| ContactForm.WithCommute | src/components/Contact.tsx:82-85 | writes to different fields commute |
| ContactForm.FillIn | src/components/EnhancedContact.tsx:76-81 | typing each field once into the empty record gives exactly the typed record |
| Mailto.EnhancedSubject | src/components/EnhancedContact.tsx:96 | an empty subject becomes `Contact from Portfolio`, any other is kept, and the result is never empty |
| Mailto.IndexOf | src/components/EnhancedContact.tsx:100 | the first `x` in a string, or none exactly when `x` does not occur |
| Mailto.Split | src/components/EnhancedContact.tsx:100 | cutting at a separator gives at least one piece, none containing the separator |
| Mailto.ParseHeaders | src/components/EnhancedContact.tsx:100 | the fields parse exactly when each one does, giving one header per field, each the parse of its field |
| Mailto.JoinSplit | src/components/EnhancedContact.tsx:100 | joining the pieces again with the separator gives back the cut string |
| Mailto.ParseLink | src/components/EnhancedContact.tsx:100 | every link splits back into the address and exactly the two headers `subject` and `body`, which decode to the original values |
| Mailto.ParseEnhancedLink | src/components/EnhancedContact.tsx:96-100 | the enhanced link carries the defaulted subject and the `Name:/Email:/Message:` body |
| Mailto.ParsePlainLink | src/components/Contact.tsx:93-95 | the plain link carries the subject as typed, even when empty, and the same body |
| Mailto.PlainLinkEmptySubject | src/components/Contact.tsx:93-95 | with an empty subject the plain link reads `?subject=&body=` followed by the encoded body |
| Mailto.LinksAgree | src/components/EnhancedContact.tsx:96 | the two forms build the same link exactly when the subject is not empty |
| EnhancedContact.Form.constructor | src/components/EnhancedContact.tsx:76-84 | empty fields, status `idle`, nothing focused, no timer pending |
| EnhancedContact.Form.HandleInputChange | src/components/EnhancedContact.tsx:86-89 | only the named field changes; status, focus and timers are kept |
| EnhancedContact.Form.HandleSubmit | src/components/EnhancedContact.tsx:91-106 | status `loading` and the button disabled; the link is built from the current fields; the 1000 ms callback is scheduled; the fields are kept |
| EnhancedContact.Form.FireTimer | src/components/EnhancedContact.tsx:106-112 | running the first callback sets `success`, clears all four fields and schedules the 3000 ms one; running that one sets `idle`; `error` is never assigned |
| EnhancedContact.Form.Focus | src/components/EnhancedContact.tsx:270 | the focused field becomes the only focused field |
| EnhancedContact.Form.Blur | src/components/EnhancedContact.tsx:271 | no field is focused |
| EnhancedContact.SubmitCycle | src/components/EnhancedContact.tsx:83-112 | typing, submitting and running both timers: the link parses back to the typed values, the form ends empty and idle with nothing pending, and the button is disabled only while loading |
| Contact.Form.constructor | src/components/Contact.tsx:74-80 | empty fields, not submitting, nothing pending |
| Contact.Form.HandleInputChange | src/components/Contact.tsx:82-85 | only the named field changes |
| Contact.Form.HandleSubmit | src/components/Contact.tsx:87-92 | the flag is set, the button disabled, and a callback holding the current fields is scheduled |
| Contact.Form.FireTimer | src/components/Contact.tsx:92-106 | the link is built from the fields captured at submit time; fields cleared, flag reset, that callback removed |
| Contact.EditDuringDelay | src/components/Contact.tsx:87-106 | an edit during the delay does not reach the link, which carries the submitted fields; the form ends empty and enabled |
| Portfolio.FirstHit | src/pages/Portfolio.tsx:21-31 | the first section, in scan order, whose element's interval `[top, top+height)` contains the probe; none when no section does |
| Portfolio.ScrollTarget | src/pages/Portfolio.tsx:39-47 | a target exactly when the element exists, equal to its top minus 80, unclamped |
| Portfolio.Page.constructor | src/pages/Portfolio.tsx:14 | the initial active section is `home` |
| Portfolio.Page.HandleScroll | src/pages/Portfolio.tsx:17-33 | the scan of the sections at probe `scrollY + 100`: the first containing section becomes active, otherwise nothing changes; the active section remains a section |
| Portfolio.FirstHitIs | src/pages/Portfolio.tsx:27-29 | a hit with no earlier hit is the one the scan stops at |
| Portfolio.NoHit | src/pages/Portfolio.tsx:21-31 | with no hit the scan finds nothing |
| Portfolio.TrackedIsSection | src/pages/Portfolio.tsx:18-28 | the active section is always one of the seven sections |
| Portfolio.Landing | src/pages/Portfolio.tsx:43-46 | the browser's scroll stays within `0..maxScroll`: a reachable target is kept, others are clamped to the nearer end |
| Portfolio.ScrollThenTrack | src/pages/Portfolio.tsx:19-47 | on stacked sections, when the page can reach a section's target, scrolling there makes that section active when it is taller than 20 |
| Portfolio.ScrollHomeThenTrack | src/pages/Portfolio.tsx:19-47 | the first section's target is clamped to the top of the page, where that section is active when it contains the probe |
| Portfolio.ShortLastSection | src/pages/Portfolio.tsx:19-47 | on a page that stops short of `contact`'s target, the probe falls in `education`, which becomes active |
| Navigation.Nav.constructor | src/components/Navigation.tsx:22-23 | the menu is closed and `scrolled` is false |
| Navigation.Nav.HandleScroll | src/components/Navigation.tsx:26-28 | `scrolled` exactly when the offset is strictly above 50 |
| Navigation.Nav.ToggleMenu | src/components/Navigation.tsx:102 | the menu flag flips |
| Navigation.Nav.HandleNavClick | src/components/Navigation.tsx:34-37 | the item id goes to the section callback and the menu ends closed |
| Navigation.NavItemsDistinct | src/components/Navigation.tsx:11-19 | the nav item ids are distinct |
| Navigation.AtMostOneActive | src/components/Navigation.tsx:68 | at most one item is active, and exactly one when the active section has an item |
| Navigation.TrackedSectionMarked | src/components/Navigation.tsx:124 | every section the page can track is marked by exactly one item |
| Gallery.Filter | src/components/EnhancedProjects.tsx:187-189 | the kept items satisfy the predicate and come from the list, every satisfying item is kept, and the result is no longer than the list |
| Gallery.FilterSubsequence | src/components/EnhancedProjects.tsx:188 | filtering keeps the list's order |
| Gallery.FilterCount | src/components/EnhancedSkills.tsx:186 | each satisfying item is kept as many times as it occurs, and every other item is dropped |
| Gallery.FilterAll | src/components/EnhancedProjects.tsx:188 | when every item satisfies the predicate, filtering changes nothing |
| Gallery.FilterNone | src/components/Projects.tsx:143-145 | when no item satisfies the predicate, the result is empty |
| Gallery.FilterIdempotent | src/components/EnhancedSkills.tsx:185-187 | filtering twice equals filtering once |
| Gallery.FirstIndex | src/components/EnhancedProjects.tsx:186 | the first position of an item, or the length when it does not occur |
| Gallery.FirstIndexIs | src/components/EnhancedProjects.tsx:186 | a position that holds the item, with no earlier occurrence, is the first position |
| Gallery.DedupSpec | src/components/EnhancedProjects.tsx:186 | the deduplicated list is distinct and holds exactly the items of the list |
| Gallery.DedupOrder | src/components/EnhancedProjects.tsx:186 | the deduplicated items appear in order of their first occurrence |
| Gallery.Keys | src/components/EnhancedProjects.tsx:186 | one key per item, in order |
| Gallery.SelectSpec | src/components/EnhancedProjects.tsx:187-189 | no selection shows everything; a selection shows, in order and with multiplicity, exactly the items with that key; selecting is idempotent |
| Gallery.DistinctKeysSpec | src/components/EnhancedSkills.tsx:184 | the category buttons are distinct, are exactly the categories present, and are ordered by first occurrence |
| Gallery.Toggle | src/components/EnhancedProjects.tsx:382 | the selection is cleared exactly when the item was selected, and otherwise becomes that item |
| Gallery.ToggleTwice | src/components/Timeline.tsx:276 | toggling an item twice restores the state when nothing or that item was expanded, and leaves nothing expanded when another item was |
| Gallery.Positions | src/components/Navigation.tsx:68 | the positions whose item equals the selection |
| Gallery.DistinctPositions | src/components/EnhancedProjects.tsx:278 | with distinct items at most one position is marked, and exactly one when the selection occurs |
| Gallery.NoPositions | src/components/Navigation.tsx:68 | a selection that is no item marks nothing |
| Gallery.Shown | src/components/Projects.tsx:306 | at most four tags, a prefix of the list, and all of them when there are at most four |
| Gallery.More | src/components/Projects.tsx:314 | a badge exactly when there are more than four tags |
| Gallery.TagsAccount | src/components/Projects.tsx:306-316 | the shown tags and the badge count account for every tag, and the count is positive |
| ClassStrings.FindFrom | src/components/EnhancedProjects.tsx:260 | the first occurrence at or after a position, or none when there is none |
| ClassStrings.ReplaceAt | src/components/EnhancedProjects.tsx:260 | `replace` with a string pattern rewrites only the first occurrence |
| ClassStrings.ActiveFilterDeletesFirst | src/components/EnhancedProjects.tsx:260 | when no `/20` comes before the first `/10`, the replace chain deletes that `/10` and nothing else |
| ClassStrings.ActiveFilterOfEntry | src/components/EnhancedProjects.tsx:260 | on an entry whose first class has no `/`, the active class is the entry without its `/10` |
| ClassStrings.ActiveColourClasses | src/components/EnhancedSkills.tsx:258 | for `bg-H/10 text-H border-H/20` the active class is `bg-H text-H border-H/20` |
| ClassStrings.ActiveFilterEarlierTwenty | src/components/EnhancedProjects.tsx:260 | on `a/20 b/10`, which has a `/20` before its first `/10`, the chain removes that `/20` instead, giving `a b/20` |
| ClassStrings.ReplaceFirstEarlierTwenty | src/components/EnhancedProjects.tsx:260 | deleting the first `/10` of `a/20 b/10` gives `a/20 b`, so without the ordering condition the chain is not that deletion |
| EnhancedProjects.ActiveFilterClasses | src/components/EnhancedProjects.tsx:163-169 | for every category the active button's class is its colour with the first `/10` deleted |
| EnhancedProjects.Card | src/components/EnhancedProjects.tsx:336-350 | an expanded card shows the long description and the features; a collapsed one shows the description alone |
| EnhancedProjects.View.constructor | src/components/EnhancedProjects.tsx:183-184 | no category is selected and no card is expanded |
| EnhancedProjects.View.SelectAll | src/components/EnhancedProjects.tsx:243 | no filter, so every project is shown; the expanded card is kept |
| EnhancedProjects.View.SelectCategory | src/components/EnhancedProjects.tsx:257 | that category is selected; the expanded card is kept |
| EnhancedProjects.View.ToggleExpanded | src/components/EnhancedProjects.tsx:382 | the expanded card toggles; the filter is kept |
| EnhancedProjects.AtMostOneExpanded | src/components/EnhancedProjects.tsx:278 | with distinct ids at most one card is expanded |
| EnhancedProjects.ExpandOne | src/components/EnhancedProjects.tsx:276-350 | after one toggle that card shows its long text and features, and every other card its description alone |
| EnhancedProjects.PageCategories | src/components/EnhancedProjects.tsx:186 | the page's buttons after "All Projects" are backend, analytics, fullstack, automation |
| EnhancedProjects.PageIdsDistinct | src/components/EnhancedProjects.tsx:42-142 | the six project ids are distinct |
| Projects.FilterIdsSpec | src/components/Projects.tsx:126-131 | the filter buttons are `all` and three categories, all distinct, and `all` is no category |
| Projects.FilteredSpec | src/components/Projects.tsx:143-145 | `all` shows every project; a category shows, in order and with multiplicity, exactly its projects, and nothing when it has none |
| Projects.LookupsAgree | src/components/Projects.tsx:182-198 | the icon and the colour fall to their defaults for exactly the same categories: those other than backend, devops and analytics |
| Projects.KnownLookupsDistinct | src/components/Projects.tsx:182-198 | the three known categories get different icons and different colours |
| Projects.CardTags | src/components/Projects.tsx:306-316 | the first four technologies, in order, and `+k` with `k = n - 4` exactly when `n > 4` |
| Projects.ClickOutcome | src/components/Projects.tsx:269-402 | a card or its details button opens the modal on that project; the backdrop or the X closes it; a click inside the modal or on a link button changes nothing |
| Projects.View.constructor | src/components/Projects.tsx:140-141 | the filter is `all` and no modal is open |
| Projects.View.SelectCategory | src/components/Projects.tsx:236 | the filter is the button's id; the modal is kept |
| Projects.View.HandleClick | src/components/Projects.tsx:269-402 | the handlers on the click's path run innermost first until one stops propagation |
| Projects.OpenInspectClose | src/components/Projects.tsx:327-402 | opening the details, then clicking inside, keeps the modal on the project; the X then closes it |
| EnhancedSkills.NamesTotal | src/components/EnhancedSkills.tsx:166-173 | the name table covers every category |
| EnhancedSkills.ActiveFilterClasses | src/components/EnhancedSkills.tsx:258 | for every category the active button's class is its colour with the first `/10` deleted |
| EnhancedSkills.BarValue | src/components/EnhancedSkills.tsx:326 | the bar shows the level once in view, and 0 before |
| EnhancedSkills.BarInRange | src/components/EnhancedSkills.tsx:326 | a level from 0 to 100 gives a bar value in that range that never exceeds the level |
| EnhancedSkills.View.constructor | src/components/EnhancedSkills.tsx:181-182 | no category is selected and nothing is hovered |
| EnhancedSkills.View.SelectAll | src/components/EnhancedSkills.tsx:241 | no filter, so every skill is shown; the hover is kept |
| EnhancedSkills.View.SelectCategory | src/components/EnhancedSkills.tsx:255 | that category is selected; the hover is kept |
| EnhancedSkills.View.HoverStart | src/components/EnhancedSkills.tsx:282 | the skill becomes the hovered one; the filter is kept |
| EnhancedSkills.View.HoverEnd | src/components/EnhancedSkills.tsx:283 | nothing is hovered; the filter is kept |
| EnhancedSkills.AtMostOneHovered | src/components/EnhancedSkills.tsx:276 | with distinct names at most one card is hovered |
| EnhancedSkills.PageNamesDistinct | src/components/EnhancedSkills.tsx:33-155 | the fourteen skill names are distinct, as `AtMostOneHovered` needs |
| EnhancedSkills.PageLevelsInRange | src/components/EnhancedSkills.tsx:33-155 | every level on the page lies between 0 and 100 |
| HorizontalTimeline.Carousel.constructor | src/components/HorizontalTimeline.tsx:142-144 | index 0, and both buttons disabled |
| HorizontalTimeline.Carousel.OnSelect | src/components/HorizontalTimeline.tsx:154-158 | the index becomes the snap and each button is disabled exactly when the carousel cannot scroll that way, all together |
| HorizontalTimeline.Carousel.Attach | src/components/HorizontalTimeline.tsx:160-166 | once the API exists, `onSelect` runs straight away |
| HorizontalTimeline.Carousel.HandleScrollPrev | src/components/HorizontalTimeline.tsx:146-148 | a previous-slide request exactly when the API exists |
| HorizontalTimeline.Carousel.HandleScrollNext | src/components/HorizontalTimeline.tsx:150-152 | a next-slide request exactly when the API exists |
| HorizontalTimeline.Carousel.ClickPrev | src/components/HorizontalTimeline.tsx:238-239 | the prev button requests a scroll exactly when the API exists and the button is enabled |
| HorizontalTimeline.Carousel.ClickNext | src/components/HorizontalTimeline.tsx:255-256 | the next button requests a scroll exactly when the API exists and the button is enabled |
| HorizontalTimeline.Carousel.ClickDot | src/components/HorizontalTimeline.tsx:374 | dot `i` requests `scrollTo(i)` exactly when the API exists |
| HorizontalTimeline.Counter | src/components/HorizontalTimeline.tsx:248 | the counter is one-based and reads `k of n` with `1 <= k <= n` for an event's index |
| HorizontalTimeline.ActiveIndices | src/components/HorizontalTimeline.tsx:273 | exactly the card and dot at the selected index are active, and none for an index past the end |
| HorizontalTimeline.TechStack | src/components/HorizontalTimeline.tsx:332-352 | a tech block exactly when the event lists technologies; it holds the first four in order and `+k more` with `k = n - 4` exactly when `n > 4` |
| HorizontalTimeline.TypeColor | src/components/HorizontalTimeline.tsx:191-202 | the education and achievement styles for those types, and the work style for anything else |
| HorizontalTimeline.TypeColorWork | src/components/HorizontalTimeline.tsx:191-202 | the three styles differ, so the work style goes to exactly the types other than education and achievement |
| HorizontalTimeline.AttachAndRead | src/components/HorizontalTimeline.tsx:142-166 | before the API exists the buttons and dots do nothing and the counter reads `1 of n`; after attaching, the buttons follow the snap's answers, the counter reads `snap+1 of n`, and only the snap's card is active |
| HorizontalTimeline.PageIdsDistinct | src/components/HorizontalTimeline.tsx:35-111 | the five event ids are distinct |
| HorizontalTimeline.PageBadges | src/components/HorizontalTimeline.tsx:53-125 | the badges read `+2 more`, none, `+1 more`, `+1 more`, none |
| Timeline.TypeColor | src/components/Timeline.tsx:169-180 | anything other than education or achievement gets the work style |
| Timeline.TypeColorsAgree | src/components/Timeline.tsx:169-180 | both timelines give every type the same style |
| Timeline.Layout | src/components/Timeline.tsx:221-229 | the row runs left to right exactly at even indices |
| Timeline.LayoutAlternates | src/components/Timeline.tsx:221 | neighbouring events face opposite ways, and the pattern repeats every two |
| Timeline.ButtonLabelSpec | src/components/Timeline.tsx:280 | the label is `Show Less` exactly when expanded, and `Show Details` otherwise |
| Timeline.EventDetails | src/components/Timeline.tsx:290-330 | details appear exactly when expanded, with all achievements and the full technology list when one exists |
| Timeline.View.constructor | src/components/Timeline.tsx:133 | no event is expanded |
| Timeline.View.ToggleEvent | src/components/Timeline.tsx:276 | the event collapses when it was expanded, and otherwise becomes the expanded one |
| Timeline.AtMostOneExpanded | src/components/Timeline.tsx:220 | with distinct ids at most one event is expanded |
| Timeline.ExpandOne | src/components/Timeline.tsx:218-330 | after one toggle only that event shows details, and even and odd rows alternate |

## Left out

- Rendering, styling and animation are left out. These are JSX, framer-motion variants, icons, `AnimatePresence` and the hover/tap scales. The active filter class is the exception: it is modelled as a string function.
- Colour entries are written with one template, `ColourClasses(hue)`. The entries are `bg-H/10 text-H border-H/20`, so only the hue is stored.
- The carousel library itself is left out. Its snap and `canScrollPrev`/`canScrollNext` answers are the `Snap` given to `OnSelect`. Its scrolls are the returned `Request`. Listener registration is folded into `Attach`.
- Wheel paging and per-event "show more" toggles are not in the source files, so they are not modelled.
- DOM and window access is left out: `getElementById`, `offsetTop`/`offsetHeight`, `scrollY`, `scrollTo`, `window.location.href` and event listeners. Measured sections are the `Layout` map. A navigation or scroll is the value a member returns. Where `scrollTo` lands is `Portfolio.Landing`; the page's maximum scroll offset is an input to it.
- Portfolio.ScrollThenTrack: covers only targets the page can reach. A clamped target is covered by `Portfolio.ScrollHomeThenTrack` at the top, and by the counterexample `Portfolio.ShortLastSection` at the bottom, where another section becomes active.
- Offsets are unbounded integers. Browsers' fractional scroll offsets are not modelled.
- `setTimeout` timing is not modelled, only the callbacks, as pending events. `FireTimer` may run any pending one, which covers every firing order. Interleaved overlapping submissions are not studied beyond that.
- The `useToast` notification in `src/components/Contact.tsx` is left out. It is a foreign hook with no effect on state.
- `useInView` and the IntersectionObserver are left out. Their answer is the `inView` parameter of `EnhancedSkills.BarValue`.
- Browser-enforced `required` and `type="email"` checks are not modelled.
- Lone UTF-16 surrogates, on which `encodeURIComponent` throws, are left out. Dafny's `string` is a sequence of Unicode scalar values, so none can occur.
- src/components/Hero.tsx, src/components/About.tsx, src/components/Education.tsx, src/components/Skills.tsx and vite.config.ts are not part of this model. They are random particle placement, static content and build configuration.
- The order of the skill category buttons on the page is not stated as a concrete list. Working out `Dedup` on the fourteen-skill literal is too costly for the verifier. `Gallery.DistinctKeysSpec` states the order for every list.
- The content arrays are used only as concrete instances: ids, categories, levels and technology counts. Titles, dates, descriptions and icons are not modelled.
- Skills' icons, a project's `featured` badge and its `status` colours are presentation only.
- The modal's full achievement and technology lists in `src/components/Projects.tsx` are left out, because they only render fields.
- The enhanced project card's `Learn More`/`Show Less` label is not modelled. The `Timeline` label is modelled by `Timeline.ButtonLabel`.
- EnhancedContact.Form.FireTimer: the status `error` is declared but never assigned by any handler. `Form.Valid` therefore excludes it, and no member can reach it.
- EnhancedProjects.View.SelectCategory and EnhancedSkills.View.SelectCategory take a category of the closed enumeration. The source's state is a `string | null` that only its buttons set.
