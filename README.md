# Landing-page components: carousel, portfolio filter, service colours

This project models the three pieces of discrete logic in the landing page
of a software consultancy, written in React:

- **Testimonials** (`testimonials.dfy`): the testimonial carousel. It keeps
  one piece of state, the index of the testimonial on display, in a list of
  five. The previous and next arrows move the index back and forth with
  wrap-around. A click on a dot jumps to that dot's slide. An autoplay tick
  computes its own successor of the index. The model is a class `Carousel`
  with an `index` field and the invariant `0 <= index < n`. Its methods are
  tied to the pure successor and predecessor functions `NextSlide` and
  `PrevSlide`. Lemmas prove that the two are inverses, that the carousel
  cycles with period exactly `n`, that exactly one dot is active, and that
  the star row has one star per rating point.
- **Portfolio** (`portfolio.dfy`): the project grid and its filter. The
  filter `all` shows the whole catalogue. Any other filter shows the
  projects of that category in catalogue order. Lemmas prove these
  properties of the filter:
  - soundness and completeness, together as one if-and-only-if;
  - the result is a subsequence of the catalogue;
  - filtering twice gives the same list;
  - the three category filters partition the catalogue, as multisets;
  - project ids stay distinct under every filter, since the grid uses them
    as list keys.
- **Services** (`services.dfy`): the colour-to-gradient lookup used to draw
  the service cards. It is a six-entry table, and any other name falls
  back to the blue gradient. Lemmas prove that the lookup is total and
  never empty, that its range is exactly the six gradients, that distinct
  table colours give distinct gradients, and that no catalogue service
  takes the fallback.

JavaScript's `%` truncates toward zero and Dafny's is Euclidean. They agree
here, because the previous-slide expression adds `n` before taking the
remainder, so the operand is never negative. `PrevSlide` keeps that
expression as written.

The colour table is an object literal looked up with an `||` default. It is
modelled as a `match` on the colour name that yields `Some(gradient)` or
`None`. The `||` falls back for any falsy entry, so `ColorClasses` also
falls back when an entry is empty. Its contract shows that this never
changes the result, because no entry is empty.

## Model

| member | source | states |
|---|---|---|
| Testimonials.Catalogue | src/components/Testimonials.js:15-61 | the carousel holds five testimonials |
| Testimonials.NextSlide | src/components/Testimonials.js:119-121 | the next slide is in range; it is `i + 1` below the last slide and wraps to 0 from the last |
| Testimonials.PrevSlide | src/components/Testimonials.js:123-125 | the previous slide is in range; it is `i - 1` above slide 0 and lands on `n - 1` from slide 0, never negative |
| Testimonials.PrevAfterNext | src/components/Testimonials.js:119-125 | previous after next returns to the original in-range slide |
| Testimonials.NextAfterPrev | src/components/Testimonials.js:119-125 | next after previous returns to the original in-range slide |
| Testimonials.NextSlideTimes | src/components/Testimonials.js:119-121 | any number of next presses from an in-range slide stays in range |
| Testimonials.NextSlideTimesShifts | src/components/Testimonials.js:120 | within one lap, k presses move k slides on, wrapping past the last slide once |
| Testimonials.NextSlideTimesAdd | src/components/Testimonials.js:120 | a presses then b presses equal a + b presses |
| Testimonials.NextSlideCycles | src/components/Testimonials.js:120 | n presses return to the start, and no positive number fewer than n does |
| Testimonials.NextSlideTimesPeriodic | src/components/Testimonials.js:120 | the slide after k presses depends on k only modulo n |
| Testimonials.DotStates | src/components/Testimonials.js:208-216 | one dot per slide; dot k is active exactly when k is the shown slide |
| Testimonials.ExactlyOneDotActive | src/components/Testimonials.js:212-216 | with the shown slide in range, exactly one dot is active |
| Testimonials.Stars | src/components/Testimonials.js:184 | a rating draws exactly that many stars, keyed 0 to rating - 1 |
| Testimonials.CatalogueRatedFive | src/components/Testimonials.js:15-61 | every testimonial has rating 5 |
| Testimonials.AfterClick | src/components/Testimonials.js:119-129 | a click leads to a slide in range; a dot click leads to exactly its dot |
| Testimonials.FadedTickAsWritten | src/components/Testimonials.js:97-103 | the crossfaded tick writes the successor read when the interval fired, in range |
| Testimonials.FadedTickLosesClick | src/components/Testimonials.js:97-103 | with two or more slides, a previous-arrow click during the fade is lost: the tick ends on the successor, not on the start that either order of click and tick gives |
| Testimonials.FadedTickLosesClickOnSlideTwo | src/components/Testimonials.js:97-125 | on slide 2 of 5, a previous-arrow click during the fade ends on slide 3 as written and on slide 2 corrected |
| Testimonials.FadedTickCorrected | src/components/Testimonials.js:102-103 | the corrected completion advances the slide shown when the fade ends, in range |
| Testimonials.FadedTickIgnoresClick | src/components/Testimonials.js:97-103 | as written, the slide the tick ends on is the same whatever click came during the fade |
| Testimonials.FadedTickKeepsClick | src/components/Testimonials.js:102-125 | corrected, an arrow click and the tick commute; a previous-arrow click undoes the tick; clicks to different slides give different results |
| Testimonials.Carousel.constructor | src/components/Testimonials.js:12-15 | the carousel starts on slide 0 of the five testimonials |
| Testimonials.Carousel.Next | src/components/Testimonials.js:119-121 | the next arrow keeps the invariant and sets the index to `NextSlide` of the old index |
| Testimonials.Carousel.Prev | src/components/Testimonials.js:123-125 | the previous arrow keeps the invariant and sets the index to `PrevSlide` of the old index |
| Testimonials.Carousel.GoTo | src/components/Testimonials.js:127-129 | a dot click sets the index to exactly the clicked dot; dots exist only for 0 to n - 1 |
| Testimonials.Carousel.Tick | src/components/Testimonials.js:97-114 | one autoplay tick, taken as one step, moves the index exactly as the next arrow does |
| Testimonials.Carousel.Current | src/components/Testimonials.js:166-181 | the testimonial shown is the catalogue entry at the current index, and it has a five-point rating |
| Testimonials.Carousel.Dots | src/components/Testimonials.js:207-219 | the dot row has one dot per testimonial, the one at the index active, exactly one active |
| Testimonials.Carousel.CurrentStars | src/components/Testimonials.js:184 | the number of stars drawn equals the shown testimonial's rating, which is five for every slide |
| Portfolio.Projects | src/components/Portfolio.js:14-75 | the portfolio holds six projects |
| Portfolio.Categories | src/components/Portfolio.js:77-82 | four filter buttons, the first being `all` |
| Portfolio.ProjectCategories | src/components/Portfolio.js:77-82 | the project categories are exactly the ids of the filter buttons after `all`, in button order |
| Portfolio.KeepCategory | src/components/Portfolio.js:86 | the category filter never lengthens the list |
| Portfolio.KeepCategoryMembers | src/components/Portfolio.js:86 | a project is kept if and only if it is in the list and its category equals the filter |
| Portfolio.FilteredProjects | src/components/Portfolio.js:84-86 | the grid never shows more projects than the catalogue holds |
| Portfolio.FilteredProjectsMembers | src/components/Portfolio.js:84-86 | `all` shows exactly the full list; any other filter shows exactly the projects of that category |
| Portfolio.KeepCategoryPositions | src/components/Portfolio.js:86 | the kept projects sit at strictly increasing positions of the list |
| Portfolio.KeepCategoryIsSubsequence | src/components/Portfolio.js:86 | the category filter's result is a subsequence of the list, in the original order |
| Portfolio.FilteredProjectsIsSubsequence | src/components/Portfolio.js:84-86 | every filter's result is a subsequence of the catalogue |
| Portfolio.KeepCategoryIdempotent | src/components/Portfolio.js:86 | filtering the filtered list by the same category changes nothing |
| Portfolio.FilteredProjectsIdempotent | src/components/Portfolio.js:84-86 | applying any filter twice equals applying it once |
| Portfolio.CategoryFiltersPartition | src/components/Portfolio.js:84-86 | when every project is web, mobile or ai, the three results together hold the list exactly, as multisets and by length |
| Portfolio.KeepCategoryMultiset | src/components/Portfolio.js:86 | when every project is web, mobile or ai, the three category results together hold each project exactly as often as the list does |
| Portfolio.KeepCategoryDisjoint | src/components/Portfolio.js:86 | no project is in the results of two different categories |
| Portfolio.CatalogueCategoriesKnown | src/components/Portfolio.js:14-82 | every catalogue project carries one of the three non-`all` filter ids |
| Portfolio.CatalogueFilterSizes | src/components/Portfolio.js:14-86 | the web filter shows projects 1, 3, 6; mobile shows 2, 4; ai shows 5 |
| Portfolio.CatalogueIdsDistinct | src/components/Portfolio.js:14-75 | the catalogue's project ids are pairwise distinct |
| Portfolio.FilteredIdsDistinct | src/components/Portfolio.js:156-158 | a list with distinct ids keeps distinct ids under every filter, so grid keys stay unique |
| Portfolio.FilterButtons | src/components/Portfolio.js:139-151 | one button per filter, a button highlighted exactly when its id is the active filter |
| Portfolio.OneFilterButtonLit | src/components/Portfolio.js:139-151 | while a filter id is active, its button is the only one highlighted |
| Services.Catalogue | src/components/Services.js:12-79 | the grid holds six services |
| Services.ColorEntry | src/components/Services.js:114-122 | a name has an entry exactly when it is one of the six table keys, and every entry is one of the six gradients; any other name has none |
| Services.Gradients | src/components/Services.js:115-120 | the table's value column has one gradient per colour name |
| Services.ColorNames | src/components/Services.js:114-121 | the six colour names of the table |
| Services.ColorClasses | src/components/Services.js:113-123 | a table colour gives its entry, and any other name gives `from-blue-500 to-blue-600` |
| Services.ColorTable | src/components/Services.js:114-121 | a name has an entry if and only if it is one of the six, and the k-th name maps to the k-th gradient |
| Services.UnknownColorIsBlue | src/components/Services.js:122 | a name outside the table is drawn with the blue gradient |
| Services.ColorClassesTotal | src/components/Services.js:113-123 | for every name the result is one of the six gradients and is never empty |
| Services.ColorClassesOnto | src/components/Services.js:114-121 | every gradient of the table is the result for its colour name |
| Services.GradientsDistinct | src/components/Services.js:114-121 | the six gradient strings are pairwise distinct |
| Services.ColorTableInjective | src/components/Services.js:114-121 | distinct table colours give distinct gradients |
| Services.SixGradients | src/components/Services.js:114-121 | the set of gradients has exactly six elements |
| Services.CatalogueColorNames | src/components/Services.js:12-121 | the k-th service names the k-th table colour |
| Services.CatalogueColorsKnown | src/components/Services.js:12-121 | the k-th service is drawn with the k-th gradient, so the fallback is never taken for catalogue data |
| Services.CatalogueGradientsDistinct | src/components/Services.js:12-121 | the six service cards carry six different gradients |

## Left out

- Scroll-triggered GSAP timelines, their stagger offsets and easing in every component: external animation library with floating-point timing.
- `Modern3DBackground.js` and `ThreeHeroBg.js`: WebGL rendering loops with random scene generation and floating-point kinematics; they are not part of this model.
- `LoadingScreen.js`, `Layout.js`, `ScrollToTop.js`, `Hero.js`, `About.js`, `App.js`: markup, counter tweens and scroll-threshold flags, not part of this model.
- The autoplay timer (`setInterval`, `clearInterval`, the 5000 ms period) and the fade animations: timing and DOM plumbing. The effect is re-registered on every slide change, so each new interval reads the index current when it fires. Only the interval is cleared on a change, not a fade already under way; see Findings.
- Carousel.Tick: modelled as one atomic step, the corrected behaviour. When the card element is present, the source reads the successor when the interval fires (`src/components/Testimonials.js:98`) and writes it 0.3 s later, when the fade completes (lines 102-103). An arrow or dot click made during the fade is then overwritten. The class does not capture this; `FadedTickAsWritten` and `FadedTickLosesClick` do.
- React's deferred state updates: each method changes `index` at once, as one update after another.
- Testimonial `content` and `image`, project `description`, `image` and `link`, and service icons and descriptions: display text that no logic reads.
- JavaScript prototype lookups (a colour named `toString` would find an inherited function): the table holds exactly its six own keys.
- Carousel.GoTo: requires the dot index to be in range, because the page creates dots only for indices 0 to n - 1. An index passed from elsewhere is not modelled.

## Findings

| source | as written | input that shows it | evidently intended | confidence | as-written member | corrected member |
|---|---|---|---|---|---|---|
| src/components/Testimonials.js:98-103 | the fade's completion writes `next`, read from the slide shown when the interval fired | five slides, on slide 2: the interval fires, the previous arrow is clicked during the 0.3 s fade, and the fade completes on slide 3 | the completion advances the slide shown when it ends, so the click gives slide 2 | medium, not executed | Testimonials.FadedTickLosesClick | Testimonials.FadedTickKeepsClick |
