# Portfolio SPA — verified model of its interaction logic

This project models in Dafny the logic behind a personal-portfolio single-page
application written in React and TypeScript. Nearly all of that application is
layout, styling and animation. The parts that decide what is shown are modelled
here:

- **The navigation bar** (`Navbar`).
  - Which section is active: first from the URL hash, then from a backward scan
    over the section elements on the page.
  - The mobile menu, and the body-scroll lock that follows it.
  - Hovering, and the desktop underline.
- **The experience pager** (`ExperienceSection`).
  - `currentPage` is clamped into range by the previous and next buttons, or set
    by a numbered button.
  - Each card cuts its responsibilities to two until it is expanded.
- **The two project galleries** (`HobbyProjects`, `DetailedProjects`).
  - Both sort a copy of their records, latest first.
  - The hobby gallery has a single-slot image preview and per-card link buttons.
  - The timeline has a per-project expand/collapse map.
- **The certification section** (`Certifications`).
  - It filters by an exact category match, with no "All" choice.
  - Each card has its own full-size overlay.
- **The study-materials page** (`Materials`).
  - It filters by category, and "All" lets everything through.
  - It shows an empty state when nothing passes.

These modules are shared:

- `JsValues` holds JavaScript truthiness, `a || fallback`, and array indexing
  that may give `undefined`.
- `Seqs` holds `Array.prototype.filter` and the subsequence relation it keeps.
- `Chronology` holds the month table, the comparator both galleries pass to
  `sort`, and a stable insertion sort.

`Array.prototype.sort` is required to be stable. With a consistent comparator,
every stable sort gives the same result, so the insertion sort stands in for
whichever sort the engine uses. The two galleries repeat the same
comparator (`src/components/HobbyProjects.tsx:37-44` and
`src/components/DetailedProjects.tsx:33-40`), so both `SortedProjects`
functions are `Chronology.LatestFirst` on their own record type.

The model follows the source's form:

- Component state that event handlers update becomes a class: `NavbarState`,
  `ExperienceState`, `Gallery`, `Timeline`, `CertificationsState`,
  `CertificationCard` and `MaterialsState`. Their methods state the new state.
- The expressions computed during render become functions, with lemmas about
  them.
- `handleScroll`'s backward `for` loop with `break` stays a loop. It is proved
  equal to the function `ScrollTarget`.

The browser is modelled through inputs:

- `window.location.hash` and `window.scrollY` are parameters.
- `location.pathname === "/"` is the flag `isHome`.
- `document.getElementById(id).offsetTop` is a map `dom` from the ids of the
  elements on the page to their offsets.
- `document.body.style.overflow` is the field `bodyOverflow`.

## Model

| member | source | states |
|---|---|---|
| JsValues.OrElse | src/components/HobbyProjects.tsx:338 | `value \|\| fallback` is the value when it is a non-empty string and the fallback otherwise, so it is never empty when the fallback is not |
| JsValues.At | src/components/Experience.tsx:69 | indexing an array gives an element exactly when the index is in range, and then it is the element at that index |
| Seqs.Filter | src/components/Certifications.tsx:54-55 | the filter result is no longer than its input; every element kept passes the test and comes from the input; every passing input element is kept, as often as it occurs |
| Seqs.FilterIsSubsequence | src/components/Materials.tsx:14-17 | a filter keeps its input's relative order: the result is a subsequence of the input |
| Seqs.FilterKeepsAll | src/components/Materials.tsx:16 | when every element passes, the filter returns its input unchanged |
| Seqs.FilterEmptyIff | src/components/Materials.tsx:104 | the filter result is empty exactly when no element passes the test |
| Chronology.MonthIndex | src/components/HobbyProjects.tsx:41-42 | a month name maps to an index from 0 to 11, and to -1 exactly when it is not a known name |
| Chronology.MonthIndexFollowsCalendar | src/components/HobbyProjects.tsx:41-42 | full and three-letter month names both map to their calendar position, and the short forms are the first three letters of the full ones |
| Chronology.Compare | src/components/HobbyProjects.tsx:38-43 | the comparator is negative exactly when `a` is newer (later year, or same year and later month), zero exactly when the keys agree, and positive exactly when `b` is newer |
| Chronology.InsertByDate | src/components/HobbyProjects.tsx:37-44 | one insertion step of the sort adds exactly the inserted element to the multiset |
| Chronology.SortByDate | src/components/HobbyProjects.tsx:37 | the sorted copy is a permutation of the input |
| Chronology.InsertKeepsSorted | src/components/HobbyProjects.tsx:38-43 | inserting into a latest-first list keeps it latest first |
| Chronology.SortByDateIsSorted | src/components/HobbyProjects.tsx:38-43 | the sorted copy is latest first: no element is newer than any element before it |
| Chronology.WithKeyCons | src/components/HobbyProjects.tsx:40-43 | the elements with a given key of `[x] + t` are `x`, if it has that key, followed by those of `t` |
| Chronology.InsertIsStable | src/components/HobbyProjects.tsx:40-43 | inserting `x` into a list gives, for every key, the same elements with that key in the same order as placing `x` at the front |
| Chronology.SortByDateIsStable | src/components/HobbyProjects.tsx:40-43 | for every key, the elements with that key appear in the sorted copy in their input order |
| Chronology.SortOfSortedIsIdentity | src/components/HobbyProjects.tsx:37-44 | sorting a list that is already latest first returns it unchanged |
| Chronology.SortIsIdempotent | src/components/HobbyProjects.tsx:37-44 | sorting the sorted copy again changes nothing |
| Chronology.FirstIsNewest | src/components/DetailedProjects.tsx:33-40 | an element newer than every other element comes first in the sorted copy |
| Chronology.LastIsOldest | src/components/DetailedProjects.tsx:33-40 | an element older than every other element comes last in the sorted copy |
| Chronology.LatestFirst | src/components/HobbyProjects.tsx:37-44 | `sortedProjects`, in both galleries, is a permutation of the records; adjacent pairs have a non-increasing year, and within a year a non-increasing month; records with the same month and year keep their order |
| HobbyProjects.SortedProjects | src/components/HobbyProjects.tsx:37-44 | the gallery's `sortedProjects` is `Chronology.LatestFirst` over the record dates, so its order, permutation and stability are those of that function |
| DetailedProjects.SortedProjects | src/components/DetailedProjects.tsx:33-40 | the timeline's `sortedProjects` is `Chronology.LatestFirst` over the record dates, with the same guarantees |
| HobbyProjects.PreviewSource | src/components/HobbyProjects.tsx:338 | the image a card opens is its `imageUrl` when that is non-empty, else "/placeholder.png"; it is never empty |
| HobbyProjects.Gallery.constructor | src/components/HobbyProjects.tsx:46 | the preview starts closed (`null`) |
| HobbyProjects.Gallery.ModalShown | src/components/HobbyProjects.tsx:58 | the modal is rendered exactly when `previewImg` is a non-empty string |
| HobbyProjects.Gallery.OpenPreview | src/components/HobbyProjects.tsx:338 | clicking an image makes that image the one preview, replacing any open one; the modal is then shown, with a non-empty source |
| HobbyProjects.Gallery.ClickBackdrop | src/components/HobbyProjects.tsx:61 | a click on the backdrop makes the preview `null` and hides the modal |
| HobbyProjects.Gallery.ClickCloseButton | src/components/HobbyProjects.tsx:65 | the close button clears the preview, and the click bubbling to the backdrop leaves it cleared |
| HobbyProjects.Gallery.ClickImage | src/components/HobbyProjects.tsx:87 | a click on the previewed image itself stops propagating and leaves the preview open and unchanged |
| HobbyProjects.LinkButtons | src/components/HobbyProjects.tsx:380-391 | "View Code" is shown exactly when `githubLink` is present and non-empty, and "Live Demo" exactly when `demoLink` is; there are at most two buttons, "View Code" first, and every shown button has a non-empty link |
| HobbyProjects.ShippedStrideFirst | src/data/hobbyProjects.ts:9-20 | on the shipped records "Stride" (Aug 2025) is first |
| HobbyProjects.ShippedJuneKeepsOrder | src/data/hobbyProjects.ts:20-32 | the two Jun 2025 records stay in data order in the sorted copy |
| DetailedProjects.Toggled | src/components/DetailedProjects.tsx:25-30 | a toggle flips the given project's expanded status, where a missing entry reads as collapsed; every other project's status is unchanged; the record only gains that id as a key |
| DetailedProjects.IsExpanded | src/components/DetailedProjects.tsx:64 | `expandedProjects[id] \|\| false`: a project is expanded only when it has an entry that is true |
| DetailedProjects.ToggleTwiceRestores | src/components/DetailedProjects.tsx:26-29 | toggling the same project twice restores every project's expanded status |
| DetailedProjects.Timeline.constructor | src/components/DetailedProjects.tsx:21-23 | the record starts empty, so every project starts collapsed |
| DetailedProjects.Timeline.ToggleProjectDetails | src/components/DetailedProjects.tsx:25-30 | the details button replaces the record with its toggled copy: only that project's status flips |
| DetailedProjects.ShippedStartsWithChatty | src/data/detailedProjects.ts:228-234 | on the shipped records the timeline starts with "Chatty" (January 2025) |
| DetailedProjects.ShippedEndsWithCovidPage | src/data/detailedProjects.ts:21-27 | on the shipped records the timeline ends with "COVID-19 Page" (November 2022) |
| Certifications.Displayed | src/components/Certifications.tsx:54-55 | every displayed certification has exactly the selected category; every certification of that category is displayed, as often as it occurs; the data order is kept |
| Certifications.WorkshopsNeverDisplayed | src/components/Certifications.tsx:11-16 | with any selection a button can make, no "Workshops" certification is displayed |
| Certifications.CertificationsState.constructor | src/components/Certifications.tsx:18 | the initial selection is `categories[0]`, "Intercollege Competitions" |
| Certifications.CertificationsState.SelectCategory | src/components/Certifications.tsx:29-33 | a category button selects its category, which is one of the four listed |
| Certifications.CertificationsState.Shown | src/components/Certifications.tsx:54-58 | the grid shows exactly the certifications of `selectedCategory`, each one as often as it occurs, in data order; under a valid selection no workshop is shown |
| Certifications.CertificationCard.constructor | src/components/Certifications.tsx:72 | a card's overlay starts closed |
| Certifications.CertificationCard.ClickCard | src/components/Certifications.tsx:79 | clicking the card opens its overlay |
| Certifications.CertificationCard.ClickOverlay | src/components/Certifications.tsx:120 | clicking the dark overlay closes it |
| Certifications.CertificationCard.ClickPanel | src/components/Certifications.tsx:127 | clicking the inner panel stops propagating and leaves the overlay open |
| Certifications.CardImage | src/components/Certifications.tsx:87-90 | the card shows `imageUrl`, or its placeholder when that is empty; it never shows an empty source |
| Certifications.OverlayImage | src/components/Certifications.tsx:133-136 | the overlay shows `imageUrl`, or the larger placeholder when that is empty |
| Certifications.InfoLines | src/components/Certifications.tsx:99-108 | the issuer line appears exactly when `issuer` is present and non-empty, the date line likewise; there are at most two lines, the issuer first |
| Materials.FilteredMaterials | src/components/Materials.tsx:14-17 | under "All" the result is the whole list in order; otherwise every result has exactly the selected category; every material of the selected category is kept, as often as it occurs; the result is a subsequence of the list |
| Materials.EmptyStateShown | src/components/Materials.tsx:104 | the empty state is shown exactly when the filtered list is empty (characterised by `EmptyStateIffNoMatch`) |
| Materials.EmptyStateIffNoMatch | src/components/Materials.tsx:104 | the empty state shows exactly when the list is empty under "All", or no material has the selected category otherwise |
| Materials.MaterialsState.constructor | src/components/Materials.tsx:12 | the initial selection is "All" |
| Materials.MaterialsState.SelectCategory | src/components/Materials.tsx:75-78 | a button selects its category, which is always one of `materialCategories` |
| Materials.MaterialsState.Shown | src/components/Materials.tsx:14-17 | the grid shows every material under "All"; otherwise exactly the materials of `selectedCategory`, each one as often as it occurs; data order is kept either way |
| Materials.ShippedNeverEmpty | src/data/materials.ts:47-52 | on the shipped materials no category button leads to the empty state |
| ExperienceSection.VisibleResponsibilities | src/components/Experience.tsx:189-191 | an expanded card lists every responsibility; a collapsed one lists the first min(2, n) of them, in order |
| ExperienceSection.ToggleShown | src/components/Experience.tsx:196 | the toggle is rendered when there are more than `maxVisible` (2) responsibilities (characterised by `ToggleShownIffHidden`) |
| ExperienceSection.ToggleShownIffHidden | src/components/Experience.tsx:196 | the "View more" button is there exactly when the collapsed card hides some responsibility |
| ExperienceSection.PrevPage | src/components/Experience.tsx:79 | the previous-page update never goes below 1; from page p > 1 it goes to p - 1, and it leaves the page unchanged exactly on page 1 |
| ExperienceSection.NextPage | src/components/Experience.tsx:102 | the next-page update never goes past the last page; below the last page it goes to p + 1, and it leaves the page unchanged exactly on the last page |
| ExperienceSection.PageNumbers | src/components/Experience.tsx:85 | there is one numbered button per page |
| ExperienceSection.PageNumbersAreThePages | src/components/Experience.tsx:85-89 | the numbered buttons offer exactly the pages 1 to `totalPages`, in increasing order |
| ExperienceSection.PagerStaysInBounds | src/components/Experience.tsx:79-102 | from a page in range, previous, next and every numbered button all lead to a page between 1 and `totalPages` |
| ExperienceSection.ExperienceState.TotalPages | src/components/Experience.tsx:17 | `totalPages` is the number of experiences |
| ExperienceSection.ExperienceState.Current | src/components/Experience.tsx:69 | with at least one experience and a valid page, the shown experience exists and is `experiences[currentPage - 1]` |
| ExperienceSection.ExperienceState.ControlsShown | src/components/Experience.tsx:76 | the pager is rendered only when `totalPages > 1` |
| ExperienceSection.ExperienceState.PrevDisabled | src/components/Experience.tsx:80 | the left chevron is disabled exactly on page 1 (where `Previous` is a no-op) |
| ExperienceSection.ExperienceState.NextDisabled | src/components/Experience.tsx:104 | the right chevron is disabled exactly on the last page (where `Next` is a no-op) |
| ExperienceSection.ExperienceState.Shown | src/components/Experience.tsx:189-194 | on a valid page of a non-empty list, the card lists all responsibilities of `experiences[currentPage - 1]` when expanded, and their first min(2, n) when collapsed |
| ExperienceSection.ExperienceState.constructor | src/components/Experience.tsx:15 | the page starts at 1 with its card collapsed |
| ExperienceSection.ExperienceState.Previous | src/components/Experience.tsx:79-80 | the left chevron moves to `max(p - 1, 1)` and keeps the page valid; it is a no-op exactly when it is disabled (page 1); a page change remounts the card, collapsed |
| ExperienceSection.ExperienceState.Next | src/components/Experience.tsx:101-104 | the right chevron moves to `min(p + 1, totalPages)` and keeps the page valid; it is a no-op exactly when it is disabled (last page); a page change remounts the card, collapsed |
| ExperienceSection.ExperienceState.GoTo | src/components/Experience.tsx:89 | a numbered button moves to its page, which is valid; the card stays expanded only when the page does not change |
| ExperienceSection.ExperienceState.ToggleExpanded | src/components/Experience.tsx:196-198 | the button, present only with more than two responsibilities, flips `expanded` |
| ExperienceSection.ShippedSinglePageWithToggle | src/data/experience.ts:14-31 | the shipped data has one page, so no pager is shown; its card has five responsibilities, shows the first two collapsed, and offers "View more" |
| Navbar.NavIdsAreLowerCasedItems | src/components/Navbar.tsx:17 | the section ids are the five navigation items lower-cased, in order |
| Navbar.ToLower | src/components/Navbar.tsx:37 | `toLowerCase` on ASCII: same length, upper-case letters become their lower-case forms, and every other character is kept |
| Navbar.RemoveFirst | src/components/Navbar.tsx:22 | `replace("#", "")` removes the first `#` and keeps everything before and after it; with no `#` it changes nothing |
| Navbar.InitialActive | src/components/Navbar.tsx:22-29 | the active item chosen on a location change is the hash without `#` when it is a section id, else "about" on the home page and "" elsewhere; it is always "" or a section id |
| Navbar.InitialFromSectionLink | src/components/Navbar.tsx:22-24 | on every page, the hash `#id` of a section selects that section |
| Navbar.SectionsFromFound | src/components/Navbar.tsx:35-40 | every section kept from a list of ids is one of those ids, its element is on the page, and it carries that element's offset |
| Navbar.SectionsFromComplete | src/components/Navbar.tsx:35-40 | every id whose element is on the page is kept, so nothing is kept exactly when no element is found |
| Navbar.SectionsFromInOrder | src/components/Navbar.tsx:35-40 | the kept sections are in the order of the ids |
| Navbar.SectionsOfMatchesPage | src/components/Navbar.tsx:35-40 | `sections` holds exactly the navigation sections whose element is on the page, in navigation order, each at its offset; it is empty exactly when no section element exists |
| Navbar.SectionsFrom | src/components/Navbar.tsx:35-40 | the map-then-filter over a list of ids; characterised by `SectionsFromFound`, `SectionsFromComplete` and `SectionsFromInOrder` |
| Navbar.SectionsOf | src/components/Navbar.tsx:35-40 | `sections` over the five navigation ids; characterised by `SectionsOfMatchesPage` |
| Navbar.LastReached | src/components/Navbar.tsx:46-52 | the backward scan stops at the last section whose top is at or above the position, with every later one below it; it finds none exactly when every top is below the position |
| Navbar.LastReachedIs | src/components/Navbar.tsx:46-52 | the scan stops exactly at the index whose top is reached and after which no top is reached |
| Navbar.LastReachedMonotone | src/components/Navbar.tsx:46-52 | scrolling further down never moves the chosen section back up the list |
| Navbar.ScrollTarget | src/components/Navbar.tsx:32-53 | the active item `handleScroll` leaves; characterised by `ScrollTargetStaysOrLands` and computed by the loop of `NavbarState.HandleScroll` |
| Navbar.ScrollTargetStaysOrLands | src/components/Navbar.tsx:32-52 | a scroll check keeps the active item or makes a section on the page active; it changes nothing off the home page, with no section elements, or when every section is below the position; when some section is at or above it, the active item becomes the last such section in navigation order, every later one being below the position |
| Navbar.UnderlineAfterClick | src/components/Navbar.tsx:118-123 | after a click, with nothing hovered, an item is underlined exactly when it is the clicked one |
| Navbar.UnderlineShown | src/components/Navbar.tsx:118-123 | an item's underline slides in exactly when the item is active or hovered |
| Navbar.NavbarState.constructor | src/components/Navbar.tsx:11-15 | the menu starts closed, nothing is active or hovered, and the body scrolls |
| Navbar.NavbarState.HandleScroll | src/components/Navbar.tsx:32-53 | the backward loop with `break` leaves the active item `ScrollTarget` gives, and changes nothing else |
| Navbar.NavbarState.OnLocationChange | src/components/Navbar.tsx:21-56 | the location effect sets the choice from the hash; the immediate scroll check then applies to that choice |
| Navbar.NavbarState.ClickNavItem | src/components/Navbar.tsx:73-76 | clicking an item makes its lower-cased name, a section id, active, and closes the menu, which unlocks the body |
| Navbar.NavbarState.ToggleMenu | src/components/Navbar.tsx:188 | the menu button flips `isOpen`; the body overflow is "hidden" exactly while the menu is open |
| Navbar.NavbarState.CloseMenu | src/components/Navbar.tsx:291 | the mobile "Timeline" and "Back to Home" links close the menu and unlock the body |
| Navbar.NavbarState.HoverEnter | src/components/Navbar.tsx:108 | hovering an item records it as hovered |
| Navbar.NavbarState.HoverLeave | src/components/Navbar.tsx:109 | leaving an item clears the hover |

## Left out

- Rendering is left out: JSX layout, Tailwind classes, framer-motion variants and transitions. The theme toggle is left out for the same reason.
- The presentational components are not part of this model: About, Footer, Projects and SkillSet. The same goes for the routing and loader timer in `App.tsx`, and for Contact, whose substance is a network send through emailjs.
- DOM and browser calls are inputs, as described above. These calls are `getElementById`, `offsetTop`, `scrollY`, the location hash, `window.scrollTo` and `document.body.style`. Adding and removing the scroll listener is not modelled: the model has no event loop. The effect cleanups on unmount are not modelled either.
- Navbar.NavbarState.OnLocationChange: the source lists `navItems` in the effect's dependencies. That array is rebuilt on every render, so the effect re-runs after every state change, clicks and hovers included. The model offers the effect as this method, which the caller runs; it does not sequence it after the other methods automatically.
- Chronology.MonthIndex: replaces JavaScript's `Date` parsing of `"<month> 1, <year>"` with a table of the twelve full and twelve three-letter English month names. A name outside the table maps to -1 (before January). That string is not a standard ECMAScript date format: engines parse other spellings their own way, and give NaN for names they reject.
- ExperienceSection.ExperienceState.Shown: requires at least one experience. With an empty list, `experiences[currentPage - 1]` is `undefined` and the source throws while rendering `ExperienceCard`; the model does not describe that failure.
- Navbar.ToLower: lowers ASCII letters only. JavaScript's `toLowerCase` is Unicode-aware, but every navigation item is ASCII.
- Scroll positions and element offsets are integers. In the browser they can be fractional.
- Experience logos: the `onError` fallback to a placeholder logo (src/components/Experience.tsx:137-140) reacts to a failed image load, which is an event outside the model, so it is not modelled. The card and gallery images have no `onError`; their `imageUrl || placeholder` fallback is modelled.
- Record types keep the fields the logic reads plus a few display fields the fixtures fill in (`Experience.role`, `company`, `skills`; `Material.title`, `url`, `tags`; `Certification.name`). No member reads the display fields.
- Ids made with `uuidv4()` at load time are stood in for by fixed strings. Id uniqueness is not used by any property.
- Certifications: the grid is keyed by the selected category. A category change therefore remounts the cards, and any open overlay closes. `CertificationCard` models one card's lifetime and does not model that remount.
- Certifications and projects have no pagination and no items-per-page logic in the source, so none is modelled. A missing certification date is only left unrendered; there is no rule that sorts records without a date last.
- Sorting works on a copy: Dafny sequences are values, so the record lists cannot be reordered in place. The model therefore has no separate statement that the source array is unchanged.
