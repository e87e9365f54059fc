# Biodiversity map: view state and navigation, in Dafny

This project models the front end of a campus biodiversity catalogue. Visitors pick a
campus, see its species pinned on a map, filter the pins by category, and search
species by name. Two files form the core, and both are modelled here:

- `src/app/core/components/map/index.tsx` is the map component. It holds three pieces
  of state: the selected category filters, the map centre and the highlighted species
  id. It also has the transitions that change them: the `useState` initialisers,
  `toggleFilter`, `toggleAllFilters`, and the effect that re-centres the map and
  highlights a search target. Finally it has the pure rendering rules: filtered
  markers, the responsive zoom, the category icons, the tile-layer fallback and the
  campus marker position.
- `src/app/modules/landing/index.tsx` is the campus page around the map. It covers:
  - the species search (the match predicate, the result list, and the Enter key and
    the result click);
  - the links it navigates to (search result, campus change, clear search);
  - the selected campus;
  - the searched-species effect;
  - the zoom it hands to the map.

The modules follow the program:

| file | module | what |
|---|---|---|
| `lists.dfy` | `Lists` | `Option`, and `filter`/`find` over sequences with their specifications |
| `text.dfy` | `Text` | the string operations the code relies on: `toLowerCase`, `includes`, `trim`, `split`/`join` on one character, `n.toString()` |
| `catalogue.dfy` | `Catalogue` | the loaded records (campus, campus species, species data), the category enum, and JavaScript truthiness |
| `query.dfy` | `Query` | `URLSearchParams.get` on a rendered `/map?…` link, and its round trip |
| `map_component.dfy` | `MapComponent` | the map component: pure rules, and the class `ViewController` holding the three state slots |
| `landing.dfy` | `Landing` | the landing page: pure rules, and the class `LandingPage` holding its state |
| `navigation.dfy` | `Navigation` | how a link written by the landing page is read back and what the map makes of it |

Each modelled piece of component state is a field of a class, and each handler is a method that
`modifies` only the fields the handler sets. Every method is specified against pure
functions of the old state and its arguments. Properties are proved about those functions. React's effects
re-run from scratch whenever an input changes, so each effect is modelled as one
function of its inputs and the previous state.

`Number(text)` and `number.toString()` are left uninterpreted. They are the `parse`
and `show` fields of a `NumberFormat` value that the caller passes in. The only thing
known about `parse` is that it never yields `undefined`. No lemma assumes anything
about how numbers are printed unless its `requires` says so.

A number slot (`Catalogue.Num`) is a number, NaN or `undefined`. `undefined` is what
`coords[1]` holds when the `coordinates` parameter has no comma, because
`split(',').map(Number)` then has a single element. During a search the map
component calls `coords[1].toString()` on that value, which throws a TypeError. The
model's effect therefore either runs to a new state or throws
(`MapComponent.EffectOutcome`).

Three places write or read the coordinate pair in opposite axis orders. The model keeps
this as the code has it and proves the consequences (`Navigation.CampusLinksSwapAxes`):
- the `coordinates` parameter is decoded as "lng,lat" (map lines 83-84, 139-140);
- the campus links write "lat,lng" (landing lines 157, 207);
- the campus markers are drawn at `[longitude, latitude]` (map line 282).

## Model

| member | source | states |
|---|---|---|
| MapComponent.PieceNumber | src/app/core/components/map/index.tsx:139 | `coords[i]` of `split(',').map(Number)`: `Number` of the i-th piece, `undefined` past the last one. No contract of its own; pinned by DecodeWithoutComma and DecodeUndefinedIffNoComma |
| MapComponent.DecodeCoordinates | src/app/core/components/map/index.tsx:139-140 | `[coords[1], coords[0]]`. No contract of its own; pinned by DecodeSwapsParts, DecodeWithoutComma and DecodeUndefinedIffNoComma |
| MapComponent.DecodeSwapsParts | src/app/core/components/map/index.tsx:83-84 | the parameter "a,b" becomes the centre (Number(b), Number(a)): the second part is the latitude |
| MapComponent.DecodeWithoutComma | src/app/core/components/map/index.tsx:83-84 | a parameter without a comma gives latitude `undefined` (`coords[1]` past the end of the one-element array) and longitude Number(a) |
| MapComponent.DecodeUndefinedIffNoComma | src/app/core/components/map/index.tsx:139 | the decoded latitude is `undefined` exactly when the parameter has no comma; the longitude never is |
| MapComponent.InitialState | src/app/core/components/map/index.tsx:80-93 | starts with no highlight. The filters are exactly `[categoryParam]` when it is truthy, else `["birds"]`, so they never repeat. The centre is (0, 0) when the coordinates parameter is falsy |
| MapComponent.InitialCentreFromParameter | src/app/core/components/map/index.tsx:82-85 | with an "a,b" parameter the initial centre is (Number(b), Number(a)) |
| MapComponent.IsMobile | src/app/core/components/map/index.tsx:110 | `window.innerWidth < 640`. No contract of its own; pinned by ResponsiveZoom through its `isMobile` argument and by SearchLinkZoom and CampusLinkWithoutZoom |
| MapComponent.ResponsiveZoom | src/app/core/components/map/index.tsx:97-106 | on a phone, zoom 40 (or no zoom) becomes 30. Otherwise the given zoom is used, with 40 when none is given |
| MapComponent.ResponsiveZoomOnlyRemapsDefault | src/app/core/components/map/index.tsx:97-106 | the zoom changes only on a phone and only when it is 40. Any other zoom is kept, and applying the rule twice equals applying it once |
| MapComponent.ToggledFilters | src/app/core/components/map/index.tsx:117-123 | a selected category is removed: it is no longer present, every other filter is kept with its count, and the order is kept. An unselected category is appended at the end |
| MapComponent.ToggleTwicePreservesMembership | src/app/core/components/map/index.tsx:117-123 | toggling the same category twice leaves the set of selected categories unchanged |
| MapComponent.ToggleTwiceRestoresAbsent | src/app/core/components/map/index.tsx:117-123 | toggling an unselected category twice restores the exact list |
| MapComponent.ToggleKeepsNoDuplicates | src/app/core/components/map/index.tsx:117-123 | toggling never creates a duplicate filter |
| MapComponent.ToggleFreshInTurn | src/app/core/components/map/index.tsx:192-195 | clicking unselected categories one after another appends them in click order |
| MapComponent.ToggledAll | src/app/core/components/map/index.tsx:125-131 | the result is either empty or all eight categories. It is empty exactly when the list's length equals the number of categories |
| MapComponent.ToggleAllTwice | src/app/core/components/map/index.tsx:125-131 | toggling all twice restores an empty or full selection |
| MapComponent.ToggleAllTestsLength | src/app/core/components/map/index.tsx:125-131 | the test only counts. Start from a URL category that is not an enum value and click the other seven categories: this gives eight filters without "birds", and toggling all then clears them |
| MapComponent.FullLengthIffAllSelected | src/app/core/components/map/index.tsx:125-126 | for duplicate-free lists of enum values, "length equals the enum size" holds exactly when every category is selected |
| MapComponent.CategoryKey | src/app/core/components/map/index.tsx:134 | `species.speciesData?.category?.toLowerCase() \|\| ''`. No contract of its own; pinned by FilteredCampusSpecies |
| MapComponent.FilteredCampusSpecies | src/app/core/components/map/index.tsx:133-135 | a species is shown exactly when its lower-cased category (or "") is a selected filter. The shown list keeps the loaded order, and each shown species occurs as often as in the loaded list, so the `(shown/total)` count of line 210 counts copies |
| MapComponent.FilteredExtremes | src/app/core/components/map/index.tsx:133-135 | no filters show nothing. Filters covering every loaded category show everything |
| MapComponent.HighlightOf | src/app/core/components/map/index.tsx:150-154 | something is highlighted exactly when a target exists and its id is truthy. The value is that id's decimal text |
| MapComponent.AtCentre | src/app/core/components/map/index.tsx:148 | the stored texts equal the printed centre, latitude against `coords[1]` and longitude against `coords[0]`. No contract of its own; pinned by EffectHighlightsFirstAtCentre, EffectHighlightsNothingOffCentre and SearchLinkMissesReformattedText |
| MapComponent.SearchThrows | src/app/core/components/map/index.tsx:147-148 | `find` calls its callback on the first species, and that callback evaluates `coords[1].toString()` first, so the search throws on a non-empty list when `coords[1]` is `undefined`. No contract of its own; pinned by Effect's throw-iff and EffectHighlightsFirstAtCentre |
| MapComponent.Effect | src/app/core/components/map/index.tsx:137-164 | it throws exactly when campus id, coordinates and category are all truthy, species are loaded and the coordinates have no comma (`coords[1].toString()` on `undefined`, line 148). Otherwise there are three branches: (1) campus id and coordinates present: centre on the decoded pair and, with a category, filters become `[category]`; without a category the filters stay and the highlight is cleared; (2) otherwise, with campuses loaded: centre on the first campus's (Number(latitude), Number(longitude)) and clear the highlight; (3) with nothing loaded: nothing changes |
| MapComponent.EffectHighlightsFirstAtCentre | src/app/core/components/map/index.tsx:146-154 | during a search with a two-part coordinates parameter, the effect runs and highlights the first species whose stored texts equal the printed centre, provided its id is truthy. With a comma-free parameter it throws |
| MapComponent.EffectHighlightsNothingOffCentre | src/app/core/components/map/index.tsx:138-158 | with no species at the printed centre, nothing is highlighted when the effect runs |
| MapComponent.EffectHighlightIsLoaded | src/app/core/components/map/index.tsx:137-164 | when the effect runs, a highlight it sets is always the id of a loaded species. A highlight can only come from elsewhere when the effect changed nothing |
| MapComponent.EffectIdempotent | src/app/core/components/map/index.tsx:137-164 | once the effect has run, re-running it on the same inputs changes nothing more |
| MapComponent.FilterIcon | src/app/core/components/map/index.tsx:53-55 | an enum value gets its own icon. Any other string gets the default pin |
| MapComponent.CreateCategoryIcon | src/app/core/components/map/index.tsx:58-67 | a highlighted marker has size 50 with class "highlighted-marker", otherwise size 35 with no class. The art is the lower-cased category's icon, or the pin when the category is missing, empty or unknown |
| MapComponent.CategoryField | src/app/core/components/map/index.tsx:224 | `data.speciesData?.category`, absent when either is missing. No contract of its own; pinned by SpeciesMarkers |
| MapComponent.SpeciesMarker | src/app/core/components/map/index.tsx:223-228 | one marker at `[Number(latitude), Number(longitude)]` with `createCategoryIcon(category, isHighlighted)`. No contract of its own; pinned by SpeciesMarkers |
| MapComponent.SpeciesMarkers | src/app/core/components/map/index.tsx:221-228 | one marker per shown species, in order, each at (Number(latitude), Number(longitude)), large exactly when its id text is the highlighted one, and drawn with the pin exactly when the lower-cased category is missing or not an enum value |
| MapComponent.IsHighlighted | src/app/core/components/map/index.tsx:223 | `highlightedSpecies === data.id?.toString()`, false when the highlight is null. No contract of its own; pinned by SpeciesMarkers and AtMostOneHighlighted |
| MapComponent.AtMostOneHighlighted | src/app/core/components/map/index.tsx:222-224 | when loaded species have distinct ids, no two markers are drawn large |
| MapComponent.CampusMarkerPosition | src/app/core/components/map/index.tsx:282 | a campus marker at `[Number(longitude), Number(latitude)]`. No contract of its own; pinned by CampusLinksSwapAxes |
| MapComponent.TileLayerFor | src/app/core/components/map/index.tsx:216-219 | a known layer key selects that layer. No key, or an unknown key, selects the satellite layer |
| MapComponent.TileLayerByKey | src/app/core/constants/osm-maptiler.ts:1-44 | every layer of the table is selected by its own key |
| MapComponent.ViewController.constructor | src/app/core/components/map/index.tsx:80-93 | the new component's state is `InitialState` of its parameters, with no duplicate filters |
| MapComponent.ViewController.ToggleFilter | src/app/core/components/map/index.tsx:117-123 | the filters become `ToggledFilters` of the old ones, with centre and highlight untouched. No filter is ever duplicated |
| MapComponent.ViewController.ToggleAllFilters | src/app/core/components/map/index.tsx:125-131 | the filters become `ToggledAll` of the old ones, with the other state untouched |
| MapComponent.ViewController.Reevaluate | src/app/core/components/map/index.tsx:137-164 | reports a throw exactly when `Effect` throws. Otherwise the whole state becomes `Effect`'s new state of the old state and the inputs, preserving duplicate-freedom |
| MapComponent.ViewController.Markers | src/app/core/components/map/index.tsx:221-228 | as many markers as shown species, never more than were loaded; a marker is large exactly when it is the highlighted one |
| Catalogue.CategoryOf | src/app/core/components/map/index.tsx:41-50 | the enum member whose value is the string, or none exactly when the string is not one of the eight values |
| Catalogue.AllCategoriesDistinct | src/app/core/components/map/index.tsx:126-129 | `Object.values(SpeciesCategory)` has eight distinct, already lower-case values |
| Catalogue.IdString | src/app/core/components/map/index.tsx:151 | an id prints only when present; it prints as decimal digits that read back as the id |
| Catalogue.TemplateText | src/app/modules/landing/index.tsx:157 | `${x}` of an optional whole number: its decimal digits, or "undefined" when absent. No contract of its own; pinned by SearchLinkRoundTrip, ChangeCampusLinkRoundTrip and CampusLinkWithoutZoom |
| Text.TrimEmptyIff | src/app/modules/landing/index.tsx:176 | `searchQuery.trim()` is falsy exactly when every character is white space |
| Text.SplitJoin | src/app/core/components/map/index.tsx:139 | splitting a joined list of comma-free parts on the separator gives the parts back |
| Text.JoinSplit | src/app/core/components/map/index.tsx:139 | joining the parts of a split gives the text back |
| Text.NatToStringRoundTrip | src/app/core/components/map/index.tsx:151 | an id's decimal text reads back as the id |
| Text.NatToStringInjective | src/app/core/components/map/index.tsx:223 | distinct ids have distinct texts, so comparing texts compares ids |
| Query.SearchParamOfRendered | src/app/modules/landing/index.tsx:20-21 | reading a parameter from a link rendered as `name=value&…` gives the first value written under that name, for plain names and values |
| Landing.MatchesQuery | src/app/modules/landing/index.tsx:196-200 | the lower-cased query is in the common name, the scientific name or the category text. No contract of its own; pinned by MatchesQueryProperties and FilteredSpecies |
| Landing.MatchesQueryProperties | src/app/modules/landing/index.tsx:195-201 | the search ignores the case of the query, and the empty query matches every species |
| Landing.FilteredSpecies | src/app/modules/landing/index.tsx:195-201 | a species is listed exactly when its lower-cased common name, scientific name or category contains the lower-cased query. The list keeps the loaded order, and each listed entry occurs as often as in the loaded list |
| Landing.EmptyQueryListsAll | src/app/modules/landing/index.tsx:195-201 | with the empty query exactly the loaded list is listed |
| Landing.EnterTarget | src/app/modules/landing/index.tsx:176-184 | the species Enter goes to. No contract of its own; pinned by EnterPicksFirstResult and EnterFollowsFirstShown |
| Landing.EnterPicksFirstResult | src/app/modules/landing/index.tsx:175-193 | Enter leads to the first listed match exactly when the key is Enter, the query has a character that is not white space, and something matches. Otherwise it leads nowhere |
| Landing.ShownResults | src/app/modules/landing/index.tsx:286-287 | the modal lists nothing for a blank query, and the matches otherwise |
| Landing.EnterFollowsFirstShown | src/app/modules/landing/index.tsx:175-193 | Enter goes to the first result the modal shows, and nowhere when it shows none |
| Landing.CategoryTemplate | src/app/modules/landing/index.tsx:185 | `${speciesData?.category?.toLowerCase()}`, "undefined" without a category. No contract of its own; pinned by SearchLinkRoundTrip |
| Landing.SearchUrl | src/app/modules/landing/index.tsx:186 | the search link, longitude first. No contract of its own; pinned by SearchLinkRoundTrip and the lemmas after it |
| Landing.ChangeCampusUrl | src/app/modules/landing/index.tsx:157 | the change-campus link, latitude first, with the zoom as it is. No contract of its own; pinned by ChangeCampusLinkRoundTrip |
| Landing.ClearSearchUrl | src/app/modules/landing/index.tsx:207 | the clear-search link, latitude first, with the zoom or 15. No contract of its own; pinned by ClearSearchLinkRoundTrip |
| Landing.ZoomOrDefault | src/app/modules/landing/index.tsx:207 | the clear-search zoom is the campus zoom when truthy and exactly 15 otherwise; it is never 0 |
| Landing.HasId | src/app/modules/landing/index.tsx:112 | `campus.id?.toString() === id`, false for a campus without an id. No contract of its own; pinned by FindCampus, FindCampusAt and the two campus handlers |
| Landing.FindCampus | src/app/modules/landing/index.tsx:112 | finds the first campus whose id text equals the given one (no earlier campus has it), and finds none exactly when no loaded campus has that id |
| Landing.FindCampusAt | src/app/modules/landing/index.tsx:112 | the campus at a position is found when it is the first with that id |
| Landing.MapZoomLevel | src/app/modules/landing/index.tsx:586 | the zoom handed to the map is never 0. It is 40 when the parameter is missing or parses to 0, and that number otherwise |
| Landing.AtRawCoordinates | src/app/modules/landing/index.tsx:239 | the stored texts equal the raw pieces, latitude against `coords[1]`, and a missing piece matches nothing. No contract of its own; pinned by SearchedSpecies and SearchLinkFindsSearchedSpecies |
| Landing.SearchedSpecies | src/app/modules/landing/index.tsx:234-247 | it is cleared unless the coordinates parameter is truthy and species are loaded. A new value is a loaded species whose raw texts equal the parameter's parts (latitude = second part). With no such species the previous value stays |
| Landing.SearchedSpeciesIsFirstAtCoordinates | src/app/modules/landing/index.tsx:236-243 | the first species at the raw coordinates becomes the searched species, whatever was searched before |
| Landing.LandingPage.constructor | src/app/modules/landing/index.tsx:26-41 | the page starts with nothing loaded, no selected campus, an empty query and the satellite layer |
| Landing.LandingPage.BeginInitialLoad | src/app/modules/landing/index.tsx:213-215 | the initial load starts with no selected campus data |
| Landing.LandingPage.CampusesLoaded | src/app/modules/landing/index.tsx:100-117 | on an error nothing changes. Otherwise campuses are stored and the truthy URL id is selected. The first campus with that id becomes the selected campus data, and with no such campus the old data stays |
| Landing.LandingPage.CampusSpeciesLoaded | src/app/modules/landing/index.tsx:81-82 | a failed query leaves the campus with no species |
| Landing.LandingPage.AllCampusSpeciesLoaded | src/app/modules/landing/index.tsx:137-141 | a failed query leaves the list as it was |
| Landing.LandingPage.HandleSearchChange | src/app/modules/landing/index.tsx:171-173 | the query becomes the typed text |
| Landing.LandingPage.HandleChangeMapLayer | src/app/modules/landing/index.tsx:166-169 | the selected layer becomes the chosen one |
| Landing.LandingPage.HandleSearchKeyPress | src/app/modules/landing/index.tsx:175-193 | navigates to the search link of `EnterTarget`, and clears the query exactly when it navigates |
| Landing.LandingPage.HandleResultClick | src/app/modules/landing/index.tsx:293-298 | navigates to the clicked species' search link and clears the query |
| Landing.LandingPage.HandleChangeCampus | src/app/modules/landing/index.tsx:154-160 | navigates exactly when a loaded campus has the chosen id, to the change link of `FindCampus`'s first such campus |
| Landing.LandingPage.HandleClearSearch | src/app/modules/landing/index.tsx:203-210 | navigates exactly when the selected campus is loaded, to the clear-search link of `FindCampus`'s first campus with that id. The searched species is always cleared |
| Landing.LandingPage.SearchedSpeciesEffect | src/app/modules/landing/index.tsx:234-247 | the searched species becomes `SearchedSpecies` of the old one and the inputs |
| Navigation.ReadLink | src/app/modules/landing/index.tsx:20-21 | the four `searchParams.get` reads: `campusId`, `coordinates`, `category` and `zoom` (the last two at lines 585-586). No contract of its own; pinned by the link round trips |
| Navigation.SearchLinkRoundTrip | src/app/modules/landing/index.tsx:186 | the search link reads back campus, "longitude,latitude", lower-cased category (or "undefined") and zoom "20" |
| Navigation.SearchLinkCentresOnSpecies | src/app/modules/landing/index.tsx:186 | a search link always holds a comma, so the map's effect runs, never throws, and centres the map on the species' own (latitude, longitude) and, with a non-empty category, shows only that category |
| Navigation.SearchLinkHighlightsFirstThere | src/app/core/components/map/index.tsx:147-151 | when printing the parsed coordinates gives the stored texts back, the link highlights the first species stored at those texts |
| Navigation.SearchLinkMissesReformattedText | src/app/core/components/map/index.tsx:147-149 | when printing the parsed latitude changes the text (as "8.50" becomes "8.5"), no species stored with that latitude text is at the centre |
| Navigation.SearchLinkFindsSearchedSpecies | src/app/modules/landing/index.tsx:236-243 | the landing page matches the link's raw texts, so it finds the first species stored at them |
| Navigation.SearchLinkZoom | src/app/modules/landing/index.tsx:586 | a search link hands the map zoom 20, which stays 20 on a phone |
| Navigation.ChangeCampusLinkRoundTrip | src/app/modules/landing/index.tsx:157 | the change-campus link reads back campus id, "latitude,longitude", no category and the zoom as `${zoom}` prints it |
| Navigation.ClearSearchLinkRoundTrip | src/app/modules/landing/index.tsx:207 | the clear-search link reads back campus id, "latitude,longitude", no category and the campus zoom or 15 |
| Navigation.CampusLinksSwapAxes | src/app/core/components/map/index.tsx:159-161 | both campus links centre the map on (Number(longitude), Number(latitude)), the campus marker's position. They keep the filters and clear the highlight. The default centre is (Number(latitude), Number(longitude)), and the two agree only when both numbers are equal |
| Navigation.CampusLinkWithoutZoom | src/app/modules/landing/index.tsx:157 | for a campus whose zoom is absent (modelled as `undefined`) the change link carries "undefined"; when that parses to NaN the map is given zoom NaN, also on a phone. The clear-search link carries "15" |

## Left out

- The remote data store queries (`supabase…select`) are represented only by their results, which the loading methods take as parameters (`None` for a failed query). All toasts are left out: the error toasts and the `toast.info` that Enter shows when no species matches (landing line 190). The discarded list that `fetchSpecies` builds (landing lines 83-88) has no effect and is left out.
- Navigation (`window.location.href`, `navigate`) is modelled as the URL a handler returns. The redirect home without a `campusId` (landing lines 53-57), `handleBackToHome` and the `replace` option are navigation side effects with no state and are left out.
- Leaflet rendering is left out: `MoveTo`/`setView`, tooltips, marker click handlers, images and their load state, `L.icon` image URLs, the school icon's constants and the JSX layout. The modals and their toggles, the panel, the `isShowMap` timer and the species modal (`handleModal`) are left out too. So is the `isInitialized` flag (landing line 50): `BeginInitialLoad` models the first-run branch of the effect at line 213 without that guard.
- The `resize` listener is left out; the window width is a parameter (`IsMobile`).
- `Number(text)` and `number.toString()` are uninterpreted functions (floating-point parsing and printing are not modelled). Lemmas that depend on them state their assumptions in `requires`.
- `Text.Lower` lower-cases ASCII letters only; JavaScript's `toLowerCase` also maps non-ASCII letters.
- `Query.SearchParam` does not decode percent escapes or '+'. The round-trip lemmas therefore require names and values free of '%', '+', '&' and '#'.
- The category enum file (`src/app/core/enums/species`) is not part of this model. "birds" is the value the code names; the other seven values are taken to be the lower-case member names, listed by `Object.values` in the order of `categoryIconMap` (map/index.tsx:41-50), "birds" first. `ToggledAll` returning that exact list and `ToggleAllTestsLength` ending without "birds" rest on this order.
- Navigation.CampusLinkWithoutZoom (and `Catalogue.TemplateText`): an absent value is printed as "undefined". A NULL column from the data store arrives as `null` and prints as "null" instead (`zoom=null`, `campusId=null`). `Number("null")` is NaN and "null" is truthy too, so what the map does is the same; only the link text differs.
- `MapComponent.FilterIcon` and `MapComponent.CreateCategoryIcon` do not model keys inherited from `Object.prototype` (such as "constructor"). On such keys `categoryIconMap` returns a truthy value instead of falling back to the pin.
- Ids and campus zooms are modelled as optional non-negative whole numbers. Their text is always the plain decimal digits. Negative or fractional ids are not modelled. Neither is the precision JavaScript numbers lose above 2^53, nor the exponent form (such as "1e+21") in which they print from 10^21.
- `Reevaluate`: when the effect throws, React unmounts the component. The model reports the throw and leaves the fields unchanged. It does not model the two updates queued before the throw (`setCoordinates`, `setSelectedFilters`).
- The initial state with a comma-free `coordinates` parameter holds an `undefined` latitude; what Leaflet does with such a centre is not modelled.
- React render batching and effect ordering are not modelled. Each effect is one function applied after its inputs change.
- The pages other than the campus page (home, species details) are not part of this model.
