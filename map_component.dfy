/** The map component (src/app/core/components/map/index.tsx): its three state
    slots (selected category filters, map centre, highlighted species id), the
    transitions that update them, and the pure rules it renders with. */
module MapComponent {
  import opened Lists
  import opened Text
  import opened Catalogue

  // ================================================================ state

  /** The component's view state: `selectedFilters`, `coordinates`, `highlightedSpecies`. */
  datatype ViewState = ViewState(
    selectedFilters: seq<string>,
    coordinates: LatLng,
    highlightedSpecies: Option<string>)

  // ================================================================ coordinates parameter

  /** `coords[i]` of `pieces.map(Number)`: `Number` of the i-th piece, and `undefined`
      past the last piece, since `map` runs only over the pieces there are. */
  function PieceNumber(fmt: NumberFormat, pieces: seq<string>, i: nat): Num {
    if i < |pieces| then fmt.parse(pieces[i]) else Undefined
  }

  /** `coordinatesParams.split(',').map(Number)` read as `[coords[1], coords[0]]`:
      the parameter is written "lng,lat" and the centre is (lat, lng). */
  function DecodeCoordinates(fmt: NumberFormat, param: string): LatLng {
    var pieces := SplitOn(param, ',');
    LatLng(PieceNumber(fmt, pieces, 1), PieceNumber(fmt, pieces, 0))
  }

  /** The decoder swaps the two parts: "a,b" becomes the centre (Number(b), Number(a)). */
  lemma DecodeSwapsParts(fmt: NumberFormat, a: string, b: string)
    requires ',' !in a && ',' !in b
    ensures DecodeCoordinates(fmt, a + "," + b) == LatLng(fmt.parse(b), fmt.parse(a))
  {
    SplitPair(a, b, ',');
  }

  /** A parameter without a comma has no second part: its latitude is `undefined`. */
  lemma DecodeWithoutComma(fmt: NumberFormat, a: string)
    requires ',' !in a
    ensures DecodeCoordinates(fmt, a) == LatLng(Undefined, fmt.parse(a))
  {
    assert IndexOf(a, ',') == -1;
  }

  /** The decoded latitude is `undefined` exactly when the parameter has no comma; the
      longitude, from the first piece, never is. */
  lemma DecodeUndefinedIffNoComma(fmt: NumberFormat, param: string)
    ensures DecodeCoordinates(fmt, param).lat == Undefined <==> ',' !in param
    ensures DecodeCoordinates(fmt, param).lng != Undefined
  {
    var pieces := SplitOn(param, ',');
    assert |pieces| >= 2 <==> ',' in param;
  }

  // ================================================================ initial state

  /** The state the component starts in, from the URL parameters it is given. */
  function InitialState(fmt: NumberFormat, coordinatesParams: Option<string>, categoryParam: Option<string>): (r: ViewState)
    ensures r.highlightedSpecies == None
    ensures r.selectedFilters == [if Truthy(categoryParam) then categoryParam.value else Birds.Value()]
    ensures NoDuplicates(r.selectedFilters)
    ensures !Truthy(coordinatesParams) ==> r.coordinates == LatLng(Number(0.0), Number(0.0))
  {
    ViewState(
      if Truthy(categoryParam) then [categoryParam.value] else [Birds.Value()],
      if Truthy(coordinatesParams) then DecodeCoordinates(fmt, coordinatesParams.value)
      else LatLng(Number(0.0), Number(0.0)),
      None)
  }

  /** Started from a parameter "a,b", the centre is (Number(b), Number(a)). */
  lemma InitialCentreFromParameter(fmt: NumberFormat, a: string, b: string, categoryParam: Option<string>)
    requires ',' !in a && ',' !in b
    ensures InitialState(fmt, Some(a + "," + b), categoryParam).coordinates == LatLng(fmt.parse(b), fmt.parse(a))
  {
    DecodeSwapsParts(fmt, a, b);
  }

  // ================================================================ responsive zoom

  /** The breakpoint of the resize listener: narrower than 640 pixels is mobile. */
  predicate IsMobile(windowWidth: int) {
    windowWidth < 640
  }

  /** `getResponsiveZoom()`: the `zoomLevel` prop (40 when not given), except that on
      mobile the generic default 40 becomes 30. */
  function ResponsiveZoom(isMobile: bool, zoomLevel: Option<Num>): (r: Num)
    ensures isMobile && zoomLevel.GetOr(Number(40.0)) == Number(40.0) ==> r == Number(30.0)
    ensures !(isMobile && zoomLevel.GetOr(Number(40.0)) == Number(40.0)) ==> r == zoomLevel.GetOr(Number(40.0))
  {
    var zoom := zoomLevel.GetOr(Number(40.0));
    if isMobile then (if zoom == Number(40.0) then Number(30.0) else zoom) else zoom
  }

  /** Only the generic default is ever replaced, and only on mobile; an explicit zoom
      such as the 20 of a search link is always honoured. */
  lemma ResponsiveZoomOnlyRemapsDefault(isMobile: bool, zoom: Num)
    ensures ResponsiveZoom(isMobile, Some(zoom)) != zoom ==> isMobile && zoom == Number(40.0)
    ensures zoom != Number(40.0) ==> ResponsiveZoom(isMobile, Some(zoom)) == zoom
    ensures ResponsiveZoom(isMobile, Some(ResponsiveZoom(isMobile, Some(zoom)))) == ResponsiveZoom(isMobile, Some(zoom))
  {
  }

  // ================================================================ category filters

  /** `toggleFilter(category)`: a present category is removed (every occurrence, the
      rest kept in order), an absent one is appended. */
  function ToggledFilters(filters: seq<string>, category: string): (r: seq<string>)
    ensures category in filters ==>
      category !in r && IsSubsequence(r, filters) && multiset(r) == multiset(filters)[category := 0]
    ensures category !in filters ==> r == filters + [category]
  {
    if category in filters then
      var kept := Filter(filters, c => c != category);
      FilterMultiset(filters, c => c != category);
      assert multiset(kept) == multiset(filters)[category := 0];
      kept
    else filters + [category]
  }

  /** Toggling twice leaves the membership of every category as it was. */
  lemma ToggleTwicePreservesMembership(filters: seq<string>, category: string, c: string)
    ensures c in ToggledFilters(ToggledFilters(filters, category), category) <==> c in filters
  {
  }

  /** Toggling an absent category twice restores the list exactly. */
  lemma ToggleTwiceRestoresAbsent(filters: seq<string>, category: string)
    requires category !in filters
    ensures ToggledFilters(ToggledFilters(filters, category), category) == filters
  {
    var once := filters + [category];
    var keep := (c: string) => c != category;
    FilterAppend(filters, [category], keep);
    FilterAll(filters, keep);
    assert Filter([category], keep) == [];
  }

  /** Toggling keeps the filter list free of duplicates. */
  lemma ToggleKeepsNoDuplicates(filters: seq<string>, category: string)
    requires NoDuplicates(filters)
    ensures NoDuplicates(ToggledFilters(filters, category))
  {
    if category in filters {
      FilterNoDuplicates(filters, c => c != category);
    }
  }

  /** `toggleAllFilters()`: when the list is as long as the enum it is cleared,
      otherwise it becomes the whole enum. */
  function ToggledAll(filters: seq<string>): (r: seq<string>)
    ensures r == [] || r == AllCategories
    ensures r == [] <==> |filters| == |AllCategories|
  {
    if |filters| == |AllCategories| then [] else AllCategories
  }

  /** From nothing selected or everything selected, toggling all twice returns to the start. */
  lemma ToggleAllTwice(filters: seq<string>)
    requires filters == [] || filters == AllCategories
    ensures ToggledAll(ToggledAll(filters)) == filters
  {
  }

  /** Clicking each of `categories` in turn. */
  function ToggledInTurn(filters: seq<string>, categories: seq<string>): seq<string>
    decreases |categories|
  {
    if categories == [] then filters else ToggledInTurn(ToggledFilters(filters, categories[0]), categories[1..])
  }

  /** Clicking categories that are not yet selected, each once, appends them in order. */
  lemma {:induction false} ToggleFreshInTurn(filters: seq<string>, categories: seq<string>)
    requires NoDuplicates(filters + categories)
    ensures ToggledInTurn(filters, categories) == filters + categories
    decreases |categories|
  {
    if categories != [] {
      var all := filters + categories;
      assert categories[0] == all[|filters|];
      assert categories[0] !in filters by {
        forall i | 0 <= i < |filters| ensures filters[i] != categories[0] {
          assert filters[i] == all[i];
        }
      }
      var next := filters + [categories[0]];
      assert next + categories[1..] == all;
      ToggleFreshInTurn(next, categories[1..]);
    }
  }

  /** The test is on length, not on contents: started from a URL category that is
      not an enum value, clicking every category but the first gives eight distinct
      filters without "birds", and toggling all then clears them. */
  lemma ToggleAllTestsLength(fmt: NumberFormat, unknown: string)
    requires unknown != "" && unknown !in AllCategories
    ensures var f0 := InitialState(fmt, None, Some(unknown)).selectedFilters;
      var f := ToggledInTurn(f0, AllCategories[1..]);
      |f| == |AllCategories| && Birds.Value() !in f && ToggledAll(f) == []
  {
    AllCategoriesDistinct();
    var rest := AllCategories[1..];
    assert NoDuplicates([unknown] + rest) by {
      var all := [unknown] + rest;
      forall i, j | 0 <= i < j < |all| ensures all[i] != all[j] {
        if i > 0 {
          assert all[i] == AllCategories[i] && all[j] == AllCategories[j];
        } else {
          assert all[j] in AllCategories;
        }
      }
    }
    ToggleFreshInTurn([unknown], rest);
    assert Birds.Value() == AllCategories[0];
    assert forall k :: 0 <= k < |rest| ==> rest[k] == AllCategories[k + 1];
  }

  /** For duplicate-free lists of enum values, the length test is exactly the test
      "every category is selected". */
  lemma {:induction false} FullLengthIffAllSelected(filters: seq<string>)
    requires NoDuplicates(filters)
    requires forall k :: 0 <= k < |filters| ==> filters[k] in AllCategories
    ensures |filters| == |AllCategories| <==> forall c :: c in AllCategories ==> c in filters
  {
    AllCategoriesDistinct();
    DistinctCardinality(filters);
    DistinctCardinality(AllCategories);
    var f, a := set x | x in filters, set x | x in AllCategories;
    assert f <= a;
    SubsetOfEqualSize(f, a);
    if |filters| == |AllCategories| {
      forall c | c in AllCategories ensures c in filters {
        assert c in a;
      }
    }
    if forall c :: c in AllCategories ==> c in filters {
      forall c | c in a ensures c in f {
        assert c in AllCategories;
      }
      assert f == a;
    }
  }

  lemma {:induction false} DistinctCardinality(s: seq<string>)
    requires NoDuplicates(s)
    ensures |set x | x in s| == |s|
  {
    if s != [] {
      var t := s[1..];
      assert NoDuplicates(t) by {
        forall i, j | 0 <= i < j < |t| ensures t[i] != t[j] {
          assert t[i] == s[i + 1] && t[j] == s[j + 1];
        }
      }
      DistinctCardinality(t);
      assert s[0] !in t by {
        forall k | 0 <= k < |t| ensures t[k] != s[0] { assert t[k] == s[k + 1]; }
      }
      assert (set x | x in s) == (set x | x in t) + {s[0]};
    }
  }

  lemma SubsetOfEqualSize(f: set<string>, a: set<string>)
    requires f <= a
    ensures |f| <= |a|
    ensures |f| == |a| ==> f == a
    decreases f
  {
    if f != {} {
      var y :| y in f;
      SubsetOfEqualSize(f - {y}, a - {y});
    }
  }

  // ================================================================ filtered markers

  /** `species.speciesData?.category?.toLowerCase() || ''` */
  function CategoryKey(sp: CampusSpecies): string {
    match sp.speciesData
    case None => ""
    case Some(data) => Lower(data.category.GetOr(""))
  }

  /** `filteredCampusSpecies`: the campus species whose lower-cased category is selected. */
  function FilteredCampusSpecies(campusSpecies: seq<CampusSpecies>, selectedFilters: seq<string>): (r: seq<CampusSpecies>)
    ensures IsSubsequence(r, campusSpecies)
    ensures |r| <= |campusSpecies|
    ensures forall sp :: sp in r <==> sp in campusSpecies && CategoryKey(sp) in selectedFilters
    ensures forall sp :: multiset(r)[sp] == if CategoryKey(sp) in selectedFilters then multiset(campusSpecies)[sp] else 0
  {
    FilterMultiset(campusSpecies, sp => CategoryKey(sp) in selectedFilters);
    Filter(campusSpecies, sp => CategoryKey(sp) in selectedFilters)
  }

  /** With no filter selected no marker is shown; with every key selected all are. */
  lemma FilteredExtremes(campusSpecies: seq<CampusSpecies>, selectedFilters: seq<string>)
    ensures selectedFilters == [] ==> FilteredCampusSpecies(campusSpecies, selectedFilters) == []
    ensures (forall sp :: sp in campusSpecies ==> CategoryKey(sp) in selectedFilters) ==>
      FilteredCampusSpecies(campusSpecies, selectedFilters) == campusSpecies
  {
    if forall sp :: sp in campusSpecies ==> CategoryKey(sp) in selectedFilters {
      FilterAll(campusSpecies, sp => CategoryKey(sp) in selectedFilters);
    }
    if selectedFilters == [] {
      FilterNone(campusSpecies, sp => CategoryKey(sp) in selectedFilters);
    }
  }

  // ================================================================ the view-state effect

  /** The species lies at the centre printed back as text: `latitude === coords[1].toString()`
      and `longitude === coords[0].toString()`. */
  predicate AtCentre(fmt: NumberFormat, centre: LatLng, sp: CampusSpecies) {
    sp.latitude == fmt.show(centre.lat) && sp.longitude == fmt.show(centre.lng)
  }

  /** Position `i` holds the first species at the centre. */
  ghost predicate IsFirstAtCentre(fmt: NumberFormat, centre: LatLng, campusSpecies: seq<CampusSpecies>, i: int) {
    && 0 <= i < |campusSpecies|
    && AtCentre(fmt, centre, campusSpecies[i])
    && forall j :: 0 <= j < i ==> !AtCentre(fmt, centre, campusSpecies[j])
  }

  /** `targetSpecies && targetSpecies.id ? targetSpecies.id.toString() : null` */
  function HighlightOf(target: Option<CampusSpecies>): (r: Option<string>)
    ensures r.Some? <==> target.Some? && TruthyNat(target.value.id)
    ensures r.Some? ==> r == IdString(target.value.id)
  {
    if target.Some? && TruthyNat(target.value.id) then IdString(target.value.id) else None
  }

  /** What one run of the effect comes to: the new view state, or the TypeError that
      `coords[1].toString()` throws when `coords[1]` is `undefined`. */
  datatype EffectOutcome = Ran(state: ViewState) | Threw

  /** The search for the target species throws: `find` calls its callback on the
      first species, and that callback first evaluates `coords[1].toString()`. */
  predicate SearchThrows(centre: LatLng, campusSpecies: seq<CampusSpecies>) {
    campusSpecies != [] && centre.lat == Undefined
  }

  /** The effect at lines 137-164, re-run from scratch whenever an input changes. It
      throws exactly when a search target (campus, coordinates and category) comes with
      a comma-free coordinates parameter and some species are loaded. */
  function Effect(
    fmt: NumberFormat, s: ViewState,
    campusId: Option<string>, coordinatesParams: Option<string>, categoryParam: Option<string>,
    campuses: seq<Campus>, campusSpecies: seq<CampusSpecies>): (r: EffectOutcome)
    ensures r.Threw? <==>
      Truthy(campusId) && Truthy(coordinatesParams) && Truthy(categoryParam)
      && campusSpecies != [] && ',' !in coordinatesParams.value
    ensures Truthy(campusId) && Truthy(coordinatesParams) && Truthy(categoryParam) && r.Ran? ==>
      r.state.coordinates == DecodeCoordinates(fmt, coordinatesParams.value)
      && r.state.selectedFilters == [categoryParam.value]
    ensures Truthy(campusId) && Truthy(coordinatesParams) && !Truthy(categoryParam) ==>
      r == Ran(s.(coordinates := DecodeCoordinates(fmt, coordinatesParams.value), highlightedSpecies := None))
    ensures !(Truthy(campusId) && Truthy(coordinatesParams)) && |campuses| > 0 ==>
      r == Ran(s.(coordinates := LatLng(fmt.parse(campuses[0].latitude), fmt.parse(campuses[0].longitude)),
                  highlightedSpecies := None))
    ensures !(Truthy(campusId) && Truthy(coordinatesParams)) && |campuses| == 0 ==> r == Ran(s)
  {
    if Truthy(campusId) && Truthy(coordinatesParams) then
      var centre := DecodeCoordinates(fmt, coordinatesParams.value);
      if Truthy(categoryParam) then
        DecodeUndefinedIffNoComma(fmt, coordinatesParams.value);
        if SearchThrows(centre, campusSpecies) then Threw
        else
          var target := Find(campusSpecies, sp => AtCentre(fmt, centre, sp));
          Ran(ViewState([categoryParam.value], centre, HighlightOf(target)))
      else
        Ran(s.(coordinates := centre, highlightedSpecies := None))
    else if |campuses| > 0 then
      var campus := campuses[0];
      Ran(s.(coordinates := LatLng(fmt.parse(campus.latitude), fmt.parse(campus.longitude)),
             highlightedSpecies := None))
    else
      Ran(s)
  }

  /** A search target with a two-part coordinates parameter highlights the id of the
      FIRST species at the decoded centre, and nothing when that first one has no
      (truthy) id; with a comma-free parameter the search throws instead. */
  lemma EffectHighlightsFirstAtCentre(
    fmt: NumberFormat, s: ViewState,
    campusId: Option<string>, coordinatesParams: Option<string>, categoryParam: Option<string>,
    campuses: seq<Campus>, campusSpecies: seq<CampusSpecies>, i: int)
    requires Truthy(campusId) && Truthy(coordinatesParams) && Truthy(categoryParam)
    requires IsFirstAtCentre(fmt, DecodeCoordinates(fmt, coordinatesParams.value), campusSpecies, i)
    ensures var r := Effect(fmt, s, campusId, coordinatesParams, categoryParam, campuses, campusSpecies);
      ',' in coordinatesParams.value ==>
        r.Ran? && r.state.highlightedSpecies == if TruthyNat(campusSpecies[i].id) then IdString(campusSpecies[i].id) else None
    ensures ',' !in coordinatesParams.value ==>
      Effect(fmt, s, campusId, coordinatesParams, categoryParam, campuses, campusSpecies) == Threw
  {
    var centre := DecodeCoordinates(fmt, coordinatesParams.value);
    FindAt(campusSpecies, sp => AtCentre(fmt, centre, sp), i);
  }

  /** With no species at the decoded centre, a search target highlights nothing. */
  lemma EffectHighlightsNothingOffCentre(
    fmt: NumberFormat, s: ViewState,
    campusId: Option<string>, coordinatesParams: Option<string>, categoryParam: Option<string>,
    campuses: seq<Campus>, campusSpecies: seq<CampusSpecies>)
    requires Truthy(campusId) && Truthy(coordinatesParams)
    requires forall j :: 0 <= j < |campusSpecies| ==>
      !AtCentre(fmt, DecodeCoordinates(fmt, coordinatesParams.value), campusSpecies[j])
    ensures var r := Effect(fmt, s, campusId, coordinatesParams, categoryParam, campuses, campusSpecies);
      r.Ran? ==> r.state.highlightedSpecies == None
  {
  }

  /** Whatever the effect highlights is the id of a loaded species, unless it left the
      highlight as it was (no search target and no campus loaded). */
  lemma EffectHighlightIsLoaded(
    fmt: NumberFormat, s: ViewState,
    campusId: Option<string>, coordinatesParams: Option<string>, categoryParam: Option<string>,
    campuses: seq<Campus>, campusSpecies: seq<CampusSpecies>)
    ensures var r := Effect(fmt, s, campusId, coordinatesParams, categoryParam, campuses, campusSpecies);
      r.Ran? && r.state.highlightedSpecies.Some? ==>
        (exists sp :: sp in campusSpecies && IdString(sp.id) == r.state.highlightedSpecies)
        || (r.state == s && |campuses| == 0)
  {
    if Truthy(campusId) && Truthy(coordinatesParams) && Truthy(categoryParam) {
      var centre := DecodeCoordinates(fmt, coordinatesParams.value);
      var p := (sp: CampusSpecies) => AtCentre(fmt, centre, sp);
      if Find(campusSpecies, p).Some? {
        FindFound(campusSpecies, p);
      }
    }
  }

  /** Re-running the effect with the same inputs changes nothing more. */
  lemma EffectIdempotent(
    fmt: NumberFormat, s: ViewState,
    campusId: Option<string>, coordinatesParams: Option<string>, categoryParam: Option<string>,
    campuses: seq<Campus>, campusSpecies: seq<CampusSpecies>)
    ensures var r := Effect(fmt, s, campusId, coordinatesParams, categoryParam, campuses, campusSpecies);
      r.Ran? ==> Effect(fmt, r.state, campusId, coordinatesParams, categoryParam, campuses, campusSpecies) == r
  {
  }

  // ================================================================ markers and icons

  /** The artwork of a marker or filter button: a category's icon or the default pin. */
  datatype IconArt = CategoryArt(category: SpeciesCategory) | MapPin

  /** `categoryIconMap[category] || mapPin` */
  function FilterIcon(category: string): (r: IconArt)
    ensures r == MapPin <==> category !in AllCategories
    ensures r.CategoryArt? ==> r.category.Value() == category
  {
    match CategoryOf(category)
    case Some(c) => CategoryArt(c)
    case None => MapPin
  }

  /** The options `createCategoryIcon` passes to `L.icon`. */
  datatype MarkerIcon = MarkerIcon(
    art: IconArt, size: int, anchor: (int, int), popupAnchor: (int, int), className: string)

  /** `createCategoryIcon(category, isHighlighted)` */
  function CreateCategoryIcon(category: Option<string>, isHighlighted: bool): (r: MarkerIcon)
    ensures r.size == 50 <==> isHighlighted
    ensures !isHighlighted ==> r.size == 35
    ensures r.className == "highlighted-marker" <==> isHighlighted
    ensures r.art == MapPin <==> !Truthy(category) || Lower(category.value) !in AllCategories
    ensures r.art.CategoryArt? ==> r.art.category.Value() == Lower(category.value)
  {
    var art := if Truthy(category) then FilterIcon(Lower(category.value)) else MapPin;
    if isHighlighted then MarkerIcon(art, 50, (25, 50), (0, -50), "highlighted-marker")
    else MarkerIcon(art, 35, (17, 35), (0, -35), "")
  }

  /** `highlightedSpecies === data.id?.toString()`; `null` never equals `undefined`. */
  predicate IsHighlighted(highlightedSpecies: Option<string>, id: Option<nat>) {
    highlightedSpecies.Some? && IdString(id) == highlightedSpecies
  }

  /** One species marker: its position `[Number(latitude), Number(longitude)]` and icon. */
  datatype Marker = Marker(position: LatLng, icon: MarkerIcon)

  /** `data.speciesData?.category` */
  function CategoryField(sp: CampusSpecies): Option<string> {
    match sp.speciesData case None => None case Some(d) => d.category
  }

  function SpeciesMarker(fmt: NumberFormat, sp: CampusSpecies, highlightedSpecies: Option<string>): Marker {
    Marker(
      LatLng(fmt.parse(sp.latitude), fmt.parse(sp.longitude)),
      CreateCategoryIcon(CategoryField(sp), IsHighlighted(highlightedSpecies, sp.id)))
  }

  /** The markers the map renders: one per filtered campus species, in order, each at
      its species' position, large exactly when highlighted, and with the pin unless
      the species' lower-cased category is one of the enum values. */
  function SpeciesMarkers(fmt: NumberFormat, campusSpecies: seq<CampusSpecies>, s: ViewState): (r: seq<Marker>)
    ensures |r| == |FilteredCampusSpecies(campusSpecies, s.selectedFilters)|
    ensures forall k :: 0 <= k < |r| ==>
      var sp := FilteredCampusSpecies(campusSpecies, s.selectedFilters)[k];
      && r[k].position == LatLng(fmt.parse(sp.latitude), fmt.parse(sp.longitude))
      && (r[k].icon.size == 50 <==> IsHighlighted(s.highlightedSpecies, sp.id))
      && (r[k].icon.art == MapPin <==> !Truthy(CategoryField(sp)) || Lower(CategoryField(sp).value) !in AllCategories)
  {
    var shown := FilteredCampusSpecies(campusSpecies, s.selectedFilters);
    seq(|shown|, k requires 0 <= k < |shown| => SpeciesMarker(fmt, shown[k], s.highlightedSpecies))
  }

  /** When the shown species carry distinct ids, at most one marker is drawn large. */
  lemma AtMostOneHighlighted(fmt: NumberFormat, campusSpecies: seq<CampusSpecies>, s: ViewState, k: int, m: int)
    requires forall a, b :: 0 <= a < b < |campusSpecies| ==> campusSpecies[a].id != campusSpecies[b].id
    requires 0 <= k < m < |SpeciesMarkers(fmt, campusSpecies, s)|
    ensures !(SpeciesMarkers(fmt, campusSpecies, s)[k].icon.size == 50 && SpeciesMarkers(fmt, campusSpecies, s)[m].icon.size == 50)
  {
    var shown := FilteredCampusSpecies(campusSpecies, s.selectedFilters);
    if IsHighlighted(s.highlightedSpecies, shown[k].id) && IsHighlighted(s.highlightedSpecies, shown[m].id) {
      NatToStringInjective(shown[k].id.value, shown[m].id.value);
      assert shown[k].id == shown[m].id;
      SubsequenceDistinct(shown, campusSpecies, k, m);
    }
  }

  /** In an order-preserving sublist of a list with distinct ids, distinct positions
      hold distinct ids. */
  lemma {:induction false} SubsequenceDistinct(sub: seq<CampusSpecies>, s: seq<CampusSpecies>, k: int, m: int)
    requires IsSubsequence(sub, s)
    requires forall a, b :: 0 <= a < b < |s| ==> s[a].id != s[b].id
    requires 0 <= k < m < |sub|
    ensures sub[k].id != sub[m].id
    decreases |s|
  {
    var t := s[1..];
    assert forall a, b :: 0 <= a < b < |t| ==> t[a].id != t[b].id by {
      forall a, b | 0 <= a < b < |t| ensures t[a].id != t[b].id {
        assert t[a] == s[a + 1] && t[b] == s[b + 1];
      }
    }
    if sub[0] == s[0] {
      if k == 0 {
        SubsequenceMember(sub[1..], t, m - 1);
        var j :| 0 <= j < |t| && t[j] == sub[m];
        assert s[j + 1] == t[j];
      } else {
        SubsequenceDistinct(sub[1..], t, k - 1, m - 1);
      }
    } else {
      SubsequenceDistinct(sub, t, k, m);
    }
  }

  lemma {:induction false} SubsequenceMember<T>(sub: seq<T>, s: seq<T>, k: int)
    requires IsSubsequence(sub, s)
    requires 0 <= k < |sub|
    ensures exists j :: 0 <= j < |s| && s[j] == sub[k]
    decreases |s|
  {
    var t := s[1..];
    if sub[0] == s[0] {
      if k == 0 {
        assert s[0] == sub[0];
      } else {
        SubsequenceMember(sub[1..], t, k - 1);
        var j :| 0 <= j < |t| && t[j] == sub[1..][k - 1];
        assert s[j + 1] == t[j];
      }
    } else {
      SubsequenceMember(sub, t, k);
      var j :| 0 <= j < |t| && t[j] == sub[k];
      assert s[j + 1] == t[j];
    }
  }

  /** A campus marker at `[Number(campus.longitude), Number(campus.latitude)]`. */
  function CampusMarkerPosition(fmt: NumberFormat, campus: Campus): LatLng {
    LatLng(fmt.parse(campus.longitude), fmt.parse(campus.latitude))
  }

  // ================================================================ tile layers

  /** The keys of the tile-layer table. */
  datatype MapLayer = Outdoor | Satellite | Base | Streets | Landscape | Topo | Dataviz
  {
    function Key(): string {
      match this
      case Outdoor => "outdoor"
      case Satellite => "satellite"
      case Base => "base"
      case Streets => "streets"
      case Landscape => "landscape"
      case Topo => "topo"
      case Dataviz => "dataviz"
    }
  }

  /** `mapLayers[selectedMapLayer]?.url || mapLayers.satellite.url`, with the prop's
      default 'satellite': a known key selects its layer, anything else the satellite layer. */
  function TileLayerFor(selectedMapLayer: Option<string>): (r: MapLayer)
    ensures selectedMapLayer.None? ==> r == Satellite
    ensures selectedMapLayer.Some? ==>
      r.Key() == selectedMapLayer.value || (r == Satellite && forall l: MapLayer :: l.Key() != selectedMapLayer.value)
  {
    var key := selectedMapLayer.GetOr("satellite");
    if key == "outdoor" then Outdoor
    else if key == "base" then Base
    else if key == "streets" then Streets
    else if key == "landscape" then Landscape
    else if key == "topo" then Topo
    else if key == "dataviz" then Dataviz
    else Satellite
  }

  /** Every layer is selected by its own key. */
  lemma TileLayerByKey(l: MapLayer)
    ensures TileLayerFor(Some(l.Key())) == l
  {
  }

  // ================================================================ the component's state object

  class ViewController {
    /** `Number(...)` and `.toString()` of the runtime the component runs in. */
    const fmt: NumberFormat
    var selectedFilters: seq<string>
    var coordinates: LatLng
    var highlightedSpecies: Option<string>

    /** No category is ever selected twice. */
    ghost predicate Valid()
      reads this
    {
      NoDuplicates(selectedFilters)
    }

    function State(): ViewState
      reads this
    {
      ViewState(selectedFilters, coordinates, highlightedSpecies)
    }

    /** The `useState` initialisers (lines 80-93). */
    constructor (fmt: NumberFormat, coordinatesParams: Option<string>, categoryParam: Option<string>)
      ensures Valid()
      ensures this.fmt == fmt
      ensures State() == InitialState(fmt, coordinatesParams, categoryParam)
    {
      this.fmt := fmt;
      if Truthy(coordinatesParams) {
        var pieces := SplitOn(coordinatesParams.value, ',');
        coordinates := LatLng(PieceNumber(fmt, pieces, 1), PieceNumber(fmt, pieces, 0));
      } else {
        coordinates := LatLng(Number(0.0), Number(0.0));
      }
      selectedFilters := if Truthy(categoryParam) then [categoryParam.value] else [Birds.Value()];
      highlightedSpecies := None;
    }

    /** `toggleFilter(category)` */
    method ToggleFilter(category: string)
      requires Valid()
      modifies this`selectedFilters
      ensures Valid()
      ensures selectedFilters == ToggledFilters(old(selectedFilters), category)
    {
      ToggleKeepsNoDuplicates(selectedFilters, category);
      if category in selectedFilters {
        selectedFilters := Filter(selectedFilters, c => c != category);
      } else {
        selectedFilters := selectedFilters + [category];
      }
    }

    /** `toggleAllFilters()` */
    method ToggleAllFilters()
      requires Valid()
      modifies this`selectedFilters
      ensures Valid()
      ensures selectedFilters == ToggledAll(old(selectedFilters))
    {
      AllCategoriesDistinct();
      if |selectedFilters| == |AllCategories| {
        selectedFilters := [];
      } else {
        selectedFilters := AllCategories;
      }
    }

    /** The view-state effect (lines 137-164). When it throws, `threw` is set and the
        fields are left as they were. */
    method Reevaluate(
      campusId: Option<string>, coordinatesParams: Option<string>, categoryParam: Option<string>,
      campuses: seq<Campus>, campusSpecies: seq<CampusSpecies>) returns (threw: bool)
      requires Valid()
      modifies this`selectedFilters, this`coordinates, this`highlightedSpecies
      ensures Valid()
      ensures var r := Effect(fmt, old(State()), campusId, coordinatesParams, categoryParam, campuses, campusSpecies);
        threw == r.Threw? && State() == if threw then old(State()) else r.state
    {
      threw := false;
      if Truthy(campusId) && Truthy(coordinatesParams) {
        var pieces := SplitOn(coordinatesParams.value, ',');
        var centre := LatLng(PieceNumber(fmt, pieces, 1), PieceNumber(fmt, pieces, 0));
        if Truthy(categoryParam) && campusSpecies != [] && centre.lat == Undefined {
          threw := true;
          return;
        }
        coordinates := centre;
        if Truthy(categoryParam) {
          selectedFilters := [categoryParam.value];
          var target := Find(campusSpecies, sp => AtCentre(fmt, centre, sp));
          if target.Some? && TruthyNat(target.value.id) {
            highlightedSpecies := Some(NatToString(target.value.id.value));
          } else {
            highlightedSpecies := None;
          }
        } else {
          highlightedSpecies := None;
        }
      } else if |campuses| > 0 {
        var campus := campuses[0];
        coordinates := LatLng(fmt.parse(campus.latitude), fmt.parse(campus.longitude));
        highlightedSpecies := None;
      }
    }

    /** The markers currently shown: `filteredCampusSpecies.map(...)`. */
    function Markers(campusSpecies: seq<CampusSpecies>): (r: seq<Marker>)
      reads this
      ensures |r| == |FilteredCampusSpecies(campusSpecies, selectedFilters)| <= |campusSpecies|
      ensures forall k :: 0 <= k < |r| ==> (r[k].icon.size == 50 <==>
        IsHighlighted(highlightedSpecies, FilteredCampusSpecies(campusSpecies, selectedFilters)[k].id))
    {
      SpeciesMarkers(fmt, campusSpecies, State())
    }
  }
}
