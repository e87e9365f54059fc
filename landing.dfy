/** The landing page (src/app/modules/landing/index.tsx): the species search, the
    links it navigates to, the campus it selects, and the zoom it hands the map. */
module Landing {
  import opened Lists
  import opened Text
  import opened Catalogue

  // ================================================================ search

  /** `x?.toLowerCase() || ''` */
  function FieldText(field: Option<string>): string {
    Lower(field.GetOr(""))
  }

  function CommonNameText(sp: CampusSpecies): string {
    match sp.speciesData case None => "" case Some(d) => FieldText(d.commonName)
  }

  function ScientificNameText(sp: CampusSpecies): string {
    match sp.speciesData case None => "" case Some(d) => FieldText(d.scientificName)
  }

  function CategoryText(sp: CampusSpecies): string {
    match sp.speciesData case None => "" case Some(d) => FieldText(d.category)
  }

  /** The search predicate: the lower-cased query occurs in the lower-cased common
      name, scientific name or category. */
  predicate MatchesQuery(sp: CampusSpecies, searchQuery: string) {
    var query := Lower(searchQuery);
    Includes(CommonNameText(sp), query) || Includes(ScientificNameText(sp), query) || Includes(CategoryText(sp), query)
  }

  /** The query is matched without regard to case, and the empty query matches everything. */
  lemma MatchesQueryProperties(sp: CampusSpecies, searchQuery: string)
    ensures MatchesQuery(sp, searchQuery) <==> MatchesQuery(sp, Lower(searchQuery))
    ensures MatchesQuery(sp, "")
  {
    LowerIdempotent(searchQuery);
    IncludesEmpty(CommonNameText(sp));
  }

  /** `filteredSpecies`: the entries of all campuses that match the query, in order. */
  function FilteredSpecies(allCampusSpecies: seq<CampusSpecies>, searchQuery: string): (r: seq<CampusSpecies>)
    ensures IsSubsequence(r, allCampusSpecies)
    ensures |r| <= |allCampusSpecies|
    ensures forall sp :: sp in r <==> sp in allCampusSpecies && MatchesQuery(sp, searchQuery)
    ensures forall sp :: multiset(r)[sp] == if MatchesQuery(sp, searchQuery) then multiset(allCampusSpecies)[sp] else 0
  {
    FilterMultiset(allCampusSpecies, sp => MatchesQuery(sp, searchQuery));
    Filter(allCampusSpecies, sp => MatchesQuery(sp, searchQuery))
  }

  /** With the empty query every entry is listed. */
  lemma EmptyQueryListsAll(allCampusSpecies: seq<CampusSpecies>)
    ensures FilteredSpecies(allCampusSpecies, "") == allCampusSpecies
  {
    forall sp | sp in allCampusSpecies ensures MatchesQuery(sp, "") {
      MatchesQueryProperties(sp, "");
    }
    FilterAll(allCampusSpecies, sp => MatchesQuery(sp, ""));
  }

  /** The entry `handleSearchKeyPress` navigates to: only on Enter with a query that is
      not blank once trimmed, the first entry matching the untrimmed query. */
  function EnterTarget(allCampusSpecies: seq<CampusSpecies>, searchQuery: string, key: string): Option<CampusSpecies> {
    if key == "Enter" && Trim(searchQuery) != "" then Find(allCampusSpecies, sp => MatchesQuery(sp, searchQuery))
    else None
  }

  /** Enter goes to the first entry of the result list, and to nothing when the list is
      empty, the key is another one or the query is only white space. */
  lemma EnterPicksFirstResult(allCampusSpecies: seq<CampusSpecies>, searchQuery: string, key: string)
    ensures var shown := FilteredSpecies(allCampusSpecies, searchQuery);
      EnterTarget(allCampusSpecies, searchQuery, key) ==
        if key == "Enter" && (exists i :: 0 <= i < |searchQuery| && !IsWhitespace(searchQuery[i])) && shown != []
        then Some(shown[0]) else None
  {
    TrimEmptyIff(searchQuery);
    FindIsFirstOfFilter(allCampusSpecies, sp => MatchesQuery(sp, searchQuery));
  }

  /** The result list the search modal shows (line 286): the matches, but only once
      the query is not blank. */
  function ShownResults(allCampusSpecies: seq<CampusSpecies>, searchQuery: string): (r: seq<CampusSpecies>)
    ensures Trim(searchQuery) == "" ==> r == []
    ensures Trim(searchQuery) != "" ==> r == FilteredSpecies(allCampusSpecies, searchQuery)
  {
    if Trim(searchQuery) != "" then FilteredSpecies(allCampusSpecies, searchQuery) else []
  }

  /** Pressing Enter goes where clicking the first shown result goes, and nowhere when
      no result is shown. */
  lemma EnterFollowsFirstShown(allCampusSpecies: seq<CampusSpecies>, searchQuery: string)
    ensures var shown := ShownResults(allCampusSpecies, searchQuery);
      EnterTarget(allCampusSpecies, searchQuery, "Enter") == if shown == [] then None else Some(shown[0])
  {
    FindIsFirstOfFilter(allCampusSpecies, sp => MatchesQuery(sp, searchQuery));
  }

  // ================================================================ links

  /** `${specie.speciesData?.category?.toLowerCase()}`: "undefined" when there is none. */
  function CategoryTemplate(sp: CampusSpecies): string {
    match sp.speciesData
    case None => "undefined"
    case Some(d) => match d.category case None => "undefined" case Some(c) => Lower(c)
  }

  /** The link to a found species (lines 186 and 295): the coordinates are written
      longitude first, then latitude. */
  function SearchUrl(sp: CampusSpecies): string {
    "/map?campusId=" + TemplateText(sp.campus)
      + "&coordinates=" + sp.longitude + "," + sp.latitude
      + "&category=" + CategoryTemplate(sp)
      + "&zoom=20"
  }

  /** The link of `handleChangeCampus`: latitude first, and the campus zoom as it is. */
  function ChangeCampusUrl(campus: Campus): string {
    "/map?campusId=" + TemplateText(campus.id)
      + "&coordinates=" + campus.latitude + "," + campus.longitude
      + "&zoom=" + TemplateText(campus.zoom)
  }

  /** `campus.zoom || 15` */
  function ZoomOrDefault(zoom: Option<nat>): (r: nat)
    ensures r != 0
    ensures TruthyNat(zoom) ==> r == zoom.value
    ensures !TruthyNat(zoom) ==> r == 15
  {
    if TruthyNat(zoom) then zoom.value else 15
  }

  /** The link of `handleClearSearch`: latitude first, and the campus zoom or 15. */
  function ClearSearchUrl(campus: Campus): string {
    "/map?campusId=" + TemplateText(campus.id)
      + "&coordinates=" + campus.latitude + "," + campus.longitude
      + "&zoom=" + NatToString(ZoomOrDefault(campus.zoom))
  }

  // ================================================================ campus lookup

  /** `campus.id?.toString() === id`: a campus without an id matches nothing. */
  predicate HasId(campus: Campus, id: string) {
    IdString(campus.id) == Some(id)
  }

  /** The first campus whose id text is `id`. */
  function FindCampus(campuses: seq<Campus>, id: string): (r: Option<Campus>)
    ensures r.None? <==> forall c :: c in campuses ==> !HasId(c, id)
    ensures r.Some? ==> r.value in campuses && HasId(r.value, id)
    ensures r.Some? ==>
      exists i :: 0 <= i < |campuses| && campuses[i] == r.value && forall j :: 0 <= j < i ==> !HasId(campuses[j], id)
  {
    var r := Find(campuses, c => HasId(c, id));
    if r.Some? then FindFound(campuses, c => HasId(c, id)); r else r
  }

  /** The campus at position `i` is the one found when it is the first with that id. */
  lemma FindCampusAt(campuses: seq<Campus>, id: string, i: nat)
    requires i < |campuses| && HasId(campuses[i], id)
    requires forall j :: 0 <= j < i ==> !HasId(campuses[j], id)
    ensures FindCampus(campuses, id) == Some(campuses[i])
  {
    FindAt(campuses, c => HasId(c, id), i);
  }

  // ================================================================ zoom for the map

  /** `Number(searchParams.get('zoom')) !== 0 ? Number(...) : 40`, with `Number(null)`
      being 0: a missing or zero zoom becomes the generic default 40. */
  function MapZoomLevel(fmt: NumberFormat, zoomParam: Option<string>): (r: Num)
    ensures r != Number(0.0)
    ensures zoomParam.None? ==> r == Number(40.0)
    ensures zoomParam.Some? ==> r == if fmt.parse(zoomParam.value) == Number(0.0) then Number(40.0) else fmt.parse(zoomParam.value)
  {
    var n := if zoomParam.None? then Number(0.0) else fmt.parse(zoomParam.value);
    if n != Number(0.0) then n else Number(40.0)
  }

  // ================================================================ searched species

  /** `species.latitude === coords[1] && species.longitude === coords[0]`, on the raw
      pieces of the parameter; a missing piece is `undefined` and matches no string. */
  predicate AtRawCoordinates(pieces: seq<string>, sp: CampusSpecies) {
    |pieces| > 1 && sp.latitude == pieces[1] && sp.longitude == pieces[0]
  }

  /** The effect at lines 234-247 on `currentSearchedSpecies`. */
  function SearchedSpecies(current: Option<CampusSpecies>, coordinatesParams: Option<string>, campusSpecies: seq<CampusSpecies>): (r: Option<CampusSpecies>)
    ensures !(Truthy(coordinatesParams) && |campusSpecies| > 0) ==> r == None
    ensures Truthy(coordinatesParams) && |campusSpecies| > 0 ==>
      var pieces := SplitOn(coordinatesParams.value, ',');
      && (r != current ==> r.Some? && r.value in campusSpecies && AtRawCoordinates(pieces, r.value))
      && ((forall sp :: sp in campusSpecies ==> !AtRawCoordinates(pieces, sp)) ==> r == current)
  {
    if Truthy(coordinatesParams) && |campusSpecies| > 0 then
      var pieces := SplitOn(coordinatesParams.value, ',');
      var found := Find(campusSpecies, sp => AtRawCoordinates(pieces, sp));
      if found.Some? then
        FindFound(campusSpecies, sp => AtRawCoordinates(pieces, sp));
        found
      else current
    else None
  }

  /** When a species is at the raw coordinates, the effect picks the first one, whatever
      was searched before. */
  lemma SearchedSpeciesIsFirstAtCoordinates(
    current: Option<CampusSpecies>, coordinatesParams: Option<string>, campusSpecies: seq<CampusSpecies>, i: int)
    requires Truthy(coordinatesParams)
    requires 0 <= i < |campusSpecies|
    requires AtRawCoordinates(SplitOn(coordinatesParams.value, ','), campusSpecies[i])
    requires forall j :: 0 <= j < i ==> !AtRawCoordinates(SplitOn(coordinatesParams.value, ','), campusSpecies[j])
    ensures SearchedSpecies(current, coordinatesParams, campusSpecies) == Some(campusSpecies[i])
  {
    var pieces := SplitOn(coordinatesParams.value, ',');
    FindAt(campusSpecies, sp => AtRawCoordinates(pieces, sp), i);
  }

  // ================================================================ the page's state object

  class LandingPage {
    var campuses: seq<Campus>
    var campusSpecies: seq<CampusSpecies>
    var allCampusSpecies: seq<CampusSpecies>
    var selectedCampusId: string
    var selectedCampusData: Option<Campus>
    var searchQuery: string
    var currentSearchedSpecies: Option<CampusSpecies>
    var selectedMapLayer: string

    /** The `useState` initial values. */
    constructor ()
      ensures campuses == [] && campusSpecies == [] && allCampusSpecies == []
      ensures selectedCampusId == "" && selectedCampusData == None
      ensures searchQuery == "" && currentSearchedSpecies == None
      ensures selectedMapLayer == "satellite"
    {
      campuses, campusSpecies, allCampusSpecies := [], [], [];
      selectedCampusId, selectedCampusData := "", None;
      searchQuery, currentSearchedSpecies := "", None;
      selectedMapLayer := "satellite";
    }

    /** The start of the initial load (lines 213-215): the transition screen shows no campus yet. */
    method BeginInitialLoad()
      modifies this`selectedCampusData
      ensures selectedCampusData == None
    {
      selectedCampusData := None;
    }

    /** What `getCampuses` does with the query result (lines 100-117): on an error
        nothing changes; otherwise store the list and, with a `campusId` parameter,
        select that id and the first campus carrying it; when no campus carries it
        the selected campus data is left as it was. */
    method CampusesLoaded(response: Option<seq<Campus>>, campusId: Option<string>)
      modifies this`campuses, this`selectedCampusId, this`selectedCampusData
      ensures response.None? ==>
        campuses == old(campuses) && selectedCampusId == old(selectedCampusId) && selectedCampusData == old(selectedCampusData)
      ensures response.Some? ==>
        && campuses == response.value
        && selectedCampusId == (if Truthy(campusId) then campusId.value else old(selectedCampusId))
        && selectedCampusData ==
             (if Truthy(campusId) && FindCampus(response.value, campusId.value).Some?
              then FindCampus(response.value, campusId.value) else old(selectedCampusData))
    {
      if response.Some? {
        var campusesData := response.value;
        campuses := campusesData;
        if Truthy(campusId) {
          selectedCampusId := campusId.value;
          var campusData := FindCampus(campusesData, campusId.value);
          if campusData.Some? {
            selectedCampusData := campusData;
          }
        }
      }
    }

    /** `setCampusSpecies(await getCampusSpecies(campusId) ?? [])`: a failed query leaves no species. */
    method CampusSpeciesLoaded(data: Option<seq<CampusSpecies>>)
      modifies this`campusSpecies
      ensures campusSpecies == data.GetOr([])
    {
      campusSpecies := data.GetOr([]);
    }

    /** `setAllCampusSpecies(response.data)`; a failed query sets nothing. */
    method AllCampusSpeciesLoaded(data: Option<seq<CampusSpecies>>)
      modifies this`allCampusSpecies
      ensures allCampusSpecies == data.GetOr(old(allCampusSpecies))
    {
      if data.Some? {
        allCampusSpecies := data.value;
      }
    }

    /** `handleSearchChange(value)` */
    method HandleSearchChange(value: string)
      modifies this`searchQuery
      ensures searchQuery == value
    {
      searchQuery := value;
    }

    /** `handleChangeMapLayer(layer)` (lines 166-169). */
    method HandleChangeMapLayer(layer: string)
      modifies this`selectedMapLayer
      ensures selectedMapLayer == layer
    {
      selectedMapLayer := layer;
    }

    /** `handleSearchKeyPress(e)`: on Enter with a non-blank query, go to the first
        match and clear the query; with no match, stay and keep the query. */
    method HandleSearchKeyPress(key: string) returns (nav: Option<string>)
      modifies this`searchQuery
      ensures nav == match EnterTarget(allCampusSpecies, old(searchQuery), key)
                     case Some(sp) => Some(SearchUrl(sp))
                     case None => None
      ensures searchQuery == if nav.Some? then "" else old(searchQuery)
    {
      nav := None;
      if key == "Enter" && Trim(searchQuery) != "" {
        var query := searchQuery;
        var foundSpecie := Find(allCampusSpecies, sp => MatchesQuery(sp, query));
        if foundSpecie.Some? {
          nav := Some(SearchUrl(foundSpecie.value));
          searchQuery := "";
        }
      }
    }

    /** Clicking a search result (lines 293-298): go to it and clear the query. */
    method HandleResultClick(sp: CampusSpecies) returns (nav: string)
      modifies this`searchQuery
      ensures nav == SearchUrl(sp) && searchQuery == ""
    {
      nav := SearchUrl(sp);
      searchQuery := "";
    }

    /** `handleChangeCampus(value)`: go to the first campus with that id, if any. */
    method HandleChangeCampus(value: string) returns (nav: Option<string>)
      ensures nav.None? <==> forall c :: c in campuses ==> !HasId(c, value)
      ensures nav == match FindCampus(campuses, value)
                     case Some(c) => Some(ChangeCampusUrl(c))
                     case None => None
    {
      var campusData := FindCampus(campuses, value);
      if campusData.Some? {
        nav := Some(ChangeCampusUrl(campusData.value));
      } else {
        nav := None;
      }
    }

    /** `handleClearSearch()`: go back to the selected campus if it is loaded, and in
        any case forget the searched species. */
    method HandleClearSearch() returns (nav: Option<string>)
      modifies this`currentSearchedSpecies
      ensures currentSearchedSpecies == None
      ensures nav.None? <==> forall c :: c in campuses ==> !HasId(c, selectedCampusId)
      ensures nav == match FindCampus(campuses, selectedCampusId)
                     case Some(c) => Some(ClearSearchUrl(c))
                     case None => None
    {
      var campus := FindCampus(campuses, selectedCampusId);
      if campus.Some? {
        nav := Some(ClearSearchUrl(campus.value));
      } else {
        nav := None;
      }
      currentSearchedSpecies := None;
    }

    /** The searched-species effect (lines 234-247). */
    method SearchedSpeciesEffect(coordinatesParams: Option<string>)
      modifies this`currentSearchedSpecies
      ensures currentSearchedSpecies == SearchedSpecies(old(currentSearchedSpecies), coordinatesParams, campusSpecies)
    {
      if Truthy(coordinatesParams) && |campusSpecies| > 0 {
        var coords := SplitOn(coordinatesParams.value, ',');
        var foundSpecies := Find(campusSpecies, sp => AtRawCoordinates(coords, sp));
        if foundSpecies.Some? {
          currentSearchedSpecies := foundSpecies;
        }
      } else {
        currentSearchedSpecies := None;
      }
    }
  }
}
