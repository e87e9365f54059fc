/** How the two pages meet: the links the landing page writes, the parameters it
    reads back from the next URL (lines 20-21 and 583-586 of the landing page),
    and what the map component makes of them. */
module Navigation {
  import opened Lists
  import opened Text
  import opened Catalogue
  import opened Query
  import opened MapComponent
  import opened Landing

  /** The parameters the landing page reads from its URL and hands to the map. */
  datatype MapLink = MapLink(
    campusId: Option<string>,
    coordinates: Option<string>,
    category: Option<string>,
    zoom: Option<string>)

  function ReadLink(url: string): MapLink {
    MapLink(SearchParam(url, "campusId"), SearchParam(url, "coordinates"),
            SearchParam(url, "category"), SearchParam(url, "zoom"))
  }

  /** What the map's effect comes to on the parameters of `url`. */
  function EffectOfLink(
    fmt: NumberFormat, s: ViewState, url: string,
    campuses: seq<Campus>, campusSpecies: seq<CampusSpecies>): EffectOutcome
  {
    var link := ReadLink(url);
    Effect(fmt, s, link.campusId, link.coordinates, link.category, campuses, campusSpecies)
  }

  /** A coordinate text that needs no escaping and holds no comma. */
  predicate PlainCoordinate(s: string) {
    PlainValue(s) && ',' !in s
  }

  /** A species whose link text needs no escaping. */
  predicate SearchLinkable(sp: CampusSpecies) {
    && PlainCoordinate(sp.latitude) && PlainCoordinate(sp.longitude)
    && (sp.speciesData.Some? && sp.speciesData.value.category.Some? ==> PlainValue(sp.speciesData.value.category.value))
  }

  // ---------------------------------------------------------------- plain texts

  lemma TemplateTextIsPlain(x: Option<nat>)
    ensures TemplateText(x) != "" && PlainValue(TemplateText(x))
  {
    if x.Some? {
      var t := NatToString(x.value);
      assert forall i :: 0 <= i < |t| ==> t[i] != '&' && t[i] != '#' && t[i] != '%' && t[i] != '+';
    }
  }

  lemma LowerKeepsPlain(s: string)
    requires PlainValue(s)
    ensures PlainValue(Lower(s))
  {
    var t := Lower(s);
    assert forall i :: 0 <= i < |t| ==> t[i] != '&' && t[i] != '#' && t[i] != '%' && t[i] != '+' by {
      forall i | 0 <= i < |t| ensures t[i] != '&' && t[i] != '#' && t[i] != '%' && t[i] != '+' {
        assert s[i] in s;
      }
    }
  }

  lemma NatTextIsPlain(n: nat)
    ensures PlainValue(NatToString(n))
  {
    TemplateTextIsPlain(Some(n));
  }

  /** Every parameter of a rendered plain query reads back as its first value. */
  lemma ReadRendered(path: string, pairs: seq<(string, string)>)
    requires '?' !in path && '#' !in path
    requires |pairs| >= 1
    requires forall k :: 0 <= k < |pairs| ==> PlainName(pairs[k].0) && PlainValue(pairs[k].1)
    ensures ReadLink(path + "?" + RenderQuery(pairs)) == MapLink(
      FirstValue(pairs, "campusId"), FirstValue(pairs, "coordinates"),
      FirstValue(pairs, "category"), FirstValue(pairs, "zoom"))
  {
    SearchParamOfRendered(path, pairs, "campusId");
    SearchParamOfRendered(path, pairs, "coordinates");
    SearchParamOfRendered(path, pairs, "category");
    SearchParamOfRendered(path, pairs, "zoom");
  }

  /** `a=x&b=y&c=z` */
  lemma RenderThree(a: (string, string), b: (string, string), c: (string, string))
    ensures RenderQuery([a, b, c]) == a.0 + "=" + a.1 + "&" + b.0 + "=" + b.1 + "&" + c.0 + "=" + c.1
  {
    RenderCons(c, []);
    assert [c] == [c] + [];
    RenderCons(b, [c]);
    assert [b, c] == [b] + [c];
    RenderCons(a, [b, c]);
    assert [a, b, c] == [a] + [b, c];
  }

  /** `a=x&b=y&c=z&d=w` */
  lemma RenderFour(a: (string, string), b: (string, string), c: (string, string), d: (string, string))
    ensures RenderQuery([a, b, c, d]) == a.0 + "=" + a.1 + "&" + b.0 + "=" + b.1 + "&" + c.0 + "=" + c.1 + "&" + d.0 + "=" + d.1
  {
    RenderThree(b, c, d);
    RenderCons(a, [b, c, d]);
    assert [a, b, c, d] == [a] + [b, c, d];
  }

  /** The literal pieces of the links' templates. */
  lemma TemplateLiterals()
    ensures "/map" + "?" + "campusId" + "=" == "/map?campusId="
    ensures "&" + "coordinates" + "=" == "&coordinates="
    ensures "&" + "category" + "=" == "&category="
    ensures "&" + "zoom" + "=" + "20" == "&zoom=20"
    ensures "&" + "zoom" + "=" == "&zoom="
  {
  }

  lemma RegroupFour<T>(m: seq<T>, q: seq<T>, n0: seq<T>, eq: seq<T>, v0: seq<T>, amp: seq<T>,
    n1: seq<T>, v1: seq<T>, n2: seq<T>, v2: seq<T>, n3: seq<T>, v3: seq<T>)
    ensures (m + q + n0 + eq) + v0 + (amp + n1 + eq) + v1 + (amp + n2 + eq) + v2 + (amp + n3 + eq + v3)
         == m + q + (n0 + eq + v0 + amp + n1 + eq + v1 + amp + n2 + eq + v2 + amp + n3 + eq + v3)
  {
  }

  lemma RegroupThree<T>(m: seq<T>, q: seq<T>, n0: seq<T>, eq: seq<T>, v0: seq<T>, amp: seq<T>,
    n1: seq<T>, v1: seq<T>, n2: seq<T>, v2: seq<T>)
    ensures (m + q + n0 + eq) + v0 + (amp + n1 + eq) + v1 + (amp + n2 + eq) + v2
         == m + q + (n0 + eq + v0 + amp + n1 + eq + v1 + amp + n2 + eq + v2)
  {
  }

  /** The search link's template, regrouped as rendered pairs. */
  lemma SearchUrlShape(c: string, xy: string, cat: string)
    ensures "/map?campusId=" + c + "&coordinates=" + xy + "&category=" + cat + "&zoom=20"
      == "/map" + "?" + ("campusId" + "=" + c + "&" + "coordinates" + "=" + xy + "&" + "category" + "=" + cat + "&" + "zoom" + "=" + "20")
  {
    TemplateLiterals();
    RegroupFour("/map", "?", "campusId", "=", c, "&", "coordinates", xy, "category", cat, "zoom", "20");
  }

  /** The campus links' template, regrouped as rendered pairs. */
  lemma CampusUrlShape(c: string, xy: string, zoom: string)
    ensures "/map?campusId=" + c + "&coordinates=" + xy + "&zoom=" + zoom
      == "/map" + "?" + ("campusId" + "=" + c + "&" + "coordinates" + "=" + xy + "&" + "zoom" + "=" + zoom)
  {
    TemplateLiterals();
    RegroupThree("/map", "?", "campusId", "=", c, "&", "coordinates", xy, "zoom", zoom);
  }

  /** A non-empty word of ASCII letters is a plain parameter name. */
  lemma LettersArePlain(s: string)
    requires s != []
    requires forall i :: 0 <= i < |s| ==> 'a' <= s[i] <= 'z' || 'A' <= s[i] <= 'Z'
    ensures PlainName(s)
  {
    assert forall i :: 0 <= i < |s| ==> s[i] != '=' && s[i] != '&' && s[i] != '#' && s[i] != '%' && s[i] != '+';
  }

  lemma ParameterNamesPlain()
    ensures PlainName("campusId") && PlainName("coordinates") && PlainName("category") && PlainName("zoom")
    ensures PlainValue("20")
  {
    LettersArePlain("campusId");
    LettersArePlain("coordinates");
    LettersArePlain("category");
    LettersArePlain("zoom");
  }

  lemma CoordinatePairPlain(a: string, b: string)
    requires PlainCoordinate(a) && PlainCoordinate(b)
    ensures PlainValue(a + "," + b)
  {
  }

  // ---------------------------------------------------------------- the search link

  /** The parameters of the search link, in the order it writes them. */
  function SearchPairs(sp: CampusSpecies): seq<(string, string)> {
    [("campusId", TemplateText(sp.campus)), ("coordinates", sp.longitude + "," + sp.latitude),
     ("category", CategoryTemplate(sp)), ("zoom", "20")]
  }

  lemma SearchUrlRendered(sp: CampusSpecies)
    ensures SearchUrl(sp) == "/map" + "?" + RenderQuery(SearchPairs(sp))
  {
    var c, xy, cat := TemplateText(sp.campus), sp.longitude + "," + sp.latitude, CategoryTemplate(sp);
    RenderFour(("campusId", c), ("coordinates", xy), ("category", cat), ("zoom", "20"));
    SearchUrlShape(c, xy, cat);
  }

  lemma SearchPairsPlain(sp: CampusSpecies)
    requires SearchLinkable(sp)
    ensures forall k :: 0 <= k < |SearchPairs(sp)| ==> PlainName(SearchPairs(sp)[k].0) && PlainValue(SearchPairs(sp)[k].1)
  {
    ParameterNamesPlain();
    TemplateTextIsPlain(sp.campus);
    if sp.speciesData.Some? && sp.speciesData.value.category.Some? {
      LowerKeepsPlain(sp.speciesData.value.category.value);
    }
    CoordinatePairPlain(sp.longitude, sp.latitude);
  }

  /** The search link carries the species' campus, its coordinates longitude first,
      its lower-cased category and zoom 20, and each reads back as written. */
  lemma SearchLinkRoundTrip(sp: CampusSpecies)
    requires SearchLinkable(sp)
    ensures ReadLink(SearchUrl(sp)) == MapLink(
      Some(TemplateText(sp.campus)), Some(sp.longitude + "," + sp.latitude),
      Some(CategoryTemplate(sp)), Some("20"))
  {
    var pairs := SearchPairs(sp);
    var url := "/map" + "?" + RenderQuery(pairs);
    SearchUrlRendered(sp);
    SearchPairsPlain(sp);
    ReadRendered("/map", pairs);
    SearchPairsValues(sp);
  }

  lemma SearchPairsValues(sp: CampusSpecies)
    ensures var pairs := SearchPairs(sp);
      && FirstValue(pairs, "campusId") == Some(TemplateText(sp.campus))
      && FirstValue(pairs, "coordinates") == Some(sp.longitude + "," + sp.latitude)
      && FirstValue(pairs, "category") == Some(CategoryTemplate(sp))
      && FirstValue(pairs, "zoom") == Some("20")
  {
    var pairs := SearchPairs(sp);
    FirstValueAt(pairs, 0);
    FirstValueAt(pairs, 1);
    FirstValueAt(pairs, 2);
    FirstValueAt(pairs, 3);
  }

  /** Following a search link centres the map on the species' own (latitude,
      longitude), and, when the link names a category, shows only that category. */
  lemma SearchLinkCentresOnSpecies(
    fmt: NumberFormat, sp: CampusSpecies, s: ViewState,
    campuses: seq<Campus>, campusSpecies: seq<CampusSpecies>)
    requires SearchLinkable(sp)
    ensures var r := EffectOfLink(fmt, s, SearchUrl(sp), campuses, campusSpecies);
      && r.Ran?
      && r.state.coordinates == LatLng(fmt.parse(sp.latitude), fmt.parse(sp.longitude))
      && (CategoryTemplate(sp) != "" ==> r.state.selectedFilters == [CategoryTemplate(sp)])
      && (CategoryTemplate(sp) == "" ==> r.state.selectedFilters == s.selectedFilters && r.state.highlightedSpecies == None)
  {
    SearchLinkRoundTrip(sp);
    TemplateTextIsPlain(sp.campus);
    DecodeSwapsParts(fmt, sp.longitude, sp.latitude);
    CommaBetween(sp.longitude, sp.latitude);
  }

  /** The coordinates of a link always hold the comma written between the parts. */
  lemma CommaBetween(a: string, b: string)
    ensures ',' in a + "," + b
  {
    assert (a + "," + b)[|a|] == ',';
  }

  /** Following a search link highlights the first species whose coordinate texts are
      the linked species' ones, provided printing the parsed numbers gives those
      texts back. */
  lemma SearchLinkHighlightsFirstThere(
    fmt: NumberFormat, sp: CampusSpecies, s: ViewState,
    campuses: seq<Campus>, campusSpecies: seq<CampusSpecies>, i: int)
    requires SearchLinkable(sp) && CategoryTemplate(sp) != ""
    requires fmt.show(fmt.parse(sp.latitude)) == sp.latitude
    requires fmt.show(fmt.parse(sp.longitude)) == sp.longitude
    requires 0 <= i < |campusSpecies|
    requires campusSpecies[i].latitude == sp.latitude && campusSpecies[i].longitude == sp.longitude
    requires forall j :: 0 <= j < i ==>
      !(campusSpecies[j].latitude == sp.latitude && campusSpecies[j].longitude == sp.longitude)
    ensures var r := EffectOfLink(fmt, s, SearchUrl(sp), campuses, campusSpecies);
      r.Ran? && r.state.highlightedSpecies == if TruthyNat(campusSpecies[i].id) then IdString(campusSpecies[i].id) else None
  {
    SearchLinkRoundTrip(sp);
    TemplateTextIsPlain(sp.campus);
    var link := ReadLink(SearchUrl(sp));
    DecodeSwapsParts(fmt, sp.longitude, sp.latitude);
    CommaBetween(sp.longitude, sp.latitude);
    var centre := DecodeCoordinates(fmt, link.coordinates.value);
    assert IsFirstAtCentre(fmt, centre, campusSpecies, i);
    EffectHighlightsFirstAtCentre(fmt, s, link.campusId, link.coordinates, link.category, campuses, campusSpecies, i);
  }

  /** When printing the parsed latitude does not give the stored text back (for
      example a trailing zero), no species with that stored latitude is at the centre
      the map compares against, so the searched species is never highlighted. */
  lemma SearchLinkMissesReformattedText(
    fmt: NumberFormat, sp: CampusSpecies, s: ViewState,
    campuses: seq<Campus>, campusSpecies: seq<CampusSpecies>)
    requires SearchLinkable(sp)
    requires fmt.show(fmt.parse(sp.latitude)) != sp.latitude
    ensures var r := EffectOfLink(fmt, s, SearchUrl(sp), campuses, campusSpecies);
      r.Ran? && forall x: CampusSpecies :: x.latitude == sp.latitude ==> !AtCentre(fmt, r.state.coordinates, x)
  {
    SearchLinkCentresOnSpecies(fmt, sp, s, campuses, campusSpecies);
  }

  /** On the landing page the same link makes the first species with exactly those
      coordinate texts the searched species. */
  lemma SearchLinkFindsSearchedSpecies(
    sp: CampusSpecies, current: Option<CampusSpecies>, campusSpecies: seq<CampusSpecies>, i: int)
    requires SearchLinkable(sp)
    requires 0 <= i < |campusSpecies|
    requires campusSpecies[i].latitude == sp.latitude && campusSpecies[i].longitude == sp.longitude
    requires forall j :: 0 <= j < i ==>
      !(campusSpecies[j].latitude == sp.latitude && campusSpecies[j].longitude == sp.longitude)
    ensures SearchedSpecies(current, ReadLink(SearchUrl(sp)).coordinates, campusSpecies) == Some(campusSpecies[i])
  {
    SearchLinkRoundTrip(sp);
    SplitPair(sp.longitude, sp.latitude, ',');
    SearchedSpeciesIsFirstAtCoordinates(current, ReadLink(SearchUrl(sp)).coordinates, campusSpecies, i);
  }

  /** The zoom of a search link: what "20" parses to, kept as it is on a phone. */
  lemma SearchLinkZoom(fmt: NumberFormat, sp: CampusSpecies, windowWidth: int)
    requires SearchLinkable(sp)
    requires fmt.parse("20") == Number(20.0)
    ensures var zoom := MapZoomLevel(fmt, ReadLink(SearchUrl(sp)).zoom);
      zoom == Number(20.0) && ResponsiveZoom(IsMobile(windowWidth), Some(zoom)) == Number(20.0)
  {
    SearchLinkRoundTrip(sp);
  }

  // ---------------------------------------------------------------- the campus links

  /** The parameters of both campus links, given the zoom text each writes. */
  function CampusPairs(campus: Campus, zoom: string): seq<(string, string)> {
    [("campusId", TemplateText(campus.id)), ("coordinates", campus.latitude + "," + campus.longitude),
     ("zoom", zoom)]
  }

  /** Both campus links are the campus pairs rendered, with their own zoom text. */
  lemma CampusUrlRendered(campus: Campus, zoom: string)
    ensures "/map?campusId=" + TemplateText(campus.id) + "&coordinates=" + campus.latitude + "," + campus.longitude + "&zoom=" + zoom
      == "/map" + "?" + RenderQuery(CampusPairs(campus, zoom))
  {
    var c, xy := TemplateText(campus.id), campus.latitude + "," + campus.longitude;
    RenderThree(("campusId", c), ("coordinates", xy), ("zoom", zoom));
    CampusUrlShape(c, xy, zoom);
  }

  lemma CampusPairsPlain(campus: Campus, zoom: string)
    requires PlainCoordinate(campus.latitude) && PlainCoordinate(campus.longitude)
    requires PlainValue(zoom)
    ensures forall k :: 0 <= k < |CampusPairs(campus, zoom)| ==>
      PlainName(CampusPairs(campus, zoom)[k].0) && PlainValue(CampusPairs(campus, zoom)[k].1)
  {
    ParameterNamesPlain();
    TemplateTextIsPlain(campus.id);
    CoordinatePairPlain(campus.latitude, campus.longitude);
  }

  lemma CampusPairsValues(campus: Campus, zoom: string)
    ensures var pairs := CampusPairs(campus, zoom);
      && FirstValue(pairs, "campusId") == Some(TemplateText(campus.id))
      && FirstValue(pairs, "coordinates") == Some(campus.latitude + "," + campus.longitude)
      && FirstValue(pairs, "category") == None
      && FirstValue(pairs, "zoom") == Some(zoom)
  {
    var pairs := CampusPairs(campus, zoom);
    FirstValueAt(pairs, 0);
    FirstValueAt(pairs, 1);
    FirstValueAt(pairs, 2);
    FirstValueAbsent(pairs, "category");
  }

  /** The change-campus link reads back as written: latitude first, no category, and
      the campus zoom as `${zoom}` prints it. */
  lemma ChangeCampusLinkRoundTrip(campus: Campus)
    requires PlainCoordinate(campus.latitude) && PlainCoordinate(campus.longitude)
    ensures ReadLink(ChangeCampusUrl(campus)) == MapLink(
      Some(TemplateText(campus.id)), Some(campus.latitude + "," + campus.longitude),
      None, Some(TemplateText(campus.zoom)))
  {
    CampusUrlRendered(campus, TemplateText(campus.zoom));
    TemplateTextIsPlain(campus.zoom);
    CampusPairsPlain(campus, TemplateText(campus.zoom));
    ReadRendered("/map", CampusPairs(campus, TemplateText(campus.zoom)));
    CampusPairsValues(campus, TemplateText(campus.zoom));
  }

  /** The clear-search link reads back as written, with the campus zoom or 15. */
  lemma ClearSearchLinkRoundTrip(campus: Campus)
    requires PlainCoordinate(campus.latitude) && PlainCoordinate(campus.longitude)
    ensures ReadLink(ClearSearchUrl(campus)) == MapLink(
      Some(TemplateText(campus.id)), Some(campus.latitude + "," + campus.longitude),
      None, Some(NatToString(ZoomOrDefault(campus.zoom))))
  {
    CampusUrlRendered(campus, NatToString(ZoomOrDefault(campus.zoom)));
    NatTextIsPlain(ZoomOrDefault(campus.zoom));
    CampusPairsPlain(campus, NatToString(ZoomOrDefault(campus.zoom)));
    ReadRendered("/map", CampusPairs(campus, NatToString(ZoomOrDefault(campus.zoom))));
    CampusPairsValues(campus, NatToString(ZoomOrDefault(campus.zoom)));
  }

  /** A campus link is written latitude first but decoded longitude first, so the map
      centres on (Number(longitude), Number(latitude)), the point the campus marker is
      drawn at; the default centre of the map, used when there is no link, is
      (Number(latitude), Number(longitude)). The two agree only when both numbers do.
      Neither campus link changes the filters or highlights anything. */
  lemma CampusLinksSwapAxes(
    fmt: NumberFormat, campus: Campus, s: ViewState,
    otherCampuses: seq<Campus>, campusSpecies: seq<CampusSpecies>)
    requires PlainCoordinate(campus.latitude) && PlainCoordinate(campus.longitude)
    ensures var campuses := [campus] + otherCampuses;
      var viaChange := EffectOfLink(fmt, s, ChangeCampusUrl(campus), campuses, campusSpecies);
      var viaClear := EffectOfLink(fmt, s, ClearSearchUrl(campus), campuses, campusSpecies);
      var byDefault := Effect(fmt, s, None, None, None, campuses, campusSpecies);
      && viaChange == Ran(s.(coordinates := CampusMarkerPosition(fmt, campus), highlightedSpecies := None))
      && viaClear == viaChange
      && byDefault == Ran(s.(coordinates := LatLng(fmt.parse(campus.latitude), fmt.parse(campus.longitude)), highlightedSpecies := None))
      && (viaChange.state.coordinates == byDefault.state.coordinates <==> fmt.parse(campus.latitude) == fmt.parse(campus.longitude))
  {
    ChangeCampusLinkRoundTrip(campus);
    ClearSearchLinkRoundTrip(campus);
    TemplateTextIsPlain(campus.id);
    DecodeSwapsParts(fmt, campus.latitude, campus.longitude);
  }

  /** A campus without a zoom: the change-campus link carries the text "undefined",
      which `Number` turns into NaN, and the map is given that zoom unchanged, while
      the clear-search link falls back to 15. */
  lemma CampusLinkWithoutZoom(fmt: NumberFormat, campus: Campus, windowWidth: int)
    requires PlainCoordinate(campus.latitude) && PlainCoordinate(campus.longitude)
    requires campus.zoom.None?
    requires fmt.parse("undefined") == NaN
    ensures var zoom := MapZoomLevel(fmt, ReadLink(ChangeCampusUrl(campus)).zoom);
      zoom == NaN && ResponsiveZoom(IsMobile(windowWidth), Some(zoom)) == NaN
    ensures ReadLink(ClearSearchUrl(campus)).zoom == Some("15")
  {
    ChangeCampusLinkRoundTrip(campus);
    ClearSearchLinkRoundTrip(campus);
    FifteenText();
  }

  /** The default zoom of the clear-search link, as text. */
  lemma FifteenText()
    ensures NatToString(ZoomOrDefault(None)) == "15"
  {
    assert NatToString(15) == NatToString(1) + [DigitChar(5)];
  }
}
