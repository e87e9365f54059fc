/** The records the front end loads from the remote data store (campuses and
    campus-species occurrences), the species category enum, and the abstract
    number conversions `Number(text)` and `number.toString()`. */
module Catalogue {
  import opened Lists
  import opened Text

  /** A slot of a JavaScript number array: a number, NaN (what `Number` gives for a
      text that is not a number), or `undefined` (the array read past its end). */
  datatype Num = Number(value: real) | NaN | Undefined

  /** `Number(text)` and `number.toString()`. Both are left uninterpreted: the model
      never reasons about which number a text denotes or how a number is printed. */
  datatype NumberConversions = NumberConversions(parse: string -> Num, show: Num -> string)

  /** `Number` always returns a number, never `undefined`. */
  type NumberFormat = f: NumberConversions | forall s :: f.parse(s) != Undefined
    witness NumberConversions(_ => NaN, _ => "")

  /** A map centre, `[lat, lng]`. */
  datatype LatLng = LatLng(lat: Num, lng: Num)

  /** The species category enum; `Value` is the string each member stands for. */
  datatype SpeciesCategory = Birds | Bats | Trees | Mangroves | Butterfly | Dragonfly | Damselfly | Frogs
  {
    function Value(): string {
      match this
      case Birds => "birds"
      case Bats => "bats"
      case Trees => "trees"
      case Mangroves => "mangroves"
      case Butterfly => "butterfly"
      case Dragonfly => "dragonfly"
      case Damselfly => "damselfly"
      case Frogs => "frogs"
    }
  }

  /** `Object.values(SpeciesCategory)`, in declaration order. */
  const AllCategories: seq<string> :=
    [Birds.Value(), Bats.Value(), Trees.Value(), Mangroves.Value(),
     Butterfly.Value(), Dragonfly.Value(), Damselfly.Value(), Frogs.Value()]

  /** The eight enum values are distinct, and each is its own lower case. */
  lemma AllCategoriesDistinct()
    ensures |AllCategories| == 8
    ensures NoDuplicates(AllCategories)
    ensures forall k :: 0 <= k < |AllCategories| ==> Lower(AllCategories[k]) == AllCategories[k]
  {
  }

  /** The enum member a string names, if any. */
  function CategoryOf(s: string): (r: Option<SpeciesCategory>)
    ensures r.Some? ==> r.value.Value() == s
    ensures r.None? ==> s !in AllCategories
  {
    if s == "birds" then Some(Birds)
    else if s == "bats" then Some(Bats)
    else if s == "trees" then Some(Trees)
    else if s == "mangroves" then Some(Mangroves)
    else if s == "butterfly" then Some(Butterfly)
    else if s == "dragonfly" then Some(Dragonfly)
    else if s == "damselfly" then Some(Damselfly)
    else if s == "frogs" then Some(Frogs)
    else None
  }

  /** The species snapshot joined into each campus-species row. */
  datatype SpeciesData = SpeciesData(
    commonName: Option<string>,
    scientificName: Option<string>,
    category: Option<string>)

  /** One occurrence of a species at a point of a campus. Coordinates are the
      decimal strings the data store holds; `campus` is the campus reference. */
  datatype CampusSpecies = CampusSpecies(
    id: Option<nat>,
    campus: Option<nat>,
    latitude: string,
    longitude: string,
    speciesData: Option<SpeciesData>)

  /** A campus; `latitude`, `longitude` and `zoom` are as the data store gives them. */
  datatype Campus = Campus(
    id: Option<nat>,
    name: string,
    latitude: string,
    longitude: string,
    zoom: Option<nat>)

  /** `x?.toString()` for an optional id. */
  function IdString(id: Option<nat>): (r: Option<string>)
    ensures r.Some? <==> id.Some?
    ensures id.Some? ==> (forall i :: 0 <= i < |r.value| ==> IsDigit(r.value[i])) && DecimalValue(r.value) == id.value
  {
    match id
    case None => None
    case Some(n) => NatToStringRoundTrip(n); Some(NatToString(n))
  }

  /** `${x}` in a template literal: the decimal text, or "undefined" when absent. */
  function TemplateText(x: Option<nat>): string {
    match x
    case None => "undefined"
    case Some(n) => NatToString(n)
  }

  /** JavaScript truthiness of an optional string: present and non-empty. */
  predicate Truthy(s: Option<string>) {
    s.Some? && s.value != ""
  }

  /** JavaScript truthiness of an optional number: present and non-zero. */
  predicate TruthyNat(n: Option<nat>) {
    n.Some? && n.value != 0
  }
}
