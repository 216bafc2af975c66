/** The decoded reply of the geocoding provider and `_format_response_data`,
    which turns it into the flat geocode record. */
module ResponseFormat {

  import opened Wrappers
  import opened PyStr

  /* ------------------------------------------------------- decoded JSON */

  // Every field is read with `.get`, so each one may be absent (None).

  /** The exceptions formatting can raise. */
  datatype PyException =
    | TypeError       // iterating over, or testing `in` against, None
    | IndexError      // `[0]` of an empty list
    | AttributeError  // `.get` called on None

  /** An element of `address_components`. */
  datatype AddressComponent = AddressComponent(types: Option<seq<string>>, shortName: Option<string>)

  /** `geometry.location`; the coordinates are passed through untouched. */
  datatype Location = Location(lat: Option<real>, lng: Option<real>)

  datatype Geometry = Geometry(location: Option<Location>)

  /** An element of `results`. */
  datatype GeoResult = GeoResult(
    types: Option<seq<string>>,
    addressComponents: Option<seq<AddressComponent>>,
    geometry: Option<Geometry>)

  /** The whole decoded reply. */
  datatype Response = Response(status: Option<string>, results: Option<seq<GeoResult>>)

  /** The flat record returned to callers of `geocode`. */
  datatype GeoRecord = GeoRecord(
    address: string,
    city: Option<string>,
    state: Option<string>,
    zipCode: Option<string>,
    latitude: Option<real>,
    longitude: Option<real>)

  /* -------------------------------------------------- list helpers */

  /** `tag in x.get('types')`, for types that are present. */
  predicate HasTag(types: Option<seq<string>>, tag: string)
  {
    types.Some? && tag in types.value
  }

  /** The lambda `lambda c: tag in c.get('types')` over components. */
  function ComponentTagged(tag: string): AddressComponent -> bool
  {
    (c: AddressComponent) => HasTag(c.types, tag)
  }

  /** The lambda `lambda r: tag in r.get('types')` over results. */
  function ResultTagged(tag: string): GeoResult -> bool
  {
    (r: GeoResult) => HasTag(r.types, tag)
  }

  /** `list(filter(p, s))`: the elements satisfying `p`, in order. */
  function Filter<T>(s: seq<T>, p: T -> bool): (r: seq<T>)
    ensures |r| <= |s|
    ensures forall x :: x in r ==> x in s && p(x)
    ensures forall i :: 0 <= i < |s| && p(s[i]) ==> s[i] in r
  {
    if s == [] then [] else (if p(s[0]) then [s[0]] else []) + Filter(s[1..], p)
  }

  /** `lst[0] if lst else None`. */
  function First<T>(s: seq<T>): Option<T>
  {
    if s == [] then None else Some(s[0])
  }

  /** Index `i` holds the first element of `s` satisfying `p`. */
  ghost predicate IsFirst<T>(s: seq<T>, p: T -> bool, i: int)
  {
    0 <= i < |s| && p(s[i]) && forall j :: 0 <= j < i ==> !p(s[j])
  }

  /** The head of the filtered list is the first element satisfying `p`. */
  lemma {:induction false} FirstOfFilter<T>(s: seq<T>, p: T -> bool, i: int)
    requires IsFirst(s, p, i)
    ensures First(Filter(s, p)) == Some(s[i])
  {
    if i > 0 {
      assert !p(s[0]);
      assert IsFirst(s[1..], p, i - 1);
      FirstOfFilter(s[1..], p, i - 1);
    }
  }

  /** When no element satisfies `p` the filtered list is empty. */
  lemma FirstOfFilterNone<T>(s: seq<T>, p: T -> bool)
    requires forall j :: 0 <= j < |s| ==> !p(s[j])
    ensures First(Filter(s, p)) == None
  {
  }

  /** Either some element satisfies `p` and one of them is the first, or none
      does. */
  lemma FirstExists<T>(s: seq<T>, p: T -> bool) returns (i: int)
    requires exists j :: 0 <= j < |s| && p(s[j])
    ensures IsFirst(s, p, i)
  {
    var j :| 0 <= j < |s| && p(s[j]);
    i := j;
    while exists k :: 0 <= k < i && p(s[k])
      invariant 0 <= i <= j && p(s[i])
      decreases i
    {
      var k :| 0 <= k < i && p(s[k]);
      i := k;
    }
  }

  /* ------------------------------------------------ `_format_response_data` */

  /** Every element has its `types` present, so the filter raises nothing. */
  predicate ResultsTyped(results: seq<GeoResult>)
  {
    forall i :: 0 <= i < |results| ==> results[i].types.Some?
  }

  predicate ComponentsTyped(components: seq<AddressComponent>)
  {
    forall i :: 0 <= i < |components| ==> components[i].types.Some?
  }

  /** The choice of `street_address` in `_format_response_data`: the first
      result tagged `street_address`, else the first result. */
  function SelectResult(results: seq<GeoResult>): Result<GeoResult, PyException>
  {
    if !ResultsTyped(results) then Err(TypeError)
    else
      var streetAddresses := Filter(results, ResultTagged("street_address"));
      if streetAddresses != [] then Ok(streetAddresses[0])
      else if results != [] then Ok(results[0])
      else Err(IndexError)
  }

  /** `c.get('short_name', '')`. */
  function ShortNameOr(c: AddressComponent, default: string): string
  {
    if c.shortName.Some? then c.shortName.value else default
  }

  /** `latitude` and `longitude`: the coordinates of `geometry.location`,
      or None when the geometry or its location is absent. */
  function Coordinates(geometry: Option<Geometry>): (Option<real>, Option<real>)
  {
    var location := if geometry.Some? then geometry.value.location else None;
    if location.Some? then (location.value.lat, location.value.lng) else (None, None)
  }

  /** `street_number`, `street`, `city`, `state` and `zip_code` in
      `_format_response_data`: the first component carrying `tag`, or None. */
  function FirstTagged(components: seq<AddressComponent>, tag: string): Option<AddressComponent>
  {
    First(Filter(components, ComponentTagged(tag)))
  }

  /** The returned dictionary; `.get` on a missing street number, route,
      state or postal code raises, a missing city gives None. */
  function BuildRecord(streetNumber: Option<AddressComponent>, street: Option<AddressComponent>,
                       city: Option<AddressComponent>, state: Option<AddressComponent>,
                       zipCode: Option<AddressComponent>, geometry: Option<Geometry>)
    : Result<GeoRecord, PyException>
  {
    if streetNumber.None? || street.None? || state.None? || zipCode.None? then
      Err(AttributeError)
    else
      var (latitude, longitude) := Coordinates(geometry);
      Ok(GeoRecord(
        Strip(ShortNameOr(streetNumber.value, "") + " " + ShortNameOr(street.value, "")),
        if city.Some? then city.value.shortName else None,
        state.value.shortName,
        zipCode.value.shortName,
        latitude,
        longitude))
  }

  /** The part of `_format_response_data` after the choice: the record
      built from the chosen result. */
  function ExtractRecord(chosen: GeoResult): Result<GeoRecord, PyException>
  {
    if chosen.addressComponents.None? then Err(TypeError)
    else
      var components := chosen.addressComponents.value;
      if !ComponentsTyped(components) then Err(TypeError)
      else
        BuildRecord(
          FirstTagged(components, "street_number"),
          FirstTagged(components, "route"),
          FirstTagged(components, "locality"),
          FirstTagged(components, "administrative_area_level_1"),
          FirstTagged(components, "postal_code"),
          chosen.geometry)
  }

  /** `_format_response_data`. */
  function Format(data: Response): Result<GeoRecord, PyException>
  {
    if data.results.None? then Err(TypeError)
    else
      match SelectResult(data.results.value)
      case Err(e) => Err(e)
      case Ok(chosen) => ExtractRecord(chosen)
  }

  /* ------------------------------------------------------ what it means */

  /** Result `i` is the one `_format_response_data` chooses: the first tagged
      `street_address`, or the first of all when none is so tagged. */
  ghost predicate IsChosen(results: seq<GeoResult>, i: int)
  {
    || IsFirst(results, ResultTagged("street_address"), i)
    || (i == 0 < |results| &&
        forall j :: 0 <= j < |results| ==> !ResultTagged("street_address")(results[j]))
  }

  /** No component carries `tag`. */
  ghost predicate Missing(components: seq<AddressComponent>, tag: string)
  {
    forall j :: 0 <= j < |components| ==> !ComponentTagged(tag)(components[j])
  }

  /** Selection fails exactly on an untyped result or an empty list, and
      otherwise returns the chosen result. */
  lemma SelectResultMeaning(results: seq<GeoResult>)
    ensures SelectResult(results).Err? <==> !ResultsTyped(results) || results == []
    ensures !ResultsTyped(results) ==> SelectResult(results) == Err(TypeError)
    ensures ResultsTyped(results) && results == [] ==> SelectResult(results) == Err(IndexError)
    ensures forall i :: ResultsTyped(results) && IsChosen(results, i) ==>
      SelectResult(results) == Ok(results[i])
    ensures results != [] ==> exists i :: IsChosen(results, i)
  {
    var p := ResultTagged("street_address");
    if exists j :: 0 <= j < |results| && p(results[j]) {
      var i := FirstExists(results, p);
      FirstOfFilter(results, p, i);
      assert IsChosen(results, i);
      forall k | IsChosen(results, k) ensures k == i {
        if k < i || i < k {
          assert false;
        }
      }
    } else {
      FirstOfFilterNone(results, p);
      if results != [] {
        assert IsChosen(results, 0);
      }
    }
  }

  /** The component `_format_response_data` picks for `tag` is the first
      carrying it, and there is none exactly when no component carries it. */
  lemma FirstTaggedMeaning(components: seq<AddressComponent>, tag: string)
    ensures FirstTagged(components, tag).None? <==> Missing(components, tag)
    ensures forall i :: IsFirst(components, ComponentTagged(tag), i) ==>
      FirstTagged(components, tag) == Some(components[i])
  {
    var p := ComponentTagged(tag);
    if Missing(components, tag) {
      FirstOfFilterNone(components, p);
    } else {
      var i := FirstExists(components, p);
      FirstOfFilter(components, p, i);
      forall k | IsFirst(components, p, k) ensures components[k] == components[i] {
        if k < i || i < k {
          assert false;
        }
      }
    }
  }

  /**
   * Extraction from a chosen result whose components are all tagged lists:
   * each field comes from the FIRST component carrying its tag; the address
   * is the street number and route short names joined by a space and
   * stripped, a missing short name counting as ""; the city is None when no
   * component is a locality; the coordinates are read from the geometry.
   */
  lemma ExtractRecordFields(chosen: GeoResult, components: seq<AddressComponent>,
                            sn: int, rt: int, st: int, zc: int)
    requires chosen.addressComponents == Some(components) && ComponentsTyped(components)
    requires IsFirst(components, ComponentTagged("street_number"), sn)
    requires IsFirst(components, ComponentTagged("route"), rt)
    requires IsFirst(components, ComponentTagged("administrative_area_level_1"), st)
    requires IsFirst(components, ComponentTagged("postal_code"), zc)
    ensures ExtractRecord(chosen).Ok?
    ensures ExtractRecord(chosen).value.address ==
      Strip(ShortNameOr(components[sn], "") + " " + ShortNameOr(components[rt], ""))
    ensures ExtractRecord(chosen).value.state == components[st].shortName
    ensures ExtractRecord(chosen).value.zipCode == components[zc].shortName
    ensures forall l :: IsFirst(components, ComponentTagged("locality"), l) ==>
      ExtractRecord(chosen).value.city == components[l].shortName
    ensures Missing(components, "locality") ==> ExtractRecord(chosen).value.city == None
    ensures (ExtractRecord(chosen).value.latitude, ExtractRecord(chosen).value.longitude) ==
      Coordinates(chosen.geometry)
  {
    FirstTaggedMeaning(components, "street_number");
    FirstTaggedMeaning(components, "route");
    FirstTaggedMeaning(components, "locality");
    FirstTaggedMeaning(components, "administrative_area_level_1");
    FirstTaggedMeaning(components, "postal_code");
  }

  /**
   * Only the city is guarded: extraction raises exactly when the components
   * are absent or untyped, or when no component is a street number, a route,
   * a first-level administrative area or a postal code.
   */
  lemma ExtractRecordFails(chosen: GeoResult)
    ensures ExtractRecord(chosen).Err? <==>
      || chosen.addressComponents.None?
      || !ComponentsTyped(chosen.addressComponents.value)
      || Missing(chosen.addressComponents.value, "street_number")
      || Missing(chosen.addressComponents.value, "route")
      || Missing(chosen.addressComponents.value, "administrative_area_level_1")
      || Missing(chosen.addressComponents.value, "postal_code")
  {
    if chosen.addressComponents.Some? {
      var components := chosen.addressComponents.value;
      FirstTaggedMeaning(components, "street_number");
      FirstTaggedMeaning(components, "route");
      FirstTaggedMeaning(components, "administrative_area_level_1");
      FirstTaggedMeaning(components, "postal_code");
    }
  }

  /** `_format_response_data` raises exactly when `results` is absent or
      untyped or empty, or when the chosen result cannot be extracted. */
  lemma FormatFails(data: Response)
    ensures Format(data).Err? <==>
      || data.results.None?
      || !ResultsTyped(data.results.value)
      || data.results.value == []
      || exists i :: IsChosen(data.results.value, i) && ExtractRecord(data.results.value[i]).Err?
    ensures forall i ::
      (data.results.Some? && ResultsTyped(data.results.value) && IsChosen(data.results.value, i))
      ==> Format(data) == ExtractRecord(data.results.value[i])
  {
    if data.results.Some? {
      SelectResultMeaning(data.results.value);
    }
  }
}
