/** `GoogleGeocodingClient`: the request URI it builds for an address and
    the record it returns for the provider's decoded reply. */
module Geocoder {

  import opened Wrappers
  import opened PyStr
  import opened StateRows
  import opened StateTable
  import opened ResponseFormat

  /** The client; its one field, the API key, is set once and only read. */
  datatype Client = Client(apiKey: string)

  /** The fixed endpoint the query string is appended to. */
  const Endpoint: string := "https://maps.googleapis.com/maps/api/geocode/json?"

  /** The `address` parameter: the three parts joined by ", ", with every
      space then turned into '+'. */
  function AddressParam(address: string, city: string, code: string): string
  {
    ReplaceChar(Join(", ", [address, city, code]), ' ', '+')
  }

  /** `'&'.join('{}={}'.format(param, val) ...)` over the parameters in
      their insertion order. */
  function QueryString(params: seq<(string, string)>): string
  {
    Join("&", seq(|params|, i requires 0 <= i < |params| => params[i].0 + "=" + params[i].1))
  }

  /** The `params` dictionary and URI of `_build_uri`, for an already
      resolved state code. */
  function UriFor(client: Client, address: string, city: string, code: string): string
  {
    Endpoint + QueryString([("address", AddressParam(address, city, code)), ("key", client.apiKey)])
  }

  /** `_build_uri`: raises `ValueError` for an unknown state before anything
      else is done. */
  function BuildUri(client: Client, address: string, city: string, state: string)
    : Result<string, ValueError>
  {
    match ResolveState(state)
    case Err(e) => Err(e)
    case Ok(code) => Ok(UriFor(client, address, city, code))
  }

  /** The record both fallback branches of `_geocode_async` return: the
      arguments as given, with no postal code and no coordinates. */
  function Fallback(address: string, city: string, state: string): GeoRecord
  {
    GeoRecord(address, Some(city), Some(state), None, None, None)
  }

  /** The status test and `try` of `_geocode_async`: the formatted record
      when the status is 'OK' and formatting raises nothing, the fallback
      record otherwise. */
  function Respond(data: Response, address: string, city: string, state: string): GeoRecord
  {
    if data.status == Some("OK") then
      match Format(data)
      case Ok(record) => record
      case Err(_) => Fallback(address, city, state)
    else
      Fallback(address, city, state)
  }

  /**
   * `geocode` / `_geocode_async`. The provider stands for the request and
   * `json.loads`: it maps the URI asked for to the decoded reply.
   */
  function Geocode(client: Client, address: string, city: string, state: string,
                   provider: string -> Response): Result<GeoRecord, ValueError>
  {
    match BuildUri(client, address, city, state)
    case Err(e) => Err(e)
    case Ok(uri) => Ok(Respond(provider(uri), address, city, state))
  }

  /* ------------------------------------------------------------ the URI */

  /** The address parameter contains no space. */
  lemma AddressParamHasNoSpace(address: string, city: string, code: string)
    ensures ' ' !in AddressParam(address, city, code)
  {
    ReplaceCharRemoves(Join(", ", [address, city, code]), ' ', '+');
  }

  /** The address parameter, piece by piece: each part with its spaces
      turned into '+', separated by ",+". */
  lemma AddressParamPieces(address: string, city: string, code: string)
    ensures AddressParam(address, city, code) ==
      ReplaceChar(address, ' ', '+') + ",+" + ReplaceChar(city, ' ', '+') + ",+" +
      ReplaceChar(code, ' ', '+')
  {
    JoinThree(", ", address, city, code);
    ReplaceCharConcat(address + ", " + city + ", ", code, ' ', '+');
    ReplaceCharConcat(address + ", " + city, ", ", ' ', '+');
    ReplaceCharConcat(address + ", ", city, ' ', '+');
    ReplaceCharConcat(address, ", ", ' ', '+');
    assert ReplaceChar(", ", ' ', '+') == ",+";
  }

  /** When no part contains '+', turning every '+' back into a space gives
      the parts joined by ", ". */
  lemma AddressParamRoundTrip(address: string, city: string, code: string)
    requires '+' !in address && '+' !in city && '+' !in code
    ensures ReplaceChar(AddressParam(address, city, code), '+', ' ') ==
      address + ", " + city + ", " + code
  {
    JoinThree(", ", address, city, code);
    ReplaceCharRoundTrip(Join(", ", [address, city, code]), ' ', '+');
  }

  /**
   * `_build_uri` fails exactly when the state is not recognised, with the
   * `ValueError` quoting it; otherwise the URI is exactly the endpoint,
   * "address=", the address and city with spaces turned into '+' and the
   * resolved code, separated by ",+", then "&key=" and the unencoded key.
   */
  lemma BuildUriMeaning(client: Client, address: string, city: string, state: string)
    ensures BuildUri(client, address, city, state).Ok? <==> ResolveState(state).Ok?
    ensures BuildUri(client, address, city, state).Err? ==>
      BuildUri(client, address, city, state).error == ValueError(InvalidStateMessage(state))
    ensures ResolveState(state).Ok? ==>
      BuildUri(client, address, city, state).value ==
        Endpoint + "address=" + ReplaceChar(address, ' ', '+') + ",+" +
        ReplaceChar(city, ' ', '+') + ",+" + ResolveState(state).value + "&key=" + client.apiKey
  {
    if ResolveState(state).Ok? {
      ResolvedCodeHasNoSpace(state);
      UriForMeaning(client, address, city, ResolveState(state).value);
    }
  }

  /** For a code without spaces, the URI is the endpoint, "address=", the
      three parts separated by ",+" with spaces turned into '+', "&key=" and
      the key. */
  lemma UriForMeaning(client: Client, address: string, city: string, code: string)
    requires ' ' !in code
    ensures UriFor(client, address, city, code) ==
      Endpoint + "address=" + ReplaceChar(address, ' ', '+') + ",+" +
      ReplaceChar(city, ' ', '+') + ",+" + code + "&key=" + client.apiKey
  {
    AddressParamPieces(address, city, code);
    ReplaceCharAbsent(code, ' ', '+');
    QueryStringTwo("address", AddressParam(address, city, code), "key", client.apiKey);
  }

  /** A resolved code is two upper-case letters, so it holds no space. */
  lemma ResolvedCodeHasNoSpace(state: string)
    requires ResolveState(state).Ok?
    ensures ' ' !in ResolveState(state).value
  {
    EntriesWellFormed();
    var i := ResolveSound(Entries, 'a', 'w', state);
    CodeHasNoSpace(Entries[i].1);
  }

  /** A two-letter upper-case code holds no space. */
  lemma CodeHasNoSpace(code: string)
    requires IsCode(code)
    ensures ' ' !in code
  {
    assert code == [code[0], code[1]];
  }

  /** Two parameters give "k1=v1&k2=v2". */
  lemma QueryStringTwo(k1: string, v1: string, k2: string, v2: string)
    ensures QueryString([(k1, v1), (k2, v2)]) == k1 + "=" + v1 + "&" + k2 + "=" + v2
  {
    var params := [(k1, v1), (k2, v2)];
    var pairs := seq(|params|, i requires 0 <= i < |params| => params[i].0 + "=" + params[i].1);
    assert pairs == [k1 + "=" + v1, k2 + "=" + v2];
    JoinTwo("&", pairs[0], pairs[1]);
  }

  /* ---------------------------------------------------------- the record */

  /** An unknown state raises before any request: the provider is never
      consulted, and the error is the one `_build_uri` raises. */
  lemma GeocodeRejects(client: Client, address: string, city: string, state: string,
                       provider: string -> Response, other: string -> Response)
    ensures Geocode(client, address, city, state, provider).Err? <==> ResolveState(state).Err?
    ensures ResolveState(state).Err? ==>
      && Geocode(client, address, city, state, provider) == Err(ValueError(InvalidStateMessage(state)))
      && Geocode(client, address, city, state, provider) == Geocode(client, address, city, state, other)
  {
    BuildUriMeaning(client, address, city, state);
  }

  /** The outcome depends on the provider only through its reply to the one
      URI `_build_uri` gives. */
  lemma GeocodeDependsOnlyOnReply(client: Client, address: string, city: string, state: string,
                        provider: string -> Response, other: string -> Response)
    requires BuildUri(client, address, city, state).Ok?
    requires provider(BuildUri(client, address, city, state).value) ==
             other(BuildUri(client, address, city, state).value)
    ensures Geocode(client, address, city, state, provider) ==
            Geocode(client, address, city, state, other)
  {
  }

  /** A status other than 'OK' gives the fallback record: address and city
      as given, the state argument as given (not its resolved code), and no
      postal code or coordinates. */
  lemma GeocodeNotOk(client: Client, address: string, city: string, state: string,
                     provider: string -> Response)
    requires ResolveState(state).Ok?
    requires provider(BuildUri(client, address, city, state).value).status != Some("OK")
    ensures Geocode(client, address, city, state, provider) ==
            Ok(GeoRecord(address, Some(city), Some(state), None, None, None))
  {
    BuildUriMeaning(client, address, city, state);
  }

  /** With status 'OK', a formatting failure of any kind is caught and gives
      the same fallback record. */
  lemma GeocodeFormatFails(client: Client, address: string, city: string, state: string,
                           provider: string -> Response)
    requires ResolveState(state).Ok?
    requires provider(BuildUri(client, address, city, state).value).status == Some("OK")
    requires Format(provider(BuildUri(client, address, city, state).value)).Err?
    ensures Geocode(client, address, city, state, provider) ==
            Ok(GeoRecord(address, Some(city), Some(state), None, None, None))
  {
    BuildUriMeaning(client, address, city, state);
  }

  /** With status 'OK' and an empty `results` list, `[0]` raises and the
      fallback record is returned. */
  lemma GeocodeNoResults(client: Client, address: string, city: string, state: string,
                         provider: string -> Response)
    requires ResolveState(state).Ok?
    requires provider(BuildUri(client, address, city, state).value) ==
             Response(Some("OK"), Some([]))
    ensures Geocode(client, address, city, state, provider) ==
            Ok(Fallback(address, city, state))
  {
    FormatFails(Response(Some("OK"), Some([])));
    GeocodeFormatFails(client, address, city, state, provider);
  }

  /** With status 'OK', a chosen result that has no postal-code component
      makes formatting raise, and the fallback record is returned. */
  lemma GeocodeNoPostalCode(client: Client, address: string, city: string, state: string,
                            provider: string -> Response, results: seq<GeoResult>, i: int)
    requires ResolveState(state).Ok?
    requires provider(BuildUri(client, address, city, state).value) ==
             Response(Some("OK"), Some(results))
    requires ResultsTyped(results) && IsChosen(results, i)
    requires results[i].addressComponents.Some?
    requires Missing(results[i].addressComponents.value, "postal_code")
    ensures Geocode(client, address, city, state, provider) ==
            Ok(Fallback(address, city, state))
  {
    ExtractRecordFails(results[i]);
    FormatFails(Response(Some("OK"), Some(results)));
    GeocodeFormatFails(client, address, city, state, provider);
  }

  /**
   * With status 'OK' and a chosen result whose components include a street
   * number, a route, a first-level administrative area and a postal code,
   * the record is read from the first component carrying each tag.
   */
  lemma GeocodeMatched(client: Client, address: string, city: string, state: string,
                       provider: string -> Response, results: seq<GeoResult>, i: int,
                       components: seq<AddressComponent>, sn: int, rt: int, st: int, zc: int)
    requires ResolveState(state).Ok?
    requires provider(BuildUri(client, address, city, state).value) ==
             Response(Some("OK"), Some(results))
    requires ResultsTyped(results) && IsChosen(results, i)
    requires results[i].addressComponents == Some(components) && ComponentsTyped(components)
    requires IsFirst(components, ComponentTagged("street_number"), sn)
    requires IsFirst(components, ComponentTagged("route"), rt)
    requires IsFirst(components, ComponentTagged("administrative_area_level_1"), st)
    requires IsFirst(components, ComponentTagged("postal_code"), zc)
    ensures Geocode(client, address, city, state, provider).Ok?
    ensures Geocode(client, address, city, state, provider).value.address ==
      Strip(ShortNameOr(components[sn], "") + " " + ShortNameOr(components[rt], ""))
    ensures Geocode(client, address, city, state, provider).value.state == components[st].shortName
    ensures Geocode(client, address, city, state, provider).value.zipCode == components[zc].shortName
    ensures forall l :: IsFirst(components, ComponentTagged("locality"), l) ==>
      Geocode(client, address, city, state, provider).value.city == components[l].shortName
    ensures Missing(components, "locality") ==>
      Geocode(client, address, city, state, provider).value.city == None
    ensures (Geocode(client, address, city, state, provider).value.latitude,
             Geocode(client, address, city, state, provider).value.longitude) ==
            Coordinates(results[i].geometry)
  {
    BuildUriMeaning(client, address, city, state);
    ExtractRecordFields(results[i], components, sn, rt, st, zc);
    FormatFails(Response(Some("OK"), Some(results)));
  }

  /* ------------------------------------------------------------ examples */

  /** A non-'OK' reply to state "ca" keeps "ca" in the record, although the
      URI carried "CA". */
  lemma FallbackKeepsStateArgument(client: Client, address: string, city: string,
                                   provider: string -> Response)
    requires BuildUri(client, address, city, "ca").Ok?
    requires provider(BuildUri(client, address, city, "ca").value).status != Some("OK")
    ensures ResolveState("ca") == Ok("CA")
    ensures BuildUri(client, address, city, "ca") == Ok(UriFor(client, address, city, "CA"))
    ensures Geocode(client, address, city, "ca", provider).value.state == Some("ca")
  {
    CaliforniaCodeExample();
    GeocodeNotOk(client, address, city, "ca", provider);
  }

  /** "1 Main St", "Los Angeles", "California" asks for
      "...json?address=1+Main+St,+Los+Angeles,+CA&key=KEY". */
  lemma BuildUriExample()
    ensures BuildUri(Client("KEY"), "1 Main St", "Los Angeles", "California") ==
      Ok(Endpoint + "address=1+Main+St,+Los+Angeles,+CA&key=KEY")
  {
    CaliforniaNameExample();
    BuildUriMeaning(Client("KEY"), "1 Main St", "Los Angeles", "California");
    ExampleReplacements();
    ExampleUriText();
  }

  /** The spaces of the sample address and city become '+'. */
  lemma ExampleReplacements()
    ensures ReplaceChar("1 Main St", ' ', '+') == "1+Main+St"
    ensures ReplaceChar("Los Angeles", ' ', '+') == "Los+Angeles"
  {
  }

  /** The pieces of the sample URI, put together. */
  lemma ExampleUriText()
    ensures Endpoint + "address=" + "1+Main+St" + ",+" + "Los+Angeles" + ",+" + "CA" + "&key=" + "KEY"
      == Endpoint + "address=1+Main+St,+Los+Angeles,+CA&key=KEY"
  {
    assert "address=" + "1+Main+St" + ",+" + "Los+Angeles" + ",+" + "CA" + "&key=" + "KEY"
      == "address=1+Main+St,+Los+Angeles,+CA&key=KEY";
  }

  /** The full name "California" gives "CA". */
  lemma CaliforniaNameExample()
    ensures ResolveState("California") == Ok("CA")
  {
    EntriesWellFormed();
    assert Entries[4] == ("california", "CA");
    assert Lower("California") == "california";
    NameAnyCase(Entries, 'a', 'w', "California", 4);
  }

  /** The components of the sample reply: one of each kind, in order. */
  const SampleComponents: seq<AddressComponent> := [
    AddressComponent(Some(["street_number"]), Some("123")),
    AddressComponent(Some(["route"]), Some("Main St")),
    AddressComponent(Some(["locality"]), Some("Anytown")),
    AddressComponent(Some(["administrative_area_level_1"]), Some("CA")),
    AddressComponent(Some(["postal_code"]), Some("90210"))]

  /** A reply with status 'OK' and one street-address result. */
  const SampleReply: Response := Response(Some("OK"), Some([
    GeoResult(Some(["street_address"]), Some(SampleComponents),
              Some(Geometry(Some(Location(Some(34.0), Some(-118.0))))))]))

  /* The sample components, one tag at a time. */

  lemma SampleTyped()
    ensures ComponentsTyped(SampleComponents)
  {
  }

  lemma SampleStreetNumber()
    ensures IsFirst(SampleComponents, ComponentTagged("street_number"), 0)
  {
  }

  lemma SampleRoute()
    ensures IsFirst(SampleComponents, ComponentTagged("route"), 1)
  {
    assert |SampleComponents[0].types.value[0]| == 13;
  }

  lemma SampleLocality()
    ensures IsFirst(SampleComponents, ComponentTagged("locality"), 2)
  {
  }

  lemma SampleState()
    ensures IsFirst(SampleComponents, ComponentTagged("administrative_area_level_1"), 3)
  {
  }

  lemma SamplePostalCode()
    ensures IsFirst(SampleComponents, ComponentTagged("postal_code"), 4)
  {
  }

  /** The sample's one result is the chosen one. */
  lemma SampleChosen()
    ensures ResultsTyped(SampleReply.results.value)
    ensures IsChosen(SampleReply.results.value, 0)
  {
  }

  /** The sample's street number and route give "123 Main St". */
  lemma SampleAddress()
    ensures Strip(ShortNameOr(SampleComponents[0], "") + " " + ShortNameOr(SampleComponents[1], ""))
      == "123 Main St"
  {
    SampleAddressText();
    assert Trimmed("123 Main St") by {
      assert "123 Main St"[0] == '1' && "123 Main St"[10] == 't';
    }
    StripTrimmed("123 Main St");
  }

  /** The street number and route joined by a space. */
  lemma SampleAddressText()
    ensures ShortNameOr(SampleComponents[0], "") + " " + ShortNameOr(SampleComponents[1], "")
      == "123 Main St"
  {
    assert "123" + " " + "Main St" == "123 Main St";
  }

  /** Formatting the sample reply reads every field from its components. */
  lemma SampleFormat()
    ensures Format(SampleReply) ==
      Ok(GeoRecord("123 Main St", Some("Anytown"), Some("CA"), Some("90210"),
                   Some(34.0), Some(-118.0)))
  {
    var results := SampleReply.results.value;
    SampleChosen();
    SampleTyped();
    SampleStreetNumber();
    SampleRoute();
    SampleLocality();
    SampleState();
    SamplePostalCode();
    ExtractRecordFields(results[0], SampleComponents, 0, 1, 3, 4);
    FormatFails(SampleReply);
    SampleAddress();
  }

  /** Any provider that answers the sample reply gives that record. */
  lemma GeocodeExample(provider: string -> Response)
    requires forall uri :: provider(uri) == SampleReply
    ensures Geocode(Client("KEY"), "123 Main St", "Anytown", "CA", provider) ==
      Ok(GeoRecord("123 Main St", Some("Anytown"), Some("CA"), Some("90210"),
                   Some(34.0), Some(-118.0)))
  {
    EntriesWellFormed();
    assert Entries[4] == ("california", "CA");
    CodeAnyCase(Entries, 'a', 'w', "CA", 4);
    SampleFormat();
  }
}
