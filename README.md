# Geocoding client: address handling

A model of the pure part of `GoogleGeocodingClient`, the client the geocoding
service uses to turn a street address into a normalised record. The model
covers three steps:

- **State resolution and the request URI** (`_build_uri`). The state argument
  is looked up in the fixed 50-row `states` dictionary. A full name in any
  letter case gives its two-letter code. Otherwise a string whose upper-case
  form is a code gives that code. Anything else raises
  `ValueError('Invalid State input "<state>"')`. The address, the city and the
  code are joined by `", "`, every space becomes `+`, and the result goes after
  `address=` in the query string, followed by `&key=<api key>`.
- **Field extraction** (`_format_response_data`). From the decoded reply it
  picks the first result tagged `street_address`, and otherwise the first
  result. For each of street number, route, locality, first-level
  administrative area and postal code it takes the first component carrying
  that tag. It reads the coordinates from `geometry.location` and builds the
  flat record. Each Python exception this code can raise is a `PyException`
  value, and the conditions under which it is raised are part of the model.
- **Status and fallback** (`_geocode_async`, lines 40-60). If the status is not
  `'OK'`, or formatting raises anything, the result is the fallback record. It
  holds the address, city and state arguments as given, and no postal code or
  coordinates.

Modules:

- `Wrappers`: `Option` and `Result`.
- `PyStr`: the `str` methods used: `lower`, `upper`, `join`, `replace` and
  `strip`.
- `StateRows`: the rows of `states`, in source order, and their shape.
- `StateTable`: the dictionary and the resolution.
- `ResponseFormat`: the decoded reply and `_format_response_data`.
- `Geocoder`: the URI, the fallback and `geocode`.

Network access and `json.loads` are one parameter of `Geocoder.Geocode`: a
provider that maps the requested URI to the decoded reply.

Three behaviours of the code are worth stating outright:

- **Only the city is guarded.** A missing street number, route,
  administrative area or postal code makes `.get` raise on `None`, so the
  whole record becomes the fallback record (`Geocoder.GeocodeNoPostalCode`).
- **The `try` covers only formatting.** Errors from fetching or decoding the
  reply are not caught and propagate to the caller.
- **Bulk requests share one failure.** `_bulk_geocode_async` calls
  `asyncio.gather` without `return_exceptions`, so the first failure
  propagates to the caller.

## Model

| member | source | states |
|---|---|---|
| StateRows.EntriesWellFormed | geocoding_service/src/geocoder.py:107-158 | the table has 50 rows; every name is lower-case letters and spaces; every code is two upper-case letters, the first being the upper-case form of the name's first letter; no name occurs twice and no code occurs twice |
| StateTable.DictionaryHasRow | geocoding_service/src/geocoder.py:107-158 | every row's name is a key of the dictionary, and maps to that row's code |
| StateTable.DictionaryKeyIsRow | geocoding_service/src/geocoder.py:107-158 | every key of the dictionary is the name of some row, and maps to that row's code |
| StateTable.DictionaryValueIsRow | geocoding_service/src/geocoder.py:107-158 | every value of the dictionary is the code of some row |
| StateTable.TestsExclusive | geocoding_service/src/geocoder.py:12-15 | no string passes both the full-name test and the code test, so testing the full name first does not change the outcome |
| StateTable.NameAnyCase | geocoding_service/src/geocoder.py:12-13 | a full name of the table, in any letter case, resolves to its row's code |
| StateTable.CodeAnyCase | geocoding_service/src/geocoder.py:14-15 | a code of the table, in any letter case, resolves to the code in upper case |
| StateTable.ResolveSound | geocoding_service/src/geocoder.py:11-17 | a successful resolution returns the code of a row whose name or code equals the argument ignoring case, and that code is two upper-case letters |
| StateTable.ResolveStateMeaning | geocoding_service/src/geocoder.py:11-17 | resolution succeeds exactly when the argument equals, ignoring case, a name or code of the table, and then gives that row's code; otherwise it raises `ValueError` whose message quotes the argument |
| StateTable.NewYorkExample | geocoding_service/src/geocoder.py:12-13 | "New York" and "NEW YORK" both give "NY" |
| StateTable.CaliforniaCodeExample | geocoding_service/src/geocoder.py:14-15 | "ca" gives "CA" |
| StateTable.DottedAbbreviationExample | geocoding_service/src/geocoder.py:16-17 | "N.Y." raises `ValueError('Invalid State input "N.Y."')` |
| PyStr.LowerUpper | geocoding_service/src/geocoder.py:12-14 | lower-casing undoes an earlier upper-casing, and the other way round |
| PyStr.LowerOfLowerCase | geocoding_service/src/geocoder.py:12 | a string with no upper-case letter is its own lower-case form |
| PyStr.UpperOfUpperCase | geocoding_service/src/geocoder.py:14 | a string with no lower-case letter is its own upper-case form |
| PyStr.EqualIgnoringCaseUpper | geocoding_service/src/geocoder.py:14-15 | for an upper-case `t`, equality with `t` ignoring case holds exactly when upper-casing gives `t` |
| PyStr.JoinThree | geocoding_service/src/geocoder.py:20 | joining three parts puts the separator between each pair |
| PyStr.JoinTwo | geocoding_service/src/geocoder.py:24 | joining two parts puts the separator between them |
| PyStr.ReplaceCharRemoves | geocoding_service/src/geocoder.py:20 | after replacing a character by a different one, none of it is left |
| PyStr.ReplaceCharRoundTrip | geocoding_service/src/geocoder.py:20 | replacing back restores the string when the new character did not occur in it |
| PyStr.ReplaceCharConcat | geocoding_service/src/geocoder.py:20 | replacement distributes over concatenation |
| PyStr.ReplaceCharAbsent | geocoding_service/src/geocoder.py:20 | a string without the replaced character is unchanged |
| PyStr.StripStart | geocoding_service/src/geocoder.py:88 | the result is a suffix; everything dropped is whitespace; it does not start with whitespace |
| PyStr.StripEnd | geocoding_service/src/geocoder.py:88 | the result is a prefix; everything dropped is whitespace; it does not end with whitespace |
| PyStr.Strip | geocoding_service/src/geocoder.py:88 | the result is a slice of the input with only whitespace dropped at either end, and it neither starts nor ends with whitespace |
| PyStr.StripTrimmed | geocoding_service/src/geocoder.py:88 | stripping leaves a string unchanged exactly when it neither starts nor ends with whitespace |
| PyStr.StripJoinedWords | geocoding_service/src/geocoder.py:88 | two trimmed words joined by a space and stripped give the two words joined, or the non-empty one alone when the other is "" |
| ResponseFormat.Filter | geocoding_service/src/geocoder.py:64 | the result holds only elements of the input that satisfy the predicate, and every such element |
| ResponseFormat.FirstOfFilter | geocoding_service/src/geocoder.py:71-72 | the head of the filtered list is the first element satisfying the predicate |
| ResponseFormat.FirstOfFilterNone | geocoding_service/src/geocoder.py:71-72 | when no element satisfies the predicate, the filtered list has no head |
| ResponseFormat.FirstExists | geocoding_service/src/geocoder.py:71-72 | when some element satisfies the predicate, one of them is the first |
| ResponseFormat.SelectResultMeaning | geocoding_service/src/geocoder.py:63-68 | selection raises `TypeError` when a result has no `types`, raises `IndexError` on an empty list, and otherwise returns the first `street_address` result, or the first result when there is none |
| ResponseFormat.FirstTaggedMeaning | geocoding_service/src/geocoder.py:71-80 | the component picked for a tag is the first carrying it, and it is None exactly when no component carries it |
| ResponseFormat.ExtractRecordFields | geocoding_service/src/geocoder.py:70-94 | when the four required components exist, the record is built: the address is the street number and route short names joined by a space and stripped, with a missing short name counting as ""; state and postal code come from the first matching components; the city is the first locality's short name, or None when there is none; the coordinates come from `geometry.location` |
| ResponseFormat.ExtractRecordFails | geocoding_service/src/geocoder.py:70-94 | extraction raises exactly when the components are absent or untyped, or when no component is a street number, a route, a first-level administrative area or a postal code |
| ResponseFormat.FormatFails | geocoding_service/src/geocoder.py:62-94 | formatting raises exactly when `results` is absent, untyped or empty, or when extraction from the chosen result raises; otherwise it returns the record extracted from the chosen result |
| Geocoder.AddressParamHasNoSpace | geocoding_service/src/geocoder.py:20 | the address parameter contains no space |
| Geocoder.AddressParamPieces | geocoding_service/src/geocoder.py:20 | the address parameter is the three parts, each with its spaces turned into '+', separated by ",+" |
| Geocoder.AddressParamRoundTrip | geocoding_service/src/geocoder.py:20 | when no part contains '+', turning '+' back into spaces gives the parts joined by ", " |
| Geocoder.QueryStringTwo | geocoding_service/src/geocoder.py:24 | two parameters give "k1=v1&k2=v2", in insertion order |
| Geocoder.UriForMeaning | geocoding_service/src/geocoder.py:19-25 | for a code without spaces, the URI is the endpoint, then "address=", the address parameter, "&key=" and the key, with no other encoding |
| Geocoder.ResolvedCodeHasNoSpace | geocoding_service/src/geocoder.py:11-17 | a resolved code contains no space |
| Geocoder.BuildUriMeaning | geocoding_service/src/geocoder.py:11-26 | URI building fails exactly when the state is not recognised, with the quoting `ValueError`; otherwise the URI is exactly the endpoint, "address=", the address and city with spaces turned into '+' and the resolved code, separated by ",+", then "&key=" and the key |
| Geocoder.GeocodeRejects | geocoding_service/src/geocoder.py:32-33 | an unrecognised state raises `ValueError` before any request: the outcome is the same whatever the provider answers, and the fallback does not catch it |
| Geocoder.GeocodeDependsOnlyOnReply | geocoding_service/src/geocoder.py:33-38 | two providers that give the same answer to the built URI give the same outcome |
| Geocoder.GeocodeNotOk | geocoding_service/src/geocoder.py:52-60 | a status other than 'OK' gives the record with the address, city and state arguments as given, and no postal code or coordinates |
| Geocoder.GeocodeFormatFails | geocoding_service/src/geocoder.py:40-51 | with status 'OK', any formatting failure gives that same fallback record |
| Geocoder.GeocodeNoResults | geocoding_service/src/geocoder.py:40-51 | with status 'OK' and an empty results list, the result is the fallback record |
| Geocoder.GeocodeNoPostalCode | geocoding_service/src/geocoder.py:79-91 | with status 'OK', when the chosen result has no postal-code component, the whole result is the fallback record |
| Geocoder.GeocodeMatched | geocoding_service/src/geocoder.py:40-94 | with status 'OK' and the four required components present, the record's address, city, state, postal code and coordinates are read from the first matching components of the chosen result |
| Geocoder.FallbackKeepsStateArgument | geocoding_service/src/geocoder.py:44-60 | for state "ca", "ca" resolves to "CA" and the URI is the one built for "CA", but a non-'OK' reply keeps "ca" in the record |
| Geocoder.CaliforniaNameExample | geocoding_service/src/geocoder.py:12-13 | "California" gives "CA" |
| Geocoder.BuildUriExample | geocoding_service/src/geocoder.py:19-25 | "1 Main St", "Los Angeles", "California" with key "KEY" give the endpoint followed by "address=1+Main+St,+Los+Angeles,+CA&key=KEY" |
| Geocoder.SampleFormat | geocoding_service/src/geocoder.py:62-94 | the sample reply formats to address "123 Main St", city "Anytown", state "CA", postal code "90210", coordinates (34.0, -118.0) |
| Geocoder.GeocodeExample | geocoding_service/src/geocoder.py:32-42 | "123 Main St", "Anytown", "CA" with a provider that gives the sample reply produce that record |

## Left out

- `_fetch`, `aiohttp.ClientSession`, `json.loads` and `asyncio.run` (lines 28-38 and 100-104) are network I/O and JSON decoding. They are replaced by the provider parameter of `Geocoder.Geocode`. The errors they can raise are not modelled; in the code they are not caught.
- `bulk_geocode` and `_bulk_geocode_async` (lines 96-98) run requests concurrently. Concurrency is not modelled, and the code provides no failure isolation to model.
- PyStr.Lower: maps only ASCII letters, as does `PyStr.Upper`. Python's Unicode case mapping is not modelled. For example, Python lower-cases the Kelvin sign to 'k'.
- ResponseFormat.ShortNameOr: treats a `short_name` that is present but JSON `null` the same as a missing one, giving "". In Python the f-string would then print "None".
- ResponseFormat.HasTag: `types` is modelled as a list of strings. A `types` that is a string, where `in` would test for a substring, is not modelled. The same goes for other JSON values of a type the code does not expect, such as a result that is not an object.
- Latitude and longitude are modelled as mathematical reals and passed through unchanged. Floating point is not modelled; the code does no arithmetic on them.
- `PyException` names only the exceptions formatting can raise on the modelled inputs. The code catches every exception with `except Exception`, so the kind of exception does not affect the outcome.
- The dictionary truthiness tests at lines 83-85 are modelled as presence tests. An empty `geometry` or `location` object gives None either way.
- api/tests/unit/test_models.py is not part of this model. It tests the ORM models, password hashing and token encoding, which are outside the geocoding client.
