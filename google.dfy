/** `google.py`: the request URL for one address, and the mapping of a Google Maps Geocoding API
    response onto the flat record the scripts store. */
module Google {
  import opened Wrappers
  import opened Cells
  import CommaText

  /** A value the provider supplies and the scripts only pass through (coordinates, location type). */
  datatype Opaque = Opaque(token: string)

  /** `geometry`, read with `.get`: each of the three values may be absent. */
  datatype Geometry = Geometry(lat: Option<Opaque>, lng: Option<Opaque>, locationType: Option<Opaque>)

  datatype AddressComponent = AddressComponent(longName: string, types: seq<string>)

  /** One element of the response's `results` list. `formatted_address` and `place_id` are read
      with `.get` and so may be absent. */
  datatype Place = Place(
    formattedAddress: Option<string>,
    geometry: Geometry,
    placeId: Option<string>,
    types: seq<string>,
    addressComponents: seq<AddressComponent>)

  /** The decoded JSON body of one geocoding request. */
  datatype Response = Response(status: string, results: seq<Place>)

  /** The output dict of `get_google_result`; `response` holds the key of the same name when it is
      present. */
  datatype Record = Record(
    formattedAddress: Option<string>,
    latitude: Option<Opaque>,
    longitude: Option<Opaque>,
    accuracy: Option<Opaque>,
    googlePlaceId: Option<string>,
    placeType: Option<string>,
    postcode: Option<string>,
    inputString: Cell,
    numberOfResults: nat,
    status: string,
    response: Option<Response>)

  datatype GeocodeError = OverQueryLimit

  /** What `requests.get(url).json()` gave for one request: the decoded response, or an exception. */
  datatype Fetch = Fetched(response: Response) | RequestFailed

  /** Either the raised OverQueryLimit or the output record. */
  datatype Outcome = Raise(error: GeocodeError) | Output(record: Record)

  const BaseUrl: string := "https://maps.googleapis.com/maps/api/geocode/json?address="
  const KeyParameter: string := "&key="
  const OverQueryLimitStatus: string := "OVER_QUERY_LIMIT"
  const PostalCodeType: string := "postal_code"

  // ---------------------------------------------------------------------------
  // The request URL

  /** The geocoding URL: the base URL, the address text as it is, and `&key=` with the key when
      one is given. */
  function GeocodeUrl(address: string, apiKey: Option<string>): (url: string)
    ensures |url| >= |BaseUrl| + |address|
    ensures url[..|BaseUrl|] == BaseUrl && url[|BaseUrl|..|BaseUrl| + |address|] == address
    ensures apiKey.None? ==> |url| == |BaseUrl| + |address|
    ensures apiKey.Some? ==> url[|BaseUrl| + |address|..] == KeyParameter + apiKey.value
  {
    var url := BaseUrl + address;
    if apiKey.Some? then url + KeyParameter + apiKey.value else url
  }

  /** Position of the first '&' in `s`, or `|s|` when there is none. */
  function FirstAmpersand(s: string): (i: nat)
    ensures i <= |s| && (i < |s| ==> s[i] == '&')
    ensures forall j :: 0 <= j < i ==> s[j] != '&'
  {
    if |s| == 0 then 0
    else if s[0] == '&' then 0
    else 1 + FirstAmpersand(s[1..])
  }

  /** Reads a geocoding URL back into its address and optional key. */
  function ParseUrl(url: string): Option<(string, Option<string>)>
  {
    if |url| < |BaseUrl| || url[..|BaseUrl|] != BaseUrl then None
    else
      var query := url[|BaseUrl|..];
      var i := FirstAmpersand(query);
      if i == |query| then Some((query, None))
      else if |query| - i >= |KeyParameter| && query[i..i + |KeyParameter|] == KeyParameter
      then Some((query[..i], Some(query[i + |KeyParameter|..])))
      else None
  }

  /** The URL determines the address and the key, as long as the address holds no '&' (the
      address is put into the query without any encoding). */
  lemma UrlRoundTrip(address: string, apiKey: Option<string>)
    requires '&' !in address
    ensures ParseUrl(GeocodeUrl(address, apiKey)) == Some((address, apiKey))
  {
    var url := GeocodeUrl(address, apiKey);
    var query := url[|BaseUrl|..];
    assert query[..|address|] == address;
    var i := FirstAmpersand(query);
    assert i >= |address|;
    match apiKey {
      case None =>
        assert query == address;
      case Some(k) =>
        assert query[|address|..] == KeyParameter + k;
        assert query[|address|] == '&';
        assert i == |address|;
        assert query[i..i + |KeyParameter|] == KeyParameter;
        assert query[i + |KeyParameter|..] == k;
    }
  }

  // ---------------------------------------------------------------------------
  // The response mapping

  /** `[x['long_name'] for x in components if 'postal_code' in x.get('types')]`. */
  function PostalNames(components: seq<AddressComponent>): (names: seq<string>)
    ensures |names| <= |components|
    ensures |components| >= 1 && PostalCodeType in components[0].types
            ==> |names| >= 1 && names[0] == components[0].longName
  {
    if |components| == 0 then []
    else
      (if PostalCodeType in components[0].types then [components[0].longName] else [])
      + PostalNames(components[1..])
  }

  /** The comprehension keeps component order: it distributes over concatenation. */
  lemma {:induction false} PostalNamesAppend(a: seq<AddressComponent>, b: seq<AddressComponent>)
    ensures PostalNames(a + b) == PostalNames(a) + PostalNames(b)
  {
    if |a| == 0 {
      assert a + b == b;
    } else {
      assert (a + b)[0] == a[0];
      assert (a + b)[1..] == a[1..] + b;
      PostalNamesAppend(a[1..], b);
    }
  }

  /** A name is kept exactly when some component with the postal_code type carries it. */
  lemma {:induction false} PostalNamesMembers(components: seq<AddressComponent>, name: string)
    ensures name in PostalNames(components)
            <==> exists i :: 0 <= i < |components| && components[i].longName == name
                             && PostalCodeType in components[i].types
  {
    if |components| > 0 {
      PostalNamesMembers(components[1..], name);
      if name in PostalNames(components[1..]) {
        var i :| 0 <= i < |components[1..]| && components[1..][i].longName == name
                 && PostalCodeType in components[1..][i].types;
        assert components[i + 1] == components[1..][i];
      }
      forall i | 1 <= i < |components| && components[i].longName == name
                 && PostalCodeType in components[i].types
        ensures name in PostalNames(components[1..])
      {
        assert components[1..][i - 1] == components[i];
      }
    }
  }

  /** The location fields of a record built from one provider result. */
  ghost predicate DescribesPlace(record: Record, place: Place)
  {
    && record.formattedAddress == place.formattedAddress
    && record.latitude == place.geometry.lat
    && record.longitude == place.geometry.lng
    && record.accuracy == place.geometry.locationType
    && record.googlePlaceId == place.placeId
    && record.placeType == Some(CommaText.CommaJoin(place.types))
    && record.postcode == Some(CommaText.CommaJoin(PostalNames(place.addressComponents)))
  }

  /** All seven location fields of a record are None. */
  ghost predicate HasNoLocation(record: Record)
  {
    && record.formattedAddress.None? && record.latitude.None? && record.longitude.None?
    && record.accuracy.None? && record.googlePlaceId.None? && record.placeType.None?
    && record.postcode.None?
  }

  /** `get_google_result` applied to the decoded response of its request. */
  function GetGoogleResult(address: Cell, returnFullResponse: bool, response: Response): (o: Outcome)
    ensures o.Raise? <==> response.status == OverQueryLimitStatus
    ensures o.Raise? ==> o.error == OverQueryLimit
    ensures o.Output? ==> && o.record.inputString == address
                          && o.record.numberOfResults == |response.results|
                          && o.record.status == response.status
    ensures o.Output? ==> (o.record.response.Some? <==> returnFullResponse)
                          && (returnFullResponse ==> o.record.response == Some(response))
    ensures o.Output? && |response.results| == 0 ==> HasNoLocation(o.record)
    ensures o.Output? && |response.results| > 0 ==> DescribesPlace(o.record, response.results[0])
  {
    if response.status == OverQueryLimitStatus then Raise(OverQueryLimit)
    else
      var full := if returnFullResponse then Some(response) else None;
      if |response.results| == 0 then
        Output(Record(None, None, None, None, None, None, None,
                      address, 0, response.status, full))
      else
        var answer := response.results[0];
        Output(Record(
          answer.formattedAddress,
          answer.geometry.lat,
          answer.geometry.lng,
          answer.geometry.locationType,
          answer.placeId,
          Some(CommaText.CommaJoin(answer.types)),
          Some(CommaText.CommaJoin(PostalNames(answer.addressComponents))),
          address, |response.results|, response.status, full))
  }

  /** Only the first result matters: two responses that agree on the status, the number of results
      and the first result give the same record, apart from the full-response copy. */
  lemma FirstResultOnly(address: Cell, returnFullResponse: bool, r1: Response, r2: Response)
    requires r1.status == r2.status && |r1.results| == |r2.results| > 0
    requires r1.results[0] == r2.results[0]
    ensures GetGoogleResult(address, returnFullResponse, r1).Raise?
            == GetGoogleResult(address, returnFullResponse, r2).Raise?
    ensures GetGoogleResult(address, returnFullResponse, r1).Output? ==>
            GetGoogleResult(address, returnFullResponse, r1).record.(response := None)
            == GetGoogleResult(address, returnFullResponse, r2).record.(response := None)
  {
  }

  /** The `type` field splits back into the first result's type list when no type holds a comma. */
  lemma TypeFieldRecoversTypes(address: Cell, returnFullResponse: bool, response: Response)
    requires response.status != OverQueryLimitStatus && |response.results| > 0
    requires |response.results[0].types| > 0 && CommaText.CommaFree(response.results[0].types)
    ensures var rec := GetGoogleResult(address, returnFullResponse, response).record;
            rec.placeType.Some? && CommaText.CommaSplit(rec.placeType.value) == response.results[0].types
  {
    CommaText.SplitJoin(response.results[0].types);
  }

  /** Without any postal_code component the postcode is the empty string, not None. */
  lemma NoPostalComponentEmptyPostcode(address: Cell, returnFullResponse: bool, response: Response)
    requires response.status != OverQueryLimitStatus && |response.results| > 0
    requires forall i :: 0 <= i < |response.results[0].addressComponents|
               ==> PostalCodeType !in response.results[0].addressComponents[i].types
    ensures GetGoogleResult(address, returnFullResponse, response).record.postcode == Some("")
  {
    var cs := response.results[0].addressComponents;
    if PostalNames(cs) != [] {
      PostalNamesMembers(cs, PostalNames(cs)[0]);
    }
  }

  // ---------------------------------------------------------------------------
  // The per-work-item wrapper used by the database mode

  /** What `get_google_result_and_write_to_db` does with one work item: nothing without a
      FIXED_ADDRESS key, a printed failure when the provider is over its limit, and otherwise the
      store of the record (the database update itself is not modelled). */
  datatype WorkResult =
    | SkippedNoAddress
    | OverLimitReported
    | OtherFailureReported
    | Store(work: Row, geocode: Record)

  /** `get_google_result_and_write_to_db`; `fetch` is what the request for the item's address gave. */
  function GeocodeWork(work: Row, returnFullResponse: bool, fetch: Fetch): (r: WorkResult)
    ensures r.SkippedNoAddress? <==> FIXED_ADDRESS !in work
    ensures r.OverLimitReported? <==> FIXED_ADDRESS in work && fetch.Fetched?
                                      && fetch.response.status == OverQueryLimitStatus
    ensures r.OtherFailureReported? <==> FIXED_ADDRESS in work && fetch.RequestFailed?
    ensures r.Store? ==> && r.work == work
                         && r.geocode == GetGoogleResult(work[FIXED_ADDRESS], returnFullResponse, fetch.response).record
                         && r.geocode.inputString == work[FIXED_ADDRESS]
                         && r.geocode.numberOfResults == |fetch.response.results|
  {
    if FIXED_ADDRESS !in work then SkippedNoAddress
    else
      match fetch
      case RequestFailed => OtherFailureReported
      case Fetched(response) =>
        match GetGoogleResult(work[FIXED_ADDRESS], returnFullResponse, response)
        case Raise(_) => OverLimitReported
        case Output(record) => Store(work, record)
  }
}
