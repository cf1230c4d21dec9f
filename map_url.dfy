/**
 * The pure part of script.js: which location source feeds the QR code (`createMapUrl`), the
 * map-search URL built from it, the texts of the status messages, and the text for each
 * geolocation error code (the `switch` in `geolocationError`).
 *
 * Latitude and longitude are values of an arbitrary type `C`; the script only ever turns them
 * into text, with the number-to-string conversion of a template literal (`${lat}`) and with
 * `toFixed(4)`, and both conversions are parameters here.
 */
module MapUrl {
  import opened Wrappers
  import opened JsString
  import opened UriComponent

  /** How the script renders a coordinate: `${x}` and `x.toFixed(4)`. */
  datatype NumberFormat<!C> = NumberFormat(toText: C -> string, toFixed4: C -> string)

  datatype Severity = Info | Success | Error

  /** The one status message on the page. */
  datatype Message = Message(text: string, severity: Severity)

  /** The input a URL was made from. */
  datatype Source = CurrentLocation | ManualAddress

  /** A map-search URL together with the input it was made from. */
  datatype Located = Located(source: Source, url: string)

  const MapsSearchPrefix: string := "https://www.google.com/maps/search/?api=1&query="

  // Status texts
  const WelcomeText: string := "Click 'Get My Current Location' or enter an address manually."
  const FromCoordinatesText: string := "QR code generated from your current latitude/longitude."
  const FromAddressText: string := "QR code generated from the manual address."
  const NoLocationText: string := "Please provide a valid location, either by clicking 'Get Location' or entering a manual address."
  const FetchedText: string := "Location fetched successfully! Click 'Generate QR Code'."
  const UnsupportedText: string := "Your browser does not support Geolocation."
  const DefaultFailureText: string := "Geolocation failed. Please enter location manually."
  const PermissionDeniedText: string := "Geolocation permission denied. Please enable it in your browser settings."
  const UnavailableText: string := "Location information is unavailable."
  const TimeoutText: string := "The request to get user location timed out."

  /** Notice written to the geolocation field when typing supersedes a fetched location. */
  const ManualEntryNotice: string := "Manual address entered. Geolocation data cleared."

  // GeolocationPositionError codes
  const PERMISSION_DENIED: int := 1
  const POSITION_UNAVAILABLE: int := 2
  const TIMEOUT: int := 3

  /** The message `createMapUrl` displays for a URL made from `source`. */
  function SuccessMessage(source: Source): (m: Message)
    ensures m.severity == Success
    ensures m.text == FromCoordinatesText <==> source == CurrentLocation
    ensures m.text == FromAddressText <==> source == ManualAddress
  {
    match source
    case CurrentLocation => Message(FromCoordinatesText, Success)
    case ManualAddress => Message(FromAddressText, Success)
  }

  /** The three manual fields joined by single spaces, as the template literal does. */
  function JoinAddress(address: string, city: string, region: string): string
  {
    address + " " + city + " " + region
  }

  /** Text of the geolocation display field after a successful fetch. */
  function GeoDisplay<C>(fmt: NumberFormat<C>, lat: C, lng: C): string
  {
    "Lat: " + fmt.toFixed4(lat) + ", Lng: " + fmt.toFixed4(lng)
  }

  /** The URL `createMapUrl` returns (None for its `null`), with the source it used. */
  function ChooseMapUrl<C>(fmt: NumberFormat<C>, fetched: bool, lat: Option<C>, lng: Option<C>,
                           address: string, city: string, region: string): (r: Option<Located>)
    ensures r.Some? ==> |r.value.url| > |MapsSearchPrefix| && r.value.url[..|MapsSearchPrefix|] == MapsSearchPrefix
  {
    if fetched && lat.Some? && lng.Some? then
      Some(Located(CurrentLocation, MapsSearchPrefix + fmt.toText(lat.value) + "," + fmt.toText(lng.value)))
    else if address != "" || city != "" || region != "" then
      var encoded := EncodeURIComponent(Trim(JoinAddress(address, city, region)));
      if encoded != "" then Some(Located(ManualAddress, MapsSearchPrefix + encoded)) else None
    else
      None
  }

  /**
   * The text `geolocationError` displays for an error code: each of the three known codes
   * has its own text, and every other code gets the default text.
   */
  function GeolocationErrorText(code: int): (r: string)
    ensures code == PERMISSION_DENIED ==> r == PermissionDeniedText
    ensures code == POSITION_UNAVAILABLE ==> r == UnavailableText
    ensures code == TIMEOUT ==> r == TimeoutText
    ensures r == DefaultFailureText <==> code !in {PERMISSION_DENIED, POSITION_UNAVAILABLE, TIMEOUT}
  {
    if code == PERMISSION_DENIED then PermissionDeniedText
    else if code == POSITION_UNAVAILABLE then UnavailableText
    else if code == TIMEOUT then TimeoutText
    else DefaultFailureText
  }

  /** A URL as the generate handler can produce it: the fixed prefix and a non-empty query. */
  predicate IsMapsSearchUrl(url: string) {
    |url| > |MapsSearchPrefix| && url[..|MapsSearchPrefix|] == MapsSearchPrefix
  }

  // ----- properties of the URL choice -----

  /**
   * Coordinates take precedence: with a fetched location the URL is the prefix followed by
   * `lat,lng`, whatever the manual fields hold.
   */
  lemma CoordinatesTakePrecedence<C>(fmt: NumberFormat<C>, lat: C, lng: C, address: string, city: string, region: string)
    ensures ChooseMapUrl(fmt, true, Some(lat), Some(lng), address, city, region)
         == Some(Located(CurrentLocation, MapsSearchPrefix + fmt.toText(lat) + "," + fmt.toText(lng)))
  {
  }

  /** The joined address holds the three fields in order, each followed by one space but the last. */
  lemma JoinAddressFields(address: string, city: string, region: string)
    ensures var r := JoinAddress(address, city, region);
      && |r| == |address| + |city| + |region| + 2
      && r[..|address|] == address && r[|address|] == ' '
      && r[|address| + 1..|address| + 1 + |city|] == city && r[|address| + 1 + |city|] == ' '
      && r[|r| - |region|..] == region
  {
  }

  /** The display field holds both rounded coordinates, each after its label. */
  lemma GeoDisplayFields<C>(fmt: NumberFormat<C>, lat: C, lng: C)
    ensures var r, x, y := GeoDisplay(fmt, lat, lng), fmt.toFixed4(lat), fmt.toFixed4(lng);
      && |r| == |x| + |y| + 12
      && r[..5] == "Lat: " && r[5..5 + |x|] == x
      && r[5 + |x|..|r| - |y|] == ", Lng: " && r[|r| - |y|..] == y
  {
  }

  /** Joining with single spaces gives a blank string exactly when all three fields are blank. */
  lemma JoinBlankIffFieldsBlank(address: string, city: string, region: string)
    ensures IsBlank(JoinAddress(address, city, region)) <==> IsBlank(address) && IsBlank(city) && IsBlank(region)
  {
    var j := JoinAddress(address, city, region);
    var o1, o2 := |address| + 1, |address| + 1 + |city| + 1;
    assert forall k :: 0 <= k < |address| ==> j[k] == address[k];
    assert forall k :: 0 <= k < |city| ==> j[o1 + k] == city[k];
    assert forall k :: 0 <= k < |region| ==> j[o2 + k] == region[k];
    if IsBlank(address) && IsBlank(city) && IsBlank(region) {
      forall k | 0 <= k < |j| ensures IsTrimmable(j[k]) {
        if k < |address| {
        } else if k == |address| {
        } else if k < o1 + |city| {
          assert j[k] == city[k - o1];
        } else if k == o1 + |city| {
        } else {
          assert j[k] == region[k - o2];
        }
      }
    }
  }

  /**
   * Manual fallback: without a fetched location there is no URL exactly when every manual
   * field is empty or whitespace only; otherwise the URL is the prefix followed by the
   * percent-encoded, trimmed, space-joined address.
   */
  lemma ManualFallback<C>(fmt: NumberFormat<C>, fetched: bool, lat: Option<C>, lng: Option<C>,
                          address: string, city: string, region: string)
    requires !(fetched && lat.Some? && lng.Some?)
    ensures var r := ChooseMapUrl(fmt, fetched, lat, lng, address, city, region);
      && (r.None? <==> IsBlank(address) && IsBlank(city) && IsBlank(region))
      && (r.Some? ==> r.value == Located(ManualAddress,
            MapsSearchPrefix + EncodeURIComponent(Trim(JoinAddress(address, city, region)))))
  {
    var j := JoinAddress(address, city, region);
    JoinBlankIffFieldsBlank(address, city, region);
    TrimEmptyIffBlank(j);
    if address == "" && city == "" && region == "" {
      assert IsBlank(address) && IsBlank(city) && IsBlank(region);
    }
  }

  /**
   * The query of a manual-address URL is a single well-formed parameter value: it holds only
   * unreserved characters and `%HH` escapes, and decodeURIComponent gives back exactly the
   * trimmed address.
   */
  lemma ManualQueryDecodes<C>(fmt: NumberFormat<C>, fetched: bool, lat: Option<C>, lng: Option<C>,
                              address: string, city: string, region: string)
    requires !(fetched && lat.Some? && lng.Some?)
    requires ChooseMapUrl(fmt, fetched, lat, lng, address, city, region).Some?
    ensures var url := ChooseMapUrl(fmt, fetched, lat, lng, address, city, region).value.url;
      var query := url[|MapsSearchPrefix|..];
      && url == MapsSearchPrefix + query
      && DecodeURIComponent(query) == Some(Trim(JoinAddress(address, city, region)))
      && (forall k :: 0 <= k < |query| ==> IsUnreserved(query[k]) || query[k] == '%' || IsUpperHexDigit(query[k]))
  {
    var trimmed := Trim(JoinAddress(address, city, region));
    ManualFallback(fmt, fetched, lat, lng, address, city, region);
    var url := ChooseMapUrl(fmt, fetched, lat, lng, address, city, region).value.url;
    assert url[|MapsSearchPrefix|..] == EncodeURIComponent(trimmed);
    DecodeEncode(trimmed);
    EncodedCharsOnly(trimmed);
  }

  /** The joined address of street "1 Main St", city "Springfield" and an empty state, trimmed. */
  lemma ExampleTrim()
    ensures Trim(JoinAddress("1 Main St", "Springfield", "")) == "1 Main St Springfield"
  {
    var a := "1 Main St Springfield";
    var j := JoinAddress("1 Main St", "Springfield", "");
    assert "1 Main St" + " " + "Springfield" == a;
    assert j == a + " " + "";
    assert TrimStart(j) == j;
    assert j[..|j| - 1] == a;
    assert TrimEnd(a) == a;
  }

  /** Words of unreserved characters joined by single spaces are encoded with `%20` between them. */
  lemma EncodeSpacedWords(w1: string, w2: string, w3: string, w4: string)
    requires forall k :: 0 <= k < |w1| ==> IsUnreserved(w1[k])
    requires forall k :: 0 <= k < |w2| ==> IsUnreserved(w2[k])
    requires forall k :: 0 <= k < |w3| ==> IsUnreserved(w3[k])
    requires forall k :: 0 <= k < |w4| ==> IsUnreserved(w4[k])
    ensures EncodeURIComponent(w1 + " " + w2 + " " + w3 + " " + w4) == w1 + "%20" + w2 + "%20" + w3 + "%20" + w4
  {
    EncodeSpace();
    EncodeUnreserved(w1);
    EncodeUnreserved(w2);
    EncodeUnreserved(w3);
    EncodeUnreserved(w4);
    EncodeConcat(w1 + " " + w2 + " " + w3 + " ", w4);
    EncodeConcat(w1 + " " + w2 + " " + w3, " ");
    EncodeConcat(w1 + " " + w2 + " ", w3);
    EncodeConcat(w1 + " " + w2, " ");
    EncodeConcat(w1 + " ", w2);
    EncodeConcat(w1, " ");
  }

  /** The spaces of the example address are the only characters that get escaped. */
  lemma ExampleEncode()
    ensures EncodeURIComponent("1 Main St Springfield") == "1%20Main%20St%20Springfield"
  {
    assert "1" + " " + "Main" + " " + "St" + " " + "Springfield" == "1 Main St Springfield";
    assert "1" + "%20" + "Main" + "%20" + "St" + "%20" + "Springfield" == "1%20Main%20St%20Springfield";
    EncodeSpacedWords("1", "Main", "St", "Springfield");
  }

  /** Street "1 Main St", city "Springfield" and an empty state give the query `1%20Main%20St%20Springfield`. */
  lemma ManualAddressExample<C>(fmt: NumberFormat<C>)
    ensures ChooseMapUrl(fmt, false, None, None, "1 Main St", "Springfield", "")
         == Some(Located(ManualAddress, MapsSearchPrefix + "1%20Main%20St%20Springfield"))
  {
    ExampleTrim();
    ExampleEncode();
  }
}
