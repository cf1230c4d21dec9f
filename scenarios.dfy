/**
 * Sequences of events on the page, from any consistent state, and what the handlers'
 * contracts let a caller conclude about them.
 */
module Scenarios {
  import opened Wrappers
  import opened JsString
  import opened UriComponent
  import opened MapUrl
  import opened InputCoordinator

  /**
   * A location request that fails, followed by a click on generate with no typing in
   * between, ends in the "no location" error and leaves the renderer alone: the request
   * cleared both the fields and any earlier coordinates.
   */
  method FailedFetchThenGenerate<C>(page: Coordinator<C>, code: int)
    requires page.Valid() && page.geolocationSupported
    modifies page, page.qrcode
    ensures page.Valid()
    ensures page.message == Message(NoLocationText, Error) && page.messageShown
    ensures page.qrcode == old(page.qrcode) && (page.qrcode != null ==> page.qrcode.text == old(page.qrcode.text))
    ensures !page.isLocationFetched && page.buttonEnabled
  {
    page.GetGeolocationHandler();
    page.GeolocationError(code);
    page.GenerateQRCodeHandler();
  }

  /**
   * A successful fetch followed by generate renders exactly
   * `https://www.google.com/maps/search/?api=1&query=<lat>,<lng>` with the
   * current-location success message.
   */
  method FetchThenGenerate<C>(page: Coordinator<C>, latitude: C, longitude: C)
    requires page.Valid() && page.geolocationSupported
    modifies page, page.qrcode
    ensures page.Valid()
    ensures page.message == Message(FromCoordinatesText, Success) && page.messageShown
    ensures page.qrcode != null
    ensures page.qrcode.text == MapsSearchPrefix + page.fmt.toText(latitude) + "," + page.fmt.toText(longitude)
    ensures old(page.qrcode) != null ==> page.qrcode == old(page.qrcode)
  {
    page.GetGeolocationHandler();
    page.GeolocationSuccess(latitude, longitude);
    page.GenerateQRCodeHandler();
  }

  /** The state after a location request, a successful fetch and one keystroke in a manual field. */
  method FetchThenType<C>(page: Coordinator<C>, latitude: C, longitude: C, field: ManualField, value: string)
    requires page.Valid() && page.geolocationSupported
    modifies page
    ensures page.Valid() && page.qrcode == old(page.qrcode)
    ensures !page.isLocationFetched && page.lat == None && page.lng == None
    ensures page.geoInput == ManualEntryNotice
    ensures page.addressInput == (if field == AddressField then value else "")
    ensures page.cityInput == (if field == CityField then value else "")
    ensures page.stateInput == (if field == StateField then value else "")
  {
    page.GetGeolocationHandler();
    page.GeolocationSuccess(latitude, longitude);
    page.EditManualField(field, value);
  }

  /**
   * Typing into a manual field after a successful fetch hands precedence to the manual
   * address: generate then encodes the address, or reports that there is no location when
   * the typed text is blank, and never uses the stale coordinates.
   */
  method TypingAfterFetchThenGenerate<C>(page: Coordinator<C>, latitude: C, longitude: C, field: ManualField, value: string)
    requires page.Valid() && page.geolocationSupported
    modifies page, page.qrcode
    ensures page.Valid()
    ensures !page.isLocationFetched && page.lat == None && page.lng == None
    ensures page.addressInput == (if field == AddressField then value else "")
    ensures page.cityInput == (if field == CityField then value else "")
    ensures page.stateInput == (if field == StateField then value else "")
    ensures page.messageShown
    ensures IsBlank(value) ==> page.message == Message(NoLocationText, Error)
    ensures IsBlank(value) ==> page.qrcode == old(page.qrcode)
    ensures !IsBlank(value) ==>
      && page.message == Message(FromAddressText, Success)
      && page.qrcode != null
      && page.qrcode.text == MapsSearchPrefix + EncodeURIComponent(Trim(JoinAddress(page.addressInput, page.cityInput, page.stateInput)))
  {
    FetchThenType(page, latitude, longitude, field, value);
    assert IsBlank(page.addressInput) && IsBlank(page.cityInput) && IsBlank(page.stateInput) <==> IsBlank(value) by {
      assert IsBlank("");
    }
    ManualFallback(page.fmt, page.isLocationFetched, page.lat, page.lng, page.addressInput, page.cityInput, page.stateInput);
    page.GenerateQRCodeHandler();
  }

  /**
   * The same edit made twice leaves the page as one edit does: the second run of the
   * listener finds no fetched location and changes nothing.
   */
  method RepeatedEditIsIdempotent<C>(page: Coordinator<C>, field: ManualField, value: string)
    requires page.Valid()
    modifies page
    ensures page.Valid()
    ensures page.addressInput == (if field == AddressField then value else old(page.addressInput))
    ensures page.cityInput == (if field == CityField then value else old(page.cityInput))
    ensures page.stateInput == (if field == StateField then value else old(page.stateInput))
    ensures old(page.isLocationFetched) ==> !page.isLocationFetched && page.geoInput == ManualEntryNotice
    ensures !old(page.isLocationFetched) ==> page.isLocationFetched == old(page.isLocationFetched) && page.geoInput == old(page.geoInput)
    ensures old(page.isLocationFetched) ==> page.lat == None && page.lng == None
    ensures !old(page.isLocationFetched) ==> page.lat == old(page.lat) && page.lng == old(page.lng)
    ensures page.message == old(page.message) && page.messageShown == old(page.messageShown)
    ensures page.qrcode == old(page.qrcode) && page.buttonEnabled == old(page.buttonEnabled)
  {
    page.EditManualField(field, value);
    page.EditManualField(field, value);
  }
}
