/**
 * The event handlers of script.js over the page state they assign in place: the location
 * state (`isLocationFetched`, `lat`, `lng`), the three manual fields and the geolocation
 * display field, the status message, the get-location button, and the single QR renderer.
 *
 * The geolocation provider is not modelled: its two outcomes are the methods
 * GeolocationSuccess and GeolocationError, which the environment calls after
 * GetGeolocationHandler. Whether `navigator.geolocation` exists is fixed for the page and
 * given to the constructor.
 */
module InputCoordinator {
  import opened Wrappers
  import opened MapUrl

  /** The error-correction levels of the QR library. */
  datatype CorrectLevel = L | M | Q | H

  /**
   * The QR renderer the page keeps: its size, colours and correction level are fixed when it
   * is constructed; `makeCode` replaces the encoded text in place.
   */
  class QRCode {
    var text: string
    const width: int
    const height: int
    const colorDark: string
    const colorLight: string
    const correctLevel: CorrectLevel

    constructor (text: string, width: int, height: int, colorDark: string, colorLight: string, correctLevel: CorrectLevel)
      ensures this.text == text && this.width == width && this.height == height
      ensures this.colorDark == colorDark && this.colorLight == colorLight && this.correctLevel == correctLevel
    {
      this.text := text;
      this.width := width;
      this.height := height;
      this.colorDark := colorDark;
      this.colorLight := colorLight;
      this.correctLevel := correctLevel;
    }

    method MakeCode(text: string)
      modifies this
      ensures this.text == text
    {
      this.text := text;
    }
  }

  /** The options generateQRCodeHandler constructs the renderer with. */
  predicate HasPageOptions(q: QRCode)
    reads q
  {
    q.width == 256 && q.height == 256 && q.colorDark == "#333333" && q.colorLight == "#ffffff" && q.correctLevel == H
  }

  /** The manual field an input event comes from. */
  datatype ManualField = AddressField | CityField | StateField

  class Coordinator<C> {
    const geolocationSupported: bool
    const fmt: NumberFormat<C>

    var qrcode: QRCode?
    var isLocationFetched: bool
    var lat: Option<C>
    var lng: Option<C>

    var addressInput: string
    var cityInput: string
    var stateInput: string
    var geoInput: string

    var message: Message
    var messageShown: bool
    var buttonEnabled: bool

    /**
     * The location state is all-or-nothing: fetched exactly when both coordinates are present.
     * A renderer, once there, keeps the options it was built with and shows a map-search URL.
     */
    ghost predicate Valid()
      reads this, qrcode
    {
      && lat.Some? == isLocationFetched
      && lng.Some? == isLocationFetched
      && (qrcode != null ==> HasPageOptions(qrcode) && IsMapsSearchUrl(qrcode.text))
    }

    /** The URL the current state yields, with the input it comes from. */
    function CurrentUrl(): Option<Located>
      reads this
    {
      ChooseMapUrl(fmt, isLocationFetched, lat, lng, addressInput, cityInput, stateInput)
    }

    /** The page after loading, once `window.onload` has shown the welcome message. */
    constructor (geolocationSupported: bool, fmt: NumberFormat<C>)
      ensures Valid()
      ensures this.geolocationSupported == geolocationSupported && this.fmt == fmt
      ensures qrcode == null && !isLocationFetched && lat == None && lng == None
      ensures addressInput == "" && cityInput == "" && stateInput == "" && geoInput == ""
      ensures message == Message(WelcomeText, Info) && messageShown && buttonEnabled
    {
      this.geolocationSupported := geolocationSupported;
      this.fmt := fmt;
      qrcode := null;
      isLocationFetched := false;
      lat, lng := None, None;
      addressInput, cityInput, stateInput, geoInput := "", "", "", "";
      buttonEnabled := true;
      message := Message(WelcomeText, Info);
      messageShown := true;
    }

    /** displayMessage: replaces the one status message and makes it visible. */
    method DisplayMessage(text: string, severity: Severity)
      modifies this`message, this`messageShown
      ensures message == Message(text, severity) && messageShown
    {
      message := Message(text, severity);
      messageShown := true;
    }

    /** resetInputs: clears the four fields and the location state, and hides the message. */
    method ResetInputs()
      requires Valid()
      modifies this`addressInput, this`cityInput, this`stateInput, this`geoInput
      modifies this`isLocationFetched, this`lat, this`lng, this`messageShown
      ensures Valid()
      ensures addressInput == "" && cityInput == "" && stateInput == "" && geoInput == ""
      ensures !isLocationFetched && lat == None && lng == None
      ensures !messageShown
    {
      addressInput, cityInput, stateInput, geoInput := "", "", "", "";
      isLocationFetched := false;
      lat, lng := None, None;
      messageShown := false;
    }

    /**
     * createMapUrl: the URL for the current state, or None; when there is one, the success
     * message names the input it came from. Without a URL the message is left as it was.
     * This is the statement-by-statement version of ChooseMapUrl, displaying the message in
     * the branch that finds the URL, as the script does; its postcondition ties the two.
     */
    method CreateMapUrl() returns (mapUrl: Option<string>)
      modifies this`message, this`messageShown
      ensures CurrentUrl().None? ==> mapUrl == None && message == old(message) && messageShown == old(messageShown)
      ensures CurrentUrl().Some? ==> mapUrl == Some(CurrentUrl().value.url)
      ensures CurrentUrl().Some? ==> message == SuccessMessage(CurrentUrl().value.source) && messageShown
    {
      mapUrl := None;
      if isLocationFetched && lat.Some? && lng.Some? {
        mapUrl := Some(MapsSearchPrefix + fmt.toText(lat.value) + "," + fmt.toText(lng.value));
        DisplayMessage(FromCoordinatesText, Success);
      } else if addressInput != "" || cityInput != "" || stateInput != "" {
        var address := JoinAddress(addressInput, cityInput, stateInput);
        var encodedAddress := UriComponent.EncodeURIComponent(JsString.Trim(address));
        if encodedAddress != "" {
          mapUrl := Some(MapsSearchPrefix + encodedAddress);
          DisplayMessage(FromAddressText, Success);
        }
      }
    }

    /**
     * generateQRCodeHandler: without a URL, an error message and no renderer call. With one, the
     * success message of createMapUrl, and the renderer shows the URL: the first time a new
     * renderer with the page's options is built, afterwards the same renderer is updated.
     * The location state and the fields are not touched.
     */
    method GenerateQRCodeHandler()
      requires Valid()
      modifies this`message, this`messageShown, this`qrcode, qrcode
      ensures Valid()
      ensures CurrentUrl().None? ==> message == Message(NoLocationText, Error) && messageShown
      ensures CurrentUrl().None? ==> qrcode == old(qrcode) && (qrcode != null ==> qrcode.text == old(qrcode.text))
      ensures CurrentUrl().Some? ==> message == SuccessMessage(CurrentUrl().value.source) && messageShown
      ensures CurrentUrl().Some? ==> qrcode != null && qrcode.text == CurrentUrl().value.url
      ensures old(qrcode) != null ==> qrcode == old(qrcode)
      ensures old(qrcode) == null && CurrentUrl().Some? ==> fresh(qrcode) && HasPageOptions(qrcode)
    {
      var mapUrl := CreateMapUrl();
      if mapUrl.None? {
        DisplayMessage(NoLocationText, Error);
        return;
      }
      if qrcode != null {
        qrcode.MakeCode(mapUrl.value);
      } else {
        qrcode := new QRCode(mapUrl.value, 256, 256, "#333333", "#ffffff", H);
      }
    }

    /**
     * geolocationSuccess: stores the coordinates as the fetched location, shows them, clears
     * the manual fields, reports success and re-enables the button.
     */
    method GeolocationSuccess(latitude: C, longitude: C)
      requires Valid()
      modifies this`lat, this`lng, this`isLocationFetched, this`geoInput
      modifies this`addressInput, this`cityInput, this`stateInput
      modifies this`message, this`messageShown, this`buttonEnabled
      ensures Valid()
      ensures isLocationFetched && lat == Some(latitude) && lng == Some(longitude)
      ensures geoInput == GeoDisplay(fmt, latitude, longitude)
      ensures addressInput == "" && cityInput == "" && stateInput == ""
      ensures message == Message(FetchedText, Info) && messageShown && buttonEnabled
    {
      lat := Some(latitude);
      lng := Some(longitude);
      isLocationFetched := true;
      geoInput := GeoDisplay(fmt, latitude, longitude);
      addressInput, cityInput, stateInput := "", "", "";
      DisplayMessage(FetchedText, Info);
      buttonEnabled := true;
    }

    /**
     * geolocationError: reports the failure with the text for its code and re-enables the
     * button; the location state and the fields are left as they are.
     */
    method GeolocationError(code: int)
      requires Valid()
      modifies this`message, this`messageShown, this`buttonEnabled
      ensures Valid()
      ensures message == Message(GeolocationErrorText(code), Error) && messageShown && buttonEnabled
    {
      DisplayMessage(GeolocationErrorText(code), Error);
      buttonEnabled := true;
    }

    /**
     * getGeolocationHandler: without geolocation support, only an error message. Otherwise
     * the button is disabled and resetInputs clears the fields and the location state; the
     * request to the provider follows, and its outcome arrives as GeolocationSuccess or
     * GeolocationError.
     */
    method GetGeolocationHandler()
      requires Valid()
      modifies this`buttonEnabled, this`addressInput, this`cityInput, this`stateInput, this`geoInput
      modifies this`isLocationFetched, this`lat, this`lng, this`message, this`messageShown
      ensures Valid()
      ensures !geolocationSupported ==> message == Message(UnsupportedText, Error) && messageShown
      ensures !geolocationSupported ==>
        && buttonEnabled == old(buttonEnabled)
        && addressInput == old(addressInput) && cityInput == old(cityInput) && stateInput == old(stateInput)
        && geoInput == old(geoInput)
        && isLocationFetched == old(isLocationFetched) && lat == old(lat) && lng == old(lng)
      ensures geolocationSupported ==>
        && !buttonEnabled
        && addressInput == "" && cityInput == "" && stateInput == "" && geoInput == ""
        && !isLocationFetched && lat == None && lng == None
        && message == old(message) && !messageShown
    {
      if !geolocationSupported {
        DisplayMessage(UnsupportedText, Error);
        return;
      }
      buttonEnabled := false;
      ResetInputs();
    }

    /**
     * The input listener of the manual fields: typing while a location is fetched drops the
     * location and says so in the geolocation field; otherwise nothing changes.
     */
    method OnManualInput()
      requires Valid()
      modifies this`isLocationFetched, this`lat, this`lng, this`geoInput
      ensures Valid()
      ensures old(isLocationFetched) ==> !isLocationFetched && lat == None && lng == None && geoInput == ManualEntryNotice
      ensures !old(isLocationFetched) ==> isLocationFetched == old(isLocationFetched) && lat == old(lat) && lng == old(lng) && geoInput == old(geoInput)
    {
      if isLocationFetched {
        isLocationFetched := false;
        lat, lng := None, None;
        geoInput := ManualEntryNotice;
      }
    }

    /** An input event: the browser stores the new text of one manual field, then the listener runs. */
    method EditManualField(field: ManualField, value: string)
      requires Valid()
      modifies this`addressInput, this`cityInput, this`stateInput
      modifies this`isLocationFetched, this`lat, this`lng, this`geoInput
      ensures Valid()
      ensures addressInput == (if field == AddressField then value else old(addressInput))
      ensures cityInput == (if field == CityField then value else old(cityInput))
      ensures stateInput == (if field == StateField then value else old(stateInput))
      ensures old(isLocationFetched) ==> !isLocationFetched && lat == None && lng == None && geoInput == ManualEntryNotice
      ensures !old(isLocationFetched) ==> isLocationFetched == old(isLocationFetched) && lat == old(lat) && lng == old(lng) && geoInput == old(geoInput)
    {
      match field {
        case AddressField => addressInput := value;
        case CityField => cityInput := value;
        case StateField => stateInput := value;
      }
      OnManualInput();
    }
  }
}
