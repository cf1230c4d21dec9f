# GeoLocation QR: input coordinator

A browser page turns a location into a QR code holding a Google Maps search URL. The location
comes either from the device's geolocation or from three manual fields (street, city,
state). `script.js` holds a small coordinator. Its state is whether a location has been
fetched plus the latitude and longitude, the manual fields, the geolocation display field,
the status message, the get-location button and a single QR renderer. Five events change
that state: the get-location click, the two geolocation callbacks, a keystroke in a manual
field and the generate click.

This project models that coordinator in Dafny:

- `wrappers.dfy`: `Option`, standing for the script's `null`.
- `js_string.dfy`: `String.prototype.trim`, with the WhiteSpace and LineTerminator sets of
  ECMA-262 (sections 7.2 and 7.3).
- `uri_component.dfy`: `encodeURIComponent` (ECMA-262 5.1, section 15.1.3.4) over UTF-8
  (RFC 3629). Its inverse `decodeURIComponent` (section 15.1.3.2) is the function against
  which the encoding is proved to round-trip.
- `map_url.dfy`: the URL choice of `createMapUrl` as a pure function, plus the message texts
  and the error-code-to-text `switch`, with their properties.
- `coordinator.dfy`: a class `Coordinator<C>` with one method per handler. The fields are
  the script's globals and DOM values. `Valid()` is the class invariant: a location is
  fetched exactly when both coordinates are present, and a renderer, once built, keeps its
  fixed options.
- `scenarios.dfy`: sequences of events proved from the handlers' contracts alone.

Latitude and longitude have an arbitrary type `C`. The script only turns them into text:
`${lat}` inside the URL and `toFixed(4)` in the display field. Both conversions are
functions in a `NumberFormat<C>` that the page is built with, so no floating point is
modelled. The QR library is a class `QRCode`. Its options are constants and its text can be
changed by `MakeCode`. Object identity gives the singleton rule: the first successful
generate builds a fresh renderer, and every later one updates that same object.

## Model

| member | source | states |
|---|---|---|
| JsString.TrimStartSpec | script.js:69 | the leading half of `trim` keeps the longest suffix that does not start with whitespace; everything cut off is whitespace |
| JsString.TrimEndSpec | script.js:69 | the trailing half of `trim` keeps the longest prefix that does not end with whitespace; everything cut off is whitespace |
| JsString.TrimIsCentralSlice | script.js:69 | `Trim` (`address.trim()`) returns a contiguous slice of its argument with only whitespace cut from either end |
| JsString.TrimmedEnds | script.js:69 | the result of `Trim` neither starts nor ends with whitespace |
| JsString.TrimEmptyIffBlank | script.js:69-70 | `Trim` gives the empty string exactly when the argument is all whitespace |
| JsString.TrimIdempotent | script.js:69 | trimming twice equals trimming once |
| UriComponent.EncodeURIComponent | script.js:69 | the encoding is empty exactly when the input is, and never shorter than the input |
| UriComponent.EncodedCharsOnly | script.js:69 | the encoding holds only unreserved characters, `%` and upper-case hex digits, so no space, `&`, `#`, `=` or `?` reaches the query |
| UriComponent.EncodeConcat | script.js:69 | encoding distributes over concatenation |
| UriComponent.EncodeUnreserved | script.js:69 | a string of unreserved characters is its own encoding |
| UriComponent.EncodeSpace | script.js:69 | a space is written `%20` |
| UriComponent.Utf8RoundTrip | script.js:69 | UTF-8 decoding undoes the UTF-8 encoding of every character, and the lead octet announces the right sequence length |
| UriComponent.EncodeCharRoundTrip | script.js:69 | decoding reads the escape of one character back as that character and consumes exactly its escape |
| UriComponent.DecodeEncode | script.js:69 | `decodeURIComponent(encodeURIComponent(s)) == s` for every string, and decoding never fails on it |
| MapUrl.ChooseMapUrl | script.js:59-77 | any URL it returns starts with the fixed maps-search prefix and has a non-empty query |
| MapUrl.SuccessMessage | script.js:65-72 | both success messages have the success severity, and the text names the source: the coordinates text exactly for the current location, the manual-address text exactly for the manual address |
| MapUrl.JoinAddressFields | script.js:68 | the template literal holds street, city and state in that order, separated by single spaces, each readable back at its position |
| MapUrl.GeoDisplay | script.js:124 | the display field reads `Lat: ` followed by `lat.toFixed(4)`, then `, Lng: ` followed by `lng.toFixed(4)`, each at its position |
| MapUrl.CoordinatesTakePrecedence | script.js:62-65 | with a fetched location the URL is the prefix ++ lat ++ "," ++ lng, whatever the manual fields hold |
| MapUrl.JoinBlankIffFieldsBlank | script.js:68 | the space-joined address is all whitespace exactly when all three fields are |
| MapUrl.ManualFallback | script.js:66-74 | without a fetched location there is no URL exactly when every field is empty or whitespace-only; otherwise the URL is the prefix ++ encode(trim(street city state)) |
| MapUrl.ManualQueryDecodes | script.js:68-71 | the query of a manual URL is one well-formed parameter value, and decoding it gives back exactly the trimmed address |
| MapUrl.GeolocationErrorText | script.js:144-155 | the `switch` of `geolocationError`: codes 1, 2, 3 (permission denied, unavailable, timeout) get their own texts, and the default text is used exactly for every other code |
| MapUrl.ExampleTrim | script.js:68-69 | street "1 Main St", city "Springfield" and an empty state join and trim to "1 Main St Springfield" |
| MapUrl.EncodeSpacedWords | script.js:69 | four words of unreserved characters joined by single spaces are encoded with `%20` between them |
| MapUrl.ManualAddressExample | script.js:66-73 | that address gives the URL ending in `query=1%20Main%20St%20Springfield` |
| InputCoordinator.QRCode.constructor | script.js:97-104 | a renderer holds the text and the options it is built with |
| InputCoordinator.QRCode.MakeCode | script.js:95 | `makeCode` replaces the text in place |
| InputCoordinator.Coordinator.constructor | script.js:3-6 | the initial state: no renderer, not fetched, no coordinates, empty fields, the welcome message shown, button enabled; the invariant holds |
| InputCoordinator.Coordinator.DisplayMessage | script.js:27-39 | the single status message is overwritten with the given text and severity and made visible; nothing else changes |
| InputCoordinator.Coordinator.ResetInputs | script.js:44-53 | all four fields are cleared, the location state is cleared as a whole and the message is hidden; nothing else changes |
| InputCoordinator.Coordinator.CreateMapUrl | script.js:59-77 | returns the URL that `ChooseMapUrl` gives for the current state; with a URL it shows the success message naming the source; without one the message is untouched |
| InputCoordinator.Coordinator.GenerateQRCodeHandler | script.js:82-112 | no URL: the no-location error and no renderer change. A URL: the success message, and the renderer shows the URL. The renderer is built fresh with 256x256, #333333/#ffffff and level H only when none existed; otherwise it is the same object. Location and fields are not touched |
| InputCoordinator.Coordinator.GeolocationSuccess | script.js:118-137 | fetched with both coordinates set, the display field set from them, the manual fields cleared, the info message shown and the button re-enabled |
| InputCoordinator.Coordinator.GeolocationError | script.js:143-163 | an error message with the text for the code and the button re-enabled; location state and fields unchanged |
| InputCoordinator.Coordinator.GetGeolocationHandler | script.js:168-188 | without geolocation: only the unsupported error message. Otherwise: the button is disabled, all fields are cleared, the location state is cleared and the message is hidden |
| InputCoordinator.Coordinator.OnManualInput | script.js:195-204 | typing while fetched clears fetched, lat and lng together and sets the notice; typing while not fetched changes nothing |
| InputCoordinator.Coordinator.EditManualField | script.js:195-204 | the edited field takes the new text, the other two keep theirs, and the listener runs as above |
| Scenarios.FailedFetchThenGenerate | script.js:180 | request, then error, then generate with no typing ends in the no-location error with the renderer untouched |
| Scenarios.FetchThenGenerate | script.js:62-65 | request, then success, then generate renders exactly prefix ++ lat ++ "," ++ lng with the current-location message shown, on the same renderer if one existed |
| Scenarios.TypingAfterFetchThenGenerate | script.js:197-201 | typing after a fetch hands precedence to the manual address: the stale coordinates are dropped, the typed field holds the typed text and the other two are empty, a message is shown, and generate renders the prefix ++ encode(trim(the joined fields)) or, for blank text, reports no location and leaves the renderer alone |
| Scenarios.RepeatedEditIsIdempotent | script.js:196-202 | the same edit made twice leaves the page as one edit does: every mutable field ends as a single edit leaves it |

## Left out

- The CSS classes that `displayMessage` sets for each severity (script.js:29-37). Only the text, the severity and the `hidden` toggle are kept, as `messageShown`.
- The opacity fade and its `setTimeout` (script.js:107-111), the spinner and the button label (script.js:135-136, 161-162, 176-177). They are presentational. The button's enabled flag is kept.
- The call to `navigator.geolocation.getCurrentPosition` and its options: high accuracy, the 10-second timeout, no cache (script.js:183-187). It is an asynchronous foreign call. Its two outcomes are the methods `GeolocationSuccess` and `GeolocationError`.
- The model does not track an outstanding request. The callbacks may be called in any state, while the browser calls them only after a request.
- The QR library itself, its drawing, and the clearing of the output element (script.js:91). That library is not part of this model. `QRCode` keeps only its text and its options.
- `Number` to string and `toFixed(4)` (script.js:64, 124). These are floating-point formatting. They are the two functions of `NumberFormat<C>`.
- `appId`, the DOM lookups and the `window.onload` hook (script.js:9-20, 207-210). The welcome message of `onload` is part of the constructor's postcondition. The page's HTML is not part of this model: the fields are assumed to start empty and the button enabled.
- The `URIError` that `encodeURIComponent` throws on a lone surrogate. A Dafny `char` is a Unicode scalar value, so such input cannot be expressed.
- The whitespace set of `trim` uses today's Unicode "Zs" category. U+180E is therefore not whitespace, as in current engines.

A space in the address is always written `%20`, never `+`, because `encodeURIComponent` escapes U+0020 as `%20` (`UriComponent.EncodeSpace`).
