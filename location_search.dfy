/** The location search box: submitting non-empty text navigates to the
    route with its `{urlSearch}` placeholder replaced by the trimmed text;
    the Go button is disabled while the text equals the current search;
    "Use My Location" navigates to the located address or, on failure,
    turns into a disabled error button. */
module LocationSearch {
  import opened Wrappers
  import opened JsStrings

  const UrlSearch: string := "{urlSearch}"

  /** The route with its first placeholder replaced by `text`, as
      `route.replace('{urlSearch}', text)` does. */
  function RouteTo(route: string, text: string): string {
    ReplaceFirst(route, UrlSearch, text)
  }

  /** The target of a submit. */
  function SubmitTarget(route: string, inputText: string): string {
    RouteTo(route, Trim(inputText))
  }

  /** A submit splices the trimmed text in place of the first placeholder,
      or leaves a route without one unchanged, when the text has no `$`
      replacement pattern. */
  lemma SubmitSplicesText(route: string, inputText: string)
    requires '$' !in Trim(inputText)
    ensures IndexOf(route, UrlSearch, 0).None? ==> SubmitTarget(route, inputText) == route
    ensures IndexOf(route, UrlSearch, 0).Some? ==>
      var i := IndexOf(route, UrlSearch, 0).value;
      && SubmitTarget(route, inputText) == route[..i] + Trim(inputText) + route[i + |UrlSearch|..]
      && forall j | 0 <= j < i :: !OccursAt(route, UrlSearch, j)
  {
    ReplaceFirstLiteral(route, UrlSearch, Trim(inputText));
  }

  /** Text made only of white space passes the non-empty guard and puts
      the empty string in place of the placeholder. */
  lemma WhiteSpaceSubmitsEmpty(route: string, inputText: string)
    requires forall i | 0 <= i < |inputText| :: IsWhiteSpace(inputText[i])
    ensures SubmitTarget(route, inputText) == RouteTo(route, "")
  {
    TrimEmpty(inputText);
  }

  /** The search box's state and the navigations it has made. */
  class SearchBox {
    var searchText: string
    var inputText: string
    var geolocating: bool
    var geolocationError: bool
    var navigations: seq<string>

    /** `inputText` starts as the context's search text. */
    constructor (searchText: string)
      ensures this.searchText == searchText && inputText == searchText
      ensures !geolocating && !geolocationError && navigations == []
    {
      this.searchText := searchText;
      inputText := searchText;
      geolocating := false;
      geolocationError := false;
      navigations := [];
    }

    /** The Go button is disabled while the text is the current search. */
    predicate GoDisabled()
      reads this
    {
      inputText == searchText
    }

    /** The context's search text changed: the input follows it, which
        disables the Go button. */
    method SearchTextChanged(text: string)
      modifies this
      ensures searchText == text && inputText == text && GoDisabled()
      ensures geolocating == old(geolocating) && geolocationError == old(geolocationError)
      ensures navigations == old(navigations)
    {
      searchText := text;
      inputText := text;
    }

    /** The user typed: the Go button is enabled exactly when the new text
        differs from the current search. */
    method InputChanged(value: string)
      modifies this
      ensures inputText == value && searchText == old(searchText)
      ensures GoDisabled() <==> value == searchText
      ensures geolocating == old(geolocating) && geolocationError == old(geolocationError)
      ensures navigations == old(navigations)
    {
      inputText := value;
    }

    /** The form's `onSubmit`: empty text does nothing; otherwise the
        geolocation error is cleared and the route is navigated to. */
    method Submit(route: string) returns (target: Option<string>)
      modifies this
      ensures inputText == "" ==> (target == None && geolocationError == old(geolocationError)
        && navigations == old(navigations))
      ensures inputText != "" ==> (target == Some(SubmitTarget(route, inputText)) && !geolocationError
        && navigations == old(navigations) + [target.value])
      ensures inputText == old(inputText) && searchText == old(searchText) && geolocating == old(geolocating)
    {
      target := None;
      if inputText != "" {
        geolocationError := false;
        target := Some(RouteTo(route, Trim(inputText)));
        navigations := navigations + [target.value];
      }
    }

    /** "Use My Location" is offered only when the browser has geolocation
        and no earlier attempt failed; a click starts locating. */
    method UseMyLocation(hasGeolocation: bool) returns (started: bool)
      modifies this
      ensures started <==> hasGeolocation && !old(geolocationError)
      ensures started ==> geolocating
      ensures !started ==> geolocating == old(geolocating)
      ensures inputText == old(inputText) && searchText == old(searchText)
      ensures geolocationError == old(geolocationError) && navigations == old(navigations)
    {
      started := hasGeolocation && !geolocationError;
      if started {
        geolocating := true;
      }
    }

    /** The locator found an address: navigate to it. */
    method LocationFound(route: string, address: string)
      modifies this
      ensures !geolocating && navigations == old(navigations) + [RouteTo(route, address)]
      ensures inputText == old(inputText) && searchText == old(searchText)
      ensures geolocationError == old(geolocationError)
    {
      geolocating := false;
      navigations := navigations + [RouteTo(route, address)];
    }

    /** Geolocation failed: locating stops and the error button replaces
        "Use My Location". */
    method LocationFailed()
      modifies this
      ensures !geolocating && geolocationError
      ensures inputText == old(inputText) && searchText == old(searchText) && navigations == old(navigations)
    {
      geolocating := false;
      geolocationError := true;
    }
  }
}
