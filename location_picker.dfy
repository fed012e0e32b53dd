/**
 * The location field of the expense form: a place search whose results
 * become the expense's location, and a remembered "home" location.
 *
 * The search service is a parameter that maps a query to its results, or
 * to None when the request fails; `parseFloat` on the coordinates is a
 * parameter as well. The stored home entry is the raw text or None, and
 * `parse` stands for `JSON.parse` (None when it throws).
 */
module LocationPicker {
  import opened Types
  import opened Text

  /** One search result: the place's display name and its coordinates as text. */
  datatype PlaceResult = PlaceResult(placeId: int, displayName: string, lat: string, lon: string)

  // ----- the place name -----

  const MaxParts := 3

  /** The first three comma-separated parts of the display name, joined again and trimmed: the name keeps at most two commas. */
  function PlaceName(displayName: string): (name: string)
    ensures CountChar(name, ',') <= 2
  {
    var parts := Split(displayName, ',');
    var kept := Take(parts, MaxParts);
    SplitPieces(displayName, ',');
    assert forall i :: 0 <= i < |kept| ==> kept[i] == parts[i];
    JoinCount(kept, ',');
    TrimCount(Join(kept, ','), ',');
    Trim(Join(kept, ','))
  }

  /** A join of the first `k` pieces is the start of the join of all of them, followed by a separator when pieces remain. */
  lemma {:induction false} JoinPrefix(parts: seq<string>, k: nat, sep: char)
    requires 1 <= k <= |parts|
    ensures k < |parts| ==> Join(parts, sep) == Join(parts[..k], sep) + [sep] + Join(parts[k..], sep)
    ensures k == |parts| ==> Join(parts[..k], sep) == Join(parts, sep)
  {
    assert parts[..|parts|] == parts;
    if k > 1 {
      JoinPrefix(parts[1..], k - 1, sep);
      assert parts[1..][..k - 1] == parts[..k][1..];
      assert parts[1..][k - 1..] == parts[k..];
    }
  }

  /** A display name with at most two commas is only trimmed. */
  lemma PlaceNameShort(displayName: string)
    requires CountChar(displayName, ',') <= 2
    ensures PlaceName(displayName) == Trim(displayName)
  {
    var parts := Split(displayName, ',');
    SplitCount(displayName, ',');
    assert Take(parts, MaxParts) == parts;
    JoinSplit(displayName, ',');
  }

  /**
   * Otherwise the name is the trimmed text before the third comma: the
   * display name is that text, a comma, and the rest.
   */
  lemma PlaceNameCut(displayName: string)
    requires CountChar(displayName, ',') > 2
    ensures exists head, rest :: displayName == head + [','] + rest && CountChar(head, ',') == 2
                                 && PlaceName(displayName) == Trim(head)
  {
    var parts := Split(displayName, ',');
    SplitCount(displayName, ',');
    JoinSplit(displayName, ',');
    JoinPrefix(parts, MaxParts, ',');
    assert Take(parts, MaxParts) == parts[..MaxParts];
    var head := Join(parts[..MaxParts], ',');
    var rest := Join(parts[MaxParts..], ',');
    SplitPieces(displayName, ',');
    JoinCount(parts[..MaxParts], ',');
    assert displayName == head + [','] + rest;
  }

  // ----- the stored home -----

  /** `getHomeLocation`: nothing stored, an empty entry, or an entry that does not parse all give no home. */
  function HomeFrom(raw: Option<string>, parse: string -> Option<Location>): (home: Option<Location>)
    ensures raw.None? || raw.value == "" ==> home.None?
    ensures home.Some? ==> raw.Some? && parse(raw.value) == home
  {
    if raw.None? || raw.value == "" then None else parse(raw.value)
  }

  // ----- the picker -----

  /** The query length below which no search is made, after trimming. */
  const MinQueryLength := 3

  class Picker {
    var search: string
    var results: seq<PlaceResult>
    var searching: bool
    var showResults: bool
    var homeLocation: Option<Location>
    /** The stored home entry, as written by `saveHomeLocation`. */
    var storedHome: Option<Location>

    /** Empty search, no results; the home is read from storage by the mount effect. */
    constructor(raw: Option<string>, parse: string -> Option<Location>)
      ensures search == "" && results == [] && !searching && !showResults
      ensures homeLocation == HomeFrom(raw, parse) && storedHome == HomeFrom(raw, parse)
    {
      search, results, searching, showResults := "", [], false, false;
      homeLocation := HomeFrom(raw, parse);
      storedHome := homeLocation;
    }

    method SetSearch(text: string)
      modifies this
      ensures search == text
      ensures results == old(results) && showResults == old(showResults) && homeLocation == old(homeLocation)
      ensures storedHome == old(storedHome)
    {
      search := text;
    }

    /**
     * `doSearch`: a query shorter than three characters after trimming
     * clears the results and sends nothing; otherwise the results are the
     * service's answer and are shown, or are cleared when it fails.
     */
    method DoSearch(query: string, service: string -> Option<seq<PlaceResult>>) returns (sent: bool)
      modifies this
      ensures sent <==> |Trim(query)| >= MinQueryLength
      ensures !sent ==> results == [] && showResults == old(showResults)
      ensures sent && service(query).Some? ==> results == service(query).value && showResults
      ensures sent && service(query).None? ==> results == [] && showResults == old(showResults)
      ensures !searching && search == old(search) && homeLocation == old(homeLocation) && storedHome == old(storedHome)
    {
      if |Trim(query)| < MinQueryLength {
        results := [];
        searching := false;
        return false;
      }
      searching := true;
      var response := service(query);
      if response.Some? {
        results := response.value;
        showResults := true;
      } else {
        results := [];
      }
      searching := false;
      sent := true;
    }

    /** The debounce timeout firing: the search runs on the current text. */
    method DebounceFires(service: string -> Option<seq<PlaceResult>>) returns (sent: bool)
      modifies this
      ensures sent <==> |Trim(search)| >= MinQueryLength
      ensures !sent ==> results == []
      ensures sent && service(search).Some? ==> results == service(search).value && showResults
      ensures search == old(search) && homeLocation == old(homeLocation) && storedHome == old(storedHome)
    {
      sent := DoSearch(search, service);
    }

    /** Focusing the field shows the results again when there are some. */
    method Focus()
      modifies this
      ensures showResults == (old(showResults) || results != [])
      ensures search == old(search) && results == old(results) && homeLocation == old(homeLocation)
      ensures storedHome == old(storedHome)
    {
      if |results| > 0 {
        showResults := true;
      }
    }

    /** A click outside the picker hides the results. */
    method ClickOutside()
      modifies this
      ensures !showResults
      ensures search == old(search) && results == old(results) && homeLocation == old(homeLocation)
      ensures storedHome == old(storedHome)
    {
      showResults := false;
    }

    /**
     * `selectResult`: the chosen place becomes the location, named after
     * its first three parts; the search text is cleared and the results
     * hidden.
     */
    method SelectResult(r: PlaceResult, parseFloat: string -> Coord) returns (chosen: Location)
      modifies this
      ensures chosen == Location(PlaceName(r.displayName), parseFloat(r.lat), parseFloat(r.lon))
      ensures search == "" && !showResults
      ensures results == old(results) && homeLocation == old(homeLocation) && storedHome == old(storedHome)
    {
      chosen := Location(PlaceName(r.displayName), parseFloat(r.lat), parseFloat(r.lon));
      search, showResults := "", false;
    }

    /** `handleUseHome`: the home becomes the location when there is one; otherwise nothing happens. */
    method HandleUseHome() returns (chosen: Option<Location>)
      ensures chosen == homeLocation
    {
      chosen := None;
      if homeLocation.Some? {
        chosen := homeLocation;
      }
    }

    /** `handleSaveAsHome`: only a selected location is stored and remembered as the home. */
    method HandleSaveAsHome(value: Option<Location>)
      modifies this
      ensures value.Some? ==> homeLocation == value && storedHome == value
      ensures value.None? ==> homeLocation == old(homeLocation) && storedHome == old(storedHome)
      ensures search == old(search) && results == old(results) && showResults == old(showResults)
    {
      if value.Some? {
        storedHome := value;
        homeLocation := value;
      }
    }
  }
}
