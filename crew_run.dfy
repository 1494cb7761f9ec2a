/** The result handling of the crew runner in app/hotel_crew.py
    (`HotelScrapingCrew.run` and the hotel count of `main`). The crew's tasks
    are objects whose descriptions `run` may rewrite in place; the crew itself
    (agents, `crew.kickoff`) is a framework outside the model, so what kickoff
    returned or raised is an input (`Kickoff`), as are the timestamp text and
    the JSON parser applied to a string result. */
module CrewRun {
  import opened Wrappers
  import opened Strings
  import opened Json

  const SupervisionMarker: string := "Supervise the collection of hotel data"
  const UrlSourceLine: string :=
    "URL_SOURCE: You will either get URLs from the URL collector agent or they will be provided directly."
  const EmptyNote: string := "This is fallback data as CrewAI returned empty results"
  const ErrorNote: string := "This is fallback data due to CrewAI execution error"
  const EmptyWarning: string := "No data was returned by the crew"
  /** How many URLs the rewritten task description lists. */
  const PreviewLength: nat := 3

  // ------------------------------------------------------------ the task rewrite

  /** The URL_SOURCE line that replaces the original one: the first three URLs as a
      Python list and the total. */
  function UrlSourceFor(urls: seq<string>): string
  {
    var preview := if |urls| <= PreviewLength then urls else urls[..PreviewLength];
    "URL_SOURCE: Use these pre-scraped URLs: " + ListRepr(preview) + "... (total: " + NatToString(|urls|) + ")"
  }

  predicate MentionsSupervision(description: string)
  {
    Contains(description, SupervisionMarker)
  }

  /** `description.replace(<the URL_SOURCE line>, <the one for these URLs>)` */
  function ReplaceUrlSource(description: string, urls: seq<string>): string
  {
    ReplaceAll(description, UrlSourceLine, UrlSourceFor(urls))
  }

  /** The index of the first description that mentions the supervision marker. */
  function FirstMarked(descriptions: seq<string>): (r: Option<nat>)
    ensures r.None? ==> forall k :: 0 <= k < |descriptions| ==> !MentionsSupervision(descriptions[k])
    ensures r.Some? ==> r.value < |descriptions| && MentionsSupervision(descriptions[r.value])
    ensures r.Some? ==> forall k :: 0 <= k < r.value ==> !MentionsSupervision(descriptions[k])
  {
    if descriptions == [] then None
    else if MentionsSupervision(descriptions[0]) then Some(0)
    else match FirstMarked(descriptions[1..])
      case None => None
      case Some(i) => Some(i + 1)
  }

  /** The descriptions after the rewrite loop: the first marked one has its URL_SOURCE
      line replaced; all others are as they were. */
  function Rewritten(descriptions: seq<string>, urls: seq<string>): (r: seq<string>)
    ensures |r| == |descriptions|
  {
    match FirstMarked(descriptions)
    case None => descriptions
    case Some(i) => descriptions[i := ReplaceUrlSource(descriptions[i], urls)]
  }

  class Task {
    var description: string

    constructor(description: string)
      ensures this.description == description
    {
      this.description := description;
    }
  }

  class HotelScrapingCrew {
    const startUrl: string
    const location: string
    /** The URL collection, scraping, supervision and validation tasks, in crew order. */
    const tasks: seq<Task>
    /** `self.hotel_urls`, which exists only once `run` has stored the pre-scraped URLs. */
    var hotelUrls: Option<seq<string>>

    /** The four tasks are distinct objects. */
    ghost predicate Valid()
      reads this
    {
      |tasks| == 4 && forall i, j :: 0 <= i < j < |tasks| ==> tasks[i] != tasks[j]
    }

    function Descriptions(): (r: seq<string>)
      reads this, tasks
      ensures |r| == |tasks| && forall k :: 0 <= k < |tasks| ==> r[k] == tasks[k].description
    {
      seq(|tasks|, k reads this, tasks requires 0 <= k < |tasks| => tasks[k].description)
    }

    /** `__init__`, with the tasks' prompt texts given. */
    constructor(startUrl: string, location: string, descriptions: seq<string>)
      requires |descriptions| == 4
      ensures Valid() && Descriptions() == descriptions && hotelUrls == None
      ensures this.startUrl == startUrl && this.location == location
    {
      this.startUrl := startUrl;
      this.location := location;
      var urlCollection := new Task(descriptions[0]);
      var scraping := new Task(descriptions[1]);
      var supervision := new Task(descriptions[2]);
      var validation := new Task(descriptions[3]);
      tasks := [urlCollection, scraping, supervision, validation];
      hotelUrls := None;
    }

    /** The loop over the crew's tasks that stores the URLs and rewrites the first task
        whose description mentions supervision, then stops. */
    method RewriteSupervisionTask(urls: seq<string>)
      requires Valid()
      modifies this, tasks
      ensures Valid()
      ensures Descriptions() == Rewritten(old(Descriptions()), urls)
      ensures hotelUrls == if FirstMarked(old(Descriptions())).Some? then Some(urls) else old(hotelUrls)
    {
      ghost var before := Descriptions();
      for i := 0 to |tasks|
        invariant forall k :: 0 <= k < |tasks| ==> tasks[k].description == before[k]
        invariant forall k :: 0 <= k < i ==> !MentionsSupervision(before[k])
        invariant hotelUrls == old(hotelUrls)
      {
        if MentionsSupervision(tasks[i].description) {
          assert FirstMarked(before) == Some(i);
          hotelUrls := Some(urls);
          tasks[i].description := ReplaceUrlSource(tasks[i].description, urls);
          assert Descriptions() == before[i := tasks[i].description];
          return;
        }
      }
      assert Descriptions() == before;
    }

    /** `run`: the rewrite when there are pre-scraped URLs, then the result handling. */
    method Run(urls: seq<string>, kickoff: Kickoff, parse: string -> Option<Json>, timestamp: string)
      returns (result: Json)
      requires Valid()
      modifies this, tasks
      ensures Valid()
      ensures result == RunResult(urls, kickoff, parse, timestamp)
      ensures urls != [] ==>
        && Descriptions() == Rewritten(old(Descriptions()), urls)
        && hotelUrls == if FirstMarked(old(Descriptions())).Some? then Some(urls) else old(hotelUrls)
      ensures urls == [] ==> Descriptions() == old(Descriptions()) && hotelUrls == old(hotelUrls)
    {
      if urls != [] {
        RewriteSupervisionTask(urls);
      }
      if kickoff.Raised? {
        var fallbackResult := map["status" := JStr("error"), "error" := JStr(kickoff.message)];
        if urls != [] {
          var hotels := FallbackHotels(urls, ErrorNote);
          assert hotels == HotelEntries(urls, ErrorNote);
          fallbackResult := fallbackResult["hotels" := JArr(hotels)];
        }
        fallbackResult := fallbackResult["timestamp" := JStr(timestamp)];
        return JObj(fallbackResult);
      }
      result := kickoff.result;
      if !Truthy(result) {
        if urls != [] {
          var hotels := FallbackHotels(urls, EmptyNote);
          assert hotels == HotelEntries(urls, EmptyNote);
          result := JObj(map["hotels" := JArr(hotels)]);
        } else {
          result := CompletedRecord(timestamp);
        }
      }
      if result.JStr? {
        var parsed := parse(result.s);
        if parsed.Some? {
          result := parsed.value;
        } else {
          result := JObj(map["raw_output" := result]);
        }
      }
    }
  }

  // ------------------------------------------------------------ fallback results

  /** What `crew.kickoff` did: returned a value or raised. */
  datatype Kickoff = Returned(result: Json) | Raised(message: string)

  /** The hotel name made from a URL: its last "/" segment without ".html", with
      dashes as spaces, title-cased. */
  function FallbackName(url: string): (r: string)
    ensures '/' !in r && '-' !in r
  {
    var segment := Last(Split(url, '/'));
    var stem := ReplaceAll(segment, ".html", []);
    ReplaceByNothing(segment, ".html");
    var spaced := MapChar(stem, '-', ' ');
    assert '/' !in spaced && '-' !in spaced;
    TitleKeepsNonLetters(spaced, false);
    Title(spaced)
  }

  function HotelEntry(url: string, note: string): Json
  {
    JObj(map["name" := JStr(FallbackName(url)), "url" := JStr(url), "note" := JStr(note)])
  }

  /** The loop that builds one fallback entry per pre-scraped URL. */
  method FallbackHotels(urls: seq<string>, note: string) returns (hotels: seq<Json>)
    ensures |hotels| == |urls|
    ensures forall k :: 0 <= k < |urls| ==> hotels[k] == HotelEntry(urls[k], note)
  {
    hotels := [];
    for i := 0 to |urls|
      invariant |hotels| == i
      invariant forall k :: 0 <= k < i ==> hotels[k] == HotelEntry(urls[k], note)
    {
      var hotelName := FallbackName(urls[i]);
      hotels := hotels + [JObj(map["name" := JStr(hotelName), "url" := JStr(urls[i]), "note" := JStr(note)])];
    }
  }

  function HotelEntries(urls: seq<string>, note: string): (r: seq<Json>)
    ensures |r| == |urls| && forall k :: 0 <= k < |urls| ==> r[k] == HotelEntry(urls[k], note)
  {
    seq(|urls|, k requires 0 <= k < |urls| => HotelEntry(urls[k], note))
  }

  function CompletedRecord(timestamp: string): Json
  {
    JObj(map["status" := JStr("completed"), "warning" := JStr(EmptyWarning), "timestamp" := JStr(timestamp)])
  }

  function ErrorRecord(urls: seq<string>, message: string, timestamp: string): Json
  {
    var base := map["status" := JStr("error"), "error" := JStr(message)];
    var withHotels := if urls != [] then base["hotels" := JArr(HotelEntries(urls, ErrorNote))] else base;
    JObj(withHotels["timestamp" := JStr(timestamp)])
  }

  /** The result `run` returns. */
  function RunResult(urls: seq<string>, kickoff: Kickoff, parse: string -> Option<Json>, timestamp: string): Json
  {
    match kickoff
    case Raised(message) => ErrorRecord(urls, message, timestamp)
    case Returned(returned) =>
      var filled :=
        if Truthy(returned) then returned
        else if urls != [] then JObj(map["hotels" := JArr(HotelEntries(urls, EmptyNote))])
        else CompletedRecord(timestamp);
      if filled.JStr? then
        match parse(filled.s)
        case Some(parsed) => parsed
        case None => JObj(map["raw_output" := filled])
      else filled
  }

  // ------------------------------------------------------------ the hotel count

  /** The summary of `main`: `None` when the result is falsy ("No results were
      returned"), otherwise the number of hotels it reports. */
  function HotelCount(result: Json): (r: Option<nat>)
    ensures r.Some? <==> Truthy(result)
    ensures r.Some? && !result.JObj? ==> r.value == 0
  {
    if !Truthy(result) then None
    else if !result.JObj? then Some(0)
    else if "hotels" in result.fields && result.fields["hotels"].JArr? then Some(|result.fields["hotels"].items|)
    else
      Some(|set k | k in result.fields && StartsWith(k, "hotel")|)
  }

  // ------------------------------------------------------------ properties

  /** The rewrite changes only the first task that mentions supervision, and only by
      replacing its URL_SOURCE line; every later one, marked or not, is untouched. */
  lemma RewriteOnlyFirst(descriptions: seq<string>, urls: seq<string>)
    ensures FirstMarked(descriptions).None? ==> Rewritten(descriptions, urls) == descriptions
    ensures FirstMarked(descriptions).Some? ==>
      var i := FirstMarked(descriptions).value;
      && Rewritten(descriptions, urls)[i] == ReplaceUrlSource(descriptions[i], urls)
      && (forall k :: 0 <= k < |descriptions| && k != i ==> Rewritten(descriptions, urls)[k] == descriptions[k])
      && (forall k :: 0 <= k < |descriptions| && MentionsSupervision(descriptions[k]) ==> i <= k)
  {
    var first := FirstMarked(descriptions);
    if first.Some? {
      var i := first.value;
      var r := Rewritten(descriptions, urls);
      assert r == descriptions[i := ReplaceUrlSource(descriptions[i], urls)];
    }
  }

  /** A marked task whose description lacks the URL_SOURCE line keeps its description. */
  lemma RewriteWithoutUrlSourceLine(descriptions: seq<string>, urls: seq<string>)
    requires FirstMarked(descriptions).Some?
    requires !Contains(descriptions[FirstMarked(descriptions).value], UrlSourceLine)
    ensures Rewritten(descriptions, urls) == descriptions
  {
    var i := FirstMarked(descriptions).value;
    ReplaceAbsent(descriptions[i], UrlSourceLine, UrlSourceFor(urls));
  }

  /** A URL ending in "/<slug>.html" is named after the slug, dashes read as spaces. */
  lemma FallbackNameOfSlug(p: string, slug: string)
    requires '/' !in slug && '.' !in slug
    ensures FallbackName(p + "/" + slug + ".html") == Title(MapChar(slug, '-', ' '))
  {
    assert p + "/" + slug + ".html" == p + ['/'] + (slug + ".html");
    assert '/' !in slug + ".html";
    SplitLast(p, '/', slug + ".html");
    ReplaceTrailing(slug, ".html");
  }

  /** Title-casing the spaced slug of the Cape Grace URL. */
  lemma CapeGraceTitle()
    ensures Title("cape grace") == "Cape Grace"
  {
    assert "cape grace" == "cape" + " grace";
    TitleAppend("cape", " grace", false);
    assert TitleFrom("cape", false) == "Cape";
    assert TitleFrom(" grace", false) == " Grace";
    assert "Cape" + " Grace" == "Cape Grace";
  }

  /** The fallback name of one of the Cape Town hotels the crew is given. */
  lemma CapeGraceName()
    ensures FallbackName("https://www.booking.com/hotel/za/cape-grace.html") == "Cape Grace"
  {
    assert "https://www.booking.com/hotel/za/cape-grace.html" ==
      "https://www.booking.com/hotel/za" + "/" + "cape-grace" + ".html";
    FallbackNameOfSlug("https://www.booking.com/hotel/za", "cape-grace");
    assert MapChar("cape-grace", '-', ' ') == "cape grace";
    CapeGraceTitle();
  }

  /** An empty kickoff result with pre-scraped URLs becomes one hotel per URL, in
      order, each carrying its own URL and the empty-result note. */
  lemma EmptyResultWithUrls(urls: seq<string>, returned: Json, parse: string -> Option<Json>, timestamp: string)
    requires urls != [] && !Truthy(returned)
    ensures var result := RunResult(urls, Returned(returned), parse, timestamp);
      && result.JObj? && result.fields.Keys == {"hotels"}
      && result.fields["hotels"].JArr?
      && |result.fields["hotels"].items| == |urls|
      && forall k :: 0 <= k < |urls| ==>
           Get(result.fields["hotels"].items[k], "url") == JStr(urls[k]) &&
           Get(result.fields["hotels"].items[k], "name") == JStr(FallbackName(urls[k])) &&
           Get(result.fields["hotels"].items[k], "note") == JStr(EmptyNote)
  {
  }

  /** An empty kickoff result without pre-scraped URLs becomes a completed status
      with a warning. */
  lemma EmptyResultWithoutUrls(returned: Json, parse: string -> Option<Json>, timestamp: string)
    requires !Truthy(returned)
    ensures var result := RunResult([], Returned(returned), parse, timestamp);
      && result.JObj? && result.fields.Keys == {"status", "warning", "timestamp"}
      && Get(result, "status") == JStr("completed")
      && Get(result, "warning") == JStr(EmptyWarning)
      && Get(result, "timestamp") == JStr(timestamp)
  {
  }

  /** When kickoff raises, the result records the error and the time, and lists the
      pre-scraped URLs as hotels exactly when there are any. */
  lemma ErrorResult(urls: seq<string>, message: string, parse: string -> Option<Json>, timestamp: string)
    ensures var result := RunResult(urls, Raised(message), parse, timestamp);
      && result.JObj?
      && Get(result, "status") == JStr("error")
      && Get(result, "error") == JStr(message)
      && Get(result, "timestamp") == JStr(timestamp)
      && ("hotels" in result.fields <==> urls != [])
      && (urls != [] ==> result.fields["hotels"] == JArr(HotelEntries(urls, ErrorNote)))
  {
  }

  /** A truthy result that is not a string comes back as it is; a string comes back
      parsed, or wrapped under "raw_output" when it is not JSON. */
  lemma ReturnedResult(urls: seq<string>, returned: Json, parse: string -> Option<Json>, timestamp: string)
    requires Truthy(returned)
    ensures !returned.JStr? ==> RunResult(urls, Returned(returned), parse, timestamp) == returned
    ensures returned.JStr? && parse(returned.s).Some? ==>
      RunResult(urls, Returned(returned), parse, timestamp) == parse(returned.s).value
    ensures returned.JStr? && parse(returned.s).None? ==>
      RunResult(urls, Returned(returned), parse, timestamp) == JObj(map["raw_output" := returned])
  {
  }

  /** Whenever `run` falls back with pre-scraped URLs, `main` counts one hotel per URL. */
  lemma FallbackCountsEveryUrl(urls: seq<string>, kickoff: Kickoff, parse: string -> Option<Json>, timestamp: string)
    requires urls != []
    requires kickoff.Raised? || !Truthy(kickoff.result)
    ensures HotelCount(RunResult(urls, kickoff, parse, timestamp)) == Some(|urls|)
  {
    if kickoff.Raised? {
      ErrorResult(urls, kickoff.message, parse, timestamp);
    } else {
      EmptyResultWithUrls(urls, kickoff.result, parse, timestamp);
    }
  }

  /** Without pre-scraped URLs, an error or an empty kickoff result counts no hotel. */
  lemma FallbackWithoutUrlsCountsNone(kickoff: Kickoff, parse: string -> Option<Json>, timestamp: string)
    requires kickoff.Raised? || !Truthy(kickoff.result)
    ensures HotelCount(RunResult([], kickoff, parse, timestamp)) == Some(0)
  {
    var result := RunResult([], kickoff, parse, timestamp);
    assert result.JObj? && result.fields.Keys <= {"status", "error", "warning", "timestamp"};
    assert "status" in result.fields && "hotels" !in result.fields;
    forall k | k in result.fields ensures !StartsWith(k, "hotel") {
      assert k[0] != 'h';
    }
    var keys := set k | k in result.fields && StartsWith(k, "hotel");
    assert keys == {};
  }

  /** Without a "hotels" list, the count is the number of keys that start with "hotel". */
  lemma CountByKeys(result: Json)
    requires result.JObj? && result.fields != map[]
    requires !("hotels" in result.fields && result.fields["hotels"].JArr?)
    ensures HotelCount(result) == Some(|set k | k in result.fields && StartsWith(k, "hotel")|)
    ensures HotelCount(result).value <= |result.fields|
    ensures HotelCount(result).value == 0 <==> forall k :: k in result.fields ==> !StartsWith(k, "hotel")
    ensures "hotels" in result.fields ==> HotelCount(result).value >= 1
  {
    var hotelKeys := set k | k in result.fields && StartsWith(k, "hotel");
    assert hotelKeys <= result.fields.Keys;
    SubsetCard(hotelKeys, result.fields.Keys);
    if "hotels" in result.fields {
      assert "hotels"[..5] == "hotel";
      assert "hotels" in hotelKeys;
    }
    if hotelKeys == {} {
      assert forall k :: k in result.fields ==> k !in hotelKeys;
    } else {
      var k :| k in hotelKeys;
    }
  }

  lemma SubsetCard<X>(a: set<X>, b: set<X>)
    requires a <= b
    ensures |a| <= |b|
  {
    if a != {} {
      var x :| x in a;
      SubsetCard(a - {x}, b - {x});
    }
  }
}
