/** URL discovery of main.py (`HotelURLCollector.collect_urls`): a fallback
    chain over the crawl reply's "pages", then its "data" (a list of objects or
    an object with "urls"), then a raw scan of the serialised reply, then
    generation by the language model. Each stage runs only while no URL has
    been found; the first three keep only URLs that mention "hotel" in any
    letter case, in the order they appear.

    Everything runs inside one `try`: an exception anywhere, whether the crawl
    raised or reading its reply did, drops the URLs found so far and goes to
    generation in the `except` branch.

    The crawl (through the rate-limit wrapper) is an `Outcome<CrawlReply>`; a
    reply that raises as soon as it is read (one that is not an object, or whose
    "pages" value has no length) has the same effect as a crawl that raised and
    is written that way. The raw scan's regular expression over
    `json.dumps(result)` is external: `rawMatches` is its list of matches, or
    `None` when `json.dumps` raised. Generation is
    `get_hotel_urls_with_rate_limiting` applied to an `LlmReply`. */
module UrlDiscovery {
  import opened Wrappers
  import opened Strings
  import BookingUrls

  /** A page of "pages", or an item of a "data" list, as the loop reads it: its "url"
      string; nothing to read (no "url" key, or an item that is not an object); or a
      value whose reading raises (a "url" that is not a string, so `lower()` fails, or
      a page that `in` cannot search or index). */
  datatype Entry = Url(url: string) | NoUrl | Unreadable

  /** The "data" value of a crawl reply. */
  datatype DataField =
    | DataList(items: seq<Entry>)          // a list
    | DataUrls(urls: seq<Option<string>>)  // an object with a "urls" list; None for an item that is not a string
    | DataOther                            // anything else

  /** A crawl reply: its "pages" list and its "data" value, when it has those keys. */
  datatype CrawlReply = CrawlReply(pages: Option<seq<Entry>>, data: Option<DataField>)

  /** Which stage produced the result. */
  datatype Stage = Pages | Data | RawScan | Generation

  // ------------------------------------------------------------ the keyword filter

  /** The filter as written: "/hotel" or "hotel" in the lower-cased URL. */
  predicate IsHotelUrl(url: string)
  {
    Contains(Lower(url), "/hotel") || Contains(Lower(url), "hotel")
  }

  /** The first disjunct is subsumed: the filter is a case-insensitive "hotel" test. */
  lemma IsHotelUrlMeaning(url: string)
    ensures IsHotelUrl(url) <==> Contains(Lower(url), "hotel")
  {
    if Contains(Lower(url), "/hotel") {
      ContainsTail(Lower(url), "/hotel");
      assert "/hotel"[1..] == "hotel";
    }
  }

  function KeepHotelUrls(urls: seq<string>): seq<string>
  {
    if urls == [] then [] else (if IsHotelUrl(urls[0]) then [urls[0]] else []) + KeepHotelUrls(urls[1..])
  }

  /** The URLs of the entries that have one, in order. */
  function Present(entries: seq<Entry>): seq<string>
  {
    if entries == [] then [] else (if entries[0].Url? then [entries[0].url] else []) + Present(entries[1..])
  }

  /** The strings of a "urls" list, in order. */
  function Texts(items: seq<Option<string>>): seq<string>
  {
    if items == [] then [] else (if items[0].Some? then [items[0].value] else []) + Texts(items[1..])
  }

  lemma {:induction false} KeepAppend(a: seq<string>, b: seq<string>)
    ensures KeepHotelUrls(a + b) == KeepHotelUrls(a) + KeepHotelUrls(b)
    decreases |a|
  {
    if a == [] {
      assert a + b == b;
    } else {
      assert (a + b)[1..] == a[1..] + b;
      KeepAppend(a[1..], b);
    }
  }

  lemma {:induction false} PresentAppend(a: seq<Entry>, b: seq<Entry>)
    ensures Present(a + b) == Present(a) + Present(b)
    decreases |a|
  {
    if a == [] {
      assert a + b == b;
    } else {
      assert (a + b)[1..] == a[1..] + b;
      PresentAppend(a[1..], b);
    }
  }

  lemma {:induction false} TextsAppend(a: seq<Option<string>>, b: seq<Option<string>>)
    ensures Texts(a + b) == Texts(a) + Texts(b)
    decreases |a|
  {
    if a == [] {
      assert a + b == b;
    } else {
      assert (a + b)[1..] == a[1..] + b;
      TextsAppend(a[1..], b);
    }
  }

  /** The filter keeps exactly the hotel URLs of its input, and filtering a concatenation
      is concatenating the filtered parts, so the input order is kept. */
  lemma {:induction false} KeepHotelUrlsMeaning(urls: seq<string>)
    ensures forall u :: u in KeepHotelUrls(urls) <==> u in urls && Contains(Lower(u), "hotel")
    ensures |KeepHotelUrls(urls)| <= |urls|
    decreases |urls|
  {
    if urls != [] {
      KeepHotelUrlsMeaning(urls[1..]);
      IsHotelUrlMeaning(urls[0]);
      assert urls == [urls[0]] + urls[1..];
    }
  }

  // ------------------------------------------------------------ the stages

  /** The pages the first loop reads; none without a "pages" key. */
  function PagesOf(reply: CrawlReply): seq<Entry>
  {
    if reply.pages.Some? then reply.pages.value else []
  }

  function PagesStage(reply: CrawlReply): seq<string>
  {
    KeepHotelUrls(Present(PagesOf(reply)))
  }

  /** The data loop runs to its end without raising. */
  predicate DataReadable(reply: CrawlReply)
  {
    match reply.data
    case Some(DataList(items)) => Unreadable !in items
    case Some(DataUrls(urls)) => None !in urls
    case _ => true
  }

  function DataStage(reply: CrawlReply): seq<string>
  {
    match reply.data
    case Some(DataList(items)) => KeepHotelUrls(Present(items))
    case Some(DataUrls(urls)) => KeepHotelUrls(Texts(urls))
    case _ => []
  }

  function UrlsOf(hotels: seq<BookingUrls.Hotel>): (r: seq<string>)
    ensures |r| == |hotels| && forall k :: 0 <= k < |hotels| ==> r[k] == BookingUrls.UrlOf(hotels[k])
  {
    seq(|hotels|, k requires 0 <= k < |hotels| => BookingUrls.UrlOf(hotels[k]))
  }

  /** The generation stage: the URLs of `get_hotel_urls_with_rate_limiting`, in its order. */
  function GenerationStage(llm: BookingUrls.LlmReply): Outcome<seq<string>>
  {
    match BookingUrls.Generated(llm)
    case Err(m) => Err(m)
    case Ok(generated) => Ok(UrlsOf(BookingUrls.Truncated(BookingUrls.WithFallback(generated))))
  }

  /** What the `try` block finds before it turns to generation: the URLs of the first
      of the three stages that has any, with that stage, or the raw scan's [] when none
      has; `None` when reading the reply raised on the way. */
  function Structured(reply: CrawlReply, rawMatches: Option<seq<string>>): Option<(seq<string>, Stage)>
  {
    if Unreadable in PagesOf(reply) then None
    else if PagesStage(reply) != [] then Some((PagesStage(reply), Pages))
    else if !DataReadable(reply) then None
    else if DataStage(reply) != [] then Some((DataStage(reply), Data))
    else if rawMatches.None? then None
    else Some((KeepHotelUrls(rawMatches.value), RawScan))
  }

  /** The whole chain. Any exception goes to generation (the except branch), and so
      does finding nothing; a generation that raises propagates. */
  function Discover(crawl: Outcome<CrawlReply>, rawMatches: Option<seq<string>>, llm: BookingUrls.LlmReply): (Outcome<seq<string>>, Stage)
  {
    match crawl
    case Err(_) => (GenerationStage(llm), Generation)
    case Ok(reply) =>
      match Structured(reply, rawMatches)
      case Some((urls, stage)) => if urls != [] then (Ok(urls), stage) else (GenerationStage(llm), Generation)
      case None => (GenerationStage(llm), Generation)
  }

  // ------------------------------------------------------------ the method

  /** The loop that appends each entry's URL when it is a hotel URL; `raised` when
      reading an entry raised, which leaves the loop. */
  method KeepHotelEntries(entries: seq<Entry>) returns (raised: bool, urls: seq<string>)
    ensures raised <==> Unreadable in entries
    ensures !raised ==> urls == KeepHotelUrls(Present(entries))
  {
    urls := [];
    for i := 0 to |entries|
      invariant Unreadable !in entries[..i]
      invariant urls == KeepHotelUrls(Present(entries[..i]))
    {
      assert entries[..i + 1] == entries[..i] + [entries[i]];
      PresentAppend(entries[..i], [entries[i]]);
      KeepAppend(Present(entries[..i]), Present([entries[i]]));
      match entries[i]
      case Unreadable =>
        return true, urls;
      case NoUrl =>
      case Url(url) =>
        if Contains(Lower(url), "/hotel") || Contains(Lower(url), "hotel") {
          urls := urls + [url];
        }
    }
    assert entries[..|entries|] == entries;
    raised := false;
  }

  /** The loop over a "urls" list; `raised` at an item that is not a string. */
  method KeepHotelItems(items: seq<Option<string>>) returns (raised: bool, urls: seq<string>)
    ensures raised <==> None in items
    ensures !raised ==> urls == KeepHotelUrls(Texts(items))
  {
    urls := [];
    for i := 0 to |items|
      invariant None !in items[..i]
      invariant urls == KeepHotelUrls(Texts(items[..i]))
    {
      assert items[..i + 1] == items[..i] + [items[i]];
      TextsAppend(items[..i], [items[i]]);
      KeepAppend(Texts(items[..i]), Texts([items[i]]));
      if items[i].None? {
        return true, urls;
      }
      var url := items[i].value;
      if Contains(Lower(url), "/hotel") || Contains(Lower(url), "hotel") {
        urls := urls + [url];
      }
    }
    assert items[..|items|] == items;
    raised := false;
  }

  method KeepHotelStrings(candidates: seq<string>) returns (urls: seq<string>)
    ensures urls == KeepHotelUrls(candidates)
  {
    urls := [];
    for i := 0 to |candidates|
      invariant urls == KeepHotelUrls(candidates[..i])
    {
      assert candidates[..i + 1] == candidates[..i] + [candidates[i]];
      KeepAppend(candidates[..i], [candidates[i]]);
      var url := candidates[i];
      if Contains(Lower(url), "/hotel") || Contains(Lower(url), "hotel") {
        urls := urls + [url];
      }
    }
    assert candidates[..|candidates|] == candidates;
  }

  method Generate(llm: BookingUrls.LlmReply) returns (result: Outcome<seq<string>>)
    ensures result == GenerationStage(llm)
  {
    var hotelData := BookingUrls.GetHotelUrlsWithRateLimiting(llm);
    if hotelData.Err? {
      return Err(hotelData.message);
    }
    return Ok(UrlsOf(hotelData.value));
  }

  /** `collect_urls`. `raised` stands for an exception inside the `try`. */
  method CollectUrls(crawl: Outcome<CrawlReply>, rawMatches: Option<seq<string>>, llm: BookingUrls.LlmReply)
    returns (result: Outcome<seq<string>>, stage: Stage)
    ensures (result, stage) == Discover(crawl, rawMatches, llm)
  {
    if crawl.Err? {
      result := Generate(llm);
      return result, Generation;
    }
    var reply := crawl.value;
    var urls: seq<string> := [];
    var raised := false;
    stage := Pages;
    if reply.pages.Some? {
      raised, urls := KeepHotelEntries(reply.pages.value);
    }
    if !raised && urls == [] && reply.data.Some? {
      stage := Data;
      match reply.data.value
      case DataList(items) =>
        raised, urls := KeepHotelEntries(items);
      case DataUrls(items) =>
        raised, urls := KeepHotelItems(items);
      case DataOther =>
    }
    if !raised && urls == [] {
      if rawMatches.None? {
        raised := true;
      } else {
        stage := RawScan;
        urls := KeepHotelStrings(rawMatches.value);
      }
    }
    if raised || urls == [] {
      result := Generate(llm);
      return result, Generation;
    }
    return Ok(urls), stage;
  }

  // ------------------------------------------------------------ properties

  /** Every URL of the pages, data and raw-scan stages mentions "hotel"; the stage that
      answered is the first one with a hotel URL, reached without an exception. */
  lemma StageUrlsAreHotelUrls(reply: CrawlReply, rawMatches: Option<seq<string>>, llm: BookingUrls.LlmReply)
    ensures var (result, stage) := Discover(Ok(reply), rawMatches, llm);
      stage != Generation ==>
        result.Ok? && result.value != [] &&
        forall u :: u in result.value ==> Contains(Lower(u), "hotel")
    ensures Discover(Ok(reply), rawMatches, llm).1 == Pages <==>
      Unreadable !in PagesOf(reply) && PagesStage(reply) != []
    ensures Discover(Ok(reply), rawMatches, llm).1 == Data <==>
      Unreadable !in PagesOf(reply) && PagesStage(reply) == [] && DataReadable(reply) && DataStage(reply) != []
    ensures Discover(Ok(reply), rawMatches, llm).1 == RawScan <==>
      && Unreadable !in PagesOf(reply) && PagesStage(reply) == [] && DataReadable(reply) && DataStage(reply) == []
      && rawMatches.Some? && KeepHotelUrls(rawMatches.value) != []
  {
    if rawMatches.Some? { KeepHotelUrlsMeaning(rawMatches.value); }
    KeepHotelUrlsMeaning(Present(PagesOf(reply)));
    match reply.data {
      case Some(DataList(items)) => KeepHotelUrlsMeaning(Present(items));
      case Some(DataUrls(urls)) => KeepHotelUrlsMeaning(Texts(urls));
      case _ =>
    }
  }

  /** Generation is reached exactly when the crawl raised, reading its reply raised, or
      the three earlier stages all came up empty, and then it alone decides the result;
      before that, the language model's reply plays no part. */
  lemma GenerationOnlyAsLastResort(crawl: Outcome<CrawlReply>, rawMatches: Option<seq<string>>,
                                   llm1: BookingUrls.LlmReply, llm2: BookingUrls.LlmReply)
    ensures Discover(crawl, rawMatches, llm1).1 == Generation <==>
      || crawl.Err?
      || Unreadable in PagesOf(crawl.value)
      || (PagesStage(crawl.value) == [] &&
          (|| !DataReadable(crawl.value)
           || (DataStage(crawl.value) == [] && (rawMatches.None? || KeepHotelUrls(rawMatches.value) == []))))
    ensures Discover(crawl, rawMatches, llm1).1 == Generation ==>
      Discover(crawl, rawMatches, llm1).0 == GenerationStage(llm1)
    ensures Discover(crawl, rawMatches, llm1).1 != Generation ==>
      Discover(crawl, rawMatches, llm1) == Discover(crawl, rawMatches, llm2)
  {
  }

  /** An exception while reading the reply discards the URLs already found: the result is
      that of a crawl that raised. */
  lemma ReadErrorActsAsCrawlError(reply: CrawlReply, rawMatches: Option<seq<string>>,
                                  llm: BookingUrls.LlmReply, message: string)
    requires Structured(reply, rawMatches).None?
    ensures Discover(Ok(reply), rawMatches, llm) == Discover(Err(message), rawMatches, llm)
    ensures Discover(Ok(reply), rawMatches, llm).1 == Generation
  {
  }

  /** A hotel page followed by one whose "url" is not a string: the hotel URL is found
      first, and then dropped when the second page raises. */
  lemma UnreadablePageDiscardsFound(llm: BookingUrls.LlmReply)
    ensures var reply := CrawlReply(Some([Url("https://x.com/hotel/a"), Unreadable]), None);
      PagesStage(reply) == ["https://x.com/hotel/a"] &&
      Discover(Ok(reply), Some([]), llm) == (GenerationStage(llm), Generation)
  {
    var page := "https://x.com/hotel/a";
    assert Contains(Lower(page), "hotel") by {
      assert Lower(page)[14..19] == "hotel";
      ContainsAt(Lower(page), "hotel", 14);
    }
    IsHotelUrlMeaning(page);
    var pages := [Url(page), Unreadable];
    assert Present(pages) == [page] by {
      assert pages[1..] == [Unreadable] && pages[1..][1..] == [];
      assert Present(pages[1..]) == [];
    }
  }

  /** The generated URLs come back in generator order: the URL of each of the first
      (at most two) hotels of `get_hotel_urls`, each a valid Booking.com URL. */
  lemma GeneratedUrlsInOrder(llm: BookingUrls.LlmReply)
    requires !llm.MissingApiKey?
    ensures GenerationStage(llm).Ok?
    ensures var hotels := BookingUrls.WithFallback(BookingUrls.Generated(llm).value);
      var urls := GenerationStage(llm).value;
      && 1 <= |urls| <= BookingUrls.MaxConcurrentRequests
      && (forall k :: 0 <= k < |urls| ==> urls[k] == BookingUrls.UrlOf(hotels[k]))
      && (forall k :: 0 <= k < |urls| ==> BookingUrls.ValidHotelUrl(urls[k]))
  {
    BookingUrls.HotelUrlsMeaning(llm);
    BookingUrls.TruncatedIsPrefix(BookingUrls.WithFallback(BookingUrls.Generated(llm).value));
  }
}
