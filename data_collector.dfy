/** The data-collection driver of main.py (`HotelDataCollector`): either the
    pre-scraped records, passed through, or URL discovery followed by one scrape
    per URL for at most the first three URLs, keeping the records that pass
    validation. The collector's `results` list is a field that `collect_data`
    appends to in place and returns.

    `replies(k)` is the outcome of the k-th page scrape of a call; the inputs of
    URL discovery are those of `UrlDiscovery.CollectUrls`. */
module DataCollector {
  import opened Wrappers
  import opened Json
  import UrlDiscovery
  import BookingUrls
  import opened PageScraper

  const UrlLimit: nat := 3

  /** An entry of `results`: a pre-scraped record as loaded, or a record built here. */
  datatype Row = Loaded(record: Json) | Collected(info: HotelInfo)

  /** `_validate_hotel_info`: "hotel_name" and "url" present and non-empty. */
  predicate ValidHotelInfo(info: HotelInfo)
  {
    info.hotelName != [] && info.url != []
  }

  /** The first `UrlLimit` URLs. */
  function FirstUrls(urls: seq<string>): (r: seq<string>)
    ensures |r| == if |urls| < UrlLimit then |urls| else UrlLimit
    ensures r == urls[..|r|]
  {
    if |urls| <= UrlLimit then urls else urls[..UrlLimit]
  }

  /** The scrape of each URL, the k-th with the k-th reply. */
  function Scrapes(urls: seq<string>, replies: nat -> Outcome<ScrapeReply>, m: Matchers): (r: seq<Option<HotelInfo>>)
    ensures |r| == |urls| && forall k :: 0 <= k < |urls| ==> r[k] == Scrape(urls[k], replies(k), m)
  {
    seq(|urls|, k requires 0 <= k < |urls| => Scrape(urls[k], replies(k), m))
  }

  /** The row kept for one scrape, if any. */
  function KeptFor(info: Option<HotelInfo>): seq<Row>
  {
    if info.Some? && ValidHotelInfo(info.value) then [Collected(info.value)] else []
  }

  /** The rows appended for the first `n` scrapes. */
  function Kept(infos: seq<Option<HotelInfo>>, n: nat): seq<Row>
    requires n <= |infos|
  {
    if n == 0 then [] else Kept(infos, n - 1) + KeptFor(infos[n - 1])
  }

  lemma AppendKept(earlier: seq<Row>, infos: seq<Option<HotelInfo>>, i: nat)
    requires i < |infos|
    ensures earlier + Kept(infos, i + 1) == (earlier + Kept(infos, i)) + KeptFor(infos[i])
  {
  }

  /** Every pre-scraped entry supports `.get`, that is, is an object. */
  predicate AllRecords(data: seq<Json>)
  {
    forall k :: 0 <= k < |data| ==> data[k].JObj?
  }

  function LoadedRows(data: seq<Json>): (r: seq<Row>)
    ensures |r| == |data| && forall k :: 0 <= k < |data| ==> r[k] == Loaded(data[k])
  {
    seq(|data|, k requires 0 <= k < |data| => Loaded(data[k]))
  }

  class HotelDataCollector {
    /** Pre-scraped records; `None` and `[]` alike mean none. */
    const scrapedData: seq<Json>
    var results: seq<Row>

    constructor(scrapedData: seq<Json>)
      ensures this.scrapedData == scrapedData && results == []
    {
      this.scrapedData := scrapedData;
      results := [];
    }

    /** `collect_data`. A pre-scraped entry that is not an object makes the URL
        listing raise, so the call returns [] before `results` is touched; a
        discovery failure or an empty URL list also returns [] and leaves it. */
    method CollectData(crawl: Outcome<UrlDiscovery.CrawlReply>, rawMatches: Option<seq<string>>, llm: BookingUrls.LlmReply,
                       replies: nat -> Outcome<ScrapeReply>, m: Matchers)
      returns (r: seq<Row>)
      modifies this
      ensures scrapedData != [] && AllRecords(scrapedData) ==> results == LoadedRows(scrapedData) && r == results
      ensures scrapedData != [] && !AllRecords(scrapedData) ==> r == [] && results == old(results)
      ensures scrapedData == [] ==>
        var (urls, _) := UrlDiscovery.Discover(crawl, rawMatches, llm);
        if urls.Err? || urls.value == [] then r == [] && results == old(results)
        else results == old(results) + Kept(Scrapes(FirstUrls(urls.value), replies, m), |FirstUrls(urls.value)|) && r == results
    {
      if scrapedData != [] {
        for k := 0 to |scrapedData|
          invariant AllRecords(scrapedData[..k])
        {
          if !scrapedData[k].JObj? {
            return [];
          }
        }
        assert scrapedData[..|scrapedData|] == scrapedData;
        results := LoadedRows(scrapedData);
        return results;
      }
      var found, _ := UrlDiscovery.CollectUrls(crawl, rawMatches, llm);
      if found.Err? || found.value == [] {
        return [];
      }
      var hotelUrls := FirstUrls(found.value);
      ScrapeUrls(hotelUrls, replies, m);
      return results;
    }

    /** The loop of `collect_data` over the URLs to scrape. */
    method ScrapeUrls(hotelUrls: seq<string>, replies: nat -> Outcome<ScrapeReply>, m: Matchers)
      modifies this
      ensures results == old(results) + Kept(Scrapes(hotelUrls, replies, m), |hotelUrls|)
    {
      ghost var infos: seq<Option<HotelInfo>> := Scrapes(hotelUrls, replies, m);
      for i := 0 to |hotelUrls|
        invariant results == old(results) + Kept(infos, i)
      {
        var hotelInfo := Scrape(hotelUrls[i], replies(i), m);
        assert hotelInfo == infos[i];
        AppendKept(old(results), infos, i);
        KeepIfValid(hotelInfo);
      }
    }

    /** Appends a scraped record that passes validation. */
    method KeepIfValid(hotelInfo: Option<HotelInfo>)
      modifies this
      ensures results == old(results) + KeptFor(hotelInfo)
    {
      if hotelInfo.Some? && ValidHotelInfo(hotelInfo.value) {
        results := results + [Collected(hotelInfo.value)];
      }
    }
  }

  // ------------------------------------------------------------ properties

  /** A built record fails validation only when the URL it was built for is empty. */
  lemma ScrapedPassesValidation(url: string, reply: Outcome<ScrapeReply>, m: Matchers)
    requires Scrape(url, reply, m).Some?
    ensures ValidHotelInfo(Scrape(url, reply, m).value) <==> url != []
  {
    ScrapeMeaning(url, reply, m);
  }

  /** The rows kept: at most one per scrape, each a valid record one of the scrapes built. */
  lemma {:induction false} KeptMeaning(infos: seq<Option<HotelInfo>>, n: nat)
    requires n <= |infos|
    ensures |Kept(infos, n)| <= n
    ensures forall k :: 0 <= k < |Kept(infos, n)| ==>
      Kept(infos, n)[k].Collected? && ValidHotelInfo(Kept(infos, n)[k].info) && Some(Kept(infos, n)[k].info) in infos[..n]
  {
    if n > 0 {
      KeptMeaning(infos, n - 1);
      assert infos[..n] == infos[..n - 1] + [infos[n - 1]];
    }
  }

  /** When every scrape built a valid record, each gives its row, in order. */
  lemma {:induction false} KeptInOrder(infos: seq<Option<HotelInfo>>, n: nat)
    requires n <= |infos|
    requires forall k :: 0 <= k < n ==> infos[k].Some? && ValidHotelInfo(infos[k].value)
    ensures |Kept(infos, n)| == n
    ensures forall k :: 0 <= k < n ==> Kept(infos, n)[k] == Collected(infos[k].value)
  {
    if n > 0 {
      KeptInOrder(infos, n - 1);
      assert KeptFor(infos[n - 1]) == [Collected(infos[n - 1].value)];
    }
  }

  /** Every row collected from the first `n` URLs is a valid record built for one of them. */
  lemma CollectedFromUrls(urls: seq<string>, replies: nat -> Outcome<ScrapeReply>, m: Matchers, n: nat)
    requires n <= |urls|
    ensures var rows := Kept(Scrapes(urls, replies, m), n);
      && |rows| <= n
      && forall k :: 0 <= k < |rows| ==> rows[k].Collected? && ValidHotelInfo(rows[k].info) && rows[k].info.url in urls[..n]
  {
    var infos := Scrapes(urls, replies, m);
    KeptMeaning(infos, n);
    forall j | 0 <= j < n && infos[j].Some? ensures infos[j].value.url == urls[j] {
      ScrapeMeaning(urls[j], replies(j), m);
    }
  }

  /** When every scrape either raised or returned something truthy and no URL is empty,
      every URL yields exactly one row, the record built for it, in URL order. */
  lemma CollectedInOrder(urls: seq<string>, replies: nat -> Outcome<ScrapeReply>, m: Matchers, n: nat)
    requires n <= |urls|
    requires forall k :: 0 <= k < n ==> urls[k] != [] && (replies(k).Err? || PageScraper.Truthy(replies(k).value))
    ensures var rows := Kept(Scrapes(urls, replies, m), n);
      && |rows| == n
      && forall k :: 0 <= k < n ==> rows[k] == Collected(Scrape(urls[k], replies(k), m).value) && rows[k].info.url == urls[k]
  {
    var infos := Scrapes(urls, replies, m);
    forall k | 0 <= k < n ensures infos[k].Some? && ValidHotelInfo(infos[k].value) && infos[k].value.url == urls[k] {
      ScrapeMeaning(urls[k], replies(k), m);
    }
    KeptInOrder(infos, n);
  }

  /** A reply that is falsy is skipped without stopping the others. */
  lemma FalsyReplySkipped(urls: seq<string>, replies: nat -> Outcome<ScrapeReply>, m: Matchers, n: nat)
    requires 0 < n <= |urls| && replies(n - 1).Ok? && !PageScraper.Truthy(replies(n - 1).value)
    ensures Kept(Scrapes(urls, replies, m), n) == Kept(Scrapes(urls, replies, m), n - 1)
  {
    ScrapeMeaning(urls[n - 1], replies(n - 1), m);
  }
}
