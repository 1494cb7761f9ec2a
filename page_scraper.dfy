/** The page scraper of main.py (`HotelScraper`): one scrape request per hotel
    page, a title derived from the URL when the reply has none, and
    first-match-wins extraction of the address and the price.

    The scrape request (through the rate-limit wrapper) is an
    `Outcome<ScrapeReply>`. The address and price patterns are external
    matchers: `findall(k, content)` is the list of first-group matches of the
    k-th pattern, in declared order. The domain pattern of the title fallback
    is written out. */
module PageScraper {
  import opened Wrappers
  import opened Strings

  const AddressPatternCount: nat := 3
  const PricePatternCount: nat := 5
  const AddressNotFound: string := "Address not found"
  const PriceNotFound: string := "Price not found"
  const UnknownHotel: string := "Unknown Hotel"
  const NoDescription: string := "No description available"

  /** What a scrape request returned: an object (a missing or null text field reads
      as "") or some other value, which is truthy or not. */
  datatype ScrapeReply = Dict(fields: map<string, string>) | NonDict(truthy: bool)

  /** The record the scraper builds. */
  datatype HotelInfo = HotelInfo(hotelName: string, description: string, url: string, address: string, price: string)

  /** The address and price matchers. */
  datatype Matchers = Matchers(address: (nat, string) -> seq<string>, price: (nat, string) -> seq<string>)

  // ------------------------------------------------------------ title from the URL

  /** The separators `-` and `_` become spaces. */
  function Spaced(s: string): string
  {
    MapChar(MapChar(s, '-', ' '), '_', ' ')
  }

  /** The last non-empty "/"-segment (the one before a trailing "/"), cut at its first "."
      and with its separators made spaces. */
  function PathName(url: string): string
    requires |Split(url, '/')| >= 2
  {
    var parts := Split(url, '/');
    var segment := if Last(parts) != [] then Last(parts) else parts[|parts| - 2];
    Spaced(Split(segment, '.')[0])
  }

  function CapitalizeAll(words: seq<string>): (r: seq<string>)
    ensures |r| == |words| && forall k :: 0 <= k < |words| ==> r[k] == Capitalize(words[k])
  {
    seq(|words|, k requires 0 <= k < |words| => Capitalize(words[k]))
  }

  /** The title read from the path, "" when the URL has no "/" or the segment has no word. */
  function NameFromPath(url: string): string
  {
    if |Split(url, '/')| >= 2 then Join(CapitalizeAll(Words(PathName(url))), " ") else ""
  }

  /** Length of the longest prefix of `s` without "/". */
  function HostLength(s: string): (n: nat)
    ensures n <= |s| && '/' !in s[..n]
    ensures n < |s| ==> s[n] == '/'
  {
    if s == [] || s[0] == '/' then 0 else 1 + HostLength(s[1..])
  }

  /** `https?://(?:www\.)?([^/]+)` matched at the start of `s`: the group, if it matches.
      The optional "www." is tried first and given up when no host character follows it. */
  function DomainAt(s: string): Option<string>
  {
    var rest :=
      if StartsWith(s, "https://") then Some(s[8..])
      else if StartsWith(s, "http://") then Some(s[7..])
      else None;
    if rest.None? then None
    else
      var r := rest.value;
      if StartsWith(r, "www.") && HostLength(r[4..]) > 0 then Some(r[4..][..HostLength(r[4..])])
      else if HostLength(r) > 0 then Some(r[..HostLength(r)])
      else None
  }

  /** `re.search` of the domain pattern: the first position where it matches. */
  function SearchDomain(s: string): (r: Option<string>)
    ensures r.Some? ==> r.value != [] && '/' !in r.value
    decreases |s|
  {
    if s == [] then None
    else if DomainAt(s).Some? then DomainAt(s)
    else SearchDomain(s[1..])
  }

  /** `_extract_title_from_url` */
  function TitleFromUrl(url: string): string
  {
    var name := NameFromPath(url);
    if name != [] then name
    else match SearchDomain(url)
      case Some(host) => "Hotel from " + host
      case None => UnknownHotel
  }

  lemma IsWordCapitalize(w: string)
    requires IsWord(w)
    ensures IsWord(Capitalize(w))
  {
  }

  /** The title is never empty. When the path has a word it is the path's words, each
      capitalised, joined by single spaces; otherwise it names the host of the first
      http(s) URL in the text, or is "Unknown Hotel". */
  lemma TitleFromUrlMeaning(url: string)
    ensures TitleFromUrl(url) != []
    ensures NameFromPath(url) != [] <==> |Split(url, '/')| >= 2 && Words(PathName(url)) != []
    ensures NameFromPath(url) != [] ==>
      && TitleFromUrl(url) == NameFromPath(url)
      && IsNormalized(TitleFromUrl(url))
      && Words(TitleFromUrl(url)) == CapitalizeAll(Words(PathName(url)))
    ensures NameFromPath(url) == [] ==>
      TitleFromUrl(url) == (if SearchDomain(url).Some? then "Hotel from " + SearchDomain(url).value else UnknownHotel)
  {
    if |Split(url, '/')| >= 2 {
      var ws := CapitalizeAll(Words(PathName(url)));
      forall k | 0 <= k < |ws| ensures IsWord(ws[k]) {
        IsWordCapitalize(Words(PathName(url))[k]);
      }
      JoinNormalized(ws);
      WordsOfJoin(ws);
    }
  }

  /** A URL whose last segment is non-empty is named after that segment. */
  lemma NameOfLastSegment(p: string, segment: string)
    requires '/' !in segment && segment != []
    ensures NameFromPath(p + ['/'] + segment) == Join(CapitalizeAll(Words(Spaced(Split(segment, '.')[0]))), " ")
  {
    SplitLast(p, '/', segment);
  }

  lemma ThePlazaStem()
    ensures Split("the-plaza.html", '.')[0] == "the-plaza"
  {
    assert "the-plaza.html" == "the-plaza" + ['.'] + "html";
    SplitFirst("the-plaza", '.', "html");
  }

  lemma ThePlazaWords()
    ensures Words("the plaza") == ["the", "plaza"]
  {
    assert Join(["the", "plaza"], " ") == "the plaza";
    WordsOfJoin(["the", "plaza"]);
  }

  lemma ThePlazaSpaced()
    ensures Spaced("the-plaza") == "the plaza"
  {
    assert MapChar("the-plaza", '-', ' ') == "the plaza";
    assert MapChar("the plaza", '_', ' ') == "the plaza";
  }

  lemma ThePlazaCapitalized()
    ensures Join(CapitalizeAll(["the", "plaza"]), " ") == "The Plaza"
  {
    assert Capitalize("the") == "The";
    assert Capitalize("plaza") == "Plaza";
    assert CapitalizeAll(["the", "plaza"]) == ["The", "Plaza"];
  }

  lemma ThePlazaSegment()
    ensures Join(CapitalizeAll(Words(Spaced(Split("the-plaza.html", '.')[0]))), " ") == "The Plaza"
  {
    ThePlazaStem();
    ThePlazaSpaced();
    ThePlazaWords();
    ThePlazaCapitalized();
  }

  /** The example of the source's own comment. */
  lemma ThePlazaTitle()
    ensures TitleFromUrl("https://www.booking.com/hotel/us/the-plaza.html") == "The Plaza"
  {
    assert "https://www.booking.com/hotel/us/the-plaza.html"
        == "https://www.booking.com/hotel/us" + ['/'] + "the-plaza.html";
    NameOfLastSegment("https://www.booking.com/hotel/us", "the-plaza.html");
    ThePlazaSegment();
  }

  // ------------------------------------------------------------ first-match extraction

  /** The first match of the first of patterns `k..count` that matches, or the sentinel. */
  function FirstFrom(findall: (nat, string) -> seq<string>, content: string, k: nat, count: nat, sentinel: string): string
    decreases count - k
  {
    if k >= count then sentinel
    else if findall(k, content) != [] then findall(k, content)[0]
    else FirstFrom(findall, content, k + 1, count, sentinel)
  }

  /** The shared rule of `_extract_address` and `_extract_price`. */
  function FirstMatch(findall: (nat, string) -> seq<string>, content: string, count: nat, sentinel: string): string
  {
    if content == [] then sentinel else FirstFrom(findall, content, 0, count, sentinel)
  }

  function ExtractAddress(m: Matchers, content: string): string
  {
    FirstMatch(m.address, content, AddressPatternCount, AddressNotFound)
  }

  function ExtractPrice(m: Matchers, content: string): string
  {
    FirstMatch(m.price, content, PricePatternCount, PriceNotFound)
  }

  /** When pattern `k` is the first of `from..count` that matches, its first match is returned. */
  lemma {:induction false} FirstFromFinds(findall: (nat, string) -> seq<string>, content: string,
                                          from: nat, count: nat, sentinel: string, k: nat)
    requires from <= k < count && findall(k, content) != []
    requires forall j :: from <= j < k ==> findall(j, content) == []
    ensures FirstFrom(findall, content, from, count, sentinel) == findall(k, content)[0]
    decreases k - from
  {
    if from < k {
      FirstFromFinds(findall, content, from + 1, count, sentinel, k);
    }
  }

  /** When none of patterns `from..count` matches, the sentinel is returned. */
  lemma {:induction false} FirstFromMisses(findall: (nat, string) -> seq<string>, content: string,
                                           from: nat, count: nat, sentinel: string)
    requires forall j :: from <= j < count ==> findall(j, content) == []
    ensures FirstFrom(findall, content, from, count, sentinel) == sentinel
    decreases count - from
  {
    if from < count {
      FirstFromMisses(findall, content, from + 1, count, sentinel);
    }
  }

  /** Empty content gives the sentinel; otherwise the first pattern, in declared order,
      with any match gives its first match; no match gives the sentinel. */
  lemma FirstMatchMeaning(findall: (nat, string) -> seq<string>, content: string, count: nat, sentinel: string, k: nat)
    ensures content == [] ==> FirstMatch(findall, content, count, sentinel) == sentinel
    ensures (forall j :: 0 <= j < count ==> findall(j, content) == []) ==>
      FirstMatch(findall, content, count, sentinel) == sentinel
    ensures content != [] && k < count && findall(k, content) != [] &&
            (forall j :: 0 <= j < k ==> findall(j, content) == []) ==>
      FirstMatch(findall, content, count, sentinel) == findall(k, content)[0]
  {
    if forall j :: 0 <= j < count ==> findall(j, content) == [] {
      FirstFromMisses(findall, content, 0, count, sentinel);
    }
    if content != [] && k < count && findall(k, content) != [] && (forall j :: 0 <= j < k ==> findall(j, content) == []) {
      FirstFromFinds(findall, content, 0, count, sentinel, k);
    }
  }

  // ------------------------------------------------------------ the scrape

  /** `result.get(key, default)` on the reply object. */
  function Field(fields: map<string, string>, key: string, default: string): string
  {
    if key in fields then fields[key] else default
  }

  /** The text the extractors read: "content", or else "text" (falling back to "markdown"
      only when "text" is missing); "" for a reply that is not an object. */
  function ContentOf(reply: ScrapeReply): string
  {
    match reply
    case Dict(f) =>
      var content := Field(f, "content", "");
      if content != [] then content else Field(f, "text", Field(f, "markdown", ""))
    case NonDict(_) => []
  }

  predicate Truthy(reply: ScrapeReply)
  {
    match reply
    case Dict(f) => f != map[]
    case NonDict(t) => t
  }

  /** The minimal record built when the scrape raised. */
  function Degraded(url: string): HotelInfo
  {
    HotelInfo(TitleFromUrl(url), "Error occurred during scraping", url,
              "Error retrieving address", "Error retrieving price")
  }

  /** The record built from a truthy reply. */
  function Built(url: string, r: ScrapeReply, m: Matchers): HotelInfo
  {
    var title0 := if r.Dict? then Field(r.fields, "title", "") else [];
    var title := if title0 != [] then title0 else TitleFromUrl(url);
    var description := if r.Dict? then Field(r.fields, "description", "") else [];
    var content := ContentOf(r);
    HotelInfo(if title != [] then title else UnknownHotel,
              if description != [] then description else NoDescription,
              url, ExtractAddress(m, content), ExtractPrice(m, content))
  }

  /** `HotelScraper.scrape` */
  function Scrape(url: string, reply: Outcome<ScrapeReply>, m: Matchers): Option<HotelInfo>
  {
    match reply
    case Err(_) => Some(Degraded(url))
    case Ok(r) => if !Truthy(r) then None else Some(Built(url, r, m))
  }

  /** No record exactly when the request returned a falsy value. A raised request gives the
      degraded record; otherwise the record carries the input URL, the reply's title or
      else the URL's, the reply's description or else the placeholder, and the first
      matches found in the reply's text. Name and description are never empty. */
  lemma ScrapeMeaning(url: string, reply: Outcome<ScrapeReply>, m: Matchers)
    ensures Scrape(url, reply, m).None? <==> reply.Ok? && !Truthy(reply.value)
    ensures reply.Err? ==> Scrape(url, reply, m) == Some(Degraded(url))
    ensures Scrape(url, reply, m).Some? ==>
      var info := Scrape(url, reply, m).value;
      info.url == url && info.hotelName != [] && info.description != []
    ensures reply.Ok? && Truthy(reply.value) ==>
      var r := reply.value;
      var info := Scrape(url, reply, m).value;
      && info.hotelName == (if r.Dict? && Field(r.fields, "title", "") != [] then r.fields["title"] else TitleFromUrl(url))
      && info.description == (if r.Dict? && Field(r.fields, "description", "") != [] then r.fields["description"] else NoDescription)
      && info.address == ExtractAddress(m, ContentOf(r))
      && info.price == ExtractPrice(m, ContentOf(r))
  {
    TitleFromUrlMeaning(url);
  }
}
