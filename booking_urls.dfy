/** Hotel list generation of app/create_list_of_hotels.py: Booking.com URL
    validation, the country-code table, URL construction from a hotel's name
    and location, the repair-or-drop pass over the language model's reply, the
    hard-coded fallback list and the truncation to MAX_CONCURRENT_REQUESTS.

    The completion request and `json.loads` are external: their combined
    result is a `LlmReply`. */
module BookingUrls {
  import opened Wrappers
  import opened Strings
  import opened Json

  const MaxConcurrentRequests: nat := 2
  const HotelPrefix: string := "https://www.booking.com/hotel/"
  const DefaultCountryCode: string := "us"
  const MissingKeyMessage: string := "OPENAI_API_KEY not found in environment variables"

  // ------------------------------------------------------------ validation

  /** `validate_hotel_url`: non-empty, the Booking.com hotel prefix, at least five "/"-parts. */
  predicate ValidHotelUrl(url: string)
  {
    url != [] && StartsWith(url, HotelPrefix) && |Split(url, '/')| >= 5
  }

  /** A string with `c` at each of the increasing positions `idx` has at least |idx| of them. */
  lemma {:induction false} CountAtLeast(s: string, c: char, idx: seq<nat>)
    requires forall a :: 0 <= a < |idx| ==> idx[a] < |s| && s[idx[a]] == c
    requires forall a :: 0 <= a < |idx| - 1 ==> idx[a] < idx[a + 1]
    ensures Count(s, c) >= |idx|
    decreases |s|
  {
    if idx != [] {
      var rest := if idx[0] == 0 then idx[1..] else idx;
      assert forall a :: 0 <= a < |rest| ==> rest[a] >= 1 by {
        if idx[0] != 0 {
          assert forall a :: 0 <= a < |idx| - 1 ==> idx[a] < idx[a + 1];
          forall a | 0 < a < |idx| ensures idx[a] >= 1 {
            AscendingFromFirst(idx, a);
          }
        } else {
          forall a | 0 <= a < |rest| ensures rest[a] >= 1 {
            AscendingFromFirst(idx, a + 1);
          }
        }
      }
      var shifted := seq(|rest|, a requires 0 <= a < |rest| => rest[a] - 1);
      forall a | 0 <= a < |shifted| ensures shifted[a] < |s[1..]| && s[1..][shifted[a]] == c {
        assert rest[a] in idx;
      }
      CountAtLeast(s[1..], c, shifted);
    }
  }

  lemma {:induction false} AscendingFromFirst(idx: seq<nat>, a: nat)
    requires forall b :: 0 <= b < |idx| - 1 ==> idx[b] < idx[b + 1]
    requires 0 < a < |idx|
    ensures idx[0] < idx[a]
    decreases a
  {
    if a > 1 { AscendingFromFirst(idx, a - 1); }
  }

  /** The part-count check adds nothing: a URL is valid exactly when it starts with the prefix. */
  lemma ValidIffPrefix(url: string)
    ensures ValidHotelUrl(url) <==> StartsWith(url, HotelPrefix)
  {
    if StartsWith(url, HotelPrefix) {
      assert url[6] == HotelPrefix[6] == '/';
      assert url[7] == HotelPrefix[7] == '/';
      assert url[23] == HotelPrefix[23] == '/';
      assert url[29] == HotelPrefix[29] == '/';
      CountAtLeast(url, '/', [6, 7, 23, 29]);
      SplitLength(url, '/');
    }
  }

  lemma StartsWithAppend(a: string, b: string)
    ensures StartsWith(a + b, a)
  {
    assert (a + b)[..|a|] == a;
  }

  /** Anything written after the prefix is a valid URL. */
  lemma PrefixedIsValid(rest: string)
    ensures ValidHotelUrl(HotelPrefix + rest)
  {
    StartsWithAppend(HotelPrefix, rest);
    ValidIffPrefix(HotelPrefix + rest);
  }

  // ------------------------------------------------------------ country codes

  const CountryCodes: map<string, string> := map[
    "united states" := "us",
    "usa" := "us",
    "united kingdom" := "gb",
    "uk" := "gb",
    "france" := "fr",
    "spain" := "es",
    "italy" := "it",
    "germany" := "de",
    "japan" := "jp",
    "china" := "cn",
    "australia" := "au",
    "canada" := "ca",
    "india" := "in",
    "brazil" := "br",
    "mexico" := "mx",
    "singapore" := "sg",
    "thailand" := "th",
    "united arab emirates" := "ae",
    "uae" := "ae",
    "south africa" := "za"
  ]

  /** A two-letter lower-case code. */
  predicate IsCountryCode(code: string)
  {
    |code| == 2 && IsLower(code[0]) && IsLower(code[1])
  }

  /** `get_country_code`: table lookup on the lower-cased name, "us" otherwise. */
  function CountryCode(country: string): string
  {
    var key := Lower(country);
    if key in CountryCodes then CountryCodes[key] else DefaultCountryCode
  }

  /** Whatever the name, the code is two lower-case letters; it is the table's entry for a
      known name in any letter case, and "us" for every other name. */
  lemma CountryCodeMeaning(country: string)
    ensures IsCountryCode(CountryCode(country))
    ensures Lower(country) in CountryCodes ==> CountryCode(country) == CountryCodes[Lower(country)]
    ensures Lower(country) !in CountryCodes ==> CountryCode(country) == "us"
  {
    assert forall k | k in CountryCodes :: IsCountryCode(CountryCodes[k]);
  }

  /** The lookup ignores letter case. */
  lemma {:induction false} LowerIdempotent(s: string)
    ensures Lower(Lower(s)) == Lower(s)
  {
    assert forall i | 0 <= i < |s| :: ToLower(ToLower(s[i])) == ToLower(s[i]);
  }

  lemma CountryCodeCaseInsensitive(a: string, b: string)
    requires Lower(a) == Lower(b)
    ensures CountryCode(a) == CountryCode(b)
  {
  }

  // ------------------------------------------------------------ construction

  /** The URL slug: lower-cased, spaces to "-", apostrophes and commas removed. */
  function Slug(name: string): string
  {
    DeleteChar(DeleteChar(MapChar(Lower(name), ' ', '-'), '\''), ',')
  }

  /** The slug has no space, apostrophe, comma or upper-case letter. */
  lemma SlugShape(name: string)
    ensures ' ' !in Slug(name) && '\'' !in Slug(name) && ',' !in Slug(name)
    ensures forall i :: 0 <= i < |Slug(name)| ==> !IsUpper(Slug(name)[i])
  {
    var m := MapChar(Lower(name), ' ', '-');
    assert ' ' !in m;
    assert forall x :: x in m ==> !IsUpper(x);
    forall i | 0 <= i < |Slug(name)| ensures !IsUpper(Slug(name)[i]) {
      assert Slug(name)[i] in Slug(name);
    }
  }

  /** The country part of a location: its last comma-separated part, trimmed. */
  function LocationCountry(location: string): string
  {
    if location == [] then [] else Strip(Last(Split(location, ',')))
  }

  /** `construct_booking_url` */
  function ConstructBookingUrl(hotelName: string, location: string): Option<string>
  {
    if hotelName == [] then None
    else Some(HotelPrefix + CountryCode(LocationCountry(location)) + "/" + Slug(hotelName) + ".html")
  }

  /** No URL is constructed exactly when the name is empty; every constructed URL passes
      validation and carries the location's country code as its first path segment
      after /hotel/, followed by the slug of the name. */
  lemma ConstructedUrlIsValid(hotelName: string, location: string)
    ensures ConstructBookingUrl(hotelName, location).None? <==> hotelName == []
    ensures ConstructBookingUrl(hotelName, location).Some? ==>
      var url := ConstructBookingUrl(hotelName, location).value;
      && ValidHotelUrl(url)
      && StartsWith(url, HotelPrefix + CountryCode(LocationCountry(location)) + "/")
      && IsCountryCode(url[|HotelPrefix|..|HotelPrefix| + 2])
  {
    if hotelName != [] {
      var code := CountryCode(LocationCountry(location));
      CountryCodeMeaning(LocationCountry(location));
      BuiltUrl(code, Slug(hotelName));
    }
  }

  lemma BuiltUrl(code: string, slug: string)
    requires |code| == 2
    ensures var url := HotelPrefix + code + "/" + slug + ".html";
      && ValidHotelUrl(url)
      && StartsWith(url, HotelPrefix + code + "/")
      && url[|HotelPrefix|..|HotelPrefix| + 2] == code
  {
    var url := HotelPrefix + code + "/" + slug + ".html";
    assert url == (HotelPrefix + code + "/") + (slug + ".html");
    StartsWithAppend(HotelPrefix + code + "/", slug + ".html");
    assert url == HotelPrefix + (code + "/" + slug + ".html");
    PrefixedIsValid(code + "/" + slug + ".html");
  }

  // ------------------------------------------------------------ the reply of the language model

  /** A hotel object of the reply: the values of its "name", "url" and "location" keys,
      read with `.get(key, "")`, so that a missing key is `JStr("")`. */
  datatype Hotel = Hotel(name: Json, url: Json, location: Json)

  /** An element of the parsed list: a hotel object, or anything else (on which `.get` raises). */
  datatype Item = HotelObject(hotel: Hotel) | NotAnObject

  /** What the completion call and `json.loads` produced. */
  datatype LlmReply =
    | MissingApiKey           // raised before the request, outside the try block
    | RequestFailed           // the request or the parse raised
    | Parsed(items: seq<Item>) // the list iterated: the "hotels" value, or the parsed value itself

  function UrlOf(h: Hotel): string { TextOf(h.url) }

  /** What the loop body does with one hotel. */
  datatype Repair = Keep(hotel: Hotel) | Drop | Raise

  /** The loop body for one hotel: `url.startswith` raises on a truthy non-string URL;
      an invalid URL is rebuilt from the name, where `location.split` and
      `hotel_name.lower()` raise on truthy non-strings, and a falsy name drops the hotel.
      A truthy string name is non-empty, so `construct_booking_url` then always builds one. */
  function RepairHotel(h: Hotel): (r: Repair)
  {
    if IsTruthyNonText(h.url) then Raise
    else if ValidHotelUrl(UrlOf(h)) then Keep(h)
    else if !Truthy(h.name) then Drop
    else if IsTruthyNonText(h.location) || !h.name.JStr? then Raise
    else Keep(h.(url := JStr(ConstructBookingUrl(h.name.s, TextOf(h.location)).value)))
  }

  /** A hotel with a valid URL is kept unchanged. The body raises exactly on a truthy
      non-string URL, or, when the URL is invalid and the name truthy, on a truthy
      non-string name or location; otherwise a hotel is dropped exactly when its URL is
      invalid and its name falsy. What is kept has the same name and location and a
      valid string URL. */
  lemma RepairHotelMeaning(h: Hotel)
    ensures ValidHotelUrl(UrlOf(h)) ==> RepairHotel(h) == Keep(h)
    ensures RepairHotel(h).Raise? <==>
      IsTruthyNonText(h.url) ||
      (!ValidHotelUrl(UrlOf(h)) && Truthy(h.name) && (IsTruthyNonText(h.location) || IsTruthyNonText(h.name)))
    ensures RepairHotel(h).Drop? <==> !IsTruthyNonText(h.url) && !ValidHotelUrl(UrlOf(h)) && !Truthy(h.name)
    ensures RepairHotel(h).Keep? ==>
      && RepairHotel(h).hotel.name == h.name
      && RepairHotel(h).hotel.location == h.location
      && RepairHotel(h).hotel.url.JStr?
      && ValidHotelUrl(UrlOf(RepairHotel(h).hotel))
  {
    if h.name.JStr? {
      ConstructedUrlIsValid(h.name.s, TextOf(h.location));
    }
  }

  /** The kept hotels of a list, in input order. */
  function RepairAll(hotels: seq<Hotel>): seq<Hotel>
  {
    if hotels == [] then []
    else
      var r := RepairHotel(hotels[0]);
      (if r.Keep? then [r.hotel] else []) + RepairAll(hotels[1..])
  }

  /** Every element is a hotel object on which the loop body does not raise. */
  predicate Repairable(items: seq<Item>)
  {
    forall i :: 0 <= i < |items| ==> items[i].HotelObject? && !RepairHotel(items[i].hotel).Raise?
  }

  function Hotels(items: seq<Item>): (r: seq<Hotel>)
    requires forall i :: 0 <= i < |items| ==> items[i].HotelObject?
    ensures |r| == |items| && forall i :: 0 <= i < |items| ==> r[i] == items[i].hotel
  {
    seq(|items|, i requires 0 <= i < |items| => items[i].hotel)
  }

  /** `generate_hotel_list` as a function of the reply: anything raised inside the try,
      by the request, or by the loop at any element, gives []. */
  function Generated(reply: LlmReply): Outcome<seq<Hotel>>
  {
    match reply
    case MissingApiKey => Err(MissingKeyMessage)
    case RequestFailed => Ok([])
    case Parsed(items) => if Repairable(items) then Ok(RepairAll(Hotels(items))) else Ok([])
  }

  lemma {:induction false} RepairAllAppend(a: seq<Hotel>, h: Hotel)
    ensures RepairAll(a + [h]) == RepairAll(a) + (if RepairHotel(h).Keep? then [RepairHotel(h).hotel] else [])
    decreases |a|
  {
    var last := if RepairHotel(h).Keep? then [RepairHotel(h).hotel] else [];
    if a == [] {
      assert [h][1..] == [];
    } else {
      var r := RepairHotel(a[0]);
      var first := if r.Keep? then [r.hotel] else [];
      assert (a + [h])[0] == a[0] && (a + [h])[1..] == a[1..] + [h];
      RepairAllAppend(a[1..], h);
      assert RepairAll(a + [h]) == first + (RepairAll(a[1..]) + last);
      assert first + (RepairAll(a[1..]) + last) == (first + RepairAll(a[1..])) + last;
    }
  }

  /** `generate_hotel_list`: the loop that validates, repairs and appends. */
  method GenerateHotelList(reply: LlmReply) returns (result: Outcome<seq<Hotel>>)
    ensures result == Generated(reply)
  {
    if reply.MissingApiKey? {
      return Err(MissingKeyMessage);
    }
    if reply.RequestFailed? {
      return Ok([]);
    }
    var items := reply.items;
    var validated: seq<Hotel> := [];
    var i := 0;
    while i < |items|
      invariant 0 <= i <= |items|
      invariant Repairable(items[..i])
      invariant validated == RepairAll(Hotels(items[..i]))
    {
      if items[i].NotAnObject? {
        NonObjectGivesEmpty(items, i);
        return Ok([]);
      }
      var hotel := items[i].hotel;
      var step := RepairOne(hotel);
      if step.Raise? {
        NonObjectGivesEmpty(items, i);
        return Ok([]);
      }
      RepairableNext(items, i);
      assert forall k :: 0 <= k <= i ==> items[k].HotelObject? by {
        assert forall k :: 0 <= k < i ==> items[k] == items[..i][k];
      }
      HotelsNext(items, i);
      RepairAllAppend(Hotels(items[..i]), hotel);
      if step.Keep? {
        validated := validated + [step.hotel];
      }
      i := i + 1;
    }
    assert items[..i] == items;
    return Ok(validated);
  }

  /** The loop's prefix grows by one element on which the body did not raise. */
  lemma RepairableNext(items: seq<Item>, i: nat)
    requires i < |items| && Repairable(items[..i])
    requires items[i].HotelObject? && !RepairHotel(items[i].hotel).Raise?
    ensures Repairable(items[..i + 1])
  {
    var next := items[..i + 1];
    forall k | 0 <= k < |next| ensures next[k].HotelObject? && !RepairHotel(next[k].hotel).Raise? {
      if k < i {
        assert next[k] == items[..i][k];
      } else {
        assert next[k] == items[i];
      }
    }
  }

  /** The hotels of a prefix grown by one object. */
  lemma HotelsNext(items: seq<Item>, i: nat)
    requires i < |items| && forall k :: 0 <= k <= i ==> items[k].HotelObject?
    ensures Hotels(items[..i + 1]) == Hotels(items[..i]) + [items[i].hotel]
  {
    var next := items[..i + 1];
    var before := Hotels(items[..i]);
    forall k | 0 <= k <= i ensures Hotels(next)[k] == (before + [items[i].hotel])[k] {
      if k < i {
        assert next[k] == items[..i][k];
      }
    }
  }

  /** One pass of the loop body: validate, or rebuild the URL from the name and location. */
  method RepairOne(hotel: Hotel) returns (step: Repair)
    ensures step == RepairHotel(hotel)
  {
    if IsTruthyNonText(hotel.url) {
      return Raise;
    }
    if ValidHotelUrl(TextOf(hotel.url)) {
      return Keep(hotel);
    }
    if !Truthy(hotel.name) {
      return Drop;
    }
    if IsTruthyNonText(hotel.location) || !hotel.name.JStr? {
      return Raise;
    }
    var fixedUrl := ConstructBookingUrl(hotel.name.s, TextOf(hotel.location));
    return Keep(hotel.(url := JStr(fixedUrl.value)));
  }

  /** Every hotel of the repaired list has a valid string URL; a hotel that already had
      one appears unchanged; the list is never longer than its input. */
  lemma {:induction false} RepairAllMeaning(hotels: seq<Hotel>)
    ensures |RepairAll(hotels)| <= |hotels|
    ensures forall k :: 0 <= k < |RepairAll(hotels)| ==>
      RepairAll(hotels)[k].url.JStr? && ValidHotelUrl(UrlOf(RepairAll(hotels)[k]))
    ensures forall k :: 0 <= k < |hotels| && ValidHotelUrl(UrlOf(hotels[k])) ==> hotels[k] in RepairAll(hotels)
    decreases |hotels|
  {
    if hotels != [] {
      RepairAllMeaning(hotels[1..]);
      RepairHotelMeaning(hotels[0]);
      var head := if RepairHotel(hotels[0]).Keep? then [RepairHotel(hotels[0]).hotel] else [];
      assert RepairAll(hotels) == head + RepairAll(hotels[1..]);
      forall k | 0 <= k < |hotels| && ValidHotelUrl(UrlOf(hotels[k])) ensures hotels[k] in RepairAll(hotels) {
        if k > 0 { assert hotels[k] == hotels[1..][k - 1]; }
      }
    }
  }

  /** When every hotel already has a valid URL the repaired list is the input itself. */
  lemma {:induction false} RepairAllKeepsValid(hotels: seq<Hotel>)
    requires forall k :: 0 <= k < |hotels| ==> ValidHotelUrl(UrlOf(hotels[k]))
    ensures RepairAll(hotels) == hotels
    decreases |hotels|
  {
    if hotels != [] {
      RepairAllKeepsValid(hotels[1..]);
      RepairHotelMeaning(hotels[0]);
      assert [hotels[0]] + hotels[1..] == hotels;
    }
  }

  /** Any element that is not an object, or a hotel on which the loop body raises,
      discards the whole list, whatever the other elements are. */
  lemma NonObjectGivesEmpty(items: seq<Item>, i: nat)
    requires i < |items| && (items[i].NotAnObject? || RepairHotel(items[i].hotel).Raise?)
    ensures Generated(Parsed(items)) == Ok([])
  {
  }

  /** A hotel whose URL is a number empties the list even next to a valid hotel. */
  lemma NumericUrlEmptiesList()
    ensures Generated(Parsed([
      HotelObject(Hotel(JStr("The Plaza"), JStr(HotelPrefix + "us/the-plaza.html"), JStr("New York, USA"))),
      HotelObject(Hotel(JStr("Hotel"), JNum(123), JStr("")))])) == Ok([])
  {
    var items := [
      HotelObject(Hotel(JStr("The Plaza"), JStr(HotelPrefix + "us/the-plaza.html"), JStr("New York, USA"))),
      HotelObject(Hotel(JStr("Hotel"), JNum(123), JStr("")))];
    assert RepairHotel(items[1].hotel).Raise?;
    NonObjectGivesEmpty(items, 1);
  }

  // ------------------------------------------------------------ fallback and truncation

  /** The hard-coded list; each URL is written as the prefix followed by its path. */
  const FallbackHotels: seq<Hotel> := [
    Hotel(JStr("The Plaza"), JStr(HotelPrefix + "us/the-plaza.html"), JStr("New York, USA")),
    Hotel(JStr("Waldorf Astoria"), JStr(HotelPrefix + "us/waldorf-astoria-new-york.html"), JStr("New York, USA")),
    Hotel(JStr("The Ritz London"), JStr(HotelPrefix + "gb/the-ritz-london.html"), JStr("London, UK")),
    Hotel(JStr("Marina Bay Sands"), JStr(HotelPrefix + "sg/marina-bay-sands.html"), JStr("Singapore")),
    Hotel(JStr("Burj Al Arab Jumeirah"), JStr(HotelPrefix + "ae/burj-al-arab.html"), JStr("Dubai, UAE"))
  ]

  /** Every URL of the fallback list is a valid Booking.com hotel URL. */
  lemma FallbackHotelsValid()
    ensures |FallbackHotels| == 5
    ensures forall k :: 0 <= k < |FallbackHotels| ==> ValidHotelUrl(UrlOf(FallbackHotels[k]))
  {
    PrefixedIsValid("us/the-plaza.html");
    PrefixedIsValid("us/waldorf-astoria-new-york.html");
    PrefixedIsValid("gb/the-ritz-london.html");
    PrefixedIsValid("sg/marina-bay-sands.html");
    PrefixedIsValid("ae/burj-al-arab.html");
  }

  /** `get_hotel_urls` once generation has produced `generated`. */
  function WithFallback(generated: seq<Hotel>): seq<Hotel>
  {
    if generated == [] then FallbackHotels else generated
  }

  function Truncated(hotels: seq<Hotel>): (r: seq<Hotel>)
  {
    if |hotels| <= MaxConcurrentRequests then hotels else hotels[..MaxConcurrentRequests]
  }

  /** `get_hotel_urls`: generation, then the fallback list when it produced nothing. */
  method GetHotelUrls(reply: LlmReply) returns (result: Outcome<seq<Hotel>>)
    ensures result.Err? <==> reply.MissingApiKey?
    ensures result.Err? ==> result.message == MissingKeyMessage
    ensures result.Ok? ==> result.value == WithFallback(Generated(reply).value)
  {
    var hotels := GenerateHotelList(reply);
    if hotels.Err? {
      return hotels;
    }
    if hotels.value == [] {
      return Ok(FallbackHotels);
    }
    return hotels;
  }

  /** `get_hotel_urls_with_rate_limiting`: at most MAX_CONCURRENT_REQUESTS hotels. */
  method GetHotelUrlsWithRateLimiting(reply: LlmReply) returns (result: Outcome<seq<Hotel>>)
    ensures result.Err? <==> reply.MissingApiKey?
    ensures result.Err? ==> result.message == MissingKeyMessage
    ensures result.Ok? ==> result.value == Truncated(WithFallback(Generated(reply).value))
  {
    var hotels := GetHotelUrls(reply);
    if hotels.Err? {
      return hotels;
    }
    return Ok(Truncated(hotels.value));
  }

  /** The fallback list is used exactly when generation produced nothing; whatever the
      model replied, every hotel returned has a valid URL and there is at least one. */
  lemma HotelUrlsMeaning(reply: LlmReply)
    requires !reply.MissingApiKey?
    ensures WithFallback(Generated(reply).value) == FallbackHotels <==> Generated(reply).value == [] || Generated(reply).value == FallbackHotels
    ensures WithFallback(Generated(reply).value) != []
    ensures forall k :: 0 <= k < |WithFallback(Generated(reply).value)| ==>
              ValidHotelUrl(UrlOf(WithFallback(Generated(reply).value)[k]))
  {
    FallbackHotelsValid();
    if reply.Parsed? && Repairable(reply.items) {
      RepairAllMeaning(Hotels(reply.items));
    }
  }

  /** The truncated list is a prefix of the full one, of length min(2, n). */
  lemma TruncatedIsPrefix(hotels: seq<Hotel>)
    ensures |Truncated(hotels)| == if |hotels| < MaxConcurrentRequests then |hotels| else MaxConcurrentRequests
    ensures Truncated(hotels) == hotels[..|Truncated(hotels)|]
  {
  }
}
