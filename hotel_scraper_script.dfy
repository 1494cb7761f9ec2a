/** The stand-alone collector script hotel_scraper.py: a hotel list from the
    language model (name to Booking.com URL), one extraction scrape per hotel,
    and the validator-and-cleaner that repairs missing fields from the page's
    HTML.

    The language-model reply, the scrape requests and the HTML parser are
    parameters: `HotelsReply`, `fetch(url)` and `parse(html)`. The price pattern
    of the repair is written out; the check-in and check-out dates are given. */
module HotelScraperScript {
  import opened Wrappers
  import opened Strings
  import opened Json

  // ------------------------------------------------------------ the hotel list

  /** What the model's list request came to. */
  datatype HotelsReply =
    | NoApiKey                      // OPENAI_API_KEY unset: raised before the request
    | RequestError(message: string) // the request raised
    | Unparsable(message: string)   // json.loads raised
    | NotADict                      // valid JSON, but not an object
    | HotelsDict(entries: seq<(string, Json)>)  // hotel name to URL value, in insertion order

  /** `get_hotels_list`: the entries, or the error it raises. */
  function GetHotelsList(reply: HotelsReply): (r: Outcome<seq<(string, Json)>>)
  {
    match reply
    case NoApiKey => Err("OpenAI API key is missing.")
    case RequestError(e) => Err("OpenAI API request failed: " + e)
    case Unparsable(e) => Err("Invalid JSON from OpenAI: " + e)
    case NotADict => Err("Invalid JSON from OpenAI: JSON is not a dictionary.")
    case HotelsDict(entries) => if entries == [] then Err("No hotels found in OpenAI response.") else Ok(entries)
  }

  /** The list raises unless the reply parsed to a non-empty object, whose entries it
      returns unchanged. */
  lemma GetHotelsListMeaning(reply: HotelsReply)
    ensures GetHotelsList(reply).Ok? <==> reply.HotelsDict? && reply.entries != []
    ensures GetHotelsList(reply).Ok? ==> GetHotelsList(reply).value == reply.entries
    ensures reply.HotelsDict? && reply.entries == [] ==> GetHotelsList(reply) == Err("No hotels found in OpenAI response.")
    ensures reply.NotADict? ==> GetHotelsList(reply) == Err("Invalid JSON from OpenAI: JSON is not a dictionary.")
  {
  }

  // ------------------------------------------------------------ the scrape

  /** The values of the extract's four keys, read with `.get` (a missing key is `JNull`). */
  datatype ExtractValues = ExtractValues(name: Json, address: Json, price: Json, description: Json)

  /** The extract's four fields as `validate_and_fix` cleans them: the text of a string,
      and `None` for a missing or falsy value. */
  datatype Extract = Extract(name: Option<string>, address: Option<string>, price: Option<string>, description: Option<string>)

  /** The "extract" entry of a scrape reply. */
  datatype ExtractField = NoExtract | NotAnObject | ExtractObject(fields: ExtractValues)

  /** A scrape reply: its "extract" and its "html" (missing, null or a string). */
  datatype ScrapeResponse = ScrapeResponse(extract: ExtractField, html: Option<string>)

  datatype ScrapedPage = ScrapedPage(data: ExtractValues, html: Option<string>)

  /** `scrape_hotel_data`: the request's error, or the shape checks on its reply. */
  function ScrapeHotelData(url: string, response: Outcome<ScrapeResponse>): Outcome<ScrapedPage>
  {
    match response
    case Err(e) => Err("Firecrawl scraping failed for " + url + ": " + e)
    case Ok(r) =>
      match r.extract
      case NoExtract => Err("Failed to extract data from " + url)
      case NotAnObject => Err("Unexpected extract format for " + url)
      case ExtractObject(e) => Ok(ScrapedPage(e, r.html))
  }

  /** The page is returned exactly when the request succeeded with an object extract,
      and then it is that extract and that HTML. */
  lemma ScrapeHotelDataMeaning(url: string, response: Outcome<ScrapeResponse>)
    ensures ScrapeHotelData(url, response).Ok? <==> response.Ok? && response.value.extract.ExtractObject?
    ensures ScrapeHotelData(url, response).Ok? ==>
      ScrapeHotelData(url, response).value == ScrapedPage(response.value.extract.fields, response.value.html)
    ensures response.Ok? && response.value.extract.NoExtract? ==>
      ScrapeHotelData(url, response) == Err("Failed to extract data from " + url)
  {
  }

  // ------------------------------------------------------------ the price pattern

  /** The currency symbols $ € £ ₹ ¥. */
  predicate IsCurrency(c: char)
  {
    c == '$' || c == '\U{20AC}' || c == '\U{A3}' || c == '\U{20B9}' || c == '\U{A5}'
  }

  /** `\d` of a str pattern without the ASCII flag: a Unicode decimal digit, that is a
      character of general category Nd. Unicode 15.0 has 68 runs of them, each the ten
      digits 0 to 9 of one script or style. */
  predicate IsDecimalDigit(c: char)
  {
    ('\U{30}' <= c <= '\U{39}') || ('\U{660}' <= c <= '\U{669}') || ('\U{6F0}' <= c <= '\U{6F9}')
    || ('\U{7C0}' <= c <= '\U{7C9}') || ('\U{966}' <= c <= '\U{96F}')
    || ('\U{9E6}' <= c <= '\U{9EF}') || ('\U{A66}' <= c <= '\U{A6F}')
    || ('\U{AE6}' <= c <= '\U{AEF}') || ('\U{B66}' <= c <= '\U{B6F}')
    || ('\U{BE6}' <= c <= '\U{BEF}') || ('\U{C66}' <= c <= '\U{C6F}')
    || ('\U{CE6}' <= c <= '\U{CEF}') || ('\U{D66}' <= c <= '\U{D6F}')
    || ('\U{DE6}' <= c <= '\U{DEF}') || ('\U{E50}' <= c <= '\U{E59}')
    || ('\U{ED0}' <= c <= '\U{ED9}') || ('\U{F20}' <= c <= '\U{F29}')
    || ('\U{1040}' <= c <= '\U{1049}') || ('\U{1090}' <= c <= '\U{1099}')
    || ('\U{17E0}' <= c <= '\U{17E9}') || ('\U{1810}' <= c <= '\U{1819}')
    || ('\U{1946}' <= c <= '\U{194F}') || ('\U{19D0}' <= c <= '\U{19D9}')
    || ('\U{1A80}' <= c <= '\U{1A89}') || ('\U{1A90}' <= c <= '\U{1A99}')
    || ('\U{1B50}' <= c <= '\U{1B59}') || ('\U{1BB0}' <= c <= '\U{1BB9}')
    || ('\U{1C40}' <= c <= '\U{1C49}') || ('\U{1C50}' <= c <= '\U{1C59}')
    || ('\U{A620}' <= c <= '\U{A629}') || ('\U{A8D0}' <= c <= '\U{A8D9}')
    || ('\U{A900}' <= c <= '\U{A909}') || ('\U{A9D0}' <= c <= '\U{A9D9}')
    || ('\U{A9F0}' <= c <= '\U{A9F9}') || ('\U{AA50}' <= c <= '\U{AA59}')
    || ('\U{ABF0}' <= c <= '\U{ABF9}') || ('\U{FF10}' <= c <= '\U{FF19}')
    || ('\U{104A0}' <= c <= '\U{104A9}') || ('\U{10D30}' <= c <= '\U{10D39}')
    || ('\U{11066}' <= c <= '\U{1106F}') || ('\U{110F0}' <= c <= '\U{110F9}')
    || ('\U{11136}' <= c <= '\U{1113F}') || ('\U{111D0}' <= c <= '\U{111D9}')
    || ('\U{112F0}' <= c <= '\U{112F9}') || ('\U{11450}' <= c <= '\U{11459}')
    || ('\U{114D0}' <= c <= '\U{114D9}') || ('\U{11650}' <= c <= '\U{11659}')
    || ('\U{116C0}' <= c <= '\U{116C9}') || ('\U{11730}' <= c <= '\U{11739}')
    || ('\U{118E0}' <= c <= '\U{118E9}') || ('\U{11950}' <= c <= '\U{11959}')
    || ('\U{11C50}' <= c <= '\U{11C59}') || ('\U{11D50}' <= c <= '\U{11D59}')
    || ('\U{11DA0}' <= c <= '\U{11DA9}') || ('\U{11F50}' <= c <= '\U{11F59}')
    || ('\U{16A60}' <= c <= '\U{16A69}') || ('\U{16AC0}' <= c <= '\U{16AC9}')
    || ('\U{16B50}' <= c <= '\U{16B59}') || ('\U{1D7CE}' <= c <= '\U{1D7D7}')
    || ('\U{1D7D8}' <= c <= '\U{1D7E1}') || ('\U{1D7E2}' <= c <= '\U{1D7EB}')
    || ('\U{1D7EC}' <= c <= '\U{1D7F5}') || ('\U{1D7F6}' <= c <= '\U{1D7FF}')
    || ('\U{1E140}' <= c <= '\U{1E149}') || ('\U{1E2F0}' <= c <= '\U{1E2F9}')
    || ('\U{1E4F0}' <= c <= '\U{1E4F9}') || ('\U{1E950}' <= c <= '\U{1E959}')
    || ('\U{1FBF0}' <= c <= '\U{1FBF9}')
  }

  /** The pattern below is written for any digit class `digit`; `validate_and_fix` uses it
      with `IsDecimalDigit`. */
  predicate IsAmountChar(c: char, digit: char -> bool) { digit(c) || c == ',' }

  /** Length of the longest prefix of digits and commas. */
  function AmountLength(s: string, digit: char -> bool): (n: nat)
    ensures n <= |s|
    ensures forall i :: 0 <= i < n ==> IsAmountChar(s[i], digit)
    ensures n < |s| ==> !IsAmountChar(s[n], digit)
  {
    if s != [] && IsAmountChar(s[0], digit) then 1 + AmountLength(s[1..], digit) else 0
  }

  /** A text the pattern `(\$|€|£|₹|¥)[\d,]+(?:\.\d{2})?` matches in full. */
  predicate IsPriceText(p: string, digit: char -> bool)
  {
    && |p| >= 2 && IsCurrency(p[0])
    && ((forall i :: 1 <= i < |p| ==> IsAmountChar(p[i], digit))
        || (|p| >= 5 && p[|p| - 3] == '.' && digit(p[|p| - 2]) && digit(p[|p| - 1])
            && forall i :: 1 <= i < |p| - 3 ==> IsAmountChar(p[i], digit)))
  }

  /** The pattern matched at the start of `s`; the repetition is greedy and the
      cents are taken when present. */
  function PriceAt(s: string, digit: char -> bool): (r: Option<string>)
    ensures r.Some? ==> IsPriceText(r.value, digit) && |r.value| <= |s| && r.value == s[..|r.value|]
  {
    if s == [] || !IsCurrency(s[0]) then None
    else
      var n := 1 + AmountLength(s[1..], digit);
      if n == 1 then None
      else if n + 3 <= |s| && s[n] == '.' && digit(s[n + 1]) && digit(s[n + 2]) then Some(s[..n + 3])
      else Some(s[..n])
  }

  /** The first position, from `i` on, at which the pattern matches. */
  function FindPrice(s: string, i: nat, digit: char -> bool): (r: Option<nat>)
    ensures r.Some? ==> i <= r.value < |s| && PriceAt(s[r.value..], digit).Some?
    decreases |s| - i
  {
    if i >= |s| then None
    else if PriceAt(s[i..], digit).Some? then Some(i)
    else FindPrice(s, i + 1, digit)
  }

  /** `re.search(...).group(0)`, when it matches. */
  function SearchPrice(text: string, digit: char -> bool): (r: Option<string>)
    ensures r.Some? ==> IsPriceText(r.value, digit)
  {
    match FindPrice(text, 0, digit)
    case None => None
    case Some(p) => PriceAt(text[p..], digit)
  }

  /** The search finds the leftmost match: no earlier position matches, and none at all
      when it finds nothing. */
  lemma {:induction false} FindPriceLeftmost(s: string, i: nat, digit: char -> bool)
    ensures FindPrice(s, i, digit).Some? ==>
      forall j :: i <= j < FindPrice(s, i, digit).value ==> PriceAt(s[j..], digit).None?
    ensures FindPrice(s, i, digit).None? ==> forall j :: i <= j < |s| ==> PriceAt(s[j..], digit).None?
    decreases |s| - i
  {
    if i < |s| && PriceAt(s[i..], digit).None? {
      FindPriceLeftmost(s, i + 1, digit);
    }
  }

  /** A repaired price is a currency symbol, digits and commas, and optional cents,
      found at the leftmost position of the page text where the pattern matches. */
  lemma SearchPriceMeaning(text: string, digit: char -> bool)
    ensures SearchPrice(text, digit).Some? ==>
      var p := FindPrice(text, 0, digit).value;
      && IsPriceText(SearchPrice(text, digit).value, digit)
      && text[p..p + |SearchPrice(text, digit).value|] == SearchPrice(text, digit).value
      && forall j :: 0 <= j < p ==> PriceAt(text[j..], digit).None?
    ensures SearchPrice(text, digit).None? ==> forall j :: 0 <= j < |text| ==> PriceAt(text[j..], digit).None?
  {
    FindPriceLeftmost(text, 0, digit);
    if FindPrice(text, 0, digit).Some? {
      var p := FindPrice(text, 0, digit).value;
      var m := PriceAt(text[p..], digit).value;
      assert SearchPrice(text, digit) == Some(m);
      assert text[p..p + |m|] == text[p..][..|m|];
    }
  }

  /** A price text starts with its currency symbol and ends with a digit or a comma, so
      stripping leaves it as it is when no digit is whitespace. */
  lemma PriceTextStripped(p: string, digit: char -> bool)
    requires IsPriceText(p, digit)
    requires forall c :: digit(c) ==> !IsSpace(c)
    ensures Strip(p) == p
  {
    assert !IsSpace(p[0]) && !IsSpace(p[|p| - 1]);
    assert TrimLeft(p) == p;
    assert TrimRight(p) == p;
  }

  /** No Unicode decimal digit is whitespace. */
  lemma DecimalDigitsAreNotSpace()
    ensures forall c :: IsDecimalDigit(c) ==> !IsSpace(c)
  {
  }

  /** Digits of every script are amounts: the whole of "€١٢٣" and of "$1٢" is a price. */
  lemma NonAsciiDigitPrices()
    ensures SearchPrice("\U{20AC}\U{661}\U{662}\U{663}", IsDecimalDigit) == Some("\U{20AC}\U{661}\U{662}\U{663}")
    ensures SearchPrice("$1\U{662}", IsDecimalDigit) == Some("$1\U{662}")
  {
    assert IsDecimalDigit('\U{661}') && IsDecimalDigit('\U{662}') && IsDecimalDigit('\U{663}');
    var euro := "\U{20AC}\U{661}\U{662}\U{663}";
    assert AmountLength(euro[1..], IsDecimalDigit) == 3 by {
      assert euro[1..][1..][1..][1..] == [];
    }
    assert PriceAt(euro, IsDecimalDigit) == Some(euro) by {
      assert euro[..4] == euro;
    }
    assert euro[0..] == euro;
    var dollar := "$1\U{662}";
    assert AmountLength(dollar[1..], IsDecimalDigit) == 2 by {
      assert IsDecimalDigit('1');
      assert dollar[1..] == ['1', '\U{662}'] && dollar[1..][1..][1..] == [];
    }
    assert PriceAt(dollar, IsDecimalDigit) == Some(dollar) by {
      assert dollar[..3] == dollar;
    }
    assert dollar[0..] == dollar;
  }

  // ------------------------------------------------------------ validate and fix

  /** What the validator reads from the parsed page: the trimmed text of
      `.hp_address_subtitle` and of `#property_description_content` when those
      elements exist, and the whole page's text. */
  datatype Soup = Soup(addressText: Option<string>, text: string, descriptionText: Option<string>)

  /** The cleaned record; `url` is filled in by the caller. */
  datatype Cleaned = Cleaned(name: string, address: Option<string>, price: Option<string>,
                             description: Option<string>, url: Option<string>)

  /** `not v or not v.strip()` */
  predicate NeedsRepair(v: Option<string>)
  {
    v.None? || Strip(v.value) == []
  }

  /** `v.strip() if v else None` */
  function StripOrNone(v: Option<string>): Option<string>
  {
    if v.Some? && v.value != [] then Some(Strip(v.value)) else None
  }

  /** `" ".join(v.split()).strip() if v else None` */
  function NormalizeOrNone(v: Option<string>): Option<string>
  {
    if v.Some? && v.value != [] then Some(NormalizeSpace(v.value)) else None
  }

  /** The page is parsed only when there is HTML. */
  function SoupOf(rawHtml: Option<string>, parse: string -> Soup): Option<Soup>
  {
    if rawHtml.Some? && rawHtml.value != [] then Some(parse(rawHtml.value)) else None
  }

  /** A missing or blank field is replaced by what the page offers, if anything. */
  function Repaired(v: Option<string>, candidate: Option<string>): Option<string>
  {
    if NeedsRepair(v) && candidate.Some? then candidate else v
  }

  function AddressCandidate(soup: Option<Soup>): Option<string>
  {
    if soup.Some? then soup.value.addressText else None
  }

  function PriceCandidate(soup: Option<Soup>): Option<string>
  {
    if soup.Some? then SearchPrice(soup.value.text, IsDecimalDigit) else None
  }

  function DescriptionCandidate(soup: Option<Soup>): Option<string>
  {
    if soup.Some? then soup.value.descriptionText else None
  }

  /** `validate_and_fix` */
  function ValidateAndFix(hotelName: string, data: Extract, rawHtml: Option<string>, parse: string -> Soup): Cleaned
  {
    var soup := SoupOf(rawHtml, parse);
    var name := if NeedsRepair(data.name) then hotelName else Strip(data.name.value);
    Cleaned(name,
            StripOrNone(Repaired(data.address, AddressCandidate(soup))),
            StripOrNone(Repaired(data.price, PriceCandidate(soup))),
            NormalizeOrNone(Repaired(data.description, DescriptionCandidate(soup))),
            None)
  }

  /** A field as the cleaning reads it: `not v` holds for a falsy value of any type,
      which is then as good as missing. */
  function FieldText(v: Json): Option<string>
  {
    if v.JStr? then Some(v.s) else None
  }

  function TextView(values: ExtractValues): Extract
  {
    Extract(FieldText(values.name), FieldText(values.address), FieldText(values.price), FieldText(values.description))
  }

  /** The attribute error of `v.strip()` on a value that is not a string. */
  function StripError(v: Json): string
  {
    "'" + TypeName(v) + "' object has no attribute 'strip'"
  }

  /** `validate_and_fix` on the extract's values: the first `not v or not v.strip()` test,
      in the order name, address, price, description, that meets a truthy non-string
      raises; otherwise the record is cleaned from the fields' texts. */
  function ValidateAndFixValues(hotelName: string, values: ExtractValues, rawHtml: Option<string>,
                                parse: string -> Soup): (r: Outcome<Cleaned>)
    ensures r.Err? <==>
      IsTruthyNonText(values.name) || IsTruthyNonText(values.address) ||
      IsTruthyNonText(values.price) || IsTruthyNonText(values.description)
    ensures r.Err? && IsTruthyNonText(values.name) ==> r.message == StripError(values.name)
    ensures r.Err? && !IsTruthyNonText(values.name) && IsTruthyNonText(values.address) ==>
      r.message == StripError(values.address)
    ensures r.Ok? ==> r.value == ValidateAndFix(hotelName, TextView(values), rawHtml, parse)
  {
    if IsTruthyNonText(values.name) then Err(StripError(values.name))
    else if IsTruthyNonText(values.address) then Err(StripError(values.address))
    else if IsTruthyNonText(values.price) then Err(StripError(values.price))
    else if IsTruthyNonText(values.description) then Err(StripError(values.description))
    else Ok(ValidateAndFix(hotelName, TextView(values), rawHtml, parse))
  }

  /** A falsy value of any type reads as a missing field or as the empty string. */
  lemma FalsyValueReadsAsBlank(v: Json)
    requires !Truthy(v)
    ensures FieldText(v) == None || FieldText(v) == Some([])
  {
  }

  /** An empty string is repaired and cleaned like a missing value: a name or a field
      read as either gives the same output. */
  lemma BlankRepairedAsMissing(candidate: Option<string>)
    ensures NeedsRepair(Some([]))
    ensures StripOrNone(Repaired(Some([]), candidate)) == StripOrNone(Repaired(None, candidate))
    ensures NormalizeOrNone(Repaired(Some([]), candidate)) == NormalizeOrNone(Repaired(None, candidate))
  {
    assert Strip([]) == [] by { StripEmptyIffBlank([]); }
  }

  /** A price that is a number makes the cleaning raise, whatever the page holds. */
  lemma NumericPriceRaises(hotelName: string, rawHtml: Option<string>, parse: string -> Soup)
    ensures ValidateAndFixValues(hotelName, ExtractValues(JNull, JNull, JNum(120), JNull), rawHtml, parse) ==
            Err(StripError(JNum(120)))
  {
  }

  /** The supplied name stands in for a missing or blank one; otherwise the extracted name
      is kept, stripped. The URL is always left empty. */
  lemma NameRule(hotelName: string, data: Extract, rawHtml: Option<string>, parse: string -> Soup)
    ensures var c := ValidateAndFix(hotelName, data, rawHtml, parse);
      && (data.name.None? || IsBlank(data.name.value) ==> c.name == hotelName)
      && (data.name.Some? && !IsBlank(data.name.value) ==> c.name == Strip(data.name.value) && c.name != [])
      && c.url.None?
  {
    if data.name.Some? {
      StripEmptyIffBlank(data.name.value);
    }
  }

  /** A present, non-blank field is never replaced: it is only stripped (the description
      normalised). */
  lemma PresentFieldsKept(hotelName: string, data: Extract, rawHtml: Option<string>, parse: string -> Soup)
    ensures var c := ValidateAndFix(hotelName, data, rawHtml, parse);
      && (data.address.Some? && !IsBlank(data.address.value) ==> c.address == Some(Strip(data.address.value)))
      && (data.price.Some? && !IsBlank(data.price.value) ==> c.price == Some(Strip(data.price.value)))
      && (data.description.Some? && !IsBlank(data.description.value) ==>
            c.description == Some(NormalizeSpace(data.description.value)))
  {
    var soup := SoupOf(rawHtml, parse);
    KeptWhenPresent(data.address, AddressCandidate(soup));
    KeptWhenPresent(data.price, PriceCandidate(soup));
    KeptWhenPresent(data.description, DescriptionCandidate(soup));
  }

  lemma KeptWhenPresent(v: Option<string>, candidate: Option<string>)
    ensures v.Some? && !IsBlank(v.value) ==> Repaired(v, candidate) == v && v.value != []
  {
    if v.Some? { StripEmptyIffBlank(v.value); }
  }

  /** Without HTML nothing is repaired: the parser is never consulted and the record is
      the extract's own fields, cleaned. */
  lemma NoRepairWithoutHtml(hotelName: string, data: Extract, rawHtml: Option<string>,
                            parse1: string -> Soup, parse2: string -> Soup)
    requires rawHtml.None? || rawHtml.value == []
    ensures ValidateAndFix(hotelName, data, rawHtml, parse1) == ValidateAndFix(hotelName, data, rawHtml, parse2)
    ensures var c := ValidateAndFix(hotelName, data, rawHtml, parse1);
      c.address == StripOrNone(data.address) && c.price == StripOrNone(data.price) &&
      c.description == NormalizeOrNone(data.description)
  {
  }

  /** With HTML, a missing or blank price becomes the leftmost price in the page text
      when there is one. */
  lemma PriceRepair(hotelName: string, data: Extract, html: string, parse: string -> Soup)
    requires html != [] && NeedsRepair(data.price) && SearchPrice(parse(html).text, IsDecimalDigit).Some?
    ensures ValidateAndFix(hotelName, data, Some(html), parse).price ==
      Some(SearchPrice(parse(html).text, IsDecimalDigit).value)
  {
    PriceField(hotelName, data, Some(html), parse);
    var p := SearchPrice(parse(html).text, IsDecimalDigit).value;
    assert Repaired(data.price, PriceCandidate(SoupOf(Some(html), parse))) == Some(p);
    DecimalDigitsAreNotSpace();
    PriceTextStripped(p, IsDecimalDigit);
  }

  lemma PriceField(hotelName: string, data: Extract, rawHtml: Option<string>, parse: string -> Soup)
    ensures ValidateAndFix(hotelName, data, rawHtml, parse).price ==
      StripOrNone(Repaired(data.price, PriceCandidate(SoupOf(rawHtml, parse))))
  {
  }

  /** A cleaned description has single inner spaces and no outer whitespace, and cleaning
      it again changes nothing. */
  lemma NormalizeOrNoneMeaning(v: Option<string>)
    ensures NormalizeOrNone(v).Some? ==>
      IsNormalized(NormalizeOrNone(v).value) && NormalizeSpace(NormalizeOrNone(v).value) == NormalizeOrNone(v).value
  {
    if v.Some? && v.value != [] {
      NormalizeSpaceMeaning(v.value);
      NormalizeSpaceIdempotent(v.value);
    }
  }

    /** The description field of the cleaned record. */
  lemma DescriptionField(hotelName: string, data: Extract, rawHtml: Option<string>, parse: string -> Soup)
    ensures ValidateAndFix(hotelName, data, rawHtml, parse).description ==
      NormalizeOrNone(Repaired(data.description, DescriptionCandidate(SoupOf(rawHtml, parse))))
  {
  }

  /** The output description is normalised, and it stays missing when there is nothing
      to repair it from. */
  lemma DescriptionNormalized(hotelName: string, data: Extract, rawHtml: Option<string>, parse: string -> Soup)
    ensures var d := ValidateAndFix(hotelName, data, rawHtml, parse).description;
      d.Some? ==> IsNormalized(d.value) && NormalizeSpace(d.value) == d.value
    ensures data.description.None? && DescriptionCandidate(SoupOf(rawHtml, parse)).None? ==>
      ValidateAndFix(hotelName, data, rawHtml, parse).description.None?
  {
    var description := Repaired(data.description, DescriptionCandidate(SoupOf(rawHtml, parse)));
    DescriptionField(hotelName, data, rawHtml, parse);
    NormalizeOrNoneMeaning(description);
  }

  // ------------------------------------------------------------ the main loop

  /** The query string appended to a URL that has none. */
  function QueryUrl(baseUrl: string, checkin: string, checkout: string): string
  {
    if '?' in baseUrl then baseUrl
    else baseUrl + "?checkin=" + checkin + "&checkout=" + checkout + "&group_adults=2&no_rooms=1&group_children=0"
  }

  lemma QueryUrlMeaning(baseUrl: string, checkin: string, checkout: string)
    ensures '?' in baseUrl ==> QueryUrl(baseUrl, checkin, checkout) == baseUrl
    ensures '?' !in baseUrl ==>
      QueryUrl(baseUrl, checkin, checkout)[..|baseUrl|] == baseUrl &&
      QueryUrl(baseUrl, checkin, checkout)[|baseUrl|..] ==
        "?checkin=" + checkin + "&checkout=" + checkout + "&group_adults=2&no_rooms=1&group_children=0"
  {
  }

  /** What one hotel of the list comes to. */
  datatype Step = Skip | Crash(error: string) | Keep(record: Cleaned)

  const NoResultsMessage: string := "No hotel data collected; exiting."
  const MissingFirecrawlKey: string := "Missing Firecrawl API key."
  /** The attribute error of calling `.get` on an extract that is not an object. */
  const NotAnObjectMessage: string := "'extract' has no attribute 'get'"

  /** The type error of `"?" in v` on a value that is not a container. */
  function MembershipError(v: Json): string
  {
    "argument of type '" + TypeName(v) + "' is not iterable"
  }

  /** One hotel: the request for its URL with the query string, then the record that
      stores its original URL. A URL value that is not a string makes the `"?"` test
      raise (the hotel list holds strings, null, numbers and booleans). */
  function StepFor(entry: (string, Json), checkin: string, checkout: string,
                   fetch: string -> Outcome<ScrapeResponse>, parse: string -> Soup): (r: Step)
    ensures r.Keep? ==> entry.1.JStr? && r.record.url == Some(entry.1.s)
  {
    var (hotelName, baseUrl) := entry;
    if !baseUrl.JStr? then Crash(MembershipError(baseUrl))
    else
      match fetch(QueryUrl(baseUrl.s, checkin, checkout))
      case Err(_) => Skip
      case Ok(r) =>
        match r.extract
        case NoExtract => Skip
        case NotAnObject => Crash(NotAnObjectMessage)
        case ExtractObject(values) =>
          match ValidateAndFixValues(hotelName, values, r.html, parse)
          case Err(e) => Crash(e)
          case Ok(cleaned) => Keep(cleaned.(url := Some(baseUrl.s)))
  }

  /** A URL of null, a number or a boolean stops the script at that hotel, before any
      request; a truthy non-string extract field stops it after the request. */
  lemma NonTextValuesCrash(entry: (string, Json), checkin: string, checkout: string,
                           fetch: string -> Outcome<ScrapeResponse>, parse: string -> Soup)
    ensures entry.1.JNull? || entry.1.JNum? || entry.1.JBool? ==>
      StepFor(entry, checkin, checkout, fetch, parse) == Crash(MembershipError(entry.1))
    ensures entry.1.JStr? && fetch(QueryUrl(entry.1.s, checkin, checkout)).Ok? ==>
      var r := fetch(QueryUrl(entry.1.s, checkin, checkout)).value;
      r.extract.ExtractObject? && IsTruthyNonText(r.extract.fields.name) ==>
        StepFor(entry, checkin, checkout, fetch, parse) == Crash(StripError(r.extract.fields.name))
  {
  }

  /** The step of each hotel of the list, in list order. */
  function Steps(entries: seq<(string, Json)>, checkin: string, checkout: string,
                 fetch: string -> Outcome<ScrapeResponse>, parse: string -> Soup): (r: seq<Step>)
    ensures |r| == |entries|
    decreases |entries|
  {
    if entries == [] then []
    else [StepFor(entries[0], checkin, checkout, fetch, parse)] + Steps(entries[1..], checkin, checkout, fetch, parse)
  }

  lemma {:induction false} StepsAt(entries: seq<(string, Json)>, checkin: string, checkout: string,
                                   fetch: string -> Outcome<ScrapeResponse>, parse: string -> Soup, k: nat)
    requires k < |entries|
    ensures Steps(entries, checkin, checkout, fetch, parse)[k] == StepFor(entries[k], checkin, checkout, fetch, parse)
    decreases k
  {
    if k > 0 {
      StepsAt(entries[1..], checkin, checkout, fetch, parse, k - 1);
    }
  }

  /** The loop over the first `n` steps: the records appended, or the crash. */
  function Gather(steps: seq<Step>, n: nat): Outcome<seq<Cleaned>>
    requires n <= |steps|
  {
    if n == 0 then Ok([])
    else
      match Gather(steps, n - 1)
      case Err(e) => Err(e)
      case Ok(done) => Extend(done, steps[n - 1])
  }

  /** The records so far, after one more step. */
  function Extend(done: seq<Cleaned>, step: Step): Outcome<seq<Cleaned>>
  {
    match step
    case Skip => Ok(done)
    case Crash(e) => Err(e)
    case Keep(c) => Ok(done + [c])
  }

  /** The whole script up to the file write: the records, or why it stopped. */
  function RunScript(reply: HotelsReply, hasFirecrawlKey: bool, checkin: string, checkout: string,
                     fetch: string -> Outcome<ScrapeResponse>, parse: string -> Soup): Outcome<seq<Cleaned>>
  {
    match GetHotelsList(reply)
    case Err(e) => Err(e)
    case Ok(entries) =>
      if !hasFirecrawlKey then Err(MissingFirecrawlKey)
      else
        var steps := Steps(entries, checkin, checkout, fetch, parse);
        match Gather(steps, |steps|)
        case Err(e) => Err(e)
        case Ok(results) => if results == [] then Err(NoResultsMessage) else Ok(results)
  }

  /** The loop body for one hotel: the request, the extract check, the cleaning. */
  method ScrapeOne(entry: (string, Json), checkin: string, checkout: string,
                   fetch: string -> Outcome<ScrapeResponse>, parse: string -> Soup)
    returns (step: Step)
    ensures step == StepFor(entry, checkin, checkout, fetch, parse)
  {
    var (hotelName, baseUrl) := entry;
    if !baseUrl.JStr? {
      return Crash(MembershipError(baseUrl));
    }
    var hotelUrl := if '?' in baseUrl.s then baseUrl.s
      else baseUrl.s + "?checkin=" + checkin + "&checkout=" + checkout + "&group_adults=2&no_rooms=1&group_children=0";
    assert hotelUrl == QueryUrl(baseUrl.s, checkin, checkout);
    var scrapeResult := fetch(hotelUrl);
    if scrapeResult.Err? {
      return Skip;
    }
    match scrapeResult.value.extract
    case NoExtract =>
      return Skip;
    case NotAnObject =>
      return Crash(NotAnObjectMessage);
    case ExtractObject(values) =>
      var cleaned := ValidateAndFixValues(hotelName, values, scrapeResult.value.html, parse);
      if cleaned.Err? {
        return Crash(cleaned.message);
      }
      var cleanedData := cleaned.value.(url := Some(baseUrl.s));
      return Keep(cleanedData);
  }

  /** `main`, up to the file write. */
  method RunMain(reply: HotelsReply, hasFirecrawlKey: bool, checkin: string, checkout: string,
                 fetch: string -> Outcome<ScrapeResponse>, parse: string -> Soup)
    returns (outcome: Outcome<seq<Cleaned>>)
    ensures outcome == RunScript(reply, hasFirecrawlKey, checkin, checkout, fetch, parse)
  {
    var hotels := GetHotelsList(reply);
    if hotels.Err? {
      return Err(hotels.message);
    }
    if !hasFirecrawlKey {
      return Err(MissingFirecrawlKey);
    }
    var gathered := GatherAll(hotels.value, checkin, checkout, fetch, parse);
    if gathered.Err? {
      return gathered;
    }
    if gathered.value == [] {
      return Err(NoResultsMessage);
    }
    return gathered;
  }

  /** The loop of `main` over the hotel list: the records appended, or the crash. */
  method GatherAll(entries: seq<(string, Json)>, checkin: string, checkout: string,
                   fetch: string -> Outcome<ScrapeResponse>, parse: string -> Soup)
    returns (outcome: Outcome<seq<Cleaned>>)
    ensures outcome == Gather(Steps(entries, checkin, checkout, fetch, parse), |entries|)
  {
    ghost var steps: seq<Step> := Steps(entries, checkin, checkout, fetch, parse);
    var finalResults: seq<Cleaned> := [];
    for i := 0 to |entries|
      invariant Gather(steps, i) == Ok(finalResults)
    {
      var next := GatherOne(entries, i, finalResults, checkin, checkout, fetch, parse);
      GatherNext(steps, i, finalResults);
      if next.Err? {
        CrashPropagates(steps, i + 1, |steps|);
        return next;
      }
      finalResults := next.value;
    }
    return Ok(finalResults);
  }

  /** The loop body at hotel `i`. */
  method GatherOne(entries: seq<(string, Json)>, i: nat, finalResults: seq<Cleaned>, checkin: string, checkout: string,
                   fetch: string -> Outcome<ScrapeResponse>, parse: string -> Soup)
    returns (next: Outcome<seq<Cleaned>>)
    requires i < |entries|
    ensures next == Extend(finalResults, Steps(entries, checkin, checkout, fetch, parse)[i])
  {
    var step := ScrapeOne(entries[i], checkin, checkout, fetch, parse);
    StepsAt(entries, checkin, checkout, fetch, parse, i);
    next := Append(finalResults, step);
  }

  /** The end of the loop body: a crash is raised, a kept record appended. */
  method Append(finalResults: seq<Cleaned>, step: Step) returns (next: Outcome<seq<Cleaned>>)
    ensures next == Extend(finalResults, step)
  {
    match step
    case Skip =>
      return Ok(finalResults);
    case Crash(e) =>
      return Err(e);
    case Keep(cleanedData) =>
      return Ok(finalResults + [cleanedData]);
  }

  /** One more step of a loop that has not crashed. */
  lemma GatherNext(steps: seq<Step>, i: nat, done: seq<Cleaned>)
    requires i < |steps| && Gather(steps, i) == Ok(done)
    ensures Gather(steps, i + 1) == Extend(done, steps[i])
  {
  }

  /** Once the loop has crashed, it stays crashed. */
  lemma {:induction false} CrashPropagates(steps: seq<Step>, n: nat, m: nat)
    requires n <= m <= |steps|
    requires Gather(steps, n).Err?
    ensures Gather(steps, m) == Gather(steps, n)
    decreases m - n
  {
    if n < m {
      CrashPropagates(steps, n, m - 1);
    }
  }

  /** The records of the kept steps, in order. */
  function Records(steps: seq<Step>): seq<Cleaned>
  {
    if steps == [] then []
    else Records(steps[..|steps| - 1]) + (if Last(steps).Keep? then [Last(steps).record] else [])
  }

  /** The loop returns the records of the kept steps, in order, unless a step crashed,
      and then it raises the error of the first crash. */
  lemma {:induction false} GatherMeaning(steps: seq<Step>, n: nat)
    requires n <= |steps|
    ensures (forall k :: 0 <= k < n ==> !steps[k].Crash?) ==> Gather(steps, n) == Ok(Records(steps[..n]))
    ensures forall k :: 0 <= k < n && steps[k].Crash? && (forall j :: 0 <= j < k ==> !steps[j].Crash?) ==>
      Gather(steps, n) == Err(steps[k].error)
  {
    if n > 0 {
      GatherMeaning(steps, n - 1);
      if exists k :: 0 <= k < n - 1 && steps[k].Crash? {
        var k :| 0 <= k < n - 1 && steps[k].Crash?;
        FirstCrash(steps, n - 1, k);
      } else if steps[n - 1].Crash? {
        assert Gather(steps, n - 1).Ok?;
      } else {
        assert forall k :: 0 <= k < n - 1 ==> !steps[k].Crash?;
        assert Gather(steps, n - 1) == Ok(Records(steps[..n - 1]));
        var last := if steps[n - 1].Keep? then [steps[n - 1].record] else [];
        assert steps[..n][..n - 1] == steps[..n - 1];
        assert Records(steps[..n]) == Records(steps[..n - 1]) + last;
        match steps[n - 1]
        case Skip => assert Records(steps[..n - 1]) + last == Records(steps[..n - 1]);
        case Keep(c) => assert last == [c];
      }
    }
  }

  /** A crash before `n` has a first one. */
  lemma {:induction false} FirstCrash(steps: seq<Step>, n: nat, k: nat)
    requires k < n <= |steps| && steps[k].Crash?
    ensures exists f :: 0 <= f <= k && steps[f].Crash? && forall j :: 0 <= j < f ==> !steps[j].Crash?
    decreases k
  {
    if exists j :: 0 <= j < k && steps[j].Crash? {
      var j :| 0 <= j < k && steps[j].Crash?;
      FirstCrash(steps, n, j);
    }
  }

  /** Each record kept stores the original URL of one of the hotels. */
  lemma {:induction false} RecordsStoreBaseUrls(steps: seq<Step>, bases: seq<string>)
    requires forall k :: 0 <= k < |steps| && steps[k].Keep? ==> steps[k].record.url.Some? && steps[k].record.url.value in bases
    ensures |Records(steps)| <= |steps|
    ensures forall k :: 0 <= k < |Records(steps)| ==> Records(steps)[k].url.Some? && Records(steps)[k].url.value in bases
    decreases |steps|
  {
    if steps != [] {
      RecordsStoreBaseUrls(steps[..|steps| - 1], bases);
    }
  }

  /** The URL texts of the list; a value that is not a string never reaches a record. */
  function BaseUrls(entries: seq<(string, Json)>): (r: seq<string>)
    ensures |r| == |entries| && forall k :: 0 <= k < |entries| ==> r[k] == TextOf(entries[k].1)
  {
    seq(|entries|, k requires 0 <= k < |entries| => TextOf(entries[k].1))
  }

  /** The script's records are those of the hotels that were kept, in list order, each
      with its hotel's original URL; it fails with the exit error when none was kept. */
  lemma RunScriptMeaning(reply: HotelsReply, checkin: string, checkout: string,
                         fetch: string -> Outcome<ScrapeResponse>, parse: string -> Soup)
    requires reply.HotelsDict? && reply.entries != []
    ensures var steps := Steps(reply.entries, checkin, checkout, fetch, parse);
      var out := RunScript(reply, true, checkin, checkout, fetch, parse);
      (forall k :: 0 <= k < |steps| ==> !steps[k].Crash?) ==>
        && (Records(steps) == [] ==> out == Err(NoResultsMessage))
        && (Records(steps) != [] ==> out == Ok(Records(steps)))
        && (out.Ok? ==> forall k :: 0 <= k < |out.value| ==>
              out.value[k].url.Some? && out.value[k].url.value in BaseUrls(reply.entries))
  {
    var steps := Steps(reply.entries, checkin, checkout, fetch, parse);
    GatherMeaning(steps, |steps|);
    assert steps[..|steps|] == steps;
    forall k | 0 <= k < |steps| && steps[k].Keep?
      ensures steps[k].record.url.Some? && steps[k].record.url.value in BaseUrls(reply.entries)
    {
      StepsAt(reply.entries, checkin, checkout, fetch, parse, k);
      assert BaseUrls(reply.entries)[k] == TextOf(reply.entries[k].1);
    }
    RecordsStoreBaseUrls(steps, BaseUrls(reply.entries));
  }

  /** A hotel whose scrape raised or returned no extract is skipped and the loop goes on. */
  lemma SkippedHotelChangesNothing(entry: (string, Json), checkin: string, checkout: string,
                                   fetch: string -> Outcome<ScrapeResponse>, parse: string -> Soup)
    requires entry.1.JStr?
    requires var r := fetch(QueryUrl(entry.1.s, checkin, checkout)); r.Err? || r.value.extract.NoExtract?
    ensures StepFor(entry, checkin, checkout, fetch, parse) == Skip
  {
  }
}
