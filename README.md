# Hotel data collector — a Dafny model of its deterministic core

This project models the logic of a multi-agent hotel data collector:

- Pages are crawled and scraped through the Firecrawl service.
- A language model suggests hotels and Booking.com URLs.
- A CrewAI crew orchestrates agents.

Everything these services do is an input of the model. The scripted outcomes are functions from the call index to `Ok(value)` or `Err(message)`, and a raised Python exception is an `Err`. What remains is modelled and proved:

- `RateLimit` (retry.dfy): the `handle_rate_limit` decorator. It makes at most five attempts. It retries only on errors whose lower-cased text contains "rate limit" or "429", with a base wait of 5·2^k seconds.
- `CrawlPoll` (crawl_poll.dfy): `FirecrawlClient.wait_for_crawl_job`. It is a bounded poll whose delay grows by 1.5 up to a cap of 10 seconds. A "failed" or unknown status is counted like an error.
- `BookingUrls` (booking_urls.dfy): app/create_list_of_hotels.py. It covers:
  - URL validation, the country-code table and slugs;
  - the repair or drop loop of `generate_hotel_list`, over JSON values, including the exceptions that non-string values raise;
  - the hard-coded fallback list and the truncation to `MAX_CONCURRENT_REQUESTS`.
- `UrlDiscovery` (url_discovery.dfy): `HotelURLCollector.collect_urls`. Its stages are pages, then data, then the raw-text scan, then generation. Each stage runs only when the ones before it found nothing. An exception while reading the reply drops what was found and goes to generation.
- `PageScraper` (page_scraper.dfy): `HotelScraper.scrape`. It covers the URL-derived title, first-match address and price extraction, and the degraded record built when the request raises.
- `DataCollector` (data_collector.dfy): `HotelDataCollector`. A class whose `results` list `collect_data` appends to. Pre-scraped data is passed through. Otherwise at most three URLs are scraped, in order, and a record is kept only if it passes validation.
- `HotelScraperScript` (hotel_scraper_script.dfy): hotel_scraper.py. It covers:
  - the shape checks on the language-model and scrape replies;
  - `validate_and_fix`, with the currency regular expression written out, `\d` as the Unicode decimal digits (the pattern's functions take the digit class as a parameter, and `validate_and_fix` passes `IsDecimalDigit`);
  - the per-hotel loop of `main`, with the exceptions that non-string URLs and extract fields raise.
- `CrewRun` (crew_run.dfy): `HotelScrapingCrew.run` of app/hotel_crew.py and the hotel count of its `main`. Task objects hold descriptions that `run` rewrites in place. The fallback results are built when kickoff returns nothing or raises.
- `Supervisor` (supervisor.dfy): the agents of hello.py. It covers the delegation cursor, the monitor and validator predicates, and the `kickoff` loop with at most one restart per URL.
- Shared support:
  - `Wrappers` holds Option and Outcome.
  - `Json` holds a JSON-like value with Python truthiness.
  - `Strings` holds the ASCII string operations the code relies on: `lower`, `split`, `strip`, whitespace `split`/`join`, `title`, `capitalize`, `replace` and `repr`.

Each loop of the source is a `method` with a loop. It is proved equal to a specification function over the precomputed outcomes of its calls, and the properties are lemmas about that function. Two facts the proofs bring out:

- The "/hotel" test of the URL filter is subsumed by its "hotel" test (`UrlDiscovery.IsHotelUrlMeaning`).
- The five-part check of `validate_hotel_url` is implied by its prefix test (`BookingUrls.ValidIffPrefix`).

## Model

| member | source | states |
|---|---|---|
| RateLimit.HandleRateLimit | main.py:65-90 | The wrapper loop's outcome, number of calls and waits are those of the retry specification from attempt 0 |
| RateLimit.RetryFromSkips | main.py:72-83 | Rate-limited attempts before attempt k only add their waits 5·2^j; the outcome and call count are those from attempt k |
| RateLimit.ReturnsFirstSuccess | main.py:72-74 | After k throttled calls a successful call k is returned, with k+1 calls and waits 5,10,…,5·2^(k-1) |
| RateLimit.ReraisesOtherErrors | main.py:75-85 | An error without a rate-limit marker is re-raised unchanged after that call; with none before it, after exactly one call and no wait |
| RateLimit.ExhaustsAfterFive | main.py:69-88 | Five throttled calls give the "Failed after 5 attempts due to rate limiting" error after waits 5, 10, 20, 40, 80 |
| RateLimit.RunCallBounds | main.py:69-88 | At least one and at most five calls; no more waits than calls |
| RateLimit.RunWaits | main.py:78 | The j-th wait from attempt a has base 5·2^(a+j) |
| RateLimit.RunResultIsLastCall | main.py:72-85 | A returned value or re-raised error is the last call's outcome, and a re-raised error carries no rate-limit marker |
| RateLimit.ExhaustedOnlyWhenThrottled | main.py:76-88 | The exhaustion error is raised only if every attempt was rate-limited |
| RateLimit.WaitsBefore | main.py:70-78 | The waits before attempt k are exactly k waits, the j-th with base 5·2^j |
| CrawlPoll.WaitForCrawlJob | main.py:176-213 | The polling loop's result, request count and sleeps are those of the poll specification from request 0 at the initial delay |
| CrawlPoll.ReturnsFirstCompleted | main.py:188-194 | The first "completed" reply, at request k, is returned after k+1 requests and k sleeps |
| CrawlPoll.TimesOutWithoutCompletion | main.py:195-213 | Without a completed reply, failed, unknown, pending and raised statuses all continue; after maxRetries requests the timeout error is raised |
| CrawlPoll.PollShape | main.py:183-213 | At most maxRetries requests; only a reply whose status is "completed" is returned; the only error is the timeout |
| CrawlPoll.SleepsBounded | main.py:200-211 | Every sleep is at most any bound that covers both the starting delay and 10 seconds |
| CrawlPoll.SleepsAtMostCap | main.py:180-211 | Every sleep lasts at most max(initial delay, 10) seconds |
| BookingUrls.ValidIffPrefix | app/create_list_of_hotels.py:107-128 | A URL is valid exactly when it starts with "https://www.booking.com/hotel/"; "" is invalid and the part count is implied by the prefix |
| BookingUrls.CountAtLeast | app/create_list_of_hotels.py:124-126 | A string with the character at k increasing positions contains it at least k times; this gives the part count |
| BookingUrls.PrefixedIsValid | app/create_list_of_hotels.py:120-128 | Anything written after the hotel prefix is a valid URL |
| BookingUrls.CountryCodeMeaning | app/create_list_of_hotels.py:156-190 | The code is the table entry for the lower-cased name, or "us"; it is always two lower-case letters |
| BookingUrls.CountryCodeCaseInsensitive | app/create_list_of_hotels.py:189-190 | Names equal up to ASCII case get the same code |
| BookingUrls.SlugShape | app/create_list_of_hotels.py:150 | The slug holds no space, apostrophe, comma or upper-case letter |
| BookingUrls.ConstructedUrlIsValid | app/create_list_of_hotels.py:131-153 | None exactly when the name is empty; otherwise the URL passes validation and carries the location's two-letter country code after the prefix |
| BookingUrls.BuiltUrl | app/create_list_of_hotels.py:153 | A URL assembled from a two-letter code and any slug is valid and carries that code |
| BookingUrls.RepairHotelMeaning | app/create_list_of_hotels.py:87-153 | A hotel with a valid URL is kept unchanged; the repair raises exactly on a truthy non-string URL, or on an invalid URL next to a truthy non-string name or location; otherwise a hotel is dropped exactly when it has no name; when kept, its name and location are unchanged and its URL is a valid string |
| BookingUrls.RepairOne | app/create_list_of_hotels.py:87-100 | The loop body gives the repair specified for that hotel |
| BookingUrls.GenerateHotelList | app/create_list_of_hotels.py:26-104 | The loop returns the repaired list of the parsed hotels, [] on any error, on a non-object element and on a hotel whose repair raises, and the missing-key error |
| BookingUrls.RepairAllAppend | app/create_list_of_hotels.py:87-100 | Repairing a list extended by one hotel extends the repaired list by that hotel's repair, so order is kept |
| BookingUrls.RepairAllMeaning | app/create_list_of_hotels.py:87-100 | The output is no longer than the input, every output URL is a valid string, and every hotel that had a valid URL appears in it |
| BookingUrls.RepairAllKeepsValid | app/create_list_of_hotels.py:89-91 | When every URL is already valid, the list comes back unchanged |
| BookingUrls.NonObjectGivesEmpty | app/create_list_of_hotels.py:87-104 | A list element that is not an object, or a hotel whose repair raises, turns the whole result into [] |
| BookingUrls.NumericUrlEmptiesList | app/create_list_of_hotels.py:87-104 | A valid hotel next to a hotel whose URL is the number 123 gives [] |
| BookingUrls.FallbackHotelsValid | app/create_list_of_hotels.py:210-238 | The fallback list has five hotels, each with a valid URL |
| BookingUrls.GetHotelUrls | app/create_list_of_hotels.py:193-240 | Fails only with the missing-key error; otherwise the generated list, or the fallback list when it is empty |
| BookingUrls.GetHotelUrlsWithRateLimiting | app/create_list_of_hotels.py:243-259 | Fails only with the missing-key error; otherwise the truncated result of get_hotel_urls |
| BookingUrls.HotelUrlsMeaning | app/create_list_of_hotels.py:207-240 | The fallback list is returned exactly when generation produced nothing (or produced that very list); the result is never empty and all its URLs are valid |
| BookingUrls.TruncatedIsPrefix | app/create_list_of_hotels.py:15 | The truncated list is the prefix of length min(2, n) |
| UrlDiscovery.IsHotelUrlMeaning | main.py:296 | The filter holds exactly when the lower-cased URL contains "hotel" |
| UrlDiscovery.KeepAppend | main.py:290-300 | Filtering distributes over concatenation, so the filter keeps source order |
| UrlDiscovery.KeepHotelUrlsMeaning | main.py:290-333 | A URL is kept exactly when it is in the input and contains "hotel" case-insensitively; the output is no longer than the input |
| UrlDiscovery.KeepHotelEntries | main.py:286-313 | The pages loop and the data-list loop raise exactly when some entry's reading raises; otherwise they append exactly the filtered URLs of the entries that have one, in order |
| UrlDiscovery.KeepHotelItems | main.py:315-320 | The loop over a "urls" list raises exactly when some item is not a string; otherwise it appends exactly the filtered strings, in order |
| UrlDiscovery.KeepHotelStrings | main.py:323-333 | The raw-scan loop appends exactly the filtered matches, in order |
| UrlDiscovery.Generate | main.py:335-351 | The generation stage is the URL list of the rate-limited generator, or its error |
| UrlDiscovery.CollectUrls | main.py:269-368 | The method returns the discovery chain's URLs and the stage that produced them, including the fallback to generation when the crawl or the reading of its reply raises |
| UrlDiscovery.StageUrlsAreHotelUrls | main.py:286-333 | URLs from the pages, data and raw-scan stages contain "hotel"; each stage is chosen exactly when the earlier ones gave nothing and nothing raised on the way |
| UrlDiscovery.GenerationOnlyAsLastResort | main.py:335-368 | Generation runs exactly when the crawl raised, reading its reply raised (an unreadable page; an unreadable data item once pages gave nothing; `json.dumps` once data gave nothing) or all three stages were empty; then its result is the generator's; otherwise the generator's reply does not matter |
| UrlDiscovery.ReadErrorActsAsCrawlError | main.py:356-368 | An exception while reading the reply discards the URLs found so far: the result is that of a crawl that raised |
| UrlDiscovery.UnreadablePageDiscardsFound | main.py:290-300 | A hotel page followed by a page whose "url" is not a string gives the generated URLs, not the hotel URL |
| UrlDiscovery.GeneratedUrlsInOrder | main.py:335-351 | Generated URLs are one to two valid URLs in generator order |
| PageScraper.TitleFromUrlMeaning | main.py:439-463 | The title is never empty; when the path has words, it is the capitalised words of the last segment before its first "."; otherwise it is the domain or "Unknown Hotel" |
| PageScraper.NameOfLastSegment | main.py:444-454 | A URL ending in a non-empty segment is named after that segment's stem |
| PageScraper.ThePlazaTitle | main.py:443 | ".../hotel/us/the-plaza.html" is titled "The Plaza" |
| PageScraper.SearchDomain | main.py:457-459 | A matched domain is non-empty and holds no "/" |
| PageScraper.HostLength | main.py:457 | The host part is the longest prefix without "/" |
| PageScraper.FirstFromFinds | main.py:465-503 | The first pattern that matches gives its first match |
| PageScraper.FirstFromMisses | main.py:479-482 | When no pattern matches, the sentinel is returned |
| PageScraper.FirstMatchMeaning | main.py:465-503 | Empty content gives the sentinel; otherwise the first pattern in declared order with any match gives its first match, and the sentinel when none matches |
| PageScraper.ScrapeMeaning | main.py:377-437 | No record exactly when the reply is falsy; a raised request gives the degraded record with the URL and its title; every record keeps the input URL |
| DataCollector.FirstUrls | main.py:548 | The first min(3, n) URLs, as a prefix |
| DataCollector.HotelDataCollector.constructor | main.py:508-519 | The collector starts with the given pre-scraped data and no results |
| DataCollector.HotelDataCollector.CollectData | main.py:521-585 | Valid pre-scraped data is returned as it is; a discovery failure or no URLs leave results unchanged and return []; otherwise results are extended by the kept scrapes of the first three URLs |
| DataCollector.HotelDataCollector.ScrapeUrls | main.py:555-576 | The loop appends exactly the kept rows of the URL scrapes, in order |
| DataCollector.HotelDataCollector.KeepIfValid | main.py:570-575 | A record is appended exactly when it exists and passes validation |
| DataCollector.ScrapedPassesValidation | main.py:587-594 | A built record passes validation exactly when its URL is non-empty |
| DataCollector.KeptMeaning | main.py:555-576 | At most one row per scrape; each row is a valid record built by one of the scrapes |
| DataCollector.KeptInOrder | main.py:555-576 | When every scrape built a valid record, each gives its row in order |
| DataCollector.CollectedFromUrls | main.py:548-576 | At most one row per URL; every row is valid and belongs to one of the URLs scraped |
| DataCollector.CollectedInOrder | main.py:548-576 | With non-empty URLs and truthy or raising replies, exactly one row per URL in URL order, each for its URL |
| DataCollector.FalsyReplySkipped | main.py:384-386 | A falsy reply adds no row and does not stop the loop |
| HotelScraperScript.GetHotelsListMeaning | hotel_scraper.py:25-73 | The hotel list is kept exactly when the reply is a non-empty object; otherwise it fails with the non-dictionary or no-hotels error |
| HotelScraperScript.ScrapeHotelDataMeaning | hotel_scraper.py:86-121 | The page is returned exactly when the request succeeded with an object extract, with that extract and HTML; otherwise it fails |
| HotelScraperScript.AmountLength | hotel_scraper.py:160 | The greedy run of digits and commas, for the digit class given (Unicode decimal digits in `validate_and_fix`) |
| HotelScraperScript.PriceAt | hotel_scraper.py:160 | A match at a position is a prefix of the text that the currency pattern matches in full |
| HotelScraperScript.FindPriceLeftmost | hotel_scraper.py:159-163 | The search finds the leftmost matching position, and no position when none matches |
| HotelScraperScript.SearchPriceMeaning | hotel_scraper.py:159-163 | A repaired price is a currency symbol, digits and commas, and optional ".dd", found at the leftmost match |
| HotelScraperScript.NonAsciiDigitPrices | hotel_scraper.py:160 | Digits of every script count: "€١٢٣" and "$1٢" are prices in full |
| HotelScraperScript.ValidateAndFixValues | hotel_scraper.py:125-176 | Raises exactly when some field is truthy and not a string, with Python's `'<type>' object has no attribute 'strip'` for a name, or for an address after a string name; otherwise the cleaning of the fields read as text |
| HotelScraperScript.FalsyValueReadsAsBlank | hotel_scraper.py:137-168 | A falsy value of any type reads as a missing field or as "" |
| HotelScraperScript.BlankRepairedAsMissing | hotel_scraper.py:137-176 | "" needs repair, and is repaired and cleaned exactly as a missing value |
| HotelScraperScript.NumericPriceRaises | hotel_scraper.py:156-164 | A price that is the number 120 raises `'int' object has no attribute 'strip'`, whatever the page holds |
| HotelScraperScript.NameRule | hotel_scraper.py:136-141 | A missing or blank name takes the supplied name; otherwise the stripped, non-empty extracted name; the URL is always None |
| HotelScraperScript.PresentFieldsKept | hotel_scraper.py:144-176 | A present, non-blank address, price or description is only stripped or normalised, never replaced |
| HotelScraperScript.NoRepairWithoutHtml | hotel_scraper.py:133 | Without HTML the parser is never consulted and no field is repaired |
| HotelScraperScript.PriceRepair | hotel_scraper.py:156-164 | With HTML, a missing or blank price becomes the leftmost currency match of the page text |
| HotelScraperScript.PriceTextStripped | hotel_scraper.py:164 | A price match begins with its currency symbol and ends with a digit or comma, so the final strip leaves it unchanged when no digit is whitespace |
| HotelScraperScript.NormalizeOrNoneMeaning | hotel_scraper.py:176 | A cleaned description is normalised, and normalising it again changes nothing |
| HotelScraperScript.DescriptionNormalized | hotel_scraper.py:167-176 | The output description is normalised; it stays missing when there is nothing to repair it from |
| HotelScraperScript.QueryUrlMeaning | hotel_scraper.py:233-236 | A URL containing "?" is used as is; otherwise the check-in/check-out query string is appended |
| HotelScraperScript.StepFor | hotel_scraper.py:229-264 | A kept record stores its hotel's base URL, which is a string |
| HotelScraperScript.NonTextValuesCrash | hotel_scraper.py:233-262 | A null, numeric or boolean URL crashes with `argument of type '<type>' is not iterable` before any request; after a request, a truthy non-string extracted name crashes with the strip error |
| HotelScraperScript.ScrapeOne | hotel_scraper.py:233-264 | The loop body gives the step of the specification for that hotel |
| HotelScraperScript.RunMain | hotel_scraper.py:204-269 | The script's records, or why it stops (list error, missing key, crash, no results), are those of the specification |
| HotelScraperScript.GatherAll | hotel_scraper.py:229-265 | The loop returns the gathered records of all steps, or the crash |
| HotelScraperScript.Append | hotel_scraper.py:251-264 | An end of loop body skips, crashes or appends the cleaned record |
| HotelScraperScript.CrashPropagates | hotel_scraper.py:229-265 | A crash ends the loop: later steps change nothing |
| HotelScraperScript.GatherMeaning | hotel_scraper.py:229-265 | Without a crash, the loop returns the records of the kept steps in order; otherwise the loop ends with the first crash's error |
| HotelScraperScript.RecordsStoreBaseUrls | hotel_scraper.py:262-264 | Every kept record stores one of the hotels' base URLs |
| HotelScraperScript.RunScriptMeaning | hotel_scraper.py:229-269 | The output is the kept records in list order, each with its hotel's base URL; an empty result gives the exit error |
| HotelScraperScript.SkippedHotelChangesNothing | hotel_scraper.py:251-259 | A hotel with a string URL whose request raised or whose extract is None is skipped |
| CrewRun.FirstMarked | app/hotel_crew.py:275-288 | The index of the first task mentioning supervision, and none when no task does |
| CrewRun.Rewritten | app/hotel_crew.py:275-288 | The rewrite keeps the number of tasks |
| CrewRun.Task.constructor | app/hotel_crew.py:160-182 | A task holds its description |
| CrewRun.HotelScrapingCrew.constructor | app/hotel_crew.py:211-226 | The crew has four distinct tasks with the given descriptions and no stored URLs |
| CrewRun.HotelScrapingCrew.RewriteSupervisionTask | app/hotel_crew.py:267-288 | The loop rewrites only the first marked task in place and stores the URLs when it finds one |
| CrewRun.HotelScrapingCrew.Run | app/hotel_crew.py:228-407 | The returned result is the specified result; tasks are rewritten only when URLs were given |
| CrewRun.FallbackHotels | app/hotel_crew.py:314-328 | The loop builds exactly one entry per URL, in order |
| CrewRun.FallbackName | app/hotel_crew.py:316-321 | A fallback name holds no "/" or "-" |
| CrewRun.FallbackNameOfSlug | app/hotel_crew.py:316-321 | A URL ending in "/slug.html" is named by title-casing the slug with "-" read as space |
| CrewRun.CapeGraceName | app/hotel_crew.py:316-321 | ".../hotel/za/cape-grace.html" is named "Cape Grace" |
| CrewRun.RewriteOnlyFirst | app/hotel_crew.py:275-288 | Only the first marked task's URL_SOURCE line is replaced; every other task is unchanged |
| CrewRun.RewriteWithoutUrlSourceLine | app/hotel_crew.py:282-285 | A marked task without the URL_SOURCE line keeps its description |
| CrewRun.EmptyResultWithUrls | app/hotel_crew.py:310-328 | An empty kickoff result with URLs gives exactly {"hotels": [...]}, one entry per URL in order, each with that URL |
| CrewRun.EmptyResultWithoutUrls | app/hotel_crew.py:329-334 | An empty result without URLs gives a completed status with the warning and the timestamp |
| CrewRun.ErrorResult | app/hotel_crew.py:370-396 | A raising kickoff gives status "error", the message, the timestamp, and hotels only for non-empty URLs |
| CrewRun.ReturnedResult | app/hotel_crew.py:337-368 | A truthy non-string result is returned as is; a string is parsed, or wrapped as raw_output |
| CrewRun.HotelCount | app/hotel_crew.py:447-456 | A count exactly for a truthy result, and 0 for one that is not a dictionary |
| CrewRun.FallbackCountsEveryUrl | app/hotel_crew.py:310-328 | A fallback with URLs is counted as one hotel per URL |
| CrewRun.FallbackWithoutUrlsCountsNone | app/hotel_crew.py:329-334 | A fallback without URLs counts no hotel |
| CrewRun.CountByKeys | app/hotel_crew.py:450-454 | Without a "hotels" list, the count is the number of keys starting with "hotel": at most the number of keys, 0 exactly when no key starts with "hotel", and at least 1 when there is a "hotels" key that is not a list |
| Supervisor.Monitor | hello.py:58-63 | False for a falsy result; for a dict, whether it is non-empty and has "hotel_name"; raises only on truthy scalars |
| Supervisor.Validate | hello.py:73-79 | The validator loop computes the specified validation |
| Supervisor.SupervisorAgent.constructor | hello.py:46-48 | The cursor starts at 0 over the given list |
| Supervisor.SupervisorAgent.Delegate | hello.py:50-56 | The next URL in order, advancing the cursor by one, and None without moving it once all are delegated; the cursor never passes the end |
| Supervisor.ProcessUrl | hello.py:99-109 | The loop body for one URL gives the specified step |
| Supervisor.HotelScrapingCrew.constructor | hello.py:84-86 | The crew starts with no results |
| Supervisor.HotelScrapingCrew.Kickoff | hello.py:88-110 | No URLs give []; otherwise results are extended by the run's validated records and the accumulated results are returned, or the first error raised |
| Supervisor.HotelScrapingCrew.DelegateAll | hello.py:98-110 | The delegation loop extends results by the validated records of the URLs in order, reports the scrape calls, and stops at the first error raised |
| Supervisor.HotelScrapingCrew.KeepValidated | hello.py:106-107 | A step's record is appended exactly when it passed validation |
| Supervisor.ErrorStays | hello.py:98-109 | Once a scrape, the monitor or the validator raises, the run stops |
| Supervisor.MonitorMeaning | hello.py:58-63 | A dict passes exactly when "hotel_name" is a key, a str when it contains "hotel_name", a list when "hotel_name" is an element (the emptiness test adds nothing for these); None, False and 0 fail; it raises exactly on True, non-zero numbers and other objects |
| Supervisor.ValidationOfDict | hello.py:73-79 | A dict validates exactly when "hotel_name", "address" and "price" are all keys; values are not looked at |
| Supervisor.ValidationRaisesOnScalars | hello.py:76 | Validating a scalar such as None raises |
| Supervisor.RestartOnlyOnMonitorFailure | hello.py:104-105 | A restart happens exactly when the first scrape returned and the monitor rejected it |
| Supervisor.KeptRecordIsValidated | hello.py:103-107 | A kept record passed validation and is the result of the first scrape, or of the restart if there was one |
| Supervisor.Restarts | hello.py:104-105 | At most one restart per URL |
| Supervisor.RunCalls | hello.py:98-105 | Each URL is scraped once, plus once more if it was restarted; at most two scrapes per URL, all of processed URLs |
| Supervisor.StepsKeepValidated | hello.py:106-107 | Every step keeps only a validated record |
| Supervisor.RunKeepsValidated | hello.py:106-107 | Every appended record passed validation |
| Supervisor.RunExtends | hello.py:98-110 | Processing more URLs only appends records and scrape calls |

## Left out

- The HTTP and SDK calls are inputs of the model: Firecrawl `start_crawl_job`, `get_crawl_job_status`, `crawl_website` and `scrape_website`; `FirecrawlApp.scrape_url`; and the OpenAI chat completions. What each call returned or raised is a parameter.
- `FirecrawlClientWrapper` is not modelled as an object. Its missing-key error is the `hasFirecrawlKey` parameter of `HotelScraperScript.RunScript`.
- Nested retries are not modelled, because the decorated `crawl_website` calls decorated methods. The decorator is modelled once, around a single call.
- `time.sleep`, the random jitter and the pause between scrapes are left out, because they are timing and randomness. The retry waits keep only their integer base 5·2^k. The poll's delays are exact reals, not floats.
- `datetime.now()` is left out, because it is a clock. The check-in and check-out dates and the timestamps are parameters.
- The regular-expression engine is partly abstract:
  - The address and price pattern lists of `HotelScraper` are an abstract `findall`, indexed by pattern.
  - The raw-text URL scan over `json.dumps` is its list of matches.
  - The domain pattern of the title fallback and the currency pattern of `validate_and_fix` are written out. The currency pattern's `\d` is the decimal digits of Unicode 15.0.
- `json.loads` is left out. What it produced is an input, and so is the parse applied to a string kickoff result.
- BeautifulSoup is left out. The parsed page is the result of an abstract `parse` giving the address text, description text and page text.
- The CrewAI framework is left out: agent, task, tool and crew construction, `crew.kickoff`, and hello.py's crawler and scraper tools. The URLs the crawler returns and the scrape results are inputs. The task prompt texts are constructor parameters.
- Printing, logging and file I/O are left out. This includes hello.py's `main`, which only prints.
- Command-line and environment handling is left out: `parse_arguments`, `run_standard_mode`, `run_crewai_mode`, `run_hotel_scraper`, `load_scraped_data`, `input()` for keys, and subprocess.
- Case mapping, whitespace, `title` and `repr` use ASCII semantics only. Python's full Unicode tables are not modelled, and `repr` does not escape non-printable non-ASCII characters.
- Dictionaries are maps without key order. The order of entries from `get_hotels_list` is the order of the reply.
- The crash of a non-object extract is the fixed text `'extract' has no attribute 'get'`, not Python's exact wording. The strip and membership errors follow Python's wording, with the type names of `Json.TypeName`.
- Types with no behaviour in the core share one JSON variant, `JOther`, and one type name in error messages.
- `MAX_CONCURRENT_REQUESTS` is modelled as truncation only, because there is no concurrency in the code.
- IsDecimalDigit: the digit class is that of Unicode 15.0, the tables of Python 3.12 and 3.13; digit runs added by later Unicode versions are not included.
- CollectUrls: a generation that raises inside the `try` is called again by the `except` branch; both calls get the same language-model reply, so the model makes one call and its error propagates.
- Scrape: the text fields of a scrape reply are strings, with a missing or null field read as "". A non-string field is not represented: a truthy non-string "content" makes `re.findall` raise and gives the degraded record, and a non-string title or description would be carried into the record as it is.
- RunMain: a list or object as a hotel's URL crashes in the model like the other non-string URLs. In Python, `"?" in` accepts it and the f-string formats it into the request URL; that path is not represented. The HTML of a scrape reply is a string or missing; a non-string HTML is not represented.
- WaitForCrawlJob: delays are exact reals and every sleep returns. A negative initial delay, on which `time.sleep` raises `ValueError` at main.py:202 and again, uncaught, at main.py:211, is not represented; the same holds for `PollFrom`.
