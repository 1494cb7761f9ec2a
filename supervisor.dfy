/** The multi-agent prototype of hello.py: a supervisor hands out the collected
    hotel URLs one at a time, a scraper fetches each page, the supervisor's
    monitor asks for one restart when the output looks broken, and a validator
    keeps only records with the required keys. The crew's `results` list is
    appended in place and survives across `kickoff` calls.

    The crawl behind the URL collector is external, so its URL list is an input;
    so are the scrapes: `scrape(url)` is the first scrape of a URL and
    `rescrape(url)` the scrape after a restart, each returning a value or raising. */
module Supervisor {
  import opened Wrappers
  import opened Strings
  import opened Json

  const RequiredFields: seq<string> := ["hotel_name", "address", "price"]

  // ------------------------------------------------------------ membership, monitor, validate

  /** `key in v`: a dict's keys, a substring of a str, an element of a list; anything
      else raises a TypeError. */
  function Membership(key: string, v: Json): Outcome<bool>
  {
    match v
    case JObj(fields) => Ok(key in fields)
    case JStr(s) => Ok(Contains(s, key))
    case JArr(items) => Ok(JStr(key) in items)
    case _ => Err("argument of type '" + TypeName(v) + "' is not iterable")
  }

  /** `SupervisorAgent.monitor`: false for a falsy result or one without "hotel_name". */
  function Monitor(result: Json): (r: Outcome<bool>)
    ensures !Truthy(result) ==> r == Ok(false)
    ensures result.JObj? ==> r == Ok(result.fields != map[] && "hotel_name" in result.fields)
    ensures r.Err? ==> Truthy(result) && !(result.JObj? || result.JStr? || result.JArr?)
  {
    if !Truthy(result) then Ok(false) else Membership("hotel_name", result)
  }

  /** The required fields from `fields` on: false at the first one missing. */
  function ValidateFrom(data: Json, fields: seq<string>): Outcome<bool>
  {
    if fields == [] then Ok(true)
    else match Membership(fields[0], data)
      case Err(e) => Err(e)
      case Ok(present) => if present then ValidateFrom(data, fields[1..]) else Ok(false)
  }

  function Validation(data: Json): Outcome<bool>
  {
    ValidateFrom(data, RequiredFields)
  }

  /** `ValidatorAgent.validate`. */
  method Validate(data: Json) returns (valid: Outcome<bool>)
    ensures valid == Validation(data)
  {
    for i := 0 to |RequiredFields|
      invariant Validation(data) == ValidateFrom(data, RequiredFields[i..])
    {
      assert RequiredFields[i..][1..] == RequiredFields[i + 1..];
      var field := RequiredFields[i];
      var present := Membership(field, data);
      if present.Err? {
        return Err(present.message);
      }
      if !present.value {
        return Ok(false);
      }
    }
    return Ok(true);
  }

  // ------------------------------------------------------------ the supervisor

  class SupervisorAgent {
    const hotelList: seq<string>
    var currentIndex: nat

    ghost predicate Valid()
      reads this
    {
      currentIndex <= |hotelList|
    }

    constructor(hotelList: seq<string>)
      ensures Valid() && this.hotelList == hotelList && currentIndex == 0
    {
      this.hotelList := hotelList;
      currentIndex := 0;
    }

    /** `delegate`: the next URL, each once and in order, then `None` for good. */
    method Delegate() returns (url: Option<string>)
      requires Valid()
      modifies this
      ensures Valid()
      ensures old(currentIndex) < |hotelList| ==>
        url == Some(hotelList[old(currentIndex)]) && currentIndex == old(currentIndex) + 1
      ensures old(currentIndex) == |hotelList| ==> url == None && currentIndex == old(currentIndex)
    {
      if currentIndex < |hotelList| {
        url := Some(hotelList[currentIndex]);
        currentIndex := currentIndex + 1;
      } else {
        url := None;
      }
    }
  }

  // ------------------------------------------------------------ one URL

  /** What happened to one URL: whether the scraper was restarted, and the record
      kept (`Some`), the record rejected (`None`), or the error raised. */
  datatype Step = Step(restarted: bool, outcome: Outcome<Option<Json>>)

  function StepFor(url: string, scrape: string -> Outcome<Json>, rescrape: string -> Outcome<Json>): Step
  {
    match scrape(url)
    case Err(e) => Step(false, Err(e))
    case Ok(result) =>
      match Monitor(result)
      case Err(e) => Step(false, Err(e))
      case Ok(fine) =>
        var final := if fine then Ok(result) else rescrape(url);
        match final
        case Err(e) => Step(!fine, Err(e))
        case Ok(data) =>
          match Validation(data)
          case Err(e) => Step(!fine, Err(e))
          case Ok(valid) => Step(!fine, Ok(if valid then Some(data) else None))
  }

  /** The body of the kickoff loop for one delegated URL. */
  method ProcessUrl(hotelUrl: string, scrape: string -> Outcome<Json>, rescrape: string -> Outcome<Json>)
    returns (step: Step)
    ensures step == StepFor(hotelUrl, scrape, rescrape)
  {
    var result := scrape(hotelUrl);
    if result.Err? {
      return Step(false, Err(result.message));
    }
    var fine := Monitor(result.value);
    if fine.Err? {
      return Step(false, Err(fine.message));
    }
    var data := result.value;
    if !fine.value {
      var again := rescrape(hotelUrl);
      if again.Err? {
        return Step(true, Err(again.message));
      }
      data := again.value;
    }
    var valid := Validate(data);
    if valid.Err? {
      return Step(!fine.value, Err(valid.message));
    }
    return Step(!fine.value, Ok(if valid.value then Some(data) else None));
  }

  // ------------------------------------------------------------ the kickoff loop

  function Steps(urls: seq<string>, scrape: string -> Outcome<Json>, rescrape: string -> Outcome<Json>): (r: seq<Step>)
    ensures |r| == |urls| && forall k :: 0 <= k < |urls| ==> r[k] == StepFor(urls[k], scrape, rescrape)
  {
    seq(|urls|, k requires 0 <= k < |urls| => StepFor(urls[k], scrape, rescrape))
  }

  /** The state after the first `n` URLs: the records appended, the URLs handed to a
      scraper (twice when restarted), and the error that stopped the loop, if any. */
  datatype Progress = Progress(appended: seq<Json>, calls: seq<string>, error: Option<string>)

  /** The record a step appends: the validated one, if any. */
  function KeptOf(step: Step): seq<Json>
  {
    if step.outcome.Ok? && step.outcome.value.Some? then [step.outcome.value.value] else []
  }

  function CallsFor(url: string, step: Step): seq<string>
  {
    if step.restarted then [url, url] else [url]
  }

  function Run(urls: seq<string>, steps: seq<Step>, n: nat): Progress
    requires n <= |urls| == |steps|
  {
    if n == 0 then Progress([], [], None)
    else
      var p := Run(urls, steps, n - 1);
      if p.error.Some? then p
      else
        var calls := p.calls + CallsFor(urls[n - 1], steps[n - 1]);
        match steps[n - 1].outcome
        case Err(e) => Progress(p.appended, calls, Some(e))
        case Ok(kept) => Progress(p.appended + (if kept.Some? then [kept.value] else []), calls, None)
  }

  class HotelScrapingCrew {
    const startUrl: string
    var results: seq<Json>

    constructor(startUrl: string)
      ensures this.startUrl == startUrl && results == []
    {
      this.startUrl := startUrl;
      results := [];
    }

    /** `kickoff`, given the collected URLs. Besides what it returns, it reports the
        URLs it handed to a scraper, in order. */
    method Kickoff(hotelUrls: seq<string>, scrape: string -> Outcome<Json>, rescrape: string -> Outcome<Json>)
      returns (r: Outcome<seq<Json>>, calls: seq<string>)
      modifies this
      ensures hotelUrls == [] ==> r == Ok([]) && calls == [] && results == old(results)
      ensures hotelUrls != [] ==>
        var p := Run(hotelUrls, Steps(hotelUrls, scrape, rescrape), |hotelUrls|);
        && results == old(results) + p.appended
        && calls == p.calls
        && r == if p.error.Some? then Err(p.error.value) else Ok(results)
    {
      calls := [];
      if hotelUrls == [] {
        return Ok([]), calls;
      }
      var supervisor := new SupervisorAgent(hotelUrls);
      r, calls := DelegateAll(supervisor, scrape, rescrape);
    }

    /** The `while True` loop of `kickoff`: delegate, scrape, monitor, maybe restart,
        validate, append, until the supervisor has no URL left. */
    method DelegateAll(supervisor: SupervisorAgent, scrape: string -> Outcome<Json>, rescrape: string -> Outcome<Json>)
      returns (r: Outcome<seq<Json>>, calls: seq<string>)
      requires supervisor.Valid() && supervisor.currentIndex == 0
      modifies this, supervisor
      ensures var urls := supervisor.hotelList;
        var p := Run(urls, Steps(urls, scrape, rescrape), |urls|);
        && results == old(results) + p.appended
        && calls == p.calls
        && r == if p.error.Some? then Err(p.error.value) else Ok(results)
    {
      calls := [];
      ghost var hotelUrls := supervisor.hotelList;
      ghost var steps := Steps(hotelUrls, scrape, rescrape);
      ghost var progress := Run(hotelUrls, steps, 0);
      while true
        invariant supervisor.Valid()
        invariant progress == Run(hotelUrls, steps, supervisor.currentIndex) && progress.error.None?
        invariant results == old(results) + progress.appended && calls == progress.calls
        decreases |hotelUrls| - supervisor.currentIndex
      {
        ghost var i := supervisor.currentIndex;
        var hotelUrl := supervisor.Delegate();
        if hotelUrl.None? {
          break;
        }
        assert hotelUrl.value == hotelUrls[i] && supervisor.currentIndex == i + 1;
        var step := ProcessUrl(hotelUrl.value, scrape, rescrape);
        assert step == steps[i];
        RunNext(hotelUrls, steps, i);
        progress := Run(hotelUrls, steps, i + 1);
        calls := calls + CallsFor(hotelUrl.value, step);
        if step.outcome.Err? {
          ErrorStays(hotelUrls, steps, i + 1, |hotelUrls|);
          return Err(step.outcome.message), calls;
        }
        KeepValidated(step);
        AppendAssoc(old(results), progress.appended, KeptOf(step));
      }
      return Ok(results), calls;
    }

    /** The end of the loop body: `results.append` of a validated record. */
    method KeepValidated(step: Step)
      modifies this
      ensures results == old(results) + KeptOf(step)
    {
      if step.outcome.Ok? && step.outcome.value.Some? {
        results := results + [step.outcome.value.value];
      }
    }
  }

  // ------------------------------------------------------------ properties

  /** One more URL after a run without error. */
  lemma RunNext(urls: seq<string>, steps: seq<Step>, i: nat)
    requires i < |urls| == |steps| && Run(urls, steps, i).error.None?
    ensures var p := Run(urls, steps, i);
      var s := steps[i];
      Run(urls, steps, i + 1) ==
        Progress(p.appended + KeptOf(s),
                 p.calls + CallsFor(urls[i], s),
                 if s.outcome.Err? then Some(s.outcome.message) else None)
  {
  }

  lemma AppendAssoc<X>(a: seq<X>, b: seq<X>, c: seq<X>)
    ensures (a + b) + c == a + (b + c)
  {
  }

  /** Once a scrape, the monitor or the validator has raised, the loop stays stopped. */
  lemma {:induction false} ErrorStays(urls: seq<string>, steps: seq<Step>, n: nat, m: nat)
    requires n <= m <= |urls| == |steps|
    requires Run(urls, steps, n).error.Some?
    ensures Run(urls, steps, m) == Run(urls, steps, n)
    decreases m - n
  {
    if n < m {
      ErrorStays(urls, steps, n, m - 1);
    }
  }

  /** `monitor` case by case: a dict passes when "hotel_name" is a key, a str when it
      contains "hotel_name", a list when it has "hotel_name" as an element (for these the
      emptiness test adds nothing); None, False and 0 fail it, and it raises exactly on
      the other scalars. */
  lemma MonitorMeaning(result: Json)
    ensures result.JObj? ==> Monitor(result) == Ok("hotel_name" in result.fields)
    ensures result.JStr? ==> Monitor(result) == Ok(Contains(result.s, "hotel_name"))
    ensures result.JArr? ==> Monitor(result) == Ok(JStr("hotel_name") in result.items)
    ensures result.JNull? || result == JBool(false) || result == JNum(0) ==> Monitor(result) == Ok(false)
    ensures Monitor(result).Err? <==> result == JOther || result == JBool(true) || (result.JNum? && result.n != 0)
  {
    if result.JStr? && result.s == [] {
      assert !Contains(result.s, "hotel_name");
    }
  }

  /** `validate` on a dict checks key presence only: it is true exactly when all three
      required keys are present, whatever their values. */
  lemma ValidationOfDict(fields: map<string, Json>)
    ensures Validation(JObj(fields)) == Ok("hotel_name" in fields && "address" in fields && "price" in fields)
  {
    var data := JObj(fields);
    assert ["price"][1..] == [];
    assert ValidateFrom(data, ["price"]) == Ok("price" in fields);
    assert ["address", "price"][1..] == ["price"];
    assert ValidateFrom(data, ["address", "price"]) == Ok("address" in fields && "price" in fields);
    assert RequiredFields[1..] == ["address", "price"];
  }

  /** Validating a value that is not a container (such as None) raises. */
  lemma ValidationRaisesOnScalars(data: Json)
    requires data.JNull? || data.JBool? || data.JNum? || data.JOther?
    ensures Validation(data).Err?
  {
  }

  /** A restart happens only when the first scrape returned and the monitor rejected it. */
  lemma RestartOnlyOnMonitorFailure(url: string, scrape: string -> Outcome<Json>, rescrape: string -> Outcome<Json>)
    ensures StepFor(url, scrape, rescrape).restarted <==>
      scrape(url).Ok? && Monitor(scrape(url).value) == Ok(false)
  {
  }

  /** Every kept record passed validation, and came from the scrape the monitor
      accepted or from the restart. */
  lemma KeptRecordIsValidated(url: string, scrape: string -> Outcome<Json>, rescrape: string -> Outcome<Json>)
    requires StepFor(url, scrape, rescrape).outcome.Ok? && StepFor(url, scrape, rescrape).outcome.value.Some?
    ensures var data := StepFor(url, scrape, rescrape).outcome.value.value;
      && Validation(data) == Ok(true)
      && (if StepFor(url, scrape, rescrape).restarted then rescrape(url) == Ok(data) else scrape(url) == Ok(data))
  {
  }

  /** The number of restarts among the first `n` steps. */
  function Restarts(steps: seq<Step>, n: nat): (r: nat)
    requires n <= |steps|
    ensures r <= n
  {
    if n == 0 then 0 else Restarts(steps, n - 1) + (if steps[n - 1].restarted then 1 else 0)
  }

  /** Each URL is handed to a scraper once, plus once more when it was restarted, in
      URL order. */
  lemma {:induction false} RunCalls(urls: seq<string>, steps: seq<Step>, n: nat)
    requires n <= |urls| == |steps|
    ensures var p := Run(urls, steps, n);
      && (p.error.None? ==> |p.calls| == n + Restarts(steps, n))
      && |p.calls| <= 2 * n
      && (forall k :: 0 <= k < |p.calls| ==> p.calls[k] in urls[..n])
  {
    if n > 0 {
      RunCalls(urls, steps, n - 1);
      var p := Run(urls, steps, n - 1);
      assert urls[..n] == urls[..n - 1] + [urls[n - 1]];
      if p.error.None? {
        RunNext(urls, steps, n - 1);
        var q := Run(urls, steps, n);
        var extra := CallsFor(urls[n - 1], steps[n - 1]);
        assert q.calls == p.calls + extra;
        assert forall k :: 0 <= k < |extra| ==> extra[k] == urls[n - 1];
      }
    }
  }

  /** A step keeps only a record that passed validation. */
  predicate KeepsValidated(step: Step)
  {
    step.outcome.Ok? && step.outcome.value.Some? ==> Validation(step.outcome.value.value) == Ok(true)
  }

  lemma StepsKeepValidated(urls: seq<string>, scrape: string -> Outcome<Json>, rescrape: string -> Outcome<Json>)
    ensures forall k :: 0 <= k < |urls| ==> KeepsValidated(Steps(urls, scrape, rescrape)[k])
  {
    forall k | 0 <= k < |urls| ensures KeepsValidated(Steps(urls, scrape, rescrape)[k]) {
      var s := StepFor(urls[k], scrape, rescrape);
      if s.outcome.Ok? && s.outcome.value.Some? {
        KeptRecordIsValidated(urls[k], scrape, rescrape);
      }
    }
  }

  /** Every appended record passed validation. */
  lemma {:induction false} RunKeepsValidated(urls: seq<string>, steps: seq<Step>, n: nat)
    requires n <= |urls| == |steps|
    requires forall k :: 0 <= k < |steps| ==> KeepsValidated(steps[k])
    ensures forall k :: 0 <= k < |Run(urls, steps, n).appended| ==> Validation(Run(urls, steps, n).appended[k]) == Ok(true)
  {
    if n > 0 {
      RunKeepsValidated(urls, steps, n - 1);
      var p := Run(urls, steps, n - 1);
      if p.error.None? {
        RunNext(urls, steps, n - 1);
        assert KeepsValidated(steps[n - 1]);
      }
    }
  }

  /** Processing more URLs only extends what earlier ones appended and scraped: the
      records stay in URL order. */
  lemma {:induction false} RunExtends(urls: seq<string>, steps: seq<Step>, m: nat, n: nat)
    requires m <= n <= |urls| == |steps|
    ensures Run(urls, steps, m).appended <= Run(urls, steps, n).appended
    ensures Run(urls, steps, m).calls <= Run(urls, steps, n).calls
    decreases n - m
  {
    if m < n {
      RunExtends(urls, steps, m, n - 1);
    }
  }
}
