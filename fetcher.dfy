/** The fetch engine of cocrawler/fetcher.py: the per-URL policy bundle,
    the bounded retry loop of `fetch`, and the scheme upgrade hook.

    Every attempt of `fetch` is described by what the outside world does
    on that attempt: what the DNS pre-resolution produces (if it is asked)
    and what the HTTP request produces. The loop itself, its
    `while ... else`, its breaks, its retry sleeps (as a count) and its
    `stats_sum` calls are modelled; time, sockets, the aiohttp session and
    the `coroutine_state` timers are not. */
module Fetcher {
  import opened Base
  import Dns

  type Bytes = seq<bv8>

  // ---------------------------------------------------------------------
  // apply_url_policies

  /** headers, proxy, mock_url and mock_robots, as apply_url_policies returns them. */
  datatype Policy = Policy(headers: map<string, string>, proxy: Option<string>,
                           mockUrl: Option<UrlParts>, mockRobots: Option<string>)

  /** `test_host and test_host != 'n'`: set, non-empty and not the string "n". */
  predicate MockEnabled(testHost: Option<string>)
  {
    testHost.Some? && testHost.value != "" && testHost.value != "n"
  }

  /** apply_url_policies, given the Testing.TestHostmapAll setting. */
  function ApplyUrlPolicies(parts: UrlParts, testHost: Option<string>): (p: Policy)
    ensures p.proxy == None
    ensures !MockEnabled(testHost) <==> p.headers == map[]
    ensures !MockEnabled(testHost) ==> p.mockUrl == None && p.mockRobots == None
    ensures MockEnabled(testHost) ==>
      && p.headers.Keys == {"Host"} && p.headers["Host"] == parts.netloc
      && p.mockUrl.Some? && p.mockUrl.value.netloc == testHost.value
      && p.mockUrl.value.(netloc := p.headers["Host"]) == parts
      && p.mockRobots == Some(parts.scheme + "://" + testHost.value + "/robots.txt")
  {
    if MockEnabled(testHost) then
      var headers := map["Host" := parts.netloc];
      assert "Host" in headers;
      Policy(headers, None,
             Some(parts.(netloc := testHost.value)),
             Some(parts.scheme + "://" + testHost.value + "/robots.txt"))
    else
      Policy(map[], None, None, None)
  }

  /** upgrade_scheme: a hook that does not upgrade anything yet. */
  function UpgradeScheme(url: string): (r: string)
    ensures r == url
  {
    url
  }

  /** Mock mode: the header keeps the original host while the address is looked
      up for the fixture host, on port 80 although the scheme is https. */
  lemma MockedFetchTarget()
    ensures var parts := UrlParts("https", "example.com", "/page", "", "", "");
            var p := ApplyUrlPolicies(parts, Some("fixture.local"));
            && p.headers == map["Host" := "example.com"]
            && p.mockUrl == Some(UrlParts("https", "fixture.local", "/page", "", "", ""))
            && Dns.LookupKey(Dns.TargetNetloc(parts, p.mockUrl)) == Success(Dns.Key("fixture.local", 80))
  {
    var parts := UrlParts("https", "example.com", "/page", "", "", "");
    var host := "fixture.local";
    assert MockEnabled(Some(host)) by { assert host[0] != 'n'; }
    var p := ApplyUrlPolicies(parts, Some(host));
    assert p.mockUrl == Some(parts.(netloc := host));
    assert Dns.TargetNetloc(parts, p.mockUrl) == host;
    assert ':' !in host by {
      forall i | 0 <= i < |host| ensures host[i] != ':' { }
    }
    Dns.LookupKeyDefaultPort(host);
    assert p.headers == map["Host" := "example.com"];
  }

  // ---------------------------------------------------------------------
  // What one attempt of fetch meets

  datatype Response = Response(status: int)

  /** A response that was fully read: the response object, the body bytes, the
      raw header bytes and the first- and last-byte times as formatted. */
  datatype Reply = Reply(response: Response, body: Bytes, headerBytes: Bytes,
                         tFirstByte: string, tLastByte: string)

  /** What dns.prefetch_dns does on an attempt that calls it. */
  datatype DnsStep = DnsDone(result: Dns.Prefetch) | DnsCancelled

  /** What session.get and response.read do. */
  datatype HttpStep = Received(reply: Reply) | HttpRaised(e: Exc) | HttpCancelled

  datatype Attempt = Attempt(dns: DnsStep, http: HttpStep)

  /** The outside world: what attempt i (counting from 0) meets. */
  type World = nat -> Attempt

  predicate GotAddresses(s: DnsStep)
  {
    s.DnsDone? && s.result.Addresses? && s.result.ips != []
  }

  /** Whether iplist is non-empty when attempt i starts. */
  function HaveIps(world: World, i: nat): bool
    decreases i
  {
    i > 0 && (HaveIps(world, i - 1) || GotAddresses(world(i - 1).dns))
  }

  /** How many of the first n attempts call prefetch_dns. */
  function Lookups(world: World, n: nat): nat
    decreases n
  {
    if n == 0 then 0 else Lookups(world, n - 1) + (if HaveIps(world, n - 1) then 0 else 1)
  }

  /** How attempt i ends. */
  datatype Step =
    | Finished(reply: Reply)            // status < 500: break
    | ServerError(reply: Reply)         // status >= 500: sleep and retry
    | Errored(lastException: string)    // an exception was caught: sleep and retry
    | Cancelled                         // CancelledError: re-raised

  /** How an attempt ends, given whether it calls prefetch_dns (iplist still empty). */
  function AttemptEnd(callsDns: bool, a: Attempt): Step
  {
    if callsDns && a.dns.DnsCancelled? then Cancelled
    else if callsDns && a.dns.result.Raised? then Errored(Dns.ErrorRepr(a.dns.result.error))
    else
      match a.http
      case Received(reply) => if reply.response.status < 500 then Finished(reply) else ServerError(reply)
      case HttpRaised(e) => Errored(Repr(e))
      case HttpCancelled => Cancelled
  }

  function StepAt(world: World, i: nat): Step
  {
    AttemptEnd(!HaveIps(world, i), world(i))
  }

  /** The attempts that leave the loop early. */
  predicate Breaks(s: Step)
  {
    s.Finished? || s.Cancelled?
  }

  /** The first attempt in [from, max) that leaves the loop early, if any. */
  function FirstBreak(world: World, from: nat, max: nat): (r: Option<nat>)
    ensures r.Some? ==> from <= r.value < max && Breaks(StepAt(world, r.value))
    ensures r.Some? ==> forall j :: from <= j < r.value ==> !Breaks(StepAt(world, j))
    ensures r.None? ==> forall j :: from <= j < max ==> !Breaks(StepAt(world, j))
    decreases max - from
  {
    if from >= max then None
    else if Breaks(StepAt(world, from)) then Some(from)
    else FirstBreak(world, from + 1, max)
  }

  // ---------------------------------------------------------------------
  // What fetch returns

  /** The exceptions that escape fetch. */
  datatype Escape =
    | ProxyNotImplemented   // ValueError('not yet implemented')
    | CancelledError        // re-raised from an attempt
    | NoAttemptMade         // MaxSubTries < 1: None.status or an unbound body_bytes

  /** The fetcher_return named tuple. */
  datatype FetchReturn = FetchReturn(response: Option<Response>, bodyBytes: Option<Bytes>,
                                     headerBytes: Option<Bytes>, tFirstByte: Option<string>,
                                     tLastByte: Option<string>, lastException: Option<string>)

  datatype FetchOutcome = Returned(ret: FetchReturn) | Threw(escape: Escape)

  /** One stats.stats_sum(name, amount) call. */
  datatype StatsSum = StatsSum(name: string, amount: int)

  /** Everything a call of fetch does: its outcome, its stats_sum calls in order,
      and how many attempts, retry sleeps and prefetch_dns calls it made. */
  datatype Run = Run(outcome: FetchOutcome, stats: seq<StatsSum>,
                     attempts: nat, sleeps: nat, dnsLookups: nat)

  function Delivered(reply: Reply): FetchReturn
  {
    FetchReturn(Some(reply.response), Some(reply.body), Some(reply.headerBytes),
                Some(reply.tFirstByte), Some(reply.tLastByte), None)
  }

  function Failed(lastException: string): FetchReturn
  {
    FetchReturn(None, None, None, None, None, Some(lastException))
  }

  function CodeCounter(status: int): string
  {
    "fetch http code=" + IntToString(status)
  }

  function DeliveredStats(statsMe: bool, status: int): seq<StatsSum>
  {
    if statsMe then [StatsSum("fetch URLs", 1), StatsSum(CodeCounter(status), 1)] else []
  }

  /** `if proxy:` */
  predicate ProxyGiven(proxy: Option<string>)
  {
    proxy.Some? && proxy.value != ""
  }

  /** What fetch does, stated by the first attempt that leaves the loop early
      and, when there is none, by the last attempt. */
  function FetchRun(maxSubTries: int, proxy: Option<string>, statsMe: bool, world: World): Run
  {
    if ProxyGiven(proxy) then Run(Threw(ProxyNotImplemented), [], 0, 0, 0)
    else if maxSubTries < 1 then
      Run(Threw(NoAttemptMade), if statsMe then [StatsSum("fetch URLs", 1)] else [], 0, 0, 0)
    else
      var first := FirstBreak(world, 0, maxSubTries);
      if first.Some? then
        var k := first.value;
        var step := StepAt(world, k);
        if step.Cancelled? then Run(Threw(CancelledError), [], k + 1, k, Lookups(world, k + 1))
        else Run(Returned(Delivered(step.reply)), DeliveredStats(statsMe, step.reply.response.status),
                 k + 1, k, Lookups(world, k + 1))
      else
        var last := StepAt(world, maxSubTries - 1);
        if last.Errored? then
          Run(Returned(Failed(last.lastException)), [], maxSubTries, maxSubTries, Lookups(world, maxSubTries))
        else
          Run(Returned(Delivered(last.reply)), DeliveredStats(statsMe, last.reply.response.status),
              maxSubTries, maxSubTries, Lookups(world, maxSubTries))
  }

  /** FetchRun when attempt k is the first to leave the loop early. */
  lemma FetchRunBreaksAt(maxSubTries: int, proxy: Option<string>, statsMe: bool, world: World, k: nat)
    requires !ProxyGiven(proxy) && k < maxSubTries
    requires Breaks(StepAt(world, k)) && forall j :: 0 <= j < k ==> !Breaks(StepAt(world, j))
    ensures FetchRun(maxSubTries, proxy, statsMe, world) ==
      if StepAt(world, k).Cancelled? then Run(Threw(CancelledError), [], k + 1, k, Lookups(world, k + 1))
      else Run(Returned(Delivered(StepAt(world, k).reply)),
               DeliveredStats(statsMe, StepAt(world, k).reply.response.status), k + 1, k, Lookups(world, k + 1))
  {
  }

  /** FetchRun when no attempt leaves the loop early. */
  lemma FetchRunExhausted(maxSubTries: int, proxy: Option<string>, statsMe: bool, world: World)
    requires !ProxyGiven(proxy) && maxSubTries >= 1
    requires forall j :: 0 <= j < maxSubTries ==> !Breaks(StepAt(world, j))
    ensures var last := StepAt(world, maxSubTries - 1);
      FetchRun(maxSubTries, proxy, statsMe, world) ==
        if last.Errored? then
          Run(Returned(Failed(last.lastException)), [], maxSubTries, maxSubTries, Lookups(world, maxSubTries))
        else
          Run(Returned(Delivered(last.reply)), DeliveredStats(statsMe, last.reply.response.status),
              maxSubTries, maxSubTries, Lookups(world, maxSubTries))
  {
  }

  // ---------------------------------------------------------------------
  // fetch

  /** One pass of the loop body, up to the retry sleep: prefetch_dns when no
      address is known yet, then the request and the read of the whole response.
      `ended` is how the pass leaves the body (break, fall through to the sleep,
      the handler that records repr(e), or the re-raised cancellation), and `ips`
      is iplist afterwards. */
  method TryOnce(iplist: seq<string>, attempt: Attempt) returns (ips: seq<string>, ended: Step)
    ensures ended == AttemptEnd(iplist == [], attempt)
    ensures ips == if iplist == [] && attempt.dns.DnsDone? && attempt.dns.result.Addresses?
                   then attempt.dns.result.ips else iplist
  {
    ips := iplist;
    if iplist == [] {
      match attempt.dns {
        case DnsCancelled =>
          return ips, Cancelled;
        case DnsDone(Raised(error)) =>
          return ips, Errored(Dns.ErrorRepr(error));
        case DnsDone(Addresses(found)) =>
          ips := found;
      }
    }
    match attempt.http {
      case HttpCancelled =>
        ended := Cancelled;
      case HttpRaised(e) =>
        ended := Errored(Repr(e));
      case Received(reply) =>
        ended := if reply.response.status < 500 then Finished(reply) else ServerError(reply);
    }
  }

  /** The retry loop of fetch, run against the given world. */
  method Fetch(maxSubTries: int, proxy: Option<string>, statsMe: bool, world: World)
    returns (outcome: FetchOutcome, stats: seq<StatsSum>,
             ghost attempts: nat, ghost sleeps: nat, ghost dnsLookups: nat)
    // what the caller receives and what it counts, then the whole run with the
    // ghost counters of attempts, sleeps and lookups
    ensures outcome == FetchRun(maxSubTries, proxy, statsMe, world).outcome
    ensures stats == FetchRun(maxSubTries, proxy, statsMe, world).stats
    ensures Run(outcome, stats, attempts, sleeps, dnsLookups) == FetchRun(maxSubTries, proxy, statsMe, world)
  {
    stats := [];
    attempts, sleeps, dnsLookups := 0, 0, 0;
    if ProxyGiven(proxy) {
      outcome := Threw(ProxyNotImplemented);
      return;
    }

    var subtries: nat := 0;
    var lastException: Option<string> := None;
    var response: Option<Response> := None;
    // body_bytes, header_bytes, t_first_byte and t_last_byte, as read by the
    // latest attempt that read a response; unbound (None) until then
    var read: Option<Reply> := None;
    var iplist: seq<string> := [];
    var broke := false;
    // how the previous attempt ended; its initial value means nothing while subtries == 0
    ghost var lastStep := Cancelled;

    while subtries < maxSubTries
      invariant subtries == 0 || subtries <= maxSubTries
      invariant attempts == subtries && sleeps == subtries && dnsLookups == Lookups(world, subtries)
      invariant (iplist != []) == HaveIps(world, subtries)
      invariant forall j :: 0 <= j < subtries ==> !Breaks(StepAt(world, j))
      invariant subtries == 0 ==> lastException.None? && response.None? && read.None?
      invariant subtries > 0 ==> lastStep == StepAt(world, subtries - 1)
      invariant lastStep.Errored? ==> lastException == Some(lastStep.lastException)
      invariant lastStep.ServerError? ==>
                  lastException.None? && response == Some(lastStep.reply.response) && read == Some(lastStep.reply)
      invariant !broke && stats == []
    {
      subtries := subtries + 1;
      attempts := subtries;
      if iplist == [] {
        dnsLookups := dnsLookups + 1;
      }
      var ended;
      iplist, ended := TryOnce(iplist, world(subtries - 1));
      lastStep := ended;
      match ended {
        case Cancelled =>
          FetchRunBreaksAt(maxSubTries, proxy, statsMe, world, subtries - 1);
          outcome := Threw(CancelledError);
          return;
        case Finished(reply) =>
          lastException, response, read := None, Some(reply.response), Some(reply);
          FetchRunBreaksAt(maxSubTries, proxy, statsMe, world, subtries - 1);
          broke := true;
          break;
        case ServerError(reply) =>
          lastException, response, read := None, Some(reply.response), Some(reply);
        case Errored(repr) =>
          lastException := Some(repr);
      }
      // the retry sleep
      sleeps := sleeps + 1;
    }

    outcome, stats := AfterLoop(maxSubTries, proxy, statsMe, world, broke, lastException, response, read,
                                subtries, lastStep);
  }

  /** The `else` of the loop and the code after it: the failure return when the
      loop ran out and the last attempt raised, otherwise the statistics and the
      return of the last response read. */
  method AfterLoop(ghost maxSubTries: int, ghost proxy: Option<string>, statsMe: bool, ghost world: World,
                   broke: bool, lastException: Option<string>, response: Option<Response>, read: Option<Reply>,
                   ghost subtries: nat, ghost lastStep: Step)
    returns (outcome: FetchOutcome, stats: seq<StatsSum>)
    requires !ProxyGiven(proxy)
    requires forall j :: 0 <= j < subtries - 1 ==> !Breaks(StepAt(world, j))
    requires subtries > 0 ==> lastStep == StepAt(world, subtries - 1)
    requires broke ==> && subtries >= 1 && subtries <= maxSubTries && lastStep.Finished?
                       && lastException.None? && response == Some(lastStep.reply.response) && read == Some(lastStep.reply)
    requires !broke ==> subtries == (if maxSubTries < 1 then 0 else maxSubTries)
    requires !broke && subtries > 0 ==> !Breaks(lastStep)
    requires subtries == 0 ==> lastException.None? && response.None? && read.None?
    requires lastStep.Errored? ==> lastException == Some(lastStep.lastException)
    requires lastStep.ServerError? ==>
               lastException.None? && response == Some(lastStep.reply.response) && read == Some(lastStep.reply)
    // what the caller receives and what it counts
    ensures outcome == FetchRun(maxSubTries, proxy, statsMe, world).outcome
    ensures stats == FetchRun(maxSubTries, proxy, statsMe, world).stats
  {
    if broke {
      FetchRunBreaksAt(maxSubTries, proxy, statsMe, world, subtries - 1);
    } else if maxSubTries >= 1 {
      FetchRunExhausted(maxSubTries, proxy, statsMe, world);
    }
    stats := [];
    if !broke && lastException.Some? && lastException.value != "" {
      outcome := Returned(FetchReturn(None, None, None, None, None, lastException));
      return;
    }
    if statsMe {
      stats := stats + [StatsSum("fetch URLs", 1)];
      if response.None? {
        outcome := Threw(NoAttemptMade);
        return;
      }
      stats := stats + [StatsSum(CodeCounter(response.value.status), 1)];
    }
    if read.None? {
      outcome := Threw(NoAttemptMade);
      return;
    }
    outcome := Returned(FetchReturn(response, Some(read.value.body), Some(read.value.headerBytes),
                                    Some(read.value.tFirstByte), Some(read.value.tLastByte), None));
  }

  // ---------------------------------------------------------------------
  // Properties of fetch

  /** iplist is non-empty when attempt i starts exactly when some earlier
      attempt's prefetch_dns returned addresses. */
  lemma {:induction false} HaveIpsIff(world: World, i: nat)
    ensures HaveIps(world, i) <==> exists j :: 0 <= j < i && GotAddresses(world(j).dns)
    decreases i
  {
    if i > 0 {
      HaveIpsIff(world, i - 1);
      if GotAddresses(world(i - 1).dns) {
        assert exists j :: 0 <= j < i && GotAddresses(world(j).dns) by {
          assert 0 <= i - 1 < i && GotAddresses(world(i - 1).dns);
        }
      }
    }
  }

  /** Once an attempt has obtained addresses, no later attempt calls prefetch_dns. */
  lemma {:induction false} NoLookupAfterAddresses(world: World, i: nat, n: nat)
    requires GotAddresses(world(i).dns) && i < n
    ensures HaveIps(world, n) && Lookups(world, n) == Lookups(world, i + 1)
    decreases n
  {
    if n > i + 1 {
      NoLookupAfterAddresses(world, i, n - 1);
    }
  }

  /** The first attempt always calls prefetch_dns, and no attempt calls it twice. */
  lemma {:induction false} LookupsBounded(world: World, n: nat)
    ensures Lookups(world, n) <= n
    ensures n > 0 ==> Lookups(world, n) >= 1
    decreases n
  {
    if n > 0 {
      LookupsBounded(world, n - 1);
    }
  }

  /** fetch makes at most MaxSubTries attempts, and at least one unless a proxy
      is given or MaxSubTries < 1; it calls prefetch_dns on at most that many. */
  lemma AttemptsBounded(maxSubTries: int, proxy: Option<string>, statsMe: bool, world: World)
    ensures var r := FetchRun(maxSubTries, proxy, statsMe, world);
      && r.attempts <= (if maxSubTries < 0 then 0 else maxSubTries)
      && (r.attempts >= 1 <==> !ProxyGiven(proxy) && maxSubTries >= 1)
      && r.dnsLookups <= r.attempts
      && (r.attempts >= 1 ==> r.dnsLookups >= 1)
  {
    LookupsBounded(world, FetchRun(maxSubTries, proxy, statsMe, world).attempts);
  }

  /** A non-empty proxy raises before any attempt, lookup, sleep or statistic. */
  lemma ProxyFailsFast(maxSubTries: int, proxy: Option<string>, statsMe: bool, world: World)
    ensures FetchRun(maxSubTries, proxy, statsMe, world).outcome == Threw(ProxyNotImplemented)
            <==> ProxyGiven(proxy)
    ensures ProxyGiven(proxy) ==> FetchRun(maxSubTries, proxy, statsMe, world) ==
                                  Run(Threw(ProxyNotImplemented), [], 0, 0, 0)
  {
  }

  /** Every attempt but the last continued the loop, and the last one left it
      early unless MaxSubTries attempts were made. */
  lemma StopsAtFirstBreak(maxSubTries: int, proxy: Option<string>, statsMe: bool, world: World)
    ensures var r := FetchRun(maxSubTries, proxy, statsMe, world);
      && (forall j :: 0 <= j < r.attempts - 1 ==> !Breaks(StepAt(world, j)))
      && (1 <= r.attempts < maxSubTries ==> Breaks(StepAt(world, r.attempts - 1)))
  {
  }

  /** A returned response is the one the last attempt read; it has status >= 500
      only when all MaxSubTries attempts were made. */
  lemma ResponseFromLastAttempt(maxSubTries: int, proxy: Option<string>, statsMe: bool, world: World)
    ensures var r := FetchRun(maxSubTries, proxy, statsMe, world);
      r.outcome.Returned? && r.outcome.ret.response.Some? ==>
        && r.attempts >= 1
        && (StepAt(world, r.attempts - 1).Finished? || StepAt(world, r.attempts - 1).ServerError?)
        && r.outcome.ret == Delivered(StepAt(world, r.attempts - 1).reply)
        && (r.outcome.ret.response.value.status >= 500 ==> r.attempts == maxSubTries)
  {
  }

  /** fetch returns an error exactly when every attempt continued the loop and the
      last one raised; the error is the last attempt's, whatever came before. */
  lemma ErrorOnlyFromFinalAttempt(maxSubTries: int, proxy: Option<string>, statsMe: bool, world: World)
    ensures var r := FetchRun(maxSubTries, proxy, statsMe, world);
      (r.outcome.Returned? && r.outcome.ret.lastException.Some?) <==>
        && !ProxyGiven(proxy) && maxSubTries >= 1
        && (forall j :: 0 <= j < maxSubTries ==> !Breaks(StepAt(world, j)))
        && StepAt(world, maxSubTries - 1).Errored?
    ensures var r := FetchRun(maxSubTries, proxy, statsMe, world);
      r.outcome.Returned? && r.outcome.ret.lastException.Some? ==>
        && r.attempts == maxSubTries
        && r.outcome.ret == Failed(StepAt(world, maxSubTries - 1).lastException)
  {
    if !ProxyGiven(proxy) && maxSubTries >= 1 && forall j :: 0 <= j < maxSubTries ==> !Breaks(StepAt(world, j)) {
      FetchRunExhausted(maxSubTries, proxy, statsMe, world);
    }
  }

  /** When the last of MaxSubTries attempts got a 5xx, fetch returns that response
      and no error, even when earlier attempts raised. */
  lemma ServerErrorFallsThrough(maxSubTries: int, proxy: Option<string>, statsMe: bool, world: World)
    requires !ProxyGiven(proxy) && maxSubTries >= 1
    requires forall j :: 0 <= j < maxSubTries ==> !Breaks(StepAt(world, j))
    requires StepAt(world, maxSubTries - 1).ServerError?
    ensures var reply := StepAt(world, maxSubTries - 1).reply;
      && reply.response.status >= 500
      && FetchRun(maxSubTries, proxy, statsMe, world).outcome == Returned(Delivered(reply))
  {
    FetchRunExhausted(maxSubTries, proxy, statsMe, world);
  }

  /** Every returned tuple has either a response (with body, headers and times)
      or an error (and nothing else); fetch raises only for a proxy, for
      MaxSubTries < 1, or for a cancelled attempt. */
  lemma ResponseXorError(maxSubTries: int, proxy: Option<string>, statsMe: bool, world: World)
    ensures var r := FetchRun(maxSubTries, proxy, statsMe, world);
      r.outcome.Returned? ==>
        var t := r.outcome.ret;
        && (t.response.Some? <==> t.lastException.None?)
        && (t.response.Some? ==> t.bodyBytes.Some? && t.headerBytes.Some? && t.tFirstByte.Some? && t.tLastByte.Some?)
        && (t.lastException.Some? ==> t == Failed(t.lastException.value) && t.lastException.value != [])
    ensures var r := FetchRun(maxSubTries, proxy, statsMe, world);
      r.outcome.Threw? <==>
        || ProxyGiven(proxy) || maxSubTries < 1
        || (FirstBreak(world, 0, maxSubTries).Some? && StepAt(world, FirstBreak(world, 0, maxSubTries).value).Cancelled?)
  {
    if !ProxyGiven(proxy) && maxSubTries >= 1 && FirstBreak(world, 0, maxSubTries).None? {
      var last := StepAt(world, maxSubTries - 1);
      if last.Errored? {
        assert last.lastException != [] by {
          var a := world(maxSubTries - 1);
          if !HaveIps(world, maxSubTries - 1) && a.dns.DnsDone? && a.dns.result.Raised? {
          } else {
            assert a.http.HttpRaised?;
          }
        }
      }
    }
  }

  /** How many of the first n attempts continue the loop. */
  function Retries(world: World, n: nat): nat
    decreases n
  {
    if n == 0 then 0 else Retries(world, n - 1) + (if Breaks(StepAt(world, n - 1)) then 0 else 1)
  }

  lemma {:induction false} RetriesWhenNoneBreak(world: World, n: nat)
    requires forall j :: 0 <= j < n ==> !Breaks(StepAt(world, j))
    ensures Retries(world, n) == n
    decreases n
  {
    if n > 0 {
      RetriesWhenNoneBreak(world, n - 1);
    }
  }

  /** Exactly one retry sleep follows every attempt that continues the loop, the
      last of MaxSubTries attempts included; none follows the attempt that breaks. */
  lemma SleepsAreRetries(maxSubTries: int, proxy: Option<string>, statsMe: bool, world: World)
    ensures var r := FetchRun(maxSubTries, proxy, statsMe, world);
      r.sleeps == Retries(world, r.attempts)
    ensures var r := FetchRun(maxSubTries, proxy, statsMe, world);
      r.sleeps == (if r.attempts >= 1 && Breaks(StepAt(world, r.attempts - 1)) then r.attempts - 1 else r.attempts)
  {
    var r := FetchRun(maxSubTries, proxy, statsMe, world);
    if r.attempts >= 1 {
      StopsAtFirstBreak(maxSubTries, proxy, statsMe, world);
      RetriesWhenNoneBreak(world, r.attempts - 1);
    }
  }

  /** A cancelled attempt ends fetch at once: no sleep after it, no further
      attempt, no statistics and no recorded error. */
  lemma CancellationAborts(maxSubTries: int, proxy: Option<string>, statsMe: bool, world: World, k: nat)
    requires !ProxyGiven(proxy) && k < maxSubTries
    requires forall j :: 0 <= j < k ==> !Breaks(StepAt(world, j))
    requires StepAt(world, k) == Cancelled
    ensures FetchRun(maxSubTries, proxy, statsMe, world) ==
              Run(Threw(CancelledError), [], k + 1, k, Lookups(world, k + 1))
  {
    FetchRunBreaksAt(maxSubTries, proxy, statsMe, world, k);
  }

  /** stats_sum is called only on the path that returns a response: once for
      'fetch URLs' and once for that response's status. */
  lemma StatsOnlyForReturnedResponse(maxSubTries: int, proxy: Option<string>, statsMe: bool, world: World)
    ensures var r := FetchRun(maxSubTries, proxy, statsMe, world);
      r.stats == if r.outcome.Returned? && r.outcome.ret.response.Some? then
                   DeliveredStats(statsMe, r.outcome.ret.response.value.status)
                 else if r.outcome == Threw(NoAttemptMade) && statsMe then [StatsSum("fetch URLs", 1)]
                 else []
    ensures !statsMe ==> FetchRun(maxSubTries, proxy, statsMe, world).stats == []
  {
  }

  /** Distinct statuses have distinct status counters. */
  lemma CodeCounterInjective(status: int, other: int)
    requires CodeCounter(status) == CodeCounter(other)
    ensures status == other
  {
    var prefix := "fetch http code=";
    assert CodeCounter(status)[|prefix|..] == IntToString(status);
    assert CodeCounter(other)[|prefix|..] == IntToString(other);
    IntToStringParses(status);
    IntToStringParses(other);
  }

  /** The status counter of any other status is not incremented. */
  lemma OnlyReturnedStatusCounted(statsMe: bool, status: int, other: int)
    requires other != status
    ensures forall s :: s in DeliveredStats(statsMe, status) ==> s.name != CodeCounter(other)
  {
    if CodeCounter(status) == CodeCounter(other) {
      CodeCounterInjective(status, other);
    }
    var urls := "fetch URLs";
    assert urls[6] == 'U';
    assert CodeCounter(other)[6] == 'h';
  }

  // ---------------------------------------------------------------------
  // Two runs

  /** Attempts that get 503, 503 and then 200 from an address-resolving host. */
  function TwoServerErrorsThenOk(i: nat): Attempt
  {
    Attempt(DnsDone(Dns.Addresses(["192.0.2.10"])),
            Received(Reply(Response(if i < 2 then 503 else 200), [], [], "0.010", "0.020")))
  }

  /** Three tries: success on the third after two sleeps, one lookup, and only
      the 200 status counted. */
  lemma RetryThenSuccess()
    ensures var ok := Reply(Response(200), [], [], "0.010", "0.020");
      FetchRun(3, None, true, TwoServerErrorsThenOk) ==
        Run(Returned(Delivered(ok)), [StatsSum("fetch URLs", 1), StatsSum(CodeCounter(200), 1)], 3, 2, 1)
    ensures forall s :: s in FetchRun(3, None, true, TwoServerErrorsThenOk).stats ==> s.name != CodeCounter(503)
  {
    var w := TwoServerErrorsThenOk;
    assert GotAddresses(w(0).dns);
    assert !Breaks(StepAt(w, 0)) && !Breaks(StepAt(w, 1)) && StepAt(w, 2).Finished?;
    FetchRunBreaksAt(3, None, true, w, 2);
    NoLookupAfterAddresses(w, 0, 3);
    OnlyReturnedStatusCounted(true, 200, 503);
  }

  /** Attempts on which the connection is reset every time. */
  function ResetEveryTime(i: nat): Attempt
  {
    Attempt(DnsDone(Dns.Addresses(["192.0.2.10"])), HttpRaised(Exc("ConnectionResetError", "")))
  }

  /** Two tries that both raise: the error of the second is returned after two
      sleeps, one after each attempt. */
  lemma ResetOnEveryAttempt()
    ensures FetchRun(2, None, true, ResetEveryTime) ==
      Run(Returned(Failed(Repr(Exc("ConnectionResetError", "")))), [], 2, 2, 1)
  {
    var w := ResetEveryTime;
    assert GotAddresses(w(0).dns);
    assert !Breaks(StepAt(w, 0)) && StepAt(w, 1) == Errored(Repr(Exc("ConnectionResetError", "")));
    FetchRunExhausted(2, None, true, w);
    NoLookupAfterAddresses(w, 0, 2);
  }
}
