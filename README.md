# cocrawler fetch core in Dafny

This project models the part of the cocrawler web crawler that fetches one URL.

- `apply_url_policies` builds the per-URL policy bundle: request headers, proxy, mock URL and mock robots URL.
- `fetch` is the bounded retry loop. It pre-resolves the host, issues the request, reads the whole response, and retries on a 5xx status or on a caught exception, sleeping after each such attempt. When the loop runs out it returns either the last error or the last response. Statistics are summed only when `stats_me` is set and fetch reaches line 141. Both `'fetch URLs'` and the status counter are summed on a returned response. `'fetch URLs'` alone is summed when MaxSubTries < 1 makes line 143 raise. The error return sums nothing.
- `upgrade_scheme` is a hook that returns the URL unchanged.
- `prefetch_dns` derives the `(host, port)` lookup key from the netloc (or from the mock URL's netloc). It takes the answer from the connector's cache or from one resolver call, and keeps the addresses that are neither private (unless mocking) nor colon-bearing.

There are three modules:

- `Base` holds Option/Result, the printed form of an exception, Python's decimal `str`/`int` conversions and the parsed-URL record.
- `Dns` models `cocrawler/dns.py`.
- `Fetcher` models `cocrawler/fetcher.py`.

`Dns.PrefetchDns` is a method with the source's filtering loop. It is proved against the functions `LookupKey`, `FilterAnswer` and `Survivors`.

`Fetcher.Fetch` is a method with the source's `while ... else` loop. `TryOnce` is one pass of its body and `AfterLoop` is the code after it. `Fetch` is proved to do exactly what the declarative `FetchRun` describes, counters included: its outcome, its ordered `stats_sum` calls, and the number of attempts, retry sleeps and `prefetch_dns` calls. `FetchRun` is defined by the first attempt that leaves the loop early, or by the last attempt when none does. The lemmas state what fetch promises in terms of `FetchRun`.

The outside world is a parameter:

- `fetch` takes a `World`, a function from attempt number to what that attempt meets. That is the DNS step (an answer, a raised error, or cancellation) and the HTTP step (a response with its body, header bytes and timings, a raised exception, or cancellation).
- `prefetch_dns` takes the cache as a map, the resolver as a function, and `ipaddress.ip_address(ip).is_private` as a classification function.

Where the code differs from what its comments and docstring suggest, the model follows the code:

- A retry sleep also follows the last of MaxSubTries attempts when that attempt continued the loop. So on exhaustion there are as many sleeps as attempts.
- When the last attempt got a 5xx status, fetch returns that response with no error, even if earlier attempts raised.
- The lookup port defaults to 80 whatever the scheme, https included.
- With MaxSubTries below 1 no attempt is made. Line 143 then reads `.status` of `None`, or line 151 reads the unbound `body_bytes`. The model reports this as the escape `NoAttemptMade`. When `stats_me` is set, the `'fetch URLs'` sum has already been counted.

## Model

| member | source | states |
|---|---|---|
| Base.Repr | cocrawler/fetcher.py:113-121 | repr(e) starts with the class name, ends in ')' and is never empty, so `if last_exception:` holds once an error is recorded |
| Base.DigitsValue | cocrawler/dns.py:38 | definition: the value of a string of decimal digits, most significant first, as int() reads it and str() prints it (fetcher.py:143) |
| Base.NatToString | cocrawler/fetcher.py:143 | str(n) of a natural number: at least one decimal digit and no leading zero |
| Base.IntToString | cocrawler/fetcher.py:143 | str(n) of any integer: non-empty, and it starts with '-' exactly when n is negative |
| Base.ParseInt | cocrawler/dns.py:38 | definition: int(s) in base 10 accepts an optional sign followed by ASCII digits and gives their value; anything else is the ValueError case (None) |
| Base.NatToStringValue | cocrawler/fetcher.py:143 | the decimal digits str prints for a natural number read back as that number |
| Base.IntToStringParses | cocrawler/dns.py:38 | int(str(n)) == n for every integer n |
| Base.IntToStringInjective | cocrawler/fetcher.py:143 | distinct integers print differently |
| Dns.ErrorRepr | cocrawler/fetcher.py:111-127 | the recorded repr of an exception escaping prefetch_dns is non-empty |
| Dns.ErrorExc | cocrawler/dns.py:38-58 | definition: the exception prefetch_dns lets escape: the ValueError of int() on the port text (line 38), the resolver's own exception (line 48), or the ValueError of ip_address() on a non-address (line 58) |
| Dns.TargetNetloc | cocrawler/dns.py:31-35 | the key is taken from the page's netloc without a mock URL and from the mock URL's netloc with one |
| Dns.ColonIndex | cocrawler/dns.py:32 | the split point is the first ':' of the netloc, or its end when there is none |
| Dns.LookupKey | cocrawler/dns.py:31-40 | the key of netloc.split(':', maxsplit=1): the host is the colon-free prefix before the first ':'; without a ':' the port is 80 (the IndexError fallback); with a ':' the port is int() of the text after the first ':'; a failure happens only when there is a ':' and int() rejects that text, which escapes as BadPort of that text |
| Dns.ColonIndexAfter | cocrawler/dns.py:32 | in `host:rest` with a colon-free host the split falls right after host |
| Dns.LookupKeyDefaultPort | cocrawler/dns.py:37-40 | a netloc with no ':' is looked up as (netloc, 80) |
| Dns.LookupKeyExplicitPort | cocrawler/dns.py:32-38 | `host:N` is looked up as (host, N) for every integer N |
| Dns.LookupKeyBadPort | cocrawler/dns.py:37-39 | text after ':' that int() rejects raises ValueError (not IndexError, so not defaulted to 80) |
| Dns.Hosts | cocrawler/dns.py:56-57 | the `host` field of every answer record, in order |
| Dns.Kept | cocrawler/dns.py:58-64 | definition: an address survives when it is not private (the test is skipped when mocking) and holds no ':' |
| Dns.Survivors | cocrawler/dns.py:56-65 | the appended addresses: no more than the answer holds, each one kept and taken from the answer |
| Dns.FirstNonAddress | cocrawler/dns.py:58 | the first answer string ip_address() rejects: before it all are addresses, at it one is not |
| Dns.FilterAnswer | cocrawler/dns.py:56-70 | definition: outside mock mode the first string ip_address() rejects raises ValueError; otherwise the survivors are returned |
| Dns.PrefetchDns | cocrawler/dns.py:15-70 | a bad port raises without a lookup; a cached key is filtered from the cache with no resolver call; otherwise exactly one resolver call, whose exception escapes or whose answer is filtered |
| Dns.SurvivorsAreKeptSubsequence | cocrawler/dns.py:56-65 | the returned list is the answer's kept addresses, in answer order: an address survives if and only if it is kept |
| Dns.SurvivorsHaveNoColon | cocrawler/dns.py:61-64 | no returned address contains ':' |
| Dns.SurvivorsPrivacy | cocrawler/dns.py:58-60 | outside mock mode no returned address is private; in mock mode every colon-free address is returned, private or not |
| Dns.FilterAnswerRaises | cocrawler/dns.py:56-70 | the filter raises if and only if it is outside mock mode and some string is not an address, and then it raises on the first such; otherwise it returns the survivors, possibly none |
| Dns.FilterExample | cocrawler/dns.py:56-65 | for a private, a public and an IPv6 answer: only the public one is kept outside mock mode, and the private one too in mock mode |
| Fetcher.MockEnabled | cocrawler/fetcher.py:40 | definition: `test_host and test_host != 'n'`, i.e. set, non-empty and not 'n' |
| Fetcher.ApplyUrlPolicies | cocrawler/fetcher.py:33-45 | proxy is always None; headers are empty if and only if mocking is off (TestHostmapAll unset, empty or 'n'); when mocking, the Host header is the original netloc, the mock URL is the original with only the netloc replaced by the test host, and the robots URL is scheme://test_host/robots.txt |
| Fetcher.UpgradeScheme | cocrawler/fetcher.py:153-164 | the URL comes back unchanged |
| Fetcher.MockedFetchTarget | cocrawler/fetcher.py:39-43 | mocking an https page: the Host header keeps the original host, and the key looked up is (test host, 80) |
| Fetcher.GotAddresses | cocrawler/fetcher.py:74-75 | definition: the lookup ran and prefetch_dns returned a non-empty list, so the `len(iplist) == 0` test at line 74 fails on the next attempt |
| Fetcher.HaveIps | cocrawler/fetcher.py:66-75 | definition: iplist is non-empty when attempt i starts: it starts empty (line 66) and becomes non-empty once an attempt's prefetch_dns returns addresses (lines 74-75) |
| Fetcher.Lookups | cocrawler/fetcher.py:74-75 | definition: how many of the first n attempts call prefetch_dns: one for each attempt that starts with an empty iplist |
| Fetcher.AttemptEnd | cocrawler/fetcher.py:70-127 | definition: how one attempt leaves the loop body: a cancelled lookup or request re-raises, a raised lookup or request records its repr, a status below 500 breaks and a 5xx continues; the lookup is consulted only when the attempt calls prefetch_dns |
| Fetcher.StepAt | cocrawler/fetcher.py:68-75 | definition: attempt i ends as AttemptEnd says, calling prefetch_dns exactly when no earlier attempt obtained addresses |
| Fetcher.ProxyGiven | cocrawler/fetcher.py:56 | definition: `if proxy:`, i.e. a proxy is given and non-empty |
| Fetcher.Delivered | cocrawler/fetcher.py:151 | definition: the success tuple: response, body bytes, header bytes and both byte times, with no exception |
| Fetcher.Failed | cocrawler/fetcher.py:138 | definition: the failure tuple: five Nones and the last exception's repr |
| Fetcher.CodeCounter | cocrawler/fetcher.py:143 | definition: the counter name 'fetch http code=' followed by str(status) |
| Fetcher.DeliveredStats | cocrawler/fetcher.py:141-143 | definition: with stats_me set, the two stats_sum calls, 'fetch URLs' and then the status counter, each by 1; none without it |
| Fetcher.FetchRun | cocrawler/fetcher.py:47-151 | definition of a whole call: a proxy raises first; MaxSubTries < 1 escapes after counting 'fetch URLs' when stats_me is set; otherwise the first attempt that breaks or is cancelled decides, and when none does the last attempt's error or response is returned; also the attempts, sleeps and lookups made |
| Fetcher.Breaks | cocrawler/fetcher.py:105-119 | definition: the attempt leaves the loop early, by the `break` on status < 500 (lines 105-106) or by re-raising CancelledError (lines 118-119) |
| Fetcher.FirstBreak | cocrawler/fetcher.py:68-106 | the first attempt that breaks or is cancelled, with every earlier attempt continuing the loop; none when all continue |
| Fetcher.FetchRunBreaksAt | cocrawler/fetcher.py:105-119 | the run when attempt k is the first to break or be cancelled |
| Fetcher.FetchRunExhausted | cocrawler/fetcher.py:135-151 | the run when every attempt continues the loop: the last attempt's error or its response |
| Fetcher.TryOnce | cocrawler/fetcher.py:69-127 | one attempt ends as AttemptEnd says (break on status < 500, retry on 5xx, recorded repr on an exception, cancellation re-raised), and iplist then holds the prefetched addresses if a lookup was made |
| Fetcher.Fetch | cocrawler/fetcher.py:47-151 | outcome, stats_sum calls, attempts, sleeps and prefetch_dns calls are exactly FetchRun's |
| Fetcher.AfterLoop | cocrawler/fetcher.py:135-151 | the code after the loop returns FetchRun's outcome and statistics, given the state the loop leaves |
| Fetcher.HaveIpsIff | cocrawler/fetcher.py:66-75 | iplist is non-empty at attempt i if and only if an earlier attempt's prefetch_dns returned addresses |
| Fetcher.NoLookupAfterAddresses | cocrawler/fetcher.py:74-75 | once addresses are obtained, no later attempt calls prefetch_dns |
| Fetcher.LookupsBounded | cocrawler/fetcher.py:74-75 | at most one prefetch_dns call per attempt, and the first attempt always makes one |
| Fetcher.AttemptsBounded | cocrawler/fetcher.py:63-69 | at most MaxSubTries attempts; at least one if and only if no proxy is given and MaxSubTries >= 1 |
| Fetcher.ProxyFailsFast | cocrawler/fetcher.py:56-61 | a non-empty proxy, and only that, raises 'not yet implemented' before any attempt, sleep or statistic |
| Fetcher.StopsAtFirstBreak | cocrawler/fetcher.py:105-106 | every attempt but the last continued the loop, and the last one broke unless MaxSubTries were made |
| Fetcher.ResponseFromLastAttempt | cocrawler/fetcher.py:79-100 | a returned response, with its body, header bytes and times, is the one the last attempt read; it is 5xx only after MaxSubTries attempts |
| Fetcher.ErrorOnlyFromFinalAttempt | cocrawler/fetcher.py:72-138 | an error is returned if and only if all MaxSubTries attempts continued the loop and the last one raised; it is that attempt's repr, whatever came before |
| Fetcher.ServerErrorFallsThrough | cocrawler/fetcher.py:135-139 | a 5xx on the last of MaxSubTries attempts is returned as a response with no error |
| Fetcher.ResponseXorError | cocrawler/fetcher.py:136-151 | every returned tuple has either a response with all its parts or a non-empty error and nothing else; fetch raises only for a proxy, MaxSubTries < 1 or a cancellation |
| Fetcher.Retries | cocrawler/fetcher.py:129-133 | definition: how many of the first n attempts reach the retry sleep, i.e. neither break nor are cancelled |
| Fetcher.RetriesWhenNoneBreak | cocrawler/fetcher.py:68-133 | when no attempt breaks, every attempt is a retry |
| Fetcher.SleepsAreRetries | cocrawler/fetcher.py:129-133 | exactly one retry sleep per attempt that continued the loop, the last of MaxSubTries included; none after a break |
| Fetcher.CancellationAborts | cocrawler/fetcher.py:118-119 | a cancelled attempt re-raises at once: no sleep after it, no further attempt, no statistics |
| Fetcher.StatsOnlyForReturnedResponse | cocrawler/fetcher.py:141-143 | with stats_me set, a returned response sums 'fetch URLs' and then that status's counter; MaxSubTries < 1 sums 'fetch URLs' alone before escaping on `None.status`; every other outcome (proxy, cancellation, returned error) and every call with stats_me unset sums nothing |
| Fetcher.CodeCounterInjective | cocrawler/fetcher.py:143 | distinct statuses have distinct 'fetch http code=' counters |
| Fetcher.OnlyReturnedStatusCounted | cocrawler/fetcher.py:141-143 | no other status's counter is incremented |
| Fetcher.RetryThenSuccess | cocrawler/fetcher.py:68-143 | 503, 503, 200 with MaxSubTries 3: the 200 is returned after three attempts, two sleeps and one lookup, and only code=200 is counted |
| Fetcher.ResetOnEveryAttempt | cocrawler/fetcher.py:111-138 | two attempts that both raise: the second's repr is returned, after two sleeps |

## Left out

- Sockets, aiohttp, `session.get`, `response.read` and `raw_headers` are abstracted as the per-attempt `World`. A received response is one value holding its status, body, header bytes and first- and last-byte times.
- Time: the `'{:.3f}'` timings are part of each attempt's reply, and `time.time` is not modelled. The page and retry timeouts are not modelled either: a timeout is one of the attempt's raised exceptions. Sleeps are counted as ghost values, not performed.
- Lines 49-51: reading MaxSubTries, PageTimeout and RetryTimeout from the configuration is not modelled. MaxSubTries is an integer parameter, and a missing key or an unparsable value in the configuration is not modelled.
- Fetcher.Fetch: the defaults of `fetch` at line 47, `proxy=None` and `stats_me=True`, are not modelled; both are parameters that every caller passes.
- The `url`, `session`, `headers`, `mock_url` and `allow_redirects` arguments of fetch only shape the request, so they are not parameters of `Fetch`. What the request returns is the `World`.
- `response.release()` of a response whose read raised is not modelled (it has no effect on what fetch returns). If `session.get` returned before `read` raised, the source leaves `response` set. The model does not track that, because the error path that follows returns no response.
- Fetcher.ProxyFailsFast: the foreign constructor `aiohttp.ProxyConnector(proxy=proxy)` at line 57 is assumed to return normally, so a given proxy always reaches the `ValueError('not yet implemented')` at line 61.
- Exceptions are caught by both handlers alike and recorded as repr. BaseExceptions other than CancelledError, which neither handler catches, are not modelled.
- Cancellation is modelled during the DNS step and the HTTP step, not during the retry sleep.
- `stats.coroutine_state`, logging, `print` and `traceback.print_exc` are not modelled, since they do not affect the result.
- `Base.Repr`: Python's quoting of the exception's arguments is replaced by the argument text as given.
- `Base.ParseInt`: accepts an optional sign and ASCII digits. It does not model the surrounding whitespace, the underscores or the non-ASCII digits that `int()` also accepts.
- Dns: `urlparse(mock_url)` of the `geturl()` string is modelled as passing the parsed record itself.
- Fetcher.ApplyUrlPolicies: the Testing.TestHostmapAll setting is an optional string parameter. So a configuration without a `Testing` section, on which `config['Testing']` raises KeyError at line 39, is treated like one without the key. Non-string `TestHostmapAll` values, which YAML can produce, are not modelled.
- Dns: how the connector fills `cached_hosts` is not modelled; prefetch_dns only reads it, and the resolver is a function parameter. `setup_resolver`, `dns.query` and the rest of `cocrawler/dns.py` are not part of this model.
- Dns: `ipaddress.ip_address(ip).is_private` is a classification parameter, not a reimplementation of address parsing.
- Concurrency between fetches is not modelled. In-flight request coalescing, a byte limit, per-class error counters, and a distinct error for 5xx exhaustion do not exist in this code, so none is modelled.
