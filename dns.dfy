/** Pre-resolution of a fetch target's address (cocrawler/dns.py, prefetch_dns).

    The connector's host cache is a map from (host, port) to the resolver's
    raw answer; the resolver itself and the private-address classification
    of the ipaddress library are function parameters. */
module Dns {
  import opened Base

  /** One record of a resolver answer; prefetch_dns only reads `host`. */
  datatype AddrInfo = AddrInfo(hostname: string, host: string, port: int)

  /** A (host, port) cache key. */
  datatype Key = Key(host: string, port: int)

  /** What ipaddress.ip_address(ip) makes of a string: a private address, any
      other address, or no address at all (ip_address raises ValueError). */
  datatype AddressClass = Private | NotPrivate | NoAddress

  /** The exceptions prefetch_dns lets escape to its caller. */
  datatype DnsError =
    | BadPort(text: string)      // int() of the text after ':' raised ValueError
    | ResolverFailed(e: Exc)     // the resolver raised
    | NotAnAddress(ip: string)   // ip_address() raised ValueError

  /** The outcome of prefetch_dns: the usable addresses, or the exception it raises. */
  datatype Prefetch = Addresses(ips: seq<string>) | Raised(error: DnsError)

  /** The exception as Python would see it. */
  function ErrorExc(e: DnsError): Exc
  {
    match e
    case BadPort(text) => Exc("ValueError", "invalid literal for int() with base 10: '" + text + "'")
    case ResolverFailed(x) => x
    case NotAnAddress(ip) => Exc("ValueError", "'" + ip + "' does not appear to be an IPv4 or IPv6 address")
  }

  function ErrorRepr(e: DnsError): (s: string)
    ensures s != []
  {
    Repr(ErrorExc(e))
  }

  /** The netloc the lookup key comes from: the mock URL's when mocking. */
  function TargetNetloc(parts: UrlParts, mockUrl: Option<UrlParts>): (n: string)
    ensures mockUrl.None? ==> n == parts.netloc
    ensures mockUrl.Some? ==> n == mockUrl.value.netloc
  {
    if mockUrl.None? then parts.netloc else mockUrl.value.netloc
  }

  /** Index of the first ':' in s, or |s| when there is none. */
  function ColonIndex(s: string): (k: nat)
    ensures k <= |s| && ':' !in s[..k]
    ensures k < |s| ==> s[k] == ':'
  {
    if |s| == 0 || s[0] == ':' then 0
    else
      var k := 1 + ColonIndex(s[1..]);
      assert s[..k] == [s[0]] + s[1..][..k - 1];
      k
  }

  /** netloc.split(':', maxsplit=1), then host = the first part and
      port = int(second part), or 80 when there is no second part. */
  function LookupKey(netloc: string): (r: Result<Key, DnsError>)
    ensures r.Success? ==>
      var h := r.value.host;
      ':' !in h && h <= netloc && (|h| < |netloc| ==> netloc[|h|] == ':')
    ensures r.Success? && r.value.host == netloc ==> r.value.port == 80
    ensures r.Success? && ':' in netloc ==> ParseInt(netloc[ColonIndex(netloc) + 1..]) == Some(r.value.port)
    ensures r.Failure? ==>
      ':' in netloc && r.error == BadPort(netloc[ColonIndex(netloc) + 1..])
      && ParseInt(r.error.text).None?
  {
    var k := ColonIndex(netloc);
    if k == |netloc| then Success(Key(netloc, 80))
    else
      var portText := netloc[k + 1..];
      match ParseInt(portText)
      case Some(p) => Success(Key(netloc[..k], p))
      case None => Failure(BadPort(portText))
  }

  /** The first ':' of `host:rest` is the one after host. */
  lemma {:induction false} ColonIndexAfter(host: string, rest: string)
    requires ':' !in host
    ensures ColonIndex(host + ":" + rest) == |host|
  {
    if |host| > 0 {
      assert (host + ":" + rest)[1..] == host[1..] + ":" + rest;
      ColonIndexAfter(host[1..], rest);
    }
  }

  /** A netloc without ':' is looked up on port 80. */
  lemma LookupKeyDefaultPort(host: string)
    requires ':' !in host
    ensures LookupKey(host) == Success(Key(host, 80))
  {
  }

  /** `host:port` is looked up under exactly that host and port. */
  lemma LookupKeyExplicitPort(host: string, port: int)
    requires ':' !in host
    ensures LookupKey(host + ":" + IntToString(port)) == Success(Key(host, port))
  {
    var netloc := host + ":" + IntToString(port);
    ColonIndexAfter(host, IntToString(port));
    var k := ColonIndex(netloc);
    assert netloc[..k] == host;
    assert netloc[k + 1..] == IntToString(port);
    IntToStringParses(port);
  }

  /** Text after the first ':' that int() rejects escapes as ValueError. */
  lemma LookupKeyBadPort(host: string, portText: string)
    requires ':' !in host && ParseInt(portText).None?
    ensures LookupKey(host + ":" + portText) == Failure(BadPort(portText))
  {
    var netloc := host + ":" + portText;
    ColonIndexAfter(host, portText);
    var k := ColonIndex(netloc);
    assert netloc[..k] == host;
    assert netloc[k + 1..] == portText;
  }

  /** The `host` field of every record of an answer, in order. */
  function Hosts(answer: seq<AddrInfo>): (hs: seq<string>)
    ensures |hs| == |answer| && forall i :: 0 <= i < |answer| ==> hs[i] == answer[i].host
  {
    seq(|answer|, i requires 0 <= i < |answer| => answer[i].host)
  }

  /** An address survives the filter when it is not private (unless mocking)
      and holds no ':'. */
  predicate Kept(ip: string, mock: bool, classify: string -> AddressClass)
  {
    (mock || classify(ip) != Private) && ':' !in ip
  }

  /** The addresses that survive the filter, in the order of the answer. */
  function Survivors(hosts: seq<string>, mock: bool, classify: string -> AddressClass): (r: seq<string>)
    ensures |r| <= |hosts|
    ensures forall i :: 0 <= i < |r| ==> Kept(r[i], mock, classify) && r[i] in hosts
    decreases |hosts|
  {
    if |hosts| == 0 then []
    else
      var last := hosts[|hosts| - 1];
      Survivors(hosts[..|hosts| - 1], mock, classify) + (if Kept(last, mock, classify) then [last] else [])
  }

  /** Index of the first string ip_address() rejects, or |hosts| when there is none. */
  function FirstNonAddress(hosts: seq<string>, classify: string -> AddressClass): (k: nat)
    ensures k <= |hosts|
    ensures forall i :: 0 <= i < k ==> classify(hosts[i]) != NoAddress
    ensures k < |hosts| ==> classify(hosts[k]) == NoAddress
    decreases |hosts|
  {
    if |hosts| == 0 || classify(hosts[0]) == NoAddress then 0
    else 1 + FirstNonAddress(hosts[1..], classify)
  }

  /** The filtering loop of prefetch_dns over the answer's addresses: outside mock
      mode the first string that is not an address raises; otherwise the survivors. */
  function FilterAnswer(hosts: seq<string>, mock: bool, classify: string -> AddressClass): Prefetch
  {
    var k := FirstNonAddress(hosts, classify);
    if !mock && k < |hosts| then Raised(NotAnAddress(hosts[k]))
    else Addresses(Survivors(hosts, mock, classify))
  }

  /** prefetch_dns: derive (host, port), take the answer from the cache or
      from one resolver call, and keep the usable addresses. */
  method PrefetchDns(parts: UrlParts, mockUrl: Option<UrlParts>,
                     cachedHosts: map<Key, seq<AddrInfo>>,
                     resolve: Key -> Result<seq<AddrInfo>, Exc>,
                     classify: string -> AddressClass)
    returns (r: Prefetch, ghost resolverCalls: nat)
    ensures LookupKey(TargetNetloc(parts, mockUrl)).Failure? ==>
      r == Raised(LookupKey(TargetNetloc(parts, mockUrl)).error)
    ensures LookupKey(TargetNetloc(parts, mockUrl)).Success? ==>
      var key := LookupKey(TargetNetloc(parts, mockUrl)).value;
      && (key in cachedHosts ==> r == FilterAnswer(Hosts(cachedHosts[key]), mockUrl.Some?, classify))
      && (key !in cachedHosts && resolve(key).Failure? ==> r == Raised(ResolverFailed(resolve(key).error)))
      && (key !in cachedHosts && resolve(key).Success? ==>
            r == FilterAnswer(Hosts(resolve(key).value), mockUrl.Some?, classify))
    ensures resolverCalls == match LookupKey(TargetNetloc(parts, mockUrl))
                             case Failure(_) => 0
                             case Success(key) => if key in cachedHosts then 0 else 1
  {
    resolverCalls := 0;
    var netloc := if mockUrl.None? then parts.netloc else mockUrl.value.netloc;
    var key;
    match LookupKey(netloc) {
      case Failure(e) =>
        r := Raised(e);
        return;
      case Success(k) =>
        key := k;
    }

    var answer: seq<AddrInfo>;
    if key !in cachedHosts {
      resolverCalls := 1;
      match resolve(key) {
        case Failure(e) =>
          r := Raised(ResolverFailed(e));
          return;
        case Success(a) =>
          answer := a;
      }
    } else {
      answer := cachedHosts[key];
    }

    ghost var hosts := Hosts(answer);
    var iplist: seq<string> := [];
    for i := 0 to |answer|
      invariant iplist == Survivors(hosts[..i], mockUrl.Some?, classify)
      invariant mockUrl.None? ==> forall j :: 0 <= j < i ==> classify(hosts[j]) != NoAddress
    {
      assert hosts[..i + 1][..i] == hosts[..i];
      var ip := answer[i].host;
      if mockUrl.None? {
        var c := classify(ip);
        if c == NoAddress {
          assert FirstNonAddress(hosts, classify) == i;
          r := Raised(NotAnAddress(ip));
          return;
        }
        if c == Private {
          continue;
        }
      }
      if ':' in ip {
        continue;
      }
      iplist := iplist + [ip];
    }
    assert hosts[..|answer|] == hosts;
    r := Addresses(iplist);
  }

  // ---------------------------------------------------------------------
  // What the filter keeps

  /** The survivors are exactly the kept addresses of the answer, in their
      original order: `idx` lists the positions they come from. */
  lemma {:induction false} SurvivorsAreKeptSubsequence(hosts: seq<string>, mock: bool,
                                                       classify: string -> AddressClass)
    returns (idx: seq<nat>)
    ensures var s := Survivors(hosts, mock, classify);
      && |idx| == |s|
      && (forall j :: 0 <= j < |idx| ==> idx[j] < |hosts| && s[j] == hosts[idx[j]])
      && (forall j, j' :: 0 <= j < j' < |idx| ==> idx[j] < idx[j'])
      && (forall i :: 0 <= i < |hosts| ==> (Kept(hosts[i], mock, classify) <==> i in idx))
    decreases |hosts|
  {
    if |hosts| == 0 {
      idx := [];
      return;
    }
    var n := |hosts| - 1;
    var front := hosts[..n];
    var pre := SurvivorsAreKeptSubsequence(front, mock, classify);
    var sf := Survivors(front, mock, classify);
    var s := Survivors(hosts, mock, classify);
    assert forall j :: 0 <= j < |pre| ==> pre[j] < n;
    if Kept(hosts[n], mock, classify) {
      idx := pre + [n];
      assert s == sf + [hosts[n]];
    } else {
      idx := pre;
      assert s == sf;
    }
    forall i | 0 <= i < |hosts|
      ensures Kept(hosts[i], mock, classify) <==> i in idx
    {
      if i < n {
        assert front[i] == hosts[i];
        assert (i in idx) <==> (i in pre);
      }
    }
  }

  /** No returned address holds a ':'. */
  lemma SurvivorsHaveNoColon(hosts: seq<string>, mock: bool, classify: string -> AddressClass)
    ensures forall ip :: ip in Survivors(hosts, mock, classify) ==> ':' !in ip
  {
    var idx := SurvivorsAreKeptSubsequence(hosts, mock, classify);
    var s := Survivors(hosts, mock, classify);
    forall ip | ip in s ensures ':' !in ip {
      var j :| 0 <= j < |s| && s[j] == ip;
      assert idx[j] in idx;
    }
  }

  /** Outside mock mode nothing private survives; in mock mode every
      colon-free address survives, private or not. */
  lemma SurvivorsPrivacy(hosts: seq<string>, mock: bool, classify: string -> AddressClass)
    ensures !mock ==> forall ip :: ip in Survivors(hosts, mock, classify) ==> classify(ip) != Private
    ensures mock ==> forall i :: 0 <= i < |hosts| && ':' !in hosts[i] ==>
                       hosts[i] in Survivors(hosts, mock, classify)
  {
    var idx := SurvivorsAreKeptSubsequence(hosts, mock, classify);
    var s := Survivors(hosts, mock, classify);
    forall ip | ip in s ensures !mock ==> classify(ip) != Private {
      var j :| 0 <= j < |s| && s[j] == ip;
      assert idx[j] in idx;
    }
    forall i | 0 <= i < |hosts| && ':' !in hosts[i] ensures mock ==> hosts[i] in s {
      if mock {
        assert i in idx;
        var j :| 0 <= j < |idx| && idx[j] == i;
        assert s[j] == hosts[i];
      }
    }
  }

  /** The filter raises only outside mock mode, only on a string that is not an
      address, and only on the first one; every other outcome, an empty list
      included, is returned normally. */
  lemma FilterAnswerRaises(hosts: seq<string>, mock: bool, classify: string -> AddressClass)
    ensures FilterAnswer(hosts, mock, classify).Raised? <==>
              !mock && exists i :: 0 <= i < |hosts| && classify(hosts[i]) == NoAddress
    ensures FilterAnswer(hosts, mock, classify).Raised? ==>
              exists k :: 0 <= k < |hosts| && FilterAnswer(hosts, mock, classify).error == NotAnAddress(hosts[k])
                && classify(hosts[k]) == NoAddress
                && forall i :: 0 <= i < k ==> classify(hosts[i]) != NoAddress
    ensures FilterAnswer(hosts, mock, classify).Addresses? ==>
              FilterAnswer(hosts, mock, classify).ips == Survivors(hosts, mock, classify)
  {
  }

  /** An example classification: only 10.0.0.1 is private. */
  function ExampleClass(ip: string): AddressClass
  {
    if ip == "10.0.0.1" then Private else NotPrivate
  }

  /** A private, a public and a colon-bearing address: outside mock mode only the
      public one is kept; in mock mode the private one is kept too. */
  lemma FilterExample()
    ensures var hosts := ["10.0.0.1", "93.184.216.34", "2606:2800:220:1::1"];
            && FilterAnswer(hosts, false, ExampleClass) == Addresses(["93.184.216.34"])
            && FilterAnswer(hosts, true, ExampleClass) == Addresses(["10.0.0.1", "93.184.216.34"])
  {
    var a, b, c := "10.0.0.1", "93.184.216.34", "2606:2800:220:1::1";
    var hosts := [a, b, c];
    assert b != a by { assert b[0] != a[0]; }
    assert c != a by { assert c[0] != a[0]; }
    assert ':' !in a && ':' !in b;
    assert ':' in c by { assert c[4] == ':'; }
    assert FirstNonAddress(hosts, ExampleClass) == 3 by {
      assert hosts[1..] == [b, c] && hosts[1..][1..] == [c] && hosts[1..][1..][1..] == [];
    }
    assert hosts[..2] == [a, b] && [a, b][..1] == [a] && [a][..0] == hosts[..0];
    assert ExampleClass(a) == Private && ExampleClass(b) == NotPrivate;
    assert Survivors([a], false, ExampleClass) == [];
    assert Survivors([a, b], false, ExampleClass) == [b];
    assert Survivors(hosts, false, ExampleClass) == [b];
    assert Survivors([a], true, ExampleClass) == [a];
    assert Survivors([a, b], true, ExampleClass) == [a, b];
    assert Survivors(hosts, true, ExampleClass) == [a, b];
  }
}
