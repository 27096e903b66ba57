/** The host/port extraction the edge test client applies to a NATS server
    URL before probing it: `nats://[user@]host:port`. */
module NatsUrl {
  import opened Optional
  import opened Text

  const Scheme: string := "nats://"

  /** The host and port of an address with the scheme and user information
      already removed: the text before the first ':' and the integer value
      of the rest, or None when there is no ':' or the rest is no integer. */
  function HostPort(addr: string): (r: Option<(string, int)>)
    ensures ':' !in addr ==> r == None
    ensures r.Some? ==> ':' !in r.value.0
    ensures r.Some? ==> exists port :: addr == r.value.0 + ":" + port && ParseInt(port) == Some(r.value.1)
    ensures forall host, port :: ':' !in host && addr == host + ":" + port ==>
      r == (if ParseInt(port).Some? then Some((host, ParseInt(port).value)) else None)
  {
    SplitAtFirstColon(addr);
    match SplitOnce(addr, ':')
    case None => None
    case Some((host, port)) =>
      match ParseInt(port)
      case None => None
      case Some(p) =>
        assert addr == host + ":" + port;
        Some((host, p))
  }

  /** An address splits at its first ':' only: a host without ':' and the
      rest are the parts `SplitOnce` returns. */
  lemma SplitAtFirstColon(addr: string)
    ensures forall host, port :: ':' !in host && addr == host + ":" + port ==>
      SplitOnce(addr, ':') == Some((host, port))
  {
    forall host, port | ':' !in host && addr == host + ":" + port
      ensures SplitOnce(addr, ':') == Some((host, port))
    {
      SplitOnceJoin(host, ':', port);
    }
  }

  /** The address after the scheme, with everything up to and including the
      first '@' discarded. */
  function Address(url: string): (addr: string)
    requires StartsWith(url, Scheme)
    ensures '@' !in url[|Scheme|..] ==> addr == url[|Scheme|..]
    ensures |addr| <= |url| - |Scheme| && addr == url[|url| - |addr|..]
  {
    var rest := url[|Scheme|..];
    match SplitOnce(rest, '@')
    case None => rest
    case Some((user, after)) =>
      assert rest == user + "@" + after;
      after
  }

  /** `_parse_nats_host_port(url)`: None unless the URL has the `nats://`
      scheme; otherwise the host and port of its address. Every exception
      the Python code catches is a None here. */
  function ParseHostPort(url: string): (r: Option<(string, int)>)
    ensures !StartsWith(url, Scheme) ==> r == None
    ensures r.Some? ==> ':' !in r.value.0 && ':' in url
  {
    if !StartsWith(url, Scheme) then None
    else
      var addr := Address(url);
      SuffixMembers(url, |url| - |addr|);
      HostPort(addr)
  }

  /** A character of a suffix is a character of the whole. */
  lemma SuffixMembers(s: string, k: nat)
    requires k <= |s|
    ensures forall c :: c in s[k..] ==> c in s
  {
    forall c | c in s[k..] ensures c in s {
      var i :| 0 <= i < |s| - k && s[k..][i] == c;
      assert s[k + i] == c;
    }
  }

  lemma SchemeSplit(rest: string)
    ensures StartsWith(Scheme + rest, Scheme)
    ensures (Scheme + rest)[|Scheme|..] == rest
  {
    assert (Scheme + rest)[..|Scheme|] == Scheme;
  }

  /** A URL without user information is parsed from its whole address. */
  lemma ParseWithoutUserInfo(addr: string)
    requires '@' !in addr
    ensures ParseHostPort(Scheme + addr) == HostPort(addr)
  {
    SchemeSplit(addr);
  }

  /** User information before the first '@' never reaches the host. */
  lemma ParseDiscardsUserInfo(user: string, addr: string)
    requires '@' !in user
    ensures ParseHostPort(Scheme + user + "@" + addr) == HostPort(addr)
  {
    assert Scheme + user + "@" + addr == Scheme + (user + "@" + addr);
    SchemeSplit(user + "@" + addr);
    SplitOnceJoin(user, '@', addr);
  }

  /** Round trip: printing a host without ':' or '@' and a port number into
      a NATS URL and parsing it gives both back. */
  lemma {:induction false} RoundTrip(host: string, port: nat)
    requires ':' !in host && '@' !in host
    ensures ParseHostPort(Scheme + host + ":" + DecimalString(port)) == Some((host, port as int))
  {
    var digits := DecimalString(port);
    var addr := host + ":" + digits;
    assert '@' !in addr by {
      assert forall i :: 0 <= i < |digits| ==> IsDigit(digits[i]);
    }
    assert Scheme + host + ":" + digits == Scheme + addr;
    ParseWithoutUserInfo(addr);
    SplitOnceJoin(host, ':', digits);
    ParseDecimal(port);
  }

  /** The same with a user name in front: `nats://user@host:port`. */
  lemma RoundTripWithUser(user: string, host: string, port: nat)
    requires '@' !in user && ':' !in host && '@' !in host
    ensures ParseHostPort(Scheme + user + "@" + host + ":" + DecimalString(port)) == Some((host, port as int))
  {
    var digits := DecimalString(port);
    assert Scheme + user + "@" + host + ":" + digits == Scheme + user + "@" + (host + ":" + digits);
    ParseDiscardsUserInfo(user, host + ":" + digits);
    SplitOnceJoin(host, ':', digits);
    ParseDecimal(port);
  }

  /** The default broker URL of the edge test client. */
  lemma DefaultBroker()
    ensures ParseHostPort("nats://nats:4222") == Some(("nats", 4222))
  {
    assert "nats://nats:4222" == Scheme + "nats" + ":" + DecimalString(4222);
    RoundTrip("nats", 4222);
  }
}
