/**
  The tracking-pixel endpoint: configuration, the event recorded for each
  request, the client-address choice, the handler's response and callback
  invocation, and the link generator.

  Foreign behaviour enters as parameters: `split` stands for the host/port
  splitter of the network library, `now` for the wall clock. The callback is
  arbitrary code; the model records only that it was invoked, and with which
  event, as an entry appended to a trace.
*/
module Tracker {
  import opened Wrappers
  import opened Bytes
  import Decimal
  import Gif
  import Pixel

  /** Go's `int` on a 64-bit platform. */
  type Int64 = x: int | -0x8000_0000_0000_0000 <= x < 0x8000_0000_0000_0000

  datatype Config = Config(port: Int64, domain: string, path: string)

  /** A wall-clock reading, supplied from outside the model. */
  type Timestamp = int

  datatype OpenEvent = OpenEvent(
    id: string, ip: string, xForwardedFor: string,
    userAgent: string, referer: string, acceptLang: string, time: Timestamp)

  /** Identity of a registered callback; what it does is outside the model. */
  datatype Callback = Callback(name: string)

  /** A tracker: its configuration and an optional (possibly nil) callback. */
  datatype Tracker = Tracker(config: Config, callback: Option<Callback>)

  /**
    A request as the handler reads it: the query's first value per key, the
    headers' first value per canonical name, and the transport remote address.
  */
  datatype Request = Request(query: map<string, string>, header: map<string, string>, remoteAddr: string)

  /** Splits "host:port" into its halves, or fails. */
  type HostPortSplitter = string -> Option<(string, string)>

  datatype Invocation = Invocation(callback: Callback, event: OpenEvent)

  datatype Response = Response(status: int, contentType: string, body: seq<byte>)

  /** The outcome of handling: what was written back, and the callback trace after it. */
  datatype Served = Served(response: Response, trace: seq<Invocation>)

  const IdParam := "id"
  const ForwardedForHeader := "X-Forwarded-For"
  const UserAgentHeader := "User-Agent"
  const RefererHeader := "Referer"
  const AcceptLanguageHeader := "Accept-Language"
  const StatusOK := 200
  const GifContentType := "image/gif"

  /** Lookup that yields the empty string for a missing key, as query and header getters do. */
  function Get(m: map<string, string>, key: string): (v: string)
    ensures key in m ==> v == m[key]
    ensures v != "" ==> key in m && m[key] == v
  {
    if key in m then m[key] else ""
  }

  // ----- Client address -----

  /**
    The client address: a non-empty forwarding header wins verbatim; otherwise
    the host half of the remote address, or the whole remote address when it
    does not split.
  */
  function ClientIP(r: Request, split: HostPortSplitter): (ip: string)
    ensures Get(r.header, ForwardedForHeader) != "" ==> ip == Get(r.header, ForwardedForHeader)
    ensures (Get(r.header, ForwardedForHeader) == "" && split(r.remoteAddr).Some?)
              ==> ip == split(r.remoteAddr).value.0
    ensures (Get(r.header, ForwardedForHeader) == "" && split(r.remoteAddr).None?)
              ==> ip == r.remoteAddr
  {
    var forwarded := Get(r.header, ForwardedForHeader);
    if forwarded != "" then forwarded
    else
      match split(r.remoteAddr)
      case None => r.remoteAddr
      case Some(hostPort) => hostPort.0
  }

  /** The address always comes from the forwarding header, the split host, or the raw remote address. */
  lemma ClientIPSource(r: Request, split: HostPortSplitter)
    ensures var ip := ClientIP(r, split);
            || (ip == Get(r.header, ForwardedForHeader) && ip != "")
            || (split(r.remoteAddr).Some? && ip == split(r.remoteAddr).value.0)
            || ip == r.remoteAddr
  {
  }

  /** Any client can choose the recorded address by sending a non-empty forwarding header. */
  lemma ForwardedForSpoofable(r: Request, split: HostPortSplitter, claimed: string)
    requires claimed != ""
    ensures ClientIP(r.(header := r.header[ForwardedForHeader := claimed]), split) == claimed
  {
  }

  /** With a non-empty forwarding header, the remote address plays no part. */
  lemma ForwardedForIgnoresRemote(r: Request, remoteAddr: string, split: HostPortSplitter)
    requires Get(r.header, ForwardedForHeader) != ""
    ensures ClientIP(r.(remoteAddr := remoteAddr), split) == ClientIP(r, split)
  {
  }

  /** Without the header, two remote addresses that split to the same host give the same address. */
  lemma ClientIPIgnoresPort(r: Request, other: string, split: HostPortSplitter)
    requires Get(r.header, ForwardedForHeader) == ""
    requires split(r.remoteAddr).Some? && split(other).Some?
    requires split(r.remoteAddr).value.0 == split(other).value.0
    ensures ClientIP(r.(remoteAddr := other), split) == ClientIP(r, split)
  {
  }

  // ----- Event and response -----

  /** The event recorded for a request, field by field from the request and the clock. */
  function BuildEvent(r: Request, split: HostPortSplitter, now: Timestamp): (e: OpenEvent)
    ensures e.id == Get(r.query, IdParam)
    ensures e.ip == ClientIP(r, split)
    ensures e.xForwardedFor == Get(r.header, ForwardedForHeader)
    ensures e.userAgent == Get(r.header, UserAgentHeader)
    ensures e.referer == Get(r.header, RefererHeader)
    ensures e.acceptLang == Get(r.header, AcceptLanguageHeader)
    ensures e.time == now
  {
    OpenEvent(
      Get(r.query, IdParam), ClientIP(r, split), Get(r.header, ForwardedForHeader),
      Get(r.header, UserAgentHeader), Get(r.header, RefererHeader),
      Get(r.header, AcceptLanguageHeader), now)
  }

  /** The reply to every request: status 200, content type `image/gif`, the declared bytes. */
  function PixelResponse(): (r: Response)
    ensures r.status == 200 && r.contentType == "image/gif"
    ensures r.body == Pixel.PixelData && |r.body| == 43
  {
    Pixel.PixelLayout();
    Response(StatusOK, GifContentType, Pixel.PixelData)
  }

  /** The reply's body is the encoding of the one-pixel image, and reads back as it. */
  lemma PixelResponseImage()
    ensures Gif.Valid(Pixel.PixelImage) && PixelResponse().body == Gif.Encode(Pixel.PixelImage)
    ensures Gif.Decode(PixelResponse().body) == Some(Pixel.PixelImage)
  {
    Pixel.PixelEncoding();
    Pixel.PixelDecoding();
  }

  /**
    One request: build the event, invoke the callback with it when one is
    registered, and answer with the pixel.
  */
  function Handle(t: Tracker, r: Request, split: HostPortSplitter, now: Timestamp,
                  trace: seq<Invocation>): (s: Served)
    ensures s.response == PixelResponse()
    ensures s.response.status == 200 && s.response.contentType == "image/gif"
    ensures s.response.body == Pixel.PixelData && |s.response.body| == 43
    ensures t.callback.None? ==> s.trace == trace
    ensures t.callback.Some? ==> |s.trace| == |trace| + 1 && s.trace[..|trace|] == trace
    ensures t.callback.Some? ==> s.trace[|trace|] == Invocation(t.callback.value, BuildEvent(r, split, now))
  {
    Pixel.PixelLayout();
    var event := BuildEvent(r, split, now);
    var trace' := match t.callback
      case None => trace
      case Some(cb) => trace + [Invocation(cb, event)];
    Served(PixelResponse(), trace')
  }

  /** The response depends on nothing in the request, the clock or the tracker. */
  lemma ResponseIndependent(t1: Tracker, r1: Request, now1: Timestamp, trace1: seq<Invocation>,
                            t2: Tracker, r2: Request, now2: Timestamp, trace2: seq<Invocation>,
                            split: HostPortSplitter)
    ensures Handle(t1, r1, split, now1, trace1).response == Handle(t2, r2, split, now2, trace2).response
  {
  }

  /**
    A run of requests handled one after another, each with its own clock
    reading: the responses and the callback trace it leaves.
  */
  function HandleAll(t: Tracker, reqs: seq<Request>, times: seq<Timestamp>,
                     split: HostPortSplitter, trace: seq<Invocation>): (s: (seq<Response>, seq<Invocation>))
    requires |times| == |reqs|
    ensures |s.0| == |reqs|
    ensures forall i :: 0 <= i < |s.0| ==> s.0[i] == PixelResponse()
    ensures t.callback.None? ==> s.1 == trace
    ensures t.callback.Some? ==> |s.1| == |trace| + |reqs| && s.1[..|trace|] == trace
    ensures t.callback.Some? ==>
              forall i :: 0 <= i < |reqs| ==>
                s.1[|trace| + i] == Invocation(t.callback.value, BuildEvent(reqs[i], split, times[i]))
    decreases |reqs|
  {
    if |reqs| == 0 then ([], trace)
    else
      var n := |reqs| - 1;
      var before := HandleAll(t, reqs[..n], times[..n], split, trace);
      var last := Handle(t, reqs[n], split, times[n], before.1);
      (before.0 + [last.response], last.trace)
  }

  // ----- Link generation -----

  /**
    The domains served over plain http: "localhost" and "127.0.0.1", bare or
    followed by ':' and the configured port in decimal. Textual equality only.
  */
  predicate UsesPlainHttp(cfg: Config)
    ensures UsesPlainHttp(cfg) ==> "localhost" <= cfg.domain || "127.0.0.1" <= cfg.domain
    ensures UsesPlainHttp(cfg) && cfg.domain != "localhost" && cfg.domain != "127.0.0.1" ==>
              ':' in cfg.domain
  {
    var port := Decimal.IntToDecimal(cfg.port);
    || cfg.domain == "localhost"
    || cfg.domain == "localhost:" + port
    || cfg.domain == "127.0.0.1"
    || cfg.domain == "127.0.0.1:" + port
  }

  function Scheme(cfg: Config): (scheme: string)
    ensures scheme == "http" || scheme == "https"
    ensures scheme == "http" <==> UsesPlainHttp(cfg)
  {
    if UsesPlainHttp(cfg) then "http" else "https"
  }

  /**
    The URL to embed: scheme, "://", the domain, the path, "?id=" and the
    identifier, with nothing escaped.
  */
  function GenerateLink(t: Tracker, id: string): (link: string)
    ensures "http://" <= link <==> UsesPlainHttp(t.config)
    ensures "https://" <= link <==> !UsesPlainHttp(t.config)
    ensures link[|Scheme(t.config)| + 3..] == t.config.domain + t.config.path + "?id=" + id
  {
    var cfg := t.config;
    var tail := cfg.domain + cfg.path + "?id=" + id;
    SchemePrefix(cfg, tail);
    Scheme(cfg) + "://" + tail
  }

  /** Exactly one of "http://" and "https://" begins the link, as the allow-list decides. */
  lemma SchemePrefix(cfg: Config, tail: string)
    ensures "http://" <= Scheme(cfg) + "://" + tail <==> UsesPlainHttp(cfg)
    ensures "https://" <= Scheme(cfg) + "://" + tail <==> !UsesPlainHttp(cfg)
    ensures (Scheme(cfg) + "://" + tail)[|Scheme(cfg)| + 3..] == tail
  {
    var head := Scheme(cfg) + "://";
    var link := head + tail;
    SplitConcat(head, tail);
    assert link[4] == head[4];
    if UsesPlainHttp(cfg) {
      assert head == "http://";
      assert link[..7] == "http://";
      assert link[4] == ':';
    } else {
      assert head == "https://";
      assert link[..8] == "https://";
      assert link[4] == 's';
    }
  }

  lemma SplitConcat(head: string, tail: string)
    ensures (head + tail)[..|head|] == head && (head + tail)[|head|..] == tail
  {
  }

  lemma DropPrefix(y: string, m: string, b: string)
    ensures (y + m + b)[|y|..] == m + b
  {
  }

  /** The link ends with "?id=" and the identifier, unescaped. */
  lemma LinkEndsWithId(t: Tracker, id: string)
    ensures |GenerateLink(t, id)| >= |id| + 4
    ensures GenerateLink(t, id)[|GenerateLink(t, id)| - |id| - 4..] == "?id=" + id
  {
    var cfg := t.config;
    var y := Scheme(cfg) + "://" + cfg.domain + cfg.path;
    assert GenerateLink(t, id) == y + "?id=" + id;
    DropPrefix(y, "?id=", id);
  }

  // ----- The plain-http allow-list, read structurally -----

  /** `domain` is `host`, or `host` ':' and a canonical decimal numeral whose value is `port`. */
  predicate NamesHost(domain: string, host: string, port: int) {
    || domain == host
    || (&& |domain| > |host| + 1
        && domain[..|host| + 1] == host + ":"
        && Decimal.IsCanonicalInt(domain[|host| + 1..])
        && Decimal.ParseDecimal(domain[|host| + 1..]) == Some(port))
  }

  /** A loopback name, bare or with the configured port written as Go prints integers. */
  predicate LoopbackDomain(domain: string, port: int) {
    NamesHost(domain, "localhost", port) || NamesHost(domain, "127.0.0.1", port)
  }

  lemma NamesHostTextually(domain: string, host: string, port: int)
    ensures NamesHost(domain, host, port)
            <==> (domain == host || domain == host + ":" + Decimal.IntToDecimal(port))
  {
    var k := |host| + 1;
    var dec := Decimal.IntToDecimal(port);
    if domain != host && |domain| > k && domain[..k] == host + ":" {
      var suffix := domain[k..];
      Decimal.DecimalCharacterization(suffix, port);
      assert domain == domain[..k] + suffix;
    }
    if domain == host + ":" + dec {
      assert domain[..k] == host + ":" && domain[k..] == dec;
      Decimal.DecimalCharacterization(dec, port);
    }
  }

  /**
    Plain http is chosen exactly for a loopback name that is bare or carries
    the configured port as a canonical decimal numeral.
  */
  lemma PlainHttpCharacterization(cfg: Config)
    ensures UsesPlainHttp(cfg) <==> LoopbackDomain(cfg.domain, cfg.port)
  {
    assert "localhost" + ":" == "localhost:";
    assert "127.0.0.1" + ":" == "127.0.0.1:";
    NamesHostTextually(cfg.domain, "localhost", cfg.port);
    NamesHostTextually(cfg.domain, "127.0.0.1", cfg.port);
  }

  /** A loopback name with a port other than the configured one gets https. */
  lemma OtherPortUsesHttps(t: Tracker, other: int, id: string)
    requires other != t.config.port
    requires t.config.domain == "localhost:" + Decimal.IntToDecimal(other)
             || t.config.domain == "127.0.0.1:" + Decimal.IntToDecimal(other)
    ensures "https://" <= GenerateLink(t, id)
  {
    var dec := Decimal.IntToDecimal(t.config.port);
    var otherDec := Decimal.IntToDecimal(other);
    Decimal.DecimalInjective(other, t.config.port);
    var d := t.config.domain;
    assert ("localhost:" + dec)[10..] == dec && ("localhost:" + dec)[0] == 'l';
    assert ("127.0.0.1:" + dec)[10..] == dec && ("127.0.0.1:" + dec)[0] == '1';
    if d == "localhost:" + otherDec {
      assert d[10..] == otherDec && d[0] == 'l';
    } else {
      assert d[10..] == otherDec && d[0] == '1';
    }
  }

  /** A port written with a leading zero never matches, whatever the configured port. */
  lemma LeadingZeroPortUsesHttps(t: Tracker, n: int, id: string)
    requires t.config.domain == "localhost:0" + Decimal.IntToDecimal(n)
    ensures "https://" <= GenerateLink(t, id)
  {
    var d := t.config.domain;
    var suffix := d[10..];
    assert suffix == "0" + Decimal.IntToDecimal(n);
    assert !Decimal.IsCanonicalInt(suffix) by {
      assert |suffix| >= 2 && suffix[0] == '0';
    }
    assert d[0] == 'l';
    PlainHttpCharacterization(t.config);
  }

  /** Names outside the allow-list, such as the IPv6 loopback or the unspecified address, get https. */
  lemma OtherLoopbackNamesUseHttps(t: Tracker, id: string)
    requires t.config.domain == "::1" || t.config.domain == "0.0.0.0"
    ensures "https://" <= GenerateLink(t, id)
  {
    var d := t.config.domain;
    assert d[0] != 'l' && d[0] != '1';
    var dec := Decimal.IntToDecimal(t.config.port);
    assert ("localhost:" + dec)[0] == 'l';
    assert ("127.0.0.1:" + dec)[0] == '1';
  }
}
