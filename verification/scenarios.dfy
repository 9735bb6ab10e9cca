/** Concrete configurations and requests, worked through the model. */
module Scenarios {
  import opened Wrappers
  import Decimal
  import opened Tracker

  lemma Decimal8080()
    ensures Decimal.IntToDecimal(8080) == "8080"
  {
    assert Decimal.NatToDecimal(8) == "8";
    assert Decimal.NatToDecimal(80) == "80";
    assert Decimal.NatToDecimal(808) == "808";
  }

  lemma Decimal9090()
    ensures Decimal.IntToDecimal(9090) == "9090"
  {
    assert Decimal.NatToDecimal(9) == "9";
    assert Decimal.NatToDecimal(90) == "90";
    assert Decimal.NatToDecimal(909) == "909";
  }

  /** A link is its parts joined, once the scheme is known. */
  lemma LinkParts(t: Tracker, id: string, scheme: string)
    requires Scheme(t.config) == scheme
    ensures GenerateLink(t, id) == scheme + "://" + t.config.domain + t.config.path + "?id=" + id
  {
  }

  lemma LocalhostText()
    ensures "http" + "://" + "localhost:8080" + "/pixel" + "?id=" + "abc123"
            == "http://localhost:8080/pixel?id=abc123"
  {
    var joined := "http" + "://" + "localhost:8080" + "/pixel" + "?id=" + "abc123";
    var expected := "http://localhost:8080/pixel?id=abc123";
    assert |joined| == |expected|;
    forall i | 0 <= i < |joined|
      ensures joined[i] == expected[i]
    {
    }
  }

  lemma PublicDomainText()
    ensures "https" + "://" + "tracker.example.com" + "/pixel" + "?id=" + "x"
            == "https://tracker.example.com/pixel?id=x"
  {
    var joined := "https" + "://" + "tracker.example.com" + "/pixel" + "?id=" + "x";
    var expected := "https://tracker.example.com/pixel?id=x";
    assert |joined| == |expected|;
    forall i | 0 <= i < |joined|
      ensures joined[i] == expected[i]
    {
    }
  }

  /** A local development setup links over plain http. */
  lemma LocalhostLink()
    ensures GenerateLink(Tracker(Config(8080, "localhost:8080", "/pixel"), None), "abc123")
            == "http://localhost:8080/pixel?id=abc123"
  {
    var t := Tracker(Config(8080, "localhost:8080", "/pixel"), None);
    assert UsesPlainHttp(t.config) by {
      Decimal8080();
      assert "localhost:" + "8080" == "localhost:8080";
    }
    LinkParts(t, "abc123", "http");
    LocalhostText();
  }

  /** A public domain links over https. */
  lemma PublicDomainLink()
    ensures GenerateLink(Tracker(Config(8080, "tracker.example.com", "/pixel"), None), "x")
            == "https://tracker.example.com/pixel?id=x"
  {
    var t := Tracker(Config(8080, "tracker.example.com", "/pixel"), None);
    assert !UsesPlainHttp(t.config) by {
      var dec := Decimal.IntToDecimal(8080);
      assert ("localhost:" + dec)[0] == 'l' && ("127.0.0.1:" + dec)[0] == '1';
      assert t.config.domain[0] == 't';
    }
    LinkParts(t, "x", "https");
    PublicDomainText();
  }

  /** The port in the domain must be the configured one. */
  lemma MismatchedPortLink()
    ensures "https://" <= GenerateLink(Tracker(Config(8080, "localhost:9090", "/pixel"), None), "abc123")
  {
    Decimal9090();
    OtherPortUsesHttps(Tracker(Config(8080, "localhost:9090", "/pixel"), None), 9090, "abc123");
  }

  /** A forwarded request without an id: the header is the address, the id is empty, the pixel is served. */
  lemma ForwardedRequest(split: HostPortSplitter, now: Timestamp, cb: Callback)
    ensures var r := Request(map[], map["X-Forwarded-For" := "203.0.113.5"], "10.0.0.1:4000");
            var s := Handle(Tracker(Config(8080, "localhost:8080", "/pixel"), Some(cb)), r, split, now, []);
            && s.trace == [Invocation(cb, OpenEvent("", "203.0.113.5", "203.0.113.5", "", "", "", now))]
            && s.response == PixelResponse()
  {
  }

  /** A direct request: the host half of the remote address is recorded. */
  lemma DirectRequest(split: HostPortSplitter, now: Timestamp)
    requires split("192.0.2.10:54321") == Some(("192.0.2.10", "54321"))
    ensures BuildEvent(Request(map[], map[], "192.0.2.10:54321"), split, now).ip == "192.0.2.10"
  {
  }

  /** Two requests with distinct ids: one invocation each, in handling order, each with its own id. */
  lemma TwoRequests(split: HostPortSplitter, cb: Callback)
    ensures var t := Tracker(Config(8080, "localhost:8080", "/pixel"), Some(cb));
            var reqs := [Request(map["id" := "a"], map[], "192.0.2.1:1"),
                         Request(map["id" := "b"], map[], "192.0.2.2:2")];
            var s := HandleAll(t, reqs, [1, 2], split, []);
            && s.0 == [PixelResponse(), PixelResponse()]
            && |s.1| == 2 && s.1[0].event.id == "a" && s.1[1].event.id == "b"
            && s.1[0].callback == cb && s.1[1].callback == cb
  {
    var t := Tracker(Config(8080, "localhost:8080", "/pixel"), Some(cb));
    var reqs := [Request(map["id" := "a"], map[], "192.0.2.1:1"),
                 Request(map["id" := "b"], map[], "192.0.2.2:2")];
    var s := HandleAll(t, reqs, [1, 2], split, []);
    assert s.1[0 + 0] == Invocation(cb, BuildEvent(reqs[0], split, 1));
    assert s.1[0 + 1] == Invocation(cb, BuildEvent(reqs[1], split, 2));
  }

  /** Without a callback, a run of requests leaves the trace untouched. */
  lemma NoCallbackNoTrace(reqs: seq<Request>, times: seq<Timestamp>, split: HostPortSplitter, cfg: Config)
    requires |times| == |reqs|
    ensures HandleAll(Tracker(cfg, None), reqs, times, split, []).1 == []
  {
  }
}
