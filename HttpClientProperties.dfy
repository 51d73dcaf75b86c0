/** What the execution pipeline and the handle cache guarantee. */
module ClientProperties {
  import opened Wrappers
  import opened Strings
  import opened Http
  import opened Encoding
  import opened Client
  import EncoderProperties

  /** Running one list of injectors and then another is running their concatenation. */
  lemma {:induction false} InjectAppend(fs: seq<Injector>, gs: seq<Injector>, d: RequestData)
    ensures Inject(fs + gs, d) == Inject(gs, Inject(fs, d))
  {
    if gs == [] {
      assert fs + gs == fs;
    } else {
      var last := |gs| - 1;
      assert (fs + gs)[..|fs + gs| - 1] == fs + gs[..last];
      InjectAppend(fs, gs[..last], d);
    }
  }

  /** The first injector sees the clone; every later one sees its predecessor's output. */
  lemma InjectFront(f: Injector, fs: seq<Injector>, d: RequestData)
    ensures Inject([f] + fs, d) == Inject(fs, f(d))
  {
    InjectAppend([f], fs, d);
    assert [f][..0] == [];
  }

  /** An injector that adds one header, as the `TestInjector` of the test suite does with `Headers.Add`. */
  function AddHeader(name: string, value: string): Injector
  {
    (d: RequestData) => d.(headers := d.headers + [(name, value)])
  }

  /** Two header-adding injectors leave their headers in registration order. */
  lemma InjectorsRunInOrder(d: RequestData, a: (string, string), b: (string, string))
    ensures Inject([AddHeader(a.0, a.1), AddHeader(b.0, b.1)], d).headers == d.headers + [a, b]
  {
    InjectFront(AddHeader(a.0, a.1), [AddHeader(b.0, b.1)], d);
    var once := AddHeader(a.0, a.1)(d);
    InjectFront(AddHeader(b.0, b.1), [], once);
    assert [AddHeader(b.0, b.1)] + [] == [AddHeader(b.0, b.1)];
  }

  /**
   * The sent request is the injected clone with `RequestUri` set to the base
   * URL followed by the path, character for character; its path, verb,
   * headers and declared response type are the injected ones.
   */
  lemma PreparedResolvesUri(s: ClientState, req: RequestData)
    requires Prepared(s, req).Success?
    ensures var injected, sent := Inject(s.injectors, req), Prepared(s, req).value;
            sent.requestUri == Some(s.baseUrl + injected.path) &&
            sent.path == injected.path && sent.verb == injected.verb &&
            sent.headers == injected.headers && sent.responseType == injected.responseType
  {
  }

  /**
   * Without a body nothing is serialized: the table and the codecs play no
   * part, and the content is whatever the injected request already had.
   */
  lemma NoBodyNothingSerialized(s1: ClientState, s2: ClientState, req: RequestData)
    requires s1.baseUrl == s2.baseUrl && s1.injectors == s2.injectors
    requires Inject(s1.injectors, req).body.None?
    ensures Prepared(s1, req) == Prepared(s2, req)
    ensures Prepared(s1, req).Success?
    ensures Prepared(s1, req).value.content == Inject(s1.injectors, req).content
  {
  }

  /** With a body, the sent content is the Encoder's output and the content type is lower-cased. */
  lemma BodySerialized(s: ClientState, req: RequestData)
    requires Inject(s.injectors, req).body.Some?
    ensures var injected := Inject(s.injectors, req);
            var resolved := injected.(requestUri := Some(s.baseUrl + injected.path));
            var c := Serialized(s.lookup, s.codecs, resolved);
            (Prepared(s, req).Success? <==> c.Success?) &&
            (c.Success? ==> Prepared(s, req).value.content == Some(c.value) &&
                            Prepared(s, req).value.contentType == Some(ToLower(injected.contentType.value))) &&
            (c.Failure? ==> Prepared(s, req).error == c.error)
  {
  }

  /** A serialization failure is raised before the send: no transport can change the outcome. */
  lemma FailureBeforeSend(s: ClientState, req: RequestData, t1: Transport, t2: Transport)
    requires Prepared(s, req).Failure?
    ensures ExecuteRawResult(s, req, t1) == ExecuteRawResult(s, req, t2) == Failure(Prepared(s, req).error)
    ensures ExecuteResult(s, req, t1) == ExecuteResult(s, req, t2) == Failure(Prepared(s, req).error)
  {
  }

  /** A 2xx answer keeps its status and headers; the body is decoded exactly when a Content-Type is present. */
  lemma SuccessKeepsStatusAndHeaders(s: ClientState, sent: RequestData, m: ResponseMessage)
    requires IsSuccessStatusCode(m.statusCode)
    ensures m.content.contentType.None? ==> Classified(s, sent, m) == Success(HttpResponse(m.headers, m.statusCode, None))
    ensures m.content.contentType.Some? ==>
              Classified(s, sent, m) ==
                match Deserialized(s.lookup, s.codecs, m.content, sent.responseType)
                case Failure(e) => Failure(e)
                case Success(v) => Success(HttpResponse(m.headers, m.statusCode, Some(v)))
  {
  }

  /** Any other status raises `HttpException` with the status, the headers and the body read as text. */
  lemma OtherStatusRaises(s: ClientState, sent: RequestData, m: ResponseMessage)
    requires !IsSuccessStatusCode(m.statusCode)
    ensures Classified(s, sent, m) == Failure(HttpException(m.statusCode, m.headers, ReadAsString(s.codecs, m.content)))
  {
  }

  /** 204 No Content with no Content-Type is a success without a body; 400 Bad Request is an `HttpException`. */
  lemma StatusExamples(s: ClientState, sent: RequestData, h: Headers, c: Content)
    requires c.contentType.None?
    ensures Classified(s, sent, ResponseMessage(204, h, c)) == Success(HttpResponse(h, 204, None))
    ensures Classified(s, sent, ResponseMessage(400, h, c)).Failure?
    ensures Classified(s, sent, ResponseMessage(400, h, c)).error.HttpException?
    ensures Classified(s, sent, ResponseMessage(400, h, c)).error.statusCode == 400
    ensures !IsSuccessStatusCode(199) && IsSuccessStatusCode(200) && IsSuccessStatusCode(299) && !IsSuccessStatusCode(300)
  {
  }

  /**
   * `Execute` is `ExecuteRaw` followed by classification: it fails whenever
   * `ExecuteRaw` fails, and otherwise classifies the very message `ExecuteRaw`
   * returns.
   */
  lemma ExecuteClassifiesExecuteRaw(s: ClientState, req: RequestData, t: Transport)
    ensures ExecuteRawResult(s, req, t).Failure? ==> ExecuteResult(s, req, t) == Failure(ExecuteRawResult(s, req, t).error)
    ensures ExecuteRawResult(s, req, t).Success? ==>
              ExecuteResult(s, req, t) == Classified(s, Prepared(s, req).value, ExecuteRawResult(s, req, t).value)
  {
  }

  /** Without injectors, a request that sets no User-Agent, in any letter case, goes out with the handle's default one. */
  lemma DefaultUserAgentSent(s: ClientState, req: RequestData)
    requires s.injectors == [] && s.handle.defaultHeaders == DefaultHeaders()
    requires Prepared(s, req).Success?
    requires HeaderValues(req.headers, "User-Agent") == []
    ensures HeaderSent(s.handle, Prepared(s, req).value.headers, "User-Agent") == Some(UserAgent)
  {
    assert DefaultHeaders()[1..] == [];
    assert HeaderValues(DefaultHeaders(), "User-Agent") == [UserAgent];
  }

  /**
   * An injector that adds a User-Agent overrides the handle's default: its
   * value goes out after any User-Agent values the request already had.
   */
  lemma InjectedUserAgentWins(s: ClientState, req: RequestData)
    requires s.injectors == [AddHeader("User-Agent", "Custom Injector")]
    requires Prepared(s, req).Success?
    ensures HeaderSent(s.handle, Prepared(s, req).value.headers, "User-Agent") ==
            Some(Join(" ", HeaderValues(req.headers, "User-Agent") + ["Custom Injector"]))
    ensures HeaderValues(req.headers, "User-Agent") == [] ==>
              HeaderSent(s.handle, Prepared(s, req).value.headers, "User-Agent") == Some("Custom Injector")
  {
    PreparedResolvesUri(s, req);
    InjectFront(AddHeader("User-Agent", "Custom Injector"), [], req);
    assert Inject(s.injectors, req).headers == req.headers + [("User-Agent", "Custom Injector")];
    HeaderValuesAppend(req.headers, ("User-Agent", "Custom Injector"), "User-Agent");
    assert [] + ["Custom Injector"] == ["Custom Injector"];
  }

  /** A `user-agent: Y` already on the request counts as the same header, and both values go out. */
  lemma InjectedUserAgentCombines(s: ClientState, req: RequestData)
    requires s.injectors == [AddHeader("User-Agent", "Custom Injector")]
    requires Prepared(s, req).Success? && req.headers == [("user-agent", "Y")]
    ensures HeaderSent(s.handle, Prepared(s, req).value.headers, "User-Agent") == Some("Y Custom Injector")
  {
    InjectedUserAgentWins(s, req);
    assert SameName("user-agent", "User-Agent");
    assert req.headers[1..] == [];
    assert HeaderValues(req.headers, "User-Agent") == ["Y"];
    assert ["Y"] + ["Custom Injector"] == ["Y", "Custom Injector"];
    assert ["Y", "Custom Injector"][1..] == ["Custom Injector"];
    assert Join(" ", ["Y", "Custom Injector"]) == "Y" + " " + "Custom Injector";
    assert "Y" + " " + "Custom Injector" == "Y Custom Injector";
    assert HeaderSent(s.handle, Prepared(s, req).value.headers, "User-Agent") == Some(Join(" ", ["Y", "Custom Injector"]));
  }

  /** Adding a header adds its value at the end of the values of every name it matches. */
  lemma {:induction false} HeaderValuesAppend(headers: Headers, h: (string, string), name: string)
    ensures HeaderValues(headers + [h], name) ==
            HeaderValues(headers, name) + (if SameName(h.0, name) then [h.1] else [])
  {
    if headers == [] {
      assert [h][1..] == [];
    } else {
      assert (headers + [h])[1..] == headers[1..] + [h];
      HeaderValuesAppend(headers[1..], h, name);
    }
  }

  /**
   * A `text/plain` string body on a client with the default table goes out
   * as that very text.
   */
  lemma TextBodyWritten(p: Platform, s: ClientState, req: RequestData, body: string)
    requires DistinctPatterns(p)
    requires s.lookup == DefaultSerializers(p) && s.codecs == p.codecs && s.injectors == []
    requires req.body == Some(Str(body)) && req.contentType == Some("text/plain") && req.contentEncoding.None?
    ensures Prepared(s, req).Success?
    ensures Prepared(s, req).value.content == Some(StringContent(body))
  {
    var resolved := req.(requestUri := Some(s.baseUrl + req.path));
    EncoderProperties.SerializeTextBody(p, resolved, body);
  }

  /** `Execute` leaves the caller's request and the client as they were. */
  method ExecuteLeavesRequestAlone(c: HttpClient, req: HttpRequest, t: Transport) returns (r: Result<HttpResponse, Error>)
    ensures req.Data() == old(req.Data()) && c.State() == old(c.State())
    ensures r == ExecuteResult(c.State(), req.Data(), t)
  {
    r := c.Execute(req, t);
  }

  /**
   * Two clients whose base URLs differ only in letter case share one handle,
   * so a timeout set through one is the timeout of the other.
   */
  method SharedHandle(pool: ClientDictionary, p: Platform, e1: Environment, e2: Environment, t: nat)
    returns (c1: HttpClient, c2: HttpClient)
    requires pool.Valid() && ToLower(e1.baseUrl) == ToLower(e2.baseUrl)
    modifies pool, pool.handles.Values
    ensures c1.client == c2.client && c2.client.timeout == t
    ensures c1.encoder != c2.encoder
  {
    c1 := new HttpClient(e1, p, pool);
    c2 := new HttpClient(e2, p, pool);
    c1.SetConnectTimeout(t);
  }
}
