/**
 * The client: a cache of transport handles shared by base URL, and the
 * execution pipeline (clone, inject, resolve the URI, serialize, send,
 * classify, decode).
 */
module Client {
  import opened Wrappers
  import opened Strings
  import opened Http
  import opened Encoding

  /** What `GetUserAgent` returns and every new handle sends by default. */
  const UserAgent: string := "PayPalHttp-Dotnet HTTP/1.1"

  /** The initial `_timeout`, five minutes, in milliseconds; new handles take it as their pooled-connection lifetime. */
  const DefaultPoolTimeout: nat := 300000

  /** `System.Net.Http.HttpClient.Timeout` before anyone sets it: 100 seconds, in milliseconds. */
  const DefaultRequestTimeout: nat := 100000

  /** The exact value on the wire is proved by `DefaultUserAgentSent`. */
  function GetUserAgent(): (r: string)
    ensures StartsWith(r, "PayPalHttp-Dotnet")
  {
    UserAgent
  }

  /** The default headers of a handle built by `GetHttpClient`. */
  function DefaultHeaders(): Headers
  {
    [("User-Agent", GetUserAgent())]
  }

  /** `IEnvironment`: where requests go. */
  datatype Environment = Environment(baseUrl: string)

  /** A handle's settings as the transport sees them. */
  datatype HandleConfig = HandleConfig(baseAddress: string, defaultHeaders: Headers, timeout: nat, pooledConnectionLifetime: nat)

  /** A `System.Net.Http.HttpClient` with its socket handler: shared, and only its timeout changes. */
  class TransportHandle {
    const baseAddress: string
    const defaultHeaders: Headers
    const pooledConnectionLifetime: nat
    var timeout: nat

    function Config(): HandleConfig
      reads this
    {
      HandleConfig(baseAddress, defaultHeaders, timeout, pooledConnectionLifetime)
    }

    /** The factory passed to `GetOrAdd`: the caller's base URL as given, and the default User-Agent. */
    constructor (baseUrl: string, lifetime: nat)
      ensures Config() == HandleConfig(baseUrl, DefaultHeaders(), DefaultRequestTimeout, lifetime)
    {
      baseAddress := baseUrl;
      defaultHeaders := DefaultHeaders();
      pooledConnectionLifetime := lifetime;
      timeout := DefaultRequestTimeout;
    }
  }

  /** The static `ClientDictionary`, as a sequential map. */
  class ClientDictionary {
    var handles: map<string, TransportHandle>

    /** Every handle in the cache was built by `GetHttpClient`. */
    ghost predicate Valid()
      reads this
    {
      forall key :: key in handles ==> handles[key].defaultHeaders == DefaultHeaders()
    }

    constructor ()
      ensures Valid() && handles == map[]
    {
      handles := map[];
    }

    /**
     * `GetOrAdd(key, factory)`: an existing entry is returned and the map
     * stays as it was; otherwise exactly one new handle is built and stored.
     */
    method GetOrAdd(key: string, baseUrl: string, lifetime: nat) returns (h: TransportHandle)
      requires Valid()
      modifies this
      ensures Valid()
      ensures key in handles && handles[key] == h
      ensures key in old(handles) ==> h == old(handles)[key] && handles == old(handles)
      ensures key !in old(handles) ==>
                fresh(h) && handles == old(handles)[key := h] &&
                h.Config() == HandleConfig(baseUrl, DefaultHeaders(), DefaultRequestTimeout, lifetime)
    {
      if key in handles {
        h := handles[key];
      } else {
        h := new TransportHandle(baseUrl, lifetime);
        handles := handles[key := h];
      }
    }
  }

  /** The network: whatever the server answers to a request sent through a handle. */
  type Transport = (HandleConfig, RequestData) -> ResponseMessage

  /** `IsSuccessStatusCode`: a 2xx status (section 15.3 of RFC 9110). */
  predicate IsSuccessStatusCode(statusCode: int)
  {
    200 <= statusCode <= 299
  }

  /** The injectors applied in order, each to the previous one's output. */
  function Inject(injectors: seq<Injector>, d: RequestData): RequestData
  {
    if injectors == [] then d
    else injectors[|injectors| - 1](Inject(injectors[..|injectors| - 1], d))
  }

  /** Header names are compared without regard to letter case. */
  predicate SameName(a: string, b: string)
  {
    ToLower(a) == ToLower(b)
  }

  /** Every value added under header `name`, in any letter case, in the order added. */
  function HeaderValues(headers: Headers, name: string): (r: seq<string>)
    ensures r == [] <==> forall i :: 0 <= i < |headers| ==> !SameName(headers[i].0, name)
  {
    if headers == [] then []
    else (if SameName(headers[0].0, name) then [headers[0].1] else []) + HeaderValues(headers[1..], name)
  }

  /** What is written between two values of one header: a space between User-Agent product tokens, a comma otherwise. */
  function ValueSeparator(name: string): string
  {
    if SameName(name, "User-Agent") then " " else ", "
  }

  /**
   * The value of header `name` on the wire. `SendAsync` adds a handle's
   * default header only when the request carries no header of that name,
   * and all values of one header go out combined.
   */
  function HeaderSent(handle: HandleConfig, headers: Headers, name: string): (r: Option<string>)
    ensures r.None? <==> HeaderValues(headers, name) == [] && HeaderValues(handle.defaultHeaders, name) == []
  {
    var own := HeaderValues(headers, name);
    var defaults := HeaderValues(handle.defaultHeaders, name);
    if own != [] then Some(Join(ValueSeparator(name), own))
    else if defaults != [] then Some(Join(ValueSeparator(name), defaults))
    else None
  }

  /** Everything of a client that a call to `Execute` depends on. */
  datatype ClientState = ClientState(
    baseUrl: string,
    lookup: seq<Entry>,
    codecs: Codecs,
    injectors: seq<Injector>,
    handle: HandleConfig)

  /** The request after injection, with its URI resolved and, when it has a body, its content serialized. */
  function Prepared(s: ClientState, req: RequestData): Result<RequestData, Error>
  {
    var injected := Inject(s.injectors, req);
    var resolved := injected.(requestUri := Some(s.baseUrl + injected.path));
    if resolved.body.None? then Success(resolved)
    else
      match Serialized(s.lookup, s.codecs, resolved)
      case Failure(e) => Failure(e)
      case Success(c) => Success(AfterSerialize(resolved).(content := Some(c)))
  }

  /** What `ExecuteRaw` returns or throws. */
  function ExecuteRawResult(s: ClientState, req: RequestData, transport: Transport): Result<ResponseMessage, Error>
  {
    match Prepared(s, req)
    case Failure(e) => Failure(e)
    case Success(sent) => Success(transport(s.handle, sent))
  }

  /** How `Execute` turns the transport's answer to `sent` into a response or an exception. */
  function Classified(s: ClientState, sent: RequestData, m: ResponseMessage): Result<HttpResponse, Error>
  {
    if IsSuccessStatusCode(m.statusCode) then
      if m.content.contentType.None? then Success(HttpResponse(m.headers, m.statusCode, None))
      else
        match Deserialized(s.lookup, s.codecs, m.content, sent.responseType)
        case Failure(e) => Failure(e)
        case Success(v) => Success(HttpResponse(m.headers, m.statusCode, Some(v)))
    else
      Failure(HttpException(m.statusCode, m.headers, ReadAsString(s.codecs, m.content)))
  }

  /** What `Execute` returns or throws. */
  function ExecuteResult(s: ClientState, req: RequestData, transport: Transport): Result<HttpResponse, Error>
  {
    match Prepared(s, req)
    case Failure(e) => Failure(e)
    case Success(sent) => Classified(s, sent, transport(s.handle, sent))
  }

  class HttpClient {
    /** `_environment.BaseUrl()`. */
    const baseUrl: string
    /** The `Encoder` property. */
    const encoder: Encoder
    /** `_client`. */
    const client: TransportHandle
    /** `_injectors`. */
    var injectors: seq<Injector>
    /** `_timeout`, in milliseconds. */
    var timeout: nat

    function State(): ClientState
      reads this, encoder, client
    {
      ClientState(baseUrl, encoder.lookup, encoder.codecs, injectors, client.Config())
    }

    /**
     * `GetHttpClient`: the cached handle for the lower-cased base URL, built
     * from the URL as given when there is none yet.
     */
    static method GetHttpClient(pool: ClientDictionary, baseUrl: string, lifetime: nat) returns (h: TransportHandle)
      requires pool.Valid()
      modifies pool
      ensures pool.Valid()
      ensures ToLower(baseUrl) in pool.handles && pool.handles[ToLower(baseUrl)] == h
      ensures ToLower(baseUrl) in old(pool.handles) ==> h == old(pool.handles)[ToLower(baseUrl)] && pool.handles == old(pool.handles)
      ensures ToLower(baseUrl) !in old(pool.handles) ==>
                fresh(h) && pool.handles == old(pool.handles)[ToLower(baseUrl) := h] &&
                h.Config() == HandleConfig(baseUrl, DefaultHeaders(), DefaultRequestTimeout, lifetime)
    {
      h := pool.GetOrAdd(ToLower(baseUrl), baseUrl, lifetime);
    }

    /** `new HttpClient(environment)`: a fresh Encoder, no injectors, and the shared handle for the base URL. */
    constructor (environment: Environment, p: Platform, pool: ClientDictionary)
      requires pool.Valid()
      modifies pool
      ensures pool.Valid()
      ensures baseUrl == environment.baseUrl && injectors == [] && timeout == DefaultPoolTimeout
      ensures fresh(encoder) && encoder.Valid() && encoder.lookup == DefaultSerializers(p) && encoder.codecs == p.codecs
      ensures ToLower(baseUrl) in pool.handles && pool.handles[ToLower(baseUrl)] == client
      ensures ToLower(baseUrl) in old(pool.handles) ==> client == old(pool.handles)[ToLower(baseUrl)] && pool.handles == old(pool.handles)
      ensures ToLower(baseUrl) !in old(pool.handles) ==>
                fresh(client) && pool.handles == old(pool.handles)[ToLower(baseUrl) := client] &&
                client.Config() == HandleConfig(baseUrl, DefaultHeaders(), DefaultRequestTimeout, DefaultPoolTimeout)
    {
      baseUrl := environment.baseUrl;
      injectors := [];
      timeout := DefaultPoolTimeout;
      encoder := new Encoder(p);
      var handle := GetHttpClient(pool, environment.baseUrl, DefaultPoolTimeout);
      client := handle;
    }

    /** `AddInjector`: a null injector is ignored; any other goes to the end of the list. */
    method AddInjector(injector: Option<Injector>)
      modifies this`injectors
      ensures injector.None? ==> injectors == old(injectors)
      ensures injector.Some? ==> injectors == old(injectors) + [injector.value]
    {
      if injector.Some? {
        injectors := injectors + [injector.value];
      }
    }

    /** `SetConnectTimeout`: this client's `_timeout` and the shared handle's `Timeout`. */
    method SetConnectTimeout(t: nat)
      modifies this`timeout, client`timeout
      ensures timeout == t && client.timeout == t
    {
      timeout := t;
      client.timeout := t;
    }

    /** The steps `Execute` and `ExecuteRaw` share: clone, inject, resolve the URI, serialize a body. */
    method Prepare(req: HttpRequest) returns (r: Result<HttpRequest, Error>)
      ensures r.Success? ==> fresh(r.value)
      ensures Prepared(State(), req.Data()) == if r.Success? then Success(r.value.Data()) else Failure(r.error)
    {
      var request := req.Clone();
      for i := 0 to |injectors|
        invariant fresh(request)
        invariant request.Data() == Inject(injectors[..i], req.Data())
      {
        assert injectors[..i + 1][..i] == injectors[..i];
        request := new HttpRequest.FromData(injectors[i](request.Data()));
      }
      assert injectors[..|injectors|] == injectors;
      request.requestUri := Some(baseUrl + request.path);
      if request.body.Some? {
        var content := encoder.SerializeRequest(request);
        if content.Failure? {
          return Failure(content.error);
        }
        request.content := Some(content.value);
      }
      return Success(request);
    }

    /** `Execute`: the prepared request is sent, and a 2xx answer is decoded while any other raises `HttpException`. */
    method Execute(req: HttpRequest, transport: Transport) returns (r: Result<HttpResponse, Error>)
      ensures r == ExecuteResult(State(), req.Data(), transport)
    {
      var prepared := Prepare(req);
      if prepared.Failure? {
        return Failure(prepared.error);
      }
      var request := prepared.value;
      var response := transport(client.Config(), request.Data());
      if IsSuccessStatusCode(response.statusCode) {
        var responseBody: Option<Value> := None;
        if response.content.contentType.Some? {
          var decoded := encoder.DeserializeResponse(response.content, request.responseType);
          if decoded.Failure? {
            return Failure(decoded.error);
          }
          responseBody := Some(decoded.value);
        }
        return Success(HttpResponse(response.headers, response.statusCode, responseBody));
      }
      var responseBody := ReadAsString(encoder.codecs, response.content);
      return Failure(HttpException(response.statusCode, response.headers, responseBody));
    }

    /** `ExecuteRaw`: the transport's answer to the prepared request, unclassified. */
    method ExecuteRaw(req: HttpRequest, transport: Transport) returns (r: Result<ResponseMessage, Error>)
      ensures r == ExecuteRawResult(State(), req.Data(), transport)
    {
      var prepared := Prepare(req);
      if prepared.Failure? {
        return Failure(prepared.error);
      }
      var response := transport(client.Config(), prepared.value.Data());
      return Success(response);
    }
  }
}
