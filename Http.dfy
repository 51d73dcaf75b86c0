/**
 * The values the client core passes around: request and response messages,
 * their content, the serializer and injector contracts, and the errors the
 * core raises.
 */
module Http {
  import opened Wrappers

  newtype byte = x: int | 0 <= x < 256
  type Bytes = seq<byte>

  /** A header collection: name/value pairs in insertion order; a name may repeat. */
  type Headers = seq<(string, string)>

  /**
   * The platform routines the core calls but does not define: `GzipAsync`
   * (UTF-8 encoding followed by GZIP compression), `GunzipAsync`
   * (decompression followed by UTF-8 decoding), and the UTF-8 transcoding
   * that `HttpContent` performs when its body is read as text or as bytes.
   */
  datatype Codecs = Codecs(
    gzip: string -> Bytes,
    gunzip: Bytes -> string,
    utf8Encode: string -> Bytes,
    utf8Decode: Bytes -> string)

  /** `GunzipAsync` undoes `GzipAsync` on every string: the law the layering relies on. */
  ghost predicate GzipRoundTrips(codecs: Codecs)
  {
    forall s :: codecs.gunzip(codecs.gzip(s)) == s
  }

  /** The body of an `HttpContent`: text (`StringContent`) or raw bytes (`ByteArrayContent`, a response body). */
  datatype Payload = Text(text: string) | Binary(data: Bytes)

  /** An `HttpContent` with the two content headers the core reads. */
  datatype Content = Content(payload: Payload, contentType: Option<string>, contentEncoding: seq<string>)

  /** The Content-Type that `new StringContent(s)` and `new StringContent(s, Encoding.UTF8)` carry. */
  const StringContentType: string := "text/plain; charset=utf-8"

  /** `new StringContent(s)`. */
  function StringContent(s: string): Content
  {
    Content(Text(s), Some(StringContentType), [])
  }

  /** `new ByteArrayContent(b)`: the bytes, and no content headers. */
  function ByteArrayContent(b: Bytes): Content
  {
    Content(Binary(b), None, [])
  }

  /** `content.ReadAsStringAsync()`. */
  function ReadAsString(codecs: Codecs, c: Content): string
  {
    match c.payload
    case Text(t) => t
    case Binary(b) => codecs.utf8Decode(b)
  }

  /** `content.ReadAsByteArrayAsync()`. */
  function ReadAsBytes(codecs: Codecs, c: Content): Bytes
  {
    match c.payload
    case Text(t) => codecs.utf8Encode(t)
    case Binary(b) => b
  }

  /**
   * A request body or a decoded response: a string, or an object given by its
   * type name and its data members.
   */
  datatype Value = Str(s: string) | Obj(typeName: string, members: map<string, string>)

  /** `Object.ToString()`: a string is itself, an object without an override shows its type name. */
  function ToString(v: Value): string
  {
    match v
    case Str(s) => s
    case Obj(typeName, _) => typeName
  }

  datatype Verb = Get | Post | Put | Patch | Delete | Head

  /** A `System.Type` used as the decode target of a response. */
  datatype TypeDesc = TypeDesc(name: string)

  /** The state of an `HttpRequest` as one value. */
  datatype RequestData = RequestData(
    path: string,
    verb: Verb,
    responseType: TypeDesc,
    headers: Headers,
    body: Option<Value>,
    contentType: Option<string>,
    contentEncoding: Option<string>,
    requestUri: Option<string>,
    content: Option<Content>)

  /** An outgoing request: a mutable object that execution clones before touching. */
  class HttpRequest {
    var path: string
    var verb: Verb
    var responseType: TypeDesc
    var headers: Headers
    var body: Option<Value>
    var contentType: Option<string>
    var contentEncoding: Option<string>
    var requestUri: Option<string>
    var content: Option<Content>

    function Data(): RequestData
      reads this
    {
      RequestData(path, verb, responseType, headers, body, contentType, contentEncoding, requestUri, content)
    }

    /** `new HttpRequest(path, verb, responseType)`: no headers, no body, nothing resolved yet. */
    constructor (path: string, verb: Verb, responseType: TypeDesc)
      ensures Data() == RequestData(path, verb, responseType, [], None, None, None, None, None)
    {
      this.path, this.verb, this.responseType := path, verb, responseType;
      headers, body, contentType, contentEncoding, requestUri, content := [], None, None, None, None, None;
    }

    /** A request object holding the state `d`. */
    constructor FromData(d: RequestData)
      ensures Data() == d
    {
      path, verb, responseType, headers := d.path, d.verb, d.responseType, d.headers;
      body, contentType, contentEncoding := d.body, d.contentType, d.contentEncoding;
      requestUri, content := d.requestUri, d.content;
    }

    /** `Clone<T>()`: a new object with equal state and its own copy of the headers. */
    method Clone() returns (c: HttpRequest)
      ensures fresh(c) && c.Data() == Data()
    {
      c := new HttpRequest.FromData(Data());
    }
  }

  /** The transport's `HttpResponseMessage`. */
  datatype ResponseMessage = ResponseMessage(statusCode: int, headers: Headers, content: Content)

  /** The `HttpResponse` that `Execute` returns: headers, status and the decoded body, if any. */
  datatype HttpResponse = HttpResponse(headers: Headers, statusCode: int, result: Option<Value>)

  /** What the core throws. */
  datatype Error =
    | IOException(message: string)
    | SerializerError(message: string)
    | NullReferenceException
    | HttpException(statusCode: int, headers: Headers, body: string)

  /**
   * The `ISerializer` contract: the pattern under which it is registered, its
   * compiled regular expression (as the set of content types it accepts), and
   * its encode and decode operations.
   */
  datatype Serializer = Serializer(
    pattern: string,
    isMatch: string -> bool,
    encode: RequestData -> Result<Content, Error>,
    decode: (Content, TypeDesc) -> Result<Value, Error>)

  /** The `IInjector` contract: a request in, a (possibly changed) request out. */
  type Injector = RequestData -> RequestData
}
