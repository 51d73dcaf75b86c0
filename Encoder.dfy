/**
 * The Encoder: a per-instance registry of serializers, copied from a default
 * table, that picks a serializer by content type and layers gzip on top.
 */
module Encoding {
  import opened Wrappers
  import opened Strings
  import opened Http
  import TextSerializer
  import JsonSerializer

  /** One registry entry: the pattern string and the serializer registered under it. */
  type Entry = (string, Serializer)

  /** The registry's keys, in insertion order (`Dictionary.Keys`). */
  function Keys(t: seq<Entry>): seq<string>
  {
    seq(|t|, i requires 0 <= i < |t| => t[i].0)
  }

  /** The position of `key` in the registry, if it is there. */
  function IndexOf(t: seq<Entry>, key: string): (r: Option<nat>)
    ensures r.Some? ==> r.value < |t| && t[r.value].0 == key
    ensures r.Some? ==> forall j :: 0 <= j < r.value ==> t[j].0 != key
    ensures r.None? <==> forall j :: 0 <= j < |t| ==> t[j].0 != key
  {
    if t == [] then None
    else if t[0].0 == key then Some(0)
    else match IndexOf(t[1..], key)
      case None => None
      case Some(i) => Some(i + 1)
  }

  /** The serializer stored under `key`, if any (`Dictionary.TryGetValue`). */
  function ValueOf(t: seq<Entry>, key: string): Option<Serializer>
  {
    match IndexOf(t, key)
    case None => None
    case Some(i) => Some(t[i].1)
  }

  /** No key occurs twice: the shape of a dictionary. */
  predicate UniqueKeys(t: seq<Entry>)
  {
    forall i, j :: 0 <= i < j < |t| ==> t[i].0 != t[j].0
  }

  /**
   * `lookup[key] = s` (the `Dictionary` indexer): an existing key keeps its
   * place and takes the new value; a new key is appended.
   */
  function SetItem(t: seq<Entry>, key: string, s: Serializer): seq<Entry>
  {
    match IndexOf(t, key)
    case None => t + [(key, s)]
    case Some(i) => t[i := (key, s)]
  }

  /** Storing under a key keeps a dictionary a dictionary. */
  lemma SetItemKeepsKeysUnique(t: seq<Entry>, key: string, s: Serializer)
    requires UniqueKeys(t)
    ensures UniqueKeys(SetItem(t, key, s))
  {
  }

  /** The static `RegisterSerializer(serializer, lookup)`: a `null` serializer is ignored. */
  function Register(t: seq<Entry>, s: Option<Serializer>): seq<Entry>
  {
    match s
    case None => t
    case Some(v) => SetItem(t, v.pattern, v)
  }

  /** What the built-in serializers need that the core does not define. */
  datatype Platform = Platform(
    codecs: Codecs,
    jsonEncode: RequestData -> Result<Content, Error>,
    jsonDecode: (Content, TypeDesc) -> Result<Value, Error>,
    multipart: Serializer,
    formEncoded: Serializer)

  function JsonDefault(p: Platform): Serializer
  {
    JsonSerializer.Make(p.jsonEncode, p.jsonDecode)
  }

  function TextDefault(p: Platform): Serializer
  {
    TextSerializer.Make(p.codecs)
  }

  /** The four built-in serializers claim four different patterns. */
  predicate DistinctPatterns(p: Platform)
  {
    var json, text, multipart, form := JsonSerializer.Pattern, TextSerializer.RegExPattern, p.multipart.pattern, p.formEncoded.pattern;
    json != text && json != multipart && json != form && text != multipart && text != form && multipart != form
  }

  /** The static `DefaultSerializers` table, filled once by the static constructor. */
  function DefaultSerializers(p: Platform): seq<Entry>
  {
    Register(Register(Register(Register([], Some(JsonDefault(p))), Some(TextDefault(p))), Some(p.multipart)), Some(p.formEncoded))
  }

  /** The position of the first entry whose matcher accepts `contentType`. */
  function FirstMatch(t: seq<Entry>, contentType: string): (r: Option<nat>)
    ensures r.Some? ==> r.value < |t| && t[r.value].1.isMatch(contentType)
    ensures r.Some? ==> forall j :: 0 <= j < r.value ==> !t[j].1.isMatch(contentType)
    ensures r.None? ==> forall j :: 0 <= j < |t| ==> !t[j].1.isMatch(contentType)
  {
    if t == [] then None
    else if t[0].1.isMatch(contentType) then Some(0)
    else match FirstMatch(t[1..], contentType)
      case None => None
      case Some(i) => Some(i + 1)
  }

  /** `GetSerializer`: the first value, in registry order, whose matcher accepts `contentType`. */
  function GetSerializer(t: seq<Entry>, contentType: string): (r: Option<Serializer>)
    ensures r.None? <==> forall j :: 0 <= j < |t| ==> !t[j].1.isMatch(contentType)
    ensures r.Some? ==> exists i :: 0 <= i < |t| && t[i].1 == r.value && t[i].1.isMatch(contentType) &&
                                    forall j :: 0 <= j < i ==> !t[j].1.isMatch(contentType)
  {
    match FirstMatch(t, contentType)
    case None => None
    case Some(i) => Some(t[i].1)
  }

  /** `GetSupportedContentTypes`: every key, joined with ", ". */
  function GetSupportedContentTypes(t: seq<Entry>): string
  {
    Join(", ", Keys(t))
  }

  const MissingRequestContentType: string := "HttpRequest did not have content-type header set"
  const MissingResponseContentType: string := "HTTP response did not have content-type header set"

  function UnsupportedRequest(contentType: string, supported: string): string
  {
    "Unable to serialize request with Content-Type " + contentType + ". Supported encodings are " + supported
  }

  function UnsupportedResponse(contentType: string, supported: string): string
  {
    "Unable to deserialize response with Content-Type " + contentType + ". Supported encodings are " + supported
  }

  /** The request as `SerializeRequestAsync` leaves it: its content type, when set, lower-cased. */
  function AfterSerialize(r: RequestData): RequestData
  {
    match r.contentType
    case None => r
    case Some(ct) => r.(contentType := Some(ToLower(ct)))
  }

  /** What `SerializeRequestAsync` returns or throws for a request in state `r`. */
  function Serialized(t: seq<Entry>, codecs: Codecs, r: RequestData): Result<Content, Error>
  {
    match r.contentType
    case None => Failure(IOException(MissingRequestContentType))
    case Some(ct) =>
      var lowered := ToLower(ct);
      match GetSerializer(t, lowered)
      case None => Failure(IOException(UnsupportedRequest(lowered, GetSupportedContentTypes(t))))
      case Some(s) =>
        match s.encode(AfterSerialize(r))
        case Failure(e) => Failure(e)
        case Success(c) =>
          if r.contentEncoding == Some("gzip") then Success(ByteArrayContent(codecs.gzip(ReadAsString(codecs, c))))
          else Success(c)
  }

  /** What `DeserializeResponseAsync` returns or throws for `content`. */
  function Deserialized(t: seq<Entry>, codecs: Codecs, content: Content, responseType: TypeDesc): Result<Value, Error>
  {
    match content.contentType
    case None => Failure(IOException(MissingResponseContentType))
    case Some(h) =>
      var ct := ToLower(h);
      match GetSerializer(t, ct)
      case None => Failure(IOException(UnsupportedResponse(ct, GetSupportedContentTypes(t))))
      case Some(s) =>
        if FirstOrNone(content.contentEncoding) == Some("gzip") then
          s.decode(StringContent(codecs.gunzip(ReadAsBytes(codecs, content))), responseType)
        else
          s.decode(content, responseType)
  }

  class Encoder {
    /** `_serializerLookup`. */
    var lookup: seq<Entry>
    /** The platform's compression and transcoding, which `GzipAsync`, `GunzipAsync` and content reads use. */
    const codecs: Codecs

    ghost predicate Valid()
      reads this
    {
      UniqueKeys(lookup)
    }

    /** `new Encoder()`: a private copy of the default table. */
    constructor (p: Platform)
      ensures Valid()
      ensures lookup == DefaultSerializers(p) && codecs == p.codecs
    {
      var json, text := JsonDefault(p), TextDefault(p);
      SetItemKeepsKeysUnique([], json.pattern, json);
      var t1 := SetItem([], json.pattern, json);
      SetItemKeepsKeysUnique(t1, text.pattern, text);
      var t2 := SetItem(t1, text.pattern, text);
      SetItemKeepsKeysUnique(t2, p.multipart.pattern, p.multipart);
      var t3 := SetItem(t2, p.multipart.pattern, p.multipart);
      SetItemKeepsKeysUnique(t3, p.formEncoded.pattern, p.formEncoded);
      lookup := DefaultSerializers(p);
      codecs := p.codecs;
    }

    /** The public `RegisterSerializer(serializer)`, on this Encoder's table only. */
    method RegisterSerializer(serializer: Option<Serializer>)
      requires Valid()
      modifies this`lookup
      ensures Valid()
      ensures serializer.None? ==> lookup == old(lookup)
      ensures serializer.Some? ==> lookup == SetItem(old(lookup), serializer.value.pattern, serializer.value)
    {
      if serializer.Some? {
        SetItemKeepsKeysUnique(lookup, serializer.value.pattern, serializer.value);
      }
      lookup := Register(lookup, serializer);
    }

    /** `SerializeRequestAsync`: lower-cases the request's content type, encodes, and gzips on request. */
    method SerializeRequest(request: HttpRequest) returns (r: Result<Content, Error>)
      modifies request
      ensures request.Data() == AfterSerialize(old(request.Data()))
      ensures r == Serialized(lookup, codecs, old(request.Data()))
    {
      if request.contentType.None? {
        return Failure(IOException(MissingRequestContentType));
      }
      request.contentType := Some(ToLower(request.contentType.value));
      var serializer := GetSerializer(lookup, request.contentType.value);
      if serializer.None? {
        return Failure(IOException(UnsupportedRequest(request.contentType.value, GetSupportedContentTypes(lookup))));
      }
      var content := serializer.value.encode(request.Data());
      if content.Failure? {
        return content;
      }
      if request.contentEncoding == Some("gzip") {
        var source := ReadAsString(codecs, content.value);
        content := Success(ByteArrayContent(codecs.gzip(source)));
      }
      return content;
    }

    /**
     * `DeserializeResponseAsync`: picks a serializer by the lower-cased type
     * and gunzips first on request. This is the imperative rendering, step by
     * step as the source reassigns its locals, of the specification
     * `Deserialized`, whose properties the lemmas state.
     */
    method DeserializeResponse(content: Content, responseType: TypeDesc) returns (r: Result<Value, Error>)
      ensures r == Deserialized(lookup, codecs, content, responseType)
    {
      if content.contentType.None? {
        return Failure(IOException(MissingResponseContentType));
      }
      var contentType := content.contentType.value;
      contentType := ToLower(contentType);
      var serializer := GetSerializer(lookup, contentType);
      if serializer.None? {
        return Failure(IOException(UnsupportedResponse(contentType, GetSupportedContentTypes(lookup))));
      }
      var contentEncoding := FirstOrNone(content.contentEncoding);
      if contentEncoding == Some("gzip") {
        var buf := ReadAsBytes(codecs, content);
        var decompressed := StringContent(codecs.gunzip(buf));
        return serializer.value.decode(decompressed, responseType);
      }
      return serializer.value.decode(content, responseType);
    }
  }
}
