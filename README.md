# PayPalHttp client core in Dafny

This project models the core of the PayPalHttp .NET client and proves its properties:

- **The Encoder.** Each Encoder holds a registry of serializers keyed by pattern string. The registry starts as a copy of a static default table of four serializers: JSON, text, multipart and form-encoded.
  - Registration under an existing pattern replaces that entry where it stands. A new pattern is appended.
  - Serialization lower-cases the request's content type, picks the first serializer in registry order whose matcher accepts it, encodes the request, and gzips the result when the content encoding is exactly `gzip`.
  - Deserialization lower-cases the response's Content-Type, picks a serializer the same way, and gunzips the body first when the first Content-Encoding value is `gzip`.
  - Both directions fail with an `IOException` when the content type is missing, or when no serializer matches. In the second case the message lists every registered pattern, joined with `", "`.
- **The text serializer.** It is registered under `^text/.*$`. Decoding returns the content's text. Encoding sends `Body.ToString()`.
- **The HttpClient.**
  - A static cache maps a lower-cased base URL to a shared transport handle. A new handle sends the User-Agent `PayPalHttp-Dotnet HTTP/1.1` by default.
  - A client keeps an append-only list of injectors.
  - `Execute` and `ExecuteRaw` run this pipeline:
    1. clone the caller's request;
    2. run the injectors in order;
    3. set the URI to base URL + path;
    4. serialize the body, if there is one;
    5. send.
  - `Execute` also classifies the answer. A 2xx answer is decoded when it has a Content-Type. Any other answer raises `HttpException`.

The modules follow the source files:

| file | module | contents |
|---|---|---|
| `Wrappers.dfy` | `Wrappers` | `Option`, `Result` |
| `Strings.dfy` | `Strings` | ASCII lower-casing, prefix and substring tests, `String.Join` |
| `Http.dfy` | `Http` | requests (a class, because `Execute` clones and then mutates them), content, responses, errors, and the serializer and injector contracts |
| `TextSerializer.dfy` | `TextSerializer`, `JsonSerializer` | the text serializer, and the JSON serializer's pattern and matcher |
| `Encoder.dfy`, `EncoderProperties.dfy` | `Encoding` and its lemmas | the registry as `seq<(string, Serializer)>` with unique keys, inside the `Encoder` class |
| `HttpClient.dfy`, `HttpClientProperties.dfy` | `Client` and its lemmas | the handle cache, `HttpClient`, and pure functions (`Prepared`, `Classified`, `ExecuteResult`, `ExecuteRawResult`) that the imperative methods are proved against |

Parameters stand in for everything outside the core:

- The transport is a function from handle settings and request to response message.
- Gzip, gunzip and UTF-8 transcoding are opaque functions in a `Codecs` record. That gunzip undoes gzip appears only as the hypothesis `GzipRoundTrips`.
- The JSON library's encoder and decoder, and the multipart and form-encoded serializers, come in a `Platform` record.
- The environment is its base URL.

## Model

| member | source | states |
|---|---|---|
| Encoding.SetItem | PayPalHttp-Dotnet/Encoder.cs:35 | the dictionary indexer `lookup[key] = s`; its meaning is stated by `SetItemSemantics`, `SetItemReplacesInPlace` and `SetItemAppendsNewKey` |
| Encoding.IndexOf | PayPalHttp-Dotnet/Encoder.cs:35 | the position found is the first one holding the key; no position is found exactly when no entry has that key |
| EncoderProperties.SetItemSemantics | PayPalHttp-Dotnet/Encoder.cs:35 | after `lookup[key] = s` the key maps to `s`, every other key keeps its value, the key list is unchanged for an existing key or gains the key at the end, and unique keys stay unique |
| EncoderProperties.SetItemReplacesInPlace | PayPalHttp-Dotnet/Encoder.cs:31-37 | registering under a pattern that is already a key overwrites that entry at its position and nothing else |
| EncoderProperties.SetItemAppendsNewKey | PayPalHttp-Dotnet/Encoder.cs:31-37 | registering under a new pattern appends one entry at the end |
| Encoding.Register | PayPalHttp-Dotnet/Encoder.cs:31-37 | `RegisterSerializer` on a value: a null serializer changes nothing, any other is stored by `SetItem` under its pattern; `SetItemKeepsKeysUnique` and `RegisterOverridesBuiltin` state its effect |
| Encoding.SetItemKeepsKeysUnique | PayPalHttp-Dotnet/Encoder.cs:35 | storing under one key keeps the keys of the table pairwise distinct |
| Encoding.DefaultSerializers | PayPalHttp-Dotnet/Encoder.cs:14-24 | the static table built by four registrations in source order; its contents are stated by `DefaultTable` |
| EncoderProperties.DefaultTable | PayPalHttp-Dotnet/Encoder.cs:14-24 | when the four patterns differ, the default table holds exactly JSON, text, multipart and form-encoded, in that order, each under its own pattern |
| Encoding.GetSupportedContentTypes | PayPalHttp-Dotnet/Encoder.cs:91-94 | the keys joined with `, `; stated by `MessageListsEveryKey` and `DefaultSupportedContentTypes` |
| EncoderProperties.DefaultSupportedContentTypes | PayPalHttp-Dotnet/Encoder.cs:91-94 | the supported-types list of the default table is `application/json, ^text/.*$, ` followed by the multipart and form patterns, separated by `, ` |
| Encoding.Encoder.constructor | PayPalHttp-Dotnet/Encoder.cs:26-29 | a new Encoder's registry equals the default table and satisfies the unique-key invariant |
| Encoding.Encoder.RegisterSerializer | PayPalHttp-Dotnet/Encoder.cs:31-42 | a null serializer leaves the registry unchanged; any other is stored under its pattern by the indexer; unique keys are preserved |
| EncoderProperties.RegisterOverridesBuiltin | PayPalHttp-Dotnet/Encoder.cs:31-42 | registering under `application/json` replaces only the first default entry and keeps the key list (last registration wins) |
| EncoderProperties.RegistrationIsPerEncoder | PayPalHttp-Dotnet/Encoder.cs:14-29 | of two new Encoders, registering on one leaves the other holding the default table |
| Encoding.FirstMatch | PayPalHttp-Dotnet/Encoder.cs:86-89 | the index returned is of an accepting entry with no accepting entry before it; none is returned only when no entry accepts |
| Encoding.GetSerializer | PayPalHttp-Dotnet/Encoder.cs:86-89 | returns nothing exactly when no matcher accepts the content type; otherwise returns the serializer of an accepting entry with no accepting entry before it |
| EncoderProperties.FirstMatchSelected | PayPalHttp-Dotnet/Encoder.cs:86-89 | the first accepting entry in registry order is the one selected |
| EncoderProperties.MessageListsEveryKey | PayPalHttp-Dotnet/Encoder.cs:91-94 | the supported-types text, after any prefix, contains every registered pattern |
| Encoding.Encoder.SerializeRequest | PayPalHttp-Dotnet/Encoder.cs:44-63 | the request's content type is left lower-cased, and the result is the specification `Serialized` of the table, the codecs and the request as it was |
| EncoderProperties.SerializeWithoutContentType | PayPalHttp-Dotnet/Encoder.cs:46-49 | without a content type, serialization fails with the fixed IOException, whatever the table and codecs, and the request is not changed |
| EncoderProperties.SerializeUnsupported | PayPalHttp-Dotnet/Encoder.cs:53 | when no serializer accepts the lower-cased type, serialization fails with an IOException whose message contains every key |
| EncoderProperties.SerializeUsesFirstMatch | PayPalHttp-Dotnet/Encoder.cs:51-62 | the first accepting serializer encodes the lower-cased request; the result is gzipped exactly when the content encoding is `gzip` and the encoding succeeded, and is unchanged otherwise |
| EncoderProperties.GzipLayerIsTransparent | PayPalHttp-Dotnet/Encoder.cs:56-60 | if gunzip undoes gzip, decompressing the gzipped bytes gives back exactly the text the serializer produced |
| EncoderProperties.SerializeJsonCaseInsensitive | PayPalHttp-Dotnet.Tests/HttpClientTest.cs:211-232 | on the default table, `application/JSON` is encoded by the JSON encoder, which sees `application/json` |
| EncoderProperties.SerializeTextBody | PayPalHttp-Dotnet.Tests/HttpClientTest.cs:110-126 | on the default table, a `text/plain` string body is encoded as a string content holding exactly that body |
| Encoding.Encoder.DeserializeResponse | PayPalHttp-Dotnet/Encoder.cs:65-84 | the result is the specification `Deserialized` of the table, the codecs, the content and the response type |
| EncoderProperties.DeserializeWithoutContentType | PayPalHttp-Dotnet/Encoder.cs:67-70 | without a Content-Type, deserialization fails with the fixed IOException |
| EncoderProperties.DeserializeUnsupported | PayPalHttp-Dotnet/Encoder.cs:71-73 | when no serializer accepts the lower-cased type, deserialization fails with an IOException whose message contains every key |
| EncoderProperties.DeserializeUsesFirstMatch | PayPalHttp-Dotnet/Encoder.cs:74-83 | only the first Content-Encoding value is consulted: `gzip` there means the fully gunzipped body is decoded as a string content, anything else means the body is decoded as received |
| EncoderProperties.DeserializeJsonCaseInsensitive | PayPalHttp-Dotnet.Tests/HttpClientTest.cs:253-270 | on the default table, `application/JSON; charset=utf-8` is decoded by the JSON decoder |
| EncoderProperties.ToLowerKeepsNoNewline | PayPalHttp-Dotnet/Encoder.cs:72 | a string has no line break exactly when its lower-cased form has none |
| EncoderProperties.TextTypesSelectText | PayPalHttp-Dotnet/Encoder.cs:72-73 | a `text/...` content type without line breaks, in any letter case and not mentioning `application/json`, selects the text serializer on the default table |
| EncoderProperties.OverlappingTypeMatchesBoth | PayPalHttp-Dotnet/Encoder.cs:86-89 | `text/plain; profile=application/json` is accepted by both the JSON and the text matcher |
| EncoderProperties.OverlapResolvedByOrder | PayPalHttp-Dotnet/Encoder.cs:86-89 | on the default table, every content type the JSON matcher accepts, text types included, goes to JSON, which is registered first |
| Strings.ToLower | PayPalHttp-Dotnet/Encoder.cs:51 | `ToLower()` applied to content types and base URLs (also at Encoder.cs:72 and HttpClient.cs:35); stated by `ToLowerIsLower` and `ToLowerKeepsNoNewline` |
| Strings.ToLowerIsLower | PayPalHttp-Dotnet/Encoder.cs:51 | lower-casing gives a string with no upper-case letter, and lower-casing twice is lower-casing once |
| Strings.Join | PayPalHttp-Dotnet/Encoder.cs:93 | `String.Join`: the elements with the separator between neighbours; stated by `JoinFour` and `JoinContainsEach` |
| Strings.JoinFour | PayPalHttp-Dotnet/Encoder.cs:93 | four strings joined give the four with the separator between each pair of neighbours |
| Strings.JoinContainsEach | PayPalHttp-Dotnet/Encoder.cs:93 | every element of the list occurs in the joined string |
| TextSerializer.Decode | PayPalHttp-Dotnet/TextSerializer.cs:13-16 | decoding always succeeds and yields a string |
| TextSerializer.DecodeIgnoresResponseType | PayPalHttp-Dotnet/TextSerializer.cs:13-16 | the decoded value is the content's text, whatever response type is asked for |
| TextSerializer.Encode | PayPalHttp-Dotnet/TextSerializer.cs:18-21 | encoding succeeds exactly when there is a body, and the payload is the body's `ToString()`; a missing body raises a null reference error |
| TextSerializer.EncodeThenDecode | PayPalHttp-Dotnet/TextSerializer.cs:13-21 | decoding what was encoded gives back the body's text, and a string body is sent verbatim |
| TextSerializer.Matches | PayPalHttp-Dotnet/TextSerializer.cs:10 | the anchored pattern `^text/.*$` written out; stated by `MatchesIffTextPrefix`, `LineBreakCases` and `MatcherExamples` |
| TextSerializer.GetContentTypeRegexPattern | PayPalHttp-Dotnet/TextSerializer.cs:28-31 | the pattern the text serializer is registered under, `^text/.*$`; stated by `Make` |
| TextSerializer.GetContentRegEx | PayPalHttp-Dotnet/TextSerializer.cs:23-26 | the matcher of that pattern; stated by `Make` |
| TextSerializer.Make | PayPalHttp-Dotnet/TextSerializer.cs:10-11 | the serializer's pattern is `GetContentTypeRegexPattern()` and its matcher is `GetContentRegEx()` |
| TextSerializer.MatchesIffTextPrefix | PayPalHttp-Dotnet/TextSerializer.cs:10 | for a content type without line breaks, the matcher accepts exactly the strings that start with `text/` |
| TextSerializer.LineBreakCases | PayPalHttp-Dotnet/TextSerializer.cs:10 | a final line break is accepted by `$`, and one before further text is not |
| TextSerializer.MatcherExamples | PayPalHttp-Dotnet/TextSerializer.cs:23-26 | `text/plain` is accepted and `application/json` is not |
| JsonSerializer.Make | BraintreeHttp-Dotnet/JsonSerializer.cs:10-13 | the JSON serializer is registered under `application/json` and wraps the library's encoder and decoder |
| JsonSerializer.MatchesWithCharset | BraintreeHttp-Dotnet/JsonSerializer.cs:10-13 | the unanchored pattern accepts `application/json; charset=utf-8` and rejects `text/plain` |
| Http.HttpRequest.Clone | PayPalHttp-Dotnet/HttpClient.cs:66 | the clone is a new object with the same state |
| Client.GetUserAgent | PayPalHttp-Dotnet/HttpClient.cs:46-49 | the User-Agent names the library: it starts with `PayPalHttp-Dotnet`; the exact value on the wire is stated by `DefaultUserAgentSent` |
| Client.TransportHandle.constructor | PayPalHttp-Dotnet/HttpClient.cs:28-31 | a new handle has the base URL as given, only the default User-Agent header, the platform's 100-second timeout, and the client's current `_timeout` as pooled-connection lifetime |
| Client.ClientDictionary.GetOrAdd | PayPalHttp-Dotnet/HttpClient.cs:35 | an existing key returns the stored handle and leaves the map unchanged; a missing key inserts exactly one new handle with the default User-Agent |
| Client.HttpClient.GetHttpClient | PayPalHttp-Dotnet/HttpClient.cs:33-44 | the cache is keyed by the lower-cased base URL, and a new handle is built from the URL as given |
| Client.HttpClient.constructor | PayPalHttp-Dotnet/HttpClient.cs:11-26 | a new client has a fresh Encoder holding the default table, no injectors, a five-minute `_timeout`, and the cache's handle for its lower-cased base URL |
| Client.HttpClient.AddInjector | PayPalHttp-Dotnet/HttpClient.cs:51-57 | a null injector leaves the list unchanged; any other is appended and earlier entries stay |
| Client.HttpClient.SetConnectTimeout | PayPalHttp-Dotnet/HttpClient.cs:59-62 | both the client's `_timeout` and the shared handle's `Timeout` take the new value |
| Client.HttpClient.Prepare | PayPalHttp-Dotnet/HttpClient.cs:66-77 | the request to be sent is a fresh object whose state is the specification `Prepared` of the client state and the caller's request, or the error `Prepared` gives |
| Client.HttpClient.Execute | PayPalHttp-Dotnet/HttpClient.cs:64-95 | the result is the specification `ExecuteResult` of the client state, the caller's request and the transport; nothing that existed before the call changes |
| Client.HttpClient.ExecuteRaw | PayPalHttp-Dotnet/HttpClient.cs:97-114 | the result is the specification `ExecuteRawResult`: the transport's answer to the prepared request, unclassified |
| Client.IsSuccessStatusCode | PayPalHttp-Dotnet/HttpClient.cs:81 | the 2xx test; its range 200 to 299 is stated by `StatusExamples` |
| Client.Inject | PayPalHttp-Dotnet/HttpClient.cs:68-70 | the injectors applied in registration order; stated by `InjectAppend`, `InjectFront` and `InjectorsRunInOrder` |
| Client.Classified | PayPalHttp-Dotnet/HttpClient.cs:81-94 | the classification of an answer; stated by `SuccessKeepsStatusAndHeaders`, `OtherStatusRaises` and `StatusExamples` |
| Client.HeaderValues | PayPalHttp-Dotnet.Tests/HttpClientTest.cs:95-107 | the values of one header, its name compared without regard to letter case; there are none exactly when no header has that name |
| Client.HeaderSent | PayPalHttp-Dotnet.Tests/HttpClientTest.cs:95-107 | the value read from the wire: the request's own values of that name combined, else the handle's default ones; nothing exactly when neither has the name |
| ClientProperties.InjectAppend | PayPalHttp-Dotnet/HttpClient.cs:68-70 | running two injector lists one after the other is running their concatenation |
| ClientProperties.InjectFront | PayPalHttp-Dotnet/HttpClient.cs:68-70 | the first injector receives the clone, and the rest receive its output |
| ClientProperties.InjectorsRunInOrder | PayPalHttp-Dotnet/HttpClient.cs:101-104 | two header-adding injectors leave their headers in registration order |
| ClientProperties.PreparedResolvesUri | PayPalHttp-Dotnet/HttpClient.cs:72 | the sent URI is exactly base URL + path of the injected request, and path, verb, headers and response type are the injected ones |
| ClientProperties.NoBodyNothingSerialized | PayPalHttp-Dotnet/HttpClient.cs:74-77 | without a body, preparation succeeds regardless of table and codecs, and the content is left as the injected request had it |
| ClientProperties.BodySerialized | PayPalHttp-Dotnet/HttpClient.cs:74-77 | with a body, preparation succeeds exactly when serialization does; the content is the Encoder's output and the content type is lower-cased, or the Encoder's error is the result |
| ClientProperties.FailureBeforeSend | PayPalHttp-Dotnet/HttpClient.cs:74-79 | when preparation fails, `Execute` and `ExecuteRaw` fail with that error whatever the transport would answer |
| ClientProperties.SuccessKeepsStatusAndHeaders | PayPalHttp-Dotnet/HttpClient.cs:81-89 | a 2xx answer yields a response with the same status and headers, without a body when there is no Content-Type and with the decoded body (or the decoding error) otherwise |
| ClientProperties.OtherStatusRaises | PayPalHttp-Dotnet/HttpClient.cs:90-94 | a non-2xx answer raises `HttpException` with the status, the headers and the body read as text |
| ClientProperties.StatusExamples | PayPalHttp-Dotnet.Tests/HttpClientTest.cs:41-92 | 204 without a Content-Type is a success without a body, 400 raises `HttpException` with status 400, and the success range is exactly 200 to 299 |
| ClientProperties.ExecuteClassifiesExecuteRaw | PayPalHttp-Dotnet/HttpClient.cs:64-114 | `Execute` fails when `ExecuteRaw` fails, and otherwise classifies the very message `ExecuteRaw` returns |
| ClientProperties.DefaultUserAgentSent | PayPalHttp-Dotnet.Tests/HttpClientTest.cs:95-107 | without injectors, a request carrying no User-Agent in any letter case goes out with `PayPalHttp-Dotnet HTTP/1.1` |
| ClientProperties.InjectedUserAgentWins | PayPalHttp-Dotnet.Tests/HttpClientTest.cs:170-186 | an injector that adds a User-Agent header overrides the handle's default; the value sent is the request's own User-Agent values, in any letter case, followed by the injected one, joined by spaces, and exactly the injected one when the request had none |
| ClientProperties.InjectedUserAgentCombines | PayPalHttp-Dotnet.Tests/HttpClientTest.cs:170-186 | a request carrying `user-agent: Y` goes out with `Y Custom Injector` |
| ClientProperties.HeaderValuesAppend | PayPalHttp-Dotnet.Tests/HttpClientTest.cs:170-186 | adding a header adds its value after the existing values of every name it matches regardless of letter case |
| ClientProperties.TextBodyWritten | PayPalHttp-Dotnet.Tests/HttpClientTest.cs:110-126 | on a client with the default table, a `text/plain` string body goes out as exactly that text |
| ClientProperties.ExecuteLeavesRequestAlone | PayPalHttp-Dotnet.Tests/HttpClientTest.cs:147-167 | after `Execute`, the caller's request, headers included, and the client's state are as they were |
| ClientProperties.SharedHandle | PayPalHttp-Dotnet/HttpClient.cs:16-62 | two clients whose base URLs differ only in letter case share one handle, so a timeout set through one is seen by the other, while their Encoders are distinct |

## Left out

- Network I/O. `SendAsync` is a pure transport function, so timeouts, connection failures and transport exceptions are not modelled. `Uri` parsing and validation are not modelled either: the URI is the concatenated string.
- Concurrency and `async`/`Task`. The cache is a sequential map, and the thread safety of `ConcurrentDictionary.GetOrAdd` is not modelled.
- GZIP, DEFLATE and UTF-8 are opaque functions. The model does not prove that gunzip inverts gzip; it uses that only as a hypothesis.
- The .NET regular-expression engine. The text matcher is written out for the one pattern `^text/.*$`, and the JSON matcher for the literal pattern `application/json`. Other serializers' matchers are opaque.
- JSON, multipart and form-encoded encoding and decoding are parameters. Their serializers are assumed to be registered under distinct patterns (`DistinctPatterns`).
- Strings.ToLower: maps only ASCII letters. .NET's culture-sensitive Unicode case mapping is not modelled.
- Http.ToString: an object body shows its type name. Overridden `ToString` methods are not modelled.
- `HttpContent` headers other than Content-Type and Content-Encoding, and the charset conversions of `StringContent`, are not modelled.
- Client.HttpClient.SetConnectTimeout: does not model the checks that .NET's `Timeout` setter makes. The setter rejects non-positive values and throws once the handle has sent a request. Timeouts are whole milliseconds.
- Client.HttpClient.constructor: `GetHttpClient`, `GetHttpSocketHandler` and `GetUserAgent` are virtual in the source. The model covers only the base class's versions, and the environment's `BaseUrl()` is a constant.
- Serializers and injectors are pure functions. An injector that mutates the request it is given is covered as returning the changed request, because `Execute` works on a clone; side effects on anything else are not modelled.
- Http.HttpRequest.Clone: `Clone<T>` keeps the subclass. The model has one request class. That the clone has its own copy of the headers is the documented contract of `Clone<T>`; HttpRequest.cs is not part of this model.
- Client.HeaderSent: only User-Agent values are combined with a space; every other header is combined with `, `. .NET's per-header parsing and validation are not modelled, and letter case is folded for ASCII only.

Behaviours of the code that a reader may not expect, which the model keeps:

- On the gzip response path, the serializer that was chosen by the original Content-Type decodes a new `StringContent`. Its Content-Type is `text/plain; charset=utf-8`.
- `SetConnectTimeout` does not change the pooled-connection lifetime of a handle that already exists. The lifetime is fixed when the handle is built, from the `_timeout` of the first client for that base URL.
- `SerializeRequestAsync` lower-cases the request's `ContentType` as a side effect, so the request that is sent carries the lower-cased type.
- A cached handle keeps the base URL of the first client that created it, in that client's letter case.
