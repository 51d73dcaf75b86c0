/** What the Encoder's registry, lookup and gzip layering guarantee. */
module EncoderProperties {
  import opened Wrappers
  import opened Strings
  import opened Http
  import opened Encoding
  import TextSerializer
  import JsonSerializer

  /**
   * The indexer's promise: `key` now maps to `s`, every other key keeps its
   * value, the key list grows only by a new key at the end, and a dictionary
   * stays a dictionary.
   */
  lemma SetItemSemantics(t: seq<Entry>, key: string, s: Serializer)
    ensures ValueOf(SetItem(t, key, s), key) == Some(s)
    ensures forall k :: k != key ==> ValueOf(SetItem(t, key, s), k) == ValueOf(t, k)
    ensures Keys(SetItem(t, key, s)) == if key in Keys(t) then Keys(t) else Keys(t) + [key]
    ensures UniqueKeys(t) ==> UniqueKeys(SetItem(t, key, s))
  {
    var r := SetItem(t, key, s);
    forall k | k != key ensures IndexOf(r, k) == IndexOf(t, k) {
      IndexOfOtherKey(t, key, s, k);
    }
    if UniqueKeys(t) {
      SetItemKeepsKeysUnique(t, key, s);
    }
    match IndexOf(t, key)
    case None =>
      assert key !in Keys(t);
      assert Keys(r) == Keys(t) + [key];
      IndexOfFirst(r, key, |t|);
    case Some(i) =>
      assert key in Keys(t) by { assert Keys(t)[i] == key; }
      assert Keys(r) == Keys(t);
      IndexOfFirst(r, key, i);
  }

  /** Storing under `key` does not move any other key. */
  lemma IndexOfOtherKey(t: seq<Entry>, key: string, s: Serializer, k: string)
    requires k != key
    ensures IndexOf(SetItem(t, key, s), k) == IndexOf(t, k)
  {
    var r := SetItem(t, key, s);
    match IndexOf(t, k)
    case Some(i) => IndexOfFirst(r, k, i);
    case None => assert forall j :: 0 <= j < |r| ==> r[j].0 != k;
  }

  /** The first position holding `key` is the one `IndexOf` finds. */
  lemma IndexOfFirst(t: seq<Entry>, key: string, i: nat)
    requires i < |t| && t[i].0 == key
    requires forall j :: 0 <= j < i ==> t[j].0 != key
    ensures IndexOf(t, key) == Some(i)
  {
  }

  /** Re-registering an existing pattern overwrites that entry where it stands. */
  lemma SetItemReplacesInPlace(t: seq<Entry>, i: nat, s: Serializer)
    requires UniqueKeys(t) && i < |t|
    ensures SetItem(t, t[i].0, s) == t[i := (t[i].0, s)]
  {
  }

  /** A pattern not yet registered goes to the end. */
  lemma SetItemAppendsNewKey(t: seq<Entry>, key: string, s: Serializer)
    requires key !in Keys(t)
    ensures SetItem(t, key, s) == t + [(key, s)]
  {
    assert forall j :: 0 <= j < |t| ==> t[j].0 == Keys(t)[j];
  }

  /** With four distinct patterns the default table holds the four built-ins in registration order. */
  lemma DefaultTable(p: Platform)
    requires DistinctPatterns(p)
    ensures |DefaultSerializers(p)| == 4
    ensures DefaultSerializers(p)[0] == (JsonSerializer.Pattern, JsonDefault(p))
    ensures DefaultSerializers(p)[1] == (TextSerializer.RegExPattern, TextDefault(p))
    ensures DefaultSerializers(p)[2] == (p.multipart.pattern, p.multipart)
    ensures DefaultSerializers(p)[3] == (p.formEncoded.pattern, p.formEncoded)
  {
  }

  /** The error message of a failed lookup on the default table. */
  lemma DefaultSupportedContentTypes(p: Platform)
    requires DistinctPatterns(p)
    ensures GetSupportedContentTypes(DefaultSerializers(p)) ==
            JsonSerializer.Pattern + ", " + TextSerializer.RegExPattern + ", " + p.multipart.pattern + ", " + p.formEncoded.pattern
  {
    DefaultTable(p);
    var json, text, mp, fe := JsonSerializer.Pattern, TextSerializer.RegExPattern, p.multipart.pattern, p.formEncoded.pattern;
    assert Keys(DefaultSerializers(p)) == [json, text, mp, fe];
    JoinFour(", ", json, text, mp, fe);
  }

  /** The first accepting entry is the one `GetSerializer` returns. */
  lemma FirstMatchSelected(t: seq<Entry>, contentType: string, i: nat)
    requires i < |t| && t[i].1.isMatch(contentType)
    requires forall j :: 0 <= j < i ==> !t[j].1.isMatch(contentType)
    ensures GetSerializer(t, contentType) == Some(t[i].1)
  {
  }

  /** The "unsupported" message names every registered pattern. */
  lemma MessageListsEveryKey(t: seq<Entry>, prefix: string)
    ensures forall k :: k in Keys(t) ==> Contains(prefix + GetSupportedContentTypes(t), k)
  {
    forall k | k in Keys(t) ensures Contains(prefix + GetSupportedContentTypes(t), k) {
      JoinContainsEach(", ", Keys(t), k);
      ContainsInSuffix(prefix, GetSupportedContentTypes(t), k);
    }
  }

  /** A request without a content type fails before any lookup or encoding, whatever the table. */
  lemma SerializeWithoutContentType(t1: seq<Entry>, t2: seq<Entry>, c1: Codecs, c2: Codecs, r: RequestData)
    requires r.contentType.None?
    ensures Serialized(t1, c1, r) == Serialized(t2, c2, r) == Failure(IOException(MissingRequestContentType))
    ensures AfterSerialize(r) == r
  {
  }

  /** No matching serializer: an IOException whose message lists every key. */
  lemma SerializeUnsupported(t: seq<Entry>, codecs: Codecs, r: RequestData)
    requires r.contentType.Some?
    requires forall j :: 0 <= j < |t| ==> !t[j].1.isMatch(ToLower(r.contentType.value))
    ensures Serialized(t, codecs, r).Failure?
    ensures Serialized(t, codecs, r).error.IOException?
    ensures forall k :: k in Keys(t) ==> Contains(Serialized(t, codecs, r).error.message, k)
  {
    var lowered := ToLower(r.contentType.value);
    MessageListsEveryKey(t, "Unable to serialize request with Content-Type " + lowered + ". Supported encodings are ");
  }

  /**
   * With the first accepting serializer at position `i`: its encoding of the
   * lower-cased request is the result, gzipped exactly when the request's
   * content encoding is "gzip".
   */
  lemma SerializeUsesFirstMatch(t: seq<Entry>, codecs: Codecs, r: RequestData, i: nat)
    requires r.contentType.Some? && i < |t|
    requires t[i].1.isMatch(ToLower(r.contentType.value))
    requires forall j :: 0 <= j < i ==> !t[j].1.isMatch(ToLower(r.contentType.value))
    ensures AfterSerialize(r).contentType == Some(ToLower(r.contentType.value))
    ensures var e := t[i].1.encode(AfterSerialize(r));
            Serialized(t, codecs, r) ==
              if e.Success? && r.contentEncoding == Some("gzip") then Success(ByteArrayContent(codecs.gzip(ReadAsString(codecs, e.value))))
              else e
  {
    FirstMatchSelected(t, ToLower(r.contentType.value), i);
  }

  /** Gzip is transparent: decompressing the wire bytes recovers the serializer's text exactly. */
  lemma GzipLayerIsTransparent(t: seq<Entry>, codecs: Codecs, r: RequestData, s: Serializer)
    requires GzipRoundTrips(codecs)
    requires r.contentType.Some? && r.contentEncoding == Some("gzip")
    requires GetSerializer(t, ToLower(r.contentType.value)) == Some(s)
    requires s.encode(AfterSerialize(r)).Success?
    ensures Serialized(t, codecs, r).Success?
    ensures Serialized(t, codecs, r).value.payload.Binary?
    ensures codecs.gunzip(ReadAsBytes(codecs, Serialized(t, codecs, r).value)) ==
            ReadAsString(codecs, s.encode(AfterSerialize(r)).value)
  {
  }

  /** `application/JSON` selects the JSON serializer, which sees the lower-cased type. */
  lemma SerializeJsonCaseInsensitive(p: Platform, r: RequestData)
    requires DistinctPatterns(p)
    requires r.contentType == Some("application/JSON") && r.contentEncoding.None?
    ensures Serialized(DefaultSerializers(p), p.codecs, r) == p.jsonEncode(r.(contentType := Some("application/json")))
  {
    DefaultTable(p);
    LowerJsonType();
    assert JsonSerializer.Matches(JsonSerializer.Pattern) by {
      assert StartsWith(JsonSerializer.Pattern[0..], JsonSerializer.Pattern);
    }
    SerializeUsesFirstMatch(DefaultSerializers(p), p.codecs, r, 0);
  }

  lemma LowerJsonType()
    ensures ToLower("application/JSON") == JsonSerializer.Pattern
  {
  }

  /** A `text/plain` string body is sent as that very text. */
  lemma SerializeTextBody(p: Platform, r: RequestData, body: string)
    requires DistinctPatterns(p)
    requires r.contentType == Some("text/plain") && r.contentEncoding.None? && r.body == Some(Str(body))
    ensures Serialized(DefaultSerializers(p), p.codecs, r) == Success(StringContent(body))
  {
    DefaultTable(p);
    LowerTextPlain();
    JsonSerializer.MatchesWithCharset();
    TextSerializer.MatcherExamples();
    SerializeUsesFirstMatch(DefaultSerializers(p), p.codecs, r, 1);
  }

  lemma LowerTextPlain()
    ensures ToLower("text/plain") == "text/plain"
  {
  }

  /** A response without a Content-Type fails, whatever the table. */
  lemma DeserializeWithoutContentType(t: seq<Entry>, codecs: Codecs, content: Content, responseType: TypeDesc)
    requires content.contentType.None?
    ensures Deserialized(t, codecs, content, responseType) == Failure(IOException(MissingResponseContentType))
  {
  }

  /** No matching serializer for the response: an IOException whose message lists every key. */
  lemma DeserializeUnsupported(t: seq<Entry>, codecs: Codecs, content: Content, responseType: TypeDesc)
    requires content.contentType.Some?
    requires forall j :: 0 <= j < |t| ==> !t[j].1.isMatch(ToLower(content.contentType.value))
    ensures Deserialized(t, codecs, content, responseType).Failure?
    ensures Deserialized(t, codecs, content, responseType).error.IOException?
    ensures forall k :: k in Keys(t) ==> Contains(Deserialized(t, codecs, content, responseType).error.message, k)
  {
    var ct := ToLower(content.contentType.value);
    MessageListsEveryKey(t, "Unable to deserialize response with Content-Type " + ct + ". Supported encodings are ");
  }

  /**
   * With the first accepting serializer at position `i`: only the first
   * Content-Encoding value is consulted; "gzip" there means the body is fully
   * gunzipped and decoded as a string content, anything else means it is
   * decoded as received.
   */
  lemma DeserializeUsesFirstMatch(t: seq<Entry>, codecs: Codecs, content: Content, responseType: TypeDesc, i: nat)
    requires content.contentType.Some? && i < |t|
    requires t[i].1.isMatch(ToLower(content.contentType.value))
    requires forall j :: 0 <= j < i ==> !t[j].1.isMatch(ToLower(content.contentType.value))
    ensures Deserialized(t, codecs, content, responseType) ==
            if content.contentEncoding != [] && content.contentEncoding[0] == "gzip"
            then t[i].1.decode(StringContent(codecs.gunzip(ReadAsBytes(codecs, content))), responseType)
            else t[i].1.decode(content, responseType)
  {
    FirstMatchSelected(t, ToLower(content.contentType.value), i);
  }

  /** `application/JSON; charset=utf-8` still decodes as JSON. */
  lemma DeserializeJsonCaseInsensitive(p: Platform, content: Content, responseType: TypeDesc)
    requires DistinctPatterns(p)
    requires content.contentType == Some("application/JSON; charset=utf-8") && content.contentEncoding == []
    ensures Deserialized(DefaultSerializers(p), p.codecs, content, responseType) == p.jsonDecode(content, responseType)
  {
    DefaultTable(p);
    LowerJsonCharsetType();
    JsonSerializer.MatchesWithCharset();
    DeserializeUsesFirstMatch(DefaultSerializers(p), p.codecs, content, responseType, 0);
  }

  lemma LowerJsonCharsetType()
    ensures ToLower("application/JSON; charset=utf-8") == "application/json; charset=utf-8"
  {
  }

  /** Lower-casing neither creates nor removes line breaks. */
  lemma ToLowerKeepsNoNewline(s: string)
    ensures TextSerializer.NoNewline(ToLower(s)) <==> TextSerializer.NoNewline(s)
  {
    assert forall i :: 0 <= i < |s| ==> (ToLower(s)[i] == '\n' <==> s[i] == '\n');
  }

  /**
   * Any text content type, in any letter case, resolves to the text
   * serializer on the default table, unless it mentions application/json,
   * which the earlier JSON entry claims first.
   */
  lemma TextTypesSelectText(p: Platform, contentType: string)
    requires DistinctPatterns(p)
    requires TextSerializer.NoNewline(contentType)
    requires StartsWith(ToLower(contentType), "text/")
    requires !JsonSerializer.Matches(ToLower(contentType))
    ensures GetSerializer(DefaultSerializers(p), ToLower(contentType)) == Some(TextDefault(p))
  {
    DefaultTable(p);
    ToLowerKeepsNoNewline(contentType);
    TextSerializer.MatchesIffTextPrefix(ToLower(contentType));
    FirstMatchSelected(DefaultSerializers(p), ToLower(contentType), 1);
  }

  /** A text content type that also mentions application/json. */
  const OverlappingType: string := "text/plain; profile=application/json"

  /** Both the JSON and the text matcher accept `OverlappingType`. */
  lemma OverlappingTypeMatchesBoth()
    ensures JsonSerializer.Matches(OverlappingType)
    ensures TextSerializer.Matches(OverlappingType)
  {
    assert StartsWith(OverlappingType[20..], JsonSerializer.Pattern);
    TextSerializer.MatchesIffTextPrefix(OverlappingType);
  }

  /**
   * Order decides between overlapping patterns: every content type the JSON
   * matcher accepts goes to JSON, which is registered first, even when the
   * text matcher accepts it too (as it does `OverlappingType`).
   */
  lemma OverlapResolvedByOrder(p: Platform, contentType: string)
    requires DistinctPatterns(p)
    requires JsonSerializer.Matches(contentType)
    ensures GetSerializer(DefaultSerializers(p), contentType) == Some(JsonDefault(p))
  {
    DefaultTable(p);
    FirstMatchSelected(DefaultSerializers(p), contentType, 0);
  }

  /** Registering a serializer under a built-in pattern replaces that built-in only: last registration wins. */
  lemma RegisterOverridesBuiltin(p: Platform, s: Serializer)
    requires DistinctPatterns(p) && s.pattern == JsonSerializer.Pattern
    ensures Register(DefaultSerializers(p), Some(s)) == DefaultSerializers(p)[0 := (JsonSerializer.Pattern, s)]
    ensures Keys(Register(DefaultSerializers(p), Some(s))) == Keys(DefaultSerializers(p))
  {
  }

  /** Two Encoders start from the default table; registering on one leaves the other as it was. */
  method RegistrationIsPerEncoder(p: Platform, s: Serializer) returns (mine: seq<Entry>, other: seq<Entry>)
    ensures mine == SetItem(DefaultSerializers(p), s.pattern, s)
    ensures other == DefaultSerializers(p)
  {
    var e1 := new Encoder(p);
    var e2 := new Encoder(p);
    e1.RegisterSerializer(Some(s));
    mine, other := e1.lookup, e2.lookup;
  }
}
