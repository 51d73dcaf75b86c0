/** The built-in plain-text serializer, registered for every `text/...` content type. */
module TextSerializer {
  import opened Wrappers
  import opened Strings
  import opened Http

  /** The pattern the serializer is registered under. */
  const RegExPattern: string := "^text/.*$"

  /** The text produced by `.*`: no line break anywhere. */
  predicate NoNewline(s: string)
  {
    forall i :: 0 <= i < |s| ==> s[i] != '\n'
  }

  /**
   * `IsMatch` for the compiled `^text/.*$` (no `RegexOptions.Multiline`):
   * `^` anchors at the start, `.*` takes everything up to a line break, and
   * `$` holds at the end or just before a final line break.
   */
  predicate Matches(contentType: string)
  {
    StartsWith(contentType, "text/") &&
    var rest := contentType[5..];
    NoNewline(rest) || (|rest| > 0 && rest[|rest| - 1] == '\n' && NoNewline(rest[..|rest| - 1]))
  }

  function GetContentTypeRegexPattern(): string
  {
    RegExPattern
  }

  /** The one regular expression built from `RegExPattern`, as its match test. */
  function GetContentRegEx(): string -> bool
  {
    Matches
  }

  /** `DecodeAsync`: the content read as a string; the declared response type is not used. */
  function Decode(codecs: Codecs, content: Content, responseType: TypeDesc): (r: Result<Value, Error>)
    ensures r.Success? && r.value.Str?
  {
    Success(Str(ReadAsString(codecs, content)))
  }

  /** `EncodeAsync`: `new StringContent(request.Body.ToString())`, which throws on a null body. */
  function Encode(request: RequestData): (r: Result<Content, Error>)
    ensures r.Success? <==> request.body.Some?
    ensures r.Success? ==> r.value.payload == Text(ToString(request.body.value))
    ensures r.Failure? ==> r.error == NullReferenceException
  {
    match request.body
    case None => Failure(NullReferenceException)
    case Some(v) => Success(StringContent(ToString(v)))
  }

  /** The serializer object itself. */
  function Make(codecs: Codecs): (s: Serializer)
    ensures s.pattern == GetContentTypeRegexPattern()
    ensures s.isMatch == GetContentRegEx()
  {
    Serializer(RegExPattern, GetContentRegEx(), Encode, (c, t) => Decode(codecs, c, t))
  }

  /** For a content type without line breaks the anchored pattern is exactly a prefix test. */
  lemma MatchesIffTextPrefix(contentType: string)
    requires NoNewline(contentType)
    ensures Matches(contentType) <==> StartsWith(contentType, "text/")
  {
  }

  /** A final line break is tolerated by `$`; one in the middle is not. */
  lemma LineBreakCases()
    ensures Matches("text/plain\n")
    ensures !Matches("text/plain\nx")
  {
    var rest := "text/plain\nx"[5..];
    assert rest[5] == '\n';
  }

  /** `text/plain` is accepted and `application/json` is not. */
  lemma MatcherExamples()
    ensures GetContentRegEx()("text/plain")
    ensures !GetContentRegEx()("application/json")
  {
    MatchesIffTextPrefix("text/plain");
    assert "application/json"[..5][0] != "text/"[0];
  }

  /** The decoded value is the content's text, whatever response type is declared. */
  lemma DecodeIgnoresResponseType(codecs: Codecs, content: Content, t1: TypeDesc, t2: TypeDesc)
    ensures Decode(codecs, content, t1) == Decode(codecs, content, t2) == Success(Str(ReadAsString(codecs, content)))
  {
  }

  /** A string body comes back verbatim: decoding what `Encode` sent returns the body's text. */
  lemma EncodeThenDecode(codecs: Codecs, request: RequestData, responseType: TypeDesc)
    requires request.body.Some?
    ensures Encode(request).Success?
    ensures Decode(codecs, Encode(request).value, responseType) == Success(Str(ToString(request.body.value)))
    ensures request.body.value.Str? ==> Encode(request).value.payload == Text(request.body.value.s)
  {
  }
}

/** The JSON serializer's matcher; the JSON encoding itself belongs to the platform's JSON library. */
module JsonSerializer {
  import opened Wrappers
  import opened Strings
  import opened Http

  const Pattern: string := "application/json"

  /** `IsMatch` for the regular expression `application/json`: a search for that text anywhere. */
  predicate Matches(contentType: string)
  {
    Contains(contentType, Pattern)
  }

  /** The JSON serializer around the library's encoder and decoder. */
  function Make(encode: RequestData -> Result<Content, Error>, decode: (Content, TypeDesc) -> Result<Value, Error>): (s: Serializer)
    ensures s.pattern == Pattern
    ensures s.isMatch == Matches && s.encode == encode && s.decode == decode
  {
    Serializer(Pattern, Matches, encode, decode)
  }

  /** A parameter after the media type does not stop the match. */
  lemma MatchesWithCharset()
    ensures Matches("application/json; charset=utf-8")
    ensures !Matches("text/plain")
  {
    assert StartsWith("application/json; charset=utf-8"[0..], Pattern);
    var s := "text/plain";
    forall i | 0 <= i <= |s| ensures !StartsWith(s[i..], Pattern) {
    }
  }
}
