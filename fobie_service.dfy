/**
 * `generateFobie` (src/services/fobie.ts): the reply's text is a JSON
 * object, possibly wrapped in a markdown code fence. The fence is removed,
 * the text parsed, and the object accepted when both its fields are
 * truthy; only when the parse throws does a pattern-based extractor get a
 * second try. JSON parsing and the extractor are parameters.
 */
module FobieService {
  import opened Wrappers
  import opened JsStrings
  import opened Items
  import opened GeminiReply

  const NoFobie: JsString := Str("Geen fobie gegenereerd. De AI kreeg zelf angst...")
  const Backticks: JsString := Str("```")
  const Newline: CodeUnit := '\n' as int

  /** ASCII lower case: what the `i` flag lets a letter of the pattern match. */
  function AsciiLower(s: JsString): (r: JsString)
    ensures |r| == |s|
    ensures forall i :: 0 <= i < |s| ==>
      r[i] == (if 'A' as int <= s[i] <= 'Z' as int then s[i] + 32 else s[i])
  {
    seq(|s|, i requires 0 <= i < |s| => if 'A' as int <= s[i] <= 'Z' as int then s[i] + 32 else s[i])
  }

  /** The text opens with /^```json/i. */
  predicate OpensFence(t: JsString) {
    StartsWith(t, Backticks) && |t| >= 7 && AsciiLower(t[3..7]) == Str("json")
  }

  /**
   * `replace(/^```json\n?/i, '')`: without the fence the text is kept;
   * with it, the seven units of the fence go, and the newline after them
   * too when there is one, since `\n?` is greedy.
   */
  function DropOpeningFence(t: JsString): (r: JsString)
    ensures |r| <= |t| && r == t[|t| - |r|..]
    ensures !OpensFence(t) ==> r == t
    ensures OpensFence(t) ==>
      var k := |t| - |r|;
      (k == 7 || k == 8) && (k == 8 <==> |t| > 7 && t[7] == Newline)
  {
    if !OpensFence(t) then t
    else if |t| > 7 && t[7] == Newline then t[8..]
    else t[7..]
  }

  /**
   * `replace(/\n?```$/i, '')`: without closing backticks the text is kept;
   * with them, the three backticks go, and the newline before them too when
   * there is one, since the leftmost match starts at that newline.
   */
  function DropClosingFence(t: JsString): (r: JsString)
    ensures |r| <= |t| && r == t[..|r|]
    ensures !EndsWith(t, Backticks) ==> r == t
    ensures EndsWith(t, Backticks) ==>
      var k := |t| - |r|;
      (k == 3 || k == 4) && (k == 4 <==> |t| >= 4 && t[|t| - 4] == Newline)
  {
    if !EndsWith(t, Backticks) then t
    else
      var c := t[..|t| - 3];
      if c != [] && c[|c| - 1] == Newline then c[..|c| - 1] else c
  }

  /** Both replacements, in the order the service applies them. */
  function StripFences(t: JsString): (r: JsString)
    ensures |r| <= |t|
    ensures !OpensFence(t) && !EndsWith(t, Backticks) ==> r == t
  {
    DropClosingFence(DropOpeningFence(t))
  }

  /** What is left is one slice of the text: nothing inside it is touched. */
  lemma StripFencesSlice(t: JsString) returns (a: nat)
    ensures a + |StripFences(t)| <= |t| && StripFences(t) == t[a..a + |StripFences(t)|]
  {
    var s := DropOpeningFence(t);
    a := |t| - |s|;
    assert s == t[a..];
  }

  /** A fenced block `` ```json `` (any case), newline, body, newline, `` ``` `` gives back its body. */
  lemma StripFencesOfFenced(tag: JsString, body: JsString)
    requires |tag| == 4 && AsciiLower(tag) == Str("json")
    ensures StripFences(Backticks + tag + [Newline] + body + [Newline] + Backticks) == body
  {
    var t := Backticks + tag + [Newline] + body + [Newline] + Backticks;
    assert t[..3] == Backticks && t[3..7] == tag && t[7] == Newline;
    var s := t[8..];
    assert s == body + [Newline] + Backticks;
    assert s[|s| - 3..] == Backticks;
    var c := s[..|s| - 3];
    assert c == body + [Newline];
    assert c[..|c| - 1] == body;
  }

  /** Text that neither opens nor closes with backticks is parsed as it is. */
  lemma StripFencesUnfenced(t: JsString)
    requires !StartsWith(t, Backticks) && !EndsWith(t, Backticks)
    ensures StripFences(t) == t
  {
  }

  /**
   * What `JSON.parse` makes of the text: it throws, or yields `null` (whose
   * property access throws inside the same `try`), or yields a value whose
   * `naam` and `beschrijving` are strings or absent.
   */
  datatype FobieJson = Unparseable | JsonNull | JsonValue(naam: Option<JsString>, beschrijving: Option<JsString>)

  /** `parsed.naam && parsed.beschrijving`: both present and non-empty. */
  predicate Accepted(j: FobieJson) {
    j.JsonValue? && j.naam.Some? && j.naam.value != [] && j.beschrijving.Some? && j.beschrijving.value != []
  }

  /** The `try` block threw: the parse failed or the value was null. */
  predicate ParseThrew(j: FobieJson) { j.Unparseable? || j.JsonNull? }

  /**
   * The decision on the fence-stripped text: the parsed object when it is
   * accepted, the extractor's result when the parse threw, and otherwise the
   * "no fobie" error.
   */
  function Decide(text: JsString, parse: JsString -> FobieJson, extract: JsString -> Option<FobieContent>): (r: Outcome<FobieContent>)
    ensures Accepted(parse(text)) ==>
      r == Success(FobieContent(parse(text).naam.value, parse(text).beschrijving.value))
    ensures ParseThrew(parse(text)) && extract(text).Some? ==> r == Success(extract(text).value)
    ensures r.Failure? <==>
      (!Accepted(parse(text)) && (!ParseThrew(parse(text)) || extract(text).None?))
    ensures r.Failure? ==> r == Failure(Thrown(NoFobie))
  {
    match parse(text)
    case JsonValue(naam, beschrijving) =>
      if Accepted(parse(text)) then Success(FobieContent(naam.value, beschrijving.value))
      else Failure(Thrown(NoFobie))
    case _ =>
      match extract(text)
      case Some(c) => Success(c)
      case None => Failure(Thrown(NoFobie))
  }

  /** `generateFobie(apiKey)`. */
  function GenerateFobie(apiKey: JsString, reply: Reply,
    parse: JsString -> FobieJson, extract: JsString -> Option<FobieContent>): (r: Call<FobieContent>)
    ensures r.sent.None? <==> apiKey == []
    ensures r.sent.None? ==> r.outcome == Failure(Thrown(ApiKeyRequired))
    ensures r.sent.Some? ==> r.sent.value == Request(apiKey, None, false, BlockNone, false)
    ensures apiKey != [] && FirstPartText(reply).Fault? ==> r.outcome == Failure(FirstPartText(reply).error)
    ensures apiKey != [] && FirstPartText(reply).NoText? ==> r.outcome == Failure(Thrown(NoFobie))
    ensures apiKey != [] && FirstPartText(reply).Text? ==>
      r.outcome == Decide(StripFences(FirstPartText(reply).text), parse, extract)
  {
    if apiKey == [] then Call(None, Failure(Thrown(ApiKeyRequired)))
    else
      var outcome := match FirstPartText(reply)
        case Fault(e) => Failure(e)
        case NoText => Failure(Thrown(NoFobie))
        case Text(t) => Decide(StripFences(t), parse, extract);
      Call(Some(Request(apiKey, None, false, BlockNone, false)), outcome)
  }

  /**
   * Valid JSON that lacks a field goes straight to the error: the extractor
   * is not consulted, so any two extractors give the same outcome.
   */
  lemma FallbackOnlyWhenParseThrows(apiKey: JsString, reply: Reply, parse: JsString -> FobieJson,
    e1: JsString -> Option<FobieContent>, e2: JsString -> Option<FobieContent>)
    requires apiKey != [] && FirstPartText(reply).Text?
    requires !ParseThrew(parse(StripFences(FirstPartText(reply).text)))
    ensures GenerateFobie(apiKey, reply, parse, e1) == GenerateFobie(apiKey, reply, parse, e2)
    ensures !Accepted(parse(StripFences(FirstPartText(reply).text))) ==>
      GenerateFobie(apiKey, reply, parse, e1).outcome == Failure(Thrown(NoFobie))
  {
  }

  /** A fenced JSON reply whose object has both fields yields exactly those fields. */
  lemma FencedReplyAccepted(apiKey: JsString, reply: Reply, tag: JsString, body: JsString,
    parse: JsString -> FobieJson, extract: JsString -> Option<FobieContent>)
    requires apiKey != [] && FirstPartText(reply).Text?
    requires |tag| == 4 && AsciiLower(tag) == Str("json")
    requires FirstPartText(reply).text == Backticks + tag + [Newline] + body + [Newline] + Backticks
    requires Accepted(parse(body))
    ensures GenerateFobie(apiKey, reply, parse, extract).outcome
      == Success(FobieContent(parse(body).naam.value, parse(body).beschrijving.value))
  {
    StripFencesOfFenced(tag, body);
  }
}
