/**
 * What every generation service does around its one `fetch` to the Gemini
 * generateContent endpoint: the request it sends (its variable parts), the
 * reply it receives, the error thrown for a failed HTTP status, and the
 * extraction of `candidates[0].content.parts[0].text`, trimmed. The fetch
 * itself is not modelled: its reply is a parameter.
 */
module GeminiReply {
  import opened Wrappers
  import opened JsStrings

  /** One `parts[]` entry; `text` is None when the field is missing. */
  datatype Part = Part(text: Option<JsString>)
  datatype Content = Content(parts: Option<seq<Part>>)
  datatype Candidate = Candidate(content: Option<Content>)

  /**
   * The reply body read as JSON: its `candidates`, and its `error.message`
   * as a failed reply carries it.
   */
  datatype Data = Data(candidates: Option<seq<Candidate>>, errorMessage: Option<JsString>)

  /**
   * What `fetch` yields: a rejection (network failure), or a response with
   * its HTTP status and its body, None when the body is not JSON.
   */
  datatype Reply = FetchRejected | Response(status: nat, body: Option<Data>)

  /**
   * An exception as the caller sees it: an `Error` with a message from the
   * service, or one the engine raises (a TypeError from `fetch` or from a
   * missing field, a SyntaxError from `response.json()`).
   */
  datatype Error = Thrown(message: JsString) | EngineError

  datatype Outcome<T> = Success(value: T) | Failure(error: Error)

  /** The safety threshold the request sets for all four harm categories. */
  datatype Threshold = BlockNone | BlockOnlyHigh

  /**
   * The parts of the request body a service varies: the key in the URL, the
   * user prompt when it is built from the input (None for a fixed prompt),
   * whether the extra section is appended to the system prompt, the safety
   * threshold, and whether the content entry carries `role: 'user'`.
   */
  datatype Request = Request(
    key: JsString,
    userPrompt: Option<JsString>,
    extraSection: bool,
    threshold: Threshold,
    userRole: bool)

  /** A service call: the request sent, if any, and how the call ended. */
  datatype Call<T> = Call(sent: Option<Request>, outcome: Outcome<T>)

  // Longer messages are written in pieces so that the verifier can read their characters.
  const ApiKeyRequired: JsString := Str("API key is required")
  const InvalidKeyMessage: JsString := Str("Ongeldige API key. ") + Str("Check je key en probeer opnieuw.")
  const RateLimitMessage: JsString := Str("Te veel requests. ") + Str("Wacht even en probeer opnieuw.")
  const UnknownError: JsString := Str("Onbekende fout")

  /** `response.ok`: a status in the 200 range. */
  predicate IsOk(status: nat) { 200 <= status <= 299 }

  /** `errorData.error?.message || 'Onbekende fout'`: an empty message is falsy too. */
  function ErrorDetail(message: Option<JsString>): (r: JsString)
    ensures r != []
    ensures message.Some? && message.value != [] ==> r == message.value
  {
    match message
    case Some(m) => if m != [] then m else UnknownError
    case None => UnknownError
  }

  /** The message thrown for a reply that is not ok. */
  function StatusError(status: nat, message: Option<JsString>): (r: JsString)
    ensures status == 401 ==> r == InvalidKeyMessage
    ensures status == 429 ==> r == RateLimitMessage
    ensures status != 401 && status != 429 ==>
      StartsWith(r, Str("API fout: ") + Decimal(status)) && EndsWith(r, ErrorDetail(message))
  {
    if status == 401 then InvalidKeyMessage
    else if status == 429 then RateLimitMessage
    else Str("API fout: ") + Decimal(status) + Str(" - ") + ErrorDetail(message)
  }

  /** The three classes of failed status never share a message. */
  lemma StatusErrorClasses(status: nat, message: Option<JsString>)
    ensures StatusError(status, message) == InvalidKeyMessage <==> status == 401
    ensures StatusError(status, message) == RateLimitMessage <==> status == 429
  {
    var r := StatusError(status, message);
    assert InvalidKeyMessage[0] == 'O' as int && RateLimitMessage[0] == 'T' as int;
    if status != 401 && status != 429 {
      assert r[0] == 'A' as int;
    }
  }

  /** The status and the server's message can both be read back from the "API fout" message. */
  lemma StatusErrorReadable(status: nat, m: JsString)
    requires status != 401 && status != 429 && m != []
    ensures StatusError(status, Some(m)) == Str("API fout: ") + Decimal(status) + Str(" - ") + m
    ensures DigitsValue(StatusError(status, Some(m))[10..10 + |Decimal(status)|]) == status
  {
    var r := StatusError(status, Some(m));
    var d := Decimal(status);
    assert r[10..10 + |d|] == d;
    DecimalValue(status);
  }

  /** How extraction ended: a thrown error, no usable candidate, or the first part's text, trimmed. */
  datatype Extracted = Fault(error: Error) | NoText | Text(text: JsString)

  /** The candidate list holds a first candidate with a non-empty `parts` list. */
  predicate HasFirstPart(d: Data) {
    d.candidates.Some? && |d.candidates.value| > 0
    && d.candidates.value[0].content.Some?
    && d.candidates.value[0].content.value.parts.Some?
    && |d.candidates.value[0].content.value.parts.value| > 0
  }

  function FirstPart(d: Data): Part
    requires HasFirstPart(d)
  {
    d.candidates.value[0].content.value.parts.value[0]
  }

  /**
   * The shared body of every service after its pre-checks: a rejected fetch
   * and a body that is not JSON raise engine errors, a failed status throws
   * its classified message, and otherwise the first part's text is trimmed.
   */
  function FirstPartText(reply: Reply): (r: Extracted)
    ensures reply.FetchRejected? ==> r == Fault(EngineError)
    ensures reply.Response? && !IsOk(reply.status) ==>
      r == Fault(Thrown(StatusError(reply.status,
        if reply.body.Some? then reply.body.value.errorMessage else None)))
    ensures r.Text? <==>
      (reply.Response? && IsOk(reply.status) && reply.body.Some?
       && HasFirstPart(reply.body.value) && FirstPart(reply.body.value).text.Some?)
    ensures r.Text? ==> r.text == Trim(FirstPart(reply.body.value).text.value)
    ensures r.NoText? <==>
      (reply.Response? && IsOk(reply.status) && reply.body.Some? && !HasFirstPart(reply.body.value))
  {
    match reply
    case FetchRejected => Fault(EngineError)
    case Response(status, body) =>
      if !IsOk(status) then
        Fault(Thrown(StatusError(status, if body.Some? then body.value.errorMessage else None)))
      else if body.None? then Fault(EngineError)
      else if !HasFirstPart(body.value) then NoText
      else
        match FirstPart(body.value).text
        case None => Fault(EngineError)
        case Some(t) => Text(Trim(t))
  }

  predicate IsQuote(u: int) { u == '"' as int || u == '\'' as int }

  /**
   * `text.replace(/^["']|["']$/g, '')`: one quote removed at the start and
   * one at the end, the second match only after the first.
   */
  function StripQuotes(t: JsString): (r: JsString)
    ensures |r| <= |t| <= |r| + 2
    ensures var a := if t != [] && IsQuote(t[0]) then 1 else 0;
      a + |r| <= |t| && r == t[a..a + |r|]
      && (a + |r| < |t| <==> (|t| > a && IsQuote(t[|t| - 1])))
  {
    var s := if t != [] && IsQuote(t[0]) then t[1..] else t;
    if s != [] && IsQuote(s[|s| - 1]) then s[..|s| - 1] else s
  }

  /** A text without a quote at either end is left as it is. */
  lemma StripQuotesUnquoted(t: JsString)
    requires t == [] || (!IsQuote(t[0]) && !IsQuote(t[|t| - 1]))
    ensures StripQuotes(t) == t
  {
  }

  /** A quoted text loses exactly its outer quotes, even when it is only quotes. */
  lemma StripQuotesQuoted(q1: CodeUnit, body: JsString, q2: CodeUnit)
    requires IsQuote(q1) && IsQuote(q2)
    ensures StripQuotes([q1] + body + [q2]) == body
  {
    var t := [q1] + body + [q2];
    assert t[1..] == body + [q2];
    assert (body + [q2])[..|body|] == body;
  }

  /** Stripping does not trim again: white space inside the quotes stays. */
  lemma StripQuotesNoRetrim()
    ensures StripQuotes(Str("\" hallo \"")) == Str(" hallo ")
  {
    StripQuotesQuoted('"' as int, Str(" hallo "), '"' as int);
    assert Str("\" hallo \"") == ['"' as int] + Str(" hallo ") + ['"' as int];
  }

  /** A lone quote is removed entirely, by the first alternative. */
  lemma StripQuotesLoneQuote(q: CodeUnit)
    requires IsQuote(q)
    ensures StripQuotes([q]) == []
  {
  }
}
