/**
 * The generation services (js/gemini.js and the TypeScript services apart from
 * the fobie service): each checks its inputs, builds one request, and turns
 * the reply into a text or a thrown error. The reply to the request is a
 * parameter; a call that fails a pre-check sends nothing.
 */
module Services {
  import opened Wrappers
  import opened JsStrings
  import opened GeminiReply

  const NoTongbreker: JsString := Str("Geen tongbreker gegenereerd. AI struikelde over zijn eigen tong...")
  const NoCondoleance: JsString := Str("Geen condoleance gegenereerd. AI vond geen passende woorden...")
  const NoExcuus: JsString := Str("Geen excuus gegenereerd. De AI had zelf een excuus nodig...")
  const NoDraaiboek: JsString := Str("Het draaiboek stortte al in voordat het geschreven werd.")
  const NoHaiku: JsString := Str("Geen haiku gegenereerd. Zelfs de AI verloor de hoop...")
  const NoLevensles: JsString :=
    Str("Het universum weigert vandaag zijn duistere geheimen prijs te geven. Probeer het later nog eens.")
  const SituatieRequired: JsString := Str("Situatie is required")
  const TaakRequired: JsString := Str("Taak is required")

  /**
   * The end of every service once its request is sent: an extraction fault
   * is rethrown, no usable candidate throws the service's own message, and
   * a text is returned, with its outer quotes stripped where the service
   * does that.
   */
  function Settle(x: Extracted, noResult: JsString, stripQuotes: bool): (r: Outcome<JsString>)
    ensures x.Fault? ==> r == Failure(x.error)
    ensures x.NoText? ==> r == Failure(Thrown(noResult))
    ensures x.Text? ==> r.Success?
  {
    match x
    case Fault(e) => Failure(e)
    case NoText => Failure(Thrown(noResult))
    case Text(t) => Success(if stripQuotes then StripQuotes(t) else t)
  }

  /** `generateTongbreker` (js/gemini.js and src/services/tongbreker.ts). */
  function GenerateTongbreker(apiKey: JsString, reply: Reply): (r: Call<JsString>)
    ensures r.sent.None? <==> apiKey == []
    ensures r.sent.None? ==> r.outcome == Failure(Thrown(ApiKeyRequired))
    ensures r.sent.Some? ==> r.sent.value == Request(apiKey, None, false, BlockNone, false)
    ensures apiKey != [] ==> r.outcome == Settle(FirstPartText(reply), NoTongbreker, true)
  {
    if apiKey == [] then Call(None, Failure(Thrown(ApiKeyRequired)))
    else Call(Some(Request(apiKey, None, false, BlockNone, false)),
      Settle(FirstPartText(reply), NoTongbreker, true))
  }

  /** `generateCondoleance`: the one service that blocks only high-probability harm. */
  function GenerateCondoleance(apiKey: JsString, reply: Reply): (r: Call<JsString>)
    ensures r.sent.None? <==> apiKey == []
    ensures r.sent.None? ==> r.outcome == Failure(Thrown(ApiKeyRequired))
    ensures r.sent.Some? ==> r.sent.value == Request(apiKey, None, false, BlockOnlyHigh, false)
    ensures apiKey != [] ==> r.outcome == Settle(FirstPartText(reply), NoCondoleance, true)
  {
    if apiKey == [] then Call(None, Failure(Thrown(ApiKeyRequired)))
    else Call(Some(Request(apiKey, None, false, BlockOnlyHigh, false)),
      Settle(FirstPartText(reply), NoCondoleance, true))
  }

  /** `generateLevensles`: its content entry carries `role: 'user'`. */
  function GenerateLevensles(apiKey: JsString, reply: Reply): (r: Call<JsString>)
    ensures r.sent.None? <==> apiKey == []
    ensures r.sent.None? ==> r.outcome == Failure(Thrown(ApiKeyRequired))
    ensures r.sent.Some? ==> r.sent.value == Request(apiKey, None, false, BlockNone, true)
    ensures apiKey != [] ==> r.outcome == Settle(FirstPartText(reply), NoLevensles, true)
  {
    if apiKey == [] then Call(None, Failure(Thrown(ApiKeyRequired)))
    else Call(Some(Request(apiKey, None, false, BlockNone, true)),
      Settle(FirstPartText(reply), NoLevensles, true))
  }

  /**
   * `generateHaiku(apiKey, extraHopeloosheid = false)`: the extra section is
   * appended to the system prompt exactly when the flag is passed as true.
   */
  function GenerateHaiku(apiKey: JsString, extraHopeloosheid: Option<bool>, reply: Reply): (r: Call<JsString>)
    ensures r.sent.None? <==> apiKey == []
    ensures r.sent.None? ==> r.outcome == Failure(Thrown(ApiKeyRequired))
    ensures r.sent.Some? ==> r.sent.value.extraSection == (extraHopeloosheid == Some(true))
    ensures r.sent.Some? ==> r.sent.value == Request(apiKey, None, r.sent.value.extraSection, BlockNone, false)
    ensures apiKey != [] ==> r.outcome == Settle(FirstPartText(reply), NoHaiku, false)
  {
    if apiKey == [] then Call(None, Failure(Thrown(ApiKeyRequired)))
    else Call(Some(Request(apiKey, None, extraHopeloosheid.GetOr(false), BlockNone, false)),
      Settle(FirstPartText(reply), NoHaiku, false))
  }

  /** ASCII upper case, as `toUpperCase` acts on the labels' letters. */
  function AsciiUpper(s: JsString): (r: JsString)
    ensures |r| == |s|
    ensures forall i :: 0 <= i < |s| ==>
      r[i] == (if 'a' as int <= s[i] <= 'z' as int then s[i] - 32 else s[i])
  {
    seq(|s|, i requires 0 <= i < |s| => if 'a' as int <= s[i] <= 'z' as int then s[i] - 32 else s[i])
  }

  /** The excuse lengths the page offers. */
  datatype Lengte = Kort | Normaal | Episch

  function LengteName(l: Lengte): JsString {
    match l
    case Kort => Str("kort")
    case Normaal => Str("normaal")
    case Episch => Str("episch")
  }

  /** `lengteMap`: every length has a label, its name in capitals. */
  function LengteLabel(l: Lengte): (r: JsString)
    ensures r == AsciiUpper(LengteName(l))
  {
    match l
    case Kort => Str("KORT")
    case Normaal => Str("NORMAAL")
    case Episch => Str("EPISCH")
  }

  // The fixed text around the inputs in the two prompts that embed them.
  const ExcuusHead: JsString := Str("Genereer een ")
  const ExcuusMiddle: JsString := Str(" excuus voor de volgende situatie:\n")
  const ExcuusTail: JsString :=
    Str("\n\nVolg de instructies uit de system prompt. Begin met \"Het spijt me enorm, maar...\" en lever alleen het excuus.")
  const Quote: JsString := Str("\"")

  /** A text built around two inserted pieces includes both. */
  lemma IncludesBoth(head: JsString, x: JsString, middle: JsString, y: JsString, tail: JsString)
    ensures Includes(head + x + middle + y + tail, x) && Includes(head + x + middle + y + tail, y)
  {
    IncludesInfix(head, x, middle + y + tail);
    IncludesInfix(head + x + middle, y, tail);
    assert head + x + (middle + y + tail) == head + x + middle + y + tail;
  }

  /** The user prompt of `generateExcuus`. */
  function ExcuusPrompt(situatie: JsString, l: Lengte): (r: JsString)
    ensures Includes(r, LengteLabel(l)) && Includes(r, Quote + situatie + Quote)
  {
    var quoted := Quote + situatie + Quote;
    IncludesBoth(ExcuusHead, LengteLabel(l), ExcuusMiddle, quoted, ExcuusTail);
    ExcuusHead + LengteLabel(l) + ExcuusMiddle + quoted + ExcuusTail
  }

  /**
   * `generateExcuus`: the key is checked first, then the situatie must not
   * be blank; the prompt embeds the situatie as given, untrimmed.
   */
  function GenerateExcuus(apiKey: JsString, situatie: JsString, l: Lengte, reply: Reply): (r: Call<JsString>)
    ensures r.sent.None? <==> apiKey == [] || IsBlank(situatie)
    ensures apiKey == [] ==> r.outcome == Failure(Thrown(ApiKeyRequired))
    ensures apiKey != [] && IsBlank(situatie) ==> r.outcome == Failure(Thrown(SituatieRequired))
    ensures r.sent.Some? ==> r.sent.value == Request(apiKey, Some(ExcuusPrompt(situatie, l)), false, BlockNone, false)
    ensures r.sent.Some? ==> r.outcome == Settle(FirstPartText(reply), NoExcuus, false)
  {
    if apiKey == [] then Call(None, Failure(Thrown(ApiKeyRequired)))
    else if IsBlank(situatie) then Call(None, Failure(Thrown(SituatieRequired)))
    else Call(Some(Request(apiKey, Some(ExcuusPrompt(situatie, l)), false, BlockNone, false)),
      Settle(FirstPartText(reply), NoExcuus, false))
  }

  /** The difficulty levels of a draaiboek. */
  datatype Moeilijkheidsgraad = LichteMislukking | GureRamp | VolledigeCatastrofe

  function GraadName(m: Moeilijkheidsgraad): JsString {
    match m
    case LichteMislukking => Str("lichte-mislukking")
    case GureRamp => Str("gure-ramp")
    case VolledigeCatastrofe => Str("volledige-catastrofe")
  }

  /** `s` with every `-` read as a space. */
  function DashToSpace(s: JsString): (r: JsString)
    ensures |r| == |s|
    ensures forall i :: 0 <= i < |s| ==> r[i] == (if s[i] == '-' as int then ' ' as int else s[i])
  {
    seq(|s|, i requires 0 <= i < |s| => if s[i] == '-' as int then ' ' as int else s[i])
  }

  /** A caps spelled unit by unit as its name in capitals with spaces for dashes. */
  lemma LabelOfName(name: string, caps: string)
    requires |caps| == |name|
    requires forall i :: 0 <= i < |name| ==> caps[i] == (if name[i] == '-' then ' ' else if 'a' <= name[i] <= 'z' then (name[i] as int - 32) as char else name[i])
    requires forall i :: 0 <= i < |name| ==> name[i] as int < 0x1_0000
    ensures Str(caps) == AsciiUpper(DashToSpace(Str(name)))
  {
  }

  /** `moeilijkheidsgraadMap`: every level has a caps, its name in capitals with spaces for dashes. */
  function GraadLabel(m: Moeilijkheidsgraad): (r: JsString)
    ensures r == AsciiUpper(DashToSpace(GraadName(m)))
  {
    match m
    case LichteMislukking =>
      LabelOfName("lichte-mislukking", "LICHTE MISLUKKING");
      Str("LICHTE MISLUKKING")
    case GureRamp =>
      LabelOfName("gure-ramp", "GURE RAMP");
      Str("GURE RAMP")
    case VolledigeCatastrofe =>
      LabelOfName("volledige-catastrofe", "VOLLEDIGE CATASTROFE");
      Str("VOLLEDIGE CATASTROFE")
  }

  const DraaiboekHead: JsString := Str("Maak een stapsgewijs 'hoe-te'-draaiboek voor de taak: ")
  const DraaiboekMiddle: JsString :=
    Str(".\n\nHet plan moet er op het eerste gezicht logisch uitzien, ")
    + Str("maar onvermijdelijk leiden tot een humoristische en chaotische mislukking.\n\nMoeilijkheidsgraad: ")
  const DraaiboekTail: JsString :=
    Str("\n\nVolg de instructies uit de system prompt. Lever ALLEEN het genummerde stappenplan, zonder extra tekst.")

  /** The user prompt of `generateDraaiboek`. */
  function DraaiboekPrompt(taak: JsString, m: Moeilijkheidsgraad): (r: JsString)
    ensures Includes(r, Quote + taak + Quote) && Includes(r, GraadLabel(m))
  {
    var quoted := Quote + taak + Quote;
    IncludesBoth(DraaiboekHead, quoted, DraaiboekMiddle, GraadLabel(m), DraaiboekTail);
    DraaiboekHead + quoted + DraaiboekMiddle + GraadLabel(m) + DraaiboekTail
  }

  /** `generateDraaiboek`: the key is checked first, then the taak must not be blank. */
  function GenerateDraaiboek(apiKey: JsString, taak: JsString, m: Moeilijkheidsgraad, reply: Reply): (r: Call<JsString>)
    ensures r.sent.None? <==> apiKey == [] || IsBlank(taak)
    ensures apiKey == [] ==> r.outcome == Failure(Thrown(ApiKeyRequired))
    ensures apiKey != [] && IsBlank(taak) ==> r.outcome == Failure(Thrown(TaakRequired))
    ensures r.sent.Some? ==> r.sent.value == Request(apiKey, Some(DraaiboekPrompt(taak, m)), false, BlockNone, false)
    ensures r.sent.Some? ==> r.outcome == Settle(FirstPartText(reply), NoDraaiboek, false)
  {
    if apiKey == [] then Call(None, Failure(Thrown(ApiKeyRequired)))
    else if IsBlank(taak) then Call(None, Failure(Thrown(TaakRequired)))
    else Call(Some(Request(apiKey, Some(DraaiboekPrompt(taak, m)), false, BlockNone, false)),
      Settle(FirstPartText(reply), NoDraaiboek, false))
  }

  /** Different lengths and levels get different labels. */
  lemma LabelsDistinct(a: Lengte, b: Lengte, m: Moeilijkheidsgraad, n: Moeilijkheidsgraad)
    ensures LengteLabel(a) == LengteLabel(b) ==> a == b
    ensures GraadLabel(m) == GraadLabel(n) ==> m == n
  {
    if LengteLabel(a) == LengteLabel(b) {
      assert |LengteLabel(a)| == |LengteLabel(b)|;
    }
    if GraadLabel(m) == GraadLabel(n) {
      assert |GraadLabel(m)| == |GraadLabel(n)|;
    }
  }

  /**
   * A pre-check failure sends nothing, so its outcome is the same whatever
   * the server would have replied.
   */
  lemma PreChecksIgnoreReply(apiKey: JsString, input: JsString, l: Lengte, m: Moeilijkheidsgraad,
    flag: Option<bool>, r1: Reply, r2: Reply)
    ensures apiKey == [] ==>
      GenerateTongbreker(apiKey, r1) == GenerateTongbreker(apiKey, r2)
      && GenerateCondoleance(apiKey, r1) == GenerateCondoleance(apiKey, r2)
      && GenerateLevensles(apiKey, r1) == GenerateLevensles(apiKey, r2)
      && GenerateHaiku(apiKey, flag, r1) == GenerateHaiku(apiKey, flag, r2)
    ensures apiKey == [] || IsBlank(input) ==>
      GenerateExcuus(apiKey, input, l, r1) == GenerateExcuus(apiKey, input, l, r2)
      && GenerateDraaiboek(apiKey, input, m, r1) == GenerateDraaiboek(apiKey, input, m, r2)
  {
  }

  /**
   * Once sent, a request fails with the status class of a failed reply:
   * 401 and 429 have fixed messages, any other failed status names itself.
   */
  lemma FailedStatusThrows(apiKey: JsString, input: JsString, l: Lengte, m: Moeilijkheidsgraad,
    flag: Option<bool>, status: nat, body: Option<Data>)
    requires apiKey != [] && !IsBlank(input) && !IsOk(status)
    ensures var e := Failure(Thrown(StatusError(status, if body.Some? then body.value.errorMessage else None)));
      GenerateTongbreker(apiKey, Response(status, body)).outcome == e
      && GenerateCondoleance(apiKey, Response(status, body)).outcome == e
      && GenerateLevensles(apiKey, Response(status, body)).outcome == e
      && GenerateHaiku(apiKey, flag, Response(status, body)).outcome == e
      && GenerateExcuus(apiKey, input, l, Response(status, body)).outcome == e
      && GenerateDraaiboek(apiKey, input, m, Response(status, body)).outcome == e
    ensures status == 429 ==> GenerateTongbreker(apiKey, Response(status, body)).outcome == Failure(Thrown(RateLimitMessage))
    ensures status == 401 ==> GenerateTongbreker(apiKey, Response(status, body)).outcome == Failure(Thrown(InvalidKeyMessage))
  {
  }

  /**
   * The quote-stripping services return the trimmed first part with at most
   * one quote removed at each end; the others return it trimmed and nothing
   * else, so it never starts or ends with white space.
   */
  lemma SuccessTexts(apiKey: JsString, input: JsString, l: Lengte, m: Moeilijkheidsgraad,
    flag: Option<bool>, reply: Reply)
    requires apiKey != [] && !IsBlank(input) && FirstPartText(reply).Text?
    ensures var t := FirstPartText(reply).text;
      GenerateTongbreker(apiKey, reply).outcome == Success(StripQuotes(t))
      && GenerateCondoleance(apiKey, reply).outcome == Success(StripQuotes(t))
      && GenerateLevensles(apiKey, reply).outcome == Success(StripQuotes(t))
      && GenerateHaiku(apiKey, flag, reply).outcome == Success(t)
      && GenerateExcuus(apiKey, input, l, reply).outcome == Success(t)
      && GenerateDraaiboek(apiKey, input, m, reply).outcome == Success(t)
    ensures var t := FirstPartText(reply).text;
      t == [] || (!IsJsWhitespace(t[0]) && !IsJsWhitespace(t[|t| - 1]))
  {
  }
}
