/**
 * The two callable handlers, reduced to their data path: `parseIngredient`
 * checks its input and reshapes what the ingredient parser returns, and
 * `parseRecipeFromOcr` rejects an empty OCR payload, hands the prompt lines
 * to the model and cleans up the object the model returns. The parser, the
 * model call and `JSON.parse` are parameters.
 */
module Handlers {
  import opened Wrappers
  import opened JsValues
  import opened JsStrings
  import opened OcrPages
  import opened OcrPrompt
  import opened RecipeSanitize

  /** The `HttpsError` codes the handlers raise, plus the one an uncaught rejection becomes. */
  datatype ErrorCode = InvalidArgument | Internal

  datatype HttpsError = HttpsError(code: ErrorCode, message: string)

  const MissingRawMessage: string := "Missing raw ingredient string"
  const NoOcrTextMessage: string := "No OCR text provided. Send {blocks:[{text:...}]} or {text:'...'}."
  const InvalidJsonMessage: string := "Model did not return valid JSON. Try again or log resp.text."
  /** What the callable transport reports for an error that is not an `HttpsError`. */
  const InternalMessage: string := "INTERNAL"

  // ---------------------------------------------------------------------------
  // parseIngredient

  /** What loading and calling the ingredient parser did: it threw (or the import failed), or it returned a value. */
  datatype ParseOutcome = Threw | Returned(value: JsValue)

  /**
   * The reply of `parseIngredient`. `RawOnly` is `{ raw }`; in `Structured`
   * a `None` field is `undefined`.
   * `unit` is whatever the `??` chain yields, which can itself be `null`.
   */
  datatype IngredientReply =
    | RawOnly(raw: string)
    | Structured(raw: string, quantity: Option<Number>, unit: JsValue, item: Option<string>, notes: Option<string>)

  /**
   * `(request.data?.raw ?? "").toString()`, before trimming; `None` when the
   * conversion throws, which happens before the handler's `try`.
   */
  function RawInput(data: JsValue, numberText: Number -> string): (r: Option<string>)
    ensures IsNullish(Get(data, "raw")) ==> r == Some("")
    ensures Get(data, "raw").Str? ==> r == Some(Get(data, "raw").s)
    ensures r.None? <==> ToStringThrows(Get(data, "raw"))
  {
    ToJsString(Coalesce(Get(data, "raw"), Str("")), numberText)
  }

  /**
   * Reference definition of `a ?? b ?? ... ?? z`: the first candidate that is
   * neither null nor undefined, and the last one when all of them are.
   */
  function FirstPresent(cs: seq<JsValue>): (r: JsValue)
    requires |cs| >= 1
    ensures forall i :: 0 <= i < |cs| && !IsNullish(cs[i]) && (forall j :: 0 <= j < i ==> IsNullish(cs[j])) ==> r == cs[i]
    ensures (forall j :: 0 <= j < |cs| ==> IsNullish(cs[j])) ==> r == cs[|cs| - 1]
  {
    if |cs| == 1 || !IsNullish(cs[0]) then cs[0] else FirstPresent(cs[1..])
  }

  /** The properties of `parsed.unit` the handler consults, in precedence order. */
  function UnitCandidates(parsed: JsValue): (r: seq<JsValue>)
    ensures |r| == 4
  {
    var u := Get(parsed, "unit");
    [Get(u, "display"), Get(u, "canonical"), Get(u, "abbr"), Get(u, "raw")]
  }

  /** `parsed.unit?.display ?? parsed.unit?.canonical ?? parsed.unit?.abbr ?? parsed.unit?.raw`. */
  function UnitOf(parsed: JsValue): (r: JsValue)
    ensures r == FirstPresent(UnitCandidates(parsed))
  {
    var u := Get(parsed, "unit");
    var cs := UnitCandidates(parsed);
    assert FirstPresent(cs[2..]) == Coalesce(cs[2], cs[3]);
    assert FirstPresent(cs[1..]) == Coalesce(cs[1], FirstPresent(cs[2..]));
    assert FirstPresent(cs) == Coalesce(cs[0], FirstPresent(cs[1..]));
    Coalesce(Coalesce(Coalesce(Get(u, "display"), Get(u, "canonical")), Get(u, "abbr")), Get(u, "raw"))
  }

  /** `typeof x === "string" && x.trim() ? x.trim() : undefined`. */
  function NonBlankText(x: JsValue): (r: Option<string>)
    ensures r.Some? <==> x.Str? && Trim(x.s) != ""
    ensures r.Some? ==> r.value == Trim(x.s) && IsTrimmed(r.value) && r.value != ""
  {
    if x.Str? && Trim(x.s) != "" then Some(Trim(x.s)) else None
  }

  /** Whether the parser produced an `item` the handler reshapes (`parsed && parsed.type === "item"`). */
  predicate IsItem(out: ParseOutcome) {
    out.Returned? && Truthy(out.value) && Get(out.value, "type") == Str("item")
  }

  /** The reply for a non-blank trimmed `raw`, given what the parser did. */
  function ShapeReply(raw: string, out: ParseOutcome): IngredientReply {
    if !IsItem(out) then RawOnly(raw)
    else
      var parsed := out.value;
      Structured(
        raw,
        FiniteNumber(Get(parsed, "quantity")),
        UnitOf(parsed),
        NonBlankText(Get(parsed, "ingredient")),
        NonBlankText(Get(parsed, "postNote")))
  }

  /**
   * The `parseIngredient` handler. A `raw` whose conversion to a string
   * throws ends the call with the transport's `internal` error; blank input
   * is rejected with `invalid-argument`; otherwise the trimmed input is
   * echoed as `raw`, and the parser's fields are added only when it returned
   * an `item`.
   */
  function ParseIngredient(data: JsValue, numberText: Number -> string, parseLine: string -> ParseOutcome)
    : (r: Result<IngredientReply, HttpsError>)
    ensures ToStringThrows(Get(data, "raw")) ==> r == Failure(HttpsError(Internal, InternalMessage))
    ensures !ToStringThrows(Get(data, "raw")) ==>
      (r.Failure? <==> Trim(RawInput(data, numberText).value) == "")
    ensures r.Failure? && !ToStringThrows(Get(data, "raw")) ==> r.error == HttpsError(InvalidArgument, MissingRawMessage)
    ensures r.Success? ==>
      && RawInput(data, numberText).Some?
      && r.value.raw == Trim(RawInput(data, numberText).value) && r.value.raw != "" && IsTrimmed(r.value.raw)
    ensures r.Success? ==> (r.value.RawOnly? <==> !IsItem(parseLine(r.value.raw)))
    ensures r.Success? && r.value.Structured? ==>
      var parsed := parseLine(r.value.raw).value;
      && r.value.quantity == FiniteNumber(Get(parsed, "quantity"))
      && r.value.unit == FirstPresent(UnitCandidates(parsed))
      && r.value.item == NonBlankText(Get(parsed, "ingredient"))
      && r.value.notes == NonBlankText(Get(parsed, "postNote"))
  {
    match RawInput(data, numberText)
    case None => Failure(HttpsError(Internal, InternalMessage))
    case Some(text) =>
      var raw := Trim(text);
      if raw == "" then Failure(HttpsError(InvalidArgument, MissingRawMessage))
      else Success(ShapeReply(raw, parseLine(raw)))
  }

  /**
   * Sending the `raw` of a reply back as the request gives the same reply:
   * the echoed input is already in the form the handler parses.
   */
  lemma ParseIngredientResubmit(data: JsValue, numberText: Number -> string, parseLine: string -> ParseOutcome)
    requires ParseIngredient(data, numberText, parseLine).Success?
    ensures var reply := ParseIngredient(data, numberText, parseLine).value;
      ParseIngredient(Obj(map["raw" := Str(reply.raw)]), numberText, parseLine) == Success(reply)
  {
    var reply := ParseIngredient(data, numberText, parseLine).value;
    var again := Obj(map["raw" := Str(reply.raw)]);
    assert Get(again, "raw") == Str(reply.raw);
    assert RawInput(again, numberText) == Some(reply.raw);
  }

  /**
   * An object with its own `toString` key, sent as `raw` directly or inside
   * an array, makes the handler fail with `internal` before the parser runs.
   */
  lemma ParseIngredientNonCallableToString(numberText: Number -> string, parseLine: string -> ParseOutcome,
                                           fields: map<string, JsValue>, items: seq<JsValue>, i: nat)
    requires "toString" in fields
    requires i < |items| && items[i] == Obj(fields)
    ensures ParseIngredient(Obj(map["raw" := Obj(fields)]), numberText, parseLine)
         == Failure(HttpsError(Internal, InternalMessage))
    ensures ParseIngredient(Obj(map["raw" := Arr(items)]), numberText, parseLine)
         == Failure(HttpsError(Internal, InternalMessage))
  {
    assert Get(Obj(map["raw" := Obj(fields)]), "raw") == Obj(fields);
    assert Get(Obj(map["raw" := Arr(items)]), "raw") == Arr(items);
    assert !IsNullish(items[i]) && ToStringThrows(items[i]);
  }

  // ---------------------------------------------------------------------------
  // parseRecipeFromOcr

  /** What the model call did: it rejected, or it answered with `resp.text` (possibly absent). */
  datatype ModelCall = CallFailed | Answered(text: Option<string>)

  /**
   * `safeJsonParse(resp.text)`: `null` whenever parsing fails, including
   * when there is no text at all.
   */
  function SafeJsonParse(text: Option<string>, jsonParse: string -> Option<JsValue>): (r: JsValue)
    ensures text.None? ==> r == Null
    ensures text.Some? && jsonParse(text.value).None? ==> r == Null
    ensures text.Some? && jsonParse(text.value).Some? ==> r == jsonParse(text.value).value
  {
    match text
    case None => Null
    case Some(t) =>
      match jsonParse(t)
      case None => Null
      case Some(v) => v
  }

  /**
   * The `parseRecipeFromOcr` handler (with the project configured). The model
   * sees the prompt lines of the normalised entries; the reply is the
   * cleaned-up parsed object.
   */
  function ParseRecipeFromOcr(data: JsValue, generate: string -> ModelCall, jsonParse: string -> Option<JsValue>)
    : (r: Result<JsValue, HttpsError>)
    ensures NormalizePages(data) == [] ==> r == Failure(HttpsError(InvalidArgument, NoOcrTextMessage))
    ensures NormalizePages(data) != [] && generate(OcrText(NormalizePages(data))).CallFailed? ==>
      r == Failure(HttpsError(Internal, InternalMessage))
    ensures NormalizePages(data) != [] && generate(OcrText(NormalizePages(data))).Answered?
              && !Truthy(SafeJsonParse(generate(OcrText(NormalizePages(data))).text, jsonParse)) ==>
      r == Failure(HttpsError(Internal, InvalidJsonMessage))
    ensures r.Success? <==>
      && NormalizePages(data) != []
      && generate(OcrText(NormalizePages(data))).Answered?
      && Truthy(SafeJsonParse(generate(OcrText(NormalizePages(data))).text, jsonParse))
    ensures r.Success? ==>
      r.value == SanitizeRecipe(SafeJsonParse(generate(OcrText(NormalizePages(data))).text, jsonParse))
    ensures r.Failure? && r.error.code == InvalidArgument ==> NormalizePages(data) == []
  {
    var blocks := NormalizePages(data);
    if blocks == [] then Failure(HttpsError(InvalidArgument, NoOcrTextMessage))
    else
      match generate(OcrText(blocks))
      case CallFailed => Failure(HttpsError(Internal, InternalMessage))
      case Answered(text) =>
        var parsed := SafeJsonParse(text, jsonParse);
        if !Truthy(parsed) then Failure(HttpsError(Internal, InvalidJsonMessage))
        else Success(SanitizeRecipe(parsed))
  }

  /** An empty OCR payload is rejected the same way whatever the model would have done: it is never consulted. */
  lemma OcrRejectsEmptyBeforeModel(data: JsValue, g1: string -> ModelCall, g2: string -> ModelCall,
                                   j1: string -> Option<JsValue>, j2: string -> Option<JsValue>)
    requires NormalizePages(data) == []
    ensures ParseRecipeFromOcr(data, g1, j1) == ParseRecipeFromOcr(data, g2, j2)
    ensures ParseRecipeFromOcr(data, g1, j1).Failure?
  {
  }

  /** What the handler returns is already clean: cleaning it again changes nothing. */
  lemma OcrReplyIsSanitized(data: JsValue, generate: string -> ModelCall, jsonParse: string -> Option<JsValue>)
    ensures var r := ParseRecipeFromOcr(data, generate, jsonParse); r.Success? ==> SanitizeRecipe(r.value) == r.value
  {
    var blocks := NormalizePages(data);
    if blocks != [] && generate(OcrText(blocks)).Answered? {
      SanitizeRecipeIdempotent(SafeJsonParse(generate(OcrText(blocks)).text, jsonParse));
    }
  }

  /**
   * The payload `{blocks: [{text: ...}]}` that the rejection message itself
   * suggests is rejected with that very message, whatever its text.
   */
  lemma SuggestedBlocksPayloadRejected(t: string, generate: string -> ModelCall, jsonParse: string -> Option<JsValue>)
    ensures ParseRecipeFromOcr(Obj(map["blocks" := Arr([Obj(map["text" := Str(t)])])]), generate, jsonParse)
         == Failure(HttpsError(InvalidArgument, NoOcrTextMessage))
  {
    TopLevelBlocksIgnored(t);
  }
}
