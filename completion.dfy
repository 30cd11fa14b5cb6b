/** tlm/types/completion.py: a completion returned by the model. The
    `Completion` class holds the mutable fields; `CompletionData` is its value,
    which the scoring functions read. */
module Completions {
  import opened Wrappers
  import opened Text
  import opened Json
  import opened Types

  datatype CompletionData = CompletionData(
    message: string,
    logprobs: Option<seq<TokenLogprob>>,
    perplexity: Option<real>,
    explanation: Option<string>,
    perFieldMetadata: Option<map<string, FieldMetadata>>,
    responseFields: map<string, Json>,
    originalResponse: Json,
    template: Option<TemplateInfo>)

  /** The result of one model call: `Completion | CompletionFailure`. */
  datatype Outcome = Success(completion: CompletionData) | Failure(failure: CompletionFailure)

  /** What an oracle model call yields: an outcome, or an exception raised
      while issuing or awaiting the request. */
  datatype Call = Returned(outcome: Outcome) | Raised(message: string)

  /** The answer of a successful completion: the answer field when truthy,
      else the message field when present, else the message. */
  function AnswerOf(c: CompletionData): (a: Json)
    ensures Answer.Key() in c.responseFields && Truthy(c.responseFields[Answer.Key()]) ==>
      a == c.responseFields[Answer.Key()]
    ensures !(Answer.Key() in c.responseFields && Truthy(c.responseFields[Answer.Key()])) ==>
      a == (if Message.Key() in c.responseFields then c.responseFields[Message.Key()] else JStr(c.message))
  {
    if Answer.Key() in c.responseFields && Truthy(c.responseFields[Answer.Key()]) then c.responseFields[Answer.Key()]
    else if Message.Key() in c.responseFields then c.responseFields[Message.Key()]
    else JStr(c.message)
  }

  /** `response_fields.get(MAPPED_SCORE, nan)`, NaN also for a non-number. */
  function MappedScoreOf(c: CompletionData): (r: Option<real>)
    ensures r.Some? <==> MappedScore.Key() in c.responseFields && c.responseFields[MappedScore.Key()].JNum?
  {
    if MappedScore.Key() in c.responseFields && c.responseFields[MappedScore.Key()].JNum?
    then Some(c.responseFields[MappedScore.Key()].n) else None
  }

  /** `value.strip() if isinstance(value, str) else value`. */
  function StripValue(v: Json): (r: Json)
    ensures r.JStr? <==> v.JStr?
    ensures !v.JStr? ==> r == v
  {
    if v.JStr? then JStr(Strip(v.s)) else v
  }

  /** The `strip_whitespace` validator on an optional string. */
  function StripOptional(v: Option<string>): (r: Option<string>)
    ensures r.None? <==> v.None?
  {
    if v.None? then None else Some(Strip(v.value))
  }

  /** A known perplexity multiplied by `factor`; an unknown one stays unknown. */
  function Scaled(p: Option<real>, factor: real): Option<real> {
    if p.Some? then Some(p.value * factor) else None
  }

  /** The message and explanation fields only ever receive strings. */
  predicate AcceptsValue(f: ResponseField, v: Json) {
    (f == Message || f == Explanation) ==> v.JStr?
  }

  /** The value of a completion after `add_response_field(f, v)`. */
  function WithResponseField(c: CompletionData, f: ResponseField, v: Json): (r: CompletionData)
    requires AcceptsValue(f, v)
    ensures r.responseFields == c.responseFields[f.Key() := StripValue(v)]
    ensures r.message == if f == Message then Strip(v.s) else c.message
    ensures r.explanation == if f == Explanation then Some(Strip(v.s)) else c.explanation
    ensures r.(responseFields := c.responseFields, message := c.message, explanation := c.explanation) == c
  {
    var stored := StripValue(v);
    var withField := c.(responseFields := c.responseFields[f.Key() := stored]);
    var withMessage := if f == Message then withField.(message := stored.s) else withField;
    if f == Explanation then withMessage.(explanation := Some(stored.s)) else withMessage
  }

  /** Storing again the value that a field now holds changes nothing. */
  lemma ResponseFieldRestore(c: CompletionData, f: ResponseField, v: Json)
    requires AcceptsValue(f, v)
    ensures var r := WithResponseField(c, f, v);
      AcceptsValue(f, r.responseFields[f.Key()]) && WithResponseField(r, f, r.responseFields[f.Key()]) == r
  {
    var r := WithResponseField(c, f, v);
    var w := StripValue(v);
    assert r.responseFields[f.Key()] == w;
    if v.JStr? {
      StripIdempotent(v.s);
      assert StripValue(w) == w;
    }
    var again := WithResponseField(r, f, w);
    assert again.responseFields == r.responseFields[f.Key() := w];
    assert again.responseFields == r.responseFields;
  }

  class Completion {
    var message: string
    var logprobs: Option<seq<TokenLogprob>>
    var perplexity: Option<real>
    var explanation: Option<string>
    var perFieldMetadata: Option<map<string, FieldMetadata>>
    var responseFields: map<string, Json>
    const originalResponse: Json
    const template: Option<TemplateInfo>

    function Data(): CompletionData
      reads this
    {
      CompletionData(message, logprobs, perplexity, explanation, perFieldMetadata, responseFields, originalResponse, template)
    }

    /** Construction runs the `strip_whitespace` validator on `message` and
        `explanation`; a missing explanation stays missing. */
    constructor(
      message: string,
      logprobs: Option<seq<TokenLogprob>>,
      perplexity: Option<real>,
      explanation: Option<string>,
      perFieldMetadata: Option<map<string, FieldMetadata>>,
      originalResponse: Json,
      template: Option<TemplateInfo>)
      ensures Data() == CompletionData(Strip(message), logprobs, perplexity, StripOptional(explanation),
                                       perFieldMetadata, map[], originalResponse, template)
    {
      this.message := Strip(message);
      this.logprobs := logprobs;
      this.perplexity := perplexity;
      this.explanation := StripOptional(explanation);
      this.perFieldMetadata := perFieldMetadata;
      this.responseFields := map[];
      this.originalResponse := originalResponse;
      this.template := template;
    }

    /** add_response_field. */
    method AddResponseField(f: ResponseField, v: Json)
      requires AcceptsValue(f, v)
      modifies this
      ensures Data() == WithResponseField(old(Data()), f, v)
    {
      var stored := StripValue(v);
      responseFields := responseFields[f.Key() := stored];
      if f == Message {
        message := stored.s;
      }
      if f == Explanation {
        explanation := Some(stored.s);
      }
    }

    /** Multiplies a known perplexity by `factor`; used by output snapping. */
    method ScalePerplexity(factor: real)
      modifies this
      ensures Data() == old(Data()).(perplexity := Scaled(old(perplexity), factor))
    {
      perplexity := Scaled(perplexity, factor);
    }
  }

  /** A `float | None` field read from a dictionary, validated in pydantic's
      lax mode: None stays None, a number is kept, a boolean becomes 1.0 or
      0.0, a string is parsed as a number (`parseFloat` stands for that
      parse), and anything else is a validation error. */
  function OptionalFloat(v: Json, parseFloat: string -> Option<real>): (r: Result<Option<real>>)
    ensures r.Ok? <==> v.JNull? || v.JNum? || v.JBool? || (v.JStr? && parseFloat(v.s).Some?)
    ensures r.Ok? && r.value.None? <==> v.JNull?
  {
    match v
    case JNull => Ok(None)
    case JNum(n) => Ok(Some(n))
    case JBool(b) => Ok(Some(if b then 1.0 else 0.0))
    case JStr(s) =>
      if parseFloat(s).Some? then Ok(Some(parseFloat(s).value))
      else Err("ValidationError: perplexity must be a number")
    case _ => Err("ValidationError: perplexity must be a number")
  }

  /** A numeric string is read through the parse, and a boolean as 1.0 or
      0.0. */
  lemma OptionalFloatCoerces(parseFloat: string -> Option<real>)
    requires parseFloat("0.5") == Some(0.5)
    ensures OptionalFloat(JStr("0.5"), parseFloat) == Ok(Some(0.5))
    ensures OptionalFloat(JBool(true), parseFloat) == Ok(Some(1.0))
    ensures OptionalFloat(JBool(false), parseFloat) == Ok(Some(0.0))
    ensures OptionalFloat(JArr([]), parseFloat).Err?
  {
  }

  /** Completion.from_response on an already-decoded dictionary. */
  function FromResponseData(response: Json, parseFloat: string -> Option<real>): (r: Result<CompletionData>)
  {
    var value :- Index(response, "response");
    if !value.JStr? then Err("ValidationError: message must be a string")
    else
      var perplexity :- Get(response, "perplexity");
      var p :- OptionalFloat(perplexity, parseFloat);
      var base := CompletionData(Strip(value.s), None, p, None, None, map[], response, None);
      Ok(WithResponseField(WithResponseField(base, Message, value), Answer, value))
  }

  /** from_response fails exactly when "response" is missing or not a
      string, or "perplexity" is present and neither None nor a value the
      lax float validation accepts; otherwise both the message and the
      answer field hold the stripped response, and perplexity is the
      validated value, None when it is absent. */
  lemma FromResponseProperties(response: Json, parseFloat: string -> Option<real>)
    ensures FromResponseData(response, parseFloat).Ok? <==>
      response.JObj? && "response" in response.fields && response.fields["response"].JStr? &&
      ("perplexity" in response.fields ==> OptionalFloat(response.fields["perplexity"], parseFloat).Ok?)
    ensures FromResponseData(response, parseFloat).Ok? ==>
      var c := FromResponseData(response, parseFloat).value;
      var s := Strip(response.fields["response"].s);
      c.message == s &&
      c.responseFields == map[Message.Key() := JStr(s), Answer.Key() := JStr(s)] &&
      c.perplexity == (if "perplexity" in response.fields
                       then OptionalFloat(response.fields["perplexity"], parseFloat).value else None) &&
      c.explanation.None? && c.template.None?
  {
    if response.JObj? && "response" in response.fields && response.fields["response"].JStr? {
      var value := response.fields["response"];
      var perplexity := if "perplexity" in response.fields then response.fields["perplexity"] else JNull;
      assert Get(response, "perplexity") == Ok(perplexity);
      if OptionalFloat(perplexity, parseFloat).Ok? {
        var p := OptionalFloat(perplexity, parseFloat).value;
        var base := CompletionData(Strip(value.s), None, p, None, None, map[], response, None);
        var withMessage := WithResponseField(base, Message, value);
        assert withMessage.responseFields == map[Message.Key() := JStr(Strip(value.s))];
        assert FromResponseData(response, parseFloat) == Ok(WithResponseField(withMessage, Answer, value));
      }
    }
  }

  /** Completion.from_response: builds the completion, then stores the
      response under the message and answer fields. */
  method FromResponse(response: Json, parseFloat: string -> Option<real>) returns (r: Result<Completion>)
    ensures r.Ok? <==> FromResponseData(response, parseFloat).Ok?
    ensures r.Ok? ==> fresh(r.value) && r.value.Data() == FromResponseData(response, parseFloat).value
  {
    var value := Index(response, "response");
    if value.Err? {
      return Err(value.error);
    }
    if !value.value.JStr? {
      return Err("ValidationError: message must be a string");
    }
    var responseStr := value.value;
    var perplexity := Get(response, "perplexity");
    var p := OptionalFloat(perplexity.value, parseFloat);
    if p.Err? {
      return Err(p.error);
    }
    var completion := new Completion(responseStr.s, None, p.value, None, None, response, None);
    completion.AddResponseField(Message, responseStr);
    completion.AddResponseField(Answer, responseStr);
    r := Ok(completion);
  }

  /** extract_message_content: completion["chat_completion"]["choices"][0]["message"]["content"]. */
  function ExtractMessageContent(completion: Json): Result<Json>
  {
    var chat :- Index(completion, "chat_completion");
    var choices :- Index(chat, "choices");
    var first :- At(choices, 0);
    var message :- Index(first, "message");
    Index(message, "content")
  }

  /** Completion.from_completion_dict on an already-decoded dictionary. */
  function FromCompletionDictData(completionDict: Json, parseFloat: string -> Option<real>): (r: Result<CompletionData>)
    ensures r.Ok? ==> r.value.responseFields.Keys == {Answer.Key()}
    ensures r.Ok? ==> r.value.responseFields[Answer.Key()] == JStr(r.value.message)
    ensures r.Ok? ==> r.value.originalResponse == completionDict && r.value.template.None?
  {
    var content :- ExtractMessageContent(completionDict);
    if !content.JStr? then Err("ValidationError: message must be a string")
    else
      var perplexity :- Get(completionDict, "perplexity");
      var p :- OptionalFloat(perplexity, parseFloat);
      var base := CompletionData(Strip(content.s), None, p, None, None, map[], completionDict, None);
      Ok(WithResponseField(base, Answer, content))
  }

  /** Completion.from_completion_dict. */
  method FromCompletionDict(completionDict: Json, parseFloat: string -> Option<real>) returns (r: Result<Completion>)
    ensures r.Ok? <==> FromCompletionDictData(completionDict, parseFloat).Ok?
    ensures r.Ok? ==> fresh(r.value) && r.value.Data() == FromCompletionDictData(completionDict, parseFloat).value
  {
    var content := ExtractMessageContent(completionDict);
    if content.Err? {
      return Err(content.error);
    }
    if !content.value.JStr? {
      return Err("ValidationError: message must be a string");
    }
    var perplexity := Get(completionDict, "perplexity");
    var p := OptionalFloat(perplexity.value, parseFloat);
    if p.Err? {
      return Err(p.error);
    }
    var completion := new Completion(content.value.s, None, p.value, None, None, completionDict, None);
    completion.AddResponseField(Answer, content.value);
    r := Ok(completion);
  }
}
