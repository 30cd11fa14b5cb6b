/** tlm/utils/chat_completion_validation.py: the only requirement on chat
    completion parameters is that "messages" is present. */
module ChatValidation {
  import opened Wrappers
  import opened Json

  /** REQUIRED_CHAT_COMPLETION_PARAMS, in sorted order. */
  const RequiredParams: seq<string> := ["messages"]

  /** The names in `required` that the dictionary lacks, in order. */
  function Missing(required: seq<string>, params: map<string, Json>): (r: seq<string>)
    ensures forall p :: p in r <==> p in required && p !in params
  {
    if required == [] then []
    else (if required[0] in params then [] else [required[0]]) + Missing(required[1..], params)
  }

  /** `", ".join(names)`. */
  function JoinComma(names: seq<string>): string
  {
    if names == [] then ""
    else if |names| == 1 then names[0]
    else names[0] + ", " + JoinComma(names[1..])
  }

  /** _validate_chat_completion_params. It only reads the parameters. */
  function ValidateChatCompletionParams(params: map<string, Json>): Status
  {
    if Missing(RequiredParams, params) != [] then
      Fail("openai_args must include the following parameter(s): " + JoinComma(RequiredParams))
    else Done
  }

  /** Validation fails exactly when "messages" is absent, whatever other
      keys are present, and the message names the required parameter. */
  lemma ValidateSpec(params: map<string, Json>)
    ensures ValidateChatCompletionParams(params).Fail? <==> "messages" !in params
    ensures ValidateChatCompletionParams(params).Fail? ==>
      ValidateChatCompletionParams(params).error == "openai_args must include the following parameter(s): messages"
  {
    assert RequiredParams[1..] == [];
    assert Missing(RequiredParams, params) == if "messages" in params then [] else ["messages"];
  }

  /** Extra keys never turn a valid dictionary invalid. */
  lemma ExtraKeysAllowed(params: map<string, Json>, extra: map<string, Json>)
    requires ValidateChatCompletionParams(params).Done?
    ensures ValidateChatCompletionParams(params + extra).Done?
  {
    ValidateSpec(params);
    ValidateSpec(params + extra);
  }
}
