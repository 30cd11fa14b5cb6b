/** tlm/utils/response_format_utils.py: wrapping a structured-output
    response format so that the model also returns an explanation. The
    wrapper follows JSON Schema 2020-12: the answer is a `$ref` (section
    8.2.3.1 of the Core specification) into the wrapper's `$defs` (section
    8.2.4). */
module ResponseFormat {
  import opened Wrappers
  import opened Json

  const WrapperName: string := "ObvConsistencyResponse"

  /** The wrapper schema around the definitions `defs`, whose answer refers
      to the definition called `name`. */
  function Wrapper(name: string, defs: map<string, Json>): Json
  {
    JObj(map[
      "type" := JStr("json_schema"),
      "json_schema" := JObj(map[
        "schema" := JObj(map[
          "$defs" := JObj(defs),
          "properties" := JObj(map[
            "explanation" := JObj(map["title" := JStr("Explanation"), "type" := JStr("string")]),
            "answer" := JObj(map["$ref" := JStr("#/$defs/" + name)])]),
          "required" := JArr([JStr("explanation"), JStr("answer")]),
          "title" := JStr(WrapperName),
          "type" := JStr("object"),
          "additionalProperties" := JBool(false)]),
        "name" := JStr(WrapperName),
        "strict" := JBool(true)])])
  }

  /** add_explanation_field. Reading `json_schema.name` and
      `json_schema.schema` raises when they are missing, `pop` needs a
      dictionary, and `**original_defs` needs a mapping. A name that is not
      a string is refused, since objects here have string keys only. */
  function AddExplanationField(format: Json): Result<Json>
  {
    var js :- Index(format, "json_schema");
    var name :- Index(js, "name");
    var schema :- Index(js, "schema");
    if !schema.JObj? then Err("AttributeError: schema has no attribute 'pop'")
    else
      var defs := if "$defs" in schema.fields then schema.fields["$defs"] else JObj(map[]);
      var stripped := JObj(schema.fields - {"$defs"});
      if !defs.JObj? then Err("TypeError: $defs is not a mapping")
      else if !name.JStr? then Err("the schema name is not a string key")
      else Ok(Wrapper(name.s, defs.fields[name.s := stripped]))
  }

  /** The original schema, without its own definitions. */
  function OriginalSchema(format: Json): Json
    requires format.JObj? && "json_schema" in format.fields
    requires format.fields["json_schema"].JObj? && "schema" in format.fields["json_schema"].fields
    requires format.fields["json_schema"].fields["schema"].JObj?
  {
    JObj(format.fields["json_schema"].fields["schema"].fields - {"$defs"})
  }

  /** Where a wrapper's answer reference leads: the definition named after
      "#/$defs/", or nothing when the reference has another form. */
  function ResolveAnswer(wrapper: Json): Option<Json>
  {
    if wrapper.JObj? && "json_schema" in wrapper.fields then
      var js := wrapper.fields["json_schema"];
      if js.JObj? && "schema" in js.fields then
        var s := js.fields["schema"];
        if s.JObj? && "$defs" in s.fields && "properties" in s.fields then
          var props := s.fields["properties"];
          if props.JObj? && "answer" in props.fields then
            var answer := props.fields["answer"];
            if answer.JObj? && "$ref" in answer.fields && answer.fields["$ref"].JStr? then
              var ref := answer.fields["$ref"].s;
              var prefix := "#/$defs/";
              var defs := s.fields["$defs"];
              if |ref| >= |prefix| && ref[..|prefix|] == prefix && defs.JObj? && ref[|prefix|..] in defs.fields
              then Some(defs.fields[ref[|prefix|..]])
              else None
            else None
          else None
        else None
      else None
    else None
  }

  /** The wrapper fails exactly on a malformed format or a name that is
      not a string; otherwise its answer
      reference resolves to the original schema (without `$defs`), every
      other original definition is kept, and no definition is added besides
      the one under the original name. */
  lemma AddExplanationFieldSpec(format: Json)
    ensures AddExplanationField(format).Ok? <==>
      format.JObj? && "json_schema" in format.fields
      && format.fields["json_schema"].JObj? && "name" in format.fields["json_schema"].fields
      && format.fields["json_schema"].fields["name"].JStr?
      && "schema" in format.fields["json_schema"].fields
      && format.fields["json_schema"].fields["schema"].JObj?
      && DefsOk(format.fields["json_schema"].fields["schema"])
    ensures AddExplanationField(format).Ok? ==>
      ResolveAnswer(AddExplanationField(format).value) == Some(OriginalSchema(format))
    ensures AddExplanationField(format).Ok? ==>
      var name := format.fields["json_schema"].fields["name"].s;
      var defs := OriginalDefs(format.fields["json_schema"].fields["schema"]);
      var newDefs := AddExplanationField(format).value.fields["json_schema"].fields["schema"].fields["$defs"].fields;
      newDefs.Keys == defs.Keys + {name} && forall k :: k in defs && k != name ==> newDefs[k] == defs[k]
  {
    if AddExplanationField(format).Ok? {
      var name := format.fields["json_schema"].fields["name"].s;
      var prefix := "#/$defs/";
      var ref := prefix + name;
      assert ref[..|prefix|] == prefix;
      assert ref[|prefix|..] == name;
    }
  }

  /** `$defs`, when present, is a dictionary. */
  predicate DefsOk(schema: Json)
    requires schema.JObj?
  {
    "$defs" !in schema.fields || schema.fields["$defs"].JObj?
  }

  /** The schema's own definitions (none when absent). */
  function OriginalDefs(schema: Json): map<string, Json>
    requires schema.JObj? && DefsOk(schema)
  {
    if "$defs" in schema.fields then schema.fields["$defs"].fields else map[]
  }

  /** The fixed parts of the wrapper: explanation and answer are required,
      the explanation is a string, extra properties are refused, and the
      outer format is strict and named ObvConsistencyResponse. */
  lemma WrapperShape(name: string, defs: map<string, Json>)
    ensures var s := Wrapper(name, defs).fields["json_schema"].fields["schema"].fields;
      s["required"] == JArr([JStr("explanation"), JStr("answer")])
      && s["properties"].fields["explanation"].fields["type"] == JStr("string")
      && s["properties"].fields.Keys == {"explanation", "answer"}
      && s["additionalProperties"] == JBool(false)
    ensures Wrapper(name, defs).fields["json_schema"].fields["name"] == JStr(WrapperName)
    ensures Wrapper(name, defs).fields["json_schema"].fields["strict"] == JBool(true)
    ensures Wrapper(name, defs).fields["type"] == JStr("json_schema")
  {
  }

  /** add_explanation_to_response_format on a copy of the parameters:
      None without a response format; otherwise the format is wrapped and
      log probabilities are requested. The caller's dictionary is a value
      and so is never changed. */
  method AddExplanationToResponseFormat(params: map<string, Json>, topLogprobs: int) returns (r: Result<Option<map<string, Json>>>)
    ensures r == Ok(None) <==> "response_format" !in params
    ensures r.Err? <==> "response_format" in params && AddExplanationField(params["response_format"]).Err?
    ensures r.Ok? && r.value.Some? ==>
      var m := r.value.value;
      m.Keys == params.Keys + {"logprobs", "top_logprobs"}
      && m["response_format"] == AddExplanationField(params["response_format"]).value
      && m["logprobs"] == JBool(true) && m["top_logprobs"] == JNum(topLogprobs as real)
      && forall k :: k in params && k !in {"response_format", "logprobs", "top_logprobs"} ==> m[k] == params[k]
  {
    if "response_format" !in params {
      return Ok(None);
    }
    var modified := params;
    var wrapped := AddExplanationField(modified["response_format"]);
    if wrapped.Err? {
      return Err(wrapped.error);
    }
    modified := modified["response_format" := wrapped.value];
    modified := modified["logprobs" := JBool(true)];
    modified := modified["top_logprobs" := JNum(topLogprobs as real)];
    r := Ok(Some(modified));
  }
}
