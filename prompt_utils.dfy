/** tlm/utils/prompt_utils.py: reading the user prompt out of chat
    completion parameters and rendering the request for a judge prompt.
    Python's `str()` of a non-string value is an oracle `show`. */
module PromptUtils {
  import opened Wrappers
  import opened Json

  // ---------------------------------------------------------------------
  // extract_user_prompt

  /** `message["role"] == "user"` (a message with no role raises). */
  predicate IsUser(m: Json) {
    m.JObj? && "role" in m.fields && m.fields["role"] == JStr("user")
  }

  /** The message can be asked for its role, and it is not "user". */
  predicate IsOther(m: Json) {
    m.JObj? && "role" in m.fields && m.fields["role"] != JStr("user")
  }

  /** The reverse scan over messages[..i]: the first message from the end
      whose role is "user" gives its content. */
  function LastUserContent(msgs: seq<Json>, i: nat): Result<Json>
    requires i <= |msgs|
  {
    if i == 0 then Err("ValueError: user prompt not found in the completion params")
    else
      var role :- Index(msgs[i - 1], "role");
      if role == JStr("user") then Index(msgs[i - 1], "content")
      else LastUserContent(msgs, i - 1)
  }

  /** extract_user_prompt as a value. */
  function UserPrompt(params: map<string, Json>): Result<Json>
  {
    var messages := if "messages" in params then params["messages"] else JNull;
    if messages == JNull then Err("ValueError: messages are required in the completion params")
    else if !messages.JArr? then Err("TypeError: messages is not a list")
    else LastUserContent(messages.items, |messages.items|)
  }

  /** extract_user_prompt: a reverse index loop with an early return. */
  method ExtractUserPrompt(params: map<string, Json>) returns (r: Result<Json>)
    ensures r == UserPrompt(params)
    ensures r.Ok? ==> ("messages" in params && params["messages"].JArr? && UserPromptAt(params["messages"].items, r.value))
  {
    var messages := if "messages" in params then params["messages"] else JNull;
    if messages == JNull {
      return Err("ValueError: messages are required in the completion params");
    }
    if !messages.JArr? {
      return Err("TypeError: messages is not a list");
    }
    var msgs := messages.items;
    var i := |msgs|;
    while i > 0
      invariant 0 <= i <= |msgs|
      invariant LastUserContent(msgs, |msgs|) == LastUserContent(msgs, i)
      invariant forall j :: i <= j < |msgs| ==> IsOther(msgs[j])
    {
      var message := msgs[i - 1];
      var role := Index(message, "role");
      if role.Err? {
        return Err(role.error);
      }
      if role.value == JStr("user") {
        r := Index(message, "content");
        if r.Ok? {
          assert LastUserFound(msgs, i - 1, r.value);
        }
        return;
      }
      i := i - 1;
    }
    return Err("ValueError: user prompt not found in the completion params");
  }

  /** `content` is the content of a user message after which every message
      has a role other than "user". */
  predicate UserPromptAt(msgs: seq<Json>, content: Json) {
    exists k :: 0 <= k < |msgs| && LastUserFound(msgs, k, content)
  }

  /** Message k is a user message with this content and no later message
      is from the user. */
  predicate LastUserFound(msgs: seq<Json>, k: nat, content: Json)
    requires k < |msgs|
  {
    IsUser(msgs[k]) && "content" in msgs[k].fields && msgs[k].fields["content"] == content
    && forall j :: k < j < |msgs| ==> IsOther(msgs[j])
  }

  /** The scan finds the content of the last user message, and it reports
      that there is none when every message has a role other than "user". */
  lemma {:induction false} LastUserContentSpec(msgs: seq<Json>, k: nat)
    requires k < |msgs|
    requires IsUser(msgs[k]) && "content" in msgs[k].fields
    requires LastUserFound(msgs, k, msgs[k].fields["content"])
    ensures LastUserContent(msgs, |msgs|) == Ok(msgs[k].fields["content"])
  {
    LastUserFrom(msgs, k, |msgs|);
  }

  /** The scan from any i past k reaches message k. */
  lemma {:induction false} LastUserFrom(msgs: seq<Json>, k: nat, i: nat)
    requires k < i <= |msgs|
    requires IsUser(msgs[k])
    requires forall j :: k < j < |msgs| ==> IsOther(msgs[j])
    ensures LastUserContent(msgs, i) == LastUserContent(msgs, k + 1)
    decreases i
  {
    if i > k + 1 {
      LastUserFrom(msgs, k, i - 1);
    }
  }

  /** Without any user message among well-formed messages the prompt is
      not found. */
  lemma {:induction false} NoUserMessage(msgs: seq<Json>, i: nat)
    requires i <= |msgs|
    requires forall j :: 0 <= j < i ==> IsOther(msgs[j])
    ensures LastUserContent(msgs, i) == Err("ValueError: user prompt not found in the completion params")
  {
    if i > 0 {
      NoUserMessage(msgs, i - 1);
    }
  }

  // ---------------------------------------------------------------------
  // get_response_format_prompt and format_user_request

  /** `str(v)`: a string is itself, anything else is rendered by `show`. */
  function Render(v: Json, show: Json -> string): string {
    if v.JStr? then v.s else show(v)
  }

  /** JSON_FORMAT_PROMPT with the schema filled in. */
  function FormatPrompt(schema: string): (r: string)
    ensures |r| > |schema|
  {
    SchemaPromptHead + schema + SchemaPromptTail
  }

  /** The text JSON_FORMAT_PROMPT puts before and after the schema. */
  const SchemaPromptHead: string := "\n\n## Response Format\n\nThe response must follow this JSON schema:\n\n<json_schema>\n"
  const SchemaPromptTail: string := "\n</json_schema>\n"

  /** get_response_format_prompt: "" for a falsy format; otherwise the
      `json_schema.schema` part when there is one, else the whole format. A
      KeyError falls back to the whole format, while subscripting a value
      that is not a dictionary raises. */
  function ResponseFormatPrompt(rf: Json, show: Json -> string): Result<string>
  {
    if !Truthy(rf) then Ok("")
    else if !rf.JObj? then Err("TypeError: response_format is not subscriptable")
    else if "json_schema" !in rf.fields then Ok(FormatPrompt(Render(rf, show)))
    else
      var js := rf.fields["json_schema"];
      if !js.JObj? then Err("TypeError: json_schema is not subscriptable")
      else if "schema" in js.fields then Ok(FormatPrompt(Render(js.fields["schema"], show)))
      else Ok(FormatPrompt(Render(rf, show)))
  }

  /** The prompt is empty exactly for a falsy format; a non-empty format
      dictionary yields the schema block, around `json_schema.schema` when
      present and around the whole format otherwise. */
  lemma ResponseFormatPromptSpec(rf: Json, show: Json -> string)
    ensures ResponseFormatPrompt(rf, show) == Ok("") <==> !Truthy(rf)
    ensures rf.JObj? && rf.fields != map[] && "json_schema" in rf.fields && rf.fields["json_schema"].JObj?
      && "schema" in rf.fields["json_schema"].fields
      ==> ResponseFormatPrompt(rf, show) == Ok(FormatPrompt(Render(rf.fields["json_schema"].fields["schema"], show)))
    ensures rf.JObj? && rf.fields != map[] && "json_schema" !in rf.fields
      ==> ResponseFormatPrompt(rf, show) == Ok(FormatPrompt(Render(rf, show)))
  {
    if Truthy(rf) {
      var p := ResponseFormatPrompt(rf, show);
      assert p.Ok? ==> |p.value| > 0;
    }
  }

  /** One rendered "role: content\n" line. */
  function MessageLine(m: Json, show: Json -> string): Result<string>
  {
    var role :- Index(m, "role");
    var content :- Index(m, "content");
    Ok(Render(role, show) + ": " + Render(content, show) + "\n")
  }

  /** The lines of msgs, concatenated; the first message that cannot be
      rendered raises. */
  function MessagesText(msgs: seq<Json>, show: Json -> string): Result<string>
  {
    if msgs == [] then Ok("")
    else
      var init :- MessagesText(msgs[..|msgs| - 1], show);
      var line :- MessageLine(msgs[|msgs| - 1], show);
      Ok(init + line)
  }

  /** The line that opens every user request. */
  const RequestHeader: string := "Input Messages:\n"

  /** The response format a request carries: an empty dictionary (falsy)
      when it has none. */
  function RequestFormat(params: map<string, Json>): Json
  {
    if "response_format" in params then params["response_format"] else JObj(map[])
  }

  /** format_user_request as a value. */
  function UserRequest(params: map<string, Json>, show: Json -> string): Result<string>
  {
    if "messages" !in params then Err("KeyError: messages")
    else if !params["messages"].JArr? then Err("TypeError: messages is not a list")
    else
      var text :- MessagesText(params["messages"].items, show);
      var prompt :- ResponseFormatPrompt(RequestFormat(params), show);
      Ok(RequestHeader + text + prompt)
  }

  /** format_user_request: the messages rendered one at a time, then the
      response-format prompt appended. */
  method FormatUserRequest(params: map<string, Json>, show: Json -> string) returns (r: Result<string>)
    ensures r == UserRequest(params, show)
  {
    if "messages" !in params {
      return Err("KeyError: messages");
    }
    if !params["messages"].JArr? {
      return Err("TypeError: messages is not a list");
    }
    var text := RenderMessages(params["messages"].items, show);
    if text.Err? {
      return Err(text.error);
    }
    var prompt := ResponseFormatPrompt(RequestFormat(params), show);
    if prompt.Err? {
      return Err(prompt.error);
    }
    r := Ok(RequestHeader + text.value + prompt.value);
  }

  /** The loop of format_user_request: the text grown one line at a time;
      the first message that cannot be rendered raises. */
  method RenderMessages(msgs: seq<Json>, show: Json -> string) returns (r: Result<string>)
    ensures r == MessagesText(msgs, show)
  {
    var text := "";
    for i := 0 to |msgs|
      invariant MessagesText(msgs[..i], show) == Ok(text)
    {
      var line := MessageLine(msgs[i], show);
      MessagesTextSnoc(msgs, i, show);
      if line.Err? {
        MessagesTextErr(msgs, i + 1, show);
        return Err(line.error);
      }
      text := text + line.value;
    }
    assert msgs[..|msgs|] == msgs;
    r := Ok(text);
  }

  /** One more message extends the text by its line, or fails with it. */
  lemma MessagesTextSnoc(msgs: seq<Json>, i: nat, show: Json -> string)
    requires i < |msgs| && MessagesText(msgs[..i], show).Ok?
    ensures MessageLine(msgs[i], show).Err? ==>
      MessagesText(msgs[..i + 1], show) == Err(MessageLine(msgs[i], show).error)
    ensures MessageLine(msgs[i], show).Ok? ==>
      MessagesText(msgs[..i + 1], show) == Ok(MessagesText(msgs[..i], show).value + MessageLine(msgs[i], show).value)
  {
    assert msgs[..i + 1][..i] == msgs[..i];
    assert msgs[..i + 1][i] == msgs[i];
  }

  /** An error in the first i messages is the error of the whole list. */
  lemma {:induction false} MessagesTextErr(msgs: seq<Json>, i: nat, show: Json -> string)
    requires i <= |msgs|
    requires MessagesText(msgs[..i], show).Err?
    ensures MessagesText(msgs, show) == MessagesText(msgs[..i], show)
    decreases |msgs| - i
  {
    if i < |msgs| {
      assert msgs[..i + 1][..i] == msgs[..i];
      MessagesTextErr(msgs, i + 1, show);
    } else {
      assert msgs[..i] == msgs;
    }
  }

  /** Rendering succeeds exactly when every message has a role and a
      content. */
  lemma {:induction false} MessagesTextOk(msgs: seq<Json>, show: Json -> string)
    ensures MessagesText(msgs, show).Ok? <==> forall k :: 0 <= k < |msgs| ==> MessageLine(msgs[k], show).Ok?
  {
    if msgs != [] {
      var init := msgs[..|msgs| - 1];
      MessagesTextOk(init, show);
      assert forall k :: 0 <= k < |init| ==> init[k] == msgs[k];
    }
  }

  /** When rendering succeeds, the text is the messages' lines in order. */
  lemma {:induction false} MessagesTextLines(msgs: seq<Json>, show: Json -> string)
    requires MessagesText(msgs, show).Ok?
    ensures MessagesText(msgs, show).value == Lines(msgs, show)
  {
    if msgs != [] {
      MessagesTextLines(msgs[..|msgs| - 1], show);
    }
  }

  /** The rendered lines of well-formed messages, in order. */
  function Lines(msgs: seq<Json>, show: Json -> string): string
  {
    if msgs == [] then ""
    else
      var line := MessageLine(msgs[|msgs| - 1], show);
      Lines(msgs[..|msgs| - 1], show) + (if line.Ok? then line.value else "")
  }

  /** The request is the header, the lines of all messages, and the
      response-format prompt, when every part can be rendered. */
  lemma UserRequestSpec(params: map<string, Json>, show: Json -> string)
    requires "messages" in params && params["messages"].JArr?
    requires forall k :: 0 <= k < |params["messages"].items| ==> MessageLine(params["messages"].items[k], show).Ok?
    requires ResponseFormatPrompt(RequestFormat(params), show).Ok?
    ensures UserRequest(params, show) == Ok("Input Messages:\n" + Lines(params["messages"].items, show)
      + ResponseFormatPrompt(RequestFormat(params), show).value)
  {
    MessagesTextOk(params["messages"].items, show);
    MessagesTextLines(params["messages"].items, show);
  }
}
