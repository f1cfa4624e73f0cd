/** The stateless chat endpoint: the prompt is the system instruction and the
    user's message, with a history supplied by the client spliced in between;
    nothing is stored. */
module StatelessChat {
  import opened Wrappers
  import opened Text
  import opened Domain

  /** The fields of the request body; `history` is None when the key is absent. */
  datatype ChatBody = ChatBody(message: Option<string>, history: Option<seq<Turn>>)

  /** The JSON object of a successful reply. */
  datatype ChatAnswer = ChatAnswer(message: string, response: string)

  const MissingMessageText: string := "메시지가 필요합니다"
  const Instruction: string :=
    "당신은 도움이 되는 AI 어시스턴트입니다. 응답은 간결하고 명확하게 해주세요."

  /** The prompt list after `messages[1:1] = history`: `base` with
      `history` inserted at index 1. */
  method Splice(base: seq<Turn>, history: seq<Turn>) returns (messages: seq<Turn>)
    requires |base| >= 1
    ensures |messages| == |base| + |history|
    ensures messages[..1] == base[..1]
    ensures messages[1..1 + |history|] == history
    ensures messages[1 + |history|..] == base[1..]
  {
    messages := base;
    messages := messages[..1] + history + messages[1..];
  }

  /** The prompt `chat_completion` is meant to send: the system turn, the
      client's history, then the user turn. */
  function Prompt(message: string, h: seq<Turn>): (p: seq<Turn>)
    ensures |p| == 2 + |h|
    ensures p[0] == Turn(System, Instruction)
    ensures p[|p| - 1] == Turn(User, message)
    ensures p[1..|p| - 1] == h
  {
    var p := [Turn(System, Instruction)] + h + [Turn(User, message)];
    assert p[1..|p| - 1] == h;
    p
  }

  /** The list is built as `[system, user]`, and a history, when the body
      has one, is spliced in at index 1. */
  method BuildPrompt(message: string, history: Option<seq<Turn>>) returns (messages: seq<Turn>)
    ensures messages == Prompt(message, if history.Some? then history.value else [])
  {
    messages := [Turn(System, Instruction), Turn(User, message)];
    ghost var base := messages;
    if history.Some? {
      messages := Splice(messages, history.value);
      ghost var h := history.value;
      assert messages == messages[..1] + messages[1..1 + |h|] + messages[1 + |h|..];
      assert messages == base[..1] + h + base[1..];
    } else {
      assert messages == [Turn(System, Instruction)] + [] + [Turn(User, message)];
    }
  }

  /** `chat_completion`. `outcome` is what the completion call, client
      construction included, ends in. Nothing is stored on any path. */
  method ChatCompletion(body: Option<ChatBody>, outcome: Completion)
    returns (reply: Reply<ChatAnswer>, call: Option<GatewayCall>)
    ensures body.None? || body.value.message.None? ==>
              reply == Error(400, MissingMessageText) && call == None
    ensures body.Some? && body.value.message.Some? ==>
              var h := if body.value.history.Some? then body.value.history.value else [];
              call == Some(GatewayCall(Prompt(body.value.message.value, h), DefaultMaxTokens))
    ensures body.Some? && body.value.message.Some? && outcome.Failed? ==>
              reply == Error(500, outcome.cause)
    ensures body.Some? && body.value.message.Some? && outcome.Replied? ==>
              reply == Success(200, ChatAnswer(body.value.message.value, Strip(outcome.text)))
  {
    if body.None? || body.value.message.None? {
      return Error(400, MissingMessageText), None;
    }
    var message := body.value.message.value;
    var messages := BuildPrompt(message, body.value.history);
    call := Some(GatewayCall(messages, DefaultMaxTokens));
    match outcome
    case Failed(cause) =>
      reply := Error(500, cause);
    case Replied(text) =>
      reply := Success(200, ChatAnswer(message, Strip(text)));
  }

  /** Without a history the prompt is the system turn and the user turn. */
  lemma PromptWithoutHistory(message: string)
    ensures Prompt(message, []) == [Turn(System, Instruction), Turn(User, message)]
  {
  }

  /** The returned response carries no leading or trailing whitespace, and
      stripping it again changes nothing. */
  lemma ResponseStripped(text: string)
    ensures Stripped(Strip(text))
    ensures Strip(Strip(text)) == Strip(text)
  {
    StripIdempotent(text);
  }
}
