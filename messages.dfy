/** The message endpoints of the session API: creating and updating a
    message, and the completion endpoint that stores a user message and the
    assistant's reply together. */
module MessageRoutes {
  import opened Wrappers
  import opened Domain
  import opened Persistence

  /** The fields of a `POST /messages` body. */
  datatype MessageRequest = MessageRequest(
    sessionId: Option<nat>,
    userId: Option<nat>,
    content: Option<string>,
    role: Option<Role>)

  const MissingContentText: string := "메시지 내용이 필요합니다"
  const MissingMessageText: string := "메시지가 필요합니다"
  const IntegrityErrorText: string := "IntegrityError: messages.session_id"

  /** `create_message`. A body without `content` is refused before anything
      is written; the role defaults to `user`. A message whose session is
      missing or unknown violates the required foreign key, so its commit
      raises and nothing is written. */
  method CreateMessage(store: Store, req: MessageRequest) returns (reply: Reply<Message>)
    requires store.Valid() && store.Idle()
    modifies store
    ensures store.Valid() && store.Idle()
    ensures store.sessions == old(store.sessions) && store.users == old(store.users)
    ensures req.content.None? ==> reply == Error(400, MissingContentText)
    ensures reply.Success? <==>
              req.content.Some? && req.sessionId.Some? && req.sessionId.value in old(store.sessions)
    ensures !reply.Success? ==> store.committed == old(store.committed)
    ensures req.content.Some? && !(req.sessionId.Some? && req.sessionId.value in old(store.sessions)) ==>
              reply == Error(500, IntegrityErrorText)
    ensures reply.Success? ==>
              var sid := req.sessionId.value;
              var role := if req.role.Some? then req.role.value else User;
              && reply == Success(201, Message(old(store.nextId), sid, req.userId, role, req.content.value, old(store.clock)))
              && store.committed == old(store.committed)[sid := old(store.committed)[sid] + [reply.value]]
  {
    if req.content.None? {
      return Error(400, MissingContentText);
    }
    if req.sessionId.None? || req.sessionId.value !in store.sessions {
      return Error(500, IntegrityErrorText);
    }
    var sid := req.sessionId.value;
    var role := if req.role.Some? then req.role.value else User;
    var m := AddAndCommit(store, sid, req.userId, role, req.content.value);
    reply := Success(201, m);
  }

  /** The fields of a `PUT /messages/<id>` body. */
  datatype MessagePatch = MessagePatch(content: Patch<string>, role: Patch<Role>)

  /** The row after `update_message` assigns `data.get(key, current)` to
      `content` and `role`. */
  function MergeMessage(m: Message, p: MessagePatch): (r: Message)
    ensures r.id == m.id && r.sessionId == m.sessionId && r.userId == m.userId && r.timestamp == m.timestamp
    ensures r.content == (if p.content.Put? then p.content.value else m.content)
    ensures r.role == (if p.role.Put? then p.role.value else m.role)
  {
    m.(content := Merge(p.content, m.content), role := Merge(p.role, m.role))
  }

  /** Sending the same PUT body twice has the effect of sending it once. */
  lemma MergeMessageIdempotent(m: Message, p: MessagePatch)
    ensures MergeMessage(MergeMessage(m, p), p) == MergeMessage(m, p)
  {
  }

  /** Message `id` is stored at position `i` of session `sid`'s log. */
  predicate StoredAt(c: map<nat, seq<Message>>, id: nat, sid: nat, i: nat) {
    sid in c && i < |c[sid]| && c[sid][i].id == id
  }

  /** `update_message`. The message is looked up by id; a body that is not a
      JSON object (None) makes `data.get` raise, a 500. */
  method UpdateMessage(store: Store, id: nat, body: Option<MessagePatch>) returns (reply: Reply<Message>)
    requires store.Valid() && store.Idle()
    modifies store
    ensures store.Valid() && store.Idle()
    ensures store.sessions == old(store.sessions) && store.users == old(store.users)
    ensures store.pending == old(store.pending) && store.pendingSessions == old(store.pendingSessions)
    ensures reply.Error? ==> store.committed == old(store.committed)
    ensures reply == Error(404, NotFoundText) <==>
              !exists sid: nat, i: nat :: StoredAt(old(store.committed), id, sid, i)
    ensures (exists sid: nat, i: nat :: StoredAt(old(store.committed), id, sid, i)) && body.None? ==>
              reply.Error? && reply.status == 500
    ensures (exists sid: nat, i: nat :: StoredAt(old(store.committed), id, sid, i)) && body.Some? ==>
              reply.Success?
    ensures reply.Success? ==>
              body.Some? && reply.status == 200 &&
              exists sid: nat, i: nat :: StoredAt(old(store.committed), id, sid, i)
                && reply.value == MergeMessage(old(store.committed)[sid][i], body.value)
                && store.committed == old(store.committed)[sid := old(store.committed)[sid][i := reply.value]]
  {
    var c: map<nat, seq<Message>> := store.committed;
    if !exists sid: nat, i: nat :: sid in c && 0 <= i < |c[sid]| && c[sid][i].id == id {
      return Error(404, NotFoundText);
    }
    var sid: nat, i: nat :| sid in c && 0 <= i < |c[sid]| && c[sid][i].id == id;
    assert StoredAt(c, id, sid, i);
    if body.None? {
      return Error(500, "'NoneType' object has no attribute 'get'");
    }
    var m := MergeMessage(c[sid][i], body.value);
    store.WriteMessage(sid, i, m);
    reply := Success(200, m);
    assert StoredAt(old(store.committed), id, sid, i);
  }

  // ---------------------------------------------------------------------
  // create_completion

  const AssistantInstruction: string :=
    "당신은 도움이 되는 AI 어시스턴트입니다. 응답은 간결하고 명확하게 해주세요."

  /** The prompt of `create_completion`: the system instruction, the
      session's history, then the new user turn. The history can be read
      back from the prompt: it is everything between the first and the last
      turn, in the session's order. */
  function SessionPrompt(history: seq<Message>, content: string): (p: seq<Turn>)
    ensures |p| == |history| + 2
    ensures p[0] == Turn(System, AssistantInstruction)
    ensures p[|p| - 1] == Turn(User, content)
    ensures p[1..|p| - 1] == TurnsOf(history)
  {
    var p := [Turn(System, AssistantInstruction)] + TurnsOf(history) + [Turn(User, content)];
    assert p[1..|p| - 1] == TurnsOf(history);
    p
  }

  /** The fields of a completion request body. */
  datatype CompletionRequest = CompletionRequest(content: Option<string>, userId: Option<nat>)

  /** The two messages a successful completion returns. */
  datatype Exchange = Exchange(userMessage: Message, assistantMessage: Message)

  /** `create_completion`. The unknown-session 404 is raised inside the `try`
      whose handler turns every exception into a 500. On success the user
      message and the assistant message are committed together; on a failed
      completion both are rolled back. */
  method CreateCompletion(store: Store, sid: nat, body: Option<CompletionRequest>, outcome: Completion)
    returns (reply: Reply<Exchange>, call: Option<GatewayCall>)
    requires store.Valid() && store.Idle()
    modifies store
    ensures store.Valid() && store.Idle()
    ensures store.sessions == old(store.sessions) && store.users == old(store.users)
    ensures sid !in old(store.sessions) ==> reply == Error(500, NotFoundText) && call == None
    ensures sid in old(store.sessions) && (body.None? || body.value.content.None?) ==>
              reply == Error(400, MissingMessageText) && call == None
    ensures sid in old(store.sessions) && body.Some? && body.value.content.Some? ==>
              call == Some(GatewayCall(SessionPrompt(old(store.History(sid)), body.value.content.value), DefaultMaxTokens))
    ensures reply.Success? <==>
              sid in old(store.sessions) && body.Some? && body.value.content.Some? && outcome.Replied?
    ensures !reply.Success? ==> store.committed == old(store.committed)
    ensures sid in old(store.sessions) && body.Some? && body.value.content.Some? && outcome.Failed? ==>
              reply == Error(500, outcome.cause)
    ensures reply.Success? ==>
              var u, a := reply.value.userMessage, reply.value.assistantMessage;
              && reply.status == 200
              && u == Message(old(store.nextId), sid, body.value.userId, User, body.value.content.value, old(store.clock))
              && a == Message(old(store.nextId) + 1, sid, body.value.userId, Assistant, outcome.text, old(store.clock) + 1)
              && store.committed == old(store.committed)[sid := old(store.History(sid)) + [u, a]]
  {
    if sid !in store.sessions {
      return Error(500, NotFoundText), None;
    }
    if body.None? || body.value.content.None? {
      return Error(400, MissingMessageText), None;
    }
    reply, call := Converse(store, sid, body.value.userId, body.value.content.value, outcome);
  }

  /** The part of `create_completion` after its checks: the user message is
      added, the prompt is built from the committed history, and the
      exchange is committed when the call succeeds or rolled back when it
      fails. */
  method Converse(store: Store, sid: nat, userId: Option<nat>, content: string, outcome: Completion)
    returns (reply: Reply<Exchange>, call: Option<GatewayCall>)
    requires store.Valid() && store.Idle() && sid in store.sessions
    modifies store
    ensures store.Valid() && store.Idle()
    ensures store.sessions == old(store.sessions) && store.users == old(store.users)
    ensures call == Some(GatewayCall(SessionPrompt(old(store.History(sid)), content), DefaultMaxTokens))
    ensures reply.Success? <==> outcome.Replied?
    ensures outcome.Failed? ==> reply == Error(500, outcome.cause) && store.committed == old(store.committed)
    ensures reply.Success? ==>
              var u, a := reply.value.userMessage, reply.value.assistantMessage;
              && reply.status == 200
              && u == Message(old(store.nextId), sid, userId, User, content, old(store.clock))
              && a == Message(old(store.nextId) + 1, sid, userId, Assistant, outcome.text, old(store.clock) + 1)
              && store.committed == old(store.committed)[sid := old(store.History(sid)) + [u, a]]
  {
    var u := store.Add(sid, userId, User, content);
    call := Some(GatewayCall(SessionPrompt(store.History(sid), content), DefaultMaxTokens));
    if outcome.Failed? {
      store.Rollback();
      return Error(500, outcome.cause), call;
    }
    var a := Answer(store, sid, userId, outcome.text, u);
    reply := Success(200, Exchange(u, a));
  }

  /** The assistant message is added beside the pending user message and
      both are committed at the end of the session's log. */
  method Answer(store: Store, sid: nat, userId: Option<nat>, text: string, ghost u: Message) returns (a: Message)
    requires store.Valid() && sid in store.sessions
    requires store.pendingSessions == map[] && store.pending == [u] && u.sessionId == sid
    modifies store
    ensures store.Valid() && store.Idle()
    ensures store.sessions == old(store.sessions) && store.users == old(store.users)
    ensures a == Message(old(store.nextId), sid, userId, Assistant, text, old(store.clock))
    ensures store.committed == old(store.committed)[sid := old(store.committed)[sid] + [u, a]]
  {
    a := store.Add(sid, userId, Assistant, text);
    CommitToSession(store, sid, [u, a]);
  }
}
