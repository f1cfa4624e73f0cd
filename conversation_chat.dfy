/** The conversation chat API: the check of the completion service settings
    made when the module loads, the window of recent messages sent as
    context, and `create_chat_completion`, which commits the user message
    before calling the service. */
module ConversationChat {
  import opened Wrappers
  import opened Text
  import opened Domain
  import opened Persistence

  // ---------------------------------------------------------------------
  // Settings check

  const KeyError: string := "Azure OpenAI API key is not properly configured"
  const EndpointError: string := "Azure OpenAI endpoint is not properly configured"
  const DeploymentError: string := "Azure OpenAI deployment name is not properly configured"

  const PlaceholderKey: string := "dummy-key"
  const PlaceholderEndpoint: string := "dummy-endpoint"
  const PlaceholderDeployment: string := "dummy-deployment"

  /** The message of the first check that fails, in the order key, endpoint,
      deployment; None when the settings are accepted. */
  function CheckSettings(key: string, endpoint: string, deployment: string): (r: Option<string>)
    ensures r.Some? ==> r.value in {KeyError, EndpointError, DeploymentError}
  {
    if key == [] || key == PlaceholderKey then Some(KeyError)
    else if endpoint == [] || IsInfix(PlaceholderEndpoint, endpoint) then Some(EndpointError)
    else if deployment == [] || deployment == PlaceholderDeployment then Some(DeploymentError)
    else None
  }

  predicate KeyConfigured(key: string) {
    |key| > 0 && key != PlaceholderKey
  }

  predicate EndpointConfigured(endpoint: string) {
    |endpoint| > 0 && !exists i: nat :: i <= |endpoint| && OccursAt(PlaceholderEndpoint, endpoint, i)
  }

  predicate DeploymentConfigured(deployment: string) {
    |deployment| > 0 && deployment != PlaceholderDeployment
  }

  /** The settings are accepted exactly when all three are configured, and
      a rejection names the first one that is not. */
  lemma SettingsAccepted(key: string, endpoint: string, deployment: string)
    ensures CheckSettings(key, endpoint, deployment).None? <==>
              KeyConfigured(key) && EndpointConfigured(endpoint) && DeploymentConfigured(deployment)
    ensures !KeyConfigured(key) ==> CheckSettings(key, endpoint, deployment) == Some(KeyError)
    ensures KeyConfigured(key) && !EndpointConfigured(endpoint) ==>
              CheckSettings(key, endpoint, deployment) == Some(EndpointError)
    ensures KeyConfigured(key) && EndpointConfigured(endpoint) && !DeploymentConfigured(deployment) ==>
              CheckSettings(key, endpoint, deployment) == Some(DeploymentError)
  {
  }

  /** The defaults of the settings class fail every one of the three checks;
      the key check, which comes first, is the one reported. */
  lemma DefaultsRejected(key: string, endpoint: string, deployment: string)
    requires key == "dummy-key"
    requires endpoint == "https://dummy-endpoint.openai.azure.com/"
    requires deployment == "dummy-deployment"
    ensures !KeyConfigured(key) && !EndpointConfigured(endpoint) && !DeploymentConfigured(deployment)
    ensures CheckSettings(key, endpoint, deployment) == Some(KeyError)
  {
    var pre, post := "https://", ".openai.azure.com/";
    assert endpoint == pre + PlaceholderEndpoint + post;
    assert (pre + PlaceholderEndpoint + post)[|pre|..|pre| + |PlaceholderEndpoint|] == PlaceholderEndpoint;
    assert OccursAt(PlaceholderEndpoint, endpoint, |pre|);
  }

  // ---------------------------------------------------------------------
  // The context window

  /** `reversed(...)` */
  function Reverse<T>(s: seq<T>): (r: seq<T>)
    ensures |r| == |s|
    ensures forall i :: 0 <= i < |s| ==> r[i] == s[|s| - 1 - i]
  {
    if s == [] then [] else Reverse(s[1..]) + [s[0]]
  }

  /** SQL `LIMIT n`: the first `n` rows. */
  function Limit<T>(s: seq<T>, n: nat): seq<T> {
    if |s| <= n then s else s[..n]
  }

  /** Newest first: stamps strictly decrease along the sequence. */
  predicate NewestFirst(s: seq<Message>) {
    forall i, j :: 0 <= i < j < |s| ==> s[i].timestamp > s[j].timestamp
  }

  /** Ordering a chronological log by `created_at` descending is reversing
      it; the reversal keeps exactly the log's messages. */
  lemma ReverseIsNewestFirst(log: seq<Message>)
    requires Chronological(log)
    ensures NewestFirst(Reverse(log))
    ensures multiset(Reverse(log)) == multiset(log)
  {
    ReverseMultiset(log);
  }

  lemma {:induction false} ReverseMultiset<T>(s: seq<T>)
    ensures multiset(Reverse(s)) == multiset(s)
  {
    if s != [] {
      ReverseMultiset(s[1..]);
      assert s == [s[0]] + s[1..];
    }
  }

  /** The messages sent as context: the `n` newest messages of the log,
      put back oldest first. */
  function Recent(log: seq<Message>, n: nat): (w: seq<Message>)
    ensures |w| == if |log| <= n then |log| else n
    ensures w == log[|log| - |w|..]
  {
    var k := if |log| <= n then |log| else n;
    assert Limit(Reverse(log), n) == Reverse(log)[..k];
    ReversedPrefix(log, k);
    Reverse(Limit(Reverse(log), n))
  }

  /** The reversal of the first `k` elements of the reversal is the last
      `k` elements. */
  lemma ReversedPrefix<T>(s: seq<T>, k: nat)
    requires k <= |s|
    ensures Reverse(Reverse(s)[..k]) == s[|s| - k..]
  {
    var r := Reverse(s);
    MirroredPrefix(s, r, k, Reverse(r[..k]));
  }

  /** `w` mirrors the first `k` elements of `r`, which mirrors `s`: so `w`
      is the last `k` elements of `s`. */
  lemma MirroredPrefix<T>(s: seq<T>, r: seq<T>, k: nat, w: seq<T>)
    requires |r| == |s| && k <= |s| && |w| == k
    requires forall j :: 0 <= j < |s| ==> r[j] == s[|s| - 1 - j]
    requires forall i :: 0 <= i < k ==> w[i] == r[..k][k - 1 - i]
    ensures w == s[|s| - k..]
  {
    forall i | 0 <= i < k ensures w[i] == s[|s| - k + i] {
      assert w[i] == r[k - 1 - i];
    }
  }

  /** The window of a chronological log is chronological, holds at most `n`
      messages, and ends with the log's last message. */
  lemma RecentWindow(log: seq<Message>, n: nat)
    requires Chronological(log)
    ensures Chronological(Recent(log, n))
    ensures |Recent(log, n)| == if |log| <= n then |log| else n
    ensures n > 0 && log != [] ==> Recent(log, n)[|Recent(log, n)| - 1] == log[|log| - 1]
  {
        var k := if |log| <= n then |log| else n;
    ChronologicalSuffix(log, |log| - k);
  }

  lemma ChronologicalSuffix(log: seq<Message>, from: nat)
    requires Chronological(log) && from <= |log|
    ensures Chronological(log[from..])
  {
    var w := log[from..];
    forall i, j | 0 <= i < j < |w| ensures w[i].timestamp < w[j].timestamp {
      assert w[i] == log[from + i] && w[j] == log[from + j];
    }
  }

  // ---------------------------------------------------------------------
  // create_chat_completion

  /** The fields of the request body. */
  datatype ChatRequest = ChatRequest(message: Option<string>)

  /** The JSON object of a successful reply. */
  datatype ChatAnswer = ChatAnswer(conversationId: nat, message: string, createdAt: nat)

  const ConnectionErrorPrefix: string := "Connection error: "
  const MessageRequiredText: string := "Message is required"
  const NoBodyText: string := "'NoneType' object has no attribute 'get'"
  const ChatMaxTokens: nat := 800
  const WindowSize: nat := 10

  /** The body carries a truthy `message`. */
  predicate HasMessage(body: Option<ChatRequest>) {
    body.Some? && body.value.message.Some? && body.value.message.value != []
  }

  /** The prompt sent for a conversation whose log, user message included,
      is `log`: the window's turns, with no system turn. */
  function WindowPrompt(log: seq<Message>): (p: seq<Turn>)
    ensures |p| == if |log| <= WindowSize then |log| else WindowSize
    ensures p == TurnsOf(log[|log| - |p|..])
  {
    TurnsOf(Recent(log, WindowSize))
  }

  /** The prompt ends with the user turn just committed, and holds at most
      ten turns. */
  lemma WindowPromptEndsWithUser(history: seq<Message>, u: Message)
    requires Chronological(history + [u])
    ensures var p := WindowPrompt(history + [u]);
            |p| == if |history| < WindowSize then |history| + 1 else WindowSize
    ensures var p := WindowPrompt(history + [u]);
            p[|p| - 1] == Turn(u.role, u.content)
  {
    RecentWindow(history + [u], WindowSize);
  }

  /** `create_chat_completion`. Every exception, the unknown conversation's
      404 included, ends in a 500 prefixed "Connection error: ". The user
      message is committed before the service is called, so a failed call
      leaves it stored. */
  method CreateChatCompletion(store: Store, cid: nat, body: Option<ChatRequest>, outcome: Completion)
    returns (reply: Reply<ChatAnswer>, call: Option<GatewayCall>)
    requires store.Valid() && store.Idle()
    modifies store
    ensures store.Valid() && store.Idle()
    ensures store.sessions == old(store.sessions) && store.users == old(store.users)
    ensures cid !in old(store.sessions) ==>
              reply == Error(500, ConnectionErrorPrefix + NotFoundText) && call == None
    ensures cid in old(store.sessions) && body.None? ==>
              reply == Error(500, ConnectionErrorPrefix + NoBodyText) && call == None
    ensures cid in old(store.sessions) && body.Some? && !HasMessage(body) ==>
              reply == Error(400, MessageRequiredText) && call == None
    ensures !(cid in old(store.sessions) && HasMessage(body)) ==> store.committed == old(store.committed)
    ensures cid in old(store.sessions) && HasMessage(body) ==>
              var u := Message(old(store.nextId), cid, None, User, body.value.message.value, old(store.clock));
              var log := old(store.committed)[cid] + [u];
              && call == Some(GatewayCall(WindowPrompt(log), ChatMaxTokens))
              && (outcome.Failed? ==>
                    reply == Error(500, ConnectionErrorPrefix + outcome.cause)
                    && store.committed == old(store.committed)[cid := log])
              && (outcome.Replied? ==>
                    reply == Success(200, ChatAnswer(cid, outcome.text, old(store.clock) + 1))
                    && store.committed == old(store.committed)[cid := log +
                         [Message(old(store.nextId) + 1, cid, None, Assistant, outcome.text, old(store.clock) + 1)]])
  {
    if cid !in store.sessions {
      store.Rollback();
      return Error(500, ConnectionErrorPrefix + NotFoundText), None;
    }
    if body.None? {
      store.Rollback();
      return Error(500, ConnectionErrorPrefix + NoBodyText), None;
    }
    if !HasMessage(body) {
      return Error(400, MessageRequiredText), None;
    }
    reply, call := Converse(store, cid, body.value.message.value, outcome);
  }

  /** The part of `create_chat_completion` after its checks: the user
      message is committed, the window is read back, and the assistant
      message is committed when the call succeeds. */
  method Converse(store: Store, cid: nat, message: string, outcome: Completion)
    returns (reply: Reply<ChatAnswer>, call: Option<GatewayCall>)
    requires store.Valid() && store.Idle() && cid in store.sessions
    modifies store
    ensures store.Valid() && store.Idle()
    ensures store.sessions == old(store.sessions) && store.users == old(store.users)
    ensures var u := Message(old(store.nextId), cid, None, User, message, old(store.clock));
            var log := old(store.committed)[cid] + [u];
            && call == Some(GatewayCall(WindowPrompt(log), ChatMaxTokens))
            && (outcome.Failed? ==>
                  reply == Error(500, ConnectionErrorPrefix + outcome.cause)
                  && store.committed == old(store.committed)[cid := log])
            && (outcome.Replied? ==>
                  reply == Success(200, ChatAnswer(cid, outcome.text, old(store.clock) + 1))
                  && store.committed == old(store.committed)[cid := log +
                       [Message(old(store.nextId) + 1, cid, None, Assistant, outcome.text, old(store.clock) + 1)]])
  {
    ghost var c0 := store.committed;
    var u := AddAndCommit(store, cid, None, User, message);
    call := Some(GatewayCall(WindowPrompt(store.committed[cid]), ChatMaxTokens));
    reply := Answer(store, cid, outcome);
    if outcome.Replied? {
      UpdateTwice(c0, cid, c0[cid] + [u], store.committed[cid]);
    }
  }

  /** Updating a key twice keeps only the second value. */
  lemma UpdateTwice<K, V>(m: map<K, V>, k: K, x: V, y: V)
    ensures m[k := x][k := y] == m[k := y]
  {
  }

  /** What follows the call: the failure is reported and the rollback finds
      nothing to discard, or the assistant message is committed. */
  method Answer(store: Store, cid: nat, outcome: Completion) returns (reply: Reply<ChatAnswer>)
    requires store.Valid() && store.Idle() && cid in store.sessions
    modifies store
    ensures store.Valid() && store.Idle()
    ensures store.sessions == old(store.sessions) && store.users == old(store.users)
    ensures outcome.Failed? ==>
              reply == Error(500, ConnectionErrorPrefix + outcome.cause) && store.committed == old(store.committed)
    ensures outcome.Replied? ==>
              reply == Success(200, ChatAnswer(cid, outcome.text, old(store.clock)))
              && store.committed == old(store.committed)[cid := old(store.committed)[cid] +
                   [Message(old(store.nextId), cid, None, Assistant, outcome.text, old(store.clock))]]
  {
    if outcome.Failed? {
      store.Rollback();
      return Error(500, ConnectionErrorPrefix + outcome.cause);
    }
    var a := AddAndCommit(store, cid, None, Assistant, outcome.text);
    reply := Success(200, ChatAnswer(cid, a.content, a.timestamp));
  }
}
