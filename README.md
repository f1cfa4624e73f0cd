# A verified model of the seobi chat backend's request rules

This project models the rules inside the Flask chat backend's handlers.
The HTTP plumbing is left out. Four parts are covered:

- **Sessions** (`app/routes/session.py`):
  - `parse_title_and_description`, the marker parser, read as the regular expression `marker\s*[:：]\s*(.*)` under `re.search`;
  - the separate rule `create_session` applies to the completion reply, with its `content[:20]` / `content[:100]` fallback;
  - creating a session together with its first message;
  - the one-shot `finish_session`;
  - the field-merging `update_session`.
- **Messages** (`app/routes/message.py`):
  - `create_message` with its default role;
  - the field-merging `update_message`;
  - `create_completion`, which adds the user message, builds `[system] + history + [user]`, calls the completion service and commits the user and assistant messages together, or rolls both back.
- **Conversation chat** (`app/api/chat.py`):
  - the check of the service settings made when the module loads;
  - the window of the ten newest messages, put back oldest first;
  - `create_chat_completion`, which commits the user message *before* calling the service, so a failed call leaves it stored.
- **Stateless chat** (`app/routes/chat.py`):
  - `chat_completion` builds `[system, user]` and inserts a client-supplied history at index 1 (`messages[1:1] = history`);
  - it returns the reply stripped, and stores nothing.

The ORM's unit of work is a class `Persistence.Store`. It holds:

- the committed session rows;
- the committed messages, as a map from session id to that session's log;
- the rows added in the open transaction;
- the next fresh id and a clock;
- methods `AddSession` (add and flush), `Add`, `Commit`, `Rollback`, `WriteSession` and `WriteMessage`.

Its invariant `Valid` says two things:

- every session's log is *stamped*: its stamps strictly increase, they lie below the clock value of the last commit, and the log holds only that session's messages;
- pending messages carry stamps from that value on.

Each handler is a method on the store. Its postcondition states the whole new committed state and the reply.

The completion service is not called. Each handler takes its outcome as a parameter, `Completion = Replied(text) | Failed(cause)`. It returns the `GatewayCall` (prompt and token budget) it would have sent. `cause` is the exception text as it reaches the handler. For the shared helper `get_completion` that text carries its `"OpenAI API 호출 중 오류 발생: "` prefix.

Two behaviours of the code worth noting:

- An unknown session in `create_completion` ends in 500, not 404. `get_or_404` raises inside a `try` whose handler turns every exception into a 500. The same holds for an unknown conversation in `create_chat_completion`, whose error text gets the `"Connection error: "` prefix.
- Take the reply `"타이틀: Greeting\n설명: A greeting"`. Through `create_session`'s rule it gives the title `"타이틀: Greeting"`, because only `제목:` is removed. `parse_title_and_description` would give `"Greeting"`, but `create_session` does not call it. Both readings are proved: `Titles.GreetingExample` and `Titles.GreetingParsed`.

## Model

| member | source | states |
|---|---|---|
| Domain.TurnsOf | app/routes/message.py:112-115 | the prompt entries keep the messages' order and count, each entry carrying its message's role and content |
| Text.Strip | app/routes/chat.py:31 | `strip()` returns a text with no whitespace at either end that is a slice of the input with only whitespace before and after it |
| Text.StripIdempotent | app/routes/chat.py:31 | stripping an already stripped text changes nothing |
| Text.StripPadded | app/routes/session.py:57-58 | whitespace added around a stripped, non-empty text is exactly what `strip()` removes |
| Text.JoinLinesOfLines | app/routes/session.py:56 | `split('\n')` loses nothing: joining the pieces with newlines gives the text back |
| Text.SingleLineIff | app/routes/session.py:58 | the split gives one piece exactly when the text holds no newline (the `len(lines) > 1` test) |
| Text.RemoveAbsent | app/routes/session.py:57 | `replace(label, '')` leaves a text without the label unchanged |
| Text.Lines | app/routes/session.py:56 | `split('\n')` gives at least one piece, and no piece holds a newline |
| Text.RemoveAll | app/routes/session.py:57-58 | `replace(label, '')` only deletes characters: the result is no longer than the text and its characters are drawn from the text's |
| Text.Take | app/routes/session.py:63-64 | `s[:n]` is the prefix of length `min(n, len(s))` |
| Titles.MatchAt | app/routes/session.py:15-16 | a match at an index needs the marker there, and its group starts past the marker, at a non-whitespace character or at the end |
| Titles.MatchAtMeans | app/routes/session.py:15-16 | `marker\s*[:：]\s*(.*)` matches at an index exactly when the marker occurs there and the first non-whitespace character after it is a colon; the group starts after that colon and the whitespace following it |
| Titles.SearchFrom | app/routes/session.py:15-16 | `re.search` finds the leftmost index where the whole pattern matches, and reports no match only when it matches nowhere |
| Titles.Field | app/routes/session.py:17-20 | a component is a stripped single line, and it is non-empty only if the pattern matches somewhere |
| Titles.ParseTitleAndDescription | app/routes/session.py:10-21 | title and description are each a stripped single line, non-empty only when their marker occurs in the response |
| Titles.NoMarkerNoField | app/routes/session.py:17-20 | a marker absent from the response gives an empty component, independently of the other marker |
| Titles.ParseWithoutMarkers | app/routes/session.py:13-21 | with neither marker present the parser returns `("", "")` |
| Titles.FieldOfLine | app/routes/session.py:15-20 | a line `marker: value` preceded only by lines without the marker yields exactly `value` |
| Titles.FieldOfLeadingLine | app/routes/session.py:15-20 | a leading line `marker: value` yields exactly `value` |
| Titles.ParseRoundTrip | app/routes/session.py:10-21 | formatting a title and a description as `타이틀: t\n설명: d` and parsing gives `(t, d)` back |
| Titles.TitlePrompt | app/routes/session.py:46-49 | the title request is a system turn followed by a user turn carrying the request text and the first message |
| Titles.Fallback | app/routes/session.py:60-64 | on a failed call the title and description are prefixes of the first message of at most 20 and 100 characters, cut only when the message is longer |
| Titles.FromReply | app/routes/session.py:56-58 | on success the title is a stripped line; the description is a stripped line when the stripped reply has a second line, `content[:100]` otherwise |
| Titles.TitleAndDescription | app/routes/session.py:51-64 | a failed call gives prefixes of the first message of at most 20 and 100 characters, cut only when the message is longer; a reply gives a stripped single-line title and a description that is a stripped single line or `content[:100]` |
| Titles.FromReplyRoundTrip | app/routes/session.py:56-58 | a reply `제목: t\n설명: d` gives `(t, d)` back |
| Titles.CreateSessionKeepsMarker | app/routes/session.py:56-58 | a reply in the marker format keeps `타이틀: ` in the title, since only `제목:` is removed |
| Titles.RulesDisagreeOnMarkerFormat | app/routes/session.py:10-21 | on a marker-format reply the parser's title differs from the title `create_session` stores |
| Titles.GreetingExample | app/routes/session.py:56-58 | the reply `타이틀: Greeting\n설명: A greeting` gives `("타이틀: Greeting", "A greeting")` |
| Titles.GreetingParsed | app/routes/session.py:15-20 | the same reply through the parser gives `("Greeting", "A greeting")` |
| Titles.HelloFallback | app/routes/session.py:63-64 | a failed call on the first message `hello` gives `hello` for both fields |
| Titles.FallbackNested | app/routes/session.py:63-64 | the fallback title is a prefix of the fallback description, itself a prefix of the first message |
| Persistence.StampedMeans | app/api/chat.py:61-62 | a stamped log is ordered by creation time, its stamps lie in the bounds, and it holds only its owner's messages |
| Persistence.ValidLogs | app/api/chat.py:61-62 | in a valid store every session's log is chronological, belongs to that session and was stamped before the last commit |
| Persistence.CommitIntoExisting | app/routes/message.py:135-136 | committing messages of one existing session appends them to its log in `add` order and leaves every other log unchanged |
| Persistence.CommitIntoNew | app/routes/session.py:82-83 | committing a new session with its messages adds exactly that log |
| Persistence.Committed | app/routes/session.py:83 | after a commit the sessions with a log are the committed ones and those created in the transaction, and every committed log survives as a prefix of its new log |
| Persistence.CommitKeepsInvariant | app/routes/session.py:83 | a commit of any pending rows keeps the store invariant |
| Persistence.AddKeepsInvariant | app/routes/message.py:109 | adding a message stamped with the clock, for a known session, keeps the store invariant |
| Persistence.Store.AddSession | app/routes/session.py:72-73 | the row gets the next id and the current stamp and stays pending; nothing committed changes |
| Persistence.Store.Add | app/routes/message.py:109 | the message gets the next id and the current stamp and is appended to the pending list; nothing committed changes |
| Persistence.Store.Commit | app/routes/session.py:83 | pending sessions become committed and each pending message lands at the end of its session's log; the transaction is left empty |
| Persistence.Store.Rollback | app/routes/session.py:97 | every pending row is discarded and the committed state is unchanged |
| Persistence.Store.WriteSession | app/routes/session.py:138-141 | assigning a loaded session row and committing replaces that row only |
| Persistence.Store.WriteMessage | app/routes/message.py:70-72 | assigning a loaded message and committing replaces that message in place, keeping its owner and stamp |
| Persistence.AddAndCommit | app/api/chat.py:57-58 | add then commit puts the message, with a fresh id and stamp, at the end of its session's log |
| Persistence.CommitToSession | app/routes/message.py:136 | one commit of messages of an existing session appends all of them to its log |
| Persistence.CommitNewSession | app/routes/session.py:83 | one commit of a new session and its first message creates the row and a one-message log |
| SessionRoutes.CreateSession | app/routes/session.py:24-102 | missing fields give 400 and an unknown user 404, both with no call and nothing written; otherwise the title request is sent; success iff the commit succeeds, with the new row and its single user message committed together; a failed commit gives 500 with the exception's text and writes nothing |
| SessionRoutes.SaveSession | app/routes/session.py:66-97 | the session row and its first message are committed together, or both rolled back |
| SessionRoutes.Finish | app/routes/session.py:164-166 | an open session becomes closed at the given time with its other fields kept; a closed one cannot be finished |
| SessionRoutes.FinishOnce | app/routes/session.py:164-165 | a second finish of the same session fails whatever the time |
| SessionRoutes.FinishSession | app/routes/session.py:161-168 | unknown id gives 404, a closed session 400 with nothing changed, an open one is closed at `now` |
| SessionRoutes.MergeSession | app/routes/session.py:138-140 | each of title, description and finish time is kept when absent from the body and replaced when present; owner and start stay |
| SessionRoutes.MergeSessionIdempotent | app/routes/session.py:138-140 | sending the same PUT body twice has the effect of sending it once |
| SessionRoutes.MergeSessionEmpty | app/routes/session.py:138-140 | an empty PUT body changes nothing |
| SessionRoutes.UpdateReopens | app/routes/session.py:140 | a PUT body can clear the finish time of a closed session, after which it can be finished again |
| SessionRoutes.UpdateSession | app/routes/session.py:134-152 | unknown id gives 404, a non-object body 500, both with nothing changed; otherwise the merged row is stored and returned |
| MessageRoutes.CreateMessage | app/routes/message.py:7-32 | no content gives 400; with content, a missing or unknown session gives 500; success iff content is given and the session exists; the new message has role `user` unless one is given and ends its session's log; a failure writes nothing |
| MessageRoutes.MergeMessage | app/routes/message.py:70-71 | content and role are kept when absent and replaced when present; id, session, user and timestamp never change |
| MessageRoutes.MergeMessageIdempotent | app/routes/message.py:70-71 | sending the same PUT body twice has the effect of sending it once |
| MessageRoutes.UpdateMessage | app/routes/message.py:66-84 | 404 exactly when no stored message has the id; a non-object body gives 500; a stored message with an object body is always updated; success replaces that message in place by its merge and changes nothing else |
| MessageRoutes.SessionPrompt | app/routes/message.py:112-122 | the prompt has two more turns than the history, the system turn first, the user turn last, and the history's turns, in order, are exactly what lies in between |
| MessageRoutes.CreateCompletion | app/routes/message.py:93-161 | unknown session gives 500 and no call; missing content 400 and no call; otherwise the prompt is built from the committed history; success iff the call succeeds, with user and assistant messages appended together; any failure leaves every log unchanged |
| MessageRoutes.Converse | app/routes/message.py:103-136 | after the checks, the user message is only added before the call; success commits user then assistant at the end of the log, failure leaves the committed state as it was |
| MessageRoutes.Answer | app/routes/message.py:129-136 | the assistant message carries the reply text and is committed right after the pending user message |
| ConversationChat.CheckSettings | app/api/chat.py:22-27 | a rejection is one of the three configuration errors |
| ConversationChat.SettingsAccepted | app/api/chat.py:22-27 | the settings are accepted iff key, endpoint and deployment are all configured, and a rejection names the first check that fails |
| ConversationChat.DefaultsRejected | app/core/config.py:20-23 | the default settings fail all three checks, and the key error is the one raised |
| ConversationChat.Reverse | app/api/chat.py:69 | `reversed` keeps the length and puts element `i` at position `len - 1 - i` |
| ConversationChat.ReverseIsNewestFirst | app/api/chat.py:61-62 | ordering a chronological log by `created_at` descending is reversing it, with the same messages |
| ConversationChat.ReverseMultiset | app/api/chat.py:69 | reversing keeps exactly the same elements |
| ConversationChat.Recent | app/api/chat.py:61-70 | newest first, limited, then reversed: the window is the last `min(n, len)` messages of the log, in the log's order |
| ConversationChat.WindowPrompt | app/api/chat.py:61-72 | the prompt is the turns of the last `min(10, len)` messages of the log, in the log's order, with nothing added |
| ConversationChat.RecentWindow | app/api/chat.py:61-70 | the window is chronological, holds at most ten messages and ends with the newest message |
| ConversationChat.WindowPromptEndsWithUser | app/api/chat.py:61-77 | the prompt holds at most ten turns, has no system turn added, and ends with the user message just committed |
| ConversationChat.CreateChatCompletion | app/api/chat.py:39-107 | unknown conversation and missing body give 500 with the `Connection error: ` prefix; a falsy message 400; otherwise the user message is committed first and the window is sent with 800 tokens; failure leaves exactly that one new message, success adds the assistant message after it |
| ConversationChat.Converse | app/api/chat.py:51-87 | the user message is committed before the call; the prompt is the window of the log that ends with it |
| ConversationChat.Answer | app/api/chat.py:79-107 | a failed call is reported with the prefix and the rollback discards nothing committed; a reply is committed as the assistant message and returned with its stamp |
| StatelessChat.Prompt | app/routes/chat.py:15-22 | the prompt has `2 + len(h)` turns, system first, user last, and exactly `h` in between |
| StatelessChat.Splice | app/routes/chat.py:22 | `messages[1:1] = history` keeps the first entry, inserts the history after it in order, and keeps the rest after that |
| StatelessChat.BuildPrompt | app/routes/chat.py:15-22 | the prompt is `[system] + history + [user]`, with an empty history when the body has none |
| StatelessChat.ChatCompletion | app/routes/chat.py:6-38 | a missing body or `message` gives 400 with no call; otherwise the prompt is sent with the default budget, a failure gives 500 with its message, a reply gives the message echoed and the reply stripped |
| StatelessChat.PromptWithoutHistory | app/routes/chat.py:15-18 | without history the prompt is exactly `[system, user(message)]` |
| StatelessChat.ResponseStripped | app/routes/chat.py:31 | the returned response has no edge whitespace and stripping it again changes nothing |

## Left out

- HTTP routing, `jsonify`/`Response`, JSON encoding and the name of the error field (`error` or `message`) are left out; replies are a status and a payload or an error text.
- ISO timestamp formatting is left out; timestamps are the store's clock, a natural number that grows with every row added.
- The completion service, client construction and logging are left out. Each handler takes the call's outcome as a parameter and reports the call it would make.
- The module-level settings check runs once at import: a rejection stops the module from loading. The model states which check fails, not the failed import.
- SQLAlchemy autoflush is left out: the history of `create_completion` is the session's committed messages when the prompt is built.
- JSON values of the wrong type are left out: a non-string `content`, a role outside `system`/`user`/`assistant`, a non-list `history`. Request bodies are typed, and a body that is not a JSON object is `None`.
- A null reply text (`choices[0].message.content` is `None`) is left out. The reply text is always a string, so `response.strip()` on `None` is not modelled.
- Message and session ids are naturals drawn from a counter, not UUIDs. `UpdateMessage` finds the message by id and does not rely on ids being unique.
- `create_message` with a missing or unknown `session_id` is a failed commit (the foreign key is required): a 500 with nothing written. The exact driver error text is not modelled, and that handler has no rollback of its own.
- `get_sessions`, `get_session`, `delete_session`, `get_messages`, `get_message` and `delete_message` are left out: they only read rows or delete one row.
- `app/api/conversations.py`, the ORM declarations and the schema classes are not part of this model. The role enumeration follows app/db/models.py:5-8.
- Concurrent requests are left out; each handler runs alone against the store.
- SessionRoutes.FinishSession: the finish time is the parameter `now`; the model does not say that it is the current UTC time.
- Persistence.Store.Commit: a commit that raises is modelled only in `create_session` (its `commitError` parameter); elsewhere commits succeed.
