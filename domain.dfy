/** The entities the handlers exchange: messages, prompt turns, the outcome of
    a call to the completion service, and HTTP replies. */
module Domain {
  import opened Wrappers

  /** The closed role enumeration of a message (`system`, `user`, `assistant`). */
  datatype Role = System | User | Assistant

  /** One stored message. `timestamp` is the store's clock value when the row
      was added; `userId` is absent for conversation messages, which have no
      user column. */
  datatype Message = Message(
    id: nat,
    sessionId: nat,
    userId: Option<nat>,
    role: Role,
    content: string,
    timestamp: nat)

  /** One `{"role": ..., "content": ...}` entry of a prompt. */
  datatype Turn = Turn(role: Role, content: string)

  function TurnOf(m: Message): Turn {
    Turn(m.role, m.content)
  }

  /** The `{"role": msg.role, "content": msg.content}` comprehension over a
      list of messages, keeping its order. */
  function TurnsOf(ms: seq<Message>): (r: seq<Turn>)
    ensures |r| == |ms|
    ensures forall i :: 0 <= i < |ms| ==> r[i] == TurnOf(ms[i])
  {
    if ms == [] then [] else [TurnOf(ms[0])] + TurnsOf(ms[1..])
  }

  /** What one call to the completion service ends in: the text of
      `choices[0].message.content`, or an exception with its message. */
  datatype Completion = Replied(text: string) | Failed(cause: string)

  /** The request a handler sends to the completion service. */
  datatype GatewayCall = GatewayCall(prompt: seq<Turn>, maxTokens: nat)

  /** Token budget of the shared helper's completion call. */
  const DefaultMaxTokens: nat := 2000

  /** An HTTP reply: a success status with a payload, or an error status
      with the error text of the JSON body. */
  datatype Reply<T> = Success(status: nat, value: T) | Error(status: nat, error: string)

  /** A field of a PUT body: absent (keep the stored value) or present. */
  datatype Patch<T> = Keep | Put(value: T)

  /** `data.get(key, current)` */
  function Merge<T>(p: Patch<T>, current: T): T {
    match p
    case Keep => current
    case Put(v) => v
  }

  /** Text of the werkzeug NotFound exception raised by `get_or_404`. */
  const NotFoundText: string :=
    "404 Not Found: The requested URL was not found on the server. If you entered the URL manually please check your spelling and try again."
}
