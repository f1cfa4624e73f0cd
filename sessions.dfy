/** The session endpoints: creating a session with its first message,
    updating a session by merging a PUT body, and finishing it. */
module SessionRoutes {
  import opened Wrappers
  import opened Domain
  import opened Persistence
  import opened Titles

  /** The fields of a `POST /sessions` body; an absent body has neither. */
  datatype SessionRequest = SessionRequest(userId: Option<nat>, content: Option<string>)

  /** The `data` of a 201 reply. */
  datatype SessionCreated = SessionCreated(id: nat, title: string, description: string, userId: nat, startAt: nat)

  const MissingFieldsText: string := "user_id와 content가 필요합니다"
  const UnknownUserText: string := "사용자를 찾을 수 없습니다"
  const AlreadyFinishedText: string := "이미 종료된 세션입니다."

  /** `create_session`. `titling` is the outcome of the completion call that
      asks for a title; `commitError` is the message of the exception the
      final commit raises, if it raises. */
  method CreateSession(store: Store, req: SessionRequest, titling: Completion, commitError: Option<string>)
    returns (reply: Reply<SessionCreated>, call: Option<GatewayCall>)
    requires store.Valid() && store.Idle()
    modifies store
    ensures store.Valid() && store.Idle() && store.users == old(store.users)
    ensures req.userId.None? || req.content.None? ==>
              reply == Error(400, MissingFieldsText) && call == None
    ensures req.userId.Some? && req.content.Some? && req.userId.value !in store.users ==>
              reply == Error(404, UnknownUserText) && call == None
    ensures req.userId.Some? && req.content.Some? && req.userId.value in store.users ==>
              call == Some(GatewayCall(TitlePrompt(req.content.value), DefaultMaxTokens))
    ensures reply.Success? <==>
              req.userId.Some? && req.content.Some? && req.userId.value in store.users && commitError.None?
    ensures !reply.Success? ==>
              store.sessions == old(store.sessions) && store.committed == old(store.committed)
    ensures req.userId.Some? && req.content.Some? && req.userId.value in old(store.users) && commitError.Some? ==>
              reply == Error(500, commitError.value)
    ensures reply.Success? ==>
              var sid, uid, content := reply.value.id, req.userId.value, req.content.value;
              var td := TitleAndDescription(content, titling);
              && reply.status == 201
              && reply.value == SessionCreated(sid, td.0, td.1, uid, old(store.clock))
              && sid !in old(store.sessions)
              && store.sessions == old(store.sessions)[sid := SessionRow(Some(uid), Some(td.0), Some(td.1), old(store.clock), None)]
              && store.committed == old(store.committed)[sid :=
                   [Message(old(store.nextId) + 1, sid, Some(uid), User, content, old(store.clock) + 1)]]
  {
    call := None;
    if req.userId.None? || req.content.None? {
      return Error(400, MissingFieldsText), call;
    }
    var uid, content := req.userId.value, req.content.value;
    if uid !in store.users {
      return Error(404, UnknownUserText), call;
    }
    call := Some(GatewayCall(TitlePrompt(content), DefaultMaxTokens));
    var td := TitleAndDescription(content, titling);
    var sid, ok := SaveSession(store, uid, td.0, td.1, content, commitError);
    if !ok {
      return Error(500, commitError.value), call;
    }
    reply := Success(201, SessionCreated(sid, td.0, td.1, uid, store.sessions[sid].startAt));
  }

  /** The persistence part of `create_session`: the session row and its
      first message are added and committed together, or both rolled back
      when the commit raises. */
  method SaveSession(store: Store, uid: nat, title: string, description: string, content: string,
                     commitError: Option<string>)
    returns (sid: nat, ok: bool)
    requires store.Valid() && store.Idle()
    modifies store
    ensures store.Valid() && store.Idle() && store.users == old(store.users)
    ensures ok <==> commitError.None?
    ensures !ok ==> store.sessions == old(store.sessions) && store.committed == old(store.committed)
    ensures ok ==>
              && sid !in old(store.sessions)
              && store.sessions == old(store.sessions)[sid := SessionRow(Some(uid), Some(title), Some(description), old(store.clock), None)]
              && store.committed == old(store.committed)[sid :=
                   [Message(old(store.nextId) + 1, sid, Some(uid), User, content, old(store.clock) + 1)]]
  {
    ghost var row := SessionRow(Some(uid), Some(title), Some(description), store.clock, None);
    sid := store.AddSession(Some(uid), Some(title), Some(description));
    assert store.pendingSessions == map[sid := row];
    var m := store.Add(sid, Some(uid), User, content);
    if commitError.Some? {
      store.Rollback();
      return sid, false;
    }
    CommitNewSession(store, sid, row, m);
    ok := true;
  }

  /** A session is open until its finish time is set. */
  predicate IsOpen(row: SessionRow) {
    row.finishAt.None?
  }

  /** The transition `finish_session` performs: an open session becomes
      closed at `now`; a closed one cannot be finished (None). */
  function Finish(row: SessionRow, now: nat): (r: Option<SessionRow>)
    ensures r.Some? <==> IsOpen(row)
    ensures r.Some? ==> !IsOpen(r.value) && r.value.finishAt == Some(now)
    ensures r.Some? ==> r.value.(finishAt := None) == row
  {
    if row.finishAt.Some? then None else Some(row.(finishAt := Some(now)))
  }

  /** Finishing is one-shot: a second finish of the same session fails,
      whatever the time. */
  lemma FinishOnce(row: SessionRow, t1: nat, t2: nat)
    requires Finish(row, t1).Some?
    ensures Finish(Finish(row, t1).value, t2).None?
  {
  }

  /** `finish_session` at time `now`. */
  method FinishSession(store: Store, sid: nat, now: nat) returns (reply: Reply<nat>)
    requires store.Valid() && store.Idle()
    modifies store
    ensures store.Valid() && store.Idle()
    ensures store.committed == old(store.committed) && store.users == old(store.users)
    ensures store.pending == old(store.pending) && store.pendingSessions == old(store.pendingSessions)
    ensures sid !in old(store.sessions) ==> reply == Error(404, NotFoundText) && store.sessions == old(store.sessions)
    ensures sid in old(store.sessions) && !IsOpen(old(store.sessions)[sid]) ==>
              reply == Error(400, AlreadyFinishedText) && store.sessions == old(store.sessions)
    ensures sid in old(store.sessions) && IsOpen(old(store.sessions)[sid]) ==>
              reply == Success(200, now)
              && store.sessions == old(store.sessions)[sid := Finish(old(store.sessions)[sid], now).value]
  {
    if sid !in store.sessions {
      return Error(404, NotFoundText);
    }
    var row := store.sessions[sid];
    if row.finishAt.Some? {
      return Error(400, AlreadyFinishedText);
    }
    store.WriteSession(sid, row.(finishAt := Some(now)));
    reply := Success(200, now);
  }

  /** The fields of a `PUT /sessions/<id>` body; a JSON null sets the
      column to null. */
  datatype SessionPatch = SessionPatch(
    title: Patch<Option<string>>,
    description: Patch<Option<string>>,
    finishAt: Patch<Option<nat>>)

  /** The row after `update_session` assigns `data.get(key, current)` to
      each of the three fields. */
  function MergeSession(row: SessionRow, p: SessionPatch): (r: SessionRow)
    ensures r.userId == row.userId && r.startAt == row.startAt
    ensures p.title.Keep? ==> r.title == row.title
    ensures p.description.Keep? ==> r.description == row.description
    ensures p.finishAt.Keep? ==> r.finishAt == row.finishAt
    ensures p.title.Put? ==> r.title == p.title.value
    ensures p.description.Put? ==> r.description == p.description.value
    ensures p.finishAt.Put? ==> r.finishAt == p.finishAt.value
  {
    row.(title := Merge(p.title, row.title),
         description := Merge(p.description, row.description),
         finishAt := Merge(p.finishAt, row.finishAt))
  }

  /** Sending the same PUT body twice has the effect of sending it once. */
  lemma MergeSessionIdempotent(row: SessionRow, p: SessionPatch)
    ensures MergeSession(MergeSession(row, p), p) == MergeSession(row, p)
  {
  }

  /** An empty PUT body changes nothing. */
  lemma MergeSessionEmpty(row: SessionRow)
    ensures MergeSession(row, SessionPatch(Keep, Keep, Keep)) == row
  {
  }

  /** A PUT body can reopen a finished session: closed-immutability is kept
      only by `finish_session`. */
  lemma UpdateReopens(row: SessionRow)
    requires !IsOpen(row)
    ensures IsOpen(MergeSession(row, SessionPatch(Keep, Keep, Put(None))))
    ensures Finish(MergeSession(row, SessionPatch(Keep, Keep, Put(None))), 0).Some?
  {
  }

  /** `update_session`. A body that is not a JSON object (None) makes
      `data.get` raise, which ends in a 500 before anything is assigned. */
  method UpdateSession(store: Store, sid: nat, body: Option<SessionPatch>) returns (reply: Reply<SessionRow>)
    requires store.Valid() && store.Idle()
    modifies store
    ensures store.Valid() && store.Idle()
    ensures store.committed == old(store.committed) && store.users == old(store.users)
    ensures store.pending == old(store.pending) && store.pendingSessions == old(store.pendingSessions)
    ensures sid !in old(store.sessions) ==> reply == Error(404, NotFoundText) && store.sessions == old(store.sessions)
    ensures sid in old(store.sessions) && body.None? ==> reply.Error? && reply.status == 500 && store.sessions == old(store.sessions)
    ensures sid in old(store.sessions) && body.Some? ==>
              var row := MergeSession(old(store.sessions)[sid], body.value);
              reply == Success(200, row) && store.sessions == old(store.sessions)[sid := row]
  {
    if sid !in store.sessions {
      return Error(404, NotFoundText);
    }
    if body.None? {
      return Error(500, "'NoneType' object has no attribute 'get'");
    }
    var row := MergeSession(store.sessions[sid], body.value);
    store.WriteSession(sid, row);
    reply := Success(200, row);
  }
}
