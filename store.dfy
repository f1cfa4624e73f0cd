/** The relational store as the handlers see it through the ORM's unit of work:
    rows already committed, rows added but not yet committed, and the three
    operations `add`, `commit` and `rollback`. */
module Persistence {
  import opened Wrappers
  import opened Domain

  /** A Session (or Conversation) row. `finishAt` is None while the session
      is open. */
  datatype SessionRow = SessionRow(
    userId: Option<nat>,
    title: Option<string>,
    description: Option<string>,
    startAt: nat,
    finishAt: Option<nat>)

  /** Timestamps strictly increase along the sequence. */
  predicate Chronological(s: seq<Message>) {
    forall i, j :: 0 <= i < j < |s| ==> s[i].timestamp < s[j].timestamp
  }

  /** Every message of `s` belongs to session `sid`. */
  predicate Owned(s: seq<Message>, sid: nat) {
    forall m :: m in s ==> m.sessionId == sid
  }

  /** `s` is a log whose stamps strictly increase and lie in `[lo, hi)`,
      and whose messages all belong to `owner` when one is given. */
  predicate Stamped(s: seq<Message>, owner: Option<nat>, lo: nat, hi: nat)
    decreases |s|
  {
    s == [] ||
    (&& lo <= s[0].timestamp < hi
     && (owner.None? || s[0].sessionId == owner.value)
     && Stamped(s[1..], owner, s[0].timestamp + 1, hi))
  }

  /** A stamped log is chronological, its stamps lie in the bounds, and it
      belongs to its owner. */
  lemma {:induction false} StampedMeans(s: seq<Message>, owner: Option<nat>, lo: nat, hi: nat)
    requires Stamped(s, owner, lo, hi)
    ensures Chronological(s)
    ensures forall i :: 0 <= i < |s| ==> lo <= s[i].timestamp < hi
    ensures owner.Some? ==> Owned(s, owner.value)
    decreases |s|
  {
    if s != [] {
      StampedMeans(s[1..], owner, s[0].timestamp + 1, hi);
      forall i, j | 0 <= i < j < |s| ensures s[i].timestamp < s[j].timestamp {
        assert s[j] == s[1..][j - 1];
        if i > 0 {
          assert s[i] == s[1..][i - 1];
        }
      }
      forall i | 0 < i < |s| ensures lo <= s[i].timestamp < hi {
        assert s[i] == s[1..][i - 1];
      }
      if owner.Some? {
        forall m | m in s ensures m.sessionId == owner.value {
          if m != s[0] {
            assert m in s[1..];
          }
        }
      }
    }
  }

  /** Widening the bounds keeps a log stamped. */
  lemma {:induction false} StampedWiden(s: seq<Message>, owner: Option<nat>, lo: nat, hi: nat, lo': nat, hi': nat)
    requires Stamped(s, owner, lo, hi) && lo' <= lo && hi <= hi'
    ensures Stamped(s, owner, lo', hi')
    decreases |s|
  {
    if s != [] {
      StampedWiden(s[1..], owner, s[0].timestamp + 1, hi, s[0].timestamp + 1, hi');
    }
  }

  /** A log stamped below `mid` followed by one stamped from `mid` is stamped. */
  lemma {:induction false} StampedAppend(a: seq<Message>, b: seq<Message>, owner: Option<nat>, lo: nat, mid: nat, hi: nat)
    requires Stamped(a, owner, lo, mid) && Stamped(b, owner, mid, hi) && lo <= mid <= hi
    ensures Stamped(a + b, owner, lo, hi)
    decreases |a|
  {
    if a == [] {
      assert a + b == b;
      StampedWiden(b, owner, mid, hi, lo, hi);
    } else {
      StampedAppend(a[1..], b, owner, a[0].timestamp + 1, mid, hi);
      assert (a + b)[0] == a[0] && (a + b)[1..] == a[1..] + b;
    }
  }

  /** The messages of `ps` that belong to session `sid`, in their order. */
  function Filter(ps: seq<Message>, sid: nat): (r: seq<Message>)
    ensures |r| <= |ps|
    ensures forall m :: m in r <==> m in ps && m.sessionId == sid
  {
    if ps == [] then []
    else if ps[0].sessionId == sid then [ps[0]] + Filter(ps[1..], sid)
    else Filter(ps[1..], sid)
  }

  /** Selecting one session's messages of a stamped log gives that
      session's stamped log. */
  lemma {:induction false} StampedFilter(ps: seq<Message>, sid: nat, lo: nat, hi: nat)
    requires Stamped(ps, None, lo, hi)
    ensures Stamped(Filter(ps, sid), Some(sid), lo, hi)
    decreases |ps|
  {
    if ps != [] {
      StampedFilter(ps[1..], sid, ps[0].timestamp + 1, hi);
      if ps[0].sessionId == sid {
        assert ([ps[0]] + Filter(ps[1..], sid))[1..] == Filter(ps[1..], sid);
      } else {
        StampedWiden(Filter(ps[1..], sid), Some(sid), ps[0].timestamp + 1, hi, lo, hi);
      }
    }
  }

  /** Rewriting message `i` of a stamped log keeps it stamped when the
      owner and the stamp stay. */
  lemma {:induction false} StampedUpdate(s: seq<Message>, owner: Option<nat>, lo: nat, hi: nat, i: nat, m: Message)
    requires Stamped(s, owner, lo, hi) && i < |s|
    requires m.sessionId == s[i].sessionId && m.timestamp == s[i].timestamp
    ensures Stamped(s[i := m], owner, lo, hi)
    decreases |s|
  {
    if i > 0 {
      StampedUpdate(s[1..], owner, s[0].timestamp + 1, hi, i - 1, m);
      assert s[i := m][1..] == s[1..][i - 1 := m];
    } else {
      assert s[i := m][1..] == s[1..];
    }
  }

  /** A session's pending messages are all of them when every pending
      message is that session's, and none of another session's. */
  lemma {:induction false} FilterOwned(ps: seq<Message>, sid: nat, other: nat)
    requires Owned(ps, sid) && other != sid
    ensures Filter(ps, sid) == ps
    ensures Filter(ps, other) == []
  {
    if ps != [] {
      assert ps[0] in ps;
      FilterOwned(ps[1..], sid, other);
      assert [ps[0]] + ps[1..] == ps;
    }
  }

  function Get(c: map<nat, seq<Message>>, sid: nat): seq<Message> {
    if sid in c then c[sid] else []
  }

  /** The committed messages once `ps` is written: every session in `c` or
      in `created` gets its pending messages appended in the order they were
      added. */
  function Committed(c: map<nat, seq<Message>>, created: set<nat>, ps: seq<Message>): (r: map<nat, seq<Message>>)
    ensures r.Keys == c.Keys + created
    ensures forall sid :: sid in c ==> |c[sid]| <= |r[sid]| && r[sid][..|c[sid]|] == c[sid]
  {
    map sid | sid in c.Keys + created :: Get(c, sid) + Filter(ps, sid)
  }

  /** Committing a stamped pending log into stamped session logs gives
      logs stamped below the current clock. */
  lemma CommittedStamped(c: map<nat, seq<Message>>, created: set<nat>, ps: seq<Message>, mark: nat, clock: nat)
    requires forall sid :: sid in c ==> Stamped(c[sid], Some(sid), 0, mark)
    requires Stamped(ps, None, mark, clock) && mark <= clock
    ensures forall sid :: sid in Committed(c, created, ps) ==> Stamped(Committed(c, created, ps)[sid], Some(sid), 0, clock)
  {
    forall sid | sid in Committed(c, created, ps)
      ensures Stamped(Committed(c, created, ps)[sid], Some(sid), 0, clock)
    {
      StampedFilter(ps, sid, mark, clock);
      StampedAppend(Get(c, sid), Filter(ps, sid), Some(sid), 0, mark, clock);
    }
  }

  /** Committing messages of one existing session appends them to its log
      and leaves every other session's log as it was. */
  lemma CommitIntoExisting(c: map<nat, seq<Message>>, ps: seq<Message>, sid: nat)
    requires sid in c && Owned(ps, sid)
    ensures Committed(c, {}, ps) == c[sid := c[sid] + ps]
  {
    var r := Committed(c, {}, ps);
    forall k | k in c ensures r[k] == c[sid := c[sid] + ps][k] {
      if k == sid {
        FilterOwned(ps, sid, sid + 1);
      } else {
        FilterOwned(ps, sid, k);
      }
    }
  }

  /** Committing a new session together with its messages adds exactly that
      log and leaves every other session's log as it was. */
  lemma CommitIntoNew(c: map<nat, seq<Message>>, ps: seq<Message>, sid: nat)
    requires sid !in c && Owned(ps, sid)
    ensures Committed(c, {sid}, ps) == c[sid := ps]
  {
    var r := Committed(c, {sid}, ps);
    forall k | k in r ensures r[k] == c[sid := ps][k] {
      if k == sid {
        FilterOwned(ps, sid, sid + 1);
      } else {
        FilterOwned(ps, sid, k);
      }
    }
  }

  /** What every state of the store satisfies: each committed session has
      a log, no session is both committed and pending, ids lie below the next
      fresh id, each log is stamped below the last commit's clock and holds
      only its session's messages, pending messages are stamped from there on
      and belong to a known session. */
  ghost predicate StoreInvariant(sessions: map<nat, SessionRow>, committed: map<nat, seq<Message>>,
                                 pendingSessions: map<nat, SessionRow>, pending: seq<Message>,
                                 nextId: nat, mark: nat, clock: nat)
  {
    && committed.Keys == sessions.Keys
    && sessions.Keys !! pendingSessions.Keys
    && (forall sid :: sid in sessions ==> sid < nextId)
    && (forall sid :: sid in pendingSessions ==> sid < nextId)
    && (forall sid :: sid in committed ==> Stamped(committed[sid], Some(sid), 0, mark))
    && Stamped(pending, None, mark, clock)
    && mark <= clock
    && (forall m :: m in pending ==> m.sessionId in sessions || m.sessionId in pendingSessions)
  }

  /** A commit moves every pending row into the committed state and keeps
      the invariant. */
  lemma CommitKeepsInvariant(sessions: map<nat, SessionRow>, committed: map<nat, seq<Message>>,
                             pendingSessions: map<nat, SessionRow>, pending: seq<Message>,
                             nextId: nat, mark: nat, clock: nat)
    requires StoreInvariant(sessions, committed, pendingSessions, pending, nextId, mark, clock)
    ensures StoreInvariant(sessions + pendingSessions, Committed(committed, pendingSessions.Keys, pending),
                           map[], [], nextId, clock, clock)
  {
    CommittedStamped(committed, pendingSessions.Keys, pending, mark, clock);
  }

  /** Adding a message stamped with the clock, for a known session, keeps
      the invariant once the id and the clock advance. */
  lemma AddKeepsInvariant(sessions: map<nat, SessionRow>, committed: map<nat, seq<Message>>,
                          pendingSessions: map<nat, SessionRow>, pending: seq<Message>,
                          nextId: nat, mark: nat, clock: nat, m: Message)
    requires StoreInvariant(sessions, committed, pendingSessions, pending, nextId, mark, clock)
    requires m.timestamp == clock && (m.sessionId in sessions || m.sessionId in pendingSessions)
    ensures StoreInvariant(sessions, committed, pendingSessions, pending + [m], nextId + 1, mark, clock + 1)
  {
    assert Stamped([m], None, clock, clock + 1);
    StampedAppend(pending, [m], None, mark, clock, clock + 1);
  }

  class Store {
    /** Ids of the users rows; handlers only read them. */
    var users: set<nat>
    /** Committed session rows, by session id. */
    var sessions: map<nat, SessionRow>
    /** Committed messages, per session, in the order they were written. */
    var committed: map<nat, seq<Message>>
    /** Session rows added in the current transaction. */
    var pendingSessions: map<nat, SessionRow>
    /** Messages added in the current transaction, in `add` order. */
    var pending: seq<Message>
    /** Next fresh row id. */
    var nextId: nat
    /** Clock read by the `created_at`/`timestamp` column default. */
    var clock: nat
    /** Clock value at the last commit: committed stamps lie below it,
        pending stamps at or above it. */
    ghost var mark: nat

    ghost predicate Valid()
      reads this
    {
      StoreInvariant(sessions, committed, pendingSessions, pending, nextId, mark, clock)
    }

    /** No transaction in progress: the state every request starts and ends in. */
    predicate Idle()
      reads this
    {
      pending == [] && pendingSessions == map[]
    }

    /** The committed messages of one session, oldest first. */
    function History(sid: nat): seq<Message>
      reads this
    {
      Get(committed, sid)
    }

    constructor (users: set<nat>)
      ensures Valid() && Idle()
      ensures this.users == users && sessions == map[] && committed == map[]
    {
      this.users := users;
      sessions, committed := map[], map[];
      pendingSessions, pending := map[], [];
      nextId, clock, mark := 0, 0, 0;
    }

    /** `db.session.add(Session(...))` followed by `flush()`: the row gets a
        fresh id and its start stamp, and stays uncommitted. */
    method AddSession(userId: Option<nat>, title: Option<string>, description: Option<string>)
      returns (sid: nat)
      requires Valid()
      modifies this
      ensures Valid()
      ensures sid == old(nextId) && sid !in old(sessions) && sid !in old(pendingSessions)
      ensures pendingSessions == old(pendingSessions)[sid := SessionRow(userId, title, description, old(clock), None)]
      ensures nextId == old(nextId) + 1 && clock == old(clock) + 1
      ensures users == old(users) && sessions == old(sessions) && committed == old(committed)
      ensures pending == old(pending)
    {
      StampedWiden(pending, None, mark, clock, mark, clock + 1);
      sid := nextId;
      pendingSessions := pendingSessions[sid := SessionRow(userId, title, description, clock, None)];
      nextId := nextId + 1;
      clock := clock + 1;
    }

    /** `db.session.add(Message(...))`: the message gets a fresh id and the
        current clock as its timestamp, and stays uncommitted. */
    method Add(sid: nat, userId: Option<nat>, role: Role, content: string) returns (m: Message)
      requires Valid() && (sid in sessions || sid in pendingSessions)
      modifies this
      ensures Valid()
      ensures m == Message(old(nextId), sid, userId, role, content, old(clock))
      ensures pending == old(pending) + [m]
      ensures nextId == old(nextId) + 1 && clock == old(clock) + 1
      ensures users == old(users) && sessions == old(sessions) && committed == old(committed)
      ensures pendingSessions == old(pendingSessions)
    {
      m := Message(nextId, sid, userId, role, content, clock);
      AddKeepsInvariant(sessions, committed, pendingSessions, pending, nextId, mark, clock, m);
      pending, nextId, clock := pending + [m], nextId + 1, clock + 1;
    }

    /** `db.session.commit()`: every pending row becomes committed, each
        message at the end of its session's log. */
    method Commit()
      requires Valid()
      modifies this
      ensures Valid() && Idle()
      ensures sessions == old(sessions) + old(pendingSessions)
      ensures committed == Committed(old(committed), old(pendingSessions).Keys, old(pending))
      ensures users == old(users) && nextId == old(nextId) && clock == old(clock)
    {
      CommitKeepsInvariant(sessions, committed, pendingSessions, pending, nextId, mark, clock);
      committed := Committed(committed, pendingSessions.Keys, pending);
      sessions := sessions + pendingSessions;
      pendingSessions := map[];
      pending := [];
      mark := clock;
    }

    /** `db.session.rollback()`: every uncommitted row is discarded. */
    method Rollback()
      requires Valid()
      modifies this
      ensures Valid() && Idle()
      ensures sessions == old(sessions) && committed == old(committed)
      ensures users == old(users) && nextId == old(nextId) && clock == old(clock)
    {
      pendingSessions := map[];
      pending := [];
    }

    /** Assigning fields of a loaded session row and committing. */
    method WriteSession(sid: nat, row: SessionRow)
      requires Valid() && sid in sessions
      modifies this
      ensures Valid()
      ensures sessions == old(sessions)[sid := row]
      ensures committed == old(committed) && pending == old(pending) && pendingSessions == old(pendingSessions)
      ensures users == old(users) && nextId == old(nextId) && clock == old(clock)
    {
      sessions := sessions[sid := row];
    }

    /** Assigning fields of a loaded message row and committing; the row
        keeps its id, owner and timestamp. */
    method WriteMessage(sid: nat, i: nat, m: Message)
      requires Valid() && sid in committed && i < |committed[sid]|
      requires m.sessionId == committed[sid][i].sessionId && m.timestamp == committed[sid][i].timestamp
      modifies this
      ensures Valid()
      ensures committed == old(committed)[sid := old(committed)[sid][i := m]]
      ensures sessions == old(sessions) && pending == old(pending) && pendingSessions == old(pendingSessions)
      ensures users == old(users) && nextId == old(nextId) && clock == old(clock)
    {
      StampedUpdate(committed[sid], Some(sid), 0, mark, i, m);
      committed := committed[sid := committed[sid][i := m]];
    }
  }

  /** In a valid store every session's log is chronological, holds only
      that session's messages, and was stamped before the last commit. */
  lemma ValidLogs(store: Store, sid: nat)
    requires store.Valid() && sid in store.committed
    ensures Chronological(store.committed[sid]) && Owned(store.committed[sid], sid)
    ensures forall i :: 0 <= i < |store.committed[sid]| ==> store.committed[sid][i].timestamp < store.mark
  {
    StampedMeans(store.committed[sid], Some(sid), 0, store.mark);
  }

  /** `db.session.add(message)` followed by `db.session.commit()` in an idle
      transaction: the message gets a fresh id and stamp and lands at the end
      of its session's log. */
  method AddAndCommit(store: Store, sid: nat, userId: Option<nat>, role: Role, content: string)
    returns (m: Message)
    requires store.Valid() && store.Idle() && sid in store.sessions
    modifies store
    ensures store.Valid() && store.Idle()
    ensures m == Message(old(store.nextId), sid, userId, role, content, old(store.clock))
    ensures store.committed == old(store.committed)[sid := old(store.committed)[sid] + [m]]
    ensures store.sessions == old(store.sessions) && store.users == old(store.users)
    ensures store.nextId == old(store.nextId) + 1 && store.clock == old(store.clock) + 1
  {
    m := store.Add(sid, userId, role, content);
    CommitToSession(store, sid, [m]);
  }

  /** `db.session.commit()` of a transaction that holds only messages of
      one existing session: they land at the end of its log. */
  method CommitToSession(store: Store, ghost sid: nat, ghost ps: seq<Message>)
    requires store.Valid() && sid in store.sessions
    requires store.pendingSessions == map[] && store.pending == ps
    requires forall i :: 0 <= i < |ps| ==> ps[i].sessionId == sid
    modifies store
    ensures store.Valid() && store.Idle()
    ensures store.committed == old(store.committed)[sid := old(store.committed)[sid] + ps]
    ensures store.sessions == old(store.sessions)
    ensures store.users == old(store.users) && store.nextId == old(store.nextId) && store.clock == old(store.clock)
  {
    ghost var c := store.committed;
    assert store.pendingSessions.Keys == {};
    CommitIntoExisting(c, ps, sid);
    store.Commit();
  }

  /** `db.session.commit()` of a transaction that holds one new session and
      its first message: both become committed. */
  method CommitNewSession(store: Store, ghost sid: nat, ghost row: SessionRow, ghost m: Message)
    requires store.Valid() && sid !in store.sessions
    requires store.pendingSessions == map[sid := row] && store.pending == [m] && m.sessionId == sid
    modifies store
    ensures store.Valid() && store.Idle()
    ensures store.sessions == old(store.sessions)[sid := row]
    ensures store.committed == old(store.committed)[sid := [m]]
    ensures store.users == old(store.users) && store.nextId == old(store.nextId) && store.clock == old(store.clock)
  {
    ghost var c := store.committed;
    assert store.pendingSessions.Keys == {sid};
    CommitIntoNew(c, [m], sid);
    store.Commit();
    assert store.sessions == old(store.sessions)[sid := row];
  }
}
