// Admission and cancellation of tool calls (internal/proxy/calls.go). Every
// method is one critical section under callLimits.mu; Lifecycle interleaves
// the same sections with those of the session code.

module Calls {
  import opened Prelude

  // The identity of a go-sdk session; a call may have none.
  type SessionId = nat
  datatype Session = NoSession | Session(id: SessionId)
  type Principal = string
  type CallId = nat

  // sessionCalls. id stands for the identity of the object, which a release
  // function compares with the one in sessions.
  datatype Entry = Entry(id: nat, principal: Principal, calls: set<CallId>)

  // An admitted call and what its release function captured; released is that
  // function's sync.Once.
  datatype Admitted = Admitted(session: Session, principal: Principal, entry: nat, cancelled: bool, released: bool)

  datatype Table = Table(sessions: map<Session, Entry>, principals: map<Principal, nat>,
                         calls: map<CallId, Admitted>, next: nat)

  datatype Refusal = ShuttingDown | SessionRetired | SessionFull | PrincipalFull

  function InFlight(t: Table, ss: Session): nat {
    if ss in t.sessions then |t.sessions[ss].calls| else 0
  }

  // admit's registration of a call that passed the checks.
  function AdmitTo(t: Table, p: Principal, ss: Session): Table {
    var e := if ss in t.sessions then t.sessions[ss] else Entry(t.next, p, {});
    Table(t.sessions[ss := e.(calls := e.calls + {t.next})], Inc(t.principals, p),
          t.calls[t.next := Admitted(ss, p, e.id, false, false)], t.next + 1)
  }

  // The release function of call id: the first run takes the call out of its
  // entry, and the entry out of sessions when it is left empty and is still
  // the one there.
  function ReleaseFrom(t: Table, id: CallId): Table
    requires id in t.calls
  {
    var a := t.calls[id];
    if a.released then t
    else if a.session in t.sessions && t.sessions[a.session].id == a.entry then
      var e := t.sessions[a.session];
      var left := e.(calls := e.calls - {id});
      Table(if left.calls == {} then t.sessions - {a.session} else t.sessions[a.session := left],
            Dec(t.principals, a.principal), t.calls[id := a.(cancelled := true, released := true)], t.next)
    else
      t.(principals := Dec(t.principals, a.principal), calls := t.calls[id := a.(cancelled := true, released := true)])
  }

  function Cancel(t: Table, ids: set<CallId>): Table {
    t.(calls := map id | id in t.calls :: if id in ids then t.calls[id].(cancelled := true) else t.calls[id])
  }

  // ---- the accounting invariant ----

  ghost function OpenOf(t: Table, p: Principal): set<CallId> {
    set id | id in t.calls && !t.calls[id].released && t.calls[id].principal == p
  }

  // principals[p] is the number of p's admitted and unreleased calls, and no
  // zero is kept.
  ghost predicate LoadOk(t: Table, p: Principal, cap: nat) {
    Count(t.principals, p) == |OpenOf(t, p)| <= cap && (p in t.principals ==> t.principals[p] > 0)
  }

  // Every unreleased call's entry is still the one in sessions.
  ghost predicate CallOk(t: Table, id: CallId)
    requires id in t.calls
  {
    var a := t.calls[id];
    && id < t.next && (a.released ==> a.cancelled)
    && (!a.released ==>
          a.session in t.sessions && t.sessions[a.session].id == a.entry && id in t.sessions[a.session].calls)
  }

  // No empty entry remains, and an entry holds unreleased calls of its own
  // session only.
  ghost predicate EntryOk(t: Table, ss: Session, cap: nat)
    requires ss in t.sessions
  {
    var e := t.sessions[ss];
    && 0 < |e.calls| <= cap
    && forall id :: id in e.calls ==> id in t.calls && !t.calls[id].released && t.calls[id].session == ss
  }

  ghost predicate TableOk(t: Table, perSession: nat, perPrincipal: nat) {
    && (forall id :: id in t.calls ==> CallOk(t, id))
    && (forall ss :: ss in t.sessions ==> EntryOk(t, ss, perSession))
    && forall p :: LoadOk(t, p, perPrincipal)
  }

  lemma FreshCall(t: Table, perSession: nat, perPrincipal: nat)
    requires TableOk(t, perSession, perPrincipal)
    ensures t.next !in t.calls
  {
    forall id | id in t.calls ensures id < t.next { assert CallOk(t, id); }
  }

  lemma AdmitKeeps(t: Table, p: Principal, ss: Session, perSession: nat, perPrincipal: nat)
    requires TableOk(t, perSession, perPrincipal)
    requires InFlight(t, ss) < perSession && Count(t.principals, p) < perPrincipal
    ensures TableOk(AdmitTo(t, p, ss), perSession, perPrincipal)
    ensures InFlight(AdmitTo(t, p, ss), ss) == InFlight(t, ss) + 1
  {
    var n := AdmitTo(t, p, ss);
    FreshCall(t, perSession, perPrincipal);
    if ss in t.sessions { assert EntryOk(t, ss, perSession); }
    forall id | id in n.calls ensures CallOk(n, id) { if id in t.calls { assert CallOk(t, id); } }
    forall s | s in n.sessions ensures EntryOk(n, s, perSession) { if s != ss { assert EntryOk(t, s, perSession); } }
    forall q ensures LoadOk(n, q, perPrincipal) { AdmitLoad(t, p, ss, q, perPrincipal); }
  }

  lemma AdmitLoad(t: Table, p: Principal, ss: Session, q: Principal, cap: nat)
    requires LoadOk(t, q, cap) && t.next !in t.calls && Count(t.principals, p) < cap
    ensures LoadOk(AdmitTo(t, p, ss), q, cap)
  {
    assert OpenOf(AdmitTo(t, p, ss), q) == if q == p then OpenOf(t, q) + {t.next} else OpenOf(t, q);
  }

  // A release frees one place of its own session and principal the first time,
  // whatever was admitted or released in between, and nothing after that.
  lemma ReleaseKeeps(t: Table, id: CallId, perSession: nat, perPrincipal: nat)
    requires TableOk(t, perSession, perPrincipal) && id in t.calls
    ensures var n := ReleaseFrom(t, id); var a := t.calls[id];
            && TableOk(n, perSession, perPrincipal)
            && (a.released ==> n == t)
            && (!a.released ==> InFlight(n, a.session) == InFlight(t, a.session) - 1)
            && (!a.released ==> Count(n.principals, a.principal) == Count(t.principals, a.principal) - 1)
            && ReleaseFrom(n, id) == n
  {
    var n := ReleaseFrom(t, id);
    var a := t.calls[id];
    assert CallOk(t, id) && LoadOk(t, a.principal, perPrincipal);
    assert !a.released ==> id in OpenOf(t, a.principal);
    forall c | c in n.calls ensures CallOk(n, c) { assert CallOk(t, c); ReleaseOther(t, id, c); }
    forall s | s in n.sessions ensures EntryOk(n, s, perSession) { assert EntryOk(t, s, perSession); }
    forall q ensures LoadOk(n, q, perPrincipal) {
      assert LoadOk(t, q, perPrincipal);
      assert OpenOf(n, q) == OpenOf(t, q) - {id};
      assert id in OpenOf(t, q) <==> !a.released && a.principal == q;
    }
  }

  lemma ReleaseOther(t: Table, id: CallId, c: CallId)
    requires id in t.calls && c in t.calls && CallOk(t, id) && CallOk(t, c)
    ensures CallOk(ReleaseFrom(t, id), c)
  {
    var a := t.calls[id];
    if !a.released && c != id && !t.calls[c].released && t.calls[c].session == a.session {
      assert c in t.sessions[a.session].calls - {id};
    }
  }

  lemma CancelKeeps(t: Table, ids: set<CallId>, perSession: nat, perPrincipal: nat)
    requires TableOk(t, perSession, perPrincipal)
    ensures TableOk(Cancel(t, ids), perSession, perPrincipal)
  {
    var n := Cancel(t, ids);
    forall id | id in n.calls ensures CallOk(n, id) { assert CallOk(t, id); }
    forall s | s in n.sessions ensures EntryOk(n, s, perSession) { assert EntryOk(t, s, perSession); }
    forall q ensures LoadOk(n, q, perPrincipal) {
      assert LoadOk(t, q, perPrincipal);
      assert OpenOf(n, q) == OpenOf(t, q);
    }
  }

  // The calls in flight on the session are cancelled, and nothing else about any call changes.
  ghost predicate CancelsOnly(t: Table, n: Table, ss: Session) {
    && n.calls.Keys == t.calls.Keys && n.sessions == t.sessions && n.principals == t.principals
    && forall id :: id in t.calls ==>
      n.calls[id] == t.calls[id].(cancelled :=
        t.calls[id].cancelled || (t.calls[id].session == ss && !t.calls[id].released))
  }

  lemma CancelIsExact(t: Table, ss: Session, perSession: nat, perPrincipal: nat)
    requires TableOk(t, perSession, perPrincipal)
    ensures CancelsOnly(t, Cancel(t, if ss in t.sessions then t.sessions[ss].calls else {}), ss)
  {
    if ss in t.sessions { assert EntryOk(t, ss, perSession); }
    assert forall id :: id in t.calls ==> CallOk(t, id);
  }

  lemma EntryCalls(t: Table, ss: Session, perSession: nat, perPrincipal: nat)
    requires TableOk(t, perSession, perPrincipal)
    ensures ss in t.sessions ==> t.sessions[ss].calls <= t.calls.Keys
  {
    assert ss in t.sessions ==> EntryOk(t, ss, perSession);
  }

  class CallLimits {
    const perSession: nat
    const perPrincipal: nat
    var closed: bool
    var table: Table
    var retired: set<SessionId>

    ghost predicate Valid() reads this { perSession > 0 && TableOk(table, perSession, perPrincipal) }

    predicate IsRetired(ss: Session) reads this { ss.Session? && ss.id in retired }

    // Why admit refuses a call, in the order it looks.
    function Refused(p: Principal, ss: Session): Option<Refusal> reads this {
      if closed then Some(ShuttingDown)
      else if IsRetired(ss) then Some(SessionRetired)
      else if ss in table.sessions && |table.sessions[ss].calls| >= perSession then Some(SessionFull)
      else if Count(table.principals, p) >= perPrincipal then Some(PrincipalFull)
      else None
    }

    constructor (perSession: nat, perPrincipal: nat)
      requires perSession > 0
      ensures Valid() && table.calls == map[] && table.sessions == map[] && retired == {} && !closed
      ensures this.perSession == perSession && this.perPrincipal == perPrincipal
    {
      this.perSession, this.perPrincipal := perSession, perPrincipal;
      closed, table, retired := false, Table(map[], map[], map[], 0), {};
      new;
      forall p ensures LoadOk(table, p, perPrincipal) { assert OpenOf(table, p) == {}; }
    }

    method Admit(p: Principal, ss: Session) returns (why: Option<Refusal>, id: CallId)
      requires Valid()
      modifies this`table
      ensures Valid() && why == old(Refused(p, ss))
      ensures why.Some? ==> table == old(table)
      ensures why.None? ==> table == AdmitTo(old(table), p, ss) && id !in old(table).calls
      ensures why.None? ==> id in table.calls && !table.calls[id].cancelled
      ensures InFlight(table, ss) == InFlight(old(table), ss) + (if why.None? then 1 else 0)
      ensures why == Some(ShuttingDown) <==> closed
      ensures why == Some(SessionRetired) <==> !closed && IsRetired(ss)
      ensures why == Some(SessionFull) <==> !closed && !IsRetired(ss) && InFlight(old(table), ss) >= perSession
      ensures why == Some(PrincipalFull) <==>
        !closed && !IsRetired(ss) && InFlight(old(table), ss) < perSession &&
        Count(old(table).principals, p) >= perPrincipal
    {
      id := table.next;
      FreshCall(table, perSession, perPrincipal);
      if closed {
        return Some(ShuttingDown), id;
      }
      if IsRetired(ss) {
        return Some(SessionRetired), id;
      }
      if ss in table.sessions && |table.sessions[ss].calls| >= perSession {
        return Some(SessionFull), id;
      }
      if Count(table.principals, p) >= perPrincipal {
        return Some(PrincipalFull), id;
      }
      AdmitKeeps(table, p, ss, perSession, perPrincipal);
      assert ss in table.sessions ==> EntryOk(table, ss, perSession);
      table := AdmitTo(table, p, ss);
      why := None;
    }

    method Release(id: CallId)
      requires Valid() && id in table.calls
      modifies this`table
      ensures Valid() && table == ReleaseFrom(old(table), id)
      ensures table.calls.Keys == old(table).calls.Keys && table.calls[id].released && table.calls[id].cancelled
      ensures forall c :: c in table.calls && c != id ==> table.calls[c] == old(table).calls[c]
    {
      ReleaseKeeps(table, id, perSession, perPrincipal);
      var a := table.calls[id];
      if a.released {
        return;
      }
      assert CallOk(table, id);
      var sessions := table.sessions;
      if a.session in sessions && sessions[a.session].id == a.entry {
        var e := sessions[a.session];
        var left := e.(calls := e.calls - {id});
        sessions := if left.calls == {} then sessions - {a.session} else sessions[a.session := left];
      }
      table := Table(sessions, Dec(table.principals, a.principal),
                     table.calls[id := a.(cancelled := true, released := true)], table.next);
    }

    // Cancels what is in flight on ss, and only that, and counts it.
    method CancelCalls(ss: Session) returns (n: nat)
      requires Valid()
      modifies this`table
      ensures Valid() && n == InFlight(old(table), ss)
      ensures table == Cancel(old(table), if ss in old(table).sessions then old(table).sessions[ss].calls else {})
      ensures CancelsOnly(old(table), table, ss)
    {
      hide TableOk, CancelsOnly;
      CancelIsExact(table, ss, perSession, perPrincipal);
      EntryCalls(table, ss, perSession, perPrincipal);
      var all := if ss in table.sessions then table.sessions[ss].calls else {};
      CancelKeeps(table, all, perSession, perPrincipal);
      ghost var was := table;
      var todo, calls := all, table.calls;
      n := 0;
      while todo != {}
        invariant todo <= all && n == |all| - |todo| && calls.Keys == was.calls.Keys && all <= was.calls.Keys
        invariant forall id :: id in calls ==>
          calls[id] == if id in all - todo then was.calls[id].(cancelled := true) else was.calls[id]
        decreases |todo|
      {
        var id :| id in todo;
        calls := calls[id := calls[id].(cancelled := true)];
        todo := todo - {id};
        n := n + 1;
      }
      assert calls == Cancel(was, all).calls;
      table := table.(calls := calls);
    }

    // Eviction's claim: the check and the retirement are one step.
    method ClaimIdle(ss: Session) returns (claimed: bool)
      requires Valid()
      modifies this`retired
      ensures Valid() && claimed == (InFlight(table, ss) == 0)
      ensures retired == if claimed && ss.Session? then old(retired) + {ss.id} else old(retired)
    {
      if ss in table.sessions && |table.sessions[ss].calls| > 0 {
        return false;
      }
      if ss.Session? {
        retired := retired + {ss.id};
      }
      return true;
    }

    // The idle expiry's retirement.
    method Retire(ss: Session) returns (n: nat)
      requires Valid()
      modifies this`retired, this`table
      ensures Valid() && n == InFlight(old(table), ss)
      ensures retired == if ss.Session? then old(retired) + {ss.id} else old(retired)
      ensures table == Cancel(old(table), if ss in old(table).sessions then old(table).sessions[ss].calls else {})
      ensures CancelsOnly(old(table), table, ss)
    {
      if ss.Session? {
        retired := retired + {ss.id};
      }
      n := CancelCalls(ss);
    }

    method Forget(ss: SessionId)
      requires Valid()
      modifies this`retired
      ensures Valid() && retired == old(retired) - {ss}
    {
      retired := retired - {ss};
    }

    // A DELETE cancels the calls of the session it names when that session is
    // the sender's own.
    method CancelSession(id: SessionId, p: Principal) returns (n: nat)
      requires Valid()
      modifies this`table
      ensures Valid()
      ensures var mine := Session(id) in old(table).sessions && old(table).sessions[Session(id)].principal == p;
              && n == (if mine then InFlight(old(table), Session(id)) else 0)
              && table == (if mine then Cancel(old(table), old(table).sessions[Session(id)].calls) else old(table))
              && (mine ==> CancelsOnly(old(table), table, Session(id)))
    {
      n := 0;
      if Session(id) in table.sessions && table.sessions[Session(id)].principal == p {
        n := CancelCalls(Session(id));
      }
    }

    // Every unreleased call is cancelled, nothing else changes, and no new call is admitted.
    method Close()
      requires Valid()
      modifies this`closed, this`table
      ensures Valid() && closed
      ensures table == Cancel(old(table), Unreleased(old(table), old(table).sessions.Keys))
      ensures forall id :: id in table.calls && !table.calls[id].released ==> table.calls[id].cancelled
      ensures table.calls.Keys == old(table).calls.Keys
      ensures forall id :: id in table.calls ==> table.calls[id] == old(table).calls[id].(cancelled := true)
    {
      hide TableOk, Unreleased, Cancel;
      closed := true;
      ghost var was := table;
      CancelsNone(was);
      var todo := table.sessions.Keys;
      ghost var done: set<Session> := {};
      while todo != {}
        invariant todo + done == was.sessions.Keys && todo !! done && Valid() && closed
        invariant table == Cancel(was, Unreleased(was, done))
        decreases |todo|
      {
        var ss :| ss in todo;
        CancelsNext(was, done, ss, perSession, perPrincipal);
        var _ := CancelCalls(ss);
        todo, done := todo - {ss}, done + {ss};
      }
      assert done == was.sessions.Keys;
      CancelsAll(was, perSession, perPrincipal);
    }
  }

  // The unreleased calls of some sessions.
  ghost function Unreleased(t: Table, sessions: set<Session>): set<CallId> {
    set id | id in t.calls && !t.calls[id].released && t.calls[id].session in sessions
  }

  lemma CancelsNext(t: Table, done: set<Session>, ss: Session, perSession: nat, perPrincipal: nat)
    requires TableOk(t, perSession, perPrincipal) && ss in t.sessions
    ensures Cancel(t, Unreleased(t, done)).sessions == t.sessions
    ensures Cancel(Cancel(t, Unreleased(t, done)), t.sessions[ss].calls) == Cancel(t, Unreleased(t, done + {ss}))
  {
    assert EntryOk(t, ss, perSession);
    var two := Cancel(Cancel(t, Unreleased(t, done)), t.sessions[ss].calls);
    var one := Cancel(t, Unreleased(t, done + {ss}));
    forall id | id in t.calls ensures two.calls[id] == one.calls[id] { assert CallOk(t, id); }
    assert two.calls == one.calls;
  }

  lemma CancelsNone(t: Table)
    ensures Cancel(t, Unreleased(t, {})) == t
  {
    assert Unreleased(t, {}) == {};
    assert Cancel(t, {}).calls == t.calls;
  }

  lemma CancelsAll(t: Table, perSession: nat, perPrincipal: nat)
    requires TableOk(t, perSession, perPrincipal)
    ensures var n := Cancel(t, Unreleased(t, t.sessions.Keys));
      && (forall id :: id in n.calls && !n.calls[id].released ==> n.calls[id].cancelled)
      && n.calls.Keys == t.calls.Keys
      && forall id :: id in n.calls ==> n.calls[id] == t.calls[id].(cancelled := true)
  {
    assert forall id :: id in t.calls ==> CallOk(t, id);
  }
}
