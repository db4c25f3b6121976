// Calls and Lifecycle tell the same story: what Lifecycle keeps of a session's calls is a view of
// callLimits, and each of its methods moves that view by one step of Lifecycle, or not at all.

module Admission {
  import opened Prelude
  import opened Lifecycle
  import opened Sessions
  import C = Calls

  // The number by which callLimits knows a session; no two share one.
  type Name = Sid -> C.SessionId

  ghost predicate Distinguishes(name: Name) { forall a, b :: name(a) == name(b) ==> a == b }

  predicate AgreesOn(x: Session, t: C.Table, retired: set<C.SessionId>, id: C.SessionId) {
    x.busy == C.InFlight(t, C.Session.Session(id)) && (x.retired <==> id in retired)
  }

  ghost predicate Agrees(s: State, l: C.CallLimits, name: Name)
    reads l
  {
    s.closed == l.closed && forall sid :: AgreesOn(Look(s, sid), l.table, l.retired, name(sid))
  }

  // Both caps have room for a call of p on the session.
  predicate Room(l: C.CallLimits, ss: C.Session, p: C.Principal)
    reads l
  {
    C.InFlight(l.table, ss) < l.perSession && Count(l.table.principals, p) < l.perPrincipal
  }

  method Admit(l: C.CallLimits, p: C.Principal, id: C.SessionId, ghost s: State, ghost sid: Sid, ghost name: Name)
    returns (why: Option<C.Refusal>, call: C.CallId, ghost t: Step)
    requires l.Valid() && Distinguishes(name) && Agrees(s, l, name) && id == name(sid) && Look(s, sid).delivered > 0
    modifies l`table
    ensures l.Valid() && t == Step.Call(CallStep.Admit(sid, old(Room(l, C.Session.Session(id), p))))
    ensures Enabled(s, t) && Agrees(Next(s, t), l, name)
    ensures why.None? <==> AdmitSucceeds(s, sid, old(Room(l, C.Session.Session(id), p)))
  {
    hide C.TableOk;
    t := Step.Call(CallStep.Admit(sid, Room(l, C.Session.Session(id), p)));
    assert AgreesOn(Look(s, sid), l.table, l.retired, name(sid));
    ghost var was := l.table;
    why, call := l.Admit(p, C.Session.Session(id));
    forall a ensures AgreesOn(Look(Next(s, t), a), l.table, l.retired, name(a)) {
      assert AgreesOn(Look(s, a), was, l.retired, name(a));
    }
  }

  // The first release of a call ends it; another changes nothing.
  method Release(l: C.CallLimits, call: C.CallId, ghost s: State, ghost sid: Sid, ghost name: Name)
    requires l.Valid() && Distinguishes(name) && Agrees(s, l, name)
    requires call in l.table.calls && l.table.calls[call].session == C.Session.Session(name(sid))
    modifies l`table
    ensures l.Valid()
    ensures old(l.table.calls[call].released) ==> Agrees(s, l, name)
    ensures !old(l.table.calls[call].released) ==>
      Enabled(s, Step.Call(CallEnd(sid))) && Agrees(Next(s, Step.Call(CallEnd(sid))), l, name)
  {
    hide C.TableOk;
    ghost var was := l.table;
    C.ReleaseKeeps(l.table, call, l.perSession, l.perPrincipal);
    assert AgreesOn(Look(s, sid), l.table, l.retired, name(sid));
    l.Release(call);
    if !was.calls[call].released {
      forall a ensures AgreesOn(Look(Next(s, Step.Call(CallEnd(sid))), a), l.table, l.retired, name(a)) {
        assert AgreesOn(Look(s, a), was, l.retired, name(a));
      }
    } else {
      forall a ensures AgreesOn(Look(s, a), l.table, l.retired, name(a)) {
        assert AgreesOn(Look(s, a), was, l.retired, name(a));
      }
    }
  }

  // claimIdle, on a candidate of reserveSession.
  method ClaimIdle(l: C.CallLimits, id: C.SessionId, ghost s: State, ghost sid: Sid, ghost name: Name)
    returns (claimed: bool)
    requires l.Valid() && Distinguishes(name) && Agrees(s, l, name)
    requires id == name(sid) && Enabled(s, Reserve(TryNext(sid)))
    modifies l`retired
    ensures l.Valid() && Agrees(Next(s, Reserve(TryNext(sid))), l, name)
    ensures claimed <==> Next(s, Reserve(TryNext(sid))).hold.Evicting?
  {
    hide C.TableOk;
    ghost var was := l.retired;
    assert AgreesOn(Look(s, sid), l.table, l.retired, name(sid));
    claimed := l.ClaimIdle(C.Session.Session(id));
    forall a ensures AgreesOn(Look(Next(s, Reserve(TryNext(sid))), a), l.table, l.retired, name(a)) {
      assert AgreesOn(Look(s, a), l.table, was, name(a));
    }
  }

  // retire, when the idle clock expires a session.
  method Retire(l: C.CallLimits, id: C.SessionId, ghost s: State, ghost sid: Sid, ghost name: Name)
    returns (cancelled: nat)
    requires l.Valid() && Distinguishes(name) && Agrees(s, l, name) && id == name(sid)
    requires Enabled(s, Request(Expire(sid))) && Expirable(Look(s, sid).life.clock)
    modifies l`retired, l`table
    ensures l.Valid() && Agrees(Next(s, Request(Expire(sid))), l, name) && cancelled == Look(s, sid).busy
  {
    hide C.TableOk;
    ghost var was, table := l.retired, l.table;
    assert AgreesOn(Look(s, sid), l.table, l.retired, name(sid));
    cancelled := l.Retire(C.Session.Session(id));
    forall a ensures AgreesOn(Look(Next(s, Request(Expire(sid))), a), l.table, l.retired, name(a)) {
      assert AgreesOn(Look(s, a), table, was, name(a));
    }
  }

  // forget, by the session's watcher.
  method Forget(l: C.CallLimits, id: C.SessionId, ghost s: State, ghost sid: Sid, ghost name: Name)
    requires l.Valid() && Distinguishes(name) && Agrees(s, l, name)
    requires id == name(sid) && Enabled(s, Settle(WatchForget(sid)))
    modifies l`retired
    ensures l.Valid() && Agrees(Next(s, Settle(WatchForget(sid))), l, name)
  {
    hide C.TableOk;
    ghost var was := l.retired;
    l.Forget(id);
    forall a ensures AgreesOn(Look(Next(s, Settle(WatchForget(sid))), a), l.table, l.retired, name(a)) {
      assert AgreesOn(Look(s, a), l.table, was, name(a));
    }
  }

  // A DELETE cancels calls, which only their ends take out of the count.
  method CancelSession(l: C.CallLimits, id: C.SessionId, p: C.Principal, ghost s: State, ghost name: Name)
    returns (cancelled: nat)
    requires l.Valid() && Agrees(s, l, name)
    modifies l`table
    ensures l.Valid() && Agrees(s, l, name)
  {
    hide C.TableOk;
    ghost var was := l.table;
    cancelled := l.CancelSession(id, p);
    forall a ensures AgreesOn(Look(s, a), l.table, l.retired, name(a)) {
      assert AgreesOn(Look(s, a), was, l.retired, name(a));
    }
  }

  method Close(l: C.CallLimits, ghost s: State, ghost name: Name)
    requires l.Valid() && Agrees(s, l, name)
    modifies l`closed, l`table
    ensures l.Valid() && Agrees(Next(s, Step.Call(CloseLimits)), l, name)
  {
    hide C.TableOk;
    ghost var was := l.table;
    l.Close();
    forall a ensures AgreesOn(Look(Next(s, Step.Call(CloseLimits)), a), l.table, l.retired, name(a)) {
      assert AgreesOn(Look(s, a), was, l.retired, name(a));
    }
  }
}
