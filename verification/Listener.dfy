// The session code of the HTTP listener in its own form (internal/proxy/http.go):
// counters and maps that change in place. Every method is proved to be a run of
// steps of Lifecycle with nothing in between, so what Lifecycle keeps, it keeps.

module Listener {
  import opened Prelude
  import opened Sessions
  import opened Lifecycle
  import opened LifecycleSafety

  // A session that reserveSession may evict for p now.
  predicate CanEvict(x: Session, p: Principal) { Evictable(x, p) && x.busy == 0 }

  // The least recently used of them.
  ghost predicate LeastUsed(sess: map<Sid, Session>, v: Sid, p: Principal) {
    && v in sess && CanEvict(sess[v], p)
    && forall w :: w in sess && CanEvict(sess[w], p) ==> sess[v].life.clock.lastSeq <= sess[w].life.clock.lastSeq
  }

  class HttpHandler {
    const maxSessions: nat
    const maxPerPrincipal: nat
    var sessions: int
    var perPrincipal: map<Principal, nat>
    var slots: map<SlotId, Slot>
    var pending: set<SlotId>
    var useSeq: nat
    var closed: bool
    var sess: map<Sid, Session>
    var early: map<(Kind, Sid, Principal), nat>
    ghost var open: multiset<Closure>
    ghost var hold: Hold

    ghost function Caps(): Book
      reads this
    {
      Book(maxSessions, maxPerPrincipal, sessions, perPrincipal, slots, pending)
    }

    ghost function View(): State
      reads this
    {
      State(Caps(), hold, useSeq, closed, sess, Requests(early, open))
    }

    constructor (maxSessions: nat, maxPerPrincipal: nat)
      ensures View() == Init(maxSessions, maxPerPrincipal) && Inv(View())
    {
      this.maxSessions, this.maxPerPrincipal := maxSessions, maxPerPrincipal;
      sessions, perPrincipal, slots, pending, useSeq, closed := 0, map[], map[], {}, 0, false;
      sess, early, open, hold := map[], map[], multiset{}, Free;
      new;
      Initial(maxSessions, maxPerPrincipal);
    }

    function Find(sid: Sid): Session
      reads this
    {
      if sid in sess then sess[sid] else NEW_SESSION
    }

    // sessionSlot.releaseLocked.
    method ReleaseLocked(id: SlotId)
      modifies this`sessions, this`perPrincipal, this`slots
      ensures Caps() == ReleaseSlot(old(Caps()), id)
    {
      if id !in slots || slots[id].released { return; }
      var p := slots[id].principal;
      slots := slots[id := slots[id].(released := true)];
      sessions := sessions - 1;
      perPrincipal :=
        if Count(perPrincipal, p) <= 1 then perPrincipal - {p} else perPrincipal[p := perPrincipal[p] - 1];
    }

    // ---- requests ----

    // beginPOST and beginGET: what the request's end will do, or None for a request refused on an
    // evicted session.
    method Begin(k: Kind, sid: Sid, p: Principal) returns (end: Option<Closure>)
      requires Inv(View()) && hold == Free
      modifies this`sess, this`early, this`open
      ensures View() == BeginNext(old(View()), k, sid, p) && Inv(View())
      ensures end.None? <==> Finds(old(Find(sid)).life, p) && old(Find(sid)).life.evicted
      ensures end.Some? ==> open == old(open) + multiset{end.value}
      ensures end.None? ==> open == old(open)
    {
      InvKept(View(), Request(BeginRequest(k, sid, p)));
      var x := Find(sid);
      if x.life.Known? && x.life.listed {
        if x.life.owner != p {
          open := open + multiset{Nothing};
          return Some(Nothing);
        }
        if x.life.evicted { return None; }
        sess := sess[sid := SetClock(x, if k.Post? then StartPost(x.life.clock) else StartGet(x.life.clock))];
        open := open + multiset{Attached(k, sid)};
        return Some(Attached(k, sid));
      }
      early := Inc(early, (k, sid, p));
      open := open + multiset{Early(k, sid, p)};
      end := Some(Early(k, sid, p));
    }

    method End(c: Closure)
      requires Inv(View()) && hold == Free && c in open
      modifies this`sess, this`early, this`open, this`useSeq
      ensures View() == RequestNext(old(View()), RequestStep.End(c)) && Inv(View())
    {
      InvKept(View(), Request(RequestStep.End(c)));
      open := open - multiset{c};
      match c
      case Nothing =>
      case Attached(k, sid) => EndOnSession(k, sid);
      case Early(k, sid, p) =>
        var x := Find(sid);
        if x.life.Known? && x.life.listed && x.life.owner == p {
          EndOnSession(k, sid);
        } else {
          early := Dec(early, (k, sid, p));
        }
    }

    method EndOnSession(k: Kind, sid: Sid)
      modifies this`sess, this`useSeq
      ensures View() == EndOn(old(View()), k, sid)
    {
      var x := Find(sid);
      if x.life.Unknown? { return; }
      useSeq := useSeq + 1;
      sess := sess[sid := SetClock(x, if k.Post? then EndPost(x.life.clock, useSeq) else EndGet(x.life.clock, useSeq))];
    }

    // ---- settling ----

    // register.
    method Register(slot: SlotId, sid: Sid)
      requires Inv(View()) && hold == Free && slot in pending && slot in slots && Find(sid).life == Unknown
      modifies this`sess, this`early, this`pending, this`useSeq
      ensures View() == RegisterNext(old(View()), slot, sid) && Inv(View())
    {
      InvKept(View(), Settle(SettleStep.Register(slot, sid)));
      var p := slots[slot].principal;
      useSeq := useSeq + 1;
      var clock := Fresh(Count(early, (Post, sid, p)), Count(early, (Get, sid, p)), useSeq);
      sess := sess[sid := Find(sid).(life := Known(p, slot, Registered, true, false, clock))];
      early := early - {(Post, sid, p), (Get, sid, p)};
      pending := pending - {slot};
    }

    // The watcher's two steps under httpHandler.mu once Wait has returned and the clock is stopped.
    method Unregister(sid: Sid)
      requires Inv(View()) && hold == Free && At(Find(sid), Halted)
      modifies this`sess, this`hold
      ensures View() == SettleNext(SettleNext(old(View()), WatchUnlist(sid)), WatchForget(sid))
      ensures Inv(View()) && hold == Free
      ensures !Find(sid).retired
    {
      InvKept(View(), Settle(WatchUnlist(sid)));
      var x := Find(sid);
      sess := sess[sid := Enter(if x.life.evicted then x else Unlist(x), Unlisted)];
      hold := Unlisting(sid);
      InvKept(View(), Settle(WatchForget(sid)));
      sess := sess[sid := Enter(Forget(Find(sid)), Forgot)];
      hold := Free;
    }

    // forgetEvicted.
    method ForgetEvicted(sid: Sid)
      requires Inv(View()) && hold == Free && Find(sid).life.Known? && Find(sid).life.evicted
      modifies this`sess
      ensures View() == SettleNext(old(View()), DropTombstone(sid)) && Inv(View())
    {
      InvKept(View(), Settle(DropTombstone(sid)));
      sess := sess[sid := Unlist(Find(sid))];
    }

    // ---- reserveSession ----

    // The first loop of claimEvictableLocked: the principal's idle sessions and when each was last used.
    method ScanLive(p: Principal) returns (cands: map<Sid, nat>)
      requires Inv(View()) && hold == Scanning(p, 0, {}, map[])
      modifies this`hold
      ensures Inv(View()) && hold == Trying(p, 0, cands)
      ensures forall sid :: sid in cands <==> sid in sess && Evictable(sess[sid], p)
      ensures forall sid :: sid in cands && sid in sess ==>
        sess[sid].life.Known? && cands[sid] == sess[sid].life.clock.lastSeq
    {
      hide Inv, Evictable;
      cands := map[];
      var todo := set sid | sid in sess && sess[sid].life.Known? && sess[sid].life.listed;
      ghost var seen: set<Sid> := {};
      assert todo == Listed(View());
      while todo != {}
        invariant Inv(View()) && hold == Scanning(p, 0, seen, cands)
        invariant todo + seen == Listed(View()) && todo !! seen
        invariant forall sid :: sid in cands <==> sid in seen && Evictable(sess[sid], p)
        invariant forall sid :: sid in cands ==> cands[sid] == sess[sid].life.clock.lastSeq
        decreases |todo|
      {
        var sid :| sid in todo;
        cands := Consider(p, seen, cands, sid);
        todo := todo - {sid};
        seen := seen + {sid};
      }
      EvictableIsListed(View(), p);
      InvKept(View(), Reserve(ScanEnd));
      hold := Trying(p, 0, cands);
    }

    method Consider(p: Principal, ghost seen: set<Sid>, cands: map<Sid, nat>, sid: Sid) returns (more: map<Sid, nat>)
      requires Inv(View()) && hold == Scanning(p, 0, seen, cands) && sid in Listed(View()) - seen
      modifies this`hold
      ensures Inv(View()) && hold == Scanning(p, 0, seen + {sid}, more)
      ensures sid in sess && sess[sid].life.Known?
      ensures more == if Evictable(sess[sid], p) then cands[sid := sess[sid].life.clock.lastSeq] else cands
    {
      hide Inv;
      InvKept(View(), Reserve(ScanOne(sid)));
      more := cands;
      if Evictable(sess[sid], p) { more := more[sid := sess[sid].life.clock.lastSeq]; }
      hold := Scanning(p, 0, seen + {sid}, more);
    }

    // The second loop: claimIdle on each candidate, the least recently used first.
    method ClaimFirst(p: Principal, all: map<Sid, nat>) returns (victim: Option<Sid>)
      requires Inv(View()) && hold == Trying(p, 0, all)
      requires forall sid :: sid in all <==> sid in sess && Evictable(sess[sid], p)
      requires forall sid :: sid in all && sid in sess ==>
        sess[sid].life.Known? && all[sid] == sess[sid].life.clock.lastSeq
      modifies this`sess, this`hold
      ensures Inv(View())
      ensures victim.None? ==> hold == Free && sess == old(sess)
      ensures victim.None? ==> forall sid :: sid in sess ==> !CanEvict(sess[sid], p)
      ensures victim.Some? ==> LeastUsed(old(sess), victim.value, p) && hold == Evicting(p, 0, victim.value)
      ensures victim.Some? ==> victim.value in old(sess)
      ensures victim.Some? ==> sess == old(sess)[victim.value := Retire(old(sess)[victim.value])]
    {
      hide Inv;
      var cands := all;
      while cands != map[]
        invariant Inv(View()) && hold == Trying(p, 0, cands) && sess == old(sess)
        invariant forall sid :: sid in cands ==> sid in all && cands[sid] == all[sid]
        invariant forall sid :: sid in all && sid !in cands ==> sess[sid].busy > 0
        decreases |cands.Keys|
      {
        var sid := LeastKey(cands);
        assert sess[sid].busy == 0 ==> LeastUsed(sess, sid, p);
        var claimed := ClaimIdle(p, cands, sid);
        if claimed { return Some(sid); }
        assert (cands - {sid}).Keys == cands.Keys - {sid};
        cands := cands - {sid};
      }
      InvKept(View(), Reserve(TryNone));
      hold := Free;
      victim := None;
    }

    // callLimits.claimIdle: the check and the retirement are one step.
    method ClaimIdle(p: Principal, ghost cands: map<Sid, nat>, sid: Sid) returns (claimed: bool)
      requires Inv(View()) && hold == Trying(p, 0, cands) && sid in cands && sid in sess
      requires forall c :: c in cands ==> cands[sid] <= cands[c]
      modifies this`sess, this`hold
      ensures Inv(View()) && (claimed <==> old(sess)[sid].busy == 0)
      ensures claimed ==> hold == Evicting(p, 0, sid) && sess == old(sess)[sid := Retire(old(sess)[sid])]
      ensures !claimed ==> hold == Trying(p, 0, cands - {sid}) && sess == old(sess)
    {
      hide Inv;
      InvKept(View(), Reserve(TryNext(sid)));
      claimed := sess[sid].busy == 0;
      if claimed {
        sess := sess[sid := Retire(sess[sid])];
        hold := Evicting(p, 0, sid);
      } else {
        hold := Trying(p, 0, cands - {sid});
      }
    }

    // evictLocked.
    method EvictLocked(p: Principal, v: Sid)
      requires Inv(View()) && hold == Evicting(p, 0, v) && v in sess && sess[v].life.Known?
      modifies this`sessions, this`perPrincipal, this`slots, this`sess, this`hold
      ensures Inv(View()) && hold == Checking(p, 1)
      ensures sess == old(sess)[v := MarkEvicted(old(sess)[v])]
      ensures Caps() == ReleaseSlot(old(Caps()), old(sess)[v].life.slot)
    {
      hide Inv;
      InvKept(View(), Reserve(Evict));
      ReleaseLocked(sess[v].life.slot);
      sess := sess[v := MarkEvicted(sess[v])];
      hold := Checking(p, 1);
    }

    method CapsFull(p: Principal) returns (full: bool)
      ensures full <==> Full(Caps(), p)
    {
      full := Count(perPrincipal, p) >= maxPerPrincipal || sessions >= maxSessions;
    }

    // One round of reserveSession's loop: evicts a session of p, or finds none to evict.
    method EvictOne(p: Principal, ghost id: SlotId) returns (victim: Option<Sid>)
      requires Inv(View()) && hold == Checking(p, 0) && Full(Caps(), p) && id !in slots
      modifies this`sessions, this`perPrincipal, this`slots, this`sess, this`hold
      ensures Inv(View())
      ensures victim.None? ==> hold == Free && sess == old(sess) && Caps() == old(Caps())
      ensures victim.None? ==> forall sid :: sid in sess ==> !CanEvict(sess[sid], p)
      ensures victim.Some? ==> hold == Checking(p, 1) && MadeRoom(old(Caps()), old(sess), Caps(), sess, victim.value, p)
    {
      hide Inv, ReserveNext, Full, LeastUsed, CanEvict, Evictable;
      InvKept(View(), Reserve(Check(id)));
      FullScans(View(), p, id);
      hold := Scanning(p, 0, {}, map[]);
      var cands := ScanLive(p);
      victim := ClaimFirst(p, cands);
      if victim.Some? {
        RetireKeepsLife(old(sess), victim.value, p);
        EvictLocked(p, victim.value);
      }
    }

    // A slot is taken at once when the caps have room. Otherwise the principal's least recently used
    // idle session, and no other, makes room for it; with none, nothing changes.
    method ReserveSession(p: Principal, id: SlotId) returns (ok: bool)
      requires Inv(View()) && hold == Free && id !in slots
      modifies this
      ensures Inv(View()) && hold == Free && early == old(early)
      ensures open == old(open) && useSeq == old(useSeq) && closed == old(closed)
      ensures !old(Full(Caps(), p)) ==> ok && Caps() == GrantSlot(old(Caps()), id, p) && sess == old(sess)
      ensures old(Full(Caps(), p)) && ok ==>
        exists v, b :: MadeRoom(old(Caps()), old(sess), b, sess, v, p) && Caps() == GrantSlot(b, id, p)
      ensures ok <==> !old(Full(Caps(), p)) || exists v :: v in old(sess) && CanEvict(old(sess)[v], p)
      ensures !ok ==> View() == old(View())
    {
      hide Inv, Full, MadeRoom, ReserveNext, CanEvict;
      BeginChecks(View(), p);
      hold := Checking(p, 0);
      ghost var evicted := 0;
      ghost var v: Option<Sid> := None;
      while true
        invariant Inv(View()) && hold == Checking(p, evicted) && evicted <= 1 && id !in slots
        invariant early == old(early) && open == old(open) && useSeq == old(useSeq) && closed == old(closed)
        invariant evicted == 0 ==> sess == old(sess) && Caps() == old(Caps())
        invariant evicted == 1 ==> old(Full(Caps(), p)) && v.Some?
        invariant evicted == 1 ==> MadeRoom(old(Caps()), old(sess), Caps(), sess, v.value, p)
        decreases 1 - evicted
      {
        var full := CapsFull(p);
        if !full { break; }
        EvictionSuffices(View(), p, evicted);
        var victim := EvictOne(p, id);
        if victim.None? { return false; }
        RoomKeepsSlots(old(Caps()), old(sess), Caps(), sess, victim.value, p);
        evicted, v := 1, victim;
      }
      if evicted == 1 { RoomKeepsSlots(old(Caps()), old(sess), Caps(), sess, v.value, p); }
      CheckGrants(View(), p, id);
      slots := slots[id := Slot(p, false)];
      sessions := sessions + 1;
      perPrincipal := Inc(perPrincipal, p);
      pending := pending + {id};
      hold := Free;
      ok := true;
    }
  }

  // v, the least recently used idle session of p, has been evicted and its slot given back.
  ghost predicate MadeRoom(b: Book, sess: map<Sid, Session>, c: Book, left: map<Sid, Session>, v: Sid, p: Principal) {
    && LeastUsed(sess, v, p) && sess[v].life.Known?
    && left == sess[v := MarkEvicted(Retire(sess[v]))] && c == ReleaseSlot(b, sess[v].life.slot)
  }

  lemma RoomKeepsSlots(b: Book, sess: map<Sid, Session>, c: Book, left: map<Sid, Session>, v: Sid, p: Principal)
    requires MadeRoom(b, sess, c, left, v, p)
    ensures c.slots.Keys == b.slots.Keys && v in sess && CanEvict(sess[v], p)
  {
  }

  lemma RetireKeepsLife(sess: map<Sid, Session>, v: Sid, p: Principal)
    requires LeastUsed(sess, v, p)
    ensures v in sess && sess[v].life.Known? && Retire(sess[v]).life == sess[v].life
  {
  }

  lemma EvictableIsListed(s: State, p: Principal)
    ensures forall sid :: sid in s.sess && Evictable(s.sess[sid], p) ==> sid in Listed(s)
  {
  }

  lemma BeginChecks(s: State, p: Principal)
    requires Inv(s) && s.hold == Free
    ensures Inv(s.(hold := Checking(p, 0)))
  {
    hide Inv;
    InvKept(s, Reserve(ReserveStep.Begin(p)));
  }

  lemma FullScans(s: State, p: Principal, id: SlotId)
    requires s.hold == Checking(p, 0) && Full(s.book, p) && id !in s.book.slots
    ensures Enabled(s, Reserve(Check(id))) && Next(s, Reserve(Check(id))) == s.(hold := Scanning(p, 0, {}, map[]))
  {
  }

  lemma CheckGrants(s: State, p: Principal, id: SlotId)
    requires Inv(s) && s.hold.Checking? && s.hold.p == p && !Full(s.book, p) && id !in s.book.slots
    ensures Inv(s.(book := GrantSlot(s.book, id, p), hold := Free))
  {
    hide Inv;
    InvKept(s, Reserve(Check(id)));
  }

  method LeastKey(cands: map<Sid, nat>) returns (sid: Sid)
    requires cands != map[]
    ensures sid in cands && forall c :: c in cands ==> cands[sid] <= cands[c]
  {
    var todo := cands.Keys;
    sid :| sid in todo;
    todo := todo - {sid};
    while todo != {}
      invariant sid in cands && todo <= cands.Keys
      invariant forall c :: c in cands && c !in todo ==> cands[sid] <= cands[c]
      decreases |todo|
    {
      var c :| c in todo;
      if cands[c] < cands[sid] { sid := c; }
      todo := todo - {c};
    }
  }

  // After one eviction the caps have room.
  lemma EvictionSuffices(s: State, p: Principal, evicted: nat)
    requires Inv(s) && s.hold == Checking(p, evicted) && Full(s.book, p)
    ensures evicted == 0
  {
  }
}
