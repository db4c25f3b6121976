// What every interleaving of the session lifecycle keeps.

module LifecycleSafety {
  import opened Prelude
  import opened Sessions
  import opened Lifecycle

  // ---- one session ----

  predicate SlotReturned(x: Session) { x.life.Known? && (x.life.phase.Gone? || x.life.phase.Dropped?) }

  // Retirement is for good: a session leaves retired only when its watcher
  // forgets it, and by then no call on it can reach admit.
  ghost predicate SessionOk(x: Session, unlisting: bool, closed: bool) {
    && (x.ended ==> x.delivered == 0)
    && (x.retired ==> x.taken) && (x.taken ==> x.retired || x.forgotten)
    && !(x.retired && x.forgotten)
    && match x.life
       case Unknown => !x.taken && !x.forgotten && !unlisting
       case Known(_, _, ph, listed, evicted, clock) =>
         && ClockExact(clock)
         && (ph.Halted? || ph.Unlisted? || ph.Forgot? || ph.Gone? ==> x.ended && clock.stopped)
         && (ph.Unlisted? || ph.Forgot? || ph.Gone? || ph.Unserved? || ph.Dropped? ==> !listed || evicted)
         && (ph.Registered? || ph.Waiting? || ph.Halted? || ph.Closing? ==> listed || evicted)
         && (ph.Unlisted? <==> unlisting)
         && (ph.Forgot? || ph.Gone? <==> x.forgotten)
         && (ph.Registered? || ph.Closing? || ph.Unserved? || ph.Dropped? ==> !clock.armed)
         && (ph.Closing? || ph.Unserved? || ph.Dropped? ==> closed)
         && (evicted ==> clock.stopped && x.busy == 0 && x.taken)
         && (clock.stopped ==> x.taken || x.ended)
  }

  ghost predicate SessionsOk(s: State) {
    forall sid :: SessionOk(Look(s, sid), s.hold == Unlisting(sid), s.closed)
  }

  // ---- the early-to-live handoff ----

  function InUse(c: Clock, k: Kind): int { if k.Post? then c.active else c.gets }

  // What is counted for p's requests on sid: before registration in early,
  // while listed in the session's own counter. Once the session has left live
  // its counter still covers every request that will end on it.
  ghost predicate HandoffOk(r: Requests, l: Life, k: Kind, sid: Sid, p: Principal) {
    var n := r.open[Early(k, sid, p)];
    if l.Known? && l.owner == p then
      if l.listed then InUse(l.clock, k) == n + r.open[Attached(k, sid)] && (k, sid, p) !in r.early
      else InUse(l.clock, k) >= r.open[Attached(k, sid)] && Count(r.early, (k, sid, p)) <= n
    else Count(r.early, (k, sid, p)) == n
  }

  ghost predicate HandoffAt(s: State, k: Kind, sid: Sid, p: Principal) {
    HandoffOk(s.req, Look(s, sid).life, k, sid, p)
  }

  ghost predicate NoStray(s: State, sid: Sid) {
    Look(s, sid).life.Unknown? ==> forall k :: Attached(k, sid) !in s.req.open
  }

  ghost predicate Handoff(s: State) { (forall k, sid, p :: HandoffAt(s, k, sid, p)) && forall sid :: NoStray(s, sid) }

  // ---- httpHandler.mu held over several steps ----

  // A candidate stays free of requests while httpHandler.mu is held.
  ghost predicate CandidateOf(x: Session, p: Principal) {
    && x.life.Known? && x.life.listed && x.life.owner == p && !x.life.evicted
    && x.life.clock.active == 0 && x.life.clock.gets == 0
  }

  // At most one eviction, after which the caps have room.
  ghost predicate HoldInv(s: State) {
    match s.hold
    case Free => true
    case Unlisting(_) => true
    case Checking(p, n) => n == 0 || (n == 1 && !Full(s.book, p))
    case Scanning(p, n, _, cands) => n == 0 && Full(s.book, p) && forall c :: c in cands ==> CandidateOf(Look(s, c), p)
    case Trying(p, n, cands) => n == 0 && Full(s.book, p) && forall c :: c in cands ==> CandidateOf(Look(s, c), p)
    case Evicting(p, n, v) =>
      && n == 0 && Full(s.book, p)
      && CandidateOf(Look(s, v), p) && Look(s, v).busy == 0 && Look(s, v).retired
  }

  // ---- slots ----

  ghost function OpenSlots(slots: map<SlotId, Slot>): set<SlotId> {
    set id | id in slots && !slots[id].released
  }

  ghost function OpenOf(slots: map<SlotId, Slot>, p: Principal): set<SlotId> {
    set id | id in slots && !slots[id].released && slots[id].principal == p
  }

  ghost predicate PerPrincipalOk(b: Book, p: Principal) {
    Count(b.perPrincipal, p) == |OpenOf(b.slots, p)| <= b.maxPerPrincipal
  }

  ghost predicate BookOk(b: Book) {
    && b.sessions == |OpenSlots(b.slots)| <= b.maxSessions
    && (forall p :: PerPrincipalOk(b, p))
    && (forall id :: id in b.pending ==> id in b.slots && !b.slots[id].released)
  }

  // A session keeps its slot until it is evicted or its settling goroutine
  // has given it back.
  ghost predicate SlotOk(b: Book, x: Session) {
    x.life.Known? ==>
      && x.life.slot in b.slots && x.life.slot !in b.pending && b.slots[x.life.slot].principal == x.life.owner
      && (b.slots[x.life.slot].released <==> x.life.evicted || SlotReturned(x))
  }

  ghost predicate Apart(x: Session, y: Session) { x.life.Known? && y.life.Known? ==> x.life.slot != y.life.slot }

  ghost predicate SlotsOk(s: State) {
    && BookOk(s.book)
    && (forall sid :: SlotOk(s.book, Look(s, sid)))
    && (forall a, b :: a != b ==> Apart(Look(s, a), Look(s, b)))
  }

  ghost predicate Inv(s: State) { SessionsOk(s) && Handoff(s) && HoldInv(s) && SlotsOk(s) }

  // ---- slot arithmetic ----

  lemma OpenAfterGrant(b: Book, id: SlotId, p: Principal, q: Principal)
    requires id !in b.slots
    ensures OpenOf(GrantSlot(b, id, p).slots, q) == if q == p then OpenOf(b.slots, q) + {id} else OpenOf(b.slots, q)
    ensures OpenSlots(GrantSlot(b, id, p).slots) == OpenSlots(b.slots) + {id}
  {
  }

  lemma Granted(b: Book, id: SlotId, p: Principal)
    requires BookOk(b) && id !in b.slots && !Full(b, p)
    ensures BookOk(GrantSlot(b, id, p))
  {
    var n := GrantSlot(b, id, p);
    OpenAfterGrant(b, id, p, p);
    forall q ensures PerPrincipalOk(n, q) {
      assert PerPrincipalOk(b, q);
      OpenAfterGrant(b, id, p, q);
    }
  }

  // Releasing an open slot frees exactly one place, of its own principal;
  // releasing a released slot does nothing.
  lemma Released(b: Book, id: SlotId)
    requires BookOk(b) && id in b.slots
    ensures BookOk(Settled(ReleaseSlot(b, id), id))
    ensures id !in b.pending ==> BookOk(ReleaseSlot(b, id))
    ensures if b.slots[id].released then ReleaseSlot(b, id) == b
            else var n := ReleaseSlot(b, id); var p := b.slots[id].principal;
                 n.sessions == b.sessions - 1 && Count(n.perPrincipal, p) == Count(b.perPrincipal, p) - 1
  {
    var n := ReleaseSlot(b, id);
    var m := Settled(n, id);
    assert PerPrincipalOk(b, b.slots[id].principal);
    assert !b.slots[id].released ==> id in OpenOf(b.slots, b.slots[id].principal);
    assert OpenSlots(n.slots) == OpenSlots(b.slots) - {id};
    forall q ensures PerPrincipalOk(n, q) && PerPrincipalOk(m, q) {
      assert PerPrincipalOk(b, q);
      assert OpenOf(n.slots, q) == OpenOf(b.slots, q) - {id};
    }
  }

  lemma EvictionMakesRoom(b: Book, x: Session, p: Principal)
    requires BookOk(b) && SlotOk(b, x) && x.life.Known? && x.life.owner == p && !x.life.evicted && !SlotReturned(x)
    ensures !Full(ReleaseSlot(b, x.life.slot), p)
  {
    Released(b, x.life.slot);
    assert PerPrincipalOk(b, p);
  }

  // ---- SessionsOk is kept ----

  lemma SessionsKept(s: State, t: Step)
    requires SessionsOk(s) && Handoff(s) && HoldInv(s) && Enabled(s, t)
    ensures SessionsOk(Next(s, t))
  {
    match t
    case Reserve(r) => SessionsReserve(s, r);
    case Settle(w) => SessionsSettle(s, w);
    case Request(q) => SessionsRequest(s, q);
    case Call(a) => SessionsCall(s, a);
  }

  lemma SessionsReserve(s: State, r: ReserveStep)
    requires SessionsOk(s) && HoldInv(s) && ReserveEnabled(s, r)
    ensures SessionsOk(ReserveNext(s, r))
  {
    var n := ReserveNext(s, r);
    forall sid ensures SessionOk(Look(n, sid), n.hold == Unlisting(sid), n.closed) {
      assert SessionOk(Look(s, sid), s.hold == Unlisting(sid), s.closed);
    }
  }

  predicate ByWatcher(w: SettleStep) { w.WatchStop? || w.WatchUnlist? || w.WatchForget? || w.WatchRelease? }

  lemma SessionsSettle(s: State, w: SettleStep)
    requires SessionsOk(s) && SettleEnabled(s, w)
    ensures SessionsOk(SettleNext(s, w))
  {
    hide SessionsOk, SettleEnabled, SettleNext;
    if ByWatcher(w) { SessionsWatch(s, w); } else { SessionsOther(s, w); }
  }

  lemma SessionsWatch(s: State, w: SettleStep)
    requires SessionsOk(s) && SettleEnabled(s, w) && ByWatcher(w)
    ensures SessionsOk(SettleNext(s, w))
  {
    hide ReleaseSlot;
    var n := SettleNext(s, w);
    forall sid ensures SessionOk(Look(n, sid), n.hold == Unlisting(sid), n.closed) {
      assert SessionOk(Look(s, sid), s.hold == Unlisting(sid), s.closed);
    }
  }

  lemma SessionsOther(s: State, w: SettleStep)
    requires SessionsOk(s) && SettleEnabled(s, w) && !ByWatcher(w)
    ensures SessionsOk(SettleNext(s, w))
  {
    hide ReleaseSlot;
    var n := SettleNext(s, w);
    forall sid ensures SessionOk(Look(n, sid), n.hold == Unlisting(sid), n.closed) {
      assert SessionOk(Look(s, sid), s.hold == Unlisting(sid), s.closed);
    }
  }

  // A request in progress that will end on a session is counted there.
  ghost predicate CountedOn(l: Life, c: Closure) {
    match c
    case Nothing => true
    case Attached(k, _) => l.Known? && InUse(l.clock, k) > 0
    case Early(k, _, p) => Finds(l, p) ==> InUse(l.clock, k) > 0
  }

  lemma CountedOnSession(s: State, c: Closure)
    requires Handoff(s) && c in s.req.open && !c.Nothing?
    ensures CountedOn(Look(s, c.sid).life, c)
  {
    assert NoStray(s, c.sid);
    var l := Look(s, c.sid).life;
    if c.Early? {
      assert HandoffAt(s, c.k, c.sid, c.p);
    } else if l.Known? {
      assert HandoffAt(s, c.k, c.sid, l.owner);
    }
  }

  lemma SessionsRequest(s: State, q: RequestStep)
    requires SessionsOk(s) && Handoff(s) && RequestEnabled(s, q)
    ensures SessionsOk(RequestNext(s, q))
  {
    var n := RequestNext(s, q);
    if q.End? && !q.c.Nothing? { CountedOnSession(s, q.c); }
    forall sid ensures SessionOk(Look(n, sid), n.hold == Unlisting(sid), n.closed) {
      assert SessionOk(Look(s, sid), s.hold == Unlisting(sid), s.closed);
    }
  }

  lemma SessionsCall(s: State, a: CallStep)
    requires SessionsOk(s) && CallEnabled(s, a)
    ensures SessionsOk(CallNext(s, a))
  {
    var n := CallNext(s, a);
    forall sid ensures SessionOk(Look(n, sid), n.hold == Unlisting(sid), n.closed) {
      assert SessionOk(Look(s, sid), s.hold == Unlisting(sid), s.closed);
    }
  }

  // ---- Handoff is kept ----

  lemma HandoffKept(s: State, t: Step)
    requires Handoff(s) && Enabled(s, t)
    ensures Handoff(Next(s, t))
  {
    match t
    case Reserve(r) => HandoffReserve(s, r);
    case Settle(w) => HandoffSettle(s, w);
    case Request(q) =>
      match q {
        case BeginRequest(k, sid, p) => HandoffBegin(s, k, sid, p);
        case End(c) => HandoffEnd(s, c);
        case Expire(sid) => HandoffExpire(s, sid);
      }
    case Call(a) => HandoffCall(s, a);
  }

  lemma HandoffReserve(s: State, r: ReserveStep)
    requires Handoff(s) && ReserveEnabled(s, r)
    ensures Handoff(ReserveNext(s, r))
  {
    var n := ReserveNext(s, r);
    forall k, sid, p ensures HandoffAt(n, k, sid, p) { assert HandoffAt(s, k, sid, p); }
    forall sid ensures NoStray(n, sid) { assert NoStray(s, sid); }
  }

  lemma HandoffSettle(s: State, w: SettleStep)
    requires Handoff(s) && SettleEnabled(s, w)
    ensures Handoff(SettleNext(s, w))
  {
    hide ReleaseSlot;
    var n := SettleNext(s, w);
    forall sid ensures NoStray(n, sid) { assert NoStray(s, sid); }
    forall k, sid, p ensures HandoffAt(n, k, sid, p) {
      assert HandoffAt(s, k, sid, p);
      assert NoStray(s, sid);
    }
  }

  lemma HandoffCall(s: State, a: CallStep)
    requires Handoff(s) && CallEnabled(s, a)
    ensures Handoff(CallNext(s, a))
  {
    var n := CallNext(s, a);
    forall sid ensures Look(n, sid).life == Look(s, sid).life {}
    forall k, sid, p ensures HandoffAt(n, k, sid, p) { assert HandoffAt(s, k, sid, p); }
    forall sid ensures NoStray(n, sid) { assert NoStray(s, sid); }
  }

  lemma HandoffExpire(s: State, sid: Sid)
    requires Handoff(s) && Look(s, sid).life.Known?
    ensures Handoff(ExpireNext(s, sid))
  {
    var n := ExpireNext(s, sid);
    forall k, a, p ensures HandoffAt(n, k, a, p) { assert HandoffAt(s, k, a, p); }
    forall a ensures NoStray(n, a) { assert NoStray(s, a); }
  }

  lemma HandoffBegin(s: State, k: Kind, sid: Sid, p: Principal)
    requires Handoff(s)
    ensures Handoff(BeginNext(s, k, sid, p))
  {
    hide HandoffAt, NoStray, BeginNext;
    var n := BeginNext(s, k, sid, p);
    forall j, a, q ensures HandoffAt(n, j, a, q) {
      assert HandoffAt(s, j, a, q);
      BeginKeepsCount(s, k, sid, p, j, a, q);
    }
    forall a ensures NoStray(n, a) {
      assert NoStray(s, a);
      BeginKeepsStray(s, k, sid, p, a);
    }
  }

  lemma BeginKeepsCount(s: State, k: Kind, sid: Sid, p: Principal, j: Kind, a: Sid, q: Principal)
    requires HandoffAt(s, j, a, q)
    ensures HandoffAt(BeginNext(s, k, sid, p), j, a, q)
  {
    hide HandoffOk, StartPost, StartGet;
    var l, m := Look(s, a).life, Look(s, sid).life;
    if m.Known? && m.listed {
      NothingOpened(s.req, l, j, a, q);
      AttachedOpened(s.req, l, k, sid, j, a, q);
    } else {
      EarlyOpened(s.req, l, k, sid, p, j, a, q);
    }
  }

  lemma NothingOpened(r: Requests, l: Life, j: Kind, a: Sid, q: Principal)
    requires HandoffOk(r, l, j, a, q)
    ensures HandoffOk(Opened(r, Nothing), l, j, a, q)
  {
  }

  lemma EarlyOpened(r: Requests, l: Life, k: Kind, sid: Sid, p: Principal, j: Kind, a: Sid, q: Principal)
    requires HandoffOk(r, l, j, a, q) && (a == sid ==> !(l.Known? && l.listed))
    ensures HandoffOk(Opened(r.(early := Inc(r.early, (k, sid, p))), Early(k, sid, p)), l, j, a, q)
  {
    var n := Opened(r.(early := Inc(r.early, (k, sid, p))), Early(k, sid, p));
    var same := (k, sid, p) == (j, a, q);
    assert Count(n.early, (j, a, q)) == Count(r.early, (j, a, q)) + if same then 1 else 0;
    assert n.open[Early(j, a, q)] == r.open[Early(j, a, q)] + if same then 1 else 0;
    assert n.open[Attached(j, a)] == r.open[Attached(j, a)];
  }

  lemma AttachedOpened(r: Requests, l: Life, k: Kind, sid: Sid, j: Kind, a: Sid, q: Principal)
    requires HandoffOk(r, l, j, a, q)
    ensures a == sid && l.Known? ==>
      var started := if k.Post? then StartPost(l.clock) else StartGet(l.clock);
      HandoffOk(Opened(r, Attached(k, sid)), l.(clock := started), j, a, q)
    ensures a != sid ==> HandoffOk(Opened(r, Attached(k, sid)), l, j, a, q)
  {
    var n := Opened(r, Attached(k, sid));
    assert n.open[Early(j, a, q)] == r.open[Early(j, a, q)];
    assert n.open[Attached(j, a)] == r.open[Attached(j, a)] + if (k, sid) == (j, a) then 1 else 0;
  }

  lemma BeginKeepsStray(s: State, k: Kind, sid: Sid, p: Principal, a: Sid)
    requires NoStray(s, a)
    ensures NoStray(BeginNext(s, k, sid, p), a)
  {
  }

  lemma HandoffEnd(s: State, c: Closure)
    requires Handoff(s) && c in s.req.open
    ensures Handoff(EndNext(s.(req := Closed(s.req, c)), c))
  {
    match c
    case Nothing =>
      var n := s.(req := Closed(s.req, c));
      forall j, a, q ensures HandoffAt(n, j, a, q) { assert HandoffAt(s, j, a, q); }
      forall a ensures NoStray(n, a) { assert NoStray(s, a); }
    case Attached(k, sid) =>
      CountedOnSession(s, c);
      HandoffEndOn(s, c);
    case Early(k, sid, p) =>
      CountedOnSession(s, c);
      if Finds(Look(s, sid).life, p) { HandoffEndOn(s, c); } else { HandoffEndEarly(s, c); }
  }

  lemma HandoffEndOn(s: State, c: Closure)
    requires Handoff(s) && c in s.req.open && !c.Nothing?
    requires Look(s, c.sid).life.Known? && CountedOn(Look(s, c.sid).life, c)
    requires c.Early? ==> Finds(Look(s, c.sid).life, c.p)
    ensures Handoff(EndOn(s.(req := Closed(s.req, c)), c.k, c.sid))
  {
    var n := EndOn(s.(req := Closed(s.req, c)), c.k, c.sid);
    forall j, a, q ensures HandoffAt(n, j, a, q) {
      assert HandoffAt(s, j, a, q);
      if a == c.sid { assert Look(n, a).life.owner == Look(s, a).life.owner; } else { assert Look(n, a) == Look(s, a); }
    }
    forall a ensures NoStray(n, a) { assert NoStray(s, a); }
  }

  lemma HandoffEndEarly(s: State, c: Closure)
    requires Handoff(s) && c in s.req.open && c.Early? && !Finds(Look(s, c.sid).life, c.p)
    ensures Handoff(EndNext(s.(req := Closed(s.req, c)), c))
  {
    var n := EndNext(s.(req := Closed(s.req, c)), c);
    forall j, a, q ensures HandoffAt(n, j, a, q) { assert HandoffAt(s, j, a, q); }
    forall a ensures NoStray(n, a) { assert NoStray(s, a); }
  }

  // ---- HoldInv is kept ----

  lemma HoldKept(s: State, t: Step)
    requires SessionsOk(s) && Handoff(s) && HoldInv(s) && SlotsOk(s) && Enabled(s, t)
    ensures HoldInv(Next(s, t))
  {
    match t
    case Reserve(r) => HoldReserve(s, r);
    case Settle(w) => HoldSettle(s, w);
    case Request(q) => HoldRequest(s, q);
    case Call(a) => HoldCall(s, a);
  }

  lemma HoldReserve(s: State, r: ReserveStep)
    requires SessionsOk(s) && HoldInv(s) && SlotsOk(s) && ReserveEnabled(s, r)
    ensures HoldInv(ReserveNext(s, r))
  {
    if r.Evict? {
      assert SessionOk(Look(s, s.hold.victim), false, s.closed);
      EvictionMakesRoom(s.book, Look(s, s.hold.victim), s.hold.p);
    }
  }

  lemma HoldSettle(s: State, w: SettleStep)
    requires SessionsOk(s) && HoldInv(s) && SettleEnabled(s, w)
    ensures HoldInv(SettleNext(s, w))
  {
  }

  lemma HoldRequest(s: State, q: RequestStep)
    requires SessionsOk(s) && Handoff(s) && HoldInv(s) && RequestEnabled(s, q)
    ensures HoldInv(RequestNext(s, q))
  {
    if q.End? && !q.c.Nothing? { CountedOnSession(s, q.c); }
  }

  lemma HoldCall(s: State, a: CallStep)
    requires HoldInv(s) && CallEnabled(s, a)
    ensures HoldInv(CallNext(s, a))
  {
  }

  // ---- SlotsOk is kept ----

  lemma SlotsKept(s: State, t: Step)
    requires SessionsOk(s) && HoldInv(s) && SlotsOk(s) && Enabled(s, t)
    ensures SlotsOk(Next(s, t))
  {
    hide SessionsOk, HoldInv, SlotsOk, ReserveEnabled, SettleEnabled, RequestEnabled, CallEnabled;
    hide ReserveNext, SettleNext, RequestNext, CallNext;
    match t
    case Reserve(r) => SlotsReserve(s, r);
    case Settle(w) => SlotsSettle(s, w);
    case Request(q) => SlotsRequest(s, q);
    case Call(a) => SlotsCall(s, a);
  }

  lemma SlotsRequest(s: State, q: RequestStep)
    requires SlotsOk(s) && RequestEnabled(s, q)
    ensures SlotsOk(RequestNext(s, q))
  {
    hide SlotsOk;
    SlotsUnchanged(s, RequestNext(s, q));
  }

  lemma SlotsCall(s: State, a: CallStep)
    requires SlotsOk(s) && CallEnabled(s, a)
    ensures SlotsOk(CallNext(s, a))
  {
    hide SlotsOk;
    SlotsUnchanged(s, CallNext(s, a));
  }

  // Nothing SlotsOk reads has changed.
  lemma SlotsUnchanged(s: State, n: State)
    requires SlotsOk(s) && n.book == s.book
    requires forall sid :: var l, m := Look(s, sid).life, Look(n, sid).life;
               l == m || (l.Known? && m.Known? && m == l.(clock := m.clock))
    ensures SlotsOk(n)
  {
    forall sid ensures SlotOk(n.book, Look(n, sid)) { assert SlotOk(s.book, Look(s, sid)); }
    forall a, b | a != b ensures Apart(Look(n, a), Look(n, b)) { assert Apart(Look(s, a), Look(s, b)); }
  }

  lemma SlotsReserve(s: State, r: ReserveStep)
    requires SessionsOk(s) && HoldInv(s) && SlotsOk(s) && ReserveEnabled(s, r)
    ensures SlotsOk(ReserveNext(s, r))
  {
    var n := ReserveNext(s, r);
    if r.Check? && !Full(s.book, s.hold.p) { Granted(s.book, r.id, s.hold.p); }
    if r.Evict? {
      assert SlotOk(s.book, Look(s, s.hold.victim));
      Released(s.book, Look(s, s.hold.victim).life.slot);
    }
    forall sid ensures SlotOk(n.book, Look(n, sid)) { assert SlotOk(s.book, Look(s, sid)); }
    forall a, b | a != b ensures Apart(Look(n, a), Look(n, b)) { assert Apart(Look(s, a), Look(s, b)); }
  }

  lemma SlotsSettle(s: State, w: SettleStep)
    requires SessionsOk(s) && SlotsOk(s) && SettleEnabled(s, w)
    ensures SlotsOk(SettleNext(s, w))
  {
    var n := SettleNext(s, w);
    if w.Drop? { Released(s.book, w.slot); }
    if w.Register? { forall q ensures PerPrincipalOk(n.book, q) { assert PerPrincipalOk(s.book, q); } }
    if w.WatchRelease? || w.UnservedRelease? {
      assert SlotOk(s.book, Look(s, w.sid));
      Released(s.book, Look(s, w.sid).life.slot);
    }
    forall sid ensures SlotOk(n.book, Look(n, sid)) { assert SlotOk(s.book, Look(s, sid)); }
    forall a, b | a != b ensures Apart(Look(n, a), Look(n, b)) { assert Apart(Look(s, a), Look(s, b)); }
  }

  // ---- every run ----

  lemma Initial(m: nat, n: nat)
    ensures Inv(Init(m, n))
  {
    var s := Init(m, n);
    assert OpenSlots(s.book.slots) == {};
    forall p ensures PerPrincipalOk(s.book, p) { assert OpenOf(s.book.slots, p) == {}; }
    forall sid ensures NoStray(s, sid) {}
  }

  lemma InvKept(s: State, t: Step)
    requires Inv(s) && Enabled(s, t)
    ensures Inv(Next(s, t))
  {
    SessionsKept(s, t);
    HandoffKept(s, t);
    HoldKept(s, t);
    SlotsKept(s, t);
  }

  lemma {:induction false} RunInv(states: seq<State>, steps: seq<Step>, i: nat)
    requires Run(states, steps) && i < |states|
    ensures Inv(states[i])
  {
    if i == 0 {
      var m: nat, n: nat :| states[0] == Init(m, n);
      Initial(m, n);
    } else {
      RunInv(states, steps, i - 1);
      assert Enabled(states[i - 1], steps[i - 1]) && states[i - 1 + 1] == Next(states[i - 1], steps[i - 1]);
      InvKept(states[i - 1], steps[i - 1]);
    }
  }

  ghost predicate HistoryKept(x: Session, y: Session) { (x.taken ==> y.taken) && (x.forgotten ==> y.forgotten) }

  lemma TakenStays(s: State, t: Step, sid: Sid)
    requires Enabled(s, t)
    ensures HistoryKept(Look(s, sid), Look(Next(s, t), sid))
  {
    match t
    case Reserve(r) => TakenReserve(s, r, sid);
    case Settle(w) => TakenSettle(s, w, sid);
    case Request(q) => TakenRequest(s, q, sid);
    case Call(a) =>
  }

  lemma TakenReserve(s: State, r: ReserveStep, sid: Sid)
    requires ReserveEnabled(s, r)
    ensures HistoryKept(Look(s, sid), Look(ReserveNext(s, r), sid))
  {
  }

  lemma TakenSettle(s: State, w: SettleStep, sid: Sid)
    requires SettleEnabled(s, w)
    ensures HistoryKept(Look(s, sid), Look(SettleNext(s, w), sid))
  {
  }

  lemma TakenRequest(s: State, q: RequestStep, sid: Sid)
    requires RequestEnabled(s, q)
    ensures HistoryKept(Look(s, sid), Look(RequestNext(s, q), sid))
  {
  }

  lemma {:induction false} HistoryStays(states: seq<State>, steps: seq<Step>, i: nat, j: nat, sid: Sid)
    requires Run(states, steps) && i <= j < |states|
    ensures Look(states[i], sid).taken ==> Look(states[j], sid).taken
    ensures Look(states[i], sid).forgotten ==> Look(states[j], sid).forgotten
    decreases j - i
  {
    if i < j {
      assert Enabled(states[i], steps[i]) && states[i + 1] == Next(states[i], steps[i]);
      TakenStays(states[i], steps[i], sid);
      HistoryStays(states, steps, i + 1, j, sid);
    }
  }

  // Once a session has been retired, by eviction or by its idle clock, no call
  // on it is ever admitted again, in any interleaving.
  lemma NoCallAfterRetirement(states: seq<State>, steps: seq<Step>, i: nat, j: nat, sid: Sid, room: bool)
    requires Run(states, steps) && i <= j < |steps|
    requires Look(states[i], sid).taken && steps[j] == Call(Admit(sid, room))
    ensures !AdmitSucceeds(states[j], sid, room)
    ensures Look(states[j + 1], sid).busy == Look(states[j], sid).busy
  {
    HistoryStays(states, steps, i, j, sid);
    RunInv(states, steps, j);
    var s := states[j];
    assert SessionOk(Look(s, sid), s.hold == Unlisting(sid), s.closed);
    assert Enabled(states[j], steps[j]) && states[j + 1] == Next(states[j], steps[j]);
  }

  // The session reserveSession claims belongs to the principal that needs the
  // slot and has no POST, no GET stream and no call in flight.
  lemma VictimIsIdle(states: seq<State>, steps: seq<Step>, i: nat, sid: Sid)
    requires Run(states, steps) && i < |steps|
    requires steps[i] == Reserve(TryNext(sid)) && states[i + 1].hold.Evicting?
    ensures var s := states[i]; var p := s.hold.p;
            && Look(s, sid).life.Known? && Look(s, sid).life.owner == p && Look(s, sid).busy == 0
            && (forall k :: s.req.open[Early(k, sid, p)] == 0 && s.req.open[Attached(k, sid)] == 0)
            && Look(states[i + 1], sid).retired
  {
    RunInv(states, steps, i);
    var s := states[i];
    assert Enabled(s, steps[i]) && states[i + 1] == Next(s, steps[i]);
    assert CandidateOf(Look(s, sid), s.hold.p);
    forall k ensures s.req.open[Early(k, sid, s.hold.p)] == 0 && s.req.open[Attached(k, sid)] == 0 {
      assert HandoffAt(s, k, sid, s.hold.p);
    }
  }

  // Nothing re-enters the retired set after the watcher's forget, and a
  // session still in it is one whose watcher has yet to forget it, unless the
  // limits were closed before the session was settled.
  lemma RetiredIsTransient(states: seq<State>, steps: seq<Step>, i: nat, j: nat, sid: Sid)
    requires Run(states, steps) && i <= j < |states|
    ensures Look(states[i], sid).forgotten ==> !Look(states[j], sid).retired
    ensures Look(states[j], sid).retired && !states[j].closed ==>
              Look(states[j], sid).life.Known? &&
              var ph := Look(states[j], sid).life.phase; ph.Registered? || ph.Waiting? || ph.Halted? || ph.Unlisted?
  {
    HistoryStays(states, steps, i, j, sid);
    RunInv(states, steps, j);
    var s := states[j];
    assert SessionOk(Look(s, sid), s.hold == Unlisting(sid), s.closed);
  }

  // Before a session is registered the early count is its principal's requests
  // in progress; while it is listed its own counters are; neither is negative,
  // and the idle clock runs exactly when armed, unused by a POST and not ended.
  lemma HandoffIsExact(states: seq<State>, steps: seq<Step>, i: nat, k: Kind, sid: Sid, p: Principal)
    requires Run(states, steps) && i < |states|
    ensures var s := states[i]; var l := Look(s, sid).life;
            && (l.Unknown? ==> Count(s.req.early, (k, sid, p)) == s.req.open[Early(k, sid, p)])
            && (l.Unknown? ==> s.req.open[Attached(k, sid)] == 0)
            && (Finds(l, p) ==> InUse(l.clock, k) == s.req.open[Early(k, sid, p)] + s.req.open[Attached(k, sid)])
            && (l.Known? ==> ClockExact(l.clock) && InUse(l.clock, k) >= s.req.open[Attached(k, sid)])
  {
    RunInv(states, steps, i);
    var s := states[i];
    assert HandoffAt(s, k, sid, p) && NoStray(s, sid);
    assert SessionOk(Look(s, sid), s.hold == Unlisting(sid), s.closed);
    if Look(s, sid).life.Known? { assert HandoffAt(s, k, sid, Look(s, sid).life.owner); }
  }

  // An idle expiry that retires a session does so with none of its principal's
  // POSTs in progress.
  lemma ExpireOnlyWithoutPosts(states: seq<State>, steps: seq<Step>, i: nat, sid: Sid)
    requires Run(states, steps) && i < |steps| && steps[i] == Request(Expire(sid))
    requires states[i + 1] != states[i]
    ensures var s := states[i]; var l := Look(s, sid).life;
            && l.Known? && l.listed && Look(states[i + 1], sid).retired
            && s.req.open[Early(Post, sid, l.owner)] == 0 && s.req.open[Attached(Post, sid)] == 0
  {
    RunInv(states, steps, i);
    var s := states[i];
    assert Enabled(s, steps[i]) && states[i + 1] == Next(s, steps[i]);
    var l := Look(s, sid).life;
    assert SessionOk(Look(s, sid), s.hold == Unlisting(sid), s.closed);
    assert HandoffAt(s, Post, sid, l.owner);
  }

  // An expiry that fires while the clock runs retires the session and stops
  // its clock for good; any other does nothing.
  lemma ExpiryRetires(states: seq<State>, steps: seq<Step>, i: nat, sid: Sid)
    requires Run(states, steps) && i < |steps| && steps[i] == Request(Expire(sid))
    ensures var x, y := Look(states[i], sid), Look(states[i + 1], sid);
            && x.life.Known? && y.life.Known?
            && (x.life.clock.running ==> y.retired && y.taken && y.life.clock.stopped && !y.life.clock.running)
            && (!x.life.clock.running ==> states[i + 1] == states[i])
  {
    RunInv(states, steps, i);
    var s := states[i];
    assert Enabled(s, steps[i]) && states[i + 1] == Next(s, steps[i]);
    assert SessionOk(Look(s, sid), s.hold == Unlisting(sid), s.closed);
  }

  // The settled session's clock is armed once, and runs from then on whenever
  // no POST is in progress until the session is retired or has ended.
  lemma ClockRunsUntilOver(states: seq<State>, steps: seq<Step>, i: nat, sid: Sid)
    requires Run(states, steps) && i < |steps|
    ensures var x, y := Look(states[i], sid), Look(states[i + 1], sid);
            && (steps[i] == Settle(ArmSession(sid)) ==> y.life.Known? && (y.life.clock.armed || y.life.clock.stopped))
            && (x.life.Known? && x.life.clock.armed ==> y.life.Known? && y.life.clock.armed)
            && (x.life.Known? && x.life.clock.armed && !x.taken && !x.ended && x.life.clock.active == 0 ==>
                  x.life.clock.running)
  {
    RunInv(states, steps, i);
    var s := states[i];
    assert Enabled(s, steps[i]) && states[i + 1] == Next(s, steps[i]);
    assert SessionOk(Look(s, sid), s.hold == Unlisting(sid), s.closed);
    LiveUntil(s, steps[i], sid);
  }

  ghost predicate StaysArmed(x: Session, y: Session) {
    x.life.Known? && x.life.clock.armed ==> y.life.Known? && y.life.clock.armed
  }

  // ---- who is listed ----

  lemma StepOf(states: seq<State>, steps: seq<Step>, i: nat)
    requires Run(states, steps) && (i < |steps| || i + 1 < |states|)
    ensures |states| == |steps| + 1 && Enabled(states[i], steps[i]) && states[i + 1] == Next(states[i], steps[i])
  {
  }

  // A session leaves `live` with its watcher, or unserved; an evicted one stays there as a tombstone
  // until that is dropped. Only reserveSession evicts.
  ghost predicate ListedUntil(x: Session, y: Session, t: Step, sid: Sid, victim: bool) {
    x.life.Known? ==>
      && y.life.Known? && (y.life.evicted <==> x.life.evicted || victim)
      && (y.life.listed <==> x.life.listed && t != Settle(DropTombstone(sid)) && t != Settle(UnservedUnlist(sid))
                             && !(t == Settle(WatchUnlist(sid)) && !x.life.evicted))
  }

  // On the way of a session that was settled after the limits closed.
  ghost predicate Refuses(x: Session) { At(x, Closing) || At(x, Unserved) || At(x, Dropped) }

  // What every step keeps of a session.
  ghost predicate GoesOn(x: Session, y: Session, t: Step, sid: Sid, victim: bool) {
    StaysArmed(x, y) && ListedUntil(x, y, t, sid, victim) && (Refuses(x) ==> Refuses(y))
  }

  predicate Evicts(s: State, t: Step, sid: Sid) { t == Reserve(Evict) && s.hold.Evicting? && s.hold.victim == sid }

  lemma LiveUntil(s: State, t: Step, sid: Sid)
    requires Enabled(s, t)
    ensures var x, y := Look(s, sid), Look(Next(s, t), sid);
            ListedUntil(x, y, t, sid, Evicts(s, t, sid)) && StaysArmed(x, y) && (Refuses(x) ==> Refuses(y))
  {
    hide ListedUntil, StaysArmed, Refuses, ReserveNext, SettleNext, RequestNext, CallNext;
    match t
    case Reserve(r) => LiveReserve(s, r, sid);
    case Settle(w) => LiveSettle(s, w, sid);
    case Request(q) => LiveRequest(s, q, sid);
    case Call(a) => LiveCall(s, a, sid);
  }

  lemma LiveReserve(s: State, r: ReserveStep, sid: Sid)
    requires ReserveEnabled(s, r)
    ensures GoesOn(Look(s, sid), Look(ReserveNext(s, r), sid), Reserve(r), sid, Evicts(s, Reserve(r), sid))
  {
  }

  lemma LiveSettle(s: State, w: SettleStep, sid: Sid)
    requires SettleEnabled(s, w)
    ensures GoesOn(Look(s, sid), Look(SettleNext(s, w), sid), Settle(w), sid, false)
  {
    hide ReleaseSlot;
  }

  lemma LiveRequest(s: State, q: RequestStep, sid: Sid)
    requires RequestEnabled(s, q)
    ensures GoesOn(Look(s, sid), Look(RequestNext(s, q), sid), Request(q), sid, false)
  {
  }

  lemma LiveCall(s: State, a: CallStep, sid: Sid)
    requires CallEnabled(s, a)
    ensures GoesOn(Look(s, sid), Look(CallNext(s, a), sid), Call(a), sid, false)
  {
  }

  // A tombstone refuses every request of its principal, in every run, until it is dropped.
  lemma {:induction false} TombstoneStays(states: seq<State>, steps: seq<Step>, i: nat, j: nat, sid: Sid)
    requires Run(states, steps) && i <= j < |states|
    requires Look(states[i], sid).life.Known? && Look(states[i], sid).life.listed && Look(states[i], sid).life.evicted
    requires forall k :: i <= k < j ==>
      steps[k] != Settle(DropTombstone(sid)) && steps[k] != Settle(UnservedUnlist(sid))
    ensures var y := Look(states[j], sid); y.life.Known? && y.life.listed && y.life.evicted
    ensures forall k: Kind, p: Principal :: Finds(Look(states[j], sid).life, p) ==>
      BeginNext(states[j], k, sid, p) == states[j]
    decreases j
  {
    hide Run, Enabled, Next;
    if i < j {
      TombstoneStays(states, steps, i, j - 1, sid);
      StepOf(states, steps, j - 1);
      LiveUntil(states[j - 1], steps[j - 1], sid);
    }
  }

  // ---- settled after the limits closed ----

  // A session tracked once the limits are closed is never watched and its clock never armed: it goes
  // the way that takes it out of `live` and gives its slot back.
  lemma {:induction false} ClosedIsNotServed(states: seq<State>, steps: seq<Step>, i: nat, j: nat, sid: Sid)
    requires Run(states, steps) && i < j < |states| && steps[i] == Settle(Track(sid)) && states[i].closed
    ensures Refuses(Look(states[j], sid))
    ensures !Watched(Look(states[j], sid))
    decreases j
  {
    hide Run, Enabled, Next;
    StepOf(states, steps, j - 1);
    if i < j - 1 {
      ClosedIsNotServed(states, steps, i, j - 1, sid);
      LiveUntil(states[j - 1], steps[j - 1], sid);
    } else {
      TrackedClosed(states[i], sid);
    }
  }

  lemma TrackedClosed(s: State, sid: Sid)
    requires Enabled(s, Settle(Track(sid))) && s.closed
    ensures Refuses(Look(Next(s, Settle(Track(sid))), sid))
  {
  }

  // An evicted session never has a call in flight again.
  lemma EvictedStaysIdle(states: seq<State>, steps: seq<Step>, i: nat, sid: Sid)
    requires Run(states, steps) && i < |states| && Look(states[i], sid).life.Known? && Look(states[i], sid).life.evicted
    ensures Look(states[i], sid).busy == 0
  {
    RunInv(states, steps, i);
    var s := states[i];
    assert SessionOk(Look(s, sid), s.hold == Unlisting(sid), s.closed);
  }

  // The session counts are the unreleased slots, within their caps; a session
  // holds its slot exactly until it is evicted or its end is settled; and no
  // two sessions share one.
  lemma SlotsAreExact(states: seq<State>, steps: seq<Step>, i: nat, p: Principal, a: Sid, b: Sid)
    requires Run(states, steps) && i < |states|
    ensures var k := states[i].book;
            && k.sessions == |OpenSlots(k.slots)| <= k.maxSessions
            && Count(k.perPrincipal, p) == |OpenOf(k.slots, p)| <= k.maxPerPrincipal
    ensures SlotOk(states[i].book, Look(states[i], a))
    ensures a != b ==> Apart(Look(states[i], a), Look(states[i], b))
  {
    RunInv(states, steps, i);
    assert PerPrincipalOk(states[i].book, p);
  }

  // ---- reserveSession terminates ----

  // What is left of a reservation: its stage, and the sessions it has still to
  // look at. At most one eviction, so the stages run out.
  ghost function Left(s: State): (nat, nat) {
    match s.hold
    case Checking(_, n) => if n == 0 then (5, 0) else (1, 0)
    case Scanning(_, _, seen, _) => (4, |Listed(s) - seen|)
    case Trying(_, _, cands) => (3, |cands|)
    case Evicting(_, _, _) => (2, 0)
    case Free => (0, 0)
    case Unlisting(_) => (0, 0)
  }

  // Every step of a reservation finishes it or brings it closer to its end;
  // a reservation that has evicted one session is granted at its next step;
  // and no step of anyone else moves it back.
  lemma ReservationEnds(states: seq<State>, steps: seq<Step>, i: nat)
    requires Run(states, steps) && i < |steps| && Left(states[i]).0 > 0
    ensures var a, b := Left(states[i]), Left(states[i + 1]);
            if steps[i].Reserve? then b.0 < a.0 || (b.0 == a.0 && b.1 < a.1) else b == a
    ensures steps[i].Reserve? && Left(states[i]).0 == 1 ==> states[i + 1].book.pending > states[i].book.pending
  {
    RunInv(states, steps, i);
    var s, n := states[i], states[i + 1];
    assert Enabled(s, steps[i]) && n == Next(s, steps[i]);
    match steps[i] {
      case Reserve(r) => ReserveCloser(s, r);
      case Settle(w) => SettleLists(s, w);
      case Request(q) => RequestLists(s, q);
      case Call(a) => CallLists(s, a);
    }
  }

  lemma ReserveCloser(s: State, r: ReserveStep)
    requires SlotsOk(s) && HoldInv(s) && ReserveEnabled(s, r) && Left(s).0 > 0
    ensures var a, b := Left(s), Left(ReserveNext(s, r)); b.0 < a.0 || (b.0 == a.0 && b.1 < a.1)
    ensures Left(s).0 == 1 ==> ReserveNext(s, r).book.pending > s.book.pending
  {
    var n := ReserveNext(s, r);
    match r
    case ScanOne(sid) => assert Listed(n) - n.hold.seen == (Listed(s) - s.hold.seen) - {sid};
    case TryNext(sid) =>
      if Look(s, sid).busy > 0 {
        assert n.hold.cands.Keys == s.hold.cands.Keys - {sid};
        assert |n.hold.cands.Keys| == |n.hold.cands| && |s.hold.cands.Keys| == |s.hold.cands|;
      }
    case Check(id) => if Left(s).0 == 1 { GrantCloser(s, id); }
    case _ =>
  }

  lemma GrantCloser(s: State, id: SlotId)
    requires BookOk(s.book) && HoldInv(s) && s.hold.Checking? && s.hold.evictions == 1 && id !in s.book.slots
    ensures ReserveNext(s, Check(id)).hold == Free
    ensures ReserveNext(s, Check(id)).book.pending > s.book.pending
  {
    assert id !in s.book.pending;
  }

  lemma SettleLists(s: State, w: SettleStep)
    requires SettleEnabled(s, w) && Left(s).0 > 0
    ensures Left(SettleNext(s, w)) == Left(s)
  {
    var n := SettleNext(s, w);
    assert Listed(n) == Listed(s);
  }

  lemma RequestLists(s: State, q: RequestStep)
    requires RequestEnabled(s, q) && Left(s).0 > 0
    ensures Left(RequestNext(s, q)) == Left(s)
  {
    var n := RequestNext(s, q);
    assert Listed(n) == Listed(s);
  }

  lemma CallLists(s: State, a: CallStep)
    requires CallEnabled(s, a) && Left(s).0 > 0
    ensures Left(CallNext(s, a)) == Left(s)
  {
    var n := CallNext(s, a);
    assert Listed(n) == Listed(s);
  }
}
