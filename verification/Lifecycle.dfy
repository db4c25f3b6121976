// Agent sessions over the HTTP listener (internal/proxy/http.go) together with
// the admission state of their calls (internal/proxy/calls.go), as one state
// machine. A step is one critical section. reserveSession and the session
// watcher keep httpHandler.mu over several of them, which hold records, so
// every step that takes only another lock interleaves with them.
//
// The maps keyed by session (httpHandler.live, callLimits.retired,
// callLimits.sessions) are kept as fields of one record per session.

module Lifecycle {
  import opened Prelude
  import opened Sessions

  type Sid(==, !new)
  type Principal(==, !new)
  type SlotId = nat

  // ---- slots ----

  datatype Slot = Slot(principal: Principal, released: bool)

  // The session caps. pending is the slots a session-less POST has reserved
  // and settleSession has not dealt with yet.
  datatype Book = Book(maxSessions: nat, maxPerPrincipal: nat, sessions: int, perPrincipal: map<Principal, nat>,
                       slots: map<SlotId, Slot>, pending: set<SlotId>)

  predicate Full(b: Book, p: Principal) {
    Count(b.perPrincipal, p) >= b.maxPerPrincipal || b.sessions >= b.maxSessions
  }

  function GrantSlot(b: Book, id: SlotId, p: Principal): Book {
    b.(slots := b.slots[id := Slot(p, false)], sessions := b.sessions + 1,
       perPrincipal := Inc(b.perPrincipal, p), pending := b.pending + {id})
  }

  // sessionSlot.releaseLocked.
  function ReleaseSlot(b: Book, id: SlotId): Book {
    if id !in b.slots || b.slots[id].released then b
    else b.(slots := b.slots[id := b.slots[id].(released := true)],
            sessions := b.sessions - 1, perPrincipal := Dec(b.perPrincipal, b.slots[id].principal))
  }

  function Settled(b: Book, id: SlotId): Book { b.(pending := b.pending - {id}) }

  // ---- sessions ----

  // Where settleSession and the session's watcher have got to. Closing,
  // Unserved and Dropped are the path for a session settled after the limits
  // closed, which gets no watcher.
  datatype Phase = Registered | Waiting | Halted | Unlisted | Forgot | Gone | Closing | Unserved | Dropped

  datatype Life =
    | Unknown
    | Known(owner: Principal, slot: SlotId, phase: Phase, listed: bool, evicted: bool, clock: Clock)

  // listed: in httpHandler.live. retired, busy: in callLimits. delivered: calls
  // go-sdk has delivered that have not reached admit. ended: Wait has
  // returned. taken, forgotten: ever retired, forgotten by its watcher.
  datatype Session = Session(life: Life, retired: bool, busy: nat, delivered: nat, ended: bool,
                             taken: bool, forgotten: bool)

  const NEW_SESSION := Session(Unknown, false, 0, 0, false, false, false)

  predicate At(x: Session, ph: Phase) { x.life.Known? && x.life.phase == ph }

  function Enter(x: Session, ph: Phase): Session
    requires x.life.Known?
  {
    x.(life := x.life.(phase := ph))
  }

  function SetClock(x: Session, c: Clock): Session
    requires x.life.Known?
  {
    x.(life := x.life.(clock := c))
  }

  function Unlist(x: Session): Session
    requires x.life.Known?
  {
    x.(life := x.life.(listed := false))
  }

  // callLimits.retire, and claimIdle once it has found no call in flight.
  function Retire(x: Session): Session { x.(retired := true, taken := true) }

  function Forget(x: Session): Session { x.(retired := false, forgotten := true) }

  // evictLocked, without the slot.
  function MarkEvicted(x: Session): Session
    requires x.life.Known?
  {
    x.(life := x.life.(evicted := true, clock := Stop(x.life.clock)))
  }

  // A session reserveSession may evict for p, apart from its calls in flight.
  predicate Evictable(x: Session, p: Principal) {
    x.life.Known? && x.life.listed && x.life.owner == p && !x.life.evicted && Idle(x.life.clock)
  }

  // Track has started the session's watcher.
  predicate Watched(x: Session) {
    && x.life.Known? && !x.life.phase.Registered?
    && !x.life.phase.Closing? && !x.life.phase.Unserved? && !x.life.phase.Dropped?
  }

  // ---- requests ----

  datatype Kind = Post | Get

  // What the function beginPOST or beginGET returned will do when the request
  // ends: look the session up again, or call the session it found.
  datatype Closure = Early(k: Kind, sid: Sid, p: Principal) | Attached(k: Kind, sid: Sid) | Nothing

  // early is httpHandler.early and earlyGets together.
  datatype Requests = Requests(early: map<(Kind, Sid, Principal), nat>, open: multiset<Closure>)

  // ---- the whole state ----

  // Who holds httpHandler.mu between two steps, and why.
  datatype Hold =
    | Free
    | Checking(p: Principal, evictions: nat)
    | Scanning(p: Principal, evictions: nat, seen: set<Sid>, cands: map<Sid, nat>)
    | Trying(p: Principal, evictions: nat, cands: map<Sid, nat>)
    | Evicting(p: Principal, evictions: nat, victim: Sid)
    | Unlisting(sid: Sid)

  datatype State = State(book: Book, hold: Hold, useSeq: nat, closed: bool, sess: map<Sid, Session>, req: Requests)

  function Look(s: State, sid: Sid): Session {
    if sid in s.sess then s.sess[sid] else NEW_SESSION
  }

  // httpHandler.live.
  function Listed(s: State): set<Sid> {
    set sid | sid in s.sess && s.sess[sid].life.Known? && s.sess[sid].life.listed
  }

  function Put(s: State, sid: Sid, x: Session): State {
    s.(sess := s.sess[sid := x])
  }

  function Init(maxSessions: nat, maxPerPrincipal: nat): State {
    State(Book(maxSessions, maxPerPrincipal, 0, map[], map[], {}), Free, 0, false, map[], Requests(map[], multiset{}))
  }

  datatype ReserveStep =
    | Begin(p: Principal) | Check(id: SlotId) | ScanOne(sid: Sid) | ScanEnd | TryNext(sid: Sid) | TryNone | Evict

  datatype SettleStep =
    | Drop(slot: SlotId) | Register(slot: SlotId, sid: Sid) | Track(sid: Sid) | ArmSession(sid: Sid)
    | WatchStop(sid: Sid) | WatchUnlist(sid: Sid) | WatchForget(sid: Sid) | WatchRelease(sid: Sid)
    | UnservedUnlist(sid: Sid) | UnservedRelease(sid: Sid) | DropTombstone(sid: Sid)

  datatype RequestStep =
    | BeginRequest(k: Kind, sid: Sid, p: Principal) | End(c: Closure) | Expire(sid: Sid)

  datatype CallStep =
    | Deliver(sid: Sid) | Admit(sid: Sid, room: bool) | CallEnd(sid: Sid) | CloseLimits | SdkEnd(sid: Sid)

  datatype Step = Reserve(r: ReserveStep) | Settle(w: SettleStep) | Request(q: RequestStep) | Call(a: CallStep)

  // When a step can happen. The conditions are the program order of each
  // goroutine, the locks, and two facts about go-sdk: session ids are never
  // reused (Register), and Wait returns only once no call can reach admit any
  // more (Deliver, SdkEnd).
  predicate Enabled(s: State, t: Step) {
    match t
    case Reserve(r) => ReserveEnabled(s, r)
    case Settle(w) => SettleEnabled(s, w)
    case Request(q) => RequestEnabled(s, q)
    case Call(a) => CallEnabled(s, a)
  }

  predicate ReserveEnabled(s: State, r: ReserveStep) {
    match r
    case Begin(p) => s.hold == Free
    case Check(id) => s.hold.Checking? && id !in s.book.slots
    case ScanOne(sid) => s.hold.Scanning? && sid in Listed(s) - s.hold.seen
    case ScanEnd => s.hold.Scanning? && Listed(s) <= s.hold.seen
    case TryNext(sid) =>
      && s.hold.Trying? && sid in s.hold.cands
      && forall c <- s.hold.cands :: s.hold.cands[sid] <= s.hold.cands[c]
    case TryNone => s.hold.Trying? && s.hold.cands == map[]
    case Evict => s.hold.Evicting? && Look(s, s.hold.victim).life.Known?
  }

  predicate SettleEnabled(s: State, w: SettleStep) {
    match w
    case Drop(slot) => s.hold == Free && slot in s.book.pending
    case Register(slot, sid) =>
      s.hold == Free && slot in s.book.pending && slot in s.book.slots && Look(s, sid).life == Unknown
    case Track(sid) => At(Look(s, sid), Registered)
    case ArmSession(sid) => Watched(Look(s, sid))
    case WatchStop(sid) => At(Look(s, sid), Waiting) && Look(s, sid).ended
    case WatchUnlist(sid) => s.hold == Free && At(Look(s, sid), Halted)
    case WatchForget(sid) => s.hold == Unlisting(sid) && At(Look(s, sid), Unlisted)
    case WatchRelease(sid) => s.hold == Free && At(Look(s, sid), Forgot)
    case UnservedUnlist(sid) => s.hold == Free && At(Look(s, sid), Closing)
    case UnservedRelease(sid) => s.hold == Free && At(Look(s, sid), Unserved)
    case DropTombstone(sid) => s.hold == Free && Look(s, sid).life.Known? && Look(s, sid).life.evicted
  }

  predicate RequestEnabled(s: State, q: RequestStep) {
    match q
    case BeginRequest(_, _, _) => s.hold == Free
    case End(c) => c in s.req.open && (c.Early? ==> s.hold == Free)
    case Expire(sid) => Look(s, sid).life.Known? && Look(s, sid).life.clock.armed
  }

  predicate CallEnabled(s: State, a: CallStep) {
    match a
    case Deliver(sid) => !Look(s, sid).ended
    case Admit(sid, _) => Look(s, sid).delivered > 0
    case CallEnd(sid) => Look(s, sid).busy > 0
    case CloseLimits => true
    case SdkEnd(sid) => Look(s, sid).delivered == 0
  }

  function Next(s: State, t: Step): State
    requires Enabled(s, t)
  {
    match t
    case Reserve(r) => ReserveNext(s, r)
    case Settle(w) => SettleNext(s, w)
    case Request(q) => RequestNext(s, q)
    case Call(a) => CallNext(s, a)
  }

  function ReserveNext(s: State, r: ReserveStep): State
    requires ReserveEnabled(s, r)
  {
    var h := s.hold;
    match r
    case Begin(p) => s.(hold := Checking(p, 0))
    case Check(id) =>
      if Full(s.book, h.p) then s.(hold := Scanning(h.p, h.evictions, {}, map[]))
      else s.(book := GrantSlot(s.book, id, h.p), hold := Free)
    case ScanOne(sid) =>
      var x := Look(s, sid);
      s.(hold := Scanning(h.p, h.evictions, h.seen + {sid},
                          if Evictable(x, h.p) then h.cands[sid := x.life.clock.lastSeq] else h.cands))
    case ScanEnd => s.(hold := Trying(h.p, h.evictions, h.cands))
    case TryNext(sid) =>
      if Look(s, sid).busy > 0 then s.(hold := Trying(h.p, h.evictions, h.cands - {sid}))
      else Put(s, sid, Retire(Look(s, sid))).(hold := Evicting(h.p, h.evictions, sid))
    case TryNone => s.(hold := Free)
    case Evict =>
      var x := Look(s, h.victim);
      Put(s, h.victim, MarkEvicted(x))
        .(book := ReleaseSlot(s.book, x.life.slot), hold := Checking(h.p, h.evictions + 1))
  }

  function SettleNext(s: State, w: SettleStep): State
    requires SettleEnabled(s, w)
  {
    match w
    case Drop(slot) => s.(book := Settled(ReleaseSlot(s.book, slot), slot))
    case Register(slot, sid) => RegisterNext(s, slot, sid)
    case Track(sid) => Put(s, sid, Enter(Look(s, sid), if s.closed then Closing else Waiting))
    case ArmSession(sid) => Put(s, sid, SetClock(Look(s, sid), Arm(Look(s, sid).life.clock)))
    case WatchStop(sid) => Put(s, sid, Enter(SetClock(Look(s, sid), Stop(Look(s, sid).life.clock)), Halted))
    case WatchUnlist(sid) =>
      var x := Look(s, sid);
      Put(s, sid, Enter(if x.life.evicted then x else Unlist(x), Unlisted)).(hold := Unlisting(sid))
    case WatchForget(sid) => Put(s, sid, Enter(Forget(Look(s, sid)), Forgot)).(hold := Free)
    case WatchRelease(sid) =>
      Put(s, sid, Enter(Look(s, sid), Gone)).(book := ReleaseSlot(s.book, Look(s, sid).life.slot))
    case UnservedUnlist(sid) => Put(s, sid, Enter(Unlist(Look(s, sid)), Unserved))
    case UnservedRelease(sid) =>
      Put(s, sid, Enter(Look(s, sid), Dropped)).(book := ReleaseSlot(s.book, Look(s, sid).life.slot))
    case DropTombstone(sid) => Put(s, sid, Unlist(Look(s, sid)))
  }

  // register: the requests its principal already has in progress on the new
  // id count as in progress on the session.
  function RegisterNext(s: State, slot: SlotId, sid: Sid): State
    requires slot in s.book.slots
  {
    var p := s.book.slots[slot].principal;
    var clock := Fresh(Count(s.req.early, (Post, sid, p)), Count(s.req.early, (Get, sid, p)), s.useSeq + 1);
    Put(s, sid, Look(s, sid).(life := Known(p, slot, Registered, true, false, clock)))
      .(book := Settled(s.book, slot), useSeq := s.useSeq + 1,
        req := s.req.(early := s.req.early - {(Post, sid, p), (Get, sid, p)}))
  }

  function RequestNext(s: State, q: RequestStep): State
    requires RequestEnabled(s, q)
  {
    match q
    case BeginRequest(k, sid, p) => BeginNext(s, k, sid, p)
    case End(c) => EndNext(s.(req := Closed(s.req, c)), c)
    case Expire(sid) => ExpireNext(s, sid)
  }

  // p's request on sid finds p's own session.
  predicate Finds(l: Life, p: Principal) { l.Known? && l.listed && l.owner == p }

  // beginPOST and beginGET.
  function BeginNext(s: State, k: Kind, sid: Sid, p: Principal): State {
    var x := Look(s, sid);
    if x.life.Known? && x.life.listed then
      if x.life.owner != p then s.(req := Opened(s.req, Nothing))
      else if x.life.evicted then s
      else
        var c := if k.Post? then StartPost(x.life.clock) else StartGet(x.life.clock);
        Put(s, sid, SetClock(x, c)).(req := Opened(s.req, Attached(k, sid)))
    else s.(req := Opened(s.req.(early := Inc(s.req.early, (k, sid, p))), Early(k, sid, p)))
  }

  function ExpireNext(s: State, sid: Sid): State
    requires Look(s, sid).life.Known?
  {
    var x := Look(s, sid);
    if Expirable(x.life.clock) then Put(s, sid, Retire(SetClock(x, Stop(x.life.clock)))) else s
  }

  function Opened(r: Requests, c: Closure): Requests { r.(open := r.open + multiset{c}) }

  function Closed(r: Requests, c: Closure): Requests { r.(open := r.open - multiset{c}) }

  function EndNext(s: State, c: Closure): State {
    match c
    case Nothing => s
    case Attached(k, sid) => EndOn(s, k, sid)
    case Early(k, sid, p) =>
      if Finds(Look(s, sid).life, p) then EndOn(s, k, sid)
      else s.(req := s.req.(early := Dec(s.req.early, (k, sid, p))))
  }

  // endPOST or endGET on a session.
  function EndOn(s: State, k: Kind, sid: Sid): State {
    var x := Look(s, sid);
    if x.life.Unknown? then s
    else
      var c := if k.Post? then EndPost(x.life.clock, s.useSeq + 1) else EndGet(x.life.clock, s.useSeq + 1);
      Put(s, sid, SetClock(x, c)).(useSeq := s.useSeq + 1)
  }

  // admit lets the call through. room is whether both call caps have room.
  predicate AdmitSucceeds(s: State, sid: Sid, room: bool) { !s.closed && !Look(s, sid).retired && room }

  function CallNext(s: State, a: CallStep): State
    requires CallEnabled(s, a)
  {
    match a
    case Deliver(sid) => var x := Look(s, sid); Put(s, sid, x.(delivered := x.delivered + 1))
    case Admit(sid, room) =>
      var x := Look(s, sid);
      Put(s, sid, x.(delivered := x.delivered - 1, busy := if AdmitSucceeds(s, sid, room) then x.busy + 1 else x.busy))
    case CallEnd(sid) => var x := Look(s, sid); Put(s, sid, x.(busy := x.busy - 1))
    case CloseLimits => s.(closed := true)
    case SdkEnd(sid) => Put(s, sid, Look(s, sid).(ended := true))
  }

  // ---- runs ----

  ghost predicate Run(states: seq<State>, steps: seq<Step>) {
    && |states| == |steps| + 1
    && (exists m: nat, n: nat :: states[0] == Init(m, n))
    && forall i :: 0 <= i < |steps| ==> Enabled(states[i], steps[i]) && states[i + 1] == Next(states[i], steps[i])
  }
}
