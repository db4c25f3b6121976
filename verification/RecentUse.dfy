// What "least recently used" means over a run: a session is used when it is registered and when a
// POST or GET on it ends, and the stamps that reserveSession compares order the sessions by their
// last use (internal/proxy/http.go).

module RecentUse {
  import opened Prelude
  import opened Sessions
  import opened Lifecycle
  import opened LifecycleSafety
  import opened Listener

  // The step uses the session: it registers it, or ends a request that it is counted on.
  predicate Uses(s: State, t: Step, sid: Sid) {
    match t
    case Settle(w) => w.Register? && w.sid == sid
    case Request(q) => q.End? && EndsOn(Look(s, sid).life, q.c, sid)
    case _ => false
  }

  predicate EndsOn(l: Life, c: Closure, sid: Sid) {
    match c
    case Nothing => false
    case Attached(_, a) => a == sid && l.Known?
    case Early(_, a, p) => a == sid && l.Known? && l.listed && l.owner == p
  }

  // The last step before the i-th state that uses the session, or -1.
  ghost function LastUse(states: seq<State>, steps: seq<Step>, i: nat, sid: Sid): int
    requires i <= |steps| && i < |states|
  {
    if i == 0 then -1
    else if Uses(states[i - 1], steps[i - 1], sid) then i - 1
    else LastUse(states, steps, i - 1, sid)
  }

  function Stamp(s: State, sid: Sid): nat {
    if Look(s, sid).life.Known? then Look(s, sid).life.clock.lastSeq else 0
  }

  // No stamp is ahead of the counter.
  ghost predicate StampsOk(s: State) { forall sid :: Stamp(s, sid) <= s.useSeq }

  // ---- one step ----

  // A step that uses a session stamps it above everything stamped before.
  lemma UseStamps(s: State, t: Step, sid: Sid)
    requires Enabled(s, t) && Uses(s, t, sid)
    ensures Look(Next(s, t), sid).life.Known? && Stamp(Next(s, t), sid) == s.useSeq + 1 == Next(s, t).useSeq
  {
    hide ReserveNext, SettleNext, RequestNext, CallNext;
    match t
    case Settle(w) => RegisterStamps(s, w, sid);
    case Request(q) => EndStamps(s, q, sid);
  }

  lemma RegisterStamps(s: State, w: SettleStep, sid: Sid)
    requires SettleEnabled(s, w) && w.Register? && w.sid == sid
    ensures var n := SettleNext(s, w); Look(n, sid).life.Known? && Stamp(n, sid) == s.useSeq + 1 == n.useSeq
  {
  }

  lemma EndStamps(s: State, q: RequestStep, sid: Sid)
    requires RequestEnabled(s, q) && q.End? && EndsOn(Look(s, sid).life, q.c, sid)
    ensures var n := RequestNext(s, q); Look(n, sid).life.Known? && Stamp(n, sid) == s.useSeq + 1 == n.useSeq
  {
  }

  // Any other step leaves its stamp alone.
  lemma OthersKeepStamp(s: State, t: Step, sid: Sid)
    requires Enabled(s, t) && !Uses(s, t, sid)
    ensures Look(Next(s, t), sid).life.Known? <==> Look(s, sid).life.Known?
    ensures Stamp(Next(s, t), sid) == Stamp(s, sid) && Next(s, t).useSeq >= s.useSeq
  {
    hide ReserveNext, SettleNext, RequestNext, CallNext;
    match t
    case Reserve(r) => ReserveKeepsStamp(s, r, sid);
    case Settle(w) => SettleKeepsStamp(s, w, sid);
    case Request(q) => RequestKeepsStamp(s, q, sid);
    case Call(a) => CallKeepsStamp(s, a, sid);
  }

  ghost predicate SameStamp(s: State, n: State, sid: Sid) {
    && (Look(n, sid).life.Known? <==> Look(s, sid).life.Known?)
    && Stamp(n, sid) == Stamp(s, sid) && n.useSeq >= s.useSeq
  }

  lemma ReserveKeepsStamp(s: State, r: ReserveStep, sid: Sid)
    requires ReserveEnabled(s, r)
    ensures SameStamp(s, ReserveNext(s, r), sid)
  {
  }

  lemma SettleKeepsStamp(s: State, w: SettleStep, sid: Sid)
    requires SettleEnabled(s, w) && !(w.Register? && w.sid == sid)
    ensures SameStamp(s, SettleNext(s, w), sid)
  {
  }

  lemma RequestKeepsStamp(s: State, q: RequestStep, sid: Sid)
    requires RequestEnabled(s, q) && !(q.End? && EndsOn(Look(s, sid).life, q.c, sid))
    ensures SameStamp(s, RequestNext(s, q), sid)
  {
  }

  lemma CallKeepsStamp(s: State, a: CallStep, sid: Sid)
    requires CallEnabled(s, a)
    ensures SameStamp(s, CallNext(s, a), sid)
  {
  }

  // One step uses one session at most.
  lemma OneUsed(s: State, t: Step, a: Sid, b: Sid)
    requires Uses(s, t, a) && Uses(s, t, b)
    ensures a == b
  {
  }

  // ---- runs ----

  lemma {:induction false} RunStamps(states: seq<State>, steps: seq<Step>, i: nat)
    requires Run(states, steps) && i < |states|
    ensures StampsOk(states[i])
  {
    if i > 0 {
      var s, t := states[i - 1], steps[i - 1];
      RunStamps(states, steps, i - 1);
      assert Enabled(s, t) && states[i - 1 + 1] == Next(s, t);
      forall sid ensures Stamp(states[i], sid) <= states[i].useSeq {
        if Uses(s, t, sid) { UseStamps(s, t, sid); } else { OthersKeepStamp(s, t, sid); }
      }
    }
  }

  // Every session known in a state of a run has been used, and stamps order the sessions as their
  // last uses do.
  lemma {:induction false} StampsOrderUses(states: seq<State>, steps: seq<Step>, i: nat, a: Sid, b: Sid)
    requires Run(states, steps) && i < |states| && Look(states[i], a).life.Known? && Look(states[i], b).life.Known?
    ensures 0 <= LastUse(states, steps, i, a) < i
    ensures Stamp(states[i], a) < Stamp(states[i], b) <==> LastUse(states, steps, i, a) < LastUse(states, steps, i, b)
    ensures a != b ==> Stamp(states[i], a) != Stamp(states[i], b)
  {
    hide Uses, Enabled, Next, Stamp;
    NothingKnownAtFirst(states, steps, a);
    if i > 0 {
      var s, t := states[i - 1], steps[i - 1];
      StepOf(states, steps, i - 1);
      RunStamps(states, steps, i - 1);
      StampBounded(s, a);
      StampBounded(s, b);
      if Uses(s, t, a) { UseStamps(s, t, a); } else { OthersKeepStamp(s, t, a); }
      if Uses(s, t, b) { UseStamps(s, t, b); } else { OthersKeepStamp(s, t, b); }
      if Uses(s, t, a) && Uses(s, t, b) {
        OneUsed(s, t, a, b);
      } else if Uses(s, t, a) {
        StampsOrderUses(states, steps, i - 1, b, b);
      } else if Uses(s, t, b) {
        StampsOrderUses(states, steps, i - 1, a, a);
      } else {
        StampsOrderUses(states, steps, i - 1, a, b);
        StampsOrderUses(states, steps, i - 1, b, a);
      }
    }
  }

  lemma StampBounded(s: State, sid: Sid)
    requires StampsOk(s)
    ensures Stamp(s, sid) <= s.useSeq
  {
  }

  lemma NothingKnownAtFirst(states: seq<State>, steps: seq<Step>, sid: Sid)
    requires Run(states, steps)
    ensures Look(states[0], sid).life.Unknown?
  {
  }

  // ---- the candidates of a reservation ----

  // What reserveSession has noted of a candidate is its stamp.
  ghost predicate NotedOk(s: State) {
    match s.hold
    case Scanning(_, _, _, cands) => forall c :: c in cands ==> Look(s, c).life.Known? && cands[c] == Stamp(s, c)
    case Trying(_, _, cands) => forall c :: c in cands ==> Look(s, c).life.Known? && cands[c] == Stamp(s, c)
    case _ => true
  }

  lemma NotedKept(s: State, t: Step)
    requires Inv(s) && NotedOk(s) && Enabled(s, t)
    ensures NotedOk(Next(s, t))
  {
    hide Inv, Stamp;
    var n := Next(s, t);
    if t.Reserve? {
      NotedByReserve(s, t.r);
    } else {
      HoldOnlyByReserve(s, t);
      forall c | c in Cands(n) ensures Look(n, c).life.Known? && Cands(n)[c] == Stamp(n, c) {
        CandidateUnused(s, t, c);
        OthersKeepStamp(s, t, c);
      }
    }
  }

  function Cands(s: State): map<Sid, nat> {
    if s.hold.Scanning? || s.hold.Trying? then s.hold.cands else map[]
  }

  lemma HoldOnlyByReserve(s: State, t: Step)
    requires Enabled(s, t) && !t.Reserve?
    ensures Cands(s) == Cands(Next(s, t))
  {
  }

  lemma NotedByReserve(s: State, r: ReserveStep)
    requires NotedOk(s) && ReserveEnabled(s, r)
    ensures NotedOk(ReserveNext(s, r))
  {
  }

  // While httpHandler.mu is held, nobody uses a candidate.
  lemma CandidateUnused(s: State, t: Step, c: Sid)
    requires Inv(s) && Enabled(s, t) && !t.Reserve? && c in Cands(s)
    ensures !Uses(s, t, c)
  {
    assert CandidateOf(Look(s, c), s.hold.p);
    if t.Request? && t.q.End? && !t.q.c.Nothing? { CountedOnSession(s, t.q.c); }
  }

  lemma {:induction false} RunNotes(states: seq<State>, steps: seq<Step>, i: nat)
    requires Run(states, steps) && i < |states|
    ensures NotedOk(states[i])
  {
    if i > 0 {
      RunNotes(states, steps, i - 1);
      RunInv(states, steps, i - 1);
      StepOf(states, steps, i - 1);
      NotedKept(states[i - 1], steps[i - 1]);
    }
  }

  // ---- the session evicted ----

  // In every interleaving, the candidate that reserveSession claims is the one whose last use, its
  // registration or the end of a request on it, comes earliest in the run.
  lemma ClaimedIsLeastRecent(states: seq<State>, steps: seq<Step>, i: nat, v: Sid, w: Sid)
    requires Run(states, steps) && i < |steps| && steps[i] == Reserve(TryNext(v)) && w in Cands(states[i]) && w != v
    ensures Look(states[i], v).life.Known? && Look(states[i], w).life.Known?
    ensures LastUse(states, steps, i, v) < LastUse(states, steps, i, w)
  {
    var s := states[i];
    StepOf(states, steps, i);
    RunNotes(states, steps, i);
    assert s.hold.Trying? && s.hold.cands[v] <= s.hold.cands[w];
    StampsOrderUses(states, steps, i, v, w);
  }

  // So in any reachable state the session that reserveSession would evict, with nobody in between,
  // is the idle session of the principal that was used first of all.
  lemma LeastUsedIsLeastRecent(states: seq<State>, steps: seq<Step>, i: nat, v: Sid, w: Sid, p: Principal)
    requires Run(states, steps) && i < |states|
    requires LeastUsed(states[i].sess, v, p) && w in states[i].sess && CanEvict(states[i].sess[w], p) && w != v
    ensures LastUse(states, steps, i, v) < LastUse(states, steps, i, w)
  {
    StampsOrderUses(states, steps, i, v, w);
  }
}
