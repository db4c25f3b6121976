// Attribution of an upstream's prompts to a call (internal/proxy/input.go):
// the calls in flight on one upstream, and what it remembers of the calls that
// have ended. Every method of Upstream is one critical section under
// upstream.mu.

module Attribution {
  import opened Prelude

  type Principal = string
  type Key = string
  type CallId = nat
  type Time = int

  const MAX_ORPHANS := 256

  datatype Inflight = Inflight(principal: Principal, key: Key, prompting: bool, prompts: nat)

  // overflow is the number of ended calls an overflow record stands for; zero
  // for a keyed record.
  datatype Orphan = Orphan(principal: Principal, expires: Time, overflow: nat)

  datatype Table = Table(orphans: map<Key, Orphan>, orphansOf: map<Principal, nat>, overflow: map<Principal, Orphan>)

  // A call that has ended, as the full history keeps it. folded: it went into
  // its principal's overflow record.
  datatype Ended = Ended(principal: Principal, key: Key, expires: Time, folded: bool)

  // ---- the table ----

  ghost function KeysOf(orphans: map<Key, Orphan>, p: Principal): set<Key> {
    set k | k in orphans && orphans[k].principal == p
  }

  ghost function Tally(orphans: map<Key, Orphan>): map<Principal, nat> {
    map p | p in (set k | k in orphans :: orphans[k].principal) :: |KeysOf(orphans, p)|
  }

  function Later(a: Time, b: Time): Time { if a > b then a else b }

  // end folds the call into its principal's overflow record.
  predicate Folds(t: Table, p: Principal, key: Key) {
    key == "" || (key !in t.orphans && Count(t.orphansOf, p) >= MAX_ORPHANS)
  }

  // end's record of a call, once what has expired is pruned.
  function Record(t: Table, p: Principal, key: Key, expires: Time): Table {
    if Folds(t, p, key) then
      var o := if p in t.overflow then Orphan(p, Later(t.overflow[p].expires, expires), t.overflow[p].overflow + 1)
               else Orphan(p, expires, 1);
      t.(overflow := t.overflow[p := o])
    else if key in t.orphans then
      t.(orphans := t.orphans[key := Orphan(t.orphans[key].principal, Later(t.orphans[key].expires, expires), 0)])
    else
      t.(orphans := t.orphans[key := Orphan(p, expires, 0)], orphansOf := Inc(t.orphansOf, p))
  }

  ghost function Pruned(t: Table, now: Time): Table {
    var kept := map k | k in t.orphans && now < t.orphans[k].expires :: t.orphans[k];
    Table(kept, Tally(kept), map p | p in t.overflow && now < t.overflow[p].expires :: t.overflow[p])
  }

  // Every live record is foreign to no call with this key.
  predicate OnlyOf(t: Table, key: Key, now: Time) {
    && (forall k <- t.orphans :: now < t.orphans[k].expires ==> k == key)
    && forall p <- t.overflow :: now >= t.overflow[p].expires
  }

  // ---- what the table is a summary of ----

  ghost predicate KeyedBy(hist: seq<Ended>, k: Key, expires: Time) {
    exists i :: 0 <= i < |hist| && !hist[i].folded && hist[i].key == k && hist[i].expires == expires
  }

  ghost predicate FoldedBy(hist: seq<Ended>, p: Principal, expires: Time) {
    exists i :: 0 <= i < |hist| && hist[i].folded && hist[i].principal == p && hist[i].expires == expires
  }

  // An ended call that has not expired is covered by a record at least as long.
  ghost predicate Covered(t: Table, h: Ended, high: Time) {
    h.expires > high ==>
      if h.folded then h.principal in t.overflow && t.overflow[h.principal].expires >= h.expires
      else h.key in t.orphans && t.orphans[h.key].expires >= h.expires
  }

  // high is the latest clock reading of a prune. orphansOf is the exact count
  // of keyed records, which never exceeds the quota, and every record lasts
  // exactly as long as some call it stands for.
  ghost predicate Summary(t: Table, hist: seq<Ended>, high: Time) {
    && t.orphansOf == Tally(t.orphans)
    && (forall p :: |KeysOf(t.orphans, p)| <= MAX_ORPHANS)
    && (forall i :: 0 <= i < |hist| ==> Covered(t, hist[i], high))
    && (forall k :: k in t.orphans ==> KeyedBy(hist, k, t.orphans[k].expires))
    && (forall p :: p in t.overflow ==> FoldedBy(hist, p, t.overflow[p].expires))
  }

  // The same question asked of the full history.
  ghost predicate OnlyOfHistory(hist: seq<Ended>, key: Key, now: Time) {
    forall i :: 0 <= i < |hist| && hist[i].expires > now ==> !hist[i].folded && hist[i].key == key
  }

  lemma TallyAt(orphans: map<Key, Orphan>, p: Principal)
    ensures Count(Tally(orphans), p) == |KeysOf(orphans, p)|
    ensures p in Tally(orphans) <==> |KeysOf(orphans, p)| > 0
  {
    if p in Tally(orphans) {
      var k :| k in orphans && orphans[k].principal == p;
      assert k in KeysOf(orphans, p);
    } else {
      forall k | k in orphans ensures orphans[k].principal != p {
        var q := orphans[k].principal;
        assert q in Tally(orphans);
      }
      assert KeysOf(orphans, p) == {};
    }
  }

  lemma TallyAdd(orphans: map<Key, Orphan>, k: Key, o: Orphan)
    requires k !in orphans
    ensures Tally(orphans[k := o]) == Inc(Tally(orphans), o.principal)
  {
    var n, m := Tally(orphans[k := o]), Inc(Tally(orphans), o.principal);
    forall p ensures (p in n <==> p in m) && (p in n ==> n[p] == m[p]) {
      TallyAt(orphans[k := o], p);
      TallyAt(orphans, p);
      KeysAdd(orphans, k, o, p);
    }
  }

  lemma KeysAdd(orphans: map<Key, Orphan>, k: Key, o: Orphan, p: Principal)
    requires k !in orphans
    ensures |KeysOf(orphans[k := o], p)| == |KeysOf(orphans, p)| + if p == o.principal then 1 else 0
  {
    assert KeysOf(orphans[k := o], p) == if p == o.principal then KeysOf(orphans, p) + {k} else KeysOf(orphans, p);
  }

  lemma TallySame(orphans: map<Key, Orphan>, k: Key, o: Orphan)
    requires k in orphans && orphans[k].principal == o.principal
    ensures Tally(orphans[k := o]) == Tally(orphans)
  {
    var n := orphans[k := o];
    forall p ensures KeysOf(n, p) == KeysOf(orphans, p) {}
    TallyEqual(n, orphans);
  }

  lemma TallyRemove(orphans: map<Key, Orphan>, k: Key)
    requires k in orphans
    ensures Tally(orphans - {k}) == Dec(Tally(orphans), orphans[k].principal)
  {
    var n, m := Tally(orphans - {k}), Dec(Tally(orphans), orphans[k].principal);
    forall p ensures (p in n <==> p in m) && (p in n ==> n[p] == m[p]) {
      TallyAt(orphans - {k}, p);
      TallyAt(orphans, p);
      assert KeysOf(orphans - {k}, p) == KeysOf(orphans, p) - {k};
    }
  }

  lemma TallyEqual(a: map<Key, Orphan>, b: map<Key, Orphan>)
    requires forall p :: KeysOf(a, p) == KeysOf(b, p)
    ensures Tally(a) == Tally(b)
  {
    forall p ensures p in Tally(a) <==> p in Tally(b) {
      TallyAt(a, p);
      TallyAt(b, p);
    }
  }

  // ---- the summary is kept ----

  // end's step on the history.
  function Extend(t: Table, hist: seq<Ended>, p: Principal, key: Key, expires: Time, now: Time): seq<Ended> {
    hist + [Ended(p, key, expires, now < expires && Folds(t, p, key))]
  }

  lemma PruneKeeps(t: Table, hist: seq<Ended>, high: Time, now: Time)
    requires Summary(t, hist, high)
    ensures Summary(Pruned(t, now), hist, Later(high, now))
  {
    var n := Pruned(t, now);
    forall p ensures |KeysOf(n.orphans, p)| <= MAX_ORPHANS { SmallerSet(KeysOf(n.orphans, p), KeysOf(t.orphans, p)); }
    forall i | 0 <= i < |hist| ensures Covered(n, hist[i], Later(high, now)) { assert Covered(t, hist[i], high); }
  }

  lemma RecordKeeps(t: Table, hist: seq<Ended>, high: Time, p: Principal, key: Key, expires: Time, now: Time)
    requires Summary(t, hist, high) && now <= high
    ensures var n := if now < expires then Record(t, p, key, expires) else t;
            Summary(n, Extend(t, hist, p, key, expires, now), high)
  {
    var n := if now < expires then Record(t, p, key, expires) else t;
    var h := Extend(t, hist, p, key, expires, now);
    assert h[|hist|] == Ended(p, key, expires, now < expires && Folds(t, p, key));
    forall i | 0 <= i < |h| ensures Covered(n, h[i], high) {
      if i < |hist| { assert Covered(t, hist[i], high); }
    }
    forall k | k in n.orphans ensures KeyedBy(h, k, n.orphans[k].expires) {
      KeyedStays(t, hist, p, key, expires, now, k);
    }
    forall q | q in n.overflow ensures FoldedBy(h, q, n.overflow[q].expires) {
      FoldedStays(t, hist, p, key, expires, now, q);
    }
    RecordCounts(t, p, key, expires);
  }

  lemma KeyedStays(t: Table, hist: seq<Ended>, p: Principal, key: Key, expires: Time, now: Time, k: Key)
    requires forall j :: j in t.orphans ==> KeyedBy(hist, j, t.orphans[j].expires)
    requires now < expires ==> k in Record(t, p, key, expires).orphans
    requires now >= expires ==> k in t.orphans
    ensures var n := if now < expires then Record(t, p, key, expires) else t;
            KeyedBy(Extend(t, hist, p, key, expires, now), k, n.orphans[k].expires)
  {
    var h := Extend(t, hist, p, key, expires, now);
    if k in t.orphans {
      var i :| 0 <= i < |hist| && !hist[i].folded && hist[i].key == k && hist[i].expires == t.orphans[k].expires;
      assert h[i] == hist[i];
    }
    assert h[|hist|].expires == expires;
  }

  lemma FoldedStays(t: Table, hist: seq<Ended>, p: Principal, key: Key, expires: Time, now: Time, q: Principal)
    requires forall j :: j in t.overflow ==> FoldedBy(hist, j, t.overflow[j].expires)
    requires now < expires ==> q in Record(t, p, key, expires).overflow
    requires now >= expires ==> q in t.overflow
    ensures var n := if now < expires then Record(t, p, key, expires) else t;
            FoldedBy(Extend(t, hist, p, key, expires, now), q, n.overflow[q].expires)
  {
    var h := Extend(t, hist, p, key, expires, now);
    if q in t.overflow {
      var i :| 0 <= i < |hist| && hist[i].folded && hist[i].principal == q && hist[i].expires == t.overflow[q].expires;
      assert h[i] == hist[i];
    }
    assert h[|hist|].expires == expires;
  }

  lemma RecordCounts(t: Table, p: Principal, key: Key, expires: Time)
    requires t.orphansOf == Tally(t.orphans) && forall q :: |KeysOf(t.orphans, q)| <= MAX_ORPHANS
    ensures var n := Record(t, p, key, expires);
            n.orphansOf == Tally(n.orphans) && forall q :: |KeysOf(n.orphans, q)| <= MAX_ORPHANS
  {
    var n := Record(t, p, key, expires);
    if !Folds(t, p, key) {
      if key in t.orphans {
        TallySame(t.orphans, key, n.orphans[key]);
      } else {
        TallyAdd(t.orphans, key, n.orphans[key]);
      }
    }
    forall q ensures |KeysOf(n.orphans, q)| <= MAX_ORPHANS {
      TallyAt(t.orphans, q);
      TallyAt(n.orphans, q);
    }
  }

  // ---- attribution is exact ----

  // Read at any clock, the table lets a prompt through only if every ended
  // call that has not expired, at that clock and at the last prune, left
  // nothing foreign behind; and it refuses only because of one that has not
  // expired. With a clock that does not run backwards (now >= high) the two
  // conditions are the same.
  lemma SummaryIsExact(t: Table, hist: seq<Ended>, high: Time, key: Key, now: Time)
    requires Summary(t, hist, high)
    ensures OnlyOf(t, key, now) ==> OnlyOfHistory(hist, key, Later(now, high))
    ensures OnlyOfHistory(hist, key, now) ==> OnlyOf(t, key, now)
  {
    if OnlyOf(t, key, now) {
      forall i | 0 <= i < |hist| && hist[i].expires > Later(now, high) ensures !hist[i].folded && hist[i].key == key {
        assert Covered(t, hist[i], high);
      }
    }
    if OnlyOfHistory(hist, key, now) {
      forall k | k in t.orphans && now < t.orphans[k].expires ensures k == key {
        assert KeyedBy(hist, k, t.orphans[k].expires);
      }
      forall p | p in t.overflow ensures now >= t.overflow[p].expires {
        assert FoldedBy(hist, p, t.overflow[p].expires);
      }
    }
  }

  // ---- every run ----

  datatype Op = EndCall(p: Principal, key: Key, expires: Time, now: Time) | Prune(now: Time)

  datatype Past = Past(t: Table, hist: seq<Ended>, high: Time)

  ghost function After(ops: seq<Op>, epoch: Time): Past {
    if ops == [] then Past(Table(map[], map[], map[]), [], epoch)
    else
      var s := After(ops[..|ops| - 1], epoch);
      match ops[|ops| - 1]
      case Prune(now) => Past(Pruned(s.t, now), s.hist, Later(s.high, now))
      case EndCall(p, key, expires, now) =>
        var t := Pruned(s.t, now);
        var n := if now < expires then Record(t, p, key, expires) else t;
        Past(n, Extend(t, s.hist, p, key, expires, now), Later(s.high, now))
  }

  lemma {:induction false} RunSummary(ops: seq<Op>, epoch: Time)
    ensures var s := After(ops, epoch); Summary(s.t, s.hist, s.high)
    ensures var t := After(ops, epoch).t; forall p :: Count(t.orphansOf, p) == |KeysOf(t.orphans, p)| <= 256
  {
    forall p ensures Count(Tally(After(ops, epoch).t.orphans), p) == |KeysOf(After(ops, epoch).t.orphans, p)| {
      TallyAt(After(ops, epoch).t.orphans, p);
    }
    if ops == [] {
      var none: map<Key, Orphan> := map[];
      forall p ensures KeysOf(none, p) == {} {}
      assert Tally(none) == map[];
    } else {
      var s := After(ops[..|ops| - 1], epoch);
      RunSummary(ops[..|ops| - 1], epoch);
      match ops[|ops| - 1] {
        case Prune(now) => PruneKeeps(s.t, s.hist, s.high, now);
        case EndCall(p, key, expires, now) =>
          PruneKeeps(s.t, s.hist, s.high, now);
          RecordKeeps(Pruned(s.t, now), s.hist, Later(s.high, now), p, key, expires, now);
      }
    }
  }

  // The history is the calls that ended, each as it ended.
  function Ends(ops: seq<Op>): seq<Op> {
    if ops == [] then []
    else Ends(ops[..|ops| - 1]) + if ops[|ops| - 1].EndCall? then [ops[|ops| - 1]] else []
  }

  predicate TellsOf(h: Ended, op: Op) { op.EndCall? && (h.principal, h.key, h.expires) == (op.p, op.key, op.expires) }

  lemma {:induction false} HistoryIsEnds(ops: seq<Op>, epoch: Time)
    ensures var hist := After(ops, epoch).hist;
            |hist| == |Ends(ops)| && forall i :: 0 <= i < |hist| ==> TellsOf(hist[i], Ends(ops)[i])
  {
    if ops != [] { HistoryIsEnds(ops[..|ops| - 1], epoch); }
  }

  // ---- what an overflow record counts ----

  function FoldedOf(hist: seq<Ended>, p: Principal): nat {
    if hist == [] then 0
    else
      var h := hist[|hist| - 1];
      FoldedOf(hist[..|hist| - 1], p) + if h.folded && h.principal == p then 1 else 0
  }

  // `n` calls of p have been folded since the j-th ended, and those before it have expired.
  ghost predicate FoldedSince(hist: seq<Ended>, p: Principal, high: Time, n: nat, j: nat) {
    && j <= |hist| && n == FoldedOf(hist[j..], p) && n > 0
    && forall i :: 0 <= i < j && hist[i].folded && hist[i].principal == p ==> hist[i].expires <= high
  }

  lemma FoldedGrows(hist: seq<Ended>, h: Ended, p: Principal, high: Time, later: Time, n: nat, j: nat)
    requires FoldedSince(hist, p, high, n, j) && high <= later
    ensures FoldedSince(hist + [h], p, later, if h.folded && h.principal == p then n + 1 else n, j)
  {
    assert (hist + [h])[j..] == hist[j..] + [h];
    assert (hist[j..] + [h])[..|hist[j..]|] == hist[j..];
  }

  // An overflow record stands for the calls folded into it since it was made, each once; those
  // folded before that have expired.
  lemma {:induction false} OverflowCounts(ops: seq<Op>, epoch: Time, p: Principal)
    requires p in After(ops, epoch).t.overflow
    ensures var s := After(ops, epoch);
            exists j: nat :: FoldedSince(s.hist, p, s.high, s.t.overflow[p].overflow, j)
  {
    if ops != [] {
      var front, op := ops[..|ops| - 1], ops[|ops| - 1];
      var s, n := After(front, epoch), After(ops, epoch);
      if p in s.t.overflow && (op.Prune? || op.now < s.t.overflow[p].expires) {
        OverflowCounts(front, epoch, p);
        var j: nat :| FoldedSince(s.hist, p, s.high, s.t.overflow[p].overflow, j);
        if op.Prune? {
          assert FoldedSince(n.hist, p, n.high, n.t.overflow[p].overflow, j);
        } else {
          FoldedGrows(s.hist, n.hist[|s.hist|], p, s.high, n.high, s.t.overflow[p].overflow, j);
        }
      } else {
        FirstFold(ops, epoch, p);
      }
    }
  }

  // A record that is made anew: whatever was folded for the principal before has expired.
  lemma FirstFold(ops: seq<Op>, epoch: Time, p: Principal)
    requires ops != [] && ops[|ops| - 1].EndCall? && p in After(ops, epoch).t.overflow
    requires var op, s := ops[|ops| - 1], After(ops[..|ops| - 1], epoch); p !in Pruned(s.t, op.now).overflow
    ensures var n := After(ops, epoch); FoldedSince(n.hist, p, n.high, n.t.overflow[p].overflow, |n.hist| - 1)
  {
    var op, s := ops[|ops| - 1], After(ops[..|ops| - 1], epoch);
    RunSummary(ops[..|ops| - 1], epoch);
    PruneKeeps(s.t, s.hist, s.high, op.now);
    RecordIsFirst(Pruned(s.t, op.now), s.hist, Later(s.high, op.now), op.p, op.key, op.expires, op.now, p);
  }

  lemma RecordIsFirst(t: Table, hist: seq<Ended>, high: Time, q: Principal, key: Key, expires: Time, now: Time,
                      p: Principal)
    requires Summary(t, hist, high) && p !in t.overflow && now < expires && p in Record(t, q, key, expires).overflow
    ensures FoldedSince(Extend(t, hist, q, key, expires, now), p, high,
                        Record(t, q, key, expires).overflow[p].overflow, |hist|)
  {
    var h := Extend(t, hist, q, key, expires, now);
    assert h[|hist|..] == [h[|hist|]] && [h[|hist|]][..0] == [];
    forall i | 0 <= i < |hist| && h[i].folded && h[i].principal == p ensures h[i].expires <= high {
      assert Covered(t, hist[i], high);
    }
  }

  // The keys under which a principal's calls have ended.
  ghost function EndedKeys(ops: seq<Op>, p: Principal): set<Key> {
    set i | 0 <= i < |ops| && ops[i].EndCall? && ops[i].p == p :: ops[i].key
  }

  lemma MoreKeys(ops: seq<Op>, p: Principal)
    requires ops != []
    ensures EndedKeys(ops[..|ops| - 1], p) <= EndedKeys(ops, p)
    ensures ops[|ops| - 1].EndCall? && ops[|ops| - 1].p == p ==> ops[|ops| - 1].key in EndedKeys(ops, p)
  {
    var front := ops[..|ops| - 1];
    forall k | k in EndedKeys(front, p) ensures k in EndedKeys(ops, p) {
      var i :| 0 <= i < |front| && front[i].EndCall? && front[i].p == p && front[i].key == k;
      assert ops[i] == front[i];
    }
  }

  lemma {:induction false} RecordsWereEnded(ops: seq<Op>, epoch: Time, k: Key)
    requires k in After(ops, epoch).t.orphans
    ensures k in EndedKeys(ops, After(ops, epoch).t.orphans[k].principal)
  {
    if ops != [] {
      hide EndedKeys, Record, Extend;
      var s, op := After(ops[..|ops| - 1], epoch), ops[|ops| - 1];
      MoreKeys(ops, After(ops, epoch).t.orphans[k].principal);
      if op.EndCall? { RecordFrom(s.t, op, k); }
      if k in s.t.orphans { RecordsWereEnded(ops[..|ops| - 1], epoch, k); }
    }
  }

  // A keyed record after a step was there before it, or is the step's own.
  lemma RecordFrom(t: Table, op: Op, k: Key)
    requires op.EndCall?
    ensures var n := Pruned(t, op.now).orphans;
            k in n ==> k in t.orphans && n[k].principal == t.orphans[k].principal
    ensures var n := Record(Pruned(t, op.now), op.p, op.key, op.expires).orphans;
            k in n ==>
              || (k in t.orphans && op.now < t.orphans[k].expires && n[k].principal == t.orphans[k].principal)
              || (k == op.key && n[k].principal == op.p)
  {
  }

  // Only a principal with more than 256 agent sessions has calls folded.
  lemma {:induction false} FewKeysNeverFold(ops: seq<Op>, epoch: Time)
    requires forall i :: 0 <= i < |ops| && ops[i].EndCall? ==> ops[i].key != ""
    requires forall p :: |EndedKeys(ops, p)| <= 256
    ensures forall i :: 0 <= i < |After(ops, epoch).hist| ==> !After(ops, epoch).hist[i].folded
  {
    if ops != [] {
      var front, op := ops[..|ops| - 1], ops[|ops| - 1];
      assert forall i :: 0 <= i < |front| ==> front[i] == ops[i];
      forall p ensures |EndedKeys(front, p)| <= 256 {
        MoreKeys(ops, p);
        SmallerSet(EndedKeys(front, p), EndedKeys(ops, p));
      }
      FewKeysNeverFold(front, epoch);
      if op.EndCall? { NotFolded(ops, epoch); }
    }
  }

  lemma NotFolded(ops: seq<Op>, epoch: Time)
    requires ops != [] && ops[|ops| - 1].EndCall? && ops[|ops| - 1].key != ""
    requires |EndedKeys(ops, ops[|ops| - 1].p)| <= MAX_ORPHANS
    ensures var op := ops[|ops| - 1]; !Folds(Pruned(After(ops[..|ops| - 1], epoch).t, op.now), op.p, op.key)
  {
    var front, op := ops[..|ops| - 1], ops[|ops| - 1];
    var t := Pruned(After(front, epoch).t, op.now);
    var mine := KeysOf(t.orphans, op.p);
    TallyAt(t.orphans, op.p);
    MoreKeys(ops, op.p);
    forall k | k in mine ensures k in EndedKeys(ops, op.p) { RecordsWereEnded(front, epoch, k); }
    if op.key !in t.orphans { SmallerSet(mine + {op.key}, EndedKeys(ops, op.p)); }
  }

  // ---- whose keys they are ----

  // The agent session behind a call: a stateful session over the listener, the
  // n-th local session Run serves, or none that can be named, with a number of
  // its own.
  datatype Caller = Stateful(id: string) | Local(run: nat) | Unnamed(serial: nat)

  // What agentSessionKey looks at. localRun is what localKey finds.
  datatype Origin = Origin(id: Option<string>, stateless: bool, principal: Principal, localRun: Option<nat>)

  function CallerOf(o: Origin, serial: nat): Caller {
    if o.id.Some? && o.id.value != "" && !o.stateless then Stateful(o.id.value)
    else if o.id.Some? && o.principal == "" && o.localRun.Some? then Local(o.localRun.value)
    else Unnamed(serial)
  }

  function SessionKey(c: Caller): Key {
    match c
    case Stateful(id) => "s" + id
    case Local(n) => "l" + Decimal(n)
    case Unnamed(n) => "r" + Decimal(n)
  }

  lemma KeysNameCallers(a: Caller, b: Caller)
    ensures SessionKey(a) == SessionKey(b) <==> a == b
    ensures SessionKey(a) != ""
  {
    assert SessionKey(a)[0] == SessionKey(b)[0] || SessionKey(a) != SessionKey(b);
    assert SessionKey(a)[1..] == SessionKey(b)[1..] || SessionKey(a) != SessionKey(b);
    if a.Local? && b.Local? { DecimalRoundTrip(a.run); DecimalRoundTrip(b.run); }
    if a.Unnamed? && b.Unnamed? { DecimalRoundTrip(a.serial); DecimalRoundTrip(b.serial); }
  }

  // The key of a call that came from `o`. `serial` is the number requestKey would
  // give it, and is never given twice.
  function CallKey(o: Origin, serial: nat): Key { SessionKey(CallerOf(o, serial)) }

  // A session of a stateful agent, with an id.
  predicate IsStateful(o: Origin) { o.id.Some? && o.id.value != "" && !o.stateless }

  // A session of the local agent: no principal, and a run that is recorded.
  predicate IsLocal(o: Origin) { !IsStateful(o) && o.id.Some? && o.principal == "" && o.localRun.Some? }

  // The two calls belong to one agent session. A call with neither an id nor a
  // run of its own belongs with no other; its serial tells it apart.
  predicate SameSession(a: Origin, m: nat, b: Origin, n: nat) {
    || (IsStateful(a) && IsStateful(b) && a.id == b.id)
    || (IsLocal(a) && IsLocal(b) && a.localRun == b.localRun)
    || (!IsStateful(a) && !IsLocal(a) && !IsStateful(b) && !IsLocal(b) && m == n)
  }

  // Two stateful sessions share a key exactly when their ids are equal, two
  // local ones exactly when they are one run, and no other two calls do.
  lemma CallsShareKeys(a: Origin, m: nat, b: Origin, n: nat)
    ensures IsStateful(a) && IsStateful(b) ==> (CallKey(a, m) == CallKey(b, n) <==> a.id == b.id)
    ensures IsLocal(a) && IsLocal(b) ==> (CallKey(a, m) == CallKey(b, n) <==> a.localRun == b.localRun)
    ensures IsStateful(a) && IsLocal(b) ==> CallKey(a, m) != CallKey(b, n)
    ensures !IsStateful(a) && !IsLocal(a) && m != n ==> CallKey(a, m) != CallKey(b, n)
    ensures CallKey(a, m) == CallKey(b, n) <==> SameSession(a, m, b, n)
    ensures CallKey(a, m) != ""
  {
    KeysNameCallers(CallerOf(a, m), CallerOf(b, n));
  }

  // A stateless agent's call over the listener, and a call with no session at
  // all, belong with no other.
  lemma StatelessStandsAlone(o: Origin)
    requires o.id.None? || (o.stateless && o.principal != "")
    ensures !IsStateful(o) && !IsLocal(o)
  {
  }

  // In every run of ended calls and prunes under a clock that does not run
  // backwards, a prompt is let through to a call exactly when every ended call
  // that has not expired came from that call's own agent session and was not
  // folded into an overflow record.
  lemma AttributionIsSound(ops: seq<Op>, epoch: Time, origins: seq<Origin>, serials: seq<nat>,
                           mine: Origin, serial: nat, now: Time)
    requires var s := After(ops, epoch);
             && now >= s.high && |origins| == |s.hist| && |serials| == |s.hist|
             && forall i :: 0 <= i < |origins| ==> s.hist[i].key == CallKey(origins[i], serials[i])
    ensures var s := After(ops, epoch);
            OnlyOf(s.t, CallKey(mine, serial), now) <==>
            forall i :: 0 <= i < |origins| && s.hist[i].expires > now ==>
              SameSession(origins[i], serials[i], mine, serial) && !s.hist[i].folded
  {
    var s := After(ops, epoch);
    var key := CallKey(mine, serial);
    RunSummary(ops, epoch);
    SummaryIsExact(s.t, s.hist, s.high, key, now);
    forall i | 0 <= i < |origins|
      ensures s.hist[i].key == key <==> SameSession(origins[i], serials[i], mine, serial)
    {
      CallsShareKeys(origins[i], serials[i], mine, serial);
    }
  }

  // An ended call that no session can be named for stands against the prompts
  // of every other call until it expires.
  lemma UnnamedStandsAgainstAll(ops: seq<Op>, epoch: Time, i: nat, o: Origin, m: nat, mine: Origin, n: nat, now: Time)
    requires var s := After(ops, epoch);
             now >= s.high && i < |s.hist| && s.hist[i].key == CallKey(o, m) && s.hist[i].expires > now
    requires !IsStateful(o) && !IsLocal(o) && m != n
    ensures !OnlyOf(After(ops, epoch).t, CallKey(mine, n), now)
  {
    var s := After(ops, epoch);
    RunSummary(ops, epoch);
    SummaryIsExact(s.t, s.hist, s.high, CallKey(mine, n), now);
    CallsShareKeys(o, m, mine, n);
  }

  datatype Attributed = Sole(f: CallId) | EndedElsewhere(f: CallId) | NotOne(n: nat)

  class Upstream {
    var calls: map<CallId, Inflight>
    var orphans: map<Key, Orphan>
    var orphansOf: map<Principal, nat>
    var overflow: map<Principal, Orphan>
    ghost var hist: seq<Ended>
    ghost var high: Time

    ghost function Held(): Table reads this { Table(orphans, orphansOf, overflow) }

    ghost predicate Valid() reads this { Summary(Held(), hist, high) }

    constructor (epoch: Time)
      ensures Valid() && calls == map[] && hist == [] && high == epoch
    {
      calls, orphans, orphansOf, overflow, hist, high := map[], map[], map[], map[], [], epoch;
      new;
      forall p ensures KeysOf(orphans, p) == {} {}
      assert Tally(orphans) == map[];
    }

    // prompts is what earlier rounds of the same call have already asked.
    method Begin(id: CallId, principal: Principal, key: Key, prompts: nat)
      requires Valid() && id !in calls
      modifies this`calls
      ensures Valid() && calls == old(calls)[id := Inflight(principal, key, false, prompts)]
    {
      calls := calls[id := Inflight(principal, key, false, prompts)];
    }

    // The call leaves the calls in flight and becomes a record in the same
    // critical section.
    method End(id: CallId, now: Time, expires: Time) returns (reaped: seq<Orphan>, overflowed: bool)
      requires Valid() && id in calls
      modifies this
      ensures Valid() && calls == old(calls) - {id} && high == Later(old(high), now)
      ensures var f := old(calls)[id]; var t := Pruned(old(Held()), now);
              && hist == Extend(t, old(hist), f.principal, f.key, expires, now)
              && Held() == (if now < expires then Record(t, f.principal, f.key, expires) else t)
              && overflowed == (now < expires && Folds(t, f.principal, f.key) && f.principal !in t.overflow)
              && Reports(reaped, old(Held()), t)
    {
      var f := calls[id];
      calls := calls - {id};
      reaped := PruneOrphans(now);
      ghost var t, h := Held(), hist;
      RecordKeeps(t, h, high, f.principal, f.key, expires, now);
      overflowed := false;
      if now < expires {
        overflowed := AddRecord(f.principal, f.key, expires);
      }
      hist := Extend(t, h, f.principal, f.key, expires, now);
    }

    // The end of end: a keyed record, a longer keyed record, or the
    // principal's overflow record.
    method AddRecord(p: Principal, key: Key, expires: Time) returns (overflowed: bool)
      modifies this`orphans, this`orphansOf, this`overflow
      ensures Held() == Record(old(Held()), p, key, expires)
      ensures overflowed == (Folds(old(Held()), p, key) && p !in old(overflow))
    {
      if key in orphans && key != "" {
        orphans := orphans[key := Orphan(orphans[key].principal, Later(orphans[key].expires, expires), 0)];
        return false;
      }
      if key != "" && Count(orphansOf, p) < MAX_ORPHANS {
        orphans := orphans[key := Orphan(p, expires, 0)];
        orphansOf := Inc(orphansOf, p);
        return false;
      }
      if p in overflow {
        var o := overflow[p];
        overflow := overflow[p := Orphan(p, Later(o.expires, expires), o.overflow + 1)];
        return false;
      }
      overflow := overflow[p := Orphan(p, expires, 1)];
      return true;
    }

    // The records removed, each reported once.
    method PruneOrphans(now: Time) returns (reaped: seq<Orphan>)
      requires Valid()
      modifies this`orphans, this`orphansOf, this`overflow, this`high
      ensures Valid() && Held() == Pruned(old(Held()), now) && high == Later(old(high), now)
      ensures Reports(reaped, old(Held()), Held())
      ensures forall k :: k in old(orphans) ==> (k in orphans <==> now < old(orphans)[k].expires)
      ensures forall p :: p in old(overflow) ==> (p in overflow <==> now < old(overflow)[p].expires)
      ensures forall k :: k in orphans ==> k in old(orphans) && orphans[k] == old(orphans)[k]
      ensures forall p :: p in overflow ==> p in old(overflow) && overflow[p] == old(overflow)[p]
    {
      PruneKeeps(Held(), hist, high, now);
      var keyed := PruneKeyed(now);
      var folded := PruneOverflow(now);
      high := Later(high, now);
      reaped := keyed + folded;
    }

    method PruneKeyed(now: Time) returns (reaped: seq<Orphan>)
      requires orphansOf == Tally(orphans)
      modifies this`orphans, this`orphansOf
      ensures orphans == Pruned(old(Held()), now).orphans && orphansOf == Tally(orphans)
      ensures Counted(reaped, old(orphans), orphans)
    {
      hide Counted;
      ghost var was := orphans;
      reaped := [];
      NoneCounted(orphans);
      var keys := orphans.Keys;
      while keys != {}
        invariant keys <= orphans.Keys <= was.Keys && orphansOf == Tally(orphans)
        invariant forall k :: k in orphans ==> orphans[k] == was[k] && (k in keys || now < orphans[k].expires)
        invariant forall k :: k in was && now < was[k].expires ==> k in orphans
        invariant Counted(reaped, was, orphans)
        decreases |keys|
      {
        var k :| k in keys;
        keys := keys - {k};
        if now >= orphans[k].expires {
          TallyRemove(orphans, k);
          OneCounted(reaped, was, orphans, k);
          reaped := reaped + [orphans[k]];
          var p := orphans[k].principal;
          orphans := orphans - {k};
          orphansOf := Dec(orphansOf, p);
        }
      }
    }

    method PruneOverflow(now: Time) returns (reaped: seq<Orphan>)
      modifies this`overflow
      ensures overflow == Pruned(old(Held()), now).overflow
      ensures Counted(reaped, old(overflow), overflow)
    {
      hide Counted;
      ghost var was := overflow;
      reaped := [];
      NoneCounted(overflow);
      var ps := overflow.Keys;
      while ps != {}
        invariant ps <= overflow.Keys <= was.Keys
        invariant forall p :: p in overflow ==> overflow[p] == was[p] && (p in ps || now < overflow[p].expires)
        invariant forall p :: p in was && now < was[p].expires ==> p in overflow
        invariant Counted(reaped, was, overflow)
        decreases |ps|
      {
        var p :| p in ps;
        ps := ps - {p};
        if now >= overflow[p].expires {
          OneCounted(reaped, was, overflow, p);
          reaped := reaped + [overflow[p]];
          overflow := overflow - {p};
        }
      }
    }

    // A prompt may be relayed only to Sole. It names a call exactly when that
    // call is the only one in flight and, whatever has been folded or pruned,
    // every call in the full history that has not expired carries its key.
    method Attribute(now: Time) returns (a: Attributed)
      requires Valid()
      ensures match a
              case NotOne(n) => n == |calls| && n != 1
              case Sole(f) => calls.Keys == {f} && OnlyOfHistory(hist, calls[f].key, Later(now, high))
              case EndedElsewhere(f) => calls.Keys == {f} && !OnlyOfHistory(hist, calls[f].key, now)
    {
      if |calls| != 1 {
        return NotOne(|calls|);
      }
      assert |calls.Keys| == 1;
      var f :| f in calls;
      assert calls.Keys == {f} by { Singleton(calls.Keys, f); }
      SummaryIsExact(Held(), hist, high, calls[f].key, now);
      var foreign := false;
      var keys := orphans.Keys;
      while keys != {}
        invariant keys <= orphans.Keys
        invariant foreign <==> exists k :: k in orphans.Keys - keys && now < orphans[k].expires && k != calls[f].key
        decreases |keys|
      {
        var k :| k in keys;
        keys := keys - {k};
        if now < orphans[k].expires && k != calls[f].key {
          foreign := true;
        }
      }
      var ps := overflow.Keys;
      ghost var byKey := foreign;
      while ps != {}
        invariant ps <= overflow.Keys
        invariant foreign <==> byKey || exists p :: p in overflow.Keys - ps && now < overflow[p].expires
        decreases |ps|
      {
        var p :| p in ps;
        ps := ps - {p};
        if now < overflow[p].expires {
          foreign := true;
        }
      }
      assert foreign <==> !OnlyOf(Held(), calls[f].key, now);
      return if foreign then EndedElsewhere(f) else Sole(f);
    }

    // One prompt open per call, at most MAX_PROMPTS per call over every path
    // and round.
    method StartPrompt(id: CallId) returns (ok: bool)
      requires Valid() && id in calls
      modifies this`calls
      ensures Valid() && ok == (!old(calls)[id].prompting && old(calls)[id].prompts < 10)
      ensures var f := old(calls)[id];
              calls == if ok then old(calls)[id := f.(prompting := true, prompts := f.prompts + 1)] else old(calls)
    {
      var f := calls[id];
      if f.prompting {
        return false;
      }
      if f.prompts >= MAX_PROMPTS {
        return false;
      }
      calls := calls[id := f.(prompting := true, prompts := f.prompts + 1)];
      return true;
    }

    method EndPrompt(id: CallId)
      requires Valid() && id in calls
      modifies this`calls
      ensures Valid() && calls == old(calls)[id := old(calls)[id].(prompting := false)]
    {
      calls := calls[id := calls[id].(prompting := false)];
    }
  }

  // The keys that hold a record.
  ghost function With<K>(m: map<K, Orphan>, o: Orphan): set<K> { set k | k in m && m[k] == o }

  // The records that went from one map to the next, each as often as it went.
  ghost predicate Counted<K>(reaped: seq<Orphan>, was: map<K, Orphan>, left: map<K, Orphan>) {
    forall o :: multiset(reaped)[o] == Gone(was, left, o)
  }

  ghost predicate Reports(reaped: seq<Orphan>, was: Table, left: Table) {
    forall o :: multiset(reaped)[o] == Gone(was.orphans, left.orphans, o) + Gone(was.overflow, left.overflow, o)
  }

  ghost function Gone<K>(was: map<K, Orphan>, left: map<K, Orphan>, o: Orphan): int { |With(was, o)| - |With(left, o)| }

  lemma NoneCounted<K>(m: map<K, Orphan>)
    ensures Counted([], m, m)
  {
  }

  lemma OneCounted<K>(reaped: seq<Orphan>, was: map<K, Orphan>, left: map<K, Orphan>, k: K)
    requires k in left && Counted(reaped, was, left)
    ensures Counted(reaped + [left[k]], was, left - {k})
  {
    forall o ensures multiset(reaped + [left[k]])[o] == Gone(was, left - {k}, o) {
      assert With(left - {k}, o) == With(left, o) - {k};
      assert multiset(reaped)[o] == Gone(was, left, o);
    }
  }

  lemma Singleton<T>(s: set<T>, x: T)
    requires x in s && |s| == 1
    ensures s == {x}
  {
    assert |s - {x}| == 0;
  }
}
