// The progress relay of one call (internal/proxy/progress.go). Every method of
// ProgressRelay is one critical section under its mutex; Run interleaves them.
// Time and progress are real numbers.

module Progress {
  import opened Prelude

  type Time = real

  const BURST := 10
  const RATE := 5.0

  // A rebuilt notification; body stands for its total and message.
  datatype Note = Note(progress: real, body: nat)

  datatype Bucket = Bucket(tokens: real, refilled: Time)

  datatype Relay = Relay(done: bool, abandoned: bool, started: bool, last: real, bucket: Bucket,
                         held: Option<Note>, queue: seq<Note>, running: bool, exited: bool)

  function Min(a: real, b: real): real { if a < b then a else b }

  function Refill(b: Bucket, now: Time): Bucket {
    if now > b.refilled then Bucket(Min(BURST as real, b.tokens + (now - b.refilled) * RATE), now) else b
  }

  predicate BucketOk(b: Bucket) { 0.0 <= b.tokens <= BURST as real }

  predicate CanTake(b: Bucket, now: Time) { Refill(b, now).tokens >= 1.0 }

  // take spends a token, or refuses and keeps the refill.
  function Take(b: Bucket, now: Time): Bucket {
    var r := Refill(b, now);
    if r.tokens < 1.0 then r else r.(tokens := r.tokens - 1.0)
  }

  // push: a full queue has its newest entry replaced.
  function Push(queue: seq<Note>, n: Note): seq<Note> {
    if |queue| == BURST then queue[|queue| - 1 := n] else queue + [n]
  }

  predicate Accepts(r: Relay, n: Note, dead: bool) { !r.done && !dead && !(r.started && !(n.progress > r.last)) }

  function RelayNext(r: Relay, n: Note, now: Time, dead: bool): Relay {
    if !Accepts(r, n, dead) then r
    else
      var s := r.(started := true, last := n.progress, running := true, bucket := Take(r.bucket, now));
      if CanTake(r.bucket, now) then s.(held := None, queue := Push(s.queue, n)) else s.(held := Some(n))
  }

  // The sender queues the held-back note when a token frees up.
  function Release(r: Relay, now: Time): Relay {
    if !r.done && r.held.Some? then
      var s := r.(bucket := Take(r.bucket, now));
      if CanTake(r.bucket, now) then s.(queue := Push(s.queue, r.held.value), held := None) else s
    else r
  }

  // One turn of the sender: what it takes for writing, if anything.
  function NextToSend(r: Relay): Option<Note> {
    if !r.abandoned && r.queue != [] then Some(r.queue[0]) else None
  }

  function SendNext(r: Relay, now: Time): Relay {
    var s := Release(r, now);
    var next := NextToSend(s);
    s.(queue := if next.Some? then s.queue[1..] else s.queue,
       exited := s.exited || s.abandoned || (s.done && next.None?))
  }

  function FinishNext(r: Relay, dead: bool): Relay {
    r.(done := true, held := None, queue := if r.held.Some? && !dead then Push(r.queue, r.held.value) else r.queue)
  }

  function GiveUpNext(r: Relay): Relay { r.(abandoned := true, queue := []) }

  class ProgressRelay {
    var done: bool
    var abandoned: bool
    var started: bool
    var last: real
    var tokens: real
    var refilled: Time
    var held: Option<Note>
    var queue: seq<Note>
    var running: bool
    var exited: bool

    function View(): Relay reads this {
      Relay(done, abandoned, started, last, Bucket(tokens, refilled), held, queue, running, exited)
    }

    constructor (now: Time)
      ensures View() == NewRelay(now) && Valid()
    {
      done, abandoned, started, last := false, false, false, 0.0;
      tokens, refilled, held, queue, running, exited := BURST as real, now, None, [], false, false;
    }

    method TakeToken(now: Time) returns (ok: bool)
      requires Valid()
      modifies this`tokens, this`refilled
      ensures Valid() && ok == old(CanTake(View().bucket, now))
      ensures View() == old(View()).(bucket := Take(old(View()).bucket, now))
    {
      var d := now - refilled;
      if d > 0.0 {
        tokens := Min(BURST as real, tokens + d * RATE);
        refilled := now;
      }
      if tokens < 1.0 {
        return false;
      }
      tokens := tokens - 1.0;
      return true;
    }

    method PushNote(n: Note)
      modifies this`queue
      ensures View() == old(View()).(queue := Push(old(View()).queue, n))
    {
      if |queue| == BURST {
        queue := queue[|queue| - 1 := n];
        return;
      }
      queue := queue + [n];
    }

    // dead: the agent's request context has ended.
    method Accept(n: Note, now: Time, dead: bool)
      requires Valid()
      modifies this
      ensures Valid() && View() == RelayNext(old(View()), n, now, dead)
      ensures var taken := !old(done) && !dead && (!old(started) || n.progress > old(last));
              if !taken then View() == old(View())
              else if old(CanTake(View().bucket, now)) then held.None? && queue != [] && queue[|queue| - 1] == n
              else held == Some(n) && queue == old(queue)
    {
      if done || dead || (started && !(n.progress > last)) {
        return;
      }
      started, last := true, n.progress;
      running := true;
      var ok := TakeToken(now);
      if ok {
        held := None;
        PushNote(n);
      } else {
        held := Some(n);
      }
    }

    ghost predicate Valid() reads this { BucketOk(View().bucket) }

    // The sender's critical section: it is called by run's loop, which writes
    // the note it returns and comes back, or returns when it says stop.
    method SenderTurn(now: Time) returns (next: Option<Note>, stop: bool, wait: Option<Time>)
      requires Valid() && !exited
      modifies this
      ensures Valid() && View() == SendNext(old(View()), now) && stop == exited
      ensures next == NextToSend(Release(old(View()), now))
      ensures stop <==> abandoned || (done && next.None?)
      ensures old(!done && !abandoned && held.Some? && CanTake(View().bucket, now)) ==>
        held.None? && (next == old(held) || (queue != [] && Some(queue[|queue| - 1]) == old(held)))
      ensures wait.Some? <==> next.None? && !stop && held.Some?
      ensures wait.Some? ==> wait.value >= 0.001
      ensures wait.Some? ==> forall later :: later >= now + wait.value ==> CanTake(View().bucket, later)
      ensures wait.Some? && wait.value > 0.001 && now >= refilled ==>
        forall sooner :: now <= sooner < now + wait.value ==> !CanTake(View().bucket, sooner)
    {
      if !done && held.Some? {
        var ok := TakeToken(now);
        if ok {
          PushNote(held.value);
          held := None;
        }
      }
      next := None;
      if !abandoned && |queue| > 0 {
        next := Some(queue[0]);
        queue := queue[1..];
      }
      stop := abandoned || (done && next.None?);
      exited := stop;
      wait := None;
      if next.None? && !stop && held.Some? {
        var w := UntilToken(now);
        wait := Some(w);
      }
    }

    // At least a millisecond, and long enough for a token. Unless the clock has
    // run backwards it is no longer than that.
    method UntilToken(now: Time) returns (w: Time)
      requires Valid()
      ensures w >= 0.001 && forall later :: later >= now + w ==> CanTake(View().bucket, later)
      ensures w > 0.001 && now >= refilled ==>
        forall sooner :: now <= sooner < now + w ==> !CanTake(View().bucket, sooner)
      ensures now >= refilled ==> w <= 0.2
    {
      var d := (1.0 - tokens) / RATE;
      var left := d - (now - refilled);
      w := if left > 0.001 then left else 0.001;
      forall later | later >= now + w ensures CanTake(View().bucket, later) {
        EnoughWait(Bucket(tokens, refilled), later);
      }
      if left > 0.001 && now >= refilled {
        forall sooner | now <= sooner < now + w ensures !CanTake(View().bucket, sooner) {
          TooSoon(Bucket(tokens, refilled), sooner);
        }
      }
    }

    method Finish(dead: bool)
      modifies this
      ensures View() == FinishNext(old(View()), dead)
    {
      done := true;
      if held.Some? && !dead {
        PushNote(held.value);
      }
      held := None;
    }

    // finish has waited long enough for the sender.
    method GiveUp()
      modifies this
      ensures View() == GiveUpNext(old(View()))
    {
      abandoned := true;
      queue := [];
    }
  }

  function NewRelay(now: Time): Relay {
    Relay(false, false, false, 0.0, Bucket(BURST as real, now), None, [], false, false)
  }

  lemma EnoughWait(b: Bucket, later: Time)
    requires b.tokens >= 0.0 && later - b.refilled >= (1.0 - b.tokens) / RATE
    ensures CanTake(b, later)
  {
    assert (later - b.refilled) * RATE >= 1.0 - b.tokens;
  }

  lemma TooSoon(b: Bucket, sooner: Time)
    requires 0.0 <= sooner - b.refilled < (1.0 - b.tokens) / RATE
    ensures !CanTake(b, sooner)
  {
    assert (sooner - b.refilled) * RATE < 1.0 - b.tokens;
  }

  // ---- runs ----

  datatype Event = Notify(n: Note, now: Time, dead: bool) | Turn(now: Time) | End(dead: bool) | Stall

  // accepted: what relay let in; taken: what the sender took for writing;
  // takes, pushes: successful takes, and notes put on the queue; lost: finish
  // dropped the held note of a dead request, or gave up.
  datatype World = World(r: Relay, accepted: seq<Note>, taken: seq<Note>, takes: nat, pushes: nat, lost: bool)

  predicate Possible(w: World, e: Event) {
    match e
    case Notify(_, _, _) => true
    case Turn(_) => w.r.running && !w.r.exited
    case End(_) => !w.r.done
    case Stall => w.r.done && w.r.running && !w.r.exited
  }

  function Happens(w: World, e: Event): World {
    match e
    case Notify(n, now, dead) =>
      if !Accepts(w.r, n, dead) then w
      else
        var took := if CanTake(w.r.bucket, now) then 1 else 0;
        w.(r := RelayNext(w.r, n, now, dead), accepted := w.accepted + [n],
           takes := w.takes + took, pushes := w.pushes + took)
    case Turn(now) =>
      var took := if !w.r.done && w.r.held.Some? && CanTake(w.r.bucket, now) then 1 else 0;
      var next := NextToSend(Release(w.r, now));
      w.(r := SendNext(w.r, now), taken := if next.Some? then w.taken + [next.value] else w.taken,
         takes := w.takes + took, pushes := w.pushes + took)
    case End(dead) =>
      w.(r := FinishNext(w.r, dead), pushes := if w.r.held.Some? && !dead then w.pushes + 1 else w.pushes,
         lost := w.lost || (w.r.held.Some? && dead))
    case Stall => w.(r := GiveUpNext(w.r), lost := true)
  }

  ghost predicate Run(worlds: seq<World>, events: seq<Event>, start: Time) {
    && |worlds| == |events| + 1
    && worlds[0] == World(NewRelay(start), [], [], 0, 0, false)
    && forall i :: 0 <= i < |events| ==>
      Possible(worlds[i], events[i]) && worlds[i + 1] == Happens(worlds[i], events[i])
  }

  // ---- order, and the last one ----

  ghost predicate Increasing(s: seq<Note>) { forall i, j :: 0 <= i < j < |s| ==> s[i].progress < s[j].progress }

  // What has been taken, what is queued and what is held back, in that order.
  function Flow(w: World): seq<Note> { w.taken + w.r.queue + (if w.r.held.Some? then [w.r.held.value] else []) }

  // The flow increases and ends no later than the newest accepted note.
  ghost predicate Ordered(s: seq<Note>, last: real) {
    Increasing(s) && forall i :: 0 <= i < |s| ==> s[i].progress <= last
  }

  ghost predicate FlowOk(w: World) {
    && |w.r.queue| <= BURST
    && (w.accepted == [] ==> !w.r.started && Flow(w) == [])
    && (w.accepted != [] ==> w.r.started && w.r.running && w.accepted[|w.accepted| - 1].progress == w.r.last)
    && (w.accepted != [] ==> Ordered(Flow(w), w.r.last))
    && (!w.lost && w.accepted != [] ==> Flow(w) != [] && Flow(w)[|Flow(w)| - 1] == w.accepted[|w.accepted| - 1])
    && (w.r.done ==> w.r.held.None?)
    && (w.r.abandoned ==> w.lost && w.r.queue == [] && w.r.done)
    && (w.r.exited ==> w.r.done && w.r.queue == [])
  }

  // Dropping a tail keeps the order, and so does ending on a newer note.
  lemma Ends(s: seq<Note>, k: nat, n: Note, last: real)
    requires Ordered(s, last) && k <= |s| && forall i :: 0 <= i < k ==> s[i].progress < n.progress
    ensures Ordered(s[..k], last)
    ensures n.progress >= last ==> Ordered(s[..k] + [n], n.progress)
    ensures n.progress <= last ==> Ordered(s[..k] + [n], last)
  {
  }

  function Room(queue: seq<Note>): nat { if |queue| == BURST then BURST - 1 else |queue| }

  lemma PushEnds(taken: seq<Note>, queue: seq<Note>, n: Note)
    ensures taken + Push(queue, n) == (taken + queue)[..|taken| + Room(queue)] + [n]
    ensures |queue| <= BURST ==> |Push(queue, n)| <= BURST
  {
  }

  // The held note is queued: the flow keeps its order and its last note.
  lemma HeldIsQueued(taken: seq<Note>, queue: seq<Note>, n: Note, last: real)
    requires Ordered(taken + queue + [n], last)
    ensures Ordered(taken + Push(queue, n), last)
    ensures (taken + Push(queue, n))[|taken + Push(queue, n)| - 1] == n
  {
    var s, k := taken + queue + [n], |taken| + Room(queue);
    PushEnds(taken, queue, n);
    assert s[..k] == (taken + queue)[..k];
    assert s[|s| - 1] == n;
    Ends(s, k, n, last);
  }

  lemma NotifyKeeps(w: World, n: Note, now: Time, dead: bool)
    requires FlowOk(w)
    ensures FlowOk(Happens(w, Notify(n, now, dead)))
  {
    hide CanTake, Take, Push, Ordered, FlowOk;
    var m := Happens(w, Notify(n, now, dead));
    if Accepts(w.r, n, dead) {
      var s := Flow(w);
      var base := w.taken + w.r.queue;
      var k := |w.taken| + (if CanTake(w.r.bucket, now) then Room(w.r.queue) else |w.r.queue|);
      PushEnds(w.taken, w.r.queue, n);
      QueueFits(w);
      assert s[..k] == base[..k];
      assert w.taken + w.r.queue + [n] == base[..|base|] + [n];
      assert Flow(m) == s[..k] + [n];
      Newest(w, m, k, n);
    }
  }

  lemma QueueFits(w: World)
    requires FlowOk(w)
    ensures |w.r.queue| <= BURST
  {
  }

  // A newer note takes the place of what the flow ended in.
  lemma Newest(w: World, m: World, k: nat, n: Note)
    requires FlowOk(w) && Accepts(w.r, n, false) && k <= |Flow(w)| && Flow(m) == Flow(w)[..k] + [n]
    requires m.accepted == w.accepted + [n] && m.lost == w.lost && |m.r.queue| <= BURST
    requires m.r.last == n.progress && m.r.started && m.r.running && !m.r.done
    requires m.r.exited == w.r.exited && m.r.abandoned == w.r.abandoned
    ensures FlowOk(m)
  {
    if w.accepted != [] { Ends(Flow(w), k, n, w.r.last); }
  }

  lemma ReleaseKeeps(w: World, now: Time)
    requires FlowOk(w) && !w.r.exited
    ensures FlowOk(w.(r := Release(w.r, now)))
  {
    hide CanTake, Take;
    var m := w.(r := Release(w.r, now));
    if !w.r.done && w.r.held.Some? && CanTake(w.r.bucket, now) {
      HeldIsQueued(w.taken, w.r.queue, w.r.held.value, w.r.last);
      assert Flow(m) == w.taken + Push(w.r.queue, w.r.held.value);
    } else {
      assert Flow(m) == Flow(w);
    }
  }

  // What the sender does after Release.
  function Sent(w: World): World {
    var next := NextToSend(w.r);
    w.(taken := if next.Some? then w.taken + [next.value] else w.taken,
       r := w.r.(queue := if next.Some? then w.r.queue[1..] else w.r.queue,
                 exited := w.r.exited || w.r.abandoned || (w.r.done && next.None?)))
  }

  lemma SentKeeps(w: World)
    requires FlowOk(w)
    ensures FlowOk(Sent(w))
  {
    if NextToSend(w.r).Some? { assert w.taken + [w.r.queue[0]] + w.r.queue[1..] == w.taken + w.r.queue; }
    assert Flow(Sent(w)) == Flow(w);
  }

  lemma TurnKeeps(w: World, now: Time)
    requires FlowOk(w) && Possible(w, Turn(now))
    ensures FlowOk(Happens(w, Turn(now)))
  {
    hide FlowOk, Release, CanTake;
    var released := w.(r := Release(w.r, now));
    assert !w.r.exited;
    ReleaseKeeps(w, now);
    SentKeeps(released);
    CountsDoNotMatter(Sent(released), Happens(w, Turn(now)));
  }

  lemma CountsDoNotMatter(a: World, b: World)
    requires FlowOk(a) && b == a.(takes := b.takes, pushes := b.pushes)
    ensures FlowOk(b)
  {
    assert Flow(a) == Flow(b);
  }

  lemma EndKeeps(w: World, dead: bool)
    requires FlowOk(w) && !w.r.done
    ensures FlowOk(Happens(w, End(dead)))
  {
    var m := Happens(w, End(dead));
    if w.r.held.Some? {
      if dead {
        var s, k := Flow(w), |w.taken + w.r.queue|;
        assert Flow(m) == s[..k];
        Ends(s, k, s[k], w.r.last);
      } else {
        HeldIsQueued(w.taken, w.r.queue, w.r.held.value, w.r.last);
        assert Flow(m) == w.taken + Push(w.r.queue, w.r.held.value);
      }
    } else {
      assert Flow(m) == Flow(w);
    }
  }

  lemma StallKeeps(w: World)
    requires FlowOk(w) && Possible(w, Stall)
    ensures FlowOk(Happens(w, Stall))
  {
    var s, k := Flow(w), |w.taken|;
    assert Flow(Happens(w, Stall)) == s[..k];
  }

  lemma FlowKept(w: World, e: Event)
    requires FlowOk(w) && Possible(w, e)
    ensures FlowOk(Happens(w, e))
  {
    match e
    case Notify(n, now, dead) => NotifyKeeps(w, n, now, dead);
    case Turn(now) => TurnKeeps(w, now);
    case End(dead) => EndKeeps(w, dead);
    case Stall => StallKeeps(w);
  }

  lemma {:induction false} RunFlow(worlds: seq<World>, events: seq<Event>, start: Time, i: nat)
    requires Run(worlds, events, start) && i < |worlds|
    ensures FlowOk(worlds[i])
  {
    if i > 0 {
      RunFlow(worlds, events, start, i - 1);
      assert Possible(worlds[i - 1], events[i - 1]) && worlds[i - 1 + 1] == Happens(worlds[i - 1], events[i - 1]);
      FlowKept(worlds[i - 1], events[i - 1]);
    }
  }

  // In every interleaving the notes taken for writing have strictly increasing
  // progress, the queue is bounded and increasing, above everything taken and
  // below the held note.
  lemma ProgressIncreases(worlds: seq<World>, events: seq<Event>, start: Time, i: nat)
    requires Run(worlds, events, start) && i < |worlds|
    ensures var w := worlds[i]; |w.r.queue| <= BURST && Increasing(Flow(w)) && Increasing(w.taken)
  {
    RunFlow(worlds, events, start, i);
    var w := worlds[i];
    forall a, b | 0 <= a < b < |w.taken| ensures w.taken[a].progress < w.taken[b].progress {
      assert Flow(w)[a] == w.taken[a] && Flow(w)[b] == w.taken[b];
    }
  }

  // Once the sender has exited, the last note taken is the last one accepted,
  // unless finish gave up or found the request dead with a note held back.
  lemma FinalIsNotLost(worlds: seq<World>, events: seq<Event>, start: Time, i: nat)
    requires Run(worlds, events, start) && i < |worlds|
    requires worlds[i].r.exited && !worlds[i].lost
    ensures var w := worlds[i];
            w.accepted != [] ==> w.taken != [] && w.taken[|w.taken| - 1] == w.accepted[|w.accepted| - 1]
  {
    RunFlow(worlds, events, start, i);
    var w := worlds[i];
    assert Flow(w) == w.taken;
  }

  // A note is accepted exactly when the relay is not finished, the request is
  // live and its progress is above every accepted note's.
  lemma AcceptsWhatIncreases(worlds: seq<World>, events: seq<Event>, start: Time, i: nat)
    requires Run(worlds, events, start) && i < |events| && events[i].Notify?
    ensures var w, m, e := worlds[i], worlds[i + 1], events[i];
            var newer := w.accepted == [] || e.n.progress > w.accepted[|w.accepted| - 1].progress;
            m.accepted == if !w.r.done && !e.dead && newer then w.accepted + [e.n] else w.accepted
  {
    RunFlow(worlds, events, start, i);
    assert Possible(worlds[i], events[i]) && worlds[i + 1] == Happens(worlds[i], events[i]);
  }

  // When a sender's turn finds a note held back and a token free, it takes the
  // note for writing or leaves it last in the queue.
  lemma FreedTokenSends(worlds: seq<World>, events: seq<Event>, start: Time, i: nat)
    requires Run(worlds, events, start) && i < |events| && events[i].Turn?
    requires var r := worlds[i].r;
             !r.done && !r.abandoned && r.held.Some? && CanTake(r.bucket, events[i].now)
    ensures var w, m := worlds[i], worlds[i + 1];
            && m.r.held.None?
            && (m.taken == w.taken + [w.r.held.value]
                || (m.r.queue != [] && m.r.queue[|m.r.queue| - 1] == w.r.held.value))
  {
    assert Possible(worlds[i], events[i]) && worlds[i + 1] == Happens(worlds[i], events[i]);
  }

  // A sender's turn writes what is queued, oldest first, and leaves a finished
  // relay only when nothing is.
  lemma TurnsDrain(worlds: seq<World>, events: seq<Event>, start: Time, i: nat)
    requires Run(worlds, events, start) && i < |events| && events[i].Turn? && !worlds[i].r.abandoned
    ensures var w, m := worlds[i], worlds[i + 1];
            && (w.r.queue != [] ==> |m.taken| == |w.taken| + 1)
            && (w.r.queue != [] && w.r.held.None? ==>
                  m.taken == w.taken + [w.r.queue[0]] && m.r.queue == w.r.queue[1..])
            && (w.r.done ==> (m.r.exited <==> w.r.queue == []))
  {
    RunFlow(worlds, events, start, i);
    assert Possible(worlds[i], events[i]) && worlds[i + 1] == Happens(worlds[i], events[i]);
  }

  // ---- the rate limit ----

  ghost predicate CountsOk(w: World) {
    BucketOk(w.r.bucket) && w.pushes <= w.takes + (if w.r.done then 1 else 0) && |w.taken| + |w.r.queue| <= w.pushes
  }

  // Takes between two worlds are paid for by the refill clock's advance.
  ghost predicate Paid(a: World, b: World) {
    && b.takes >= a.takes && b.r.bucket.refilled >= a.r.bucket.refilled
    && b.r.bucket.tokens + (b.takes - a.takes) as real
       <= a.r.bucket.tokens + (b.r.bucket.refilled - a.r.bucket.refilled) * RATE
  }

  lemma CountsKept(w: World, e: Event)
    requires CountsOk(w) && Possible(w, e) && (w.r.abandoned ==> w.r.queue == [])
    ensures CountsOk(Happens(w, e))
    ensures Paid(w, Happens(w, e))
  {
  }

  lemma {:induction false} RunCounts(worlds: seq<World>, events: seq<Event>, start: Time, i: nat)
    requires Run(worlds, events, start) && i < |worlds|
    ensures CountsOk(worlds[i])
  {
    if i > 0 {
      RunCounts(worlds, events, start, i - 1);
      RunFlow(worlds, events, start, i - 1);
      assert Possible(worlds[i - 1], events[i - 1]) && worlds[i - 1 + 1] == Happens(worlds[i - 1], events[i - 1]);
      CountsKept(worlds[i - 1], events[i - 1]);
    }
  }

  lemma {:induction false} Spending(worlds: seq<World>, events: seq<Event>, start: Time, i: nat, j: nat)
    requires Run(worlds, events, start) && i <= j < |worlds|
    ensures Paid(worlds[i], worlds[j])
    decreases j
  {
    hide Paid, Run;
    RunLength(worlds, events, start);
    if i == j {
      PaidNothing(worlds[i]);
    } else {
      Spending(worlds, events, start, i, j - 1);
      StepIsPaid(worlds, events, start, j - 1);
      PaidTwice(worlds[i], worlds[j - 1], worlds[j]);
    }
  }

  lemma StepIsPaid(worlds: seq<World>, events: seq<Event>, start: Time, i: nat)
    requires Run(worlds, events, start) && i < |events|
    ensures Paid(worlds[i], worlds[i + 1])
  {
    RunCounts(worlds, events, start, i);
    RunFlow(worlds, events, start, i);
    assert Possible(worlds[i], events[i]) && worlds[i + 1] == Happens(worlds[i], events[i]);
    CountsKept(worlds[i], events[i]);
  }

  lemma RunLength(worlds: seq<World>, events: seq<Event>, start: Time)
    requires Run(worlds, events, start)
    ensures |worlds| == |events| + 1
  {
  }

  lemma PaidNothing(a: World)
    ensures Paid(a, a)
  {
  }

  lemma PaidTwice(a: World, b: World, c: World)
    requires Paid(a, b) && Paid(b, c)
    ensures Paid(a, c)
  {
  }

  // Between any two points of a run the successful takes number at most the
  // burst plus the rate times how far the refill clock has moved, whatever the
  // clock does; and a call writes at most one note more than it takes tokens.
  lemma RateLimit(worlds: seq<World>, events: seq<Event>, start: Time, i: nat, j: nat)
    requires Run(worlds, events, start) && i <= j < |worlds|
    ensures var a, b := worlds[i], worlds[j];
            && (b.takes - a.takes) as real <= 10.0 + (b.r.bucket.refilled - a.r.bucket.refilled) * 5.0
            && |b.taken| <= b.pushes <= b.takes + 1
  {
    Spending(worlds, events, start, i, j);
    RunCounts(worlds, events, start, i);
    RunCounts(worlds, events, start, j);
  }
  // Until it has taken ten times the bucket holds what is left of the burst.
  ghost predicate BurstLeft(w: World) { w.r.bucket.tokens >= 10.0 - w.takes as real }

  lemma BurstStays(w: World, e: Event)
    requires BurstLeft(w) && BucketOk(w.r.bucket)
    ensures BurstLeft(Happens(w, e))
  {
  }

  // The first ten takes succeed whenever they are tried: a call's first ten notes are never held back.
  lemma {:induction false} FirstTenPass(worlds: seq<World>, events: seq<Event>, start: Time, i: nat, now: Time)
    requires Run(worlds, events, start) && i < |worlds|
    ensures BurstLeft(worlds[i]) && (worlds[i].takes < 10 ==> CanTake(worlds[i].r.bucket, now))
  {
    hide Happens, Possible;
    RunCounts(worlds, events, start, i);
    if i > 0 {
      FirstTenPass(worlds, events, start, i - 1, now);
      RunCounts(worlds, events, start, i - 1);
      assert worlds[i - 1 + 1] == Happens(worlds[i - 1], events[i - 1]);
      BurstStays(worlds[i - 1], events[i - 1]);
    }
  }
}
