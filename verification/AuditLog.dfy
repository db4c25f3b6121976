// Logs of the audit chain: the verifier's replay (internal/audit/verify.go), the
// writer (internal/audit/writer.go), and what verifying tells about a log.

module AuditLog {
  import opened Prelude
  import opened Canonical
  import opened Chain

  // A line of the file, decoded. `size` is its length in bytes without the newline.
  datatype Content =
    | Blank | NotJson | UnknownKind | BadEvent(seqNo: nat) | BadCheckpoint(seqNo: nat)
    | EventLine(e: Event) | CheckpointLine(cp: Checkpoint)
  datatype Line = Line(size: nat, what: Content)

  type Hash = string -> string
  type Key = (string, string) -> bool

  // The scanner gives up on a line that does not fit its buffer with its newline.
  const MAX_LINE := 16 * 1024 * 1024

  predicate Fits(l: Line) { l.size < MAX_LINE }

  predicate IsEventKind(kind: string) { kind == "call" || kind == "event" || kind == "" }

  // ---- a log as a chain ----

  function EventOf(c: Content): seq<Event> { if c.EventLine? then [c.e] else [] }

  function Events(log: seq<Line>): seq<Event> {
    if log == [] then [] else Events(log[..|log| - 1]) + EventOf(log[|log| - 1].what)
  }

  function Checkpoints(log: seq<Line>): nat {
    if log == [] then 0 else Checkpoints(log[..|log| - 1]) + if log[|log| - 1].what.CheckpointLine? then 1 else 0
  }

  function ChainHash(es: seq<Event>): string { if es == [] then GENESIS else es[|es| - 1].hash }

  // ---- checkpoints ----

  function CheckpointTree(sn: nat, hash: string): Json {
    Obj(map["type" := Str("checkpoint"), "seq" := Number(sn), "hash" := Str(hash)])
  }

  ghost function CheckpointMessage(sn: nat, hash: string): string { Print(CheckpointTree(sn, hash)) }

  lemma CheckpointTreeDecides(m: nat, g: string, n: nat, h: string)
    requires CheckpointTree(m, g) == CheckpointTree(n, h)
    ensures m == n && g == h
  {
    var a, b := CheckpointTree(m, g).fields, CheckpointTree(n, h).fields;
    assert |"seq"| == 3 && |"hash"| == 4 && "type"[0] == 't' && "hash"[0] == 'h';
    assert a["seq"] == b["seq"] && a["hash"] == b["hash"];
    NumberDecides(m, n);
  }

  lemma CheckpointTreeValid(n: nat, h: string)
    ensures Valid(CheckpointTree(n, h))
  {
    NumberValid(n);
  }

  // A signature covers one position and one hash only.
  lemma MessageDecides(m: nat, g: string, n: nat, h: string)
    requires CheckpointMessage(m, g) == CheckpointMessage(n, h)
    ensures m == n && g == h
  {
    hide CheckpointTree, Print, Valid;
    CheckpointTreeValid(m, g);
    CheckpointTreeValid(n, h);
    TreesAreObjects(m, g);
    TreesAreObjects(n, h);
    assert Print(CheckpointTree(m, g)) + "" == Print(CheckpointTree(n, h)) + "";
    PrintIsInjective(CheckpointTree(m, g), CheckpointTree(n, h), "", "");
    CheckpointTreeDecides(m, g, n, h);
  }

  lemma TreesAreObjects(n: nat, h: string)
    ensures CheckpointTree(n, h).Obj?
  {
  }

  // VerifyCheckpoint, after base64 decoding.
  ghost predicate SignatureGood(pub: Key, cp: Checkpoint) {
    cp.sig != "" && pub(CheckpointMessage(cp.sn, cp.hash), cp.sig)
  }

  method VerifyCheckpoint(pub: Key, cp: Checkpoint) returns (good: bool)
    ensures good <==> SignatureGood(pub, cp)
  {
    if cp.sig == "" { return false; }
    var buf := new Buffer();
    buf.WriteCanonical(CheckpointTree(cp.sn, cp.hash));
    assert buf.text == CheckpointMessage(cp.sn, cp.hash);
    good := pub(buf.text, cp.sig);
  }

  // ---- what the verifier asks of the line that follows the events `es` ----

  ghost predicate EventGood(es: seq<Event>, e: Event, H: Hash) {
    && IsEventKind(e.kind) && e.sn == |es| + 1 && e.prev == ChainHash(es)
    && e.hash == H(HashInput(e, ChainHash(es)))
  }

  ghost predicate CheckpointGood(es: seq<Event>, cp: Checkpoint, pub: Option<Key>) {
    cp.sn == |es| && cp.hash == ChainHash(es) && (pub.Some? ==> SignatureGood(pub.value, cp))
  }

  ghost predicate LineGood(es: seq<Event>, c: Content, H: Hash, pub: Option<Key>) {
    match c
    case Blank => true
    case EventLine(e) => EventGood(es, e, H)
    case CheckpointLine(cp) => CheckpointGood(es, cp, pub)
    case _ => false
  }

  ghost predicate Chained(log: seq<Line>, H: Hash, pub: Option<Key>) {
    forall i :: 0 <= i < |log| ==> LineGood(Events(log[..i]), log[i].what, H, pub)
  }

  // The sequence number reported for a line that fails.
  function BrokenAt(es: seq<Event>, c: Content): nat {
    match c
    case BadEvent(n) => n
    case BadCheckpoint(n) => n
    case CheckpointLine(cp) => cp.sn
    case EventLine(e) => if IsEventKind(e.kind) then e.sn else |es| + 1
    case _ => |es| + 1
  }

  // ---- VerifyReader ----

  datatype Report = Report(events: nat, checkpoints: nat, lastSeq: nat, lastHash: string, ok: bool, brokenSeq: nat)

  ghost predicate Tracks(rep: Report, log: seq<Line>) {
    && rep.events == |Events(log)| && rep.lastSeq == |Events(log)|
    && rep.lastHash == ChainHash(Events(log)) && rep.checkpoints == Checkpoints(log)
  }

  method VerifyLine(rep: Report, l: Line, H: Hash, pub: Option<Key>, ghost before: seq<Line>) returns (r: Report)
    requires Tracks(rep, before) && rep.ok && rep.brokenSeq == 0
    ensures r.ok <==> LineGood(Events(before), l.what, H, pub)
    ensures r.ok ==> Tracks(r, before + [l]) && r.brokenSeq == 0
    ensures !r.ok ==> r == rep.(ok := false, brokenSeq := BrokenAt(Events(before), l.what))
  {
    assert (before + [l])[..|before|] == before;
    match l.what
    case Blank => r := rep;
    case CheckpointLine(cp) =>
      r := rep.(ok := false, brokenSeq := cp.sn);
      if cp.sn != rep.lastSeq || cp.hash != rep.lastHash { return; }
      if pub.Some? {
        var good := VerifyCheckpoint(pub.value, cp);
        if !good { return; }
      }
      r := rep.(checkpoints := rep.checkpoints + 1);
    case EventLine(e) =>
      if !IsEventKind(e.kind) { return rep.(ok := false, brokenSeq := rep.lastSeq + 1); }
      r := rep.(ok := false, brokenSeq := e.sn);
      if e.sn != rep.lastSeq + 1 || e.prev != rep.lastHash { return; }
      var want := HashEvent(e, rep.lastHash, H);
      if e.hash != want { return; }
      r := rep.(events := rep.events + 1, lastSeq := e.sn, lastHash := e.hash);
    case BadEvent(n) => r := rep.(ok := false, brokenSeq := n);
    case BadCheckpoint(n) => r := rep.(ok := false, brokenSeq := n);
    case NotJson => r := rep.(ok := false, brokenSeq := rep.lastSeq + 1);
    case UnknownKind => r := rep.(ok := false, brokenSeq := rep.lastSeq + 1);
  }

  ghost predicate Verifies(log: seq<Line>, H: Hash, pub: Option<Key>) {
    Chained(log, H, pub) && forall i :: 0 <= i < |log| ==> Fits(log[i])
  }

  // VerifyReader accepts exactly the chained logs whose lines all fit. It stops at the first line
  // that fails and reports the chain before it.
  method VerifyReader(log: seq<Line>, H: Hash, pub: Option<Key>) returns (rep: Report, tooLong: bool, stop: nat)
    ensures !tooLong && rep.ok <==> Verifies(log, H, pub)
    ensures stop <= |log| && Verifies(log[..stop], H, pub) && Tracks(rep, log[..stop])
    ensures stop == |log| <==> !tooLong && rep.ok
    ensures rep.ok ==> rep.brokenSeq == 0
    ensures tooLong ==> stop < |log| && !Fits(log[stop])
    ensures !rep.ok ==> stop < |log| && !LineGood(Events(log[..stop]), log[stop].what, H, pub)
    ensures !rep.ok ==> stop < |log| && rep.brokenSeq == BrokenAt(Events(log[..stop]), log[stop].what)
    ensures !rep.ok && log[stop].what.EventLine? && log[stop].what.e.kind in ["call", "event", ""] ==>
      rep.brokenSeq == log[stop].what.e.sn
    ensures !rep.ok && log[stop].what.CheckpointLine? ==> rep.brokenSeq == log[stop].what.cp.sn
    ensures !rep.ok && (log[stop].what.NotJson? || log[stop].what.UnknownKind?) ==>
      rep.brokenSeq == |Events(log[..stop])| + 1
  {
    rep := Report(0, 0, 0, GENESIS, true, 0);
    tooLong := false;
    stop := 0;
    while stop < |log|
      invariant stop <= |log| && !tooLong && rep.ok && rep.brokenSeq == 0
      invariant Verifies(log[..stop], H, pub) && Tracks(rep, log[..stop])
    {
      if !Fits(log[stop]) { tooLong := true; return; }
      rep := VerifyLine(rep, log[stop], H, pub, log[..stop]);
      if !rep.ok { return; }
      VerifiesStep(log, stop, H, pub);
      stop := stop + 1;
    }
    assert log[..stop] == log;
  }

  lemma VerifiesStep(log: seq<Line>, i: nat, H: Hash, pub: Option<Key>)
    requires i < |log| && Verifies(log[..i], H, pub)
    requires Fits(log[i]) && LineGood(Events(log[..i]), log[i].what, H, pub)
    ensures log[..i + 1] == log[..i] + [log[i]] && Verifies(log[..i + 1], H, pub)
  {
    hide LineGood, Events;
    var a, b := log[..i], log[..i + 1];
    forall k | 0 <= k < |b| ensures LineGood(Events(b[..k]), b[k].what, H, pub) && Fits(b[k]) {
      assert b[..k] == log[..k];
      if k < i { assert a[..k] == log[..k] && a[k] == b[k]; }
    }
  }

  // ---- chain uniqueness ----

  ghost predicate ChainOk(es: seq<Event>, H: Hash) {
    forall i :: 0 <= i < |es| ==> EventGood(es[..i], es[i], H)
  }

  lemma {:induction false} LogChain(log: seq<Line>, H: Hash, pub: Option<Key>)
    requires Chained(log, H, pub)
    ensures ChainOk(Events(log), H)
  {
    if log != [] {
      var front := log[..|log| - 1];
      ChainedPrefix(log, |front|, H, pub);
      LogChain(front, H, pub);
      var es, more := Events(front), Events(log);
      assert LineGood(Events(log[..|front|]), log[|front|].what, H, pub);
      forall i | 0 <= i < |more| ensures EventGood(more[..i], more[i], H) {
        if i < |es| { assert more[..i] == es[..i] && more[i] == es[i]; } else { assert more[..i] == es; }
      }
    }
  }

  lemma ChainedPrefix(log: seq<Line>, n: nat, H: Hash, pub: Option<Key>)
    requires n <= |log| && Chained(log, H, pub)
    ensures Chained(log[..n], H, pub)
  {
    forall i | 0 <= i < n ensures LineGood(Events(log[..n][..i]), log[..n][i].what, H, pub) {
      assert log[..n][..i] == log[..i];
    }
  }

  // The bytes hashed along a chain.
  ghost function Inputs(es: seq<Event>): set<string> { set i | 0 <= i < |es| :: HashInput(es[i], es[i].prev) }

  ghost predicate CollisionFree(H: Hash, inputs: set<string>) {
    forall x, y :: x in inputs && y in inputs && H(x) == H(y) ==> x == y
  }

  // The same record: a missing type counts as "call".
  predicate SameRecord(a: Event, b: Event) {
    a.(kind := if a.kind == "" then "call" else a.kind) == b.(kind := if b.kind == "" then "call" else b.kind)
  }

  ghost predicate SameRecords(a: seq<Event>, b: seq<Event>) {
    |a| == |b| && forall i :: 0 <= i < |a| ==> SameRecord(a[i], b[i])
  }

  lemma LinkAgrees(x: Event, y: Event, H: Hash, inputs: set<string>)
    requires x.hash == H(HashInput(x, x.prev)) && y.hash == H(HashInput(y, y.prev)) && x.hash == y.hash
    requires HashInput(x, x.prev) in inputs && HashInput(y, y.prev) in inputs && CollisionFree(H, inputs)
    ensures x.prev == y.prev && SameRecord(x, y)
  {
    hide HashInput;
    HashInputDecides(x, x.prev, y, y.prev);
    assert Hashed(x, x.prev) == Hashed(y, y.prev);
  }

  lemma {:induction false} ChainsAgree(a: seq<Event>, b: seq<Event>, H: Hash)
    requires ChainOk(a, H) && ChainOk(b, H) && CollisionFree(H, Inputs(a) + Inputs(b))
    requires |a| == |b| && ChainHash(a) == ChainHash(b)
    ensures SameRecords(a, b)
  {
    hide HashInput, SameRecord, CollisionFree, ChainOk;
    if a != [] {
      var n := |a| - 1;
      var x, y := a[n], b[n];
      LastLink(a, H);
      LastLink(b, H);
      LinkAgrees(x, y, H, Inputs(a) + Inputs(b));
      ChainOkPrefix(a, n, H);
      ChainOkPrefix(b, n, H);
      InputsPrefix(a, n);
      InputsPrefix(b, n);
      FewerCollisions(H, Inputs(a) + Inputs(b), Inputs(a[..n]) + Inputs(b[..n]));
      ChainsAgree(a[..n], b[..n], H);
    }
  }

  lemma LastLink(es: seq<Event>, H: Hash)
    requires es != [] && ChainOk(es, H)
    ensures var n := |es| - 1; EventGood(es[..n], es[n], H) && HashInput(es[n], es[n].prev) in Inputs(es)
  {
    hide HashInput;
    assert EventGood(es[..|es| - 1], es[|es| - 1], H);
  }

  lemma FewerCollisions(H: Hash, inputs: set<string>, fewer: set<string>)
    requires CollisionFree(H, inputs) && fewer <= inputs
    ensures CollisionFree(H, fewer)
  {
  }

  lemma InputsPrefix(es: seq<Event>, n: nat)
    requires n <= |es|
    ensures Inputs(es[..n]) <= Inputs(es)
  {
    hide HashInput;
    forall x | x in Inputs(es[..n]) ensures x in Inputs(es) {
      var i :| 0 <= i < n && x == HashInput(es[..n][i], es[..n][i].prev);
      assert es[..n][i] == es[i];
    }
  }

  lemma ChainOkPrefix(es: seq<Event>, n: nat, H: Hash)
    requires n <= |es| && ChainOk(es, H)
    ensures ChainOk(es[..n], H)
  {
    forall i | 0 <= i < n ensures EventGood(es[..n][..i], es[..n][i], H) {
      assert es[..n][..i] == es[..i];
    }
  }

  // Two logs that verify and end at the same sequence number and hash hold the same records.
  lemma ChainUnique(a: seq<Line>, b: seq<Line>, H: Hash, pa: Option<Key>, pb: Option<Key>)
    requires Chained(a, H, pa) && Chained(b, H, pb)
    requires |Events(a)| == |Events(b)| && ChainHash(Events(a)) == ChainHash(Events(b))
    requires CollisionFree(H, Inputs(Events(a)) + Inputs(Events(b)))
    ensures SameRecords(Events(a), Events(b))
  {
    LogChain(a, H, pa);
    LogChain(b, H, pb);
    ChainsAgree(Events(a), Events(b), H);
  }

  // A checkpoint pins everything before it: if a signed message stands at a line of each of two
  // verifying logs, the records before those lines are the same.
  lemma CheckpointPins(a: seq<Line>, i: nat, b: seq<Line>, j: nat, H: Hash, pub: Option<Key>)
    requires Chained(a, H, pub) && Chained(b, H, pub) && i < |a| && j < |b|
    requires a[i].what.CheckpointLine? && b[j].what.CheckpointLine?
    requires var p, q := a[i].what.cp, b[j].what.cp; CheckpointMessage(p.sn, p.hash) == CheckpointMessage(q.sn, q.hash)
    requires CollisionFree(H, Inputs(Events(a[..i])) + Inputs(Events(b[..j])))
    ensures SameRecords(Events(a[..i]), Events(b[..j]))
  {
    MessageDecides(a[i].what.cp.sn, a[i].what.cp.hash, b[j].what.cp.sn, b[j].what.cp.hash);
    ChainedPrefix(a, i, H, pub);
    ChainedPrefix(b, j, H, pub);
    assert LineGood(Events(a[..i]), a[i].what, H, pub) && LineGood(Events(b[..j]), b[j].what, H, pub);
    ChainUnique(a[..i], b[..j], H, pub, pub);
  }

  // So does a record: if one and the same record stands in two verifying logs, the records up to it
  // are the same. To change, remove, add or move a record shows, as long as a later one is left.
  lemma RecordPins(a: seq<Line>, i: nat, b: seq<Line>, j: nat, H: Hash, pa: Option<Key>, pb: Option<Key>)
    requires Chained(a, H, pa) && Chained(b, H, pb) && i < |a| && j < |b|
    requires a[i].what.EventLine? && a[i].what == b[j].what
    requires CollisionFree(H, Inputs(Events(a[..i + 1])) + Inputs(Events(b[..j + 1])))
    ensures SameRecords(Events(a[..i + 1]), Events(b[..j + 1]))
  {
    hide HashInput, SameRecords, CollisionFree, Inputs;
    ChainedPrefix(a, i + 1, H, pa);
    ChainedPrefix(b, j + 1, H, pb);
    EventPlace(a, i, H, pa);
    EventPlace(b, j, H, pb);
    ChainUnique(a[..i + 1], b[..j + 1], H, pa, pb);
  }

  lemma EventPlace(log: seq<Line>, i: nat, H: Hash, pub: Option<Key>)
    requires Chained(log, H, pub) && i < |log| && log[i].what.EventLine?
    ensures var es := Events(log[..i + 1]); |es| == log[i].what.e.sn && ChainHash(es) == log[i].what.e.hash
  {
    hide HashInput;
    assert LineGood(Events(log[..i]), log[i].what, H, pub);
    assert log[..i + 1][..i] == log[..i];
  }

  // Under a key, a checkpoint without a signature that verifies is refused, and so is, under any,
  // a line that is neither blank nor a record of a call nor a checkpoint.
  lemma RefusedLines(log: seq<Line>, i: nat, H: Hash, pub: Key)
    requires i < |log|
    ensures log[i].what.CheckpointLine? &&
      (log[i].what.cp.sig == "" || !pub(CheckpointMessage(log[i].what.cp.sn, log[i].what.cp.hash), log[i].what.cp.sig))
      ==> !Verifies(log, H, Some(pub))
    ensures !log[i].what.Blank? && !log[i].what.CheckpointLine?
      && !(log[i].what.EventLine? && log[i].what.e.kind in ["call", "event", ""])
      ==> !Verifies(log, H, None)
  {
    hide HashInput;
    if Verifies(log, H, Some(pub)) { assert LineGood(Events(log[..i]), log[i].what, H, Some(pub)); }
    if Verifies(log, H, None) { assert LineGood(Events(log[..i]), log[i].what, H, None); }
  }

  // ---- Writer ----

  // Where an Append fails, having written nothing of the line it was writing.
  datatype Fault = NoFault | BeforeEvent | AtEvent | AtCheckpoint

  // What the clock, the random source and the encoder supply. The slacks are the bytes by which the
  // two lines are longer than their canonical text: what escapes and characters beyond ASCII add.
  datatype Env = Env(now: string, id: string, eventSlack: nat, checkpointSlack: nat, fault: Fault)

  datatype Signer = Signer(every: nat, sign: string -> string)

  ghost predicate Matches(pub: Key, signer: Signer) {
    forall m: string :: signer.sign(m) != "" && pub(m, signer.sign(m))
  }

  function NonNil(l: Option<seq<string>>): Option<seq<string>> { if l.None? then Some([]) else l }

  // The fields that Append assigns before hashing.
  function Filled(e: Event, sn: nat, prev: string, env: Env): Event {
    e.(kind := "call", sn := sn, ts := if e.ts == "" then env.now else e.ts,
       eventId := if e.eventId == "" then env.id else e.eventId,
       targets := NonNil(e.targets), roles := NonNil(e.roles), obligations := NonNil(e.obligations),
       prev := prev, hash := "")
  }

  ghost function Stamped(e: Event, sn: nat, prev: string, env: Env, H: Hash): Event {
    var f := Filled(e, sn, prev, env);
    f.(hash := H(HashInput(f, prev)))
  }

  predicate Due(signer: Signer, sn: nat) { signer.every > 0 && sn % signer.every == 0 }

  ghost function Signed(signer: Signer, sn: nat, hash: string): Checkpoint {
    Checkpoint(sn, hash, signer.sign(CheckpointMessage(sn, hash)))
  }

  // A checkpoint as it is written, with its signature.
  function CheckpointRecord(cp: Checkpoint): Json {
    Obj(CheckpointTree(cp.sn, cp.hash).fields + if cp.sig == "" then map[] else map["sig" := Str(cp.sig)])
  }

  ghost function EventRecordLine(s: Event, env: Env): Line {
    Line(|Print(EventTree(s))| + env.eventSlack, EventLine(s))
  }

  ghost function CheckpointRecordLine(cp: Checkpoint, env: Env): Line {
    Line(|Print(CheckpointRecord(cp))| + env.checkpointSlack, CheckpointLine(cp))
  }

  // The lines that one Append adds after the events `es`.
  ghost function Added(es: seq<Event>, e: Event, env: Env, signer: Signer, H: Hash): seq<Line> {
    var s := Stamped(e, |es| + 1, ChainHash(es), env, H);
    if env.fault.BeforeEvent? || env.fault.AtEvent? then []
    else if Due(signer, s.sn) && !env.fault.AtCheckpoint? then
      [EventRecordLine(s, env), CheckpointRecordLine(Signed(signer, s.sn, s.hash), env)]
    else [EventRecordLine(s, env)]
  }

  method RecordSize(t: Json) returns (n: nat)
    ensures n == |Print(t)|
  {
    var buf := new Buffer();
    buf.WriteCanonical(t);
    assert buf.text == Print(t);
    n := |buf.text|;
  }

  method SignCheckpoint(signer: Signer, sn: nat, hash: string) returns (cp: Checkpoint)
    ensures cp == Signed(signer, sn, hash)
  {
    var buf := new Buffer();
    buf.WriteCanonical(CheckpointTree(sn, hash));
    assert buf.text == CheckpointMessage(sn, hash);
    cp := Checkpoint(sn, hash, signer.sign(buf.text));
  }

  // What is given, or `filled` when it is empty.
  predicate KeptOrFilled(written: string, given: string, filled: string) {
    if given != "" then written == given else written == filled
  }

  // A list is kept, except that none becomes an empty one.
  predicate KeptList(written: Option<seq<string>>, given: Option<seq<string>>) {
    written.Some? && written.value == if given.Some? then given.value else []
  }

  // The record is the caller's: who called what on which devices, what was decided and why, who
  // approved it and what came of it.
  predicate Records(w: Event, e: Event, env: Env) {
    && w.kind == "call" && KeptOrFilled(w.ts, e.ts, env.now) && KeptOrFilled(w.eventId, e.eventId, env.id)
    && w.principal == e.principal && w.session == e.session && w.server == e.server && w.tool == e.tool
    && w.callClass == e.callClass && w.args == e.args
    && KeptList(w.targets, e.targets) && KeptList(w.roles, e.roles) && KeptList(w.obligations, e.obligations)
    && w.decision == e.decision && w.rule == e.rule && w.reason == e.reason && w.approval == e.approval
    && w.status == e.status && w.duration == e.duration && w.redactions == e.redactions
  }

  lemma StampedRecords(e: Event, sn: nat, prev: string, env: Env, H: Hash)
    ensures var w := Stamped(e, sn, prev, env, H);
      Records(w, e, env) && w.sn == sn && w.prev == prev && w.hash == H(HashInput(w, prev))
  {
    hide EventTree, Print;
    var f, w := Filled(e, sn, prev, env), Stamped(e, sn, prev, env, H);
    assert Hashed(f, prev) == Hashed(w, prev);
  }

  predicate RecordedAt(file: seq<Line>, i: nat, e: Event, env: Env) {
    i < |file| && file[i].what.EventLine? && Records(file[i].what.e, e, env)
  }

  // An append that got as far as its event wrote one.
  predicate WroteEvent(env: Env) { env.fault.NoFault? || env.fault.AtCheckpoint? }

  class Writer {
    var file: seq<Line>
    var lastSeq: nat
    var lastHash: string
    const signer: Signer
    const H: Hash

    constructor (file: seq<Line>, lastSeq: nat, lastHash: string, signer: Signer, H: Hash)
      ensures this.file == file && this.lastSeq == lastSeq && this.lastHash == lastHash
      ensures this.signer == signer && this.H == H
    {
      this.file, this.lastSeq, this.lastHash, this.signer, this.H := file, lastSeq, lastHash, signer, H;
    }

    ghost predicate AtEnd()
      reads this
    {
      lastSeq == |Events(file)| && lastHash == ChainHash(Events(file))
    }

    // The record as it is written: the fields assigned, and the hash of what they make.
    method Stamp(e: Event, env: Env) returns (ev: Event)
      ensures ev == Stamped(e, lastSeq + 1, lastHash, env, H) && ev.sn == lastSeq + 1
    {
      ev := Filled(e, lastSeq + 1, lastHash, env);
      var hash := HashEvent(ev, lastHash, H);
      ev := ev.(hash := hash);
    }

    method Put(line: Line)
      modifies this`file
      ensures file == old(file) + [line] && Events(file) == Events(old(file)) + EventOf(line.what)
    {
      assert (file + [line])[..|file|] == file;
      file := file + [line];
    }

    method Append(e: Event, env: Env) returns (ok: bool)
      requires AtEnd()
      modifies this
      ensures AtEnd()
      ensures file == old(file) + Added(Events(old(file)), e, env, signer, H)
      ensures ok <==> env.fault.NoFault? || (env.fault.AtCheckpoint? && !Due(signer, old(lastSeq) + 1))
      ensures WroteEvent(env) ==> RecordedAt(file, |old(file)|, e, env) && lastSeq == old(lastSeq) + 1
      ensures !WroteEvent(env) ==> file == old(file)
      ensures env.fault.NoFault? && signer.every > 0 && lastSeq % signer.every == 0 ==>
        file != [] && file[|file| - 1].what == CheckpointLine(Signed(signer, lastSeq, lastHash))
      ensures env.fault.NoFault? && !(signer.every > 0 && lastSeq % signer.every == 0) ==> |file| == |old(file)| + 1
    {
      hide EventTree, Print, Stamped, Signed, CheckpointRecord, Events, Records;
      StampedRecords(e, lastSeq + 1, lastHash, env, H);
      if env.fault.BeforeEvent? || env.fault.AtEvent? {
        assert file == old(file) + [];
        return false;
      }
      var ev := Stamp(e, env);
      var size := RecordSize(EventTree(ev));
      Put(Line(size + env.eventSlack, EventLine(ev)));
      lastSeq, lastHash := ev.sn, ev.hash;
      if Due(signer, ev.sn) {
        if env.fault.AtCheckpoint? { return false; }
        var cp := SignCheckpoint(signer, lastSeq, lastHash);
        size := RecordSize(CheckpointRecord(cp));
        Put(Line(size + env.checkpointSlack, CheckpointLine(cp)));
      }
      ok := true;
    }
  }

  // resumeLog: an existing log is taken up only if it verifies.
  method NewWriter(file: seq<Line>, signer: Signer, H: Hash) returns (w: Writer?)
    ensures w != null <==> Verifies(file, H, None)
    ensures w != null ==> fresh(w) && w.file == file && w.signer == signer && w.H == H && w.AtEnd()
  {
    var rep, tooLong, stop := VerifyReader(file, H, None);
    assert stop == |file| ==> file[..stop] == file;
    if tooLong || !rep.ok { return null; }
    w := new Writer(file, rep.lastSeq, rep.lastHash, signer, H);
  }

  // ---- every log that writers produce ----

  // One step in the life of a log: an Append by the open writer, or closing it and opening
  // the log again, with a key that matches `pub` or without checkpoints.
  datatype Op = AppendOp(e: Event, env: Env) | ReopenOp(signer: Signer)

  // The file, and the writer that holds it open.
  datatype Disk = Disk(file: seq<Line>, writer: Option<Signer>)

  ghost function Act(d: Disk, op: Op, H: Hash): Disk {
    match op
    case AppendOp(e, env) =>
      if d.writer.None? then d else Disk(d.file + Added(Events(d.file), e, env, d.writer.value, H), d.writer)
    case ReopenOp(signer) => Disk(d.file, if Verifies(d.file, H, None) then Some(signer) else None)
  }

  ghost function Acts(ops: seq<Op>, H: Hash): Disk {
    if ops == [] then Disk([], None) else Act(Acts(ops[..|ops| - 1], H), ops[|ops| - 1], H)
  }

  ghost predicate KeysMatch(ops: seq<Op>, pub: Key) {
    forall i :: 0 <= i < |ops| && ops[i].ReopenOp? && ops[i].signer.every > 0 ==> Matches(pub, ops[i].signer)
  }

  lemma StampedGood(es: seq<Event>, e: Event, env: Env, H: Hash)
    ensures EventGood(es, Stamped(e, |es| + 1, ChainHash(es), env, H), H)
  {
    hide EventTree, Print;
    var prev := ChainHash(es);
    var f := Filled(e, |es| + 1, prev, env);
    var s := Stamped(e, |es| + 1, prev, env, H);
    assert Hashed(f, prev) == Hashed(s, prev);
  }

  lemma ExtendChain(log: seq<Line>, l: Line, H: Hash, pub: Option<Key>)
    requires Chained(log, H, pub) && LineGood(Events(log), l.what, H, pub)
    ensures Chained(log + [l], H, pub) && Events(log + [l]) == Events(log) + EventOf(l.what)
  {
    var more := log + [l];
    assert more[..|log|] == log;
    forall i | 0 <= i < |more| ensures LineGood(Events(more[..i]), more[i].what, H, pub) {
      if i < |log| { assert more[..i] == log[..i]; }
    }
  }

  lemma AppendKeepsChain(log: seq<Line>, e: Event, env: Env, signer: Signer, H: Hash, pub: Option<Key>)
    requires Chained(log, H, pub)
    requires signer.every > 0 && pub.Some? ==> Matches(pub.value, signer)
    ensures Chained(log + Added(Events(log), e, env, signer, H), H, pub)
  {
    hide Stamped, CheckpointMessage, Chained, Events;
    var es := Events(log);
    var s := Stamped(e, |es| + 1, ChainHash(es), env, H);
    var add := Added(es, e, env, signer, H);
    StampedGood(es, e, env, H);
    if add == [] {
      assert log + add == log;
    } else {
      ExtendChain(log, add[0], H, pub);
      if |add| == 1 {
        assert log + add == log + [add[0]];
      } else {
        assert log + add == log + [add[0]] + [add[1]];
        assert CheckpointGood(es + [s], add[1].what.cp, pub);
        ExtendChain(log + [add[0]], add[1], H, pub);
      }
    }
  }

  // Whatever is appended and however often the log is closed and reopened, it stays a chain,
  // with every checkpoint accepted under the matching key.
  lemma {:induction false} RunsChain(ops: seq<Op>, H: Hash, pub: Key)
    requires KeysMatch(ops, pub)
    ensures Chained(Acts(ops, H).file, H, Some(pub))
    ensures Acts(ops, H).writer.Some? && Acts(ops, H).writer.value.every > 0 ==> Matches(pub, Acts(ops, H).writer.value)
  {
    if ops != [] {
      var n := |ops| - 1;
      assert forall i :: 0 <= i < n ==> ops[..n][i] == ops[i];
      RunsChain(ops[..n], H, pub);
      var d := Acts(ops[..n], H);
      if ops[n].AppendOp? && d.writer.Some? {
        AppendKeepsChain(d.file, ops[n].e, ops[n].env, d.writer.value, H, Some(pub));
      }
    }
  }

  // The appends of a run that wrote their event.
  ghost function Wrote(ops: seq<Op>, H: Hash): seq<Op> {
    if ops == [] then []
    else
      var n := |ops| - 1;
      var wrote := ops[n].AppendOp? && Acts(ops[..n], H).writer.Some? && WroteEvent(ops[n].env);
      Wrote(ops[..n], H) + if wrote then [ops[n]] else []
  }

  // The events of the log are the records of those appends, each once and in order.
  lemma {:induction false} LogRecordsAppends(ops: seq<Op>, H: Hash)
    ensures var es := Events(Acts(ops, H).file);
      |es| == |Wrote(ops, H)|
      && forall i :: 0 <= i < |es| ==>
           Wrote(ops, H)[i].AppendOp? && Records(es[i], Wrote(ops, H)[i].e, Wrote(ops, H)[i].env)
  {
    hide Records, Added, Verifies;
    if ops != [] {
      var n := |ops| - 1;
      var d := Acts(ops[..n], H);
      LogRecordsAppends(ops[..n], H);
      if ops[n].AppendOp? && d.writer.Some? {
        AddedRecords(d.file, ops[n].e, ops[n].env, d.writer.value, H);
      }
    }
  }

  lemma AddedRecords(log: seq<Line>, e: Event, env: Env, signer: Signer, H: Hash)
    ensures var more := Events(log + Added(Events(log), e, env, signer, H));
      if WroteEvent(env) then
        |more| == |Events(log)| + 1 && more[..|Events(log)|] == Events(log) && Records(more[|Events(log)|], e, env)
      else more == Events(log)
  {
    hide Stamped, Records, Print, Signed, Events;
    var es := Events(log);
    var add := Added(es, e, env, signer, H);
    var s := Stamped(e, |es| + 1, ChainHash(es), env, H);
    StampedRecords(e, |es| + 1, ChainHash(es), env, H);
    assert (es + [s])[..|es|] == es;
    if add == [] {
      assert log + add == log;
    } else {
      OneMore(log, add[0]);
      if |add| == 1 {
        assert log + add == log + [add[0]];
      } else {
        OneMore(log + [add[0]], add[1]);
        assert log + add == log + [add[0]] + [add[1]];
      }
    }
  }

  lemma OneMore(log: seq<Line>, l: Line)
    ensures Events(log + [l]) == Events(log) + EventOf(l.what)
  {
    assert (log + [l])[..|log|] == log;
  }

  // Every record that was written, while a writer had the log open, makes lines that fit.
  ghost predicate AppendsFit(ops: seq<Op>, H: Hash) {
    forall i :: 0 <= i < |ops| ==> AppendFits(Acts(ops[..i], H), ops[i], H)
  }

  // What a caller can work out before it appends: the length of the record with the fields that
  // Append assigns, and of the checkpoint that is due after it.
  ghost predicate AppendFits(d: Disk, op: Op, H: Hash) {
    op.AppendOp? && d.writer.Some? ==>
      forall i :: 0 <= i < |Added(Events(d.file), op.e, op.env, d.writer.value, H)|
        ==> Fits(Added(Events(d.file), op.e, op.env, d.writer.value, H)[i])
  }

  // Such a log verifies, and can be opened again, exactly when none of its lines has outgrown the
  // verifier's buffer, a bound that Append does not check: when every append fitted.
  lemma RunsVerify(ops: seq<Op>, H: Hash, pub: Key)
    requires KeysMatch(ops, pub)
    ensures var file := Acts(ops, H).file;
      (Verifies(file, H, Some(pub)) <==> (forall i :: 0 <= i < |file| ==> Fits(file[i])))
      && (Verifies(file, H, None) <==> (forall i :: 0 <= i < |file| ==> Fits(file[i])))
    ensures Verifies(Acts(ops, H).file, H, Some(pub)) <==> AppendsFit(ops, H)
  {
    RunsChain(ops, H, pub);
    WithoutKey(Acts(ops, H).file, H, pub);
    FitsByAppends(ops, H);
  }

  ghost predicate AllFit(log: seq<Line>) { forall i :: 0 <= i < |log| ==> Fits(log[i]) }

  lemma {:induction false} FitsByAppends(ops: seq<Op>, H: Hash)
    ensures AllFit(Acts(ops, H).file) <==> AppendsFit(ops, H)
  {
    hide Added, Fits, Verifies, AppendsFit, AllFit;
    LastFits(ops, H);
    NothingFits();
    if ops != [] {
      var d, op := Acts(ops[..|ops| - 1], H), ops[|ops| - 1];
      FitsByAppends(ops[..|ops| - 1], H);
      if op.AppendOp? && d.writer.Some? {
        var added := Added(Events(d.file), op.e, op.env, d.writer.value, H);
        BothFit(d.file, added);
        AppendFitsAll(d, op, H);
      }
    }
  }

  lemma NothingFits()
    ensures AllFit([])
  {
  }

  lemma AppendFitsAll(d: Disk, op: Op, H: Hash)
    requires op.AppendOp? && d.writer.Some?
    ensures AppendFits(d, op, H) <==> AllFit(Added(Events(d.file), op.e, op.env, d.writer.value, H))
  {
    hide Added, Fits;
  }

  lemma LastFits(ops: seq<Op>, H: Hash)
    ensures AppendsFit(ops, H) <==>
      ops == [] || (AppendsFit(ops[..|ops| - 1], H) && AppendFits(Acts(ops[..|ops| - 1], H), ops[|ops| - 1], H))
  {
    hide AppendFits, Acts;
    if ops != [] {
      var front := ops[..|ops| - 1];
      assert forall i :: 0 <= i < |front| ==> ops[..i] == front[..i] && ops[i] == front[i];
    }
  }

  lemma BothFit(a: seq<Line>, b: seq<Line>)
    ensures AllFit(a + b) <==> AllFit(a) && AllFit(b)
  {
    assert forall i :: 0 <= i < |a| ==> (a + b)[i] == a[i];
    assert forall i :: 0 <= i < |b| ==> (a + b)[|a| + i] == b[i];
  }

  lemma WithoutKey(log: seq<Line>, H: Hash, pub: Key)
    requires Chained(log, H, Some(pub))
    ensures Chained(log, H, None)
  {
    forall i | 0 <= i < |log| ensures LineGood(Events(log[..i]), log[i].what, H, None) {
      assert LineGood(Events(log[..i]), log[i].what, H, Some(pub));
    }
  }

  // An event whose reason alone fills the buffer, appended without error, makes a log that no
  // longer verifies.
  lemma LongEventBreaksLog(e: Event, env: Env, signer: Signer, H: Hash)
    requires env.fault.NoFault? && |e.reason| >= MAX_LINE
    ensures !Verifies(Acts([ReopenOp(signer), AppendOp(e, env)], H).file, H, None)
  {
    hide Print, EventTree;
    var ops := [ReopenOp(signer), AppendOp(e, env)];
    assert ops[..1] == [ReopenOp(signer)] && ops[..1][..0] == [];
    assert Verifies([], H, None);
    assert Acts([], H) == Disk([], None);
    assert Acts(ops[..1], H) == Disk([], Some(signer));
    var added := Added([], e, env, signer, H);
    var file := Acts(ops, H).file;
    assert file == [] + added;
    ReasonIsWritten(Stamped(e, 1, GENESIS, env, H));
    assert file[0] == added[0] && !Fits(file[0]);
  }

  lemma ReasonIsWritten(s: Event)
    requires s.reason != ""
    ensures |Print(EventTree(s))| > |s.reason|
  {
    hide Print, Label;
    TreeField(s, ReasonField);
    FieldIsPrinted(EventTree(s), Label(ReasonField));
    TextIsPrinted(s.reason);
  }
}
