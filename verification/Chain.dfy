// The audit log's hash chain (internal/audit): what an event's hash covers, the
// verifier's replay of a log, and what two logs that both verify have in common.

module Chain {
  import opened Prelude
  import opened Canonical

  datatype ApprovalRef = ApprovalRef(id: string, approver: string, channel: string)

  // A string list is None where the Go slice is nil.
  datatype Event = Event(
    kind: string, eventId: string, sn: nat, ts: string, principal: string, session: string,
    server: string, tool: string, callClass: string, args: string,
    targets: Option<seq<string>>, roles: Option<seq<string>>,
    decision: string, rule: string, reason: string, obligations: Option<seq<string>>,
    approval: Option<ApprovalRef>, status: string, duration: int, redactions: int,
    prev: string, hash: string)

  datatype Checkpoint = Checkpoint(sn: nat, hash: string, sig: string)

  // ---- the tree that is printed ----

  function Number(n: int): Json { Num(if n < 0 then "-" + Decimal(-n) else Decimal(n)) }

  function Strings(l: Option<seq<string>>): Json {
    if l.None? then Null else Arr(seq(|l.value|, i requires 0 <= i < |l.value| => Str(l.value[i])))
  }

  function ApprovalTree(a: ApprovalRef): Json {
    Obj(map["id" := Str(a.id), "approver" := Str(a.approver), "channel" := Str(a.channel)])
  }

  datatype Field =
    | KindField | EventIdField | SeqField | TsField | PrincipalField | SessionField | ServerField | ToolField
    | ClassField | ArgsField | TargetsField | RolesField | DecisionField | RuleField | ReasonField | ObligationsField
    | ApprovalField | StatusField | DurationField | RedactionsField | PrevField | HashField

  function Label(f: Field): string {
    match f
    case KindField => "type"
    case EventIdField => "event_id"
    case SeqField => "seq"
    case TsField => "ts"
    case PrincipalField => "principal"
    case SessionField => "session_id"
    case ServerField => "server"
    case ToolField => "tool"
    case ClassField => "class"
    case ArgsField => "args_sha256"
    case TargetsField => "targets"
    case RolesField => "roles"
    case DecisionField => "decision"
    case RuleField => "rule_id"
    case ReasonField => "reason"
    case ObligationsField => "obligations"
    case ApprovalField => "approval"
    case StatusField => "status"
    case DurationField => "duration_ms"
    case RedactionsField => "redactions"
    case PrevField => "prev_hash"
    case HashField => "hash"
  }

  function Value(e: Event, f: Field): Json {
    match f
    case KindField => Str(e.kind)
    case EventIdField => Str(e.eventId)
    case SeqField => Number(e.sn)
    case TsField => Str(e.ts)
    case PrincipalField => Str(e.principal)
    case SessionField => Str(e.session)
    case ServerField => Str(e.server)
    case ToolField => Str(e.tool)
    case ClassField => Str(e.callClass)
    case ArgsField => Str(e.args)
    case TargetsField => Strings(e.targets)
    case RolesField => Strings(e.roles)
    case DecisionField => Str(e.decision)
    case RuleField => Str(e.rule)
    case ReasonField => Str(e.reason)
    case ObligationsField => Strings(e.obligations)
    case ApprovalField => if e.approval.None? then Null else ApprovalTree(e.approval.value)
    case StatusField => Str(e.status)
    case DurationField => Number(e.duration)
    case RedactionsField => Number(e.redactions)
    case PrevField => Str(e.prev)
    case HashField => Str(e.hash)
  }

  // omitempty.
  predicate Shown(e: Event, f: Field) {
    match f
    case ReasonField => e.reason != ""
    case ApprovalField => e.approval.Some?
    case HashField => e.hash != ""
    case _ => true
  }

  // No two labels agree in length, first and last character.
  function Mark(name: string): (int, char, char)
    requires name != ""
  {
    (|name|, name[0], name[|name| - 1])
  }

  lemma Marks(f: Field)
    ensures Label(f) != ""
    ensures Mark(Label(f)) ==
      match f
      case KindField => (4, 't', 'e')
      case EventIdField => (8, 'e', 'd')
      case SeqField => (3, 's', 'q')
      case TsField => (2, 't', 's')
      case PrincipalField => (9, 'p', 'l')
      case SessionField => (10, 's', 'd')
      case ServerField => (6, 's', 'r')
      case ToolField => (4, 't', 'l')
      case ClassField => (5, 'c', 's')
      case ArgsField => (11, 'a', '6')
      case TargetsField => (7, 't', 's')
      case RolesField => (5, 'r', 's')
      case DecisionField => (8, 'd', 'n')
      case RuleField => (7, 'r', 'd')
      case ReasonField => (6, 'r', 'n')
      case ObligationsField => (11, 'o', 's')
      case ApprovalField => (8, 'a', 'l')
      case StatusField => (6, 's', 's')
      case DurationField => (11, 'd', 's')
      case RedactionsField => (10, 'r', 's')
      case PrevField => (9, 'p', 'h')
      case HashField => (4, 'h', 'h')
  {
  }

  lemma LabelsDiffer()
    ensures forall f, g :: Label(f) == Label(g) ==> f == g
  {
    forall f, g | Label(f) == Label(g) ensures f == g { LabelsDifferAt(f, g); }
  }

  lemma LabelsDifferAt(f: Field, g: Field)
    requires Label(f) == Label(g)
    ensures f == g
  {
    hide Label, Mark;
    Marks(f);
    Marks(g);
  }

  function Labels(e: Event): set<string> { set f: Field | Shown(e, f) :: Label(f) }

  function Labelled(e: Event, k: string): (f: Field)
    requires k in Labels(e)
    ensures Label(f) == k && Shown(e, f)
  {
    LabelsDiffer();
    var f: Field :| Label(f) == k && Shown(e, f);
    f
  }

  // What json.Marshal and UseNumber make of an event.
  function EventTree(e: Event): Json {
    Obj(map k: string | k in Labels(e) :: Value(e, Labelled(e, k)))
  }

  lemma TreeField(e: Event, f: Field)
    ensures Label(f) in EventTree(e).fields <==> Shown(e, f)
    ensures Shown(e, f) ==> EventTree(e).fields[Label(f)] == Value(e, f)
  {
    hide Label, Value, Shown;
    if Label(f) in Labels(e) { LabelsDifferAt(f, Labelled(e, Label(f))); }
  }

  predicate Holds(t: Json, name: string, v: Json) { t.Obj? && name in t.fields && t.fields[name] == v }

  lemma FieldHolds(e: Event, f: Field)
    ensures Shown(e, f) ==> Holds(EventTree(e), Label(f), Value(e, f))
    ensures !Shown(e, f) ==> Label(f) !in EventTree(e).fields
  {
    TreeField(e, f);
  }

  // The record as it is read in the log: who called what under which name, what was decided and what
  // came of it, and the links of the chain.
  lemma CallerNames(e: Event)
    ensures var t := EventTree(e);
      && Holds(t, "type", Str(e.kind)) && Holds(t, "event_id", Str(e.eventId)) && Holds(t, "ts", Str(e.ts))
      && Holds(t, "seq", Number(e.sn)) && Holds(t, "prev_hash", Str(e.prev))
      && Holds(t, "principal", Str(e.principal)) && Holds(t, "session_id", Str(e.session))
      && Holds(t, "server", Str(e.server)) && Holds(t, "tool", Str(e.tool)) && Holds(t, "class", Str(e.callClass))
      && Holds(t, "args_sha256", Str(e.args))
      && Holds(t, "targets", Strings(e.targets)) && Holds(t, "roles", Strings(e.roles))
  {
    hide EventTree, Holds, Number, Strings;
    FieldHolds(e, KindField);
    FieldHolds(e, EventIdField);
    FieldHolds(e, TsField);
    FieldHolds(e, SeqField);
    FieldHolds(e, PrevField);
    FieldHolds(e, PrincipalField);
    FieldHolds(e, SessionField);
    FieldHolds(e, ServerField);
    FieldHolds(e, ToolField);
    FieldHolds(e, ClassField);
    FieldHolds(e, ArgsField);
    FieldHolds(e, TargetsField);
    FieldHolds(e, RolesField);
  }

  // Only a reason, an approval and a hash are ever left out, and only when there is none.
  lemma OutcomeNames(e: Event)
    ensures var t := EventTree(e);
      && Holds(t, "decision", Str(e.decision)) && Holds(t, "rule_id", Str(e.rule))
      && Holds(t, "obligations", Strings(e.obligations)) && Holds(t, "status", Str(e.status))
      && Holds(t, "duration_ms", Number(e.duration)) && Holds(t, "redactions", Number(e.redactions))
      && (if e.reason != "" then Holds(t, "reason", Str(e.reason)) else "reason" !in t.fields)
      && (if e.hash != "" then Holds(t, "hash", Str(e.hash)) else "hash" !in t.fields)
      && (if e.approval.Some? then Holds(t, "approval", ApprovalTree(e.approval.value)) else "approval" !in t.fields)
  {
    hide EventTree, Holds, Number, Strings, ApprovalTree;
    FieldHolds(e, DecisionField);
    FieldHolds(e, RuleField);
    FieldHolds(e, ObligationsField);
    FieldHolds(e, StatusField);
    FieldHolds(e, DurationField);
    FieldHolds(e, RedactionsField);
    FieldHolds(e, ReasonField);
    FieldHolds(e, HashField);
    FieldHolds(e, ApprovalField);
  }

  lemma {:induction false} NumberValid(n: int)
    ensures ValidNumber(Number(n).text)
  {
    var d := Decimal(if n < 0 then -n else n);
    forall c | c in d ensures NumChar(c) {
      var i :| 0 <= i < |d| && d[i] == c;
    }
  }

  lemma NumberDecides(m: int, n: int)
    requires Number(m) == Number(n)
    ensures m == n
  {
    var dm, dn := Decimal(if m < 0 then -m else m), Decimal(if n < 0 then -n else n);
    DecimalRoundTrip(if m < 0 then -m else m);
    DecimalRoundTrip(if n < 0 then -n else n);
    assert ("-" + dm)[1..] == dm && ("-" + dn)[1..] == dn;
  }

  lemma StringsDecide(a: Option<seq<string>>, b: Option<seq<string>>)
    requires Strings(a) == Strings(b)
    ensures a == b
  {
    if a.Some? && b.Some? {
      var la, lb := Strings(a).items, Strings(b).items;
      forall i | 0 <= i < |a.value| ensures a.value[i] == b.value[i] {
        assert la[i] == Str(a.value[i]) && lb[i] == Str(b.value[i]);
      }
      assert |la| == |a.value| && |lb| == |b.value|;
      assert a.value == b.value;
    }
  }

  lemma ApprovalDecides(a: ApprovalRef, b: ApprovalRef)
    requires ApprovalTree(a) == ApprovalTree(b)
    ensures a == b
  {
    var ma, mb := ApprovalTree(a).fields, ApprovalTree(b).fields;
    assert "id" != "approver" && "id" != "channel" && "approver" != "channel" by {
      assert |"id"| == 2 && "approver"[0] == 'a' && "channel"[0] == 'c';
    }
    assert ma["id"] == mb["id"] && ma["approver"] == mb["approver"] && ma["channel"] == mb["channel"];
  }

  lemma TreeValid(e: Event)
    ensures Valid(EventTree(e))
  {
    hide Label, Value, Shown;
    var t := EventTree(e);
    forall k | k in t.fields ensures Valid(t.fields[k]) {
      ValueValid(e, Labelled(e, k));
    }
  }

  lemma ValueValid(e: Event, f: Field)
    ensures Valid(Value(e, f))
  {
    NumberValid(e.sn);
    NumberValid(e.duration);
    NumberValid(e.redactions);
  }

  lemma SameField(a: Event, b: Event, f: Field)
    requires EventTree(a) == EventTree(b)
    ensures Shown(a, f) == Shown(b, f) && (Shown(a, f) ==> Value(a, f) == Value(b, f))
  {
    TreeField(a, f);
    TreeField(b, f);
  }

  // The printed tree determines every field of the event.
  lemma TreeDecides(a: Event, b: Event)
    requires EventTree(a) == EventTree(b)
    ensures a == b
  {
    hide EventTree, Number, Strings, ApprovalTree;
    TreeDecidesTexts(a, b);
    TreeDecidesRest(a, b);
  }

  lemma TreeDecidesTexts(a: Event, b: Event)
    requires EventTree(a) == EventTree(b)
    ensures a.kind == b.kind && a.eventId == b.eventId && a.ts == b.ts && a.principal == b.principal
         && a.session == b.session && a.server == b.server && a.tool == b.tool && a.callClass == b.callClass
         && a.args == b.args && a.decision == b.decision && a.rule == b.rule && a.reason == b.reason
         && a.status == b.status && a.prev == b.prev && a.hash == b.hash
  {
    hide EventTree, Number, Strings, ApprovalTree;
    SameField(a, b, KindField);
    SameField(a, b, EventIdField);
    SameField(a, b, TsField);
    SameField(a, b, PrincipalField);
    SameField(a, b, SessionField);
    SameField(a, b, ServerField);
    SameField(a, b, ToolField);
    SameField(a, b, ClassField);
    SameField(a, b, ArgsField);
    SameField(a, b, DecisionField);
    SameField(a, b, RuleField);
    SameField(a, b, ReasonField);
    SameField(a, b, StatusField);
    SameField(a, b, PrevField);
    SameField(a, b, HashField);
  }

  lemma TreeDecidesRest(a: Event, b: Event)
    requires EventTree(a) == EventTree(b)
    ensures a.sn == b.sn && a.duration == b.duration && a.redactions == b.redactions
         && a.targets == b.targets && a.roles == b.roles && a.obligations == b.obligations && a.approval == b.approval
  {
    hide EventTree, Number, Strings, ApprovalTree;
    SameField(a, b, SeqField);
    SameField(a, b, DurationField);
    SameField(a, b, RedactionsField);
    SameField(a, b, TargetsField);
    SameField(a, b, RolesField);
    SameField(a, b, ObligationsField);
    SameField(a, b, ApprovalField);
    NumberDecides(a.sn, b.sn);
    NumberDecides(a.duration, b.duration);
    NumberDecides(a.redactions, b.redactions);
    StringsDecide(a.targets, b.targets);
    StringsDecide(a.roles, b.roles);
    StringsDecide(a.obligations, b.obligations);
    if a.approval.Some? { ApprovalDecides(a.approval.value, b.approval.value); }
  }

  // ---- HashEvent ----

  const GENESIS := "0000000000000000000000000000000000000000000000000000000000000000"

  // The record a hash covers: its own hash cleared, prev_hash set, a missing type read as "call".
  function Hashed(e: Event, prev: string): Event {
    e.(prev := prev, hash := "", kind := if e.kind == "" then "call" else e.kind)
  }

  ghost function HashInput(e: Event, prev: string): string { Print(EventTree(Hashed(e, prev))) + prev }

  method HashEvent(e: Event, prev: string, H: string -> string) returns (h: string)
    ensures h == H(HashInput(e, prev))
  {
    var buf := new Buffer();
    buf.WriteCanonical(EventTree(Hashed(e, prev)));
    assert buf.text == Print(EventTree(Hashed(e, prev)));
    h := H(buf.text + prev);
  }

  // The hashed bytes determine the record and the previous hash.
  lemma HashInputDecides(a: Event, p: string, b: Event, q: string)
    requires HashInput(a, p) == HashInput(b, q)
    ensures p == q && Hashed(a, p) == Hashed(b, q)
  {
    hide EventTree, Print, Valid;
    TreeValid(Hashed(a, p));
    TreeValid(Hashed(b, q));
    TreeIsObject(Hashed(a, p));
    TreeIsObject(Hashed(b, q));
    PrintIsInjective(EventTree(Hashed(a, p)), EventTree(Hashed(b, q)), p, q);
    TreeDecides(Hashed(a, p), Hashed(b, q));
  }

  lemma TreeIsObject(e: Event)
    ensures EventTree(e).Obj?
  {
  }
}
