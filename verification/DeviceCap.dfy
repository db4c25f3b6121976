// The device cap of a session: the policy (internal/policy/evaluate.go), the gate's
// decision on one call (internal/gate/gate.go) and the counters that the proxy keeps
// between calls (internal/proxy/gate.go).

module DeviceCap {
  import opened Prelude
  import opened Canonical
  import opened Targets

  // ---- policy ----

  datatype Effect = Allow | Hold | Deny | OtherEffect
  datatype Target = Target(name: string, role: string, tags: seq<string>, known: bool)
  datatype Bounds = Bounds(gt: Option<int>, gte: Option<int>, lt: Option<int>, lte: Option<int>, eq: Option<int>)
  datatype Rule = Rule(id: string, classes: seq<string>, servers: seq<string>, tools: seq<string>,
                       roles: seq<string>, tags: seq<string>, count: Option<Bounds>,
                       effect: Effect, obligations: seq<string>)
  datatype Policy = Policy(unknownTarget: Option<Effect>, maxDevices: int, maxPending: int, rules: seq<Rule>)
  datatype Request = Request(server: string, tool: string, callClass: string, targets: seq<Target>,
                             touched: int, pending: int)
  datatype Decision = Decision(effect: Effect, rule: string, obligations: seq<string>)

  // path.Match.
  type Glob = (string, string) -> bool

  predicate GlobAny(patterns: seq<string>, s: string, glob: Glob) {
    exists i :: 0 <= i < |patterns| && (glob(patterns[i], s) || patterns[i] == s)
  }

  function TrimPrefix(s: string, prefix: string): string { if prefix <= s then s[|prefix|..] else s }

  predicate ToolIn(patterns: seq<string>, r: Request, glob: Glob) {
    var bare := if r.server == "" then r.tool else TrimPrefix(r.tool, r.server + ".");
    GlobAny(patterns, bare, glob) || GlobAny(patterns, r.server + "." + bare, glob)
  }

  predicate Within(b: Bounds, n: int) {
    && (b.gt.Some? ==> n > b.gt.value) && (b.gte.Some? ==> n >= b.gte.value)
    && (b.lt.Some? ==> n < b.lt.value) && (b.lte.Some? ==> n <= b.lte.value) && (b.eq.Some? ==> n == b.eq.value)
  }

  predicate AnyIn(have: seq<string>, want: seq<string>) { exists t :: t in have && t in want }

  predicate Matches(rule: Rule, r: Request, glob: Glob) {
    && (rule.classes == [] || r.callClass in rule.classes)
    && (rule.servers == [] || GlobAny(rule.servers, r.server, glob))
    && (rule.tools == [] || ToolIn(rule.tools, r, glob))
    && (rule.roles == [] || (r.targets != [] && forall i :: 0 <= i < |r.targets| ==> r.targets[i].role in rule.roles))
    && (rule.tags == [] || r.targets != [])
    && (rule.tags == [] || forall i :: 0 <= i < |r.targets| ==> AnyIn(r.targets[i].tags, rule.tags))
    && (rule.count.Some? ==> Within(rule.count.value, |r.targets|))
  }

  const NO_MATCH := "default:no-match"
  const UNKNOWN_TARGET := "default:unknown_target"
  const MAX_DEVICES := "default:session.max_devices"
  const MAX_PENDING := "default:session.max_pending"
  const BAD_ARGUMENTS := "default:bad_arguments"

  predicate FirstMatch(rules: seq<Rule>, i: int, r: Request, glob: Glob) {
    0 <= i < |rules| && Matches(rules[i], r, glob) && forall j :: 0 <= j < i ==> !Matches(rules[j], r, glob)
  }

  predicate UnknownRefused(p: Policy, r: Request) {
    p.unknownTarget != Some(Allow) && exists i :: 0 <= i < |r.targets| && !r.targets[i].known
  }

  predicate OverDevices(p: Policy, r: Request) { p.maxDevices > 0 && r.touched + |r.targets| > p.maxDevices }

  predicate OverPending(p: Policy, r: Request) { p.maxPending > 0 && r.pending >= p.maxPending }

  method Evaluate(policy: Option<Policy>, r: Request, glob: Glob) returns (d: Decision)
    ensures policy.None? ==> d == Decision(Deny, NO_MATCH, [])
    ensures policy.Some? && UnknownRefused(policy.value, r) ==> d == Decision(Deny, UNKNOWN_TARGET, [])
    ensures policy.Some? && !UnknownRefused(policy.value, r) && OverDevices(policy.value, r) ==>
      d == Decision(Deny, MAX_DEVICES, [])
    ensures policy.Some? && !UnknownRefused(policy.value, r) && !OverDevices(policy.value, r) ==>
      d == ByRules(policy.value, r, glob)
  {
    if policy.None? { return Decision(Deny, NO_MATCH, []); }
    var p := policy.value;
    var unknown := false;
    for i := 0 to |r.targets|
      invariant unknown <==> exists k :: 0 <= k < i && !r.targets[k].known
    {
      unknown := unknown || !r.targets[i].known;
    }
    if unknown && p.unknownTarget != Some(Allow) { return Decision(Deny, UNKNOWN_TARGET, []); }
    if p.maxDevices > 0 && r.touched + |r.targets| > p.maxDevices { return Decision(Deny, MAX_DEVICES, []); }
    var i := 0;
    while i < |p.rules|
      invariant i <= |p.rules| && forall j :: 0 <= j < i ==> !Matches(p.rules[j], r, glob)
    {
      var rule := p.rules[i];
      if Matches(rule, r, glob) {
        d := Decision(rule.effect, rule.id, rule.obligations);
        if d.effect == Hold && p.maxPending > 0 && r.pending >= p.maxPending {
          d := d.(effect := Deny, rule := MAX_PENDING);
        }
        FirstIsChosen(p.rules, i, r, glob);
        return;
      }
      i := i + 1;
    }
    assert Chosen(p.rules, r, glob) < |p.rules| ==> FirstMatch(p.rules, Chosen(p.rules, r, glob), r, glob);
    d := Decision(Deny, NO_MATCH, []);
  }

  // The first rule that matches decides; a hold beyond the pending cap, and no rule at all, deny.
  function ByRules(p: Policy, r: Request, glob: Glob): Decision {
    var i := Chosen(p.rules, r, glob);
    if i == |p.rules| then Decision(Deny, NO_MATCH, [])
    else if p.rules[i].effect == Hold && OverPending(p, r) then Decision(Deny, MAX_PENDING, p.rules[i].obligations)
    else Decision(p.rules[i].effect, p.rules[i].id, p.rules[i].obligations)
  }

  function Chosen(rules: seq<Rule>, r: Request, glob: Glob): (i: nat)
    ensures i <= |rules| && (i < |rules| ==> FirstMatch(rules, i, r, glob))
    ensures i == |rules| ==> forall j :: 0 <= j < |rules| ==> !Matches(rules[j], r, glob)
  {
    if rules == [] then 0
    else
      var front := Chosen(rules[..|rules| - 1], r, glob);
      assert forall j :: 0 <= j < |rules| - 1 ==> rules[..|rules| - 1][j] == rules[j];
      if front < |rules| - 1 || Matches(rules[|rules| - 1], r, glob) then front else |rules|
  }

  lemma FirstIsChosen(rules: seq<Rule>, i: nat, r: Request, glob: Glob)
    requires FirstMatch(rules, i, r, glob)
    ensures Chosen(rules, r, glob) == i
  {
    var c := Chosen(rules, r, glob);
    assert c < |rules| ==> FirstMatch(rules, c, r, glob);
  }

  // ---- the gate ----

  // A call as the gate classified it. `refusedEarly`: its arguments do not parse, hold too many
  // commands, or hold an argument the profile does not name. `spec` is None for a tool that no
  // profile lists.
  datatype CallInfo = CallInfo(server: string, tool: string, callClass: string, spec: Option<Spec>, args: Args,
                               refusedEarly: bool, pending: int)
  datatype Gate = Gate(policy: Option<Policy>, glob: Glob, valid: string -> bool, inventory: string -> Option<Target>)
  datatype Verdict = Verdict(forward: bool, targets: seq<string>, decision: Decision)

  predicate Forwardable(obligation: string) { obligation in ["redact", "notify", "require_ticket", "canary_first"] }

  function Resolve(g: Gate, name: string): Target {
    var t := g.inventory(name);
    if t.None? then Target(name, "", [], false) else Target(name, t.value.role, t.value.tags, true)
  }

  predicate DeclaresTargets(s: Spec) { s.targetParams != [] || s.targetsParams != [] || s.groupParams != [] }

  predicate Groups(s: Spec, args: Args) {
    exists i :: 0 <= i < |s.groupParams| && Selects(Arg(args, s.groupParams[i]))
  }

  // The targets of a call that reaches the policy, or None when the gate refuses it before that.
  function Named(g: Gate, c: CallInfo): Option<seq<string>> {
    if c.refusedEarly then None
    else if c.spec.None? then Some([])
    else
      var s := c.spec.value;
      if OverCap(s, c.args) || !AllValid(Sent(s, c.args), g.valid) then None
      else
        var names := AddNames([], Sent(s, c.args).value);
        if !s.exempt && (Groups(s, c.args) || (DeclaresTargets(s) && names == [])) then None else Some(names)
  }

  function Hits(names: seq<string>, counted: set<string>): nat {
    if names == [] then 0 else Hits(names[..|names| - 1], counted) + if names[|names| - 1] in counted then 1 else 0
  }

  function CountBefore(count: int, counted: set<string>, names: seq<string>): int {
    if count - Hits(names, counted) < 0 then 0 else count - Hits(names, counted)
  }

  method DevicesTouched(count: int, counted: set<string>, names: seq<string>) returns (n: int)
    ensures n == CountBefore(count, counted, names)
  {
    n := count;
    for i := 0 to |names|
      invariant n == count - Hits(names[..i], counted)
    {
      assert names[..i + 1][..i] == names[..i];
      if names[i] in counted { n := n - 1; }
    }
    assert names[..|names|] == names;
    if n < 0 { n := 0; }
  }

  function RequestOf(g: Gate, c: CallInfo, names: seq<string>, count: int, counted: set<string>): Request {
    Request(c.server, c.tool, c.callClass, seq(|names|, i requires 0 <= i < |names| => Resolve(g, names[i])),
            CountBefore(count, counted, names), c.pending)
  }

  // What the gate says of a call when the key's count is `count` and its remembered names are `counted`.
  function Judged(g: Gate, c: CallInfo, count: int, counted: set<string>): Verdict {
    var names := Named(g, c);
    if names.None? then Verdict(false, [], Decision(Deny, BAD_ARGUMENTS, []))
    else
      var d := Evaluated(g, RequestOf(g, c, names.value, count, counted));
      var carried := forall i :: 0 <= i < |d.obligations| ==> Forwardable(d.obligations[i]);
      Verdict(d.effect == Allow && carried, names.value, if d.effect == OtherEffect then d.(effect := Deny) else d)
  }

  function Evaluated(g: Gate, r: Request): Decision {
    if g.policy.None? then Decision(Deny, NO_MATCH, [])
    else if UnknownRefused(g.policy.value, r) then Decision(Deny, UNKNOWN_TARGET, [])
    else if OverDevices(g.policy.value, r) then Decision(Deny, MAX_DEVICES, [])
    else ByRules(g.policy.value, r, g.glob)
  }

  // The steps before the policy: parse, caps, closed argument list and targets.
  method NamesOf(g: Gate, c: CallInfo) returns (names: Option<seq<string>>)
    ensures names == Named(g, c)
  {
    if c.refusedEarly { return None; }
    if c.spec.None? { return Some([]); }
    var s := c.spec.value;
    if OverCap(s, c.args) { return None; }
    var sent, groups, bad := Extract(s, c.args, g.valid);
    if bad { return None; }
    if !s.exempt && groups { return None; }
    if !s.exempt && DeclaresTargets(s) && sent == [] { return None; }
    names := Some(sent);
  }

  method Decide(g: Gate, c: CallInfo, count: int, counted: set<string>) returns (v: Verdict)
    ensures v == Judged(g, c, count, counted)
  {
    hide Named, Hits, ByRules, UnknownRefused;
    var named := NamesOf(g, c);
    if named.None? { return Verdict(false, [], Decision(Deny, BAD_ARGUMENTS, [])); }
    var names := named.value;
    var touched := DevicesTouched(count, counted, names);
    var targets := [];
    for i := 0 to |names|
      invariant targets == seq(i, k requires 0 <= k < i => Resolve(g, names[k]))
    {
      targets := targets + [Resolve(g, names[i])];
    }
    var r := Request(c.server, c.tool, c.callClass, targets, touched, c.pending);
    var d := Evaluate(g.policy, r, g.glob);
    var forward := d.effect == Allow;
    for i := 0 to |d.obligations|
      invariant forward <==> d.effect == Allow && forall k :: 0 <= k < i ==> Forwardable(d.obligations[k])
    {
      if !Forwardable(d.obligations[i]) { forward := false; }
    }
    assert r == RequestOf(g, c, names, count, counted);
    v := Verdict(forward, names, if d.effect == OtherEffect then d.(effect := Deny) else d);
  }

  // What forwarding means, whatever order the checks run in: the targets are known or admitted
  // unknown, within the cap, and the first rule that matches allows with obligations that can be carried.
  lemma ForwardedMeans(g: Gate, c: CallInfo, count: int, counted: set<string>)
    ensures var v, names := Judged(g, c, count, counted), Named(g, c);
      v.forward <==>
        names.Some? && g.policy.Some? &&
        (var p, r := g.policy.value, RequestOf(g, c, names.value, count, counted);
         && !UnknownRefused(p, r) && !OverDevices(p, r)
         && exists i :: FirstMatch(p.rules, i, r, g.glob) && p.rules[i].effect == Allow
              && forall k :: 0 <= k < |p.rules[i].obligations| ==>
                   p.rules[i].obligations[k] in ["redact", "notify", "require_ticket", "canary_first"])
  {
    var names := Named(g, c);
    if names.Some? && g.policy.Some? {
      var p, r := g.policy.value, RequestOf(g, c, names.value, count, counted);
      var i := Chosen(p.rules, r, g.glob);
      forall j | FirstMatch(p.rules, j, r, g.glob) ensures i == j { FirstIsChosen(p.rules, j, r, g.glob); }
    }
  }

  // What a forwarded call of a listed tool may be: its targets are the names that its arguments
  // send, all of them, each once, valid, and known unless the policy admits unknown ones. Unless the
  // tool is exempt it selects no group of devices, and if it can name devices it names one.
  lemma ForwardedTargets(g: Gate, c: CallInfo, count: int, counted: set<string>)
    requires Judged(g, c, count, counted).forward && c.spec.Some? && g.policy.Some?
    ensures var s, names := c.spec.value, Judged(g, c, count, counted).targets;
      && !c.refusedEarly && Distinct(names)
      && (forall x :: x in names <==> SentBy(s, c.args, x))
      && (forall x :: x in names ==> g.valid(x))
      && (g.policy.value.unknownTarget != Some(Allow) ==> forall x :: x in names ==> g.inventory(x).Some?)
    ensures var s, names := c.spec.value, Judged(g, c, count, counted).targets;
      !s.exempt ==>
        && (s.targetParams != [] || s.targetsParams != [] || s.groupParams != [] ==> names != [])
        && forall i :: 0 <= i < |s.groupParams| ==> NoGroup(Arg(c.args, s.groupParams[i]))
  {
    hide ByRules, SentBy, Matches;
    var s, names := c.spec.value, Judged(g, c, count, counted).targets;
    var sent := Sent(s, c.args);
    NamedIsDistinct(g, c);
    AddNamesKeeps([], sent.value);
    forall x ensures x in names <==> SentBy(s, c.args, x) { NamesAreSent(s, c.args, x); }
    var r := RequestOf(g, c, names, count, counted);
    forall x | x in names && g.policy.value.unknownTarget != Some(Allow) ensures g.inventory(x).Some? {
      var k :| 0 <= k < |names| && names[k] == x;
      assert r.targets[k] == Resolve(g, x);
    }
  }

  // A call of a listed tool gets to the policy exactly when it is well-formed, within the cap, sends
  // nothing but valid names, and, unless the tool is exempt, selects no group of devices and names a
  // device if the tool can be given one.
  lemma NamedExactly(g: Gate, c: CallInfo)
    requires c.spec.Some?
    ensures var s := c.spec.value;
      Named(g, c).Some? <==>
        && !c.refusedEarly && !OverCap(s, c.args) && Sent(s, c.args).Some?
        && (forall x :: SentBy(s, c.args, x) ==> g.valid(x))
        && (s.exempt || forall i :: 0 <= i < |s.groupParams| ==> NoGroup(Arg(c.args, s.groupParams[i])))
        && (s.exempt || (s.targetParams == [] && s.targetsParams == [] && s.groupParams == [])
            || exists x :: SentBy(s, c.args, x))
  {
    hide SentBy, SendsAll, OverCap;
    var s := c.spec.value;
    var sent := Sent(s, c.args);
    if sent.Some? {
      var names := AddNames([], sent.value);
      AddNamesKeeps([], sent.value);
      forall x ensures x in sent.value <==> SentBy(s, c.args, x) { NamesAreSent(s, c.args, x); }
      assert names != [] ==> SentBy(s, c.args, names[0]);
      assert forall i :: 0 <= i < |sent.value| ==> SentBy(s, c.args, sent.value[i]);
    }
  }

  // What the verdict says: arguments refused before the policy are denied as such; a call is held
  // exactly when the first rule that matches holds it and the pending cap has room; and an effect
  // that is none of these denies.
  lemma VerdictSays(g: Gate, c: CallInfo, count: int, counted: set<string>)
    ensures var v, names := Judged(g, c, count, counted), Named(g, c);
      && (names.None? ==> v == Verdict(false, [], Decision(Deny, "default:bad_arguments", [])))
      && (names.Some? ==> v.targets == names.value)
      && (names.Some? && g.policy.None? ==> v.decision == Decision(Deny, "default:no-match", []))
      && v.decision.effect != OtherEffect && (v.forward ==> v.decision.effect == Allow)
      && (v.decision.effect == Hold <==>
            names.Some? && g.policy.Some? &&
            (var p, r := g.policy.value, RequestOf(g, c, names.value, count, counted);
             && !UnknownRefused(p, r) && !OverDevices(p, r) && (p.maxPending > 0 ==> c.pending < p.maxPending)
             && exists i :: FirstMatch(p.rules, i, r, g.glob) && p.rules[i].effect == Hold))
  {
    var names := Named(g, c);
    if names.Some? && g.policy.Some? {
      var p, r := g.policy.value, RequestOf(g, c, names.value, count, counted);
      forall j | FirstMatch(p.rules, j, r, g.glob) ensures j == Chosen(p.rules, r, g.glob) {
        FirstIsChosen(p.rules, j, r, g.glob);
      }
    }
  }

  predicate NoGroup(v: Json) { v == Null || v == Str("") || v == Arr([]) }

  // The inventory's word on a device; one that it does not know has no role and no tags.
  function RoleOf(g: Gate, name: string): string {
    if g.inventory(name).Some? then g.inventory(name).value.role else ""
  }

  function TagsOf(g: Gate, name: string): seq<string> {
    if g.inventory(name).Some? then g.inventory(name).value.tags else []
  }

  // What a rule asks of a call: every device has one of its roles and one of its tags, if it names any.
  ghost predicate RuleFits(rule: Rule, g: Gate, c: CallInfo, names: seq<string>) {
    && (rule.classes != [] ==> c.callClass in rule.classes)
    && (rule.servers != [] ==> exists x :: x in rule.servers && (g.glob(x, c.server) || x == c.server))
    && (rule.tools != [] ==> exists x :: x in rule.tools && ToolFits(x, g, c))
    && (rule.roles != [] || rule.tags != [] ==> names != [])
    && (rule.roles != [] ==> forall x :: x in names ==> RoleOf(g, x) in rule.roles)
    && (rule.tags != [] ==> forall x :: x in names ==> exists t :: t in TagsOf(g, x) && t in rule.tags)
    && (rule.count.Some? ==> Within(rule.count.value, |names|))
  }

  // A pattern fits the tool's name as it is, without its server's prefix, or with it.
  predicate ToolFits(pattern: string, g: Gate, c: CallInfo) {
    var bare := if c.server != "" && c.server + "." <= c.tool then c.tool[|c.server| + 1..] else c.tool;
    var full := c.server + "." + bare;
    g.glob(pattern, bare) || pattern == bare || g.glob(pattern, full) || pattern == full
  }

  lemma MatchesMeans(rule: Rule, g: Gate, c: CallInfo, names: seq<string>, count: int, counted: set<string>)
    ensures Matches(rule, RequestOf(g, c, names, count, counted), g.glob) <==> RuleFits(rule, g, c, names)
  {
    var r := RequestOf(g, c, names, count, counted);
    GlobFits(rule.servers, r.server, g.glob);
    ToolsFit(rule.tools, g, c, r);
    hide GlobAny, ToolIn, ToolFits;
    assert |r.targets| == |names|;
    assert forall i :: 0 <= i < |names| ==>
      r.targets[i].role == RoleOf(g, names[i]) && r.targets[i].tags == TagsOf(g, names[i]);
    assert forall x :: x in names <==> exists i :: 0 <= i < |names| && names[i] == x;
  }

  lemma GlobFits(patterns: seq<string>, s: string, glob: Glob)
    ensures GlobAny(patterns, s, glob) <==> exists x :: x in patterns && (glob(x, s) || x == s)
  {
    if GlobAny(patterns, s, glob) {
      var i :| 0 <= i < |patterns| && (glob(patterns[i], s) || patterns[i] == s);
      assert patterns[i] in patterns;
    }
  }

  lemma ToolsFit(patterns: seq<string>, g: Gate, c: CallInfo, r: Request)
    requires r.server == c.server && r.tool == c.tool
    ensures ToolIn(patterns, r, g.glob) <==> exists x :: x in patterns && ToolFits(x, g, c)
  {
    var bare := if r.server == "" then r.tool else TrimPrefix(r.tool, r.server + ".");
    GlobFits(patterns, bare, g.glob);
    GlobFits(patterns, r.server + "." + bare, g.glob);
    assert forall x :: ToolFits(x, g, c) <==>
      g.glob(x, bare) || x == bare || g.glob(x, r.server + "." + bare) || x == r.server + "." + bare;
  }

  // So a call is forwarded by a rule that allows it, whose every condition it meets, and before
  // which no rule applies.
  lemma ForwardedByRule(g: Gate, c: CallInfo, count: int, counted: set<string>)
    requires Judged(g, c, count, counted).forward && g.policy.Some?
    ensures var rules, names := g.policy.value.rules, Judged(g, c, count, counted).targets;
      exists i :: 0 <= i < |rules| && rules[i].effect == Allow && RuleFits(rules[i], g, c, names)
        && forall j :: 0 <= j < i ==> !RuleFits(rules[j], g, c, names)
  {
    hide Matches, RuleFits, UnknownRefused, Named;
    var rules, names := g.policy.value.rules, Judged(g, c, count, counted).targets;
    var r := RequestOf(g, c, names, count, counted);
    ForwardedMeans(g, c, count, counted);
    var i :| FirstMatch(rules, i, r, g.glob) && rules[i].effect == Allow;
    forall j | 0 <= j <= i ensures Matches(rules[j], r, g.glob) <==> RuleFits(rules[j], g, c, names) {
      MatchesMeans(rules[j], g, c, names, count, counted);
    }
  }

  lemma NamedIsDistinct(g: Gate, c: CallInfo)
    requires Named(g, c).Some?
    ensures Distinct(Named(g, c).value)
  {
    if c.spec.Some? { AddNamesKeeps([], Sent(c.spec.value, c.args).value); }
  }

  // ---- counters ----

  const MAX_REMEMBERED := 4096

  datatype Counter = Counter(touched: set<string>, extra: nat) {
    function Count(): nat { |touched| + extra }
  }

  function Touch(c: Counter, name: string): Counter {
    if name in c.touched then c
    else if |c.touched| < MAX_REMEMBERED then c.(touched := c.touched + {name})
    else c.(extra := c.extra + 1)
  }

  function TouchAll(c: Counter, names: seq<string>): Counter {
    if names == [] then c else Touch(TouchAll(c, names[..|names| - 1]), names[|names| - 1])
  }

  // One call: what the proxy does with the gate's verdict. `mishap`: the gate panicked, or the
  // arguments could not be encoded again.
  function Outcome(g: Gate, c: CallInfo, mishap: bool, counter: Counter): (Verdict, Counter) {
    var v := Judged(g, c, counter.Count(), counter.touched);
    if mishap then (Verdict(false, [], Decision(Deny, BAD_ARGUMENTS, [])), counter)
    else if v.forward then (v, TouchAll(counter, v.targets))
    else (v, counter)
  }

  method Dedupe(targets: seq<string>) returns (distinct: seq<string>)
    ensures distinct == AddNames([], targets)
  {
    var names := new Names();
    var _ := names.AddEach(targets, _ => true);
    distinct := names.names;
  }

  lemma TouchAllStep(c: Counter, names: seq<string>, i: nat)
    requires i <= |names|
    ensures TouchAll(c, names[..0]) == c
    ensures i < |names| ==> TouchAll(c, names[..i + 1]) == Touch(TouchAll(c, names[..i]), names[i])
  {
    if i < |names| { assert names[..i + 1][..i] == names[..i]; }
  }

  class SessionCounter {
    var touched: set<string>
    var extra: nat

    function Value(): Counter
      reads this
    {
      Counter(touched, extra)
    }

    constructor ()
      ensures Value() == Counter({}, 0)
    {
      touched, extra := {}, 0;
    }

    method TouchNames(targets: seq<string>)
      modifies this
      ensures Value() == TouchAll(old(Value()), AddNames([], targets))
    {
      hide TouchAll, AddNames;
      var distinct := Dedupe(targets);
      TouchAllStep(Value(), distinct, 0);
      for i := 0 to |distinct|
        invariant Value() == TouchAll(old(Value()), distinct[..i])
      {
        TouchAllStep(old(Value()), distinct, i);
        var t := distinct[i];
        if t !in touched {
          if |touched| < MAX_REMEMBERED { touched := touched + {t}; } else { extra := extra + 1; }
        }
      }
      assert distinct[..|distinct|] == distinct;
    }

    method DecideLocked(g: Gate, c: CallInfo, mishap: bool) returns (v: Verdict)
      modifies this
      ensures (v, Value()) == Outcome(g, c, mishap, old(Value()))
    {
      hide Named, Evaluated, AddNames, TouchAll;
      v := Decide(g, c, |touched| + extra, touched);
      if mishap { return Verdict(false, [], Decision(Deny, BAD_ARGUMENTS, [])); }
      if v.forward {
        NamedIsDistinct(g, c);
        DistinctStays(v.targets);
        TouchNames(v.targets);
      }
    }
  }

  lemma {:induction false} DistinctStays(names: seq<string>)
    requires Distinct(names)
    ensures AddNames([], names) == names
  {
    if names != [] {
      DistinctStays(names[..|names| - 1]);
      assert names == names[..|names| - 1] + [names[|names| - 1]];
    }
  }

  // ---- one call counts each device once ----

  ghost function Members(names: seq<string>): set<string> { set i | 0 <= i < |names| :: names[i] }

  lemma {:induction false} HitsAreMembers(names: seq<string>, counted: set<string>)
    requires Distinct(names)
    ensures |Members(names)| == |names| && Hits(names, counted) == |Members(names) * counted|
  {
    if names == [] {
      assert Members(names) == {};
      assert Members(names) * counted == {};
    } else {
      var front, last := names[..|names| - 1], names[|names| - 1];
      HitsAreMembers(front, counted);
      LastMember(names);
      if last in counted {
        assert Members(names) * counted == Members(front) * counted + {last};
      } else {
        assert Members(names) * counted == Members(front) * counted;
      }
    }
  }

  lemma LastMember(names: seq<string>)
    requires names != [] && Distinct(names)
    ensures var front, last := names[..|names| - 1], names[|names| - 1];
      Members(names) == Members(front) + {last} && last !in Members(front) && Distinct(front)
  {
    var n := |names| - 1;
    forall x | x in Members(names) ensures x in Members(names[..n]) + {names[n]} {
      var i :| 0 <= i < |names| && names[i] == x;
      if i < n { assert names[..n][i] == x; }
    }
    forall x | x in Members(names[..n]) ensures x in Members(names) {
      var i :| 0 <= i < n && names[..n][i] == x;
      assert names[i] == x;
    }
  }

  ghost predicate Counts(c: Counter, m: set<string>, d: Counter) {
    && d.Count() == c.Count() + |m - c.touched|
    && c.touched <= d.touched <= c.touched + m
    && |d.touched| <= MAX_REMEMBERED && c.extra <= d.extra
    && (d.extra > c.extra ==> |d.touched| == MAX_REMEMBERED)
    && (d.extra == c.extra ==> d.touched == c.touched + m)
  }

  lemma TouchCounts(c: Counter, m: set<string>, d: Counter, name: string)
    requires Counts(c, m, d) && name !in m
    ensures Counts(c, m + {name}, Touch(d, name))
  {
    if name in c.touched {
      assert m + {name} - c.touched == m - c.touched;
    } else {
      assert m + {name} - c.touched == (m - c.touched) + {name};
    }
  }

  // Touching distinct names raises the count by those not remembered, remembers no name but them,
  // and remembers them all unless it counts past the limit.
  lemma {:induction false} TouchAllCounts(c: Counter, names: seq<string>)
    requires Distinct(names) && |c.touched| <= MAX_REMEMBERED
    ensures Counts(c, Members(names), TouchAll(c, names))
  {
    if names == [] {
      assert Members(names) == {};
    } else {
      var front, last := names[..|names| - 1], names[|names| - 1];
      LastMember(names);
      TouchAllCounts(c, front);
      TouchCounts(c, Members(front), TouchAll(c, front), last);
    }
  }

  // The total the cap is checked against: the count so far and the call's own devices, each once.
  lemma TotalCountsOnce(counter: Counter, names: seq<string>)
    requires Distinct(names)
    ensures CountBefore(counter.Count(), counter.touched, names) + |names|
         == counter.Count() + |Members(names) - counter.touched|
  {
    var m := Members(names);
    HitsAreMembers(names, counter.touched);
    assert m == (m - counter.touched) + (m * counter.touched);
    assert (m - counter.touched) !! (m * counter.touched);
    SmallerSet(m * counter.touched, counter.touched);
  }

  // ---- runs ----

  // A call as it arrives: over HTTP for a principal, or on stdio.
  datatype Call = Call(http: bool, principal: string, info: CallInfo, mishap: bool)

  function CounterKey(c: Call): string { if c.http then "principal:" + c.principal else "process" }

  // A key names one principal, or the process.
  lemma KeyNamesOneCaller(a: Call, b: Call)
    ensures CounterKey(a) == CounterKey(b) <==> a.http == b.http && (a.http ==> a.principal == b.principal)
  {
    var p := "principal:";
    assert (p + a.principal)[|p|..] == a.principal && (p + b.principal)[|p|..] == b.principal;
    assert CounterKey(a)[2] == if a.http then 'i' else 'o';
    assert CounterKey(b)[2] == if b.http then 'i' else 'o';
  }

  // A key's counter, and beside it every name that was forwarded on the key.
  datatype Account = Account(counter: Counter, sent: set<string>)
  type Accounts = map<string, Account>

  // counters.get.
  function Get(w: Accounts, key: string): Account {
    if key in w then w[key] else Account(Counter({}, 0), {})
  }

  ghost function Apply(g: Gate, w: Accounts, c: Call): Accounts {
    var a := Get(w, CounterKey(c));
    var out := Outcome(g, c.info, c.mishap, a.counter);
    w[CounterKey(c) := Account(out.1, a.sent + if out.0.forward then Members(out.0.targets) else {})]
  }

  ghost function Run(g: Gate, calls: seq<Call>): Accounts {
    if calls == [] then map[] else Apply(g, Run(g, calls[..|calls| - 1]), calls[|calls| - 1])
  }

  ghost predicate AccountOk(a: Account, cap: int) {
    && a.counter.touched <= a.sent && |a.sent| <= a.counter.Count() <= cap
    && |a.counter.touched| <= MAX_REMEMBERED
    && (a.counter.extra > 0 ==> |a.counter.touched| == MAX_REMEMBERED)
    && (a.counter.extra == 0 <==> a.counter.touched == a.sent)
    && (a.counter.extra <= 1 ==> a.counter.Count() == |a.sent|)
  }

  predicate Capped(g: Gate) { g.policy.Some? && g.policy.value.maxDevices > 0 }

  lemma CallKeepsAccount(g: Gate, c: CallInfo, mishap: bool, a: Account)
    requires Capped(g) && AccountOk(a, g.policy.value.maxDevices)
    ensures var out := Outcome(g, c, mishap, a.counter);
      var sent := a.sent + if out.0.forward then Members(out.0.targets) else {};
      AccountOk(Account(out.1, sent), g.policy.value.maxDevices)
  {
    hide Members, Named, ByRules, UnknownRefused, TouchAll;
    var out := Outcome(g, c, mishap, a.counter);
    if out.0.forward {
      var names := out.0.targets;
      NamedIsDistinct(g, c);
      TotalCountsOnce(a.counter, names);
      TouchAllCounts(a.counter, names);
      AccountGrows(a, Members(names), out.1, g.policy.value.maxDevices);
    } else {
      assert a.sent + {} == a.sent;
    }
  }

  lemma AccountGrows(a: Account, m: set<string>, d: Counter, cap: int)
    requires AccountOk(a, cap) && Counts(a.counter, m, d) && d.Count() <= cap
    ensures AccountOk(Account(d, a.sent + m), cap)
  {
    UnionCounts(a, m, cap);
    if a.counter.extra > 0 {
      FullStays(a.counter.touched, d.touched);
      if d.extra == a.counter.extra { assert a.sent + m == a.sent; }
    }
  }

  lemma FullStays(a: set<string>, b: set<string>)
    requires a <= b && |b| <= |a|
    ensures a == b
  {
    assert |b - a| == |b| - |a|;
  }

  // In every run under a policy with a cap, each key's count stays within the cap and is at least
  // the number of distinct devices forwarded on it. The names remembered are all of those exactly
  // while no device was counted past the limit, and the two numbers agree as long as at most one was.
  lemma {:induction false} CapOverRuns(g: Gate, calls: seq<Call>, key: string)
    requires Capped(g)
    ensures AccountOk(Get(Run(g, calls), key), g.policy.value.maxDevices)
  {
    if calls != [] {
      var c := calls[|calls| - 1];
      CapOverRuns(g, calls[..|calls| - 1], key);
      if CounterKey(c) == key { CallKeepsAccount(g, c.info, c.mishap, Get(Run(g, calls[..|calls| - 1]), key)); }
    }
  }

  // After any run, the cap refuses a call exactly when its devices would bring the count over it.
  // That is the number of distinct devices, the call's included, and beside it what the count is
  // ahead by: the devices counted more than once, and those of the call that are not remembered.
  // While no device was counted past the limit that is nothing. A call that would bring the
  // distinct devices over the cap is never forwarded.
  lemma CapRefusesExactly(g: Gate, calls: seq<Call>, c: Call, names: seq<string>)
    requires Capped(g) && Named(g, c.info) == Some(names)
    ensures var a := Get(Run(g, calls), CounterKey(c));
      var cap, m := g.policy.value.maxDevices, Members(names);
      var over := OverDevices(g.policy.value, RequestOf(g, c.info, names, a.counter.Count(), a.counter.touched));
      && (over <==> a.counter.Count() + |m - a.counter.touched| > cap)
      && (over <==> |a.sent + m| + (a.counter.Count() - |a.sent|) + |m * (a.sent - a.counter.touched)| > cap)
      && (a.counter.extra == 0 ==> (over <==> |a.sent + m| > cap))
      && (|a.sent + m| > cap ==> !Outcome(g, c.info, c.mishap, a.counter).0.forward)
  {
    hide Members, Named, ByRules, UnknownRefused, TouchAll, AccountOk;
    var a := Get(Run(g, calls), CounterKey(c));
    CapOverRuns(g, calls, CounterKey(c));
    NamedIsDistinct(g, c.info);
    TotalCountsOnce(a.counter, names);
    UnionCounts(a, Members(names), g.policy.value.maxDevices);
  }

  // By how much the total checked exceeds the distinct devices.
  lemma UnionCounts(a: Account, m: set<string>, cap: int)
    requires AccountOk(a, cap)
    ensures |m * (a.sent - a.counter.touched)| >= 0 && a.counter.Count() >= |a.sent|
    ensures a.counter.Count() + |m - a.counter.touched|
         == |a.sent + m| + (a.counter.Count() - |a.sent|) + |m * (a.sent - a.counter.touched)|
    ensures a.counter.extra == 0 ==> a.counter.Count() == |a.sent| && m * (a.sent - a.counter.touched) == {}
  {
    var fresh_, again := m - a.sent, m * (a.sent - a.counter.touched);
    assert a.sent + m == a.sent + fresh_ && a.sent !! fresh_;
    assert m - a.counter.touched == fresh_ + again && fresh_ !! again;
  }
}
