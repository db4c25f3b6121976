// For which policies the device count and the device cap are exact: the two thresholds on
// max_devices, each with the run that shows it cannot be raised.

module CapExactness {
  import opened Prelude
  import opened Canonical
  import opened Targets
  import opened DeviceCap

  predicate HasCap(g: Gate, cap: int) { g.policy.Some? && g.policy.value.maxDevices == cap }

  // After the run the key's count is the number of distinct devices forwarded on it.
  ghost predicate CountExact(g: Gate, calls: seq<Call>, key: string) {
    var a := Get(Run(g, calls), key);
    a.counter.Count() == |a.sent|
  }

  // After the run the cap refuses the call, whose targets are `names`, exactly when the distinct
  // devices of its key would exceed it.
  ghost predicate RefusalExact(g: Gate, calls: seq<Call>, c: Call, names: seq<string>)
    requires g.policy.Some?
  {
    var a := Get(Run(g, calls), CounterKey(c));
    var r := RequestOf(g, c.info, names, a.counter.Count(), a.counter.touched);
    OverDevices(g.policy.value, r) <==> |a.sent + Members(names)| > g.policy.value.maxDevices
  }

  // ---- up to the thresholds ----

  // A device is counted past the limit only once 4096 are remembered, so a count within 4097 has
  // counted at most one that way, and only for the first time.
  lemma CountExactWithin(g: Gate, cap: int, calls: seq<Call>, key: string)
    requires HasCap(g, cap) && 0 < cap <= MAX_REMEMBERED + 1
    ensures CountExact(g, calls, key)
  {
    CapOverRuns(g, calls, key);
  }

  lemma RefusalExactWithin(g: Gate, cap: int, calls: seq<Call>, c: Call, names: seq<string>)
    requires HasCap(g, cap) && 0 < cap <= MAX_REMEMBERED && Named(g, c.info) == Some(names)
    ensures RefusalExact(g, calls, c, names)
  {
    CapOverRuns(g, calls, CounterKey(c));
    CapRefusesExactly(g, calls, c, names);
  }

  // ---- a run beyond them ----

  // The i-th device: "d0", "d1" and so on.
  function Device(i: nat): string { "d" + Decimal(i) }

  // A policy that allows every call, within the cap.
  function OpenGate(cap: int): Gate {
    Gate(Some(Policy(Some(Allow), cap, 0, [Rule("open", [], [], [], [], [], None, Allow, [])])),
         (pattern: string, s: string) => false, (name: string) => name != "", (name: string) => None)
  }

  // A stdio call of a tool with one target parameter.
  function CallOn(name: string): Call {
    Call(false, "", CallInfo("server", "tool", "READ_OPERATIONAL", Some(Spec(["host"], [], [], false)),
                             map["host" := Str(name)], false, 0), false)
  }

  // One call on each of the first 4097 devices, then calls on the last of them.
  function Calls(n: nat): (calls: seq<Call>)
    ensures |calls| == n
  {
    if n == 0 then [] else Calls(n - 1) + [CallOn(Device(Smaller(n - 1, MAX_REMEMBERED)))]
  }

  function Smaller(a: nat, b: nat): nat { if a < b then a else b }

  ghost function First(n: nat): set<string> { set i: nat | i < n :: Device(i) }

  lemma DevicesDiffer(i: nat, j: nat)
    requires Device(i) == Device(j)
    ensures i == j
  {
    assert Device(i)[1..] == Decimal(i) && Device(j)[1..] == Decimal(j);
    DecimalRoundTrip(i);
    DecimalRoundTrip(j);
  }

  lemma {:induction false} FirstCounts(n: nat)
    ensures |First(n)| == n
    ensures First(n + 1) == First(n) + {Device(n)} && Device(n) !in First(n)
  {
    FirstGrows(n);
    if n == 0 {
      assert First(0) == {};
    } else {
      FirstCounts(n - 1);
    }
  }

  lemma FirstGrows(n: nat)
    ensures First(n + 1) == First(n) + {Device(n)} && Device(n) !in First(n)
  {
    forall i: nat | i < n ensures Device(i) != Device(n) {
      if Device(i) == Device(n) { DevicesDiffer(i, n); }
    }
    forall x | x in First(n + 1) ensures x in First(n) + {Device(n)} {
      var i: nat :| i < n + 1 && x == Device(i);
    }
  }

  lemma DeviceIsPlain(i: nat)
    ensures ',' !in Device(i)
  {
  }

  lemma CallNames(cap: int, i: nat)
    ensures Named(OpenGate(cap), CallOn(Device(i)).info) == Some([Device(i)])
  {
    var name, args := Device(i), CallOn(Device(i)).info.args;
    DeviceIsPlain(i);
    OneSent(name, args);
    assert AllValid(Some([name]), OpenGate(cap).valid);
  }

  // A call with one target parameter sends the name it holds.
  lemma OneSent(name: string, args: Args)
    requires args == map["host" := Str(name)] && ',' !in name
    ensures var s := Spec(["host"], [], [], false);
      && Sent(s, args) == Some([name]) && !OverCap(s, args) && !Groups(s, args)
    ensures AddNames([], [name]) == [name]
  {
    assert ["host"][..0] == [] && [name][..0] == [];
    OneCounted(name, args);
    assert [] + [name] == [name] && [name] + [] == [name];
    assert SendsAll(false, ["host"], args) == Some([name]) by { hide CountParams, AddNames; }
    assert AddNames([], [name]) == AddName(AddNames([], []), name) by { hide CountParams, SendsAll; }
  }

  lemma OneCounted(name: string, args: Args)
    requires args == map["host" := Str(name)] && ',' !in name
    ensures !OverCap(Spec(["host"], [], [], false), args)
  {
    PlainName(name);
    assert ["host"][..0] == [];
  }

  // A call on one device is forwarded, and counted, unless that would exceed the cap.
  lemma OneDevice(cap: int, i: nat, counter: Counter)
    requires cap > 0 && counter.Count() + |{Device(i)} - counter.touched| <= cap
    ensures var out := Outcome(OpenGate(cap), CallOn(Device(i)).info, false, counter);
      out.0.forward && out.0.targets == [Device(i)] && out.1 == Touch(counter, Device(i))
  {
    var g, c, names := OpenGate(cap), CallOn(Device(i)).info, [Device(i)];
    CallNames(cap, i);
    TotalCountsOnce(counter, names);
    OneMember(Device(i));
    var r := RequestOf(g, c, names, counter.Count(), counter.touched);
    assert FirstMatch(g.policy.value.rules, 0, r, g.glob);
    FirstIsChosen(g.policy.value.rules, 0, r, g.glob);
    TouchOne(counter, Device(i));
  }

  lemma TouchOne(counter: Counter, name: string)
    ensures TouchAll(counter, [name]) == Touch(counter, name)
  {
    assert [name][..0] == [];
  }

  lemma OneMember(name: string)
    ensures Members([name]) == {name}
  {
    assert [name][0] == name;
  }

  // What the run leaves behind: 4096 devices remembered, the rest of the calls counted beside them.
  ghost function Left(n: nat): Account {
    var k := Smaller(n, MAX_REMEMBERED);
    Account(Counter(First(k), n - k), First(Smaller(n, MAX_REMEMBERED + 1)))
  }

  lemma {:induction false} RunLeaves(cap: int, n: nat)
    requires 0 < cap && n <= cap
    ensures Get(Run(OpenGate(cap), Calls(n)), "process") == Left(n)
  {
    hide Run, Apply, Left, Device, CallOn, OpenGate, Calls;
    if n == 0 {
      NothingLeft(cap);
    } else {
      RunLeaves(cap, n - 1);
      LastCall(cap, n);
      ApplyLeaves(cap, n - 1, Run(OpenGate(cap), Calls(n - 1)));
    }
  }

  lemma NothingLeft(cap: int)
    ensures Get(Run(OpenGate(cap), Calls(0)), "process") == Left(0)
  {
    assert First(0) == {};
  }

  lemma ApplyLeaves(cap: int, n: nat, w: Accounts)
    requires 0 <= n < cap && Get(w, "process") == Left(n)
    ensures Get(Apply(OpenGate(cap), w, CallOn(Device(Smaller(n, MAX_REMEMBERED)))), "process") == Left(n + 1)
  {
    hide Outcome, Touch, Left, Device, Members;
    var i := Smaller(n, MAX_REMEMBERED);
    LeftCounts(n);
    OneDevice(cap, i, Left(n).counter);
    OneMember(Device(i));
    StepLeaves(n);
  }

  lemma LeftCounts(n: nat)
    ensures Left(n).counter.Count() == n
    ensures |{Device(Smaller(n, MAX_REMEMBERED))} - Left(n).counter.touched| <= 1
  {
    FirstCounts(Smaller(n, MAX_REMEMBERED));
    SmallerSet({Device(Smaller(n, MAX_REMEMBERED))} - Left(n).counter.touched, {Device(Smaller(n, MAX_REMEMBERED))});
  }

  lemma LastCall(cap: int, n: nat)
    requires n > 0
    ensures var c := CallOn(Device(Smaller(n - 1, MAX_REMEMBERED)));
      && Run(OpenGate(cap), Calls(n)) == Apply(OpenGate(cap), Run(OpenGate(cap), Calls(n - 1)), c)
      && CounterKey(c) == "process"
  {
    var c := CallOn(Device(Smaller(n - 1, MAX_REMEMBERED)));
    assert Calls(n) == Calls(n - 1) + [c] && Calls(n)[..n - 1] == Calls(n - 1);
  }

  lemma StepLeaves(n: nat)
    ensures var i := Smaller(n, MAX_REMEMBERED);
      Account(Touch(Left(n).counter, Device(i)), Left(n).sent + {Device(i)}) == Left(n + 1)
  {
    var i := Smaller(n, MAX_REMEMBERED);
    FirstCounts(i);
    if n > MAX_REMEMBERED { assert Device(i) in First(i + 1); }
  }

  // ---- the thresholds ----

  // The count is exact in every run of every policy with this cap, exactly when the cap is at most 4097.
  lemma CountIsExact(cap: int)
    requires cap > 0
    ensures cap <= 4097 <==>
      forall g: Gate, calls: seq<Call>, key: string :: HasCap(g, cap) ==> CountExact(g, calls, key)
  {
    if cap <= MAX_REMEMBERED + 1 {
      forall g: Gate, calls: seq<Call>, key: string | HasCap(g, cap) ensures CountExact(g, calls, key) {
        CountExactWithin(g, cap, calls, key);
      }
    } else {
      CountGoesAhead(cap);
    }
  }

  // With a cap of 4098, the second call on the 4097th device is counted as another device.
  lemma CountGoesAhead(cap: int)
    requires cap > MAX_REMEMBERED + 1
    ensures HasCap(OpenGate(cap), cap) && !CountExact(OpenGate(cap), Calls(MAX_REMEMBERED + 2), "process")
  {
    RunLeaves(cap, MAX_REMEMBERED + 2);
    FirstCounts(MAX_REMEMBERED);
    FirstCounts(MAX_REMEMBERED + 1);
  }

  // The cap refuses exactly the calls that would bring the distinct devices over it, in every run of
  // every policy with this cap, exactly when the cap is at most 4096.
  lemma RefusalIsExact(cap: int)
    requires cap > 0
    ensures cap <= 4096 <==>
      forall g: Gate, calls: seq<Call>, c: Call, names: seq<string> ::
        HasCap(g, cap) && Named(g, c.info) == Some(names) ==> RefusalExact(g, calls, c, names)
  {
    if cap <= MAX_REMEMBERED {
      forall g: Gate, calls: seq<Call>, c: Call, names: seq<string>
        | HasCap(g, cap) && Named(g, c.info) == Some(names)
        ensures RefusalExact(g, calls, c, names)
      {
        RefusalExactWithin(g, cap, calls, c, names);
      }
    } else {
      RepeatIsRefused(cap);
    }
  }

  // Once calls on 4097 devices, the last of them called over and over, have filled a cap beyond
  // 4096, one more call on that device is refused, although it was forwarded before and the
  // distinct devices are within the cap.
  lemma RepeatIsRefused(cap: int)
    requires cap > MAX_REMEMBERED
    ensures var g, c, names := OpenGate(cap), CallOn(Device(MAX_REMEMBERED)), [Device(MAX_REMEMBERED)];
      && HasCap(g, cap) && Named(g, c.info) == Some(names) && !RefusalExact(g, Calls(cap), c, names)
      && Device(MAX_REMEMBERED) in Get(Run(g, Calls(cap)), "process").sent
      && !Outcome(g, c.info, false, Get(Run(g, Calls(cap)), "process").counter).0.forward
  {
    hide Run, Named, Outcome, First, Members;
    var g, c, names := OpenGate(cap), CallOn(Device(MAX_REMEMBERED)), [Device(MAX_REMEMBERED)];
    var a := Get(Run(g, Calls(cap)), "process");
    RunLeaves(cap, cap);
    CallNames(cap, MAX_REMEMBERED);
    FirstCounts(MAX_REMEMBERED);
    FirstCounts(MAX_REMEMBERED + 1);
    OneMember(Device(MAX_REMEMBERED));
    CapRefusesExactly(g, Calls(cap), c, names);
    assert {Device(MAX_REMEMBERED)} - a.counter.touched == {Device(MAX_REMEMBERED)};
    assert a.sent + Members(names) == a.sent;
    OverIsRefused(g, c.info, names, a.counter);
  }

  lemma OverIsRefused(g: Gate, c: CallInfo, names: seq<string>, counter: Counter)
    requires Named(g, c) == Some(names) && g.policy.Some?
    requires OverDevices(g.policy.value, RequestOf(g, c, names, counter.Count(), counter.touched))
    ensures !Outcome(g, c, false, counter).0.forward
  {
    hide Named, RequestOf, ByRules, UnknownRefused;
  }
}
