// The target names of a call (internal/gate/args.go): which names its arguments
// send, and how many the per-call cap lets through.

module Targets {
  import opened Prelude
  import opened Canonical

  type Args = map<string, Json>

  // The parameters of a tool that name devices, and whether a call may name none.
  datatype Spec = Spec(targetParams: seq<string>, targetsParams: seq<string>, groupParams: seq<string>, exempt: bool)

  const MAX_TARGETS := 256

  function Arg(args: Args, p: string): Json { if p in args then args[p] else Null }

  // strings.Split(s, ",").
  function Split(s: string): (parts: seq<string>)
    ensures parts != []
  {
    if s == "" then [""]
    else
      var rest := Split(s[1..]);
      if s[0] == ',' then [""] + rest else [[s[0]] + rest[0]] + rest[1..]
  }

  function Join(parts: seq<string>): string
    requires parts != []
  {
    if |parts| == 1 then parts[0] else parts[0] + "," + Join(parts[1..])
  }

  // Splitting a joined list of names without commas gives the names back.
  lemma {:induction false} SplitJoin(parts: seq<string>)
    requires parts != [] && forall p :: p in parts ==> ',' !in p
    ensures Split(Join(parts)) == parts
  {
    if |parts| == 1 {
      SplitPart(parts[0], "");
      assert parts[0] + "" == parts[0];
    } else {
      SplitJoin(parts[1..]);
      SplitPart(parts[0], "," + Join(parts[1..]));
      assert ("," + Join(parts[1..]))[1..] == Join(parts[1..]);
      assert parts[0] + ("," + Join(parts[1..])) == Join(parts);
    }
  }

  lemma {:induction false} SplitPart(part: string, rest: string)
    requires ',' !in part && (rest == "" || rest[0] == ',')
    ensures Split(part + rest) == [part] + if rest == "" then [] else Split(rest[1..])
  {
    if part == "" {
      assert part + rest == rest;
    } else {
      assert (part + rest)[1..] == part[1..] + rest;
      SplitPart(part[1..], rest);
      assert [part[0]] + part[1..] == part;
    }
  }

  // The strings of a list, if all its elements are strings.
  function Texts(items: seq<Json>): Option<seq<string>> {
    if items == [] then Some([])
    else
      var front := Texts(items[..|items| - 1]);
      if front.None? || !items[|items| - 1].Str? then None else Some(front.value + [items[|items| - 1].s])
  }

  // The names one argument sends: None when it is not a name, or a list of names.
  function Sends(many: bool, v: Json): Option<seq<string>> {
    match v
    case Null => Some([])
    case Str(s) => if !many then Some([s]) else if s == "" then Some([]) else Some(Split(s))
    case Arr(items) => if many then Texts(items) else None
    case _ => None
  }

  function SendsAll(many: bool, params: seq<string>, args: Args): Option<seq<string>> {
    if params == [] then Some([])
    else
      var front := SendsAll(many, params[..|params| - 1], args);
      var last := Sends(many, Arg(args, params[|params| - 1]));
      if front.None? || last.None? then None else Some(front.value + last.value)
  }

  // Every name the call sends, in argument order, repeats included.
  function Sent(spec: Spec, args: Args): Option<seq<string>> {
    var one := SendsAll(false, spec.targetParams, args);
    var more := SendsAll(true, spec.targetsParams, args);
    if one.None? || more.None? then None else Some(one.value + more.value)
  }

  predicate AllValid(names: Option<seq<string>>, valid: string -> bool) {
    names.Some? && forall i :: 0 <= i < |names.value| ==> valid(names.value[i])
  }

  // ---- first occurrences ----

  function AddNames(names: seq<string>, more: seq<string>): seq<string>
    decreases |more|
  {
    if more == [] then names
    else AddName(AddNames(names, more[..|more| - 1]), more[|more| - 1])
  }

  function AddName(names: seq<string>, s: string): seq<string> { if s in names then names else names + [s] }

  // AddNames([], more) holds each name of `more` once, and no more names than that.
  lemma {:induction false} AddNamesKeeps(names: seq<string>, more: seq<string>)
    requires Distinct(names)
    ensures Distinct(AddNames(names, more))
    ensures forall x :: x in AddNames(names, more) <==> x in names || x in more
    ensures |AddNames(names, more)| <= |names| + |more|
  {
    if more != [] {
      AddNamesKeeps(names, more[..|more| - 1]);
      assert more == more[..|more| - 1] + [more[|more| - 1]];
    }
  }

  lemma {:induction false} AddNamesConcat(names: seq<string>, a: seq<string>, b: seq<string>)
    ensures AddNames(names, a + b) == AddNames(AddNames(names, a), b)
    decreases |b|
  {
    if b == [] {
      assert a + b == a;
    } else {
      assert (a + b)[..|a + b| - 1] == a + b[..|b| - 1];
      AddNamesConcat(names, a, b[..|b| - 1]);
    }
  }

  // ---- targets ----

  // The names gathered so far, and the set that says which were seen.
  class Names {
    var names: seq<string>
    var seen: set<string>

    ghost predicate Valid()
      reads this
    {
      forall x :: x in seen <==> x in names
    }

    constructor ()
      ensures Valid() && names == []
    {
      names, seen := [], {};
    }

    method Add(s: string, valid: string -> bool) returns (ok: bool)
      requires Valid()
      modifies this
      ensures Valid() && (ok <==> valid(s))
      ensures names == if ok then AddName(old(names), s) else old(names)
    {
      if !valid(s) { return false; }
      if s !in seen {
        seen := seen + {s};
        names := names + [s];
      }
      ok := true;
    }

    method AddEach(parts: seq<string>, valid: string -> bool) returns (ok: bool)
      requires Valid()
      modifies this
      ensures Valid() && (ok <==> AllValid(Some(parts), valid))
      ensures ok ==> names == AddNames(old(names), parts)
    {
      var i := 0;
      while i < |parts|
        invariant i <= |parts| && Valid()
        invariant forall k :: 0 <= k < i ==> valid(parts[k])
        invariant names == AddNames(old(names), parts[..i])
      {
        ok := Add(parts[i], valid);
        if !ok { return; }
        assert parts[..i + 1][..i] == parts[..i];
        i := i + 1;
      }
      assert parts[..i] == parts;
      ok := true;
    }

    method AddItems(items: seq<Json>, valid: string -> bool) returns (ok: bool)
      requires Valid()
      modifies this
      ensures Valid() && (ok <==> AllValid(Texts(items), valid))
      ensures ok ==> names == AddNames(old(names), Texts(items).value)
    {
      var i := 0;
      while i < |items|
        invariant i <= |items| && Valid()
        invariant AllValid(Texts(items[..i]), valid)
        invariant names == AddNames(old(names), Texts(items[..i]).value)
      {
        TextsStep(items, i, valid);
        if !items[i].Str? { return false; }
        ok := Add(items[i].s, valid);
        if !ok { return; }
        var before := Texts(items[..i]).value;
        assert (before + [items[i].s])[..|before|] == before;
        i := i + 1;
      }
      assert items[..i] == items;
      ok := true;
    }

    // One of the two loops over parameters.
    method AddParams(many: bool, params: seq<string>, args: Args, valid: string -> bool) returns (ok: bool)
      requires Valid()
      modifies this
      ensures Valid() && (ok <==> AllValid(SendsAll(many, params, args), valid))
      ensures ok ==> names == AddNames(old(names), SendsAll(many, params, args).value)
    {
      var i := 0;
      while i < |params|
        invariant i <= |params| && Valid()
        invariant AllValid(SendsAll(many, params[..i], args), valid)
        invariant names == AddNames(old(names), SendsAll(many, params[..i], args).value)
      {
        ghost var before := SendsAll(many, params[..i], args).value;
        var v := Arg(args, params[i]);
        SendsStep(many, params, i, args, valid);
        match v {
        case Null => ok := AddEach([], valid);
        case Str(s) => ok := AddEach(if !many then [s] else if s == "" then [] else Split(s), valid);
        case Arr(items) => if many { ok := AddItems(items, valid); } else { return false; }
        case _ => return false;
        }
        if !ok { return; }
        AddNamesConcat(old(names), before, Sends(many, v).value);
        i := i + 1;
      }
      assert params[..i] == params;
      ok := true;
    }
  }

  lemma TextsStep(items: seq<Json>, i: nat, valid: string -> bool)
    requires i < |items| && AllValid(Texts(items[..i]), valid)
    ensures Texts(items[..i + 1]) ==
      if items[i].Str? then Some(Texts(items[..i]).value + [items[i].s]) else None
    ensures !(items[i].Str? && valid(items[i].s)) ==> !AllValid(Texts(items), valid)
  {
    assert items[..i + 1][..i] == items[..i];
    if !(items[i].Str? && valid(items[i].s)) { BadItem(items, i, valid); }
  }

  lemma {:induction false} BadItem(items: seq<Json>, i: nat, valid: string -> bool)
    requires i < |items| && !(items[i].Str? && valid(items[i].s))
    ensures !AllValid(Texts(items), valid)
    decreases |items|
  {
    var n := |items| - 1;
    if Texts(items).Some? {
      var front := Texts(items[..n]).value;
      if i < n {
        BadItem(items[..n], i, valid);
        var k :| 0 <= k < |front| && !valid(front[k]);
        assert Texts(items).value[k] == front[k];
      } else {
        assert Texts(items).value[|front|] == items[n].s;
      }
    }
  }

  lemma SendsStep(many: bool, params: seq<string>, i: nat, args: Args, valid: string -> bool)
    requires i < |params| && AllValid(SendsAll(many, params[..i], args), valid)
    ensures var last := Sends(many, Arg(args, params[i]));
      SendsAll(many, params[..i + 1], args) ==
        (if last.None? then None else Some(SendsAll(many, params[..i], args).value + last.value))
    ensures !AllValid(Sends(many, Arg(args, params[i])), valid) ==> !AllValid(SendsAll(many, params, args), valid)
  {
    assert params[..i + 1][..i] == params[..i];
    if !AllValid(Sends(many, Arg(args, params[i])), valid) { BadParam(many, params, i, args, valid); }
  }

  lemma {:induction false} BadParam(many: bool, params: seq<string>, i: nat, args: Args, valid: string -> bool)
    requires i < |params| && !AllValid(Sends(many, Arg(args, params[i])), valid)
    ensures !AllValid(SendsAll(many, params, args), valid)
    decreases |params|
  {
    var n := |params| - 1;
    var all := SendsAll(many, params, args);
    if all.Some? {
      var front := SendsAll(many, params[..n], args).value;
      var last := Sends(many, Arg(args, params[n])).value;
      if i < n {
        BadParam(many, params[..n], i, args, valid);
        var k :| 0 <= k < |front| && !valid(front[k]);
        assert all.value[k] == front[k];
      } else {
        var k :| 0 <= k < |last| && !valid(last[k]);
        assert all.value[|front| + k] == last[k];
      }
    }
  }

  // A group argument that selects devices.
  predicate Selects(v: Json) {
    match v
    case Null => false
    case Str(s) => s != ""
    case Arr(items) => items != []
    case _ => true
  }

  // The names are the ones sent, each once, in order; a call is refused for its names exactly when
  // an argument is not a name or list of names, or one name is not valid.
  method Extract(spec: Spec, args: Args, valid: string -> bool) returns (names: seq<string>, groups: bool, bad: bool)
    ensures bad <==> !AllValid(Sent(spec, args), valid)
    ensures !bad ==> names == AddNames([], Sent(spec, args).value)
    ensures !bad ==> (groups <==> exists i :: 0 <= i < |spec.groupParams| && Selects(Arg(args, spec.groupParams[i])))
  {
    var c := new Names();
    var ok := c.AddParams(false, spec.targetParams, args, valid);
    SentParts(spec, args, valid);
    if !ok { return [], false, true; }
    ghost var one := SendsAll(false, spec.targetParams, args).value;
    ok := c.AddParams(true, spec.targetsParams, args, valid);
    if !ok { return [], false, true; }
    AddNamesConcat([], one, SendsAll(true, spec.targetsParams, args).value);
    groups := false;
    for i := 0 to |spec.groupParams|
      invariant groups <==> exists k :: 0 <= k < i && Selects(Arg(args, spec.groupParams[k]))
    {
      groups := groups || Selects(Arg(args, spec.groupParams[i]));
    }
    names, bad := c.names, false;
  }

  lemma SentParts(spec: Spec, args: Args, valid: string -> bool)
    ensures AllValid(Sent(spec, args), valid)
       <==> (AllValid(SendsAll(false, spec.targetParams, args), valid)
             && AllValid(SendsAll(true, spec.targetsParams, args), valid))
  {
    var a, b := SendsAll(false, spec.targetParams, args), SendsAll(true, spec.targetsParams, args);
    if a.Some? && b.Some? {
      assert forall i :: 0 <= i < |a.value| ==> Sent(spec, args).value[i] == a.value[i];
      assert forall i :: 0 <= i < |b.value| ==> Sent(spec, args).value[|a.value| + i] == b.value[i];
    }
  }

  // ---- what is sent, argument by argument ----

  predicate NamedOnce(v: Json, name: string) { v == Str(name) }

  predicate NamedInList(v: Json, name: string) {
    (v.Arr? && Str(name) in v.items) || (v.Str? && v.s != "" && name in Split(v.s))
  }

  // Some argument of the call sends the name.
  ghost predicate SentBy(spec: Spec, args: Args, name: string) {
    || (exists i :: 0 <= i < |spec.targetParams| && NamedOnce(Arg(args, spec.targetParams[i]), name))
    || exists i :: 0 <= i < |spec.targetsParams| && NamedInList(Arg(args, spec.targetsParams[i]), name)
  }

  lemma {:induction false} TextsMembers(items: seq<Json>, name: string)
    requires Texts(items).Some?
    ensures name in Texts(items).value <==> Str(name) in items
  {
    if items != [] {
      var n := |items| - 1;
      TextsMembers(items[..n], name);
      assert items == items[..n] + [items[n]];
    }
  }

  lemma SendsMembers(many: bool, v: Json, name: string)
    requires Sends(many, v).Some?
    ensures name in Sends(many, v).value <==> if many then NamedInList(v, name) else NamedOnce(v, name)
  {
    if v.Arr? { TextsMembers(v.items, name); }
  }

  lemma {:induction false} SendsAllMembers(many: bool, params: seq<string>, args: Args, name: string)
    requires SendsAll(many, params, args).Some?
    ensures name in SendsAll(many, params, args).value <==>
      exists i :: 0 <= i < |params|
        && if many then NamedInList(Arg(args, params[i]), name) else NamedOnce(Arg(args, params[i]), name)
  {
    if params != [] {
      var n := |params| - 1;
      SendsAllMembers(many, params[..n], args, name);
      SendsMembers(many, Arg(args, params[n]), name);
      var here := if many then NamedInList(Arg(args, params[n]), name) else NamedOnce(Arg(args, params[n]), name);
      var front := SendsAll(many, params[..n], args).value;
      assert name in SendsAll(many, params, args).value <==> name in front || here;
      if name in front {
        var i :| 0 <= i < n &&
          if many then NamedInList(Arg(args, params[..n][i]), name) else NamedOnce(Arg(args, params[..n][i]), name);
        assert params[..n][i] == params[i];
      }
      assert forall i :: 0 <= i < n ==> params[..n][i] == params[i];
    }
  }

  // The names taken out of a call are exactly those that some argument sends.
  lemma NamesAreSent(spec: Spec, args: Args, name: string)
    requires Sent(spec, args).Some?
    ensures name in AddNames([], Sent(spec, args).value) <==> SentBy(spec, args, name)
  {
    AddNamesKeeps([], Sent(spec, args).value);
    SendsAllMembers(false, spec.targetParams, args, name);
    SendsAllMembers(true, spec.targetsParams, args, name);
  }

  // A list of names and the same names written with commas send the same thing.
  lemma ListOrText(names: seq<string>)
    requires names != [] && names != [""] && forall p :: p in names ==> ',' !in p
    ensures Sends(true, Arr(seq(|names|, i requires 0 <= i < |names| => Str(names[i]))))
         == Sends(true, Str(Join(names)))
  {
    SplitJoin(names);
    assert Split("") == [""];
    TextsOf(names, seq(|names|, i requires 0 <= i < |names| => Str(names[i])));
  }

  lemma {:induction false} TextsOf(names: seq<string>, items: seq<Json>)
    requires |items| == |names| && forall i :: 0 <= i < |names| ==> items[i] == Str(names[i])
    ensures Texts(items) == Some(names)
  {
    if names != [] {
      var n := |names| - 1;
      TextsOf(names[..n], items[..n]);
      assert names == names[..n] + [names[n]];
    }
  }

  // ---- the per-call cap ----

  function Commas(s: string): nat { if s == "" then 0 else (if s[0] == ',' then 1 else 0) + Commas(s[1..]) }

  // countValues with commas.
  function CountValues(v: Json): nat {
    match v
    case Null => 0
    case Str(s) => if s == "" then 0 else Commas(s) + 1
    case Arr(items) => CountItems(items)
    case _ => 1
  }

  function CountItems(items: seq<Json>): nat {
    if items == [] then 0 else CountItems(items[..|items| - 1]) + CountValues(items[|items| - 1])
  }

  function CountParams(params: seq<string>, args: Args): nat {
    if params == [] then 0 else CountParams(params[..|params| - 1], args) + CountValues(Arg(args, params[|params| - 1]))
  }

  predicate OverCap(spec: Spec, args: Args) {
    CountParams(spec.targetParams, args) + CountParams(spec.targetsParams, args)
      + CountParams(spec.groupParams, args) > MAX_TARGETS
  }

  lemma {:induction false} SplitCount(s: string)
    ensures |Split(s)| == Commas(s) + 1
  {
    if s != "" { SplitCount(s[1..]); }
  }

  lemma {:induction false} PlainName(s: string)
    requires ',' !in s
    ensures Commas(s) == 0
  {
    if s != "" { PlainName(s[1..]); }
  }

  // No valid name has a comma in it.
  ghost predicate NoCommas(valid: string -> bool) { forall x :: valid(x) ==> ',' !in x }

  // An empty string is not counted, and no valid name is empty.
  lemma {:induction false} SendsCounted(many: bool, v: Json, valid: string -> bool)
    requires !valid("") && AllValid(Sends(many, v), valid)
    ensures |Sends(many, v).value| <= CountValues(v)
    ensures NoCommas(valid) ==> |Sends(many, v).value| == CountValues(v)
  {
    if v.Str? {
      SplitCount(v.s);
      if !many {
        assert Sends(many, v).value[0] == v.s;
        if NoCommas(valid) { PlainName(v.s); }
      }
    } else if v.Arr? {
      TextsCounted(v.items, valid);
    }
  }

  lemma {:induction false} TextsCounted(items: seq<Json>, valid: string -> bool)
    requires !valid("") && AllValid(Texts(items), valid)
    ensures |Texts(items).value| <= CountItems(items)
    ensures NoCommas(valid) ==> |Texts(items).value| == CountItems(items)
  {
    if items != [] {
      var n := |items| - 1;
      var front := Texts(items[..n]).value;
      assert forall i :: 0 <= i < n && i < |front| ==> front[i] == Texts(items).value[i];
      assert valid(Texts(items).value[|front|]);
      if NoCommas(valid) { PlainName(items[n].s); }
      TextsCounted(items[..n], valid);
    }
  }

  lemma {:induction false} ParamsCounted(many: bool, params: seq<string>, args: Args, valid: string -> bool)
    requires !valid("") && AllValid(SendsAll(many, params, args), valid)
    ensures |SendsAll(many, params, args).value| <= CountParams(params, args)
    ensures NoCommas(valid) ==> |SendsAll(many, params, args).value| == CountParams(params, args)
  {
    if params != [] {
      var n := |params| - 1;
      var all := SendsAll(many, params, args).value;
      var front, last := SendsAll(many, params[..n], args).value, Sends(many, Arg(args, params[n])).value;
      assert forall i :: 0 <= i < |front| ==> front[i] == all[i];
      assert forall i :: 0 <= i < |last| ==> last[i] == all[|front| + i];
      ParamsCounted(many, params[..n], args, valid);
      SendsCounted(many, Arg(args, params[n]), valid);
    }
  }

  // The count taken before classification is never below the number of names taken out after it.
  lemma CapBoundsTargets(spec: Spec, args: Args, valid: string -> bool)
    requires !valid("") && !OverCap(spec, args) && AllValid(Sent(spec, args), valid)
    ensures |AddNames([], Sent(spec, args).value)| <= 256
  {
    SentParts(spec, args, valid);
    ParamsCounted(false, spec.targetParams, args, valid);
    ParamsCounted(true, spec.targetsParams, args, valid);
    AddNamesKeeps([], Sent(spec, args).value);
  }
  lemma NoneCounted(v: Json)
    requires !Selects(v)
    ensures CountValues(v) == 0
  {
    if v.Arr? { assert CountItems(v.items) == 0; }
  }

  lemma {:induction false} NoneSelected(params: seq<string>, args: Args)
    requires forall i :: 0 <= i < |params| ==> !Selects(Arg(args, params[i]))
    ensures CountParams(params, args) == 0
  {
    if params != [] {
      var n := |params| - 1;
      assert forall i :: 0 <= i < n ==> params[..n][i] == params[i];
      NoneSelected(params[..n], args);
      NoneCounted(Arg(args, params[n]));
    }
  }

  // And for a call that selects no group it is the number of names sent, repeats included: such a
  // call is over the cap exactly when it sends more than 256.
  lemma CapIsExact(spec: Spec, args: Args, valid: string -> bool)
    requires !valid("") && NoCommas(valid) && AllValid(Sent(spec, args), valid)
    requires forall i :: 0 <= i < |spec.groupParams| ==> !Selects(Arg(args, spec.groupParams[i]))
    ensures OverCap(spec, args) <==> |Sent(spec, args).value| > 256
  {
    SentParts(spec, args, valid);
    ParamsCounted(false, spec.targetParams, args, valid);
    ParamsCounted(true, spec.targetsParams, args, valid);
    NoneSelected(spec.groupParams, args);
  }
}
