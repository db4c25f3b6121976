// Calls that ask for input over several rounds: the sealed state that a stateless
// agent carries between them (internal/proxy/state.go, resume in input.go) and the
// loop that forwards a call (internal/proxy/proxy.go).

module Rounds {
  import opened Prelude

  const STATE_PREFIX := "fg4."
  const MAX_UPSTREAM_STATE := 65536
  const MAX_SEALED_STATE := 98304
  const STATE_TTL := 1800
  const MAX_ROUNDS := 10
  const NONCE_SIZE := 12
  const OVERHEAD := 16

  datatype Sealed = Sealed(server: string, tool: string, args: string, ids: seq<string>, up: string,
                           round: nat, prompts: nat, exp: int)
  datatype Transport = Stdio | Http
  datatype Binding = Binding(transport: Transport, principal: string)
  datatype StateError = Malformed | Retired | NotAuthentic | Expired | TooLarge | OtherTool | OtherArgs | BadAnswer
  datatype Result<T> = Ok(value: T) | Err(error: StateError)

  // ---- the additional authenticated data ----

  function TransportName(t: Transport): string { if t.Stdio? then "stdio" else "http" }

  const NUL := 0 as char

  function Aad(b: Binding): string { STATE_PREFIX + TransportName(b.transport) + [NUL] + b.principal + [NUL] }

  // The encoding names one transport and one principal.
  lemma AadDecides(a: Binding, b: Binding)
    requires Aad(a) == Aad(b)
    ensures a == b
  {
    var x, y := Aad(a), Aad(b);
    assert x[4] == TransportName(a.transport)[0] && y[4] == TransportName(b.transport)[0];
    var n := 4 + |TransportName(a.transport)| + 1;
    assert x[n..|x| - 1] == a.principal && y[n..|y| - 1] == b.principal;
  }

  // ---- an ideal AEAD: what opens is what was sealed ----

  // `box` is the ciphertext of a state under a nonce and the additional data.
  datatype Cipher = Cipher(box: (string, Sealed, string) -> string, b64: string -> string,
                           unb64: string -> Option<string>)

  ghost predicate Sound(k: Cipher) {
    && (forall x :: k.unb64(k.b64(x)) == Some(x))
    && forall n, st, a :: |k.box(n, st, a)| >= OVERHEAD
  }

  // A state this process sealed; `parent` is the one whose retry led to it.
  datatype Issue = Issue(nonce: string, st: Sealed, b: Binding, parent: Option<nat>)

  predicate Opens(k: Cipher, e: Issue, nonce: string, box: string, aad: string) {
    e.nonce == nonce && k.box(e.nonce, e.st, Aad(e.b)) == box && Aad(e.b) == aad
  }

  // aead.Open: the state sealed with exactly this nonce, ciphertext and additional data.
  function Find(k: Cipher, issued: seq<Issue>, nonce: string, box: string, aad: string): (i: nat)
    ensures i <= |issued| && (i < |issued| ==> Opens(k, issued[i], nonce, box, aad))
    ensures i == |issued| ==> forall j :: 0 <= j < |issued| ==> !Opens(k, issued[j], nonce, box, aad)
  {
    if issued == [] then 0
    else if Opens(k, issued[0], nonce, box, aad) then 0
    else 1 + Find(k, issued[1..], nonce, box, aad)
  }

  // Nonces are never drawn twice.
  ghost predicate FreshNonces(issued: seq<Issue>) {
    && (forall i :: 0 <= i < |issued| ==> |issued[i].nonce| == NONCE_SIZE)
    && forall i, j :: 0 <= i < j < |issued| ==> issued[i].nonce != issued[j].nonce
  }

  // ---- seal and open ----

  function Stamped(st: Sealed, now: int): Sealed { st.(exp := now + STATE_TTL) }

  function Text(k: Cipher, nonce: string, st: Sealed, b: Binding): string {
    STATE_PREFIX + k.b64(nonce + k.box(nonce, st, Aad(b)))
  }

  function Seal(k: Cipher, st: Sealed, b: Binding, now: int, nonce: string): Result<string> {
    var text := Text(k, nonce, Stamped(st, now), b);
    if |text| > MAX_SEALED_STATE then Err(TooLarge) else Ok(text)
  }

  // The place of the state in the log of issued ones, and the state.
  function Open(k: Cipher, issued: seq<Issue>, text: string, b: Binding, now: int): Result<nat> {
    if |text| > MAX_SEALED_STATE then Err(Malformed)
    else if !(STATE_PREFIX <= text) then
      if "ng1." <= text || "ng2." <= text || "ng3." <= text then Err(Retired) else Err(Malformed)
    else
      var body := k.unb64(text[|STATE_PREFIX|..]);
      if body.None? || |body.value| < NONCE_SIZE + OVERHEAD then Err(Malformed)
      else
        var i := Find(k, issued, body.value[..NONCE_SIZE], body.value[NONCE_SIZE..], Aad(b));
        if i == |issued| then Err(NotAuthentic)
        else if now > issued[i].st.exp then Err(Expired)
        else Ok(i)
  }

  // A sealed state opens, with everything it held, for the binding it was issued to, until it
  // expires; for any other transport or principal it never opens. Whatever else was issued.
  lemma OpenInvertsSeal(k: Cipher, issued: seq<Issue>, i: nat, st: Sealed, now: int, b: Binding, later: int)
    requires Sound(k) && FreshNonces(issued) && i < |issued| && issued[i].st == Stamped(st, now)
    requires Seal(k, st, issued[i].b, now, issued[i].nonce).Ok?
    ensures var text := Seal(k, st, issued[i].b, now, issued[i].nonce).value;
      Open(k, issued, text, b, later) ==
        if b != issued[i].b then Err(NotAuthentic) else if later > now + 1800 then Err(Expired) else Ok(i)
  {
    var e := issued[i];
    var box := k.box(e.nonce, e.st, Aad(e.b));
    var text := Text(k, e.nonce, e.st, e.b);
    assert text[|STATE_PREFIX|..] == k.b64(e.nonce + box);
    var body := k.unb64(text[|STATE_PREFIX|..]).value;
    assert body[..NONCE_SIZE] == e.nonce && body[NONCE_SIZE..] == box;
    var j := Find(k, issued, e.nonce, box, Aad(b));
    if b == e.b {
      assert Opens(k, e, e.nonce, box, Aad(b));
    } else if j < |issued| {
      AadDecides(issued[j].b, b);
    }
  }

  // What opens was issued to this transport and principal and has not expired.
  lemma OnlyIssuedOpens(k: Cipher, issued: seq<Issue>, text: string, b: Binding, now: int)
    requires Open(k, issued, text, b, now).Ok?
    ensures var i := Open(k, issued, text, b, now).value;
      i < |issued| && issued[i].b == b && now <= issued[i].st.exp
  {
    AadDecides(issued[Open(k, issued, text, b, now).value].b, b);
  }

  // ---- resume ----

  datatype Answer = Accept(content: string) | Decline | Cancel | OtherAction | NotElicitation

  // A call as the agent sends it; `state` is "" for a call that is not a retry. `args` is the digest
  // of its arguments, `closed` says that the gate closes the tool's argument list.
  datatype Call = Call(server: string, tool: string, args: string, b: Binding, stateless: bool, canElicit: bool,
                       closed: bool, state: string, responses: map<string, Answer>)

  datatype Resumed = Resumed(parent: nat, round: nat, prompts: nat, up: string, answers: map<string, Answer>)

  predicate CleanAnswer(a: Answer) { a.Accept? || a.Decline? || a.Cancel? }

  function Resume(k: Cipher, issued: seq<Issue>, c: Call, now: int): Result<Resumed> {
    var o := Open(k, issued, c.state, c.b, now);
    if o.Err? then Err(o.error)
    else
      var st := issued[o.value].st;
      if st.server != c.server || st.tool != c.tool then Err(OtherTool)
      else if st.args != c.args then Err(OtherArgs)
      else if exists id :: id in c.responses && id in st.ids && !CleanAnswer(c.responses[id]) then Err(BadAnswer)
      else
        var answers := map id | id in c.responses && id in st.ids :: c.responses[id];
        Ok(Resumed(o.value, st.round, st.prompts, st.up, answers))
  }

  // A retry goes on only with a live state issued to the same caller for the same call, and carries
  // to the upstream only clean answers to questions it asked.
  lemma ResumeMeans(k: Cipher, issued: seq<Issue>, c: Call, now: int)
    requires Resume(k, issued, c, now).Ok?
    ensures var r := Resume(k, issued, c, now).value;
      && r.parent < |issued|
      && var e := issued[r.parent];
      && e.b == c.b && now <= e.st.exp && e.st.server == c.server && e.st.tool == c.tool && e.st.args == c.args
      && (r.round, r.prompts, r.up) == (e.st.round, e.st.prompts, e.st.up)
      && (forall id :: id in r.answers <==> (id in c.responses && id in e.st.ids))
      && (forall id :: id in r.answers ==> r.answers[id] == c.responses[id] && CleanAnswer(r.answers[id]))
  {
    OnlyIssuedOpens(k, issued, c.state, c.b, now);
  }

  // And it does go on when all of that holds.
  lemma ResumeAccepts(k: Cipher, issued: seq<Issue>, c: Call, now: int, i: nat)
    requires Open(k, issued, c.state, c.b, now) == Ok(i) && i < |issued|
    requires (issued[i].st.server, issued[i].st.tool, issued[i].st.args) == (c.server, c.tool, c.args)
    ensures Resume(k, issued, c, now).Ok? <==>
      forall id :: id in c.responses && id in issued[i].st.ids ==> CleanAnswer(c.responses[id])
  {
  }

  // Otherwise the error says why.
  lemma ResumeSaysWhy(k: Cipher, issued: seq<Issue>, c: Call, now: int, i: nat)
    requires Open(k, issued, c.state, c.b, now) == Ok(i) && i < |issued|
    ensures var st, r := issued[i].st, Resume(k, issued, c, now);
      && (r == Err(OtherTool) <==> st.server != c.server || st.tool != c.tool)
      && (r == Err(OtherArgs) <==> st.server == c.server && st.tool == c.tool && st.args != c.args)
      && (r.Err? ==> r.error in {OtherTool, OtherArgs, BadAnswer})
  {
  }

  // A state of an earlier version is told apart from what was never issued, and neither opens.
  lemma OthersDoNotOpen(k: Cipher, issued: seq<Issue>, text: string, b: Binding, now: int)
    requires |text| <= 98304 && !("fg4." <= text)
    ensures Open(k, issued, text, b, now)
         == Err(if "ng1." <= text || "ng2." <= text || "ng3." <= text then Retired else Malformed)
  {
  }

  // ---- forward ----

  // What the upstream does with one call. `before`: the prompts it puts of its own meanwhile;
  // `bad`: a request of it is refused as it stands; `answers`: how many of its requests the agent
  // answers before one fails.
  datatype Reply = Failed(before: nat) | NoReply(before: nat) | Final(before: nat)
    | Asks(before: nat, ids: seq<string>, bad: bool, state: string, answers: nat)

  // How a call ends for the agent: with the upstream's result; its error; no result; an upstream
  // that is busy; a refusal; an answer that did not come; or asked for input.
  datatype End = Passed | Broke | Nothing | Busy | Refused | Stopped | Issued(text: string, st: Sealed)

  // `prompts`: those put to the human for the call, its earlier rounds included.
  datatype Outcome = Outcome(calls: nat, prompts: nat, end: End)

  // The prompts put so far: an upstream can put its own only to a stateful agent, up to the cap.
  function PromptsNow(c: Call, prompts: nat, before: nat): nat {
    if c.stateless || prompts >= MAX_PROMPTS then prompts
    else if prompts + before < MAX_PROMPTS then prompts + before else MAX_PROMPTS
  }

  predicate AskRefused(c: Call, r: Reply, round: nat, prompts: nat)
    requires r.Asks?
  {
    || r.bad || c.closed || !c.canElicit || round >= MAX_ROUNDS
    || prompts + |r.ids| > MAX_PROMPTS || |r.state| > MAX_UPSTREAM_STATE
  }

  function NextState(c: Call, r: Reply, round: nat, prompts: nat): Sealed
    requires r.Asks?
  {
    Sealed(c.server, c.tool, c.args, r.ids, r.state, round + 1, prompts + |r.ids|, 0)
  }

  // A reply that asks for nothing ends the call.
  function EndOf(r: Reply): End {
    match r
    case Failed(_) => Broke
    case NoReply(_) => Nothing
    case Final(_) => Passed
    case Asks(_, _, _, _, _) => Busy
  }

  // The rounds of one call from `round` on, `calls` upstream calls having been made.
  function Forward(k: Cipher, c: Call, replies: nat -> Reply, now: int, nonce: string,
                   round: nat, prompts: nat, calls: nat): Outcome
    decreases if round < MAX_ROUNDS then MAX_ROUNDS - round else 0
  {
    var r := replies(calls);
    var p := PromptsNow(c, prompts, r.before);
    if !r.Asks? || r.ids == [] then Outcome(calls + 1, p, EndOf(r))
    else if AskRefused(c, r, round, p) then Outcome(calls + 1, p, Refused)
    else if c.stateless then
      var st := NextState(c, r, round, p);
      var s := Seal(k, st, c.b, now, nonce);
      if s.Err? then Outcome(calls + 1, p, Refused)
      else Outcome(calls + 1, p + |r.ids|, Issued(s.value, Stamped(st, now)))
    else if r.answers < |r.ids| then Outcome(calls + 1, p + r.answers + 1, Stopped)
    else Forward(k, c, replies, now, nonce, round + 1, p + |r.ids|, calls + 1)
  }

  method ForwardCall(k: Cipher, c: Call, replies: nat -> Reply, now: int, nonce: string, start: nat, asked: nat)
    returns (out: Outcome)
    ensures out == Forward(k, c, replies, now, nonce, start, asked, 0)
  {
    var round: nat, prompts: nat, calls: nat := start, asked, 0;
    while true
      invariant Forward(k, c, replies, now, nonce, round, prompts, calls)
             == Forward(k, c, replies, now, nonce, start, asked, 0)
      decreases if round < MAX_ROUNDS then MAX_ROUNDS - round else 0
    {
      var r := replies(calls);
      calls := calls + 1;
      prompts := PromptsNow(c, prompts, r.before);
      if !r.Asks? || r.ids == [] { return Outcome(calls, prompts, EndOf(r)); }
      if AskRefused(c, r, round, prompts) { return Outcome(calls, prompts, Refused); }
      if c.stateless {
        var st := NextState(c, r, round, prompts);
        var s := Seal(k, st, c.b, now, nonce);
        if s.Err? { return Outcome(calls, prompts, Refused); }
        return Outcome(calls, prompts + |r.ids|, Issued(s.value, Stamped(st, now)));
      }
      if r.answers < |r.ids| { return Outcome(calls, prompts + r.answers + 1, Stopped); }
      prompts := prompts + |r.ids|;
      round := round + 1;
    }
  }

  // One call makes at most 11 upstream calls, fewer by the rounds it resumes from, and puts at most
  // ten prompts to the human, those of the rounds it resumes from included.
  lemma {:induction false} ForwardBounds(k: Cipher, c: Call, replies: nat -> Reply, now: int, nonce: string,
                                         round: nat, prompts: nat, calls: nat)
    requires round <= MAX_ROUNDS && prompts <= MAX_PROMPTS
    ensures calls < Forward(k, c, replies, now, nonce, round, prompts, calls).calls <= calls + 11 - round
    ensures prompts <= Forward(k, c, replies, now, nonce, round, prompts, calls).prompts <= 10
    decreases MAX_ROUNDS - round
  {
    var r := replies(calls);
    var p := PromptsNow(c, prompts, r.before);
    if r.Asks? && !AskRefused(c, r, round, p) {
      ForwardBounds(k, c, replies, now, nonce, round + 1, p + |r.ids|, calls + 1);
    }
  }

  // The bound is met by an upstream that asks one question each time.
  lemma {:induction false} BoundIsMet(k: Cipher, c: Call, replies: nat -> Reply, now: int, nonce: string,
                                      round: nat, prompts: nat, calls: nat)
    requires round <= MAX_ROUNDS && prompts <= round && !c.stateless && c.canElicit && !c.closed
    requires forall i :: replies(i) == Asks(0, ["q"], false, "", 1)
    ensures Forward(k, c, replies, now, nonce, round, prompts, calls)
         == Outcome(calls + 11 - round, prompts + 10 - round, Refused)
    decreases MAX_ROUNDS - round
  {
    if round < MAX_ROUNDS { BoundIsMet(k, c, replies, now, nonce, round + 1, prompts + 1, calls + 1); }
  }

  // A request that must not reach the agent.
  predicate MayNotAsk(c: Call, r: Reply) {
    r.Asks? && r.ids != [] && (r.bad || c.closed || !c.canElicit || |r.state| > 65536)
  }

  // How a call ends with its last reply `r`, after `rounds` rounds: a result is
  // passed on, and nothing else ends as one.
  predicate EndFits(c: Call, r: Reply, end: End, rounds: nat, prompts: nat) {
    && (end.Passed? <==> r.Final?) && (end.Broke? <==> r.Failed?) && (end.Nothing? <==> r.NoReply?)
    && (end.Busy? <==> r.Asks? && r.ids == [])
    && (MayNotAsk(c, r) ==> end.Refused?)
    && (end.Stopped? ==> r.Asks? && !c.stateless && r.answers < |r.ids|)
    && (end.Refused? ==> r.Asks?)
    && (end.Refused? && !MayNotAsk(c, r) && !c.stateless ==> rounds >= 10 || prompts + |r.ids| > 10)
  }

  // The last reply decides how the call ends.
  lemma {:induction false} LastReplyDecides(k: Cipher, c: Call, replies: nat -> Reply, now: int, nonce: string,
                                            round: nat, prompts: nat, calls: nat)
    ensures var out := Forward(k, c, replies, now, nonce, round, prompts, calls);
      && out.calls > calls && out.prompts >= prompts
      && EndFits(c, replies(out.calls - 1), out.end, round + (out.calls - 1 - calls), out.prompts)
    decreases if round < MAX_ROUNDS then MAX_ROUNDS - round else 0
  {
    var r := replies(calls);
    var p := PromptsNow(c, prompts, r.before);
    if r.Asks? && r.ids != [] && !AskRefused(c, r, round, p) && !c.stateless && r.answers >= |r.ids| {
      hide EndFits;
      LastReplyDecides(k, c, replies, now, nonce, round + 1, p + |r.ids|, calls + 1);
    }
  }

  predicate Answered(c: Call, r: Reply) { r.Asks? && !MayNotAsk(c, r) && 0 < |r.ids| <= r.answers }

  // Every reply before it asked for input that may be asked for, and got all of it.
  lemma {:induction false} OthersWereAnswered(k: Cipher, c: Call, replies: nat -> Reply, now: int, nonce: string,
                                              round: nat, prompts: nat, calls: nat)
    ensures var out := Forward(k, c, replies, now, nonce, round, prompts, calls);
      forall i :: calls <= i < out.calls - 1 ==> Answered(c, replies(i))
    decreases if round < MAX_ROUNDS then MAX_ROUNDS - round else 0
  {
    var r := replies(calls);
    var p := PromptsNow(c, prompts, r.before);
    if r.Asks? && r.ids != [] && !AskRefused(c, r, round, p) && !c.stateless && r.answers >= |r.ids| {
      assert Answered(c, r);
      hide Answered;
      OthersWereAnswered(k, c, replies, now, nonce, round + 1, p + |r.ids|, calls + 1);
    }
  }

  // A state is sealed only for a stateless agent that may be asked, after one upstream call, one
  // round on and with more prompts than before, neither count beyond its cap; it holds what the
  // upstream sent and can be opened.
  lemma SealedAdvances(k: Cipher, c: Call, replies: nat -> Reply, now: int, nonce: string, round: nat, prompts: nat)
    ensures var out := Forward(k, c, replies, now, nonce, round, prompts, 0);
      out.end.Issued? ==> c.stateless && out.calls == 1 && SealedFrom(c, out.end.st, round, prompts)
    ensures var out := Forward(k, c, replies, now, nonce, round, prompts, 0);
      out.end.Issued? ==> c.canElicit && !c.closed && replies(0).Asks? && !replies(0).bad
    ensures var out := Forward(k, c, replies, now, nonce, round, prompts, 0);
      out.end.Issued? ==> replies(0).Asks? && |replies(0).state| <= MAX_UPSTREAM_STATE
    ensures var out := Forward(k, c, replies, now, nonce, round, prompts, 0);
      out.end.Issued? ==> replies(0).Asks? && (out.end.st.ids, out.end.st.up) == (replies(0).ids, replies(0).state)
    ensures var out := Forward(k, c, replies, now, nonce, round, prompts, 0);
      out.end.Issued? ==> out.end.text == Text(k, nonce, out.end.st, c.b) && |out.end.text| <= MAX_SEALED_STATE
    ensures var out := Forward(k, c, replies, now, nonce, round, prompts, 0);
      out.end.Issued? ==> out.end.st.exp == now + STATE_TTL
  {
    NeverSeals(k, c, replies, now, nonce, round, prompts, 0);
  }

  // And it is sealed whenever the counts allow and the state is not too long.
  lemma SealsWhenAllowed(k: Cipher, c: Call, replies: nat -> Reply, now: int, nonce: string, round: nat, prompts: nat)
    requires var r := replies(0);
      c.stateless && r.Asks? && r.ids != [] && !MayNotAsk(c, r) && round < 10 && prompts + |r.ids| <= 10
    ensures var r, out := replies(0), Forward(k, c, replies, now, nonce, round, prompts, 0);
      var st := Sealed(c.server, c.tool, c.args, r.ids, r.state, round + 1, prompts + |r.ids|, now + 1800);
      out.end == if |Text(k, nonce, st, c.b)| <= 98304 then Issued(Text(k, nonce, st, c.b), st) else Refused
  {
  }

  predicate SealedFrom(c: Call, st: Sealed, round: nat, prompts: nat) {
    && (st.server, st.tool, st.args) == (c.server, c.tool, c.args)
    && st.round == round + 1 <= MAX_ROUNDS && prompts < st.prompts <= MAX_PROMPTS
  }

  lemma {:induction false} NeverSeals(k: Cipher, c: Call, replies: nat -> Reply, now: int, nonce: string,
                                      round: nat, prompts: nat, calls: nat)
    ensures !c.stateless ==> !Forward(k, c, replies, now, nonce, round, prompts, calls).end.Issued?
    decreases if round < MAX_ROUNDS then MAX_ROUNDS - round else 0
  {
    var r := replies(calls);
    if !c.stateless && r.Asks? && round < MAX_ROUNDS {
      NeverSeals(k, c, replies, now, nonce, round + 1, PromptsNow(c, prompts, r.before) + |r.ids|, calls + 1);
    }
  }

  // ---- chains of retries ----

  datatype Attempt = Attempt(c: Call, replies: nat -> Reply, now: int, nonce: string)

  // One call or retry: the log of issued states after it.
  function Try(k: Cipher, issued: seq<Issue>, a: Attempt): seq<Issue> {
    var r := Resume(k, issued, a.c, a.now);
    if a.c.state != "" && r.Err? then issued
    else
      var first := a.c.state == "";
      var round, prompts := if first then 0 else r.value.round, if first then 0 else r.value.prompts;
      var out := Forward(k, a.c, a.replies, a.now, a.nonce, round, prompts, 0);
      if !out.end.Issued? then issued
      else issued + [Issue(a.nonce, out.end.st, a.c.b, if first then None else Some(r.value.parent))]
  }

  function Tries(k: Cipher, attempts: seq<Attempt>): seq<Issue> {
    if attempts == [] then [] else Try(k, Tries(k, attempts[..|attempts| - 1]), attempts[|attempts| - 1])
  }

  // Each state is the first of its call, or follows one issued before it to the same caller for the
  // same call, with one round more and more prompts.
  ghost predicate LinkOk(issued: seq<Issue>, i: nat)
    requires i < |issued|
  {
    var e := issued[i];
    && 1 <= e.st.round <= MAX_ROUNDS && 1 <= e.st.prompts <= MAX_PROMPTS
    && match e.parent
       case None => e.st.round == 1
       case Some(j) =>
         && j < i && e.st.round == issued[j].st.round + 1 && e.st.prompts > issued[j].st.prompts && e.b == issued[j].b
         && (e.st.server, e.st.tool, e.st.args) == (issued[j].st.server, issued[j].st.tool, issued[j].st.args)
  }

  ghost predicate Linked(issued: seq<Issue>) { forall i :: 0 <= i < |issued| ==> LinkOk(issued, i) }

  lemma {:induction false} AllLinked(k: Cipher, attempts: seq<Attempt>)
    ensures Linked(Tries(k, attempts))
  {
    hide Forward, Resume;
    if attempts != [] {
      var a := attempts[|attempts| - 1];
      var issued := Tries(k, attempts[..|attempts| - 1]);
      AllLinked(k, attempts[..|attempts| - 1]);
      var more := Try(k, issued, a);
      if more != issued {
        var r := Resume(k, issued, a.c, a.now);
        if a.c.state == "" {
          SealedAdvances(k, a.c, a.replies, a.now, a.nonce, 0, 0);
        } else {
          ResumeMeans(k, issued, a.c, a.now);
          SealedAdvances(k, a.c, a.replies, a.now, a.nonce, r.value.round, r.value.prompts);
        }
        forall i | 0 <= i < |more| ensures LinkOk(more, i) {
          if i < |issued| { assert LinkOk(issued, i); }
        }
      }
    }
  }

  // How many states the chain of retries that led to state i has.
  ghost function Generation(issued: seq<Issue>, i: nat): nat
    requires Linked(issued) && i < |issued|
  {
    assert LinkOk(issued, i);
    if issued[i].parent.None? then 1 else 1 + Generation(issued, issued[i].parent.value)
  }

  // Along every chain of retries each state counts its place, and no chain has more than ten.
  lemma {:induction false} ChainsEnd(k: Cipher, attempts: seq<Attempt>, i: nat)
    requires i < |Tries(k, attempts)|
    ensures Linked(Tries(k, attempts))
    ensures Generation(Tries(k, attempts), i) == Tries(k, attempts)[i].st.round <= 10
    ensures Generation(Tries(k, attempts), i) <= Tries(k, attempts)[i].st.prompts <= 10
    decreases i
  {
    var issued := Tries(k, attempts);
    AllLinked(k, attempts);
    assert LinkOk(issued, i);
    if issued[i].parent.Some? { ChainsEnd(k, attempts, issued[i].parent.value); }
  }
}
