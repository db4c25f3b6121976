// The idle clock of one agent session (internal/proxy/http.go, liveSession).
// Every method of the class is one critical section under liveSession.mu, and
// is proved equal to a function on Clock values; Lifecycle steps with the
// same functions.

module Sessions {

  // What liveSession.mu guards. armed is "the timer exists".
  datatype Clock = Clock(active: int, gets: int, armed: bool, running: bool, stopped: bool, lastSeq: nat)

  // The idle clock counts down exactly when it is armed, no POST is in
  // progress and the session has not ended.
  ghost predicate ClockExact(c: Clock) {
    c.active >= 0 && c.gets >= 0 && (c.running <==> c.armed && c.active == 0 && !c.stopped)
  }

  predicate Idle(c: Clock) { c.active == 0 && c.gets == 0 && !c.stopped }

  predicate Expirable(c: Clock) { !c.stopped && c.active <= 0 }

  function Fresh(active: nat, gets: nat, stamp: nat): Clock {
    Clock(active, gets, false, false, false, stamp)
  }

  function StartPost(c: Clock): Clock {
    c.(running := if c.active == 0 && c.armed then false else c.running, active := c.active + 1)
  }

  function EndPost(c: Clock, stamp: nat): Clock {
    c.(active := c.active - 1, lastSeq := stamp,
       running := if c.active - 1 == 0 && c.armed && !c.stopped then true else c.running)
  }

  function StartGet(c: Clock): Clock { c.(gets := c.gets + 1) }

  function EndGet(c: Clock, stamp: nat): Clock { c.(gets := c.gets - 1, lastSeq := stamp) }

  function Arm(c: Clock): Clock {
    if c.stopped || c.armed then c else c.(armed := true, running := c.active <= 0)
  }

  function Stop(c: Clock): Clock { c.(stopped := true, running := false) }

  class LiveSession {
    var active: int
    var gets: int
    var timer: bool
    var running: bool
    var stopped: bool
    var lastSeq: nat

    function View(): Clock reads this { Clock(active, gets, timer, running, stopped, lastSeq) }

    ghost predicate Valid() reads this { ClockExact(View()) }

    // settleSession builds the session; register adds the requests that
    // started before it (early, earlyGets) and touches it.
    constructor (early: nat, earlyGets: nat, stamp: nat)
      ensures View() == Fresh(early, earlyGets, stamp) && Valid()
    {
      active, gets, timer, running, stopped, lastSeq := early, earlyGets, false, false, false, stamp;
    }

    method StartPOST()
      requires Valid()
      modifies this
      ensures View() == StartPost(old(View())) && Valid() && !running
      ensures active == old(active) + 1 && gets == old(gets) && lastSeq == old(lastSeq) && stopped == old(stopped)
    {
      if active == 0 && timer {
        running := false;
      }
      active := active + 1;
    }

    method EndPOST(stamp: nat)
      requires Valid() && active > 0
      modifies this
      ensures View() == EndPost(old(View()), stamp) && Valid()
      ensures active == old(active) - 1 && gets == old(gets) && lastSeq == stamp && stopped == old(stopped)
      ensures running <==> timer && active == 0 && !stopped
    {
      active := active - 1;
      lastSeq := stamp;
      if active == 0 && timer && !stopped {
        running := true;
      }
    }

    method StartGET()
      requires Valid()
      modifies this
      ensures View() == StartGet(old(View())) && Valid()
      ensures gets == old(gets) + 1 && active == old(active) && lastSeq == old(lastSeq) && running == old(running)
    {
      gets := gets + 1;
    }

    method EndGET(stamp: nat)
      requires Valid() && gets > 0
      modifies this
      ensures View() == EndGet(old(View()), stamp) && Valid()
      ensures gets == old(gets) - 1 && active == old(active) && lastSeq == stamp && running == old(running)
    {
      gets := gets - 1;
      lastSeq := stamp;
    }

    method ArmClock()
      requires Valid()
      modifies this
      ensures View() == Arm(old(View())) && Valid()
      ensures (timer || stopped) && active == old(active) && stopped == old(stopped)
      ensures running <==> timer && active == 0 && !stopped
    {
      if stopped || timer {
        return;
      }
      timer := true;
      running := true;
      if active > 0 {
        running := false;
      }
    }

    method StopClock()
      requires Valid()
      modifies this
      ensures View() == Stop(old(View())) && Valid()
      ensures stopped && !running && active == old(active) && gets == old(gets)
    {
      stopped := true;
      running := false;
    }

    // expire up to its retirement of the session: a POST that started
    // meanwhile wins, and a session that was stopped is left alone.
    method Expire() returns (retires: bool)
      requires Valid()
      modifies this
      ensures retires == Expirable(old(View())) && Valid()
      ensures View() == if retires then Stop(old(View())) else old(View())
      ensures retires ==> old(active) == 0
    {
      if stopped || active > 0 {
        return false;
      }
      stopped := true;
      running := false;
      return true;
    }
  }
}
