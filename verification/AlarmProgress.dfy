/** When the alarm engine's timer goes off, and that every alarm that waits can be called. */
module AlarmProgress {
  import opened Arithmetic
  import opened Bytes
  import opened Alarms
  import opened AlarmInvariant
  import opened AlarmGuarantees

  // ---- what the timer is set to ------------------------------------------------------------------------

  /** The timer goes off in the microsecond of the first deadline, as far behind the full microsecond as
      the clock is now. */
  ghost predicate Exact(s: State) {
    if s.pending == [] then s.timer.None?
    else
      && s.timer.Some? && s.now <= s.timer.value
      && Us(s.timer.value) == s.pending[0].key && s.timer.value % 1000 == s.now % 1000
  }

  lemma UpdatesExactly(s: State)
    requires UpdateTimer(s).Pass?
    ensures Exact(UpdateTimer(s).value) && UpdateTimer(s).value == s.(timer := UpdateTimer(s).value.timer)
  {
  }

  /** After OnTimeout the timer is exact, whatever callbacks and visitor did. */
  lemma FireLeavesExactTimer(w: World, script: Id -> Script, post: seq<Op>)
    requires After(w, Fire(script, post)).Pass?
    ensures Exact(After(w, Fire(script, post)).value.engine)
  {
    var popped := Pop(w);
    var w1 := CallAll(popped, script).value;
    var w2 := if popped.batch == [] then w1 else PerformAll(w1, post).value;
    assert After(w, Fire(script, post)) == Rearm(w2);
    hide Pop, CallAll, PerformAll, After, OnTimeout, Exact;
    UpdatesExactly(w2.engine);
  }

  /** A registration either re-arms the timer exactly, or leaves it alone because it runs and is not
      late; the first of an idle engine always re-arms it. */
  lemma RegistrationTimes(s: State, timeout: int, cb: Id)
    requires Register(s, timeout, cb).Pass?
    ensures var r := Register(s, timeout, cb).value;
      if s.timer.None? || s.pending == [] || Max(timeout, Us(s.now)) < s.pending[0].key then Exact(r)
      else r.timer == s.timer
  {
    var s1 := if cb in s.members then s else Enter(s, Max(timeout, Us(s.now)), cb);
    if UpdateTimer(s1).Pass? {
      UpdatesExactly(s1);
    }
    hide UpperBound, UpdateTimer, Exact, Us;
  }

  lemma ReregistrationTimes(s: State, ticket: nat, timeout: int)
    requires Reregister(s, ticket, timeout).Pass?
    ensures var r, i := Reregister(s, ticket, timeout).value, Position(s.pending, ticket);
      && i < |s.pending| && |s.pending| > 1
      && if s.timer.None? || timeout < Cut(s.pending, i)[0].key then Exact(r) else r.timer == s.timer
  {
    var s1 := Moved(s, Position(s.pending, ticket), timeout);
    if UpdateTimer(s1).Pass? {
      UpdatesExactly(s1);
    }
    hide UpperBound, UpdateTimer, Exact, Us;
  }

  // ---- in every run the timer is a due time --------------------------------------------------------------

  /** The timer goes off in the microsecond in which some registration is, or was, due. */
  ghost predicate ArmedFor(w: World) {
    w.engine.timer.Some? ==>
      exists ticket :: 0 <= ticket < |w.issued| && Due(w.issued[ticket]) == Us(w.engine.timer.value)
  }

  lemma ExactIsArmedFor(w: World)
    requires Sound(w) && Exact(w.engine)
    ensures ArmedFor(w)
  {
    if w.engine.pending != [] {
      LineParts(w);
      var e := w.engine.pending[0];
      var j := |w.past| + |w.batch|;
      assert w.Line()[j] == e && Filed(w.Line()[j], w.issued);
      assert Due(w.issued[e.ticket]) == Us(w.engine.timer.value);
    }
  }

  lemma StillArmedFor(w: World, w': World)
    requires ArmedFor(w) && w'.engine.timer == w.engine.timer && w.issued <= w'.issued
    ensures ArmedFor(w')
  {
    if w.engine.timer.Some? {
      var ticket :| 0 <= ticket < |w.issued| && Due(w.issued[ticket]) == Us(w.engine.timer.value);
      assert Due(w'.issued[ticket]) == Us(w'.engine.timer.value);
    }
  }

  lemma ExactWithToken(s: State, token: map<Id, nat>)
    ensures Exact(s.(token := token)) == Exact(s)
  {
  }

  lemma PerformTimes(w: World, op: Op)
    requires Perform(w, op).Pass?
    ensures var r := Perform(w, op).value;
      w.issued <= r.issued && (Exact(r.engine) || r.engine.timer == w.engine.timer)
  {
    var s := w.engine;
    hide Register, Reregister, Exact, UpperBound;
    match op
    case Set(cb, deadline) => RegistrationTimes(s, deadline, cb);
    case Cancel(_) =>
    case Update(cb, deadline) =>
      if cb !in s.registered {
        RegistrationTimes(s, deadline, cb);
      } else {
        ReregistrationTimes(s, s.token[cb], deadline);
        ExactWithToken(Reregister(s, s.token[cb], deadline).value, s.token[cb := s.tickets]);
      }
  }

  lemma EventTimes(w: World, ev: Event)
    requires Sound(w) && Enabled(w, ev) && After(w, ev).Pass? && ArmedFor(w)
    ensures ArmedFor(After(w, ev).value)
  {
    EventKeeps(w, ev);
    var w' := After(w, ev).value;
    match ev
    case Tick(_) => StillArmedFor(w, w');
    case Close => StillArmedFor(w, w');
    case Fire(script, post) =>
      FireLeavesExactTimer(w, script, post);
      hide After, Sound, Exact, ArmedFor;
      ExactIsArmedFor(w');
    case Client(op) =>
      PerformTimes(w, op);
      hide Sound, Exact, ArmedFor, Perform;
      if Exact(w'.engine) {
        ExactIsArmedFor(w');
      } else {
        StillArmedFor(w, w');
      }
  }

  lemma EventOf(trace: seq<World>, evs: seq<Event>, i: nat)
    requires IsRun(trace, evs) && i < |evs|
    ensures |trace| == |evs| + 1 && Enabled(trace[i], evs[i]) && After(trace[i], evs[i]) == Pass(trace[i + 1])
  {
  }

  lemma NothingArmed()
    ensures ArmedFor(START)
  {
  }

  lemma FirstIsStart(trace: seq<World>, evs: seq<Event>)
    requires IsRun(trace, evs)
    ensures |trace| == |evs| + 1 && trace[0] == START
  {
  }

  lemma {:induction false} TimerIsADueTime(trace: seq<World>, evs: seq<Event>, i: nat)
    requires IsRun(trace, evs) && i < |trace|
    ensures ArmedFor(trace[i])
  {
    hide *;
    FirstIsStart(trace, evs);
    if i == 0 {
      NothingArmed();
    } else {
      TimerIsADueTime(trace, evs, i - 1);
      RunKeeps(trace, evs, i - 1);
      EventOf(trace, evs, i - 1);
      EventTimes(trace[i - 1], evs[i - 1]);
    }
  }

  // ---- progress ------------------------------------------------------------------------------------------

  /** A firing with nothing due leaves the alarms as they are and the timer strictly later, on the first
      of them. */
  lemma IdleFireMovesOn(w: World, script: Id -> Script, post: seq<Op>)
    requires Sound(w) && Enabled(w, Fire(script, post)) && After(w, Fire(script, post)).Pass?
    requires w.engine.pending != [] && Us(w.engine.now) < w.engine.pending[0].key
    ensures var r := After(w, Fire(script, post)).value;
      && r.engine.pending == w.engine.pending && r.past == w.past
      && r.engine.timer.Some? && r.engine.timer.value > w.engine.now
      && Us(r.engine.timer.value) == r.engine.pending[0].key
  {
    FireLeavesExactTimer(w, script, post);
    assert DueCount(w.engine.pending, Us(w.engine.now)) == 0;
    hide UpdateTimer, Sound, Tidy, Us;
  }

  function Silent(cb: Id): Script { Quit([], 0) }

  lemma {:induction false} SilentCalls(w: World)
    ensures TidyAll(w, Silent) && CallAll(w, Silent).Pass?
    ensures var r := CallAll(w, Silent).value;
      && r.past == w.past + w.batch && r.engine.pending == w.engine.pending && r.issued == w.issued
      && r.engine.now == w.engine.now
    decreases |w.batch|
  {
    if w.batch == [] {
    } else {
      var cb := w.batch[0].cb;
      var m := Moving(w);
      assert Call(w, Silent(cb)) == Pass(Called(m, cb));
      SilentCalls(Called(m, cb));
      assert w.past + [w.batch[0]] + w.batch[1..] == w.past + w.batch;
    }
  }

  lemma SilentFire(w: World)
    requires Sound(w) && w.engine.timer == Some(w.engine.now)
    ensures Enabled(w, Fire(Silent, [])) && After(w, Fire(Silent, [])).Pass?
    ensures var r, n := After(w, Fire(Silent, [])).value, DueCount(w.engine.pending, Us(w.engine.now));
      && r.past == w.past + w.engine.pending[..n] && r.engine.pending == w.engine.pending[n..]
      && r.issued == w.issued
  {
    SilentCalls(Pop(w));
    assert Pop(w).batch == w.engine.pending[..DueCount(w.engine.pending, Us(w.engine.now))];
    hide Sound, TidyAll, CallAll, Us;
  }

  lemma RunExtends(trace: seq<World>, evs: seq<Event>, ev: Event)
    requires IsRun(trace, evs) && Enabled(trace[|evs|], ev) && After(trace[|evs|], ev).Pass?
    ensures IsRun(trace + [After(trace[|evs|], ev).value], evs + [ev])
  {
    hide Enabled, After;
    var us, fs := trace + [After(trace[|evs|], ev).value], evs + [ev];
    forall i | 0 <= i < |fs|
      ensures Enabled(us[i], fs[i]) && After(us[i], fs[i]) == Pass(us[i + 1])
    {
      if i < |evs| {
        assert Enabled(trace[i], evs[i]) && After(trace[i], evs[i]) == Pass(trace[i + 1]);
      }
    }
  }

  /** The simulator goes on to the armed time and fires the timer; nobody asks for anything. */
  function NextTimeout(w: World): seq<Event>
    requires w.engine.timer.Some?
  {
    [Tick(w.engine.timer.value), Fire(Silent, [])]
  }

  /** Then the alarms due at that time have been called, the others wait under an exact timer. */
  lemma TimeoutComes(trace: seq<World>, evs: seq<Event>) returns (us: seq<World>)
    requires IsRun(trace, evs) && trace[|evs|].engine.pending != []
    ensures var w := trace[|evs|];
      && w.engine.timer.Some? && |us| == 2 && IsRun(trace + us, evs + NextTimeout(w))
      && var n := DueCount(w.engine.pending, Us(w.engine.timer.value));
      && us[1].past == w.past + w.engine.pending[..n] && us[1].engine.pending == w.engine.pending[n..]
      && us[1].issued == w.issued && Exact(us[1].engine)
      && (Exact(w.engine) ==> n > 0)
  {
    var w := trace[|evs|];
    RunKeeps(trace, evs, |evs|);
    PendingUnderTimer(w, 0);
    var tick, fire := Tick(w.engine.timer.value), Fire(Silent, []);
    var w1 := After(w, tick).value;
    assert Enabled(w, tick) && After(w, tick) == Pass(w1);
    RunExtends(trace, evs, tick);
    RunKeeps(trace + [w1], evs + [tick], |evs| + 1);
    SilentFire(w1);
    var w2 := After(w1, fire).value;
    FireLeavesExactTimer(w1, Silent, []);
    assert (trace + [w1])[|evs + [tick]|] == w1;
    hide IsRun, Sound, Enabled, After, Exact, Us;
    RunExtends(trace + [w1], evs + [tick], fire);
    us := [w1, w2];
    assert trace + [w1] + [w2] == trace + us && evs + [tick] + [fire] == evs + NextTimeout(w);
  }

  lemma IsCalled(w: World, ticket: nat, k: nat)
    requires k < |w.past| && w.past[k].ticket == ticket
    ensures CalledAs(w, ticket, k)
  {
  }

  lemma TwoEvents(w: World)
    requires w.engine.timer.Some?
    ensures |NextTimeout(w)| == 2 && forall f :: f in NextTimeout(w) ==> f.Tick? || f == Fire(Silent, [])
  {
  }

  /** The j-th alarm in line is called after at most j + 2 firings. */
  lemma {:induction false} PendingIsCalled(trace: seq<World>, evs: seq<Event>, j: nat)
    returns (us: seq<World>, fs: seq<Event>, k: nat)
    requires IsRun(trace, evs) && j < |trace[|evs|].engine.pending|
    ensures |us| == |fs| <= 2 * (j + if Exact(trace[|evs|].engine) then 1 else 2) && IsRun(trace + us, evs + fs)
    ensures forall f :: f in fs ==> f.Tick? || f == Fire(Silent, [])
    ensures CalledAs((trace + us)[|evs| + |fs|], trace[|evs|].engine.pending[j].ticket, k)
    decreases j, if Exact(trace[|evs|].engine) then 0 else 1
  {
    hide *;
    FirstIsStart(trace, evs);
    var w := trace[|evs|];
    var vs := TimeoutComes(trace, evs);
    var gs := NextTimeout(w);
    var n := DueCount(w.engine.pending, Us(w.engine.timer.value));
    TwoEvents(w);
    assert (trace + vs)[|evs + gs|] == vs[1];
    if j < n {
      us, fs, k := vs, gs, |w.past| + j;
      assert vs[1].past[k] == w.engine.pending[j];
      IsCalled(vs[1], w.engine.pending[j].ticket, k);
    } else {
      var us', fs';
      us', fs', k := PendingIsCalled(trace + vs, evs + gs, j - n);
      us, fs := vs + us', gs + fs';
      assert trace + vs + us' == trace + us;
      assert evs + gs + fs' == evs + fs;
    }
  }

  lemma TicketStands(w: World, ticket: nat) returns (i: nat)
    requires Sound(w) && ticket < |w.issued| && ticket !in w.dropped
    ensures if i < |w.past| then CalledAs(w, ticket, i)
            else i - |w.past| < |w.engine.pending| && w.engine.pending[i - |w.past|].ticket == ticket
  {
    assert w.batch == [] && Booked(w) && Head(w) == |w.past|;
    hide *;
    i := FindTicket(w, ticket);
    LineParts(w);
    if i < |w.past| {
      IsCalled(w, ticket, i);
    }
  }

  /** Every alarm that waits can be called: the simulator only has to go on. */
  lemma WaitingCanBeCalled(trace: seq<World>, evs: seq<Event>, ticket: nat)
    returns (us: seq<World>, fs: seq<Event>, k: nat)
    requires IsRun(trace, evs) && ticket < |trace[|evs|].issued| && ticket !in trace[|evs|].dropped
    ensures |us| == |fs| <= 2 * (|trace[|evs|].engine.pending| + 1)
    ensures IsRun(trace + us, evs + fs) && CalledAs((trace + us)[|evs| + |fs|], ticket, k)
    ensures forall f :: f in fs ==> f.Tick? || f == Fire(Silent, [])
  {
    RunKeeps(trace, evs, |evs|);
    assert |trace| == |evs| + 1;
    assert trace + [] == trace && evs + [] == evs;
    hide IsRun;
    var i := TicketStands(trace[|evs|], ticket);
    if i < |trace[|evs|].past| {
      us, fs, k := [], [], i;
    } else {
      us, fs, k := PendingIsCalled(trace, evs, i - |trace[|evs|].past|);
    }
  }

  // ---- what an alarm returns --------------------------------------------------------------------------------

  /** The world when the last call of an alarm returns, and the time it returns. */
  function LastReturn(w: World, cb: Id, script: Script): Outcome<World>
    decreases script
  {
    var w1 :- PerformAll(Called(w, cb), script.ops);
    match script
    case Quit(_, _) => Pass(w1)
    case Again(_, _, next) => LastReturn(w1, cb, next)
  }

  function Returned(script: Script): int {
    match script
    case Quit(_, ret) => ret
    case Again(_, _, next) => Returned(next)
  }

  /** Now the alarm waits beside the others, and if it did not before, then from this registration on. */
  ghost predicate Waits(w: World, cb: Id, time: int, r: World) {
    && cb in r.engine.members
    && (forall e :: e in w.engine.pending ==> e in r.engine.pending)
    && if cb in w.engine.members then r.issued == w.issued && r.engine.pending == w.engine.pending
       else
         && r.issued == w.issued + [Issue(cb, time, w.engine.now)]
         && Entry(Max(time, Us(w.engine.now)), cb, w.engine.tickets) in r.engine.pending
  }

  lemma SetWaits(w: World, cb: Id, time: int)
    requires Perform(w, Set(cb, time)).Pass?
    ensures Waits(w, cb, time, Perform(w, Set(cb, time)).value)
  {
    var s := w.engine;
    var due := Max(time, Us(s.now));
    if cb !in s.members {
      var s1 := Enter(s, due, cb);
      var i := UpperBound(s.pending, due);
      assert s1.pending[i] == Entry(due, cb, s.tickets);
      assert s.pending == s.pending[..i] + s.pending[i..];
    }
    hide UpperBound, Us;
  }

  /** An alarm that returns a later time waits for it; one that returns none is left as its calls left it. */
  lemma {:induction false} ReturnedTimeIsRegistered(w: World, cb: Id, script: Script)
    requires Rounds(w, cb, script).Pass?
    ensures LastReturn(w, cb, script).Pass?
    ensures var w1, r := LastReturn(w, cb, script).value, Rounds(w, cb, script).value;
      if Returned(script) > 0 then Waits(w1, cb, Returned(script), r) else r == w1
    decreases script
  {
    var w1 := PerformAll(Called(w, cb), script.ops).value;
    hide Perform, Waits;
    match script
    case Quit(_, ret) =>
      if ret > 0 {
        SetWaits(w1, cb, ret);
      }
    case Again(_, _, next) => ReturnedTimeIsRegistered(w1, cb, next);
  }
}
