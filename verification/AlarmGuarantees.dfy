/** What the alarm engine promises of every run. */
module AlarmGuarantees {
  import opened Alarms
  import opened AlarmInvariant
  import opened Bytes

  predicate CalledAs(w: World, ticket: nat, j: nat) { j < |w.past| && w.past[j].ticket == ticket }

  lemma CallsMatch(w: World, ticket: nat, j: nat)
    requires Sound(w) && CalledAs(w, ticket, j)
    ensures ticket < |w.issued| && ticket !in w.dropped && w.past[j].cb == w.issued[ticket].cb
    ensures j < |w.at| && Us(w.at[j]) == Due(w.issued[ticket])
  {
    assert w.Line()[j] == w.past[j];
    assert Filed(w.Line()[j], w.issued);
    assert w.Line()[j] in w.Line();
  }

  lemma CallsInOrder(w: World, a: nat, b: nat, j: nat, k: nat)
    requires Sound(w) && CalledAs(w, a, j) && CalledAs(w, b, k) && j < k
    ensures a < |w.issued| && b < |w.issued|
    ensures Due(w.issued[a]) < Due(w.issued[b]) || (Due(w.issued[a]) == Due(w.issued[b]) && a < b)
  {
    var line := w.Line();
    assert line[j] == w.past[j] && line[k] == w.past[k];
    assert Filed(line[j], w.issued) && Filed(line[k], w.issued);
    assert Before(line[j], line[k]);
  }

  /** The multimap, the set, the alarms' flags and tokens, and the timer. */
  ghost predicate Agree(s: State) {
    && Distinct(s.pending)
    && s.members == Names(s.pending) == s.registered
    && Tokens(s.pending, s.token)
    && (forall j :: 0 <= j < |s.pending| ==> s.pending[j].key >= Us(s.now))
    && (forall j, k :: 0 <= j < k < |s.pending| ==> s.pending[j].key <= s.pending[k].key)
    && (s.pending != [] ==>
          s.timer.Some? && s.now <= s.timer.value && Us(s.timer.value) <= s.pending[0].key)
  }

  lemma SoundAgrees(w: World)
    requires Sound(w)
    ensures Agree(w.engine)
  {
    assert w.batch + w.engine.pending == w.engine.pending;
    PendingSorted(w);
  }

  lemma FindTicket(w: World, ticket: nat) returns (i: nat)
    requires Booked(w) && ticket < |w.issued| && ticket !in w.dropped
    ensures i < |w.Line()| && w.Line()[i].ticket == ticket && w.Line()[i].key == Due(w.issued[ticket])
  {
    var line := w.Line();
    assert ticket in Tickets(line);
    var e :| e in line && e.ticket == ticket;
    i :| 0 <= i < |line| && line[i] == e;
    assert Filed(line[i], w.issued);
  }

  lemma PendingUnderTimer(w: World, i: nat)
    requires Sound(w) && i < |w.engine.pending|
    ensures Us(w.engine.now) <= w.engine.pending[i].key && w.engine.timer.Some?
    ensures w.engine.now <= w.engine.timer.value && Us(w.engine.timer.value) <= w.engine.pending[i].key
  {
    SoundAgrees(w);
    hide Booked, Us;
    assert i == 0 || w.engine.pending[0].key <= w.engine.pending[i].key;
  }

  /** A ticket that was not given up has been called, or is pending under a timer that is not late. */
  lemma CalledOrPending(w: World, ticket: nat)
    requires Sound(w) && ticket < |w.issued| && ticket !in w.dropped
    ensures (exists j: nat :: CalledAs(w, ticket, j)) ||
            (Us(w.engine.now) <= Due(w.issued[ticket]) && w.engine.timer.Some? &&
             w.engine.now <= w.engine.timer.value && Us(w.engine.timer.value) <= Due(w.issued[ticket]))
  {
    var i := FindTicket(w, ticket);
    LineParts(w);
    hide Booked, Us, Due;
    if i < |w.past| {
      assert CalledAs(w, ticket, i);
    } else {
      PendingUnderTimer(w, i - |w.past|);
    }
  }

  /** No alarm is early, late or called twice: a registration that was neither cancelled, rescheduled
      nor shut down is called once, in the microsecond that is the later of its deadline and the time
      of the registration, and one that was given up is not called. */
  lemma NoAlarmEarlyLateOrTwice(trace: seq<World>, evs: seq<Event>, i: nat, ticket: nat)
    requires IsRun(trace, evs) && i < |trace| && ticket < |trace[i].issued|
    ensures var w, due := trace[i], Due(trace[i].issued[ticket]);
      && (forall j: nat :: CalledAs(w, ticket, j) ==>
            ticket !in w.dropped && j < |w.at| && Us(w.at[j]) == due && w.past[j].cb == w.issued[ticket].cb)
      && (forall j: nat, k: nat :: CalledAs(w, ticket, j) && CalledAs(w, ticket, k) ==> j == k)
      && (ticket !in w.dropped && due < Us(w.engine.now) ==> exists j: nat :: CalledAs(w, ticket, j))
  {
    var w := trace[i];
    RunKeeps(trace, evs, i);
    forall j: nat | CalledAs(w, ticket, j)
      ensures ticket !in w.dropped && j < |w.at| && Us(w.at[j]) == Due(w.issued[ticket])
      ensures w.past[j].cb == w.issued[ticket].cb
    {
      CallsMatch(w, ticket, j);
    }
    forall j: nat, k: nat | CalledAs(w, ticket, j) && j < k ensures !CalledAs(w, ticket, k) {
      if CalledAs(w, ticket, k) {
        CallsInOrder(w, ticket, ticket, j, k);
      }
    }
    if ticket !in w.dropped && Due(w.issued[ticket]) < Us(w.engine.now) {
      CalledOrPending(w, ticket);
    }
  }

  /** Alarms are called by due time, and at equal times in the order they were registered. */
  lemma EqualDeadlinesInInsertionOrder(trace: seq<World>, evs: seq<Event>, i: nat,
                                       a: nat, b: nat, j: nat, k: nat)
    requires IsRun(trace, evs) && i < |trace| && CalledAs(trace[i], a, j) && CalledAs(trace[i], b, k)
    ensures a < |trace[i].issued| && b < |trace[i].issued|
    ensures j < k <==> (Due(trace[i].issued[a]) < Due(trace[i].issued[b]) ||
                        (Due(trace[i].issued[a]) == Due(trace[i].issued[b]) && a < b))
  {
    var w := trace[i];
    RunKeeps(trace, evs, i);
    CallsMatch(w, a, j);
    CallsMatch(w, b, k);
    if j < k {
      CallsInOrder(w, a, b, j, k);
    } else if k < j {
      CallsInOrder(w, b, a, k, j);
    }
  }

  /** At every event boundary the index agrees with itself and no deadline is behind the clock. */
  lemma IndexAgreement(trace: seq<World>, evs: seq<Event>, i: nat)
    requires IsRun(trace, evs) && i < |trace|
    ensures Agree(trace[i].engine)
  {
    RunKeeps(trace, evs, i);
    SoundAgrees(trace[i]);
  }

  lemma SoundPassesIff(w: World, op: Op)
    requires Sound(w)
    ensures After(w, Client(op)).Pass? <==>
            (op.Update? && op.cb in w.engine.members ==>
               |w.engine.pending| > 1 && op.deadline >= Us(w.engine.now))
  {
    assert w.batch == [] && After(w, Client(op)).Pass? == Apply(w.engine, op).Pass?;
    SoundAgrees(w);
    hide Booked, After, Apply, Us;
    ApplyPassesIff(w, op);
  }

  /** Between events every operation is accepted, except that rescheduling a registered alarm needs
      another pending alarm and a time that is not past. */
  lemma ClientPassesIff(trace: seq<World>, evs: seq<Event>, i: nat, op: Op)
    requires IsRun(trace, evs) && i < |trace|
    ensures After(trace[i], Client(op)).Pass? <==>
            (op.Update? && op.cb in trace[i].engine.members ==>
               |trace[i].engine.pending| > 1 && op.deadline >= Us(trace[i].engine.now))
  {
    RunKeeps(trace, evs, i);
    hide *;
    SoundPassesIff(trace[i], op);
  }

  // ---- history only grows ----

  ghost predicate Grows(w: World, r: World) {
    w.past <= r.past && w.at <= r.at && w.issued <= r.issued && w.dropped <= r.dropped
  }

  lemma {:induction false} PerformAllGrows(w: World, ops: seq<Op>)
    requires PerformAll(w, ops).Pass?
    ensures Grows(w, PerformAll(w, ops).value)
    decreases |ops|
  {
    if ops == [] {
    } else {
      PerformAllGrows(Perform(w, ops[0]).value, ops[1..]);
    }
  }

  lemma {:induction false} RoundsGrow(w: World, cb: Id, script: Script)
    requires Rounds(w, cb, script).Pass?
    ensures Grows(w, Rounds(w, cb, script).value)
    decreases script
  {
    PerformAllGrows(Called(w, cb), script.ops);
    if script.Quit? {
    } else {
      RoundsGrow(PerformAll(Called(w, cb), script.ops).value, cb, script.next);
    }
  }

  lemma {:induction false} CallAllGrows(w: World, script: Id -> Script)
    requires CallAll(w, script).Pass?
    ensures Grows(w, CallAll(w, script).value)
    decreases |w.batch|
  {
    if w.batch == [] {
    } else {
      RoundsGrow(Moving(w), w.batch[0].cb, script(w.batch[0].cb));
      CallAllGrows(Call(w, script(w.batch[0].cb)).value, script);
    }
  }

  lemma AfterGrows(w: World, ev: Event)
    requires After(w, ev).Pass?
    ensures Grows(w, After(w, ev).value)
  {
    if ev.Fire? {
      CallAllGrows(Pop(w), ev.script);
      if Pop(w).batch != [] {
        PerformAllGrows(CallAll(Pop(w), ev.script).value, ev.post);
      }
    }
  }

  /** A call once made stays made, so one call in the end is one call in the whole run. */
  lemma {:induction false} HistoryGrows(trace: seq<World>, evs: seq<Event>, i: nat, j: nat)
    requires IsRun(trace, evs) && i <= j < |trace|
    ensures Grows(trace[i], trace[j])
    decreases j
  {
    hide After, Enabled;
    if i == j {
    } else {
      HistoryGrows(trace, evs, i, j - 1);
      assert After(trace[j - 1], evs[j - 1]) == Pass(trace[j - 1 + 1]);
      AfterGrows(trace[j - 1], evs[j - 1]);
    }
  }

  /** The failing case at its simplest: the only pending alarm cannot be moved by its owner. */
  lemma SoleAlarmCannotMove()
    ensures var first := Client(Set(0, 10));
      var r := After(START, first);
      && r.Pass? && IsRun([START, r.value], [first])
      && After(r.value, Client(Update(0, 20))) == Abort(NothingElsePending)
  {
  }

  /** An alarm that sets itself and then asks to be called again at once. */
  function SetsItself(cb: Id): Script {
    if cb == 0 then Again([Set(0, 20)], 1, Quit([], 0)) else Quit([], 0)
  }

  lemma SelfSetterIsCalled(w: World)
    requires w.engine == State(10_000, [Entry(10, 0, 0)], {0}, {0}, map[0 := 0], Some(10_000), 1) && w.batch == []
    ensures var r := After(w, Fire(SetsItself, []));
      r.Pass? && r.value.engine.pending == [Entry(20, 0, 1)] && r.value.engine.registered == {}
  {
    var popped := Pop(w);
    assert popped.batch == [Entry(10, 0, 0)] && popped.engine.pending == [] && popped.engine.members == {};
    var called := Called(Moving(popped), 0);
    assert called.engine.registered == {} && called.batch == [];
    var during := Perform(called, Set(0, 20));
    assert during.Pass? && during.value.engine.pending == [Entry(20, 0, 1)];
    assert during.value.engine.registered == {0} && during.value.batch == [];
    assert PerformAll(called, [Set(0, 20)]) == during;
    var again := Called(during.value, 0);
    assert again.engine.registered == {};
    assert Finish(again, 0, Quit([], 0)) == Pass(again);
    assert Rounds(Moving(popped), 0, SetsItself(0)) == Pass(again);
    assert CallAll(popped, SetsItself) == Pass(again);
  }

  /** One alarm is set, and its time has come. */
  lemma FirstAlarm() returns (trace: seq<World>, evs: seq<Event>, w: World)
    ensures IsRun(trace, evs) && |trace| == 3 && trace[2] == w && w.batch == []
    ensures w.engine == State(10_000, [Entry(10, 0, 0)], {0}, {0}, map[0 := 0], Some(10_000), 1)
  {
    var w1 := After(START, Client(Set(0, 10))).value;
    assert After(START, Client(Set(0, 10))) == Pass(w1);
    assert w1.engine == State(0, [Entry(10, 0, 0)], {0}, {0}, map[0 := 0], Some(10_000), 1);
    w := After(w1, Tick(10_000)).value;
    trace, evs := [START, w1, w], [Client(Set(0, 10)), Tick(10_000)];
  }

  /** No assertion fails on it, and the index is broken: the alarm is in the multimap without knowing it. */
  lemma SelfSetterBreaksIndex() returns (trace: seq<World>, evs: seq<Event>, w: World)
    ensures IsRun(trace, evs)
    ensures var last := trace[|trace| - 1];
      && last.engine.timer == Some(last.engine.now) && (forall cb :: Fits(SetsItself(cb), Us(last.engine.now)))
      && After(last, Fire(SetsItself, [])) == Pass(w)
    ensures w.engine.pending == [Entry(20, 0, 1)] && w.engine.registered == {} && !Agree(w.engine)
  {
    var w2;
    trace, evs, w2 := FirstAlarm();
    SelfSetterIsCalled(w2);
    hide After, IsRun;
    w := After(w2, Fire(SetsItself, [])).value;
    assert Entry(20, 0, 1) in w.engine.pending;
    assert 0 in Names(w.engine.pending);
  }

  // ---- when OnTimeout passes -----------------------------------------------------------------------

  /** The guard of one operation: it leaves alone the alarms that still have to be called, and a
      registered alarm is moved only beside another one and not into the past. */
  ghost predicate Accepted(w: World, op: Op) {
    && op.cb !in Names(w.batch)
    && (op.Update? && op.cb in w.engine.registered ==>
          |w.engine.pending| > 1 && op.deadline >= Us(w.engine.now))
  }

  ghost predicate AllAccepted(w: World, ops: seq<Op>)
    decreases |ops|
  {
    ops != [] ==>
      && Accepted(w, ops[0])
      && (Perform(w, ops[0]).Pass? ==> AllAccepted(Perform(w, ops[0]).value, ops[1..]))
  }

  ghost predicate RoundsAccepted(w: World, cb: Id, script: Script)
    decreases script
  {
    var r := PerformAll(Called(w, cb), script.ops);
    && AllAccepted(Called(w, cb), script.ops)
    && (r.Pass? && script.Again? ==> RoundsAccepted(r.value, cb, script.next))
  }

  ghost predicate BatchAccepted(w: World, script: Id -> Script)
    decreases |w.batch|
  {
    w.batch != [] ==>
      var cb := w.batch[0].cb;
      && RoundsAccepted(Moving(w), cb, script(cb))
      && (Call(w, script(cb)).Pass? ==> BatchAccepted(Call(w, script(cb)).value, script))
  }

  lemma {:induction false} PerformAllPassesIff(w: World, ops: seq<Op>)
    requires Booked(w) && Armed(w.engine)
    ensures PerformAll(w, ops).Pass? <==> AllAccepted(w, ops)
    decreases |ops|
  {
    if ops == [] {
    } else {
      ApplyPassesIff(w, ops[0]);
      assert Perform(w, ops[0]).Pass? == Apply(w.engine, ops[0]).Pass?;
      hide Booked, Armed, Perform, Apply;
      if Perform(w, ops[0]).Pass? {
        PerformKeeps(w, ops[0]);
        PerformAllPassesIff(Perform(w, ops[0]).value, ops[1..]);
      }
    }
  }

  lemma {:induction false} RoundsPassIff(w: World, cb: Id, script: Script)
    requires Booked(Called(w, cb)) && Armed(w.engine) && Tidy(w, cb, script) && cb !in Names(w.batch)
    ensures Rounds(w, cb, script).Pass? <==> RoundsAccepted(w, cb, script)
    decreases script
  {
    assert Armed(Called(w, cb).engine);
    hide Booked, Armed, PerformAll, Perform, Called, AllAccepted, Names;
    PerformAllPassesIff(Called(w, cb), script.ops);
    if PerformAll(Called(w, cb), script.ops).Pass? {
      PerformAllKeeps(Called(w, cb), script.ops);
      var w1 := PerformAll(Called(w, cb), script.ops).value;
      match script
      case Quit(_, ret) => RegisterKeeps(w1, ret, cb);
      case Again(_, _, next) =>
        NotRegistered(w1, cb);
        RoundsPassIff(w1, cb, next);
    }
  }

  lemma BatchHead(w: World)
    requires Indexed(w) && w.batch != []
    ensures w.batch[0].cb !in Names(w.batch[1..])
  {
    var live := w.batch + w.engine.pending;
    forall e | e in w.batch[1..] ensures e.cb != w.batch[0].cb {
      var j :| 0 <= j < |w.batch| - 1 && w.batch[1..][j] == e;
      assert live[0] == w.batch[0] && live[j + 1] == e;
    }
  }

  lemma {:induction false} CallAllPassesIff(w: World, script: Id -> Script)
    requires Booked(w) && Armed(w.engine) && TidyAll(w, script)
    ensures CallAll(w, script).Pass? <==> BatchAccepted(w, script)
    decreases |w.batch|
  {
    if w.batch == [] {
    } else {
      var cb := w.batch[0].cb;
      MovingKeeps(w);
      BatchHead(w);
      hide Booked, Armed, Rounds, RoundsAccepted, Tidy, Names;
      RoundsPassIff(Moving(w), cb, script(cb));
      if Call(w, script(cb)).Pass? {
        RoundsKeep(Moving(w), cb, script(cb));
        CallAllPassesIff(Call(w, script(cb)).value, script);
      }
    }
  }

  /** OnTimeout fails no assertion exactly when every operation of the callbacks, and then of the
      visitor, is acceptable when it is made: nothing the engine does by itself fails. */
  lemma FirePassesIff(w: World, script: Id -> Script, post: seq<Op>)
    requires Sound(w) && Enabled(w, Fire(script, post))
    ensures OnTimeout(w, script, post).Pass? <==>
            && BatchAccepted(Pop(w), script)
            && (CallAll(Pop(w), script).Pass? && Pop(w).batch != [] ==>
                  AllAccepted(CallAll(Pop(w), script).value, post))
  {
    PopKeeps(w);
    CallAllPassesIff(Pop(w), script);
    if CallAll(Pop(w), script).Pass? {
      CallAllKeeps(Pop(w), script);
      var w1 := CallAll(Pop(w), script).value;
      PerformAllPassesIff(w1, post);
      if Pop(w).batch == [] {
        TimerArms(w1.engine);
      } else if PerformAll(w1, post).Pass? {
        PerformAllKeeps(w1, post);
        TimerArms(PerformAll(w1, post).value.engine);
      }
    }
  }
}
