/** The class Ns3QuicAlarmEngine with the fields of the BaseAlarm objects it serves. */
module AlarmEngine {
  import opened Bytes
  import opened Alarms

  lemma NothingNamed()
    ensures Names([]) == {} && Tickets([]) == {}
  {
  }

  lemma NamesSnoc(q: seq<Entry>, e: Entry)
    ensures Names(q + [e]) == Names(q) + {e.cb}
    ensures Tickets(q + [e]) == Tickets(q) + {e.ticket}
  {
    assert forall x :: x in q + [e] <==> x in q || x == e;
  }

  lemma PopParts(w: World, n: nat)
    requires w.batch == [] && n == DueCount(w.engine.pending, Us(w.engine.now))
    ensures var q := w.engine.pending;
      Pop(w) == w.(batch := q[..n], engine :=
        w.engine.(pending := q[n..], members := w.engine.members - Names(q[..n]), timer := None))
  {
    hide Names, Us, DueCount;
    assert w.batch + w.engine.pending[..n] == w.engine.pending[..n];
  }

  lemma TakeNext(all: seq<Entry>, taken: seq<Entry>, rest: seq<Entry>)
    requires |taken| < |all| && taken == all[..|taken|] && rest == all[|taken|..]
    ensures taken + [rest[0]] == all[..|taken| + 1] && rest[1..] == all[|taken| + 1..]
    ensures Names(taken + [rest[0]]) == Names(taken) + {rest[0].cb}
  {
    NamesSnoc(taken, rest[0]);
  }

  lemma CallAllStep(w: World, script: Id -> Script)
    requires w.batch != [] && CallAll(w, script).Pass?
    ensures Call(w, script(w.batch[0].cb)).Pass?
    ensures CallAll(w, script) == CallAll(Call(w, script(w.batch[0].cb)).value, script)
  {
  }

  class Ns3QuicAlarmEngine {
    var now: nat
    var alarmMap: seq<Entry>
    var allAlarms: set<Id>
    var timer: Option<nat>
    var tickets: nat
    // registered_ and token_ of every alarm
    var registered: set<Id>
    var token: map<Id, nat>
    // history
    ghost var batch: seq<Entry>
    ghost var issued: seq<Issue>
    ghost var dropped: set<nat>
    ghost var past: seq<Entry>
    ghost var at: seq<nat>

    ghost function AsState(): State
      reads this
    {
      State(now, alarmMap, allAlarms, registered, token, timer, tickets)
    }

    ghost function AsWorld(): World
      reads this
    {
      World(AsState(), batch, issued, dropped, past, at)
    }

    constructor ()
      ensures AsWorld() == START
    {
      now, alarmMap, allAlarms, timer, tickets := 0, [], {}, None, 0;
      registered, token := {}, map[];
      batch, issued, dropped, past, at := [], [], {}, [], [];
    }

    method UpdateTimer()
      requires Alarms.UpdateTimer(AsState()).Pass?
      modifies `timer
      ensures AsState() == Alarms.UpdateTimer(old(AsState())).value
    {
      if timer.Some? {
        timer := None;
      }
      if alarmMap == [] {
        return;
      }
      var next := 1000 * (alarmMap[0].key - Us(now));
      timer := Some(now + next);
    }

    method OnRegistration(cb: Id, ticket: nat)
      requires cb !in registered
      modifies `registered, `token
      ensures registered == old(registered) + {cb} && token == old(token)[cb := ticket]
    {
      token := token[cb := ticket];
      registered := registered + {cb};
    }

    method Insert(key: int, cb: Id) returns (ticket: nat)
      modifies `alarmMap, `tickets
      ensures ticket == old(tickets) && tickets == ticket + 1
      ensures alarmMap == Put(old(alarmMap), UpperBound(old(alarmMap), key), Entry(key, cb, ticket))
    {
      ticket := tickets;
      tickets := tickets + 1;
      alarmMap := Put(alarmMap, UpperBound(alarmMap, key), Entry(key, cb, ticket));
    }

    method RegisterAlarm(timeout: int, cb: Id)
      requires Register(AsState(), timeout, cb).Pass?
      modifies `alarmMap, `allAlarms, `timer, `tickets, `registered, `token
      ensures AsState() == Register(old(AsState()), timeout, cb).value
    {
      var update := false;
      var due := timeout;
      if due < Us(now) {
        due := Us(now);
      }
      if alarmMap == [] {
        update := true;
      } else if due < alarmMap[0].key {
        update := true;
      }
      if cb !in allAlarms {
        var ticket := Insert(due, cb);
        allAlarms := allAlarms + {cb};
        OnRegistration(cb, ticket);
      }
      if timer.None? || update {
        UpdateTimer();
      }
    }

    method UnregisterAlarm(ticket: nat)
      requires Unregister(AsState(), ticket).Pass?
      modifies `alarmMap, `allAlarms, `registered
      ensures AsState() == Unregister(old(AsState()), ticket).value
    {
      var i := Position(alarmMap, ticket);
      var cb := alarmMap[i].cb;
      alarmMap := Cut(alarmMap, i);
      allAlarms := allAlarms - {cb};
      registered := registered - {cb};
    }

    /** The caller stores the new token. */
    method ReregisterAlarm(ticket: nat, timeout: int) returns (ret: nat)
      requires Reregister(AsState(), ticket, timeout).Pass?
      modifies `alarmMap, `timer, `tickets
      ensures ret == old(tickets)
      ensures AsState() == Reregister(old(AsState()), ticket, timeout).value
    {
      var i := Position(alarmMap, ticket);
      var cb := alarmMap[i].cb;
      alarmMap := Cut(alarmMap, i);
      var next := alarmMap[0].key;
      ret := Insert(timeout, cb);
      assert AsState() == Moved(old(AsState()), i, timeout);
      if timer.None? || timeout < next {
        UpdateTimer();
      }
    }

    /** SetImpl, CancelImpl and UpdateImpl of an alarm. */
    method Run(op: Op)
      requires Perform(AsWorld(), op).Pass?
      modifies this
      ensures AsWorld() == Perform(old(AsWorld()), op).value
    {
      ghost var s := AsState();
      match op {
        case Set(cb, deadline) =>
          RegisterAlarm(deadline, cb);
        case Cancel(cb) =>
          if cb in registered {
            UnregisterAlarm(token[cb]);
          }
        case Update(cb, deadline) =>
          if cb in registered {
            var ret := ReregisterAlarm(token[cb], deadline);
            token := token[cb := ret];
          } else {
            RegisterAlarm(deadline, cb);
          }
      }
      dropped := dropped + GivenUp(s, op);
      if tickets != s.tickets && !op.Cancel? {
        issued := issued + [Issue(op.cb, op.deadline, now)];
      }
    }

    method RunAll(ops: seq<Op>)
      requires PerformAll(AsWorld(), ops).Pass?
      modifies this
      ensures AsWorld() == PerformAll(old(AsWorld()), ops).value
    {
      var i := 0;
      while i < |ops|
        invariant i <= |ops|
        invariant PerformAll(AsWorld(), ops[i..]) == PerformAll(old(AsWorld()), ops)
      {
        Run(ops[i]);
        i := i + 1;
      }
    }

    /** The do-while loop that calls one alarm. */
    method CallAlarm(cb: Id, script: Script)
      requires Rounds(AsWorld(), cb, script).Pass? && Fits(script, Us(now))
      modifies this
      ensures AsWorld() == Rounds(old(AsWorld()), cb, script).value
    {
      var rest := script;
      registered := registered - {cb};
      RunAll(rest.ops);
      var next := rest.ret;
      while 0 < next <= Us(now)
        invariant next == rest.ret && Fits(rest, Us(now)) && now == old(now)
        invariant Rounds(old(AsWorld()), cb, script) == Finish(AsWorld(), cb, rest)
        decreases rest
      {
        rest := rest.next;
        registered := registered - {cb};
        RunAll(rest.ops);
        next := rest.ret;
      }
      if next > 0 {
        Run(Set(cb, next));
      }
    }

    /** The first loop of OnTimeout. */
    method TakeDue() returns (cbs: seq<Id>, hasEvent: bool)
      requires batch == []
      modifies `alarmMap, `allAlarms, `timer, `batch
      ensures AsWorld() == Pop(old(AsWorld()))
      ensures |cbs| == |batch| && (forall j :: 0 <= j < |cbs| ==> cbs[j] == batch[j].cb)
      ensures hasEvent <==> batch != []
    {
      hide Names, Us, DueCount, Pop;
      NothingNamed();
      timer := None;
      cbs, hasEvent := [], false;
      ghost var all := alarmMap;
      ghost var n := DueCount(all, Us(now));
      while alarmMap != [] && alarmMap[0].key <= Us(now)
        invariant |batch| <= n && batch == all[..|batch|] && alarmMap == all[|batch|..]
        invariant |cbs| == |batch| && (forall j :: 0 <= j < |cbs| ==> cbs[j] == batch[j].cb)
        invariant hasEvent <==> batch != []
        invariant allAlarms == old(allAlarms) - Names(batch) && timer == None
        decreases |alarmMap|
      {
        var cb := alarmMap[0].cb;
        TakeNext(all, batch, alarmMap);
        batch := batch + [alarmMap[0]];
        allAlarms := allAlarms - {cb};
        cbs := cbs + [cb];
        hasEvent := true;
        alarmMap := alarmMap[1..];
      }
      assert batch == all[..n] && alarmMap == all[n..];
      PopParts(old(AsWorld()), n);
    }

    method CallFirst(cb: Id, script: Script)
      requires batch != [] && cb == batch[0].cb && Fits(script, Us(now))
      requires Call(AsWorld(), script).Pass?
      modifies this
      ensures AsWorld() == Call(old(AsWorld()), script).value
    {
      past, at, batch := past + [batch[0]], at + [now], batch[1..];
      assert AsWorld() == Moving(old(AsWorld()));
      CallAlarm(cb, script);
    }

    /** The second loop. */
    method CallBatch(cbs: seq<Id>, script: Id -> Script)
      requires |cbs| == |batch| && (forall j :: 0 <= j < |cbs| ==> cbs[j] == batch[j].cb)
      requires forall cb :: Fits(script(cb), Us(now))
      requires CallAll(AsWorld(), script).Pass?
      modifies this
      ensures AsWorld() == CallAll(old(AsWorld()), script).value
    {
      ghost var taken := batch;
      var i := 0;
      while i < |cbs|
        invariant i <= |cbs| && batch == taken[i..] && now == old(now)
        invariant CallAll(AsWorld(), script) == CallAll(old(AsWorld()), script)
      {
        CallAllStep(AsWorld(), script);
        CallFirst(cbs[i], script(cbs[i]));
        i := i + 1;
      }
    }

    method OnTimeout(script: Id -> Script, post: seq<Op>)
      requires timer == Some(now) && batch == [] && forall cb :: Fits(script(cb), Us(now))
      requires Alarms.OnTimeout(AsWorld(), script, post).Pass?
      modifies this
      ensures AsWorld() == Alarms.OnTimeout(old(AsWorld()), script, post).value
    {
      var cbs, hasEvent := TakeDue();
      CallBatch(cbs, script);
      if hasEvent {
        RunAll(post);
      }
      UpdateTimer();
    }

    method Shutdown()
      requires batch == []
      modifies this
      ensures AsWorld() == Alarms.Shutdown(old(AsWorld()))
    {
      hide Names, Tickets;
      ghost var all, k := alarmMap, 0;
      NothingNamed();
      while alarmMap != []
        invariant k <= |all| && alarmMap == all[k..]
        invariant allAlarms == old(allAlarms) - Names(all[..k])
        invariant registered == old(registered) - Names(all[..k])
        invariant dropped == old(dropped) + Tickets(all[..k])
        invariant AsWorld() == old(AsWorld()).(dropped := dropped,
          engine := old(AsState()).(pending := alarmMap, members := allAlarms, registered := registered))
        decreases |alarmMap|
      {
        var cb := alarmMap[0].cb;
        assert all[..k + 1] == all[..k] + [all[k]];
        NamesSnoc(all[..k], all[k]);
        dropped := dropped + {alarmMap[0].ticket};
        alarmMap := alarmMap[1..];
        allAlarms := allAlarms - {cb};
        registered := registered - {cb};
        k := k + 1;
      }
      assert all[..k] == all;
    }
  }
}
