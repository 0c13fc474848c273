/** The alarm engine: quic/model/ns3-quic-alarm-engine.cc. A multimap of deadlines, a set of the
    alarms in it and one simulator timer have to agree. */
module Alarms {
  import opened Arithmetic
  import opened Bytes

  type Id = nat

  /** A node of the multimap. The ticket is its identity, which is what an iterator to it keeps. */
  datatype Entry = Entry(key: int, cb: Id, ticket: nat)

  /** now is the simulator's clock in nanoseconds, and timer the time of the armed event. registered
      and token are the fields of the alarms themselves. */
  datatype State = State(now: nat, pending: seq<Entry>, members: set<Id>, registered: set<Id>,
                         token: map<Id, nat>, timer: Option<nat>, tickets: nat)

  /** The assertions of the engine, and the use of an iterator to an erased node. */
  datatype Reason = AlreadyRegistered | NothingElsePending | DeadlinePassed | TimerIdle | StaleToken

  datatype Outcome<+T> = Pass(value: T) | Abort(reason: Reason) {
    predicate IsFailure() { Abort? }

    function PropagateFailure<U>(): Outcome<U>
      requires Abort?
    {
      Abort(reason)
    }

    function Extract(): T
      requires Pass?
    {
      value
    }
  }

  /** Microseconds of a time in nanoseconds, cut off as Time::GetMicroSeconds does. */
  function Us(ns: nat): nat { ns / 1000 }

  // ---- the multimap ----

  function Put(q: seq<Entry>, i: nat, e: Entry): seq<Entry>
    requires i <= |q|
  {
    q[..i] + [e] + q[i..]
  }

  function Cut(q: seq<Entry>, i: nat): seq<Entry>
    requires i < |q|
  {
    q[..i] + q[i + 1..]
  }

  /** Where a multimap inserts: after every node whose key is not larger. */
  function UpperBound(q: seq<Entry>, key: int): (i: nat)
    ensures i <= |q|
    ensures forall j :: 0 <= j < i ==> q[j].key <= key
    ensures i < |q| ==> key < q[i].key
  {
    if q == [] || key < q[0].key then 0 else 1 + UpperBound(q[1..], key)
  }

  /** The node an iterator refers to; |q| when it has been erased. */
  function Position(q: seq<Entry>, ticket: nat): (i: nat)
    ensures i <= |q|
    ensures i < |q| ==> q[i].ticket == ticket
    ensures i == |q| ==> forall j :: 0 <= j < |q| ==> q[j].ticket != ticket
  {
    if q == [] || q[0].ticket == ticket then 0 else 1 + Position(q[1..], ticket)
  }

  /** How many nodes at the front are due. */
  function DueCount(q: seq<Entry>, time: int): (n: nat)
    ensures n <= |q|
    ensures forall j :: 0 <= j < n ==> q[j].key <= time
    ensures n < |q| ==> q[n].key > time
  {
    if q == [] || q[0].key > time then 0 else 1 + DueCount(q[1..], time)
  }

  function Names(q: seq<Entry>): set<Id> { set e | e in q :: e.cb }

  function Tickets(q: seq<Entry>): set<nat> { set e | e in q :: e.ticket }

  // ---- the engine ----

  function UpdateTimer(s: State): (r: Outcome<State>)
    ensures r.Pass? ==> r.value.now == s.now
  {
    if s.pending == [] then Pass(s.(timer := None))
    else if s.pending[0].key < Us(s.now) then Abort(DeadlinePassed)
    else Pass(s.(timer := Some(s.now + 1000 * (s.pending[0].key - Us(s.now)))))
  }

  /** Insertion of a node, with the alarm noting its token. */
  function Enter(s: State, key: int, cb: Id): State {
    s.(pending := Put(s.pending, UpperBound(s.pending, key), Entry(key, cb, s.tickets)),
       members := s.members + {cb}, registered := s.registered + {cb},
       token := s.token[cb := s.tickets], tickets := s.tickets + 1)
  }

  function Leave(s: State, i: nat): State
    requires i < |s.pending|
  {
    s.(pending := Cut(s.pending, i), members := s.members - {s.pending[i].cb},
       registered := s.registered - {s.pending[i].cb})
  }

  function Register(s: State, timeout: int, cb: Id): (r: Outcome<State>)
    ensures r.Pass? ==> r.value.now == s.now
  {
    var due := Max(timeout, Us(s.now));
    var update := s.pending == [] || due < s.pending[0].key;
    if cb !in s.members && cb in s.registered then Abort(AlreadyRegistered)
    else
      var s1 := if cb in s.members then s else Enter(s, due, cb);
      if s.timer.None? || update then UpdateTimer(s1) else Pass(s1)
  }

  function Unregister(s: State, ticket: nat): (r: Outcome<State>)
    ensures r.Pass? ==> r.value.now == s.now
  {
    var i := Position(s.pending, ticket);
    if i == |s.pending| then Abort(StaleToken) else Pass(Leave(s, i))
  }

  /** A node moves; the alarm stays in the set. */
  function Moved(s: State, i: nat, key: int): State
    requires i < |s.pending|
  {
    var rest := Cut(s.pending, i);
    s.(pending := Put(rest, UpperBound(rest, key), Entry(key, s.pending[i].cb, s.tickets)), tickets := s.tickets + 1)
  }

  function Reregister(s: State, ticket: nat, timeout: int): (r: Outcome<State>)
    ensures r.Pass? ==> r.value.now == s.now
  {
    var i := Position(s.pending, ticket);
    if i == |s.pending| then Abort(StaleToken)
    else if |s.pending| == 1 then Abort(NothingElsePending)
    else
      var s1 := Moved(s, i, timeout);
      var s2 :- if s.timer.None? || timeout < Cut(s.pending, i)[0].key then UpdateTimer(s1) else Pass(s1);
      if s2.timer.None? then Abort(TimerIdle) else Pass(s2)
  }

  /** What the owner of an alarm asks for: SetImpl, CancelImpl and UpdateImpl. After a reschedule the
      alarm takes the new token. */
  datatype Op = Set(cb: Id, deadline: int) | Cancel(cb: Id) | Update(cb: Id, deadline: int)

  function Apply(s: State, op: Op): (r: Outcome<State>)
    ensures r.Pass? ==> r.value.now == s.now
  {
    match op
    case Set(cb, deadline) => Register(s, deadline, cb)
    case Cancel(cb) =>
      if cb !in s.registered then Pass(s)
      else if cb !in s.token then Abort(StaleToken)
      else Unregister(s, s.token[cb])
    case Update(cb, deadline) =>
      if cb !in s.registered then Register(s, deadline, cb)
      else if cb !in s.token then Abort(StaleToken)
      else
        var s1 :- Reregister(s, s.token[cb], deadline);
        Pass(s1.(token := s.token[cb := s.tickets]))
  }

  // ---- the engine with its history ----

  /** A node that was inserted: for whom, the deadline asked for, and when. */
  datatype Issue = Issue(cb: Id, deadline: int, at: nat)

  /** batch holds the alarms OnTimeout has taken out and not yet called. The rest is history: issued
      by ticket, the tickets given up by a cancel, a reschedule or a shutdown, the nodes whose alarm
      was called, and when it was. */
  datatype World = World(engine: State, batch: seq<Entry>, issued: seq<Issue>, dropped: set<nat>,
                         past: seq<Entry>, at: seq<nat>)
  {
    ghost function Line(): seq<Entry> { past + batch + engine.pending }
  }

  const START: World := World(State(0, [], {}, {}, map[], None, 0), [], [], {}, [], [])

  function GivenUp(s: State, op: Op): set<nat> {
    if !op.Set? && op.cb in s.registered && op.cb in s.token then {s.token[op.cb]} else {}
  }

  function Perform(w: World, op: Op): (r: Outcome<World>)
    ensures r.Pass? ==> r.value.batch == w.batch && r.value.engine.now == w.engine.now
  {
    var s :- Apply(w.engine, op);
    Pass(w.(engine := s, dropped := w.dropped + GivenUp(w.engine, op),
            issued := if s.tickets == w.engine.tickets || op.Cancel? then w.issued
                      else w.issued + [Issue(op.cb, op.deadline, w.engine.now)]))
  }

  function PerformAll(w: World, ops: seq<Op>): (r: Outcome<World>)
    ensures r.Pass? ==> r.value.batch == w.batch && r.value.engine.now == w.engine.now
    decreases |ops|
  {
    if ops == [] then Pass(w) else
      var w1 :- Perform(w, ops[0]);
      PerformAll(w1, ops[1..])
  }

  /** What an alarm does when it is called: its operations on alarms and the time it returns. A time
      that is already due makes the engine call it again. */
  datatype Script = Quit(ops: seq<Op>, ret: int) | Again(ops: seq<Op>, ret: int, next: Script)

  predicate Fits(script: Script, time: nat) {
    match script
    case Quit(_, ret) => ret <= 0 || ret > time
    case Again(_, ret, next) => 0 < ret <= time && Fits(next, time)
  }

  /** OnAlarm marks the alarm as unregistered. */
  function Called(w: World, cb: Id): World {
    w.(engine := w.engine.(registered := w.engine.registered - {cb}))
  }

  /** The calls of one alarm. */
  function Rounds(w: World, cb: Id, script: Script): (r: Outcome<World>)
    ensures r.Pass? ==> r.value.batch == w.batch && r.value.engine.now == w.engine.now
    decreases script, 1
  {
    var w1 :- PerformAll(Called(w, cb), script.ops);
    Finish(w1, cb, script)
  }

  /** What the engine does with the time that a call returned. */
  function Finish(w: World, cb: Id, script: Script): (r: Outcome<World>)
    ensures r.Pass? ==> r.value.batch == w.batch && r.value.engine.now == w.engine.now
    decreases script, 0
  {
    match script
    case Quit(_, ret) => if ret > 0 then Perform(w, Set(cb, ret)) else Pass(w)
    case Again(_, _, next) => Rounds(w, cb, next)
  }

  /** The first of the batch becomes the last of the past. */
  function Moving(w: World): World
    requires w.batch != []
  {
    w.(batch := w.batch[1..], past := w.past + [w.batch[0]], at := w.at + [w.engine.now])
  }

  /** The first alarm of the batch is called. */
  function Call(w: World, script: Script): (r: Outcome<World>)
    requires w.batch != []
    ensures r.Pass? ==> r.value.batch == w.batch[1..] && r.value.engine.now == w.engine.now
  {
    Rounds(Moving(w), w.batch[0].cb, script)
  }

  function CallAll(w: World, script: Id -> Script): (r: Outcome<World>)
    ensures r.Pass? ==> r.value.batch == []
    decreases |w.batch|
  {
    if w.batch == [] then Pass(w) else
      var w1 :- Call(w, script(w.batch[0].cb));
      CallAll(w1, script)
  }

  /** An alarm that wants to be called again at once has not registered itself by then: the second call
      would clear the flag of an alarm that is in the multimap. */
  ghost predicate Tidy(w: World, cb: Id, script: Script)
    decreases script
  {
    var r := PerformAll(Called(w, cb), script.ops);
    r.Pass? && script.Again? ==> cb !in r.value.engine.registered && Tidy(r.value, cb, script.next)
  }

  ghost predicate TidyAll(w: World, script: Id -> Script)
    decreases |w.batch|
  {
    w.batch != [] ==>
      var cb := w.batch[0].cb;
      && Tidy(Moving(w), cb, script(cb))
      && (Call(w, script(cb)).Pass? ==> TidyAll(Call(w, script(cb)).value, script))
  }

  /** Everything due moves into the batch. The timer has expired. */
  function Pop(w: World): World {
    var s := w.engine;
    var n := DueCount(s.pending, Us(s.now));
    w.(batch := w.batch + s.pending[..n],
       engine := s.(pending := s.pending[n..], members := s.members - Names(s.pending[..n]), timer := None))
  }

  function Rearm(w: World): Outcome<World> {
    var s :- UpdateTimer(w.engine);
    Pass(w.(engine := s))
  }

  /** OnTimeout. post is what the visitor does in PostProcessing. */
  function OnTimeout(w: World, script: Id -> Script, post: seq<Op>): Outcome<World> {
    var popped := Pop(w);
    var w1 :- CallAll(popped, script);
    var w2 :- if popped.batch == [] then Pass(w1) else PerformAll(w1, post);
    Rearm(w2)
  }

  function Shutdown(w: World): World {
    var s := w.engine;
    w.(engine := s.(pending := [], members := s.members - Names(s.pending),
                    registered := s.registered - Names(s.pending)),
       dropped := w.dropped + Tickets(s.pending))
  }

  datatype Event = Tick(to: nat) | Client(op: Op) | Fire(script: Id -> Script, post: seq<Op>) | Close

  /** The simulator does not step over the armed timer, and fires it at its time. */
  ghost predicate Enabled(w: World, ev: Event) {
    match ev
    case Tick(to) => w.engine.now <= to && (w.engine.timer.Some? ==> to <= w.engine.timer.value)
    case Client(_) => true
    case Fire(script, _) =>
      && w.engine.timer == Some(w.engine.now)
      && (forall cb :: Fits(script(cb), Us(w.engine.now)))
      && TidyAll(Pop(w), script)
    case Close => true
  }

  function After(w: World, ev: Event): Outcome<World> {
    match ev
    case Tick(to) => Pass(w.(engine := w.engine.(now := to)))
    case Client(op) => Perform(w, op)
    case Fire(script, post) => OnTimeout(w, script, post)
    case Close => Pass(Shutdown(w))
  }

  /** A run of the simulator in which no assertion of the engine fails. */
  ghost predicate IsRun(trace: seq<World>, evs: seq<Event>) {
    && |trace| == |evs| + 1
    && trace[0] == START
    && forall i :: 0 <= i < |evs| ==> Enabled(trace[i], evs[i]) && After(trace[i], evs[i]) == Pass(trace[i + 1])
  }
}
