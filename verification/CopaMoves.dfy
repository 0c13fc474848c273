/** When a Copa sender can still move its window, given feedback it can receive:
    quic/model/cc-algo/copa_sender.cc:145-294. */
module CopaMoves {
  import opened Arithmetic
  import opened Bytes
  import opened Copa
  import opened CopaFeedback
  import opened CopaVelocity
  import opened Segments

  /** fs and ts continue the run es, ss with events that can happen. */
  ghost predicate Continues(initial: nat, es: seq<Event>, ss: seq<State>, fs: seq<Event>, ts: seq<State>) {
    |fs| == |ts| && IsRun(initial, es + fs, ss + ts) && Receivable(es + fs)
  }

  lemma ContinuesMeans(initial: nat, es: seq<Event>, ss: seq<State>, fs: seq<Event>, ts: seq<State>)
    requires Continues(initial, es, ss, fs, ts)
    ensures |fs| == |ts| && IsRun(initial, es + fs, ss + ts) && Receivable(es + fs)
  {
  }

  lemma ContinuesOne(initial: nat, es: seq<Event>, ss: seq<State>, fs: seq<Event>, ts: seq<State>, e: Event, s: State)
    requires |ss| == |es| + 1 && |fs| == |ts| && Continues(initial, es, ss, fs, ts)
    requires CanCome(es + fs, e) && !e.Resize?
    requires (ss + ts)[|es| + |fs|].cwnd > 0 && Step((ss + ts)[|es| + |fs|], e) == Goes(s)
    ensures Continues(initial, es, ss, fs + [e], ts + [s])
  {
    hide IsRun, Receivable, CanCome, Step;
    assert es + fs + [e] == es + (fs + [e]);
    assert ss + ts + [s] == ss + (ts + [s]);
    RunExtends(initial, es + fs, ss + ts, e, s);
    OneMore(es + fs, e);
  }

  /** The feedback moves the window, or overflows it. */
  ghost predicate Shakes(s: State, e: Event) {
    e.Feedback? && s.cwnd > 0 && !(Step(s, e).Goes? && Step(s, e).state.cwnd == s.cwnd)
  }

  ghost predicate Moves(initial: nat, es: seq<Event>, ss: seq<State>, fs: seq<Event>, ts: seq<State>, e: Event) {
    |ss| == |es| + 1 && Continues(initial, es, ss, fs, ts) && CanCome(es + fs, e) && Shakes((ss + ts)[|es| + |fs|], e)
  }

  /** Some feedback, now or later, moves the window. */
  ghost predicate CanMove(initial: nat, es: seq<Event>, ss: seq<State>) {
    exists fs, ts, e :: Moves(initial, es, ss, fs, ts, e)
  }

  lemma MovesNow(initial: nat, es: seq<Event>, ss: seq<State>, e: Event)
    requires IsRun(initial, es, ss) && Receivable(es) && CanCome(es, e) && Shakes(ss[|es|], e)
    ensures CanMove(initial, es, ss)
  {
    assert es + [] == es && ss + [] == ss;
    hide IsRun, Receivable, CanCome, Shakes;
    assert Moves(initial, es, ss, [], [], e);
  }

  lemma MovesLater(initial: nat, es: seq<Event>, ss: seq<State>, fs: seq<Event>, ts: seq<State>)
    requires |ss| == |es| + 1 && CanMove(initial, es + fs, ss + ts)
    ensures CanMove(initial, es, ss)
  {
    hide IsRun, Receivable, CanCome, Shakes;
    var gs, us, e :| Moves(initial, es + fs, ss + ts, gs, us, e);
    assert es + fs + gs == es + (fs + gs);
    assert ss + ts + us == ss + (ts + us);
    assert Moves(initial, es, ss, fs + gs, ts + us, e);
  }

  // ---- events that can always come ---------------------------------------------------------------------

  /** A time that is not before any event, and a number above all packets sent. */
  function Clock(es: seq<Event>): (c: nat)
    ensures forall j :: 0 <= j < |es| ==> At(es[j]) <= c
  {
    if es == [] then 0 else Max(Clock(es[..|es| - 1]), At(es[|es| - 1]))
  }

  function NextPacket(es: seq<Event>): (p: nat)
    ensures forall j :: 0 <= j < |es| && es[j].Send? ==> es[j].packet < p
  {
    if es == [] then 0
    else
      var rest := NextPacket(es[..|es| - 1]);
      if es[|es| - 1].Send? then Max(rest, es[|es| - 1].packet + 1) else rest
  }

  /** Only what was sent has been reported. */
  lemma NewIsUnreported(es: seq<Event>, packet: nat)
    requires Receivable(es) && packet >= NextPacket(es)
    ensures !Reported(es, packet)
  {
    forall j | 0 <= j < |es| && es[j].Feedback?
      ensures packet !in es[j].acked + es[j].lost
    {
      NthCame(es, j);
    }
  }

  function Numbers(p: nat, n: nat): (ps: seq<nat>)
    ensures |ps| == n && forall i :: 0 <= i < n ==> ps[i] == p + i
  {
    seq(n, i requires 0 <= i < n => p + i)
  }

  function Sends(p: nat, n: nat, at: nat): (es: seq<Event>)
    ensures |es| == n && forall i :: 0 <= i < n ==> es[i] == Send(p + i, at)
  {
    seq(n, i requires 0 <= i < n => Send(p + i, at))
  }

  function Sents(s: State, p: nat, n: nat): (ss: seq<State>)
    ensures |ss| == n && forall i :: 0 <= i < n ==> ss[i] == s.(largestSent := Some(p + i))
  {
    seq(n, i requires 0 <= i < n => s.(largestSent := Some(p + i)))
  }

  lemma SendComes(es: seq<Event>, p: nat, n: nat, at: nat)
    requires NotBefore(es, at) && p == NextPacket(es)
    ensures CanCome(es + Sends(p, n, at), Send(p + n, at))
  {
    var fs := es + Sends(p, n, at);
    forall j | 0 <= j < |fs|
      ensures At(fs[j]) <= at && (fs[j].Send? ==> fs[j].packet < p + n)
    {
      if j < |es| {
        assert fs[j] == es[j];
      }
    }
  }

  lemma SendsGrow(s: State, p: nat, n: nat, at: nat)
    ensures Sends(p, n + 1, at) == Sends(p, n, at) + [Send(p + n, at)]
    ensures Sents(s, p, n + 1) == Sents(s, p, n) + [s.(largestSent := Some(p + n))]
  {
  }

  lemma LastSent(es: seq<Event>, ss: seq<State>, p: nat, n: nat, at: nat)
    requires |ss| == |es| + 1 && ss[|es|].cwnd > 0
    ensures var s := (ss + Sents(ss[|es|], p, n))[|es| + n];
      s.cwnd > 0 && Step(s, Send(p + n, at)) == Goes(ss[|es|].(largestSent := Some(p + n)))
  {
  }

  lemma ContinuesNot(initial: nat, es: seq<Event>, ss: seq<State>, p: nat, at: nat)
    requires IsRun(initial, es, ss) && Receivable(es)
    ensures |ss| == |es| + 1 && Continues(initial, es, ss, Sends(p, 0, at), Sents(ss[|es|], p, 0))
  {
    assert |ss| == |es| + 1;
    hide IsRun, Receivable;
    assert es + Sends(p, 0, at) == es && ss + Sents(ss[|es|], p, 0) == ss;
  }

  /** Any number of packets can be sent at any later time. */
  lemma {:induction false} SendMany(initial: nat, es: seq<Event>, ss: seq<State>, p: nat, n: nat, at: nat)
    requires IsRun(initial, es, ss) && Receivable(es) && NotBefore(es, at) && p == NextPacket(es) && ss[|es|].cwnd > 0
    ensures |ss| == |es| + 1 && Continues(initial, es, ss, Sends(p, n, at), Sents(ss[|es|], p, n))
    decreases n
  {
    hide *;
    ContinuesNot(initial, es, ss, p, at);
    if n == 0 {
    } else {
      SendMany(initial, es, ss, p, n - 1, at);
      SendComes(es, p, n - 1, at);
      LastSent(es, ss, p, n - 1, at);
      SendsGrow(ss[|es|], p, n - 1, at);
      ContinuesOne(initial, es, ss, Sends(p, n - 1, at), Sents(ss[|es|], p, n - 1), Send(p + n - 1, at),
                   ss[|es|].(largestSent := Some(p + n - 1)));
    }
  }

  lemma {:induction false} SendsTakeNoSample(es: seq<Event>, p: nat, n: nat, at: nat)
    ensures LastTiming(es + Sends(p, n, at)) == LastTiming(es)
    decreases n
  {
    if n == 0 {
      assert es + Sends(p, 0, at) == es;
    } else {
      SendsTakeNoSample(es, p, n - 1, at);
      var fs := es + Sends(p, n, at);
      assert fs[..|fs| - 1] == es + Sends(p, n - 1, at);
    }
  }

  lemma NewReports(es: seq<Event>, p: nat, n: nat, at: nat)
    requires Receivable(es) && p == NextPacket(es) && n > 0
    ensures FirstReport(es + Sends(p, n, at), Numbers(p, n))
  {
    var fs := es + Sends(p, n, at);
    forall q | q in Numbers(p, n)
      ensures WasSent(fs, q) && !Reported(fs, q)
    {
      assert fs[|es| + (q - p)] == Send(q, at);
      NewIsUnreported(es, q);
      forall j | 0 <= j < |fs| && fs[j].Feedback?
        ensures q !in fs[j].acked + fs[j].lost
      {
        assert fs[j] == es[j];
      }
    }
  }

  lemma NewSentAgo(es: seq<Event>, p: nat, n: nat, at: nat, now: nat, ago: nat)
    requires n > 0 && at + ago <= now
    ensures SentAgo(es + Sends(p, n, at), Numbers(p, n), now, ago)
  {
    assert (es + Sends(p, n, at))[|es|] == Send(p, at);
    assert Numbers(p, n)[0] == p;
  }

  /** A sample that is alone in both windows is the answer of both filters. */
  lemma AloneAnswers(es: seq<Event>, e: Event, since: nat)
    requires e.Feedback? && e.t.lowest == e.t.standing == e.t.latest
    requires forall j :: 0 <= j < |es| && es[j].Feedback? ==> es[j].t.now <= since
    requires since + MIN_RTT_WINDOW < e.t.now && since + e.t.smoothed < e.t.now
    ensures FiltersAnswer(es + [e], e.t)
  {
    assert (es + [e])[|es|] == e;
  }

  // ---- what they do to the sender ----------------------------------------------------------------------

  /** After a pause, a loss is reported before anything else. */
  function AfterPause(now: nat, was: Timing): Timing {
    Timing(now, was.latest, was.smoothed, was.latest, was.latest)
  }

  /** The next feedback without queueing delay after a round trip moves the window. */
  ghost predicate Ready(s: State) {
    if s.slowStart then s.lastDouble > 0
    else
      && s.v.recordTime > 0 && s.v.recordedCwnd == s.cwnd
      && (s.v.direction == Up || s.v.velocity == 1)
  }

  lemma NoStepForNone(velocity: nat, cwnd: nat)
    requires cwnd > 0
    ensures StepSize(0, velocity, cwnd) == 0
  {
    assert 0 * MSS * MSS * velocity == 0;
  }

  /** Below 66 the velocity is not zero. */
  lemma PositiveVelocity(same: nat)
    requires same < 66
    ensures VelocityAfter(same) > 0
  {
    if same >= 3 {
      VelocityLawIff(same);
    }
  }

  lemma PauseRecords(s: State, t: Timing)
    requires s.v.velocity == VelocityAfter(s.v.same) && s.v.same <= 64 && s.v.recordTime + t.smoothed < t.now
    ensures var s' := UpdateDirection(s, t.now, t.smoothed);
      && s'.v.recordTime == t.now && s'.v.recordedCwnd == s.cwnd && s'.v.velocity > 0 && s' == s.(v := s'.v)
  {
    UpdateKeeps(s, t.now, t.smoothed);
    PositiveVelocity(UpdateDirection(s, t.now, t.smoothed).v.same);
    hide VelocityAfter;
  }

  lemma PauseMakesReady(s: State, lost: seq<nat>, t: Timing)
    requires Steady(s) && s.v.same <= 64
    requires 0 < t.lowest == t.latest == t.standing
    requires s.v.recordTime + t.smoothed < t.now && s.lastDouble + t.smoothed < t.now
    ensures var e := Feedback([], lost, t);
      Shakes(s, e) || (Step(s, e).Goes? &&
                       var s' := Step(s, e).state;
                       Ready(s') && s'.cwnd == s.cwnd && s'.v.recordTime <= t.now && s'.lastDouble <= t.now)
  {
    LostAllOnlyMarks(s, lost);
    var s1 := LostAll(s, lost);
    PauseRecords(s1, t);
    var s2 := UpdateDirection(s1, t.now, t.smoothed);
    NoStepForNone(s2.v.velocity, s.cwnd);
    NoStepForNone(1, s.cwnd);
    assert Increases(s.cwnd, t);
    hide StepSize, UpdateDirection, LostAll, VelocityAfter, Increases;
  }

  /** How many packets have to be acknowledged to move the window at a velocity of one. */
  function Enough(cwnd: nat): (n: nat)
    ensures n > 0
  {
    cwnd / (2 * MSS * MSS) + 1
  }

  lemma EnoughMoves(cwnd: nat)
    requires 0 < cwnd < WORD
    ensures StepSize(Enough(cwnd), 1, cwnd) > 0
  {
    var n := Enough(cwnd);
    var product := n * MSS * MSS * 1;
    assert cwnd <= 2 * product && product < WORD;
    assert StepSize(n, 1, cwnd) == 2 * product / cwnd;
    hide StepSize;
    QuotientAtLeast(2 * product, cwnd, 1);
  }

  /** A ready window grows, doubles or overflows. */
  lemma ReadyMoves(s: State, acked: seq<nat>, t: Timing)
    requires MIN_WINDOW <= s.cwnd < WORD && Ready(s) && |acked| == Enough(s.cwnd)
    requires 0 < t.lowest == t.latest == t.standing
    requires s.v.recordTime + t.smoothed < t.now && s.lastDouble + t.smoothed < t.now
    ensures Shakes(s, Feedback(acked, [], t))
  {
    EnoughMoves(s.cwnd);
    assert Increases(s.cwnd, t);
    assert LostAll(s, []) == s;
    hide StepSize, Increases, TopOf, LostAll, Enough;
  }

  /** Enough time after everything so far. */
  function Late(es: seq<Event>, s: State, was: Timing): nat {
    Clock(es) + s.lastDouble + s.v.recordTime + was.latest + was.smoothed + MIN_RTT_WINDOW + 1
  }

  /** A loss reported after a pause can be received. */
  lemma PauseComes(es: seq<Event>, p: nat, at: nat, now: nat)
    requires Receivable(es) && LastTiming(es).Some? && p == NextPacket(es) && Clock(es) <= at <= now
    requires Clock(es) + MIN_RTT_WINDOW + LastTiming(es).value.smoothed < now
    ensures CanCome(es + Sends(p, 1, at), Feedback([], Numbers(p, 1), AfterPause(now, LastTiming(es).value)))
  {
    var fs := es + Sends(p, 1, at);
    var e := Feedback([], Numbers(p, 1), AfterPause(now, LastTiming(es).value));
    SendsTakeNoSample(es, p, 1, at);
    NewReports(es, p, 1, at);
    assert [] + Numbers(p, 1) == Numbers(p, 1);
    forall j | 0 <= j < |fs|
      ensures At(fs[j]) <= now && (fs[j].Feedback? ==> fs[j].t.now <= Clock(es))
    {
      if j < |es| {
        assert fs[j] == es[j];
      }
    }
    AloneAnswers(fs, e, Clock(es));
    hide FirstReport, FiltersAnswer, Sampled, LastTiming;
  }

  function Average(was: nat, sample: nat): (s: nat)
    ensures Averaged(was, sample, s) && s <= was + sample
  {
    (7 * was + sample) / 8
  }

  /** An acknowledgement of new packets, as quick as the last one. */
  function QuickAck(p: nat, n: nat, at: nat, was: Timing): Event {
    Feedback(Numbers(p, n), [],
             Timing(at + was.latest, was.latest, Average(was.smoothed, was.latest), was.latest, was.latest))
  }

  lemma QuickSample(es: seq<Event>, p: nat, n: nat, at: nat)
    requires Receivable(es) && LastTiming(es).Some? && n > 0
    ensures var e := QuickAck(p, n, at, LastTiming(es).value); Sampled(es + Sends(p, n, at), e.acked, e.t)
  {
    var was := LastTiming(es).value;
    SendsTakeNoSample(es, p, n, at);
    NewSentAgo(es, p, n, at, at + was.latest, was.latest);
    var i := LastTimingIs(es);
    SamplesArePositive(es, i);
    hide LastTiming, SentAgo, Receivable;
  }

  /** It can be received after a pause. */
  lemma QuickAckComes(es: seq<Event>, p: nat, n: nat, at: nat)
    requires Receivable(es) && LastTiming(es).Some? && p == NextPacket(es) && n > 0
    requires Clock(es) + MIN_RTT_WINDOW + LastTiming(es).value.smoothed + LastTiming(es).value.latest < at
    ensures CanCome(es + Sends(p, n, at), QuickAck(p, n, at, LastTiming(es).value))
  {
    hide FirstReport, FiltersAnswer, Sampled, LastTiming, Receivable;
    var fs, e := es + Sends(p, n, at), QuickAck(p, n, at, LastTiming(es).value);
    NewReports(es, p, n, at);
    QuickSample(es, p, n, at);
    assert e.acked + e.lost == Numbers(p, n);
    forall j | 0 <= j < |fs|
      ensures At(fs[j]) <= e.t.now && (fs[j].Feedback? ==> fs[j].t.now <= Clock(es))
    {
      if j < |es| {
        assert fs[j] == es[j];
      }
    }
    AloneAnswers(fs, e, Clock(es));
  }

  /** The first feedback of all: a packet acknowledged within a microsecond. */
  function FirstAck(p: nat, at: nat): Event {
    Feedback(Numbers(p, 1), [], Timing(at + 1, 1, 1, 1, 1))
  }

  lemma {:induction false} NoTimingNoFeedback(es: seq<Event>, j: nat)
    requires LastTiming(es).None? && j < |es|
    ensures !es[j].Feedback?
    decreases |es|
  {
    if j < |es| - 1 {
      NoTimingNoFeedback(es[..|es| - 1], j);
    } else {
      assert j == |es| - 1;
    }
  }

  lemma FirstAckComes(es: seq<Event>, p: nat, at: nat)
    requires Receivable(es) && LastTiming(es).None? && p == NextPacket(es) && Clock(es) <= at
    ensures CanCome(es + Sends(p, 1, at), FirstAck(p, at))
  {
    hide FirstReport, LastTiming, SentAgo, Receivable;
    var fs, e := es + Sends(p, 1, at), FirstAck(p, at);
    SendsTakeNoSample(es, p, 1, at);
    NewReports(es, p, 1, at);
    NewSentAgo(es, p, 1, at, at + 1, 1);
    assert e.acked + e.lost == Numbers(p, 1);
    forall j | 0 <= j < |fs|
      ensures At(fs[j]) <= at && !fs[j].Feedback?
    {
      if j < |es| {
        assert fs[j] == es[j];
        NoTimingNoFeedback(es, j);
      }
    }
    assert (fs + [e])[|fs|] == e;
  }

  // ---- below 65 ----------------------------------------------------------------------------------------

  /** The run with a packet sent and then the event e, which leaves the window alone. */
  lemma Extended(initial: nat, es: seq<Event>, ss: seq<State>, p: nat, n: nat, at: nat, e: Event)
    returns (fs: seq<Event>, ts: seq<State>)
    requires IsRun(initial, es, ss) && Receivable(es) && NotBefore(es, at) && p == NextPacket(es) && ss[|es|].cwnd > 0
    requires n > 0 && e.Feedback? && CanCome(es + Sends(p, n, at), e)
    ensures var s := ss[|es|].(largestSent := Some(p + n - 1));
      if Shakes(s, e) then CanMove(initial, es, ss)
      else
        && Continues(initial, es, ss, fs, ts) && Step(s, e).Goes?
        && fs == Sends(p, n, at) + [e] && (ss + ts)[|es| + |fs|] == Step(s, e).state
  {
    var gs, us := Sends(p, n, at), Sents(ss[|es|], p, n);
    SendMany(initial, es, ss, p, n, at);
    var s := (ss + us)[|es| + n];
    assert s == ss[|es|].(largestSent := Some(p + n - 1));
    fs, ts := gs, us;
    hide IsRun, Receivable, CanCome, Step;
    if Shakes(s, e) {
      MovesNow(initial, es + gs, ss + us, e);
      MovesLater(initial, es, ss, gs, us);
    } else {
      fs, ts := gs + [e], us + [Step(s, e).state];
      ContinuesOne(initial, es, ss, gs, us, e, Step(s, e).state);
    }
  }

  // ---- below 65 ----------------------------------------------------------------------------------------

  lemma LastIsPositive(es: seq<Event>)
    requires Receivable(es) && LastTiming(es).Some?
    ensures LastTiming(es).value.latest > 0
  {
    var i := LastTimingIs(es);
    SamplesArePositive(es, i);
  }

  lemma LastOf(es: seq<Event>, gs: seq<Event>, e: Event)
    requires e.Feedback?
    ensures LastTiming(es + (gs + [e])) == Some(e.t)
  {
    assert (es + (gs + [e]))[|es| + |gs|] == e;
  }

  lemma NotBeforeClock(es: seq<Event>, at: nat)
    requires Clock(es) <= at
    ensures NotBefore(es, at)
  {
  }

  /** A loss reported after a pause, then acknowledgements of half a window. */
  lemma ReadyCanMove(initial: nat, es: seq<Event>, ss: seq<State>)
    requires IsRun(initial, es, ss) && Receivable(es) && LastTiming(es).Some? && Ready(ss[|es|])
    ensures CanMove(initial, es, ss)
  {
    RunKeeps(initial, es, ss, |es|);
    hide Average, Enough, Shakes, Receivable, LastTiming, IsRun, Sends, Numbers;
    var s, was := ss[|es|], LastTiming(es).value;
    var p, n, at := NextPacket(es), Enough(s.cwnd), Late(es, s, was);
    var e := QuickAck(p, n, at, was);
    assert MIN_WINDOW <= s.cwnd < WORD && at > Clock(es);
    LastIsPositive(es);
    NotBeforeClock(es, at);
    QuickAckComes(es, p, n, at);
    ReadyMoves(s.(largestSent := Some(p + n - 1)), e.acked, e.t);
    hide *;
    var fs, ts := Extended(initial, es, ss, p, n, at, e);
  }

  lemma LastState(initial: nat, es: seq<Event>, ss: seq<State>)
    requires IsRun(initial, es, ss)
    ensures |ss| == |es| + 1 && Steady(ss[|es|]) && ss[|es|].cwnd > 0
  {
    RunKeeps(initial, es, ss, |es|);
  }

  /** The loss of a new packet, reported after a pause. */
  function LossAfterPause(es: seq<Event>, s: State): (e: Event)
    requires LastTiming(es).Some?
    ensures e.Feedback?
  {
    Feedback([], Numbers(NextPacket(es), 1), AfterPause(Late(es, s, LastTiming(es).value), LastTiming(es).value))
  }

  lemma PauseWorks(es: seq<Event>, s: State, s1: State)
    requires Receivable(es) && LastTiming(es).Some? && Steady(s) && s.v.same <= 64
    requires s1 == s.(largestSent := Some(NextPacket(es)))
    ensures var e := LossAfterPause(es, s);
      && CanCome(es + Sends(NextPacket(es), 1, Clock(es)), e)
      && (Shakes(s1, e) || (Step(s1, e).Goes? && Ready(Step(s1, e).state)))
  {
    hide Shakes, Ready, Receivable, LastTiming, Sends, Numbers, VelocityAfter, CanCome, Step;
    var was := LastTiming(es).value;
    LastIsPositive(es);
    PauseComes(es, NextPacket(es), Clock(es), Late(es, s, was));
    PauseMakesReady(s1, Numbers(NextPacket(es), 1), LossAfterPause(es, s).t);
  }

  lemma PauseCanMove(initial: nat, es: seq<Event>, ss: seq<State>)
    requires IsRun(initial, es, ss) && Receivable(es) && LastTiming(es).Some? && ss[|es|].v.same <= 64
    ensures CanMove(initial, es, ss)
  {
    hide *;
    LastState(initial, es, ss);
    var s, p, at := ss[|es|], NextPacket(es), Clock(es);
    var e, s1 := LossAfterPause(es, s), s.(largestSent := Some(p + 1 - 1));
    NotBeforeClock(es, at);
    PauseWorks(es, s, s1);
    var fs, ts := Extended(initial, es, ss, p, 1, at, e);
    if !Shakes(s1, e) {
      LastOf(es, Sends(p, 1, at), e);
      ContinuesMeans(initial, es, ss, fs, ts);
      ReadyCanMove(initial, es + fs, ss + ts);
      MovesLater(initial, es, ss, fs, ts);
    }
  }

  /** Slow start is over only once there has been feedback. */
  lemma {:induction false} StartsSlowly(initial: nat, es: seq<Event>, ss: seq<State>, i: nat)
    requires IsRun(initial, es, ss) && i <= |es| && LastTiming(es[..i]).None?
    ensures ss[i].slowStart
    decreases i
  {
    if i == 0 {
    } else {
      assert es[..i][..i - 1] == es[..i - 1] && es[..i][i - 1] == es[i - 1];
      assert Step(ss[i - 1], es[i - 1]) == Goes(ss[i - 1 + 1]);
      StartsSlowly(initial, es, ss, i - 1);
    }
  }

  lemma FirstAckStarts(s: State, e: Event)
    requires Steady(s) && s.slowStart && e.Feedback? && e.lost == [] && 0 < e.t.lowest == e.t.latest && e.t.standing > 0
    ensures Step(s, e).Goes? ==> Step(s, e).state.v.same == 0
  {
    assert LostAll(s, []) == s;
    hide LostAll, TopOf, StepSize, VelocityAfter;
  }

  /** A sender whose counter is at most 64 can still move its window. */
  lemma LowCounterCanMove(initial: nat, es: seq<Event>, ss: seq<State>)
    requires IsRun(initial, es, ss) && Receivable(es) && ss[|es|].v.same <= 64
    ensures CanMove(initial, es, ss)
  {
    if LastTiming(es).Some? {
      PauseCanMove(initial, es, ss);
    } else {
      assert es[..|es|] == es;
      StartsSlowly(initial, es, ss, |es|);
      RunKeeps(initial, es, ss, |es|);
      var s, p, at := ss[|es|].(largestSent := Some(NextPacket(es) + 1 - 1)), NextPacket(es), Clock(es);
      var e := FirstAck(p, at);
      NotBeforeClock(es, at);
      FirstAckComes(es, p, at);
      FirstAckStarts(s, e);
      assert s.cwnd > 0;
      hide *;
      var fs, ts := Extended(initial, es, ss, p, 1, at, e);
      if !Shakes(s, e) {
        LastOf(es, Sends(p, 1, at), e);
        ContinuesMeans(initial, es, ss, fs, ts);
        PauseCanMove(initial, es + fs, ss + ts);
        MovesLater(initial, es, ss, fs, ts);
      }
    }
  }

  // ---- at 65 -------------------------------------------------------------------------------------------

  /** Feedback that asks for growth before the next record is due, at a counter of 65. */
  ghost predicate Turns(s: State, e: Event) {
    && e.Feedback? && s.v.same == 65 && !Due(s, e.t)
    && e.t.lowest <= e.t.latest && e.t.standing > 0 && Increases(s.cwnd, e.t)
  }

  ghost predicate Rescues(initial: nat, es: seq<Event>, ss: seq<State>, fs: seq<Event>, ts: seq<State>, e: Event) {
    |ss| == |es| + 1 && Continues(initial, es, ss, fs, ts) && CanCome(es + fs, e) && Turns((ss + ts)[|es| + |fs|], e)
  }

  /** Such feedback can still come while the counter is 65. */
  ghost predicate Rescued(initial: nat, es: seq<Event>, ss: seq<State>) {
    exists fs, ts, e :: Rescues(initial, es, ss, fs, ts, e)
  }

  /** A counter of 65 belongs to a sender on its way down, out of slow start, with a large velocity. */
  lemma At65(s: State)
    requires Steady(s) && Recorded(s) && s.v.same == 65
    ensures !s.slowStart && s.v.direction == Down && s.v.velocity > 1 && s.cwnd == s.v.recordedCwnd
  {
    PositiveVelocity(65);
    VelocityLawIff(65);
    Pow2Grows(1, 63);
    assert Pow2(1) == 2;
    hide VelocityAfter, Pow2;
  }

  lemma TurnResets(s: State, e: Event)
    requires Steady(s) && Recorded(s) && Turns(s, e)
    ensures Step(s, e).Goes? ==> Step(s, e).state.v.same == 0
  {
    At65(s);
    LostAllOnlyMarks(s, e.lost);
    hide LostAll, TopOf, StepSize, VelocityAfter, Increases;
  }

  /** Any other feedback leaves the window, and the counter unless a record is due. */
  lemma StaysAt65(s: State, e: Event)
    requires Steady(s) && Recorded(s) && s.v.same == 65 && e.Feedback? && !Turns(s, e)
    requires e.t.lowest <= e.t.latest && e.t.standing > 0
    ensures var o := Step(s, e);
      o.Goes? && o.state.cwnd == s.cwnd && o.state.v.same == if Due(s, e.t) then 66 else 65
  {
    At65(s);
    LostAllOnlyMarks(s, e.lost);
    Room(s.cwnd);
    LargeVelocityStepsNowhere(|e.acked|, 65, s.cwnd);
    VelocityDoubles(65);
    VelocityDies(66);
    NoStepAtZero(|e.acked|, s.cwnd);
    hide LostAll, TopOf, StepSize, VelocityAfter, Increases;
  }

  lemma RescueCanMove(initial: nat, es: seq<Event>, ss: seq<State>)
    requires IsRun(initial, es, ss) && Rescued(initial, es, ss)
    ensures CanMove(initial, es, ss)
  {
    var fs, ts, e :| Rescues(initial, es, ss, fs, ts, e);
    var gs, us := es + fs, ss + ts;
    RunRecords(initial, gs, us, |gs|);
    var s := us[|gs|];
    TurnResets(s, e);
    hide IsRun, Receivable, CanCome, Step, Steady, Recorded, Turns;
    if Shakes(s, e) {
      MovesNow(initial, gs, us, e);
    } else {
      RunExtends(initial, gs, us, e, Step(s, e).state);
      OneMore(gs, e);
      LowCounterCanMove(initial, gs + [e], us + [Step(s, e).state]);
      MovesLater(initial, gs, us, [e], [Step(s, e).state]);
    }
    MovesLater(initial, es, ss, fs, ts);
  }

  lemma RunPrefix(initial: nat, es: seq<Event>, ss: seq<State>, n: nat)
    requires IsRun(initial, es, ss) && n <= |es|
    ensures IsRun(initial, es[..n], ss[..n + 1])
  {
    hide Step, Fresh;
    forall i | 0 <= i < n
      ensures Step(ss[..n + 1][i], es[..n][i]) == Goes(ss[..n + 1][i + 1])
    {
      assert Step(ss[i], es[i]) == Goes(ss[i + 1]);
    }
  }

  lemma ContinuesPrefix(initial: nat, es: seq<Event>, ss: seq<State>, fs: seq<Event>, ts: seq<State>, n: nat)
    requires |ss| == |es| + 1 && Continues(initial, es, ss, fs, ts) && n < |fs|
    ensures Continues(initial, es, ss, fs[..n], ts[..n]) && CanCome(es + fs[..n], fs[n])
    ensures (ss + ts[..n])[|es| + n] == (ss + ts)[|es| + n]
  {
    var gs, us, m := es + fs, ss + ts, |es| + n;
    hide IsRun, Receivable, CanCome;
    RunPrefix(initial, gs, us, m);
    Prefix(gs, m);
    NthCame(gs, m);
    assert gs[..m] == es + fs[..n] && us[..m + 1] == ss + ts[..n] && gs[m] == fs[n];
  }

  /** Without a rescue the counter stays at 65 until the sender freezes. */
  ghost predicate Put(s: State) { Frozen(s) || s.v.same == 65 }

  lemma PutStays(s: State, e: Event)
    requires Steady(s) && Recorded(s) && Put(s) && !Turns(s, e)
    requires e.Feedback? ==> e.t.lowest <= e.t.latest && e.t.standing > 0
    ensures !Shakes(s, e)
    ensures Step(s, e).Goes? ==> Step(s, e).state.v.same >= 65 || Frozen(Step(s, e).state)
  {
    if Frozen(s) {
      if e.Feedback? {
        FrozenStays(s, e.acked, e.lost, e.t);
      }
    } else if e.Feedback? {
      StaysAt65(s, e);
    } else {
      At65(s);
    }
    hide Congestion, Frozen, Recorded, Turns, VelocityAfter;
  }

  lemma NoRescueNoTurn(initial: nat, es: seq<Event>, ss: seq<State>, fs: seq<Event>, ts: seq<State>, e: Event)
    requires |ss| == |es| + 1 && Continues(initial, es, ss, fs, ts) && CanCome(es + fs, e)
    requires !Rescued(initial, es, ss)
    ensures !Turns((ss + ts)[|es| + |fs|], e)
    ensures e.Feedback? ==> e.t.lowest <= e.t.latest && e.t.standing > 0
  {
    if e.Feedback? {
      ChecksPass(es + fs, e);
    }
    hide Continues, CanCome, Turns;
    assert Turns((ss + ts)[|es| + |fs|], e) ==> Rescues(initial, es, ss, fs, ts, e);
  }

  lemma {:induction false} StaysPut(initial: nat, es: seq<Event>, ss: seq<State>,
                                    fs: seq<Event>, ts: seq<State>, i: nat)
    requires |ss| == |es| + 1 && Continues(initial, es, ss, fs, ts) && i <= |fs|
    requires ss[|es|].v.same == 65 && !Rescued(initial, es, ss)
    ensures Put((ss + ts)[|es| + i])
    decreases i
  {
    if i == 0 {
    } else {
      StaysPut(initial, es, ss, fs, ts, i - 1);
      ContinuesPrefix(initial, es, ss, fs, ts, i - 1);
      NoRescueNoTurn(initial, es, ss, fs[..i - 1], ts[..i - 1], fs[i - 1]);
      var gs, us, m := es + fs, ss + ts, |es| + i - 1;
      assert gs[m] == fs[i - 1];
      RunRecords(initial, gs, us, m);
      ZeroVelocityIsFrozen(initial, gs, us, m + 1);
      assert Step(us[m], gs[m]) == Goes(us[m + 1]);
      hide IsRun, Receivable, CanCome, Step, Steady, Recorded, Turns, Frozen, Rescued;
      PutStays(us[m], gs[m]);
    }
  }

  lemma OnlyRescueMoves(initial: nat, es: seq<Event>, ss: seq<State>)
    requires IsRun(initial, es, ss) && ss[|es|].v.same == 65 && CanMove(initial, es, ss)
    ensures Rescued(initial, es, ss)
  {
    var fs, ts, e :| Moves(initial, es, ss, fs, ts, e);
    if !Rescued(initial, es, ss) {
      StaysPut(initial, es, ss, fs, ts, |fs|);
      NoRescueNoTurn(initial, es, ss, fs, ts, e);
      RunRecords(initial, es + fs, ss + ts, |es + fs|);
      hide IsRun, Receivable, CanCome, Shakes, Steady, Recorded, Turns, Put, Rescued;
      PutStays((ss + ts)[|es| + |fs|], e);
    }
  }

  lemma FrozenCannotMove(initial: nat, es: seq<Event>, ss: seq<State>)
    requires IsRun(initial, es, ss) && ss[|es|].v.same >= 66
    ensures !CanMove(initial, es, ss)
  {
    ZeroVelocityIsFrozen(initial, es, ss, |es|);
    if CanMove(initial, es, ss) {
      var fs, ts, e :| Moves(initial, es, ss, fs, ts, e);
      var gs, us := es + fs, ss + ts;
      FrozenForGood(initial, gs, us, |es|, |gs|);
      RunKeeps(initial, gs, us, |gs|);
      ChecksPass(gs, e);
      FrozenStays(us[|gs|], e.acked, e.lost, e.t);
      hide IsRun, Receivable, CanCome, Congestion, Frozen, Steady;
      assert false;
    }
  }

  /** A sender can still move its window exactly when its counter is at most 64, or is 65 and feedback
      can come that asks for growth before the next record is due. */
  lemma MovesIff(initial: nat, es: seq<Event>, ss: seq<State>)
    requires IsRun(initial, es, ss) && Receivable(es)
    ensures CanMove(initial, es, ss) <==> ss[|es|].v.same <= 64 || (ss[|es|].v.same == 65 && Rescued(initial, es, ss))
  {
    assert |ss| == |es| + 1;
    hide *;
    if ss[|es|].v.same <= 64 {
      LowCounterCanMove(initial, es, ss);
    } else if ss[|es|].v.same >= 66 {
      FrozenCannotMove(initial, es, ss);
    } else if Rescued(initial, es, ss) {
      RescueCanMove(initial, es, ss);
    } else if CanMove(initial, es, ss) {
      OnlyRescueMoves(initial, es, ss);
    }
  }

  /** A sample of one microsecond is below all others. */
  lemma OneAnswers(es: seq<Event>, e: Event)
    requires e.Feedback? && e.t.lowest == e.t.standing == e.t.latest == 1
    requires forall j :: 0 <= j < |es| && es[j].Feedback? ==> 1 <= es[j].t.latest
    ensures FiltersAnswer(es + [e], e.t)
  {
    assert (es + [e])[|es|] == e;
  }

  lemma FastAckComes(es: seq<Event>, p: nat, at: nat)
    requires Receivable(es) && LastTiming(es).Some? && p == NextPacket(es) && Clock(es) <= at
    ensures CanCome(es + Sends(p, 1, at),
                    Feedback(Numbers(p, 1), [], Timing(at + 1, 1, Average(LastTiming(es).value.smoothed, 1), 1, 1)))
  {
    hide FirstReport, LastTiming, SentAgo, Receivable, Average, FiltersAnswer;
    var fs := es + Sends(p, 1, at);
    var e := Feedback(Numbers(p, 1), [], Timing(at + 1, 1, Average(LastTiming(es).value.smoothed, 1), 1, 1));
    SendsTakeNoSample(es, p, 1, at);
    NewReports(es, p, 1, at);
    NewSentAgo(es, p, 1, at, at + 1, 1);
    assert e.acked + e.lost == Numbers(p, 1);
    forall j | 0 <= j < |fs|
      ensures At(fs[j]) <= at && (fs[j].Feedback? ==> 1 <= fs[j].t.latest)
    {
      if j < |es| {
        assert fs[j] == es[j];
        if es[j].Feedback? {
          SamplesArePositive(es, j);
        }
      }
    }
    OneAnswers(fs, e);
  }

  /** An acknowledgement within a microsecond, early enough after the last record, is a rescue. */
  lemma QuickAckRescues(initial: nat, es: seq<Event>, ss: seq<State>)
    requires IsRun(initial, es, ss) && Receivable(es) && LastTiming(es).Some? && ss[|es|].v.same == 65
    requires Clock(es) + 1 < ss[|es|].v.recordTime + Average(LastTiming(es).value.smoothed, 1)
    ensures Rescued(initial, es, ss)
  {
    var s, p, at := ss[|es|], NextPacket(es), Clock(es);
    var e := Feedback(Numbers(p, 1), [], Timing(at + 1, 1, Average(LastTiming(es).value.smoothed, 1), 1, 1));
    RunKeeps(initial, es, ss, |es|);
    NotBeforeClock(es, at);
    SendMany(initial, es, ss, p, 1, at);
    FastAckComes(es, p, at);
    var fs, ts := Sends(p, 1, at), Sents(s, p, 1);
    assert (ss + ts)[|es| + |fs|] == s.(largestSent := Some(p));
    hide IsRun, Receivable, CanCome, Average;
    assert Rescues(initial, es, ss, fs, ts, e);
  }
}
