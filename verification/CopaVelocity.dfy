/** When Copa's velocity keeps its law, and what becomes of a sender whose velocity has reached zero:
    quic/model/cc-algo/copa_sender.cc:197-294. */
module CopaVelocity {
  import opened Arithmetic
  import opened Bytes
  import opened Copa
  import opened Segments

  lemma {:induction false} Pow2Grows(m: nat, n: nat)
    requires m <= n
    ensures Pow2(m) <= Pow2(n)
    decreases n
  {
    if m == n {
    } else {
      Pow2Grows(m, n - 1);
    }
  }

  lemma Pow2Fits(n: nat)
    requires n < 64
    ensures Pow2(n) % WORD == Pow2(n)
  {
    Pow2Of64();
    Pow2Grows(n + 1, 64);
  }

  /** Two to the number of round trips less two: true of the 64-bit velocity exactly up to the 65th. */
  lemma VelocityLawIff(same: nat)
    requires same >= 3
    ensures VelocityAfter(same) == Pow2(same - 2) <==> same < 66
    ensures VelocityAfter(same) == 0 <==> same >= 66
  {
    if same < 66 {
      Pow2Fits(same - 2);
    } else {
      VelocityDies(same);
    }
  }

  // ---- steps at a large velocity ------------------------------------------------------------------------

  lemma {:induction false} Pow2Splits(m: nat, n: nat)
    ensures Pow2(m + n) == Pow2(m) * Pow2(n)
  {
    if n > 0 {
      Pow2Splits(m, n - 1);
      assert Pow2(m) * Pow2(n) == 2 * (Pow2(m) * Pow2(n - 1));
    } else {
      assert Pow2(0) == 1;
    }
  }

  lemma Regrouped(a: nat, b: nat, c: nat)
    ensures a * b * c == a * (b * c)
  {
  }

  lemma SquareTimesPow60(packets: nat)
    ensures packets * MSS * MSS * Pow2(60) == packets * 133225 * WORD
  {
    Pow2Of64();
    Pow2Splits(60, 4);
    assert Pow2(4) == 16;
    assert 16 * Pow2(60) == WORD;
    assert packets * MSS * MSS == packets * 133225 * 16;
    Regrouped(packets * 133225, 16, Pow2(60));
  }

  lemma ProductWraps(p: nat, n: nat, x: nat, y: nat)
    requires p * x == n * WORD
    ensures p * (x * y) % WORD == 0
  {
    Regrouped(p, x, y);
    assert p * (x * y) == 0 + n * y * WORD;
    DropMultiple(0, n * y, WORD);
  }

  lemma WrappedAt(packets: nat, same: nat)
    requires 62 <= same < 66
    ensures packets * MSS * MSS * VelocityAfter(same) % WORD == 0
  {
    Pow2Fits(same - 2);
    Pow2Splits(60, same - 62);
    SquareTimesPow60(packets);
    hide Pow2;
    ProductWraps(packets * MSS * MSS, packets * 133225, Pow2(60), Pow2(same - 62));
  }

  lemma NoStepAtZero(packets: nat, cwnd: nat)
    requires cwnd > 0
    ensures StepSize(packets, 0, cwnd) == 0
  {
    assert packets * MSS * MSS * 0 == 0;
  }

  /** The product wraps to zero from the 62nd round trip in one direction on. */
  lemma LargeVelocityStepsNowhere(packets: nat, same: nat, cwnd: nat)
    requires same >= 62 && cwnd > 0
    ensures StepSize(packets, VelocityAfter(same), cwnd) == 0
  {
    if same < 66 {
      WrappedAt(packets, same);
      hide VelocityAfter;
    } else {
      VelocityDies(same);
      NoStepAtZero(packets, cwnd);
    }
  }

  // ---- a velocity of zero freezes the window ------------------------------------------------------------

  /** Slow start is over, the velocity is zero, and nothing will look like a turn upwards. */
  ghost predicate Frozen(s: State) {
    !s.slowStart && s.v.velocity == 0 && s.v.direction == Down && s.cwnd <= s.v.recordedCwnd
  }

  /** No feedback moves a frozen window, whatever it says about the path, and none thaws it. */
  lemma FrozenStays(s: State, acked: seq<nat>, lost: seq<nat>, t: Timing)
    requires Frozen(s) && MIN_WINDOW <= s.cwnd < WORD
    ensures var o := Congestion(s, acked, lost, t);
      && (o.Goes? <==> t.lowest <= t.latest && t.standing > 0)
      && (o.Goes? ==> Frozen(o.state) && o.state.cwnd == s.cwnd)
  {
    LostAllOnlyMarks(s, lost);
    NoStepAtZero(|acked|, s.cwnd);
    hide StepSize, Increases, TopOf, LostAll;
  }

  lemma FrozenStep(s: State, e: Event, s': State)
    requires Frozen(s) && Steady(s) && Step(s, e) == Goes(s')
    ensures Frozen(s') && s'.cwnd == s.cwnd
  {
    hide Congestion, VelocityAfter;
    if e.Feedback? {
      FrozenStays(s, e.acked, e.lost, e.t);
    }
  }

  lemma StepOf(initial: nat, es: seq<Event>, ss: seq<State>, i: nat)
    requires IsRun(initial, es, ss) && i < |es|
    ensures |ss| == |es| + 1 && ss[i].cwnd > 0 && Step(ss[i], es[i]) == Goes(ss[i + 1])
  {
  }

  lemma {:induction false} FrozenForGood(initial: nat, es: seq<Event>, ss: seq<State>, i: nat, j: nat)
    requires IsRun(initial, es, ss) && i <= j <= |es| && Frozen(ss[i])
    ensures |ss| == |es| + 1 && Frozen(ss[j]) && ss[j].cwnd == ss[i].cwnd
    decreases j
  {
    assert |ss| == |es| + 1;
    hide *;
    if i == j {
    } else {
      FrozenForGood(initial, es, ss, i, j - 1);
      RunKeeps(initial, es, ss, j - 1);
      StepOf(initial, es, ss, j - 1);
      FrozenStep(ss[j - 1], es[j - 1], ss[j]);
    }
  }

  // ---- runs reach zero velocity only downwards ----------------------------------------------------------

  /** A counter above zero has a direction; a zero velocity, or one too large to move the window, comes
      with a window still at its last record; upwards the counter therefore stops at 62. */
  ghost predicate Recorded(s: State) {
    && (s.v.same > 0 ==> s.v.direction != Undecided)
    && (s.v.same >= 62 ==> s.cwnd == s.v.recordedCwnd)
    && (s.v.direction == Up ==> s.v.same <= 62)
  }

  lemma UpdateRecords(s: State, now: nat, smoothed: nat)
    requires Recorded(s)
    ensures Recorded(UpdateDirection(s, now, smoothed))
  {
  }

  lemma GrowRecords(s: State, packets: nat, t: Timing)
    requires Recorded(s) && Steady(s)
    ensures var o := Grow(s, packets, t); o.Goes? ==> Recorded(o.state)
  {
    if s.v.same >= 62 {
      LargeVelocityStepsNowhere(packets, s.v.same, s.cwnd);
    }
    hide StepSize, VelocityAfter;
  }

  lemma ShrinkRecords(s: State, packets: nat, t: Timing)
    requires Recorded(s) && MIN_WINDOW <= s.cwnd < WORD && s.v.velocity == VelocityAfter(s.v.same)
    ensures var o := Shrink(s, packets, t); o.Goes? ==> Recorded(o.state)
  {
    Room(s.cwnd);
    if s.v.same >= 62 {
      LargeVelocityStepsNowhere(packets, s.v.same, s.cwnd);
    }
    hide StepSize, VelocityAfter;
  }

  lemma CongestionRecords(s: State, acked: seq<nat>, lost: seq<nat>, t: Timing)
    requires Recorded(s) && Steady(s)
    ensures var o := Congestion(s, acked, lost, t); o.Goes? ==> Recorded(o.state)
  {
    LostAllOnlyMarks(s, lost);
    var s1 := LostAll(s, lost).(largestAcked := TopOf(LostAll(s, lost).largestAcked, acked));
    UpdateKeeps(s1, t.now, t.smoothed);
    UpdateRecords(s1, t.now, t.smoothed);
    hide Increases, TopOf, LostAll, Grow, Shrink, VelocityAfter, UpdateDirection, Recorded;
    assert Recorded(s1);
    var s2 := UpdateDirection(s1, t.now, t.smoothed);
    ShrinkRecords(s2, |acked|, t);
    GrowRecords(if s1.slowStart then s1 else s2, |acked|, t);
  }

  lemma {:induction false} RunRecords(initial: nat, es: seq<Event>, ss: seq<State>, i: nat)
    requires IsRun(initial, es, ss) && i <= |es|
    ensures Recorded(ss[i]) && Steady(ss[i])
    decreases i
  {
    RunKeeps(initial, es, ss, i);
    if i == 0 {
    } else {
      RunRecords(initial, es, ss, i - 1);
      var e := es[i - 1];
      assert Step(ss[i - 1], e) == Goes(ss[i]);
      if e.Feedback? {
        CongestionRecords(ss[i - 1], e.acked, e.lost, e.t);
      }
    }
  }

  /** In every run: the velocity is zero exactly from the 66th round trip on, and then the sender is frozen. */
  lemma ZeroVelocityIsFrozen(initial: nat, es: seq<Event>, ss: seq<State>, i: nat)
    requires IsRun(initial, es, ss) && i <= |es|
    ensures ss[i].v.velocity == 0 <==> ss[i].v.same >= 66
    ensures ss[i].v.velocity == 0 <==> Frozen(ss[i])
  {
    RunRecords(initial, es, ss, i);
    if ss[i].v.same >= 3 {
      VelocityLawIff(ss[i].v.same);
    }
  }

  // ---- when a sender freezes ----------------------------------------------------------------------------

  /** The next look at the window notes it and counts. */
  predicate Due(s: State, t: Timing) {
    s.v.recordTime > 0 && t.now - s.v.recordTime >= t.smoothed
  }

  lemma UpdateReaches66(s: State, t: Timing)
    requires Recorded(s) && s.v.velocity == VelocityAfter(s.v.same)
    ensures var u := UpdateDirection(s, t.now, t.smoothed);
      && (u.v.same >= 66 <==> s.v.same >= 66 || (s.v.same == 65 && Due(s, t)))
      && (u.v.same >= 66 ==> u.v.velocity == 0)
  {
    UpdateKeeps(s, t.now, t.smoothed);
    var u := UpdateDirection(s, t.now, t.smoothed);
    if u.v.same >= 66 {
      VelocityDies(u.v.same);
    }
    hide VelocityAfter;
  }

  lemma TurnedCounts(s: State, d: Direction, now: nat)
    requires s.v.same >= 66 ==> s.v.velocity == 0
    ensures Turned(s, d, now).v.same >= 66 <==> s.v.same >= 66
  {
  }

  /** A counter of 65 grows exactly when a record is due. */
  lemma CounterReaches66(s: State, acked: seq<nat>, lost: seq<nat>, t: Timing)
    requires Recorded(s) && Steady(s)
    ensures var o := Congestion(s, acked, lost, t);
      o.Goes? ==> (o.state.v.same >= 66 <==> s.v.same >= 66 || (s.v.same == 65 && Due(s, t)))
  {
    LostAllOnlyMarks(s, lost);
    var s1 := LostAll(s, lost).(largestAcked := TopOf(LostAll(s, lost).largestAcked, acked));
    assert Recorded(s1) && Due(s1, t) == Due(s, t);
    UpdateReaches66(s1, t);
    hide UpdateDirection, VelocityAfter, StepSize, Increases, TopOf, LostAll, Turned, Recorded, Due;
    var u := UpdateDirection(s1, t.now, t.smoothed);
    TurnedCounts(u, Up, t.now);
    TurnedCounts(u, Down, t.now);
  }

  lemma RunExtends(initial: nat, es: seq<Event>, ss: seq<State>, e: Event, s: State)
    requires IsRun(initial, es, ss) && !e.Resize?
    requires ss[|es|].cwnd > 0 && Step(ss[|es|], e) == Goes(s)
    ensures IsRun(initial, es + [e], ss + [s])
  {
    hide Step, Fresh;
    var fs, ts := es + [e], ss + [s];
    forall i | 0 <= i < |fs| ensures ts[i].cwnd > 0 && Step(ts[i], fs[i]) == Goes(ts[i + 1]) {
      if i < |es| {
        assert Step(ss[i], es[i]) == Goes(ss[i + 1]);
      }
    }
  }

  /** After any feedback the sender is frozen if and only if its counter was 66, or it was 65 and the
      record was due. */
  lemma FreezesIff(initial: nat, es: seq<Event>, ss: seq<State>, acked: seq<nat>, lost: seq<nat>, t: Timing, s': State)
    requires IsRun(initial, es, ss) && ss[|es|].cwnd > 0 && Congestion(ss[|es|], acked, lost, t) == Goes(s')
    ensures Frozen(s') <==> ss[|es|].v.same >= 66 || (ss[|es|].v.same == 65 && Due(ss[|es|], t))
  {
    RunRecords(initial, es, ss, |es|);
    CounterReaches66(ss[|es|], acked, lost, t);
    var e := Feedback(acked, lost, t);
    RunExtends(initial, es, ss, e, s');
    ZeroVelocityIsFrozen(initial, es + [e], ss + [s'], |es| + 1);
  }

  /** Nothing that can still happen moves the window. */
  ghost predicate Stuck(initial: nat, es: seq<Event>, ss: seq<State>)
    requires |ss| == |es| + 1
  {
    forall fs: seq<Event>, ts: seq<State> :: |fs| == |ts| && IsRun(initial, es + fs, ss + ts) ==>
      forall i :: 0 <= i < |ts| ==> ts[i].cwnd == ss[|es|].cwnd
  }

  lemma StuckAtZero(initial: nat, es: seq<Event>, ss: seq<State>)
    requires IsRun(initial, es, ss) && ss[|es|].v.velocity == 0
    ensures Stuck(initial, es, ss)
  {
    ZeroVelocityIsFrozen(initial, es, ss, |es|);
    forall fs: seq<Event>, ts: seq<State>, i | |fs| == |ts| && IsRun(initial, es + fs, ss + ts) && 0 <= i < |ts|
      ensures ts[i].cwnd == ss[|es|].cwnd
    {
      FrozenForGood(initial, es + fs, ss + ts, |es|, |es| + 1 + i);
      assert (ss + ts)[|es| + 1 + i] == ts[i];
    }
  }
}
