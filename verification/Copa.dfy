/** The Copa congestion controller: quic/model/cc-algo/copa_sender.cc. Rates and steps are exact
    fractions, truncated where the program truncates a double. */
module Copa {
  import opened Arithmetic
  import opened Bytes
  import opened Segments

  datatype Direction = Undecided | Up | Down

  datatype Velocity = Velocity(velocity: nat, direction: Direction, same: nat, recordedCwnd: nat, recordTime: nat)

  /** Times are in microseconds; 0 is an uninitialised time, as in the QUIC library. */
  datatype State = State(
    largestSent: Option<nat>, largestAcked: Option<nat>, cutback: Option<nat>,
    cwnd: nat, initialCwnd: nat, slowStart: bool, lastDouble: nat, v: Velocity)

  /** What one acknowledgement brings along: the smoothed and latest round-trip times and the two
      filters' answers after the latest sample. */
  datatype Timing = Timing(now: nat, latest: nat, smoothed: nat, lowest: nat, standing: nat)

  datatype Verdict = Fine | CheckFailed | CwndOverflow | CwndUnderflow

  datatype Outcome = Goes(state: State) | Aborts(why: Verdict)

  function Fresh(initialPackets: nat): State {
    State(None, None, None, initialPackets * MSS, initialPackets * MSS, true, 0, Velocity(1, Undecided, 0, 0, 0))
  }

  /** Target rate against current rate, both truncated to whole bytes a second. */
  predicate Increases(cwnd: nat, t: Timing)
    requires t.lowest <= t.latest && t.standing > 0
  {
    var delay := t.latest - t.lowest;
    delay == 0 || 2 * MSS * 1000000 / delay >= cwnd * 1000000 / t.standing
  }

  function Redirected(s: State, d: Direction, now: nat): State {
    if s.v.direction == d then s else s.(v := Velocity(1, d, 0, s.cwnd, now))
  }

  /** Once per smoothed round trip: note which way the window went, and double the velocity from the
      third time in a row on. */
  function UpdateDirection(s: State, now: nat, smoothed: nat): State {
    if s.v.recordTime == 0 then s.(v := s.v.(recordTime := now, recordedCwnd := s.cwnd))
    else if now - s.v.recordTime < smoothed then s
    else
      var d := if s.cwnd > s.v.recordedCwnd then Up else Down;
      var same := s.v.same + 1;
      if d != s.v.direction then s.(v := Velocity(1, d, 0, s.cwnd, now))
      else if same >= 3 then s.(v := Velocity(2 * s.v.velocity % WORD, d, same, s.cwnd, now))
      else s.(v := Velocity(s.v.velocity, d, same, s.cwnd, now))
  }

  /** Segments times velocity over half the window; the numerator is a 64-bit product. */
  function StepSize(packets: nat, velocity: nat, cwnd: nat): nat
    requires cwnd > 0
  {
    2 * (packets * MSS * MSS * velocity % WORD) / cwnd
  }

  function AddChecked(s: State, n: nat): Outcome {
    if WORD - 1 - n < s.cwnd then Aborts(CwndOverflow) else Goes(s.(cwnd := s.cwnd + n))
  }

  function SubtractChecked(s: State, n: nat): Outcome {
    if s.cwnd < n then Aborts(CwndUnderflow) else Goes(s.(cwnd := s.cwnd - n))
  }

  /** Not in the wrong direction at a velocity above one. */
  function Turned(s: State, d: Direction, now: nat): State {
    if s.v.direction != d && s.v.velocity > 1 then Redirected(s, d, now) else s
  }

  function Grow(s: State, packets: nat, t: Timing): Outcome
    requires s.cwnd > 0
  {
    if !s.slowStart then
      var s1 := Turned(s, Up, t.now);
      AddChecked(s1, StepSize(packets, s1.v.velocity, s1.cwnd))
    else if s.lastDouble == 0 then Goes(s.(lastDouble := t.now))
    else if t.now - s.lastDouble > t.smoothed then
      match AddChecked(s, s.cwnd)
      case Goes(s1) => Goes(s1.(lastDouble := t.now))
      case Aborts(why) => Aborts(why)
    else Goes(s)
  }

  /** The room above the minimum is an unsigned difference. */
  function Shrink(s: State, packets: nat, t: Timing): Outcome
    requires s.cwnd > 0
  {
    var s1 := Turned(s, Down, t.now);
    SubtractChecked(s1.(slowStart := false),
                    Min(StepSize(packets, s1.v.velocity, s1.cwnd), (s1.cwnd - MIN_WINDOW) % WORD))
  }

  function TopOf(top: Option<nat>, acked: seq<nat>): Option<nat> {
    if acked == [] then top
    else
      var rest, last := TopOf(top, acked[..|acked| - 1]), acked[|acked| - 1];
      Some(if rest.Some? then Max(rest.value, last) else last)
  }

  function Acked(s: State, acked: seq<nat>, t: Timing): Outcome
    requires s.cwnd > 0
  {
    var s1 := s.(largestAcked := TopOf(s.largestAcked, acked));
    if t.latest < t.lowest || t.standing == 0 then Aborts(CheckFailed)
    else if Increases(s1.cwnd, t) then
      Grow(if s1.slowStart then s1 else UpdateDirection(s1, t.now, t.smoothed), |acked|, t)
    else Shrink(UpdateDirection(s1, t.now, t.smoothed), |acked|, t)
  }

  function Lost(s: State, packet: nat): State {
    if s.cutback.Some? && packet <= s.cutback.value then s else s.(cutback := s.largestSent)
  }

  function LostAll(s: State, lost: seq<nat>): State {
    if lost == [] then s else Lost(LostAll(s, lost[..|lost| - 1]), lost[|lost| - 1])
  }

  lemma {:induction false} LostAllOnlyMarks(s: State, lost: seq<nat>)
    ensures LostAll(s, lost) == s.(cutback := LostAll(s, lost).cutback)
  {
    if lost == [] {
    } else {
      LostAllOnlyMarks(s, lost[..|lost| - 1]);
    }
  }

  function Congestion(s: State, acked: seq<nat>, lost: seq<nat>, t: Timing): Outcome
    requires s.cwnd > 0
  {
    LostAllOnlyMarks(s, lost);
    Acked(LostAll(s, lost), acked, t)
  }

  function SetInitial(s: State, packets: nat): State {
    if s.slowStart then s.(initialCwnd := packets * MSS, cwnd := packets * MSS) else s
  }

  // ---- the program -------------------------------------------------------------------------------------

  class CopaSender {
    var largestSent: Option<nat>
    var largestAcked: Option<nat>
    var cutback: Option<nat>
    var cwnd: nat
    var initialCwnd: nat
    var isSlowStart: bool
    var lastCwndDoubleTime: nat
    var velocity: nat
    var direction: Direction
    var numTimesDirectionSame: nat
    var lastRecordedCwndBytes: nat
    var lastCwndRecordTime: nat

    function AsState(): State
      reads this
    {
      State(largestSent, largestAcked, cutback, cwnd, initialCwnd, isSlowStart, lastCwndDoubleTime,
            Velocity(velocity, direction, numTimesDirectionSame, lastRecordedCwndBytes, lastCwndRecordTime))
    }

    constructor (initialPackets: nat)
      ensures AsState() == Fresh(initialPackets)
    {
      largestSent, largestAcked, cutback := None, None, None;
      cwnd, initialCwnd, isSlowStart, lastCwndDoubleTime := initialPackets * MSS, initialPackets * MSS, true, 0;
      velocity, direction, numTimesDirectionSame, lastRecordedCwndBytes, lastCwndRecordTime := 1, Undecided, 0, 0, 0;
    }

    method SetInitialCongestionWindowInPackets(packets: nat)
      modifies this
      ensures AsState() == SetInitial(old(AsState()), packets)
    {
      if isSlowStart {
        initialCwnd := packets * MSS;
        cwnd := packets * MSS;
      }
    }

    method OnPacketSent(packet: nat)
      requires largestSent.Some? ==> largestSent.value < packet
      modifies this
      ensures AsState() == old(AsState()).(largestSent := Some(packet))
    {
      largestSent := Some(packet);
    }

    method OnPacketLost(packet: nat)
      modifies this
      ensures AsState() == Lost(old(AsState()), packet)
    {
      if cutback.Some? && packet <= cutback.value {
        return;
      }
      cutback := largestSent;
    }

    method ChangeDirection(newDirection: Direction, ackTime: nat)
      modifies this
      ensures AsState() == Redirected(old(AsState()), newDirection, ackTime)
    {
      if direction == newDirection {
        return;
      }
      direction := newDirection;
      velocity := 1;
      numTimesDirectionSame := 0;
      lastCwndRecordTime := ackTime;
      lastRecordedCwndBytes := cwnd;
    }

    method CheckAndUpdateDirection(ackTime: nat, srtt: nat)
      modifies this
      ensures AsState() == UpdateDirection(old(AsState()), ackTime, srtt)
    {
      if lastCwndRecordTime == 0 {
        lastCwndRecordTime := ackTime;
        lastRecordedCwndBytes := cwnd;
        return;
      }
      var elapsed := ackTime - lastCwndRecordTime;
      if elapsed >= srtt {
        var newDirection := if cwnd > lastRecordedCwndBytes then Up else Down;
        if newDirection != direction {
          velocity := 1;
          numTimesDirectionSame := 0;
        } else {
          numTimesDirectionSame := numTimesDirectionSame + 1;
          if numTimesDirectionSame >= 3 {
            velocity := 2 * velocity % WORD;
          }
        }
        direction := newDirection;
        lastCwndRecordTime := ackTime;
        lastRecordedCwndBytes := cwnd;
      }
    }

    method AddAndCheckOverflow(toAdd: nat) returns (r: Verdict)
      modifies this`cwnd
      ensures match AddChecked(old(AsState()), toAdd)
              case Goes(s) => r == Fine && AsState() == s
              case Aborts(why) => r == why
    {
      if WORD - 1 - toAdd < cwnd {
        return CwndOverflow;
      }
      cwnd := cwnd + toAdd;
      r := Fine;
    }

    method SubtractAndCheckUnderflow(toSub: nat) returns (r: Verdict)
      modifies this`cwnd
      ensures match SubtractChecked(old(AsState()), toSub)
              case Goes(s) => r == Fine && AsState() == s
              case Aborts(why) => r == why
    {
      if cwnd < toSub {
        return CwndUnderflow;
      }
      cwnd := cwnd - toSub;
      r := Fine;
    }

    /** The growing half of OnPacketAcked. */
    method IncreaseWindow(packets: nat, t: Timing) returns (r: Verdict)
      requires cwnd > 0
      modifies this
      ensures match Grow(old(AsState()), packets, t)
              case Goes(s) => r == Fine && AsState() == s
              case Aborts(why) => r == why && r != Fine
    {
      r := Fine;
      if isSlowStart {
        if lastCwndDoubleTime == 0 {
          lastCwndDoubleTime := t.now;
        } else if t.now - lastCwndDoubleTime > t.smoothed {
          r := AddAndCheckOverflow(cwnd);
          if r == Fine {
            lastCwndDoubleTime := t.now;
          }
        }
      } else {
        if direction != Up && velocity > 1 {
          ChangeDirection(Up, t.now);
        }
        var addition := StepSize(packets, velocity, cwnd);
        r := AddAndCheckOverflow(addition);
      }
    }

    /** The shrinking half of OnPacketAcked. */
    method DecreaseWindow(packets: nat, t: Timing) returns (r: Verdict)
      requires cwnd > 0
      modifies this
      ensures match Shrink(old(AsState()), packets, t)
              case Goes(s) => r == Fine && AsState() == s
              case Aborts(why) => r == why && r != Fine
    {
      if direction != Down && velocity > 1 {
        ChangeDirection(Down, t.now);
      }
      var reduction := StepSize(packets, velocity, cwnd);
      isSlowStart := false;
      r := SubtractAndCheckUnderflow(Min(reduction, (cwnd - MIN_WINDOW) % WORD));
    }

    /** An exception or a failed check ends the program; the verdict says which. */
    method OnPacketAcked(acked: seq<nat>, t: Timing) returns (r: Verdict)
      requires cwnd > 0
      modifies this
      ensures match Acked(old(AsState()), acked, t)
              case Goes(s) => r == Fine && AsState() == s
              case Aborts(why) => r == why && r != Fine
    {
      ghost var s0 := AsState();
      for i := 0 to |acked|
        invariant AsState() == s0.(largestAcked := TopOf(s0.largestAcked, acked[..i]))
      {
        assert acked[..i + 1][..i] == acked[..i];
        if largestAcked.None? || largestAcked.value < acked[i] {
          largestAcked := Some(acked[i]);
        }
      }
      assert acked[..|acked|] == acked;
      if t.latest < t.lowest {
        return CheckFailed;
      }
      if t.standing == 0 {
        return CheckFailed;
      }
      var delay := t.latest - t.lowest;
      var increaseCwnd := false;
      if delay == 0 {
        increaseCwnd := true;
      } else {
        var targetRate := 2 * MSS * 1000000 / delay;
        var currentRate := cwnd * 1000000 / t.standing;
        increaseCwnd := targetRate >= currentRate;
      }
      if !(increaseCwnd && isSlowStart) {
        CheckAndUpdateDirection(t.now, t.smoothed);
      }
      if increaseCwnd {
        r := IncreaseWindow(|acked|, t);
      } else {
        r := DecreaseWindow(|acked|, t);
      }
    }

    method OnCongestionEvent(acked: seq<nat>, lost: seq<nat>, t: Timing) returns (r: Verdict)
      requires cwnd > 0
      modifies this
      ensures match Congestion(old(AsState()), acked, lost, t)
              case Goes(s) => r == Fine && AsState() == s
              case Aborts(why) => r == why && r != Fine
    {
      ghost var s0 := AsState();
      for i := 0 to |lost|
        invariant AsState() == LostAll(s0, lost[..i])
      {
        assert lost[..i + 1][..i] == lost[..i];
        OnPacketLost(lost[i]);
      }
      assert lost[..|lost|] == lost;
      LostAllOnlyMarks(s0, lost);
      r := OnPacketAcked(acked, t);
    }
  }

  // ---- what every event keeps ---------------------------------------------------------------------------

  function Pow2(n: nat): (p: nat)
    ensures p > 0
  {
    if n == 0 then 1 else 2 * Pow2(n - 1)
  }

  /** The velocity after the direction has been seen unchanged same times, as a 64-bit number. */
  function VelocityAfter(same: nat): nat {
    if same < 3 then 1 else Pow2(same - 2) % WORD
  }

  lemma DoubleReduced(p: nat)
    ensures 2 * (p % WORD) % WORD == 2 * p % WORD
  {
    assert 2 * p == 2 * (p % WORD) + (2 * (p / WORD)) * WORD;
    DropMultiple(2 * (p % WORD), 2 * (p / WORD), WORD);
  }

  lemma VelocityDoubles(same: nat)
    requires same >= 2
    ensures VelocityAfter(same + 1) == 2 * VelocityAfter(same) % WORD
  {
    if same == 2 {
      assert Pow2(1) == 2;
    } else {
      DoubleReduced(Pow2(same - 2));
    }
  }

  lemma Pow2Of64()
    ensures Pow2(64) == WORD
  {
    assert Pow2(8) == 256;
    assert Pow2(16) == 0x1_0000;
    assert Pow2(24) == 0x100_0000;
    assert Pow2(32) == 0x1_0000_0000;
    assert Pow2(40) == 0x100_0000_0000;
    assert Pow2(48) == 0x1_0000_0000_0000;
    assert Pow2(56) == 0x100_0000_0000_0000;
  }

  /** After 66 round trips in one direction the 64-bit velocity has become zero, and stays zero. */
  lemma {:induction false} VelocityDies(same: nat)
    requires same >= 66
    ensures VelocityAfter(same) == 0
  {
    if same == 66 {
      Pow2Of64();
    } else {
      VelocityDies(same - 1);
      VelocityDoubles(same - 1);
    }
  }

  /** The window is at least four segments; the velocity is what its counter says; slow start has not
      touched the velocity yet. */
  ghost predicate Steady(s: State) {
    && MIN_WINDOW <= s.cwnd < WORD
    && s.v.velocity == VelocityAfter(s.v.same)
    && (s.slowStart ==> s.v == Velocity(1, Undecided, 0, 0, 0))
  }

  lemma UpdateKeeps(s: State, now: nat, smoothed: nat)
    requires s.v.velocity == VelocityAfter(s.v.same)
    ensures var s' := UpdateDirection(s, now, smoothed);
            s'.v.velocity == VelocityAfter(s'.v.same) && s' == s.(v := s'.v)
  {
    if s.v.same >= 2 {
      VelocityDoubles(s.v.same);
    }
  }

  /** A window that moves outside slow start at a velocity above one moves in the recorded direction. */
  ghost predicate MovesAsRecorded(s: State, s': State) {
    && (s'.cwnd > s.cwnd && !s.slowStart && s'.v.velocity > 1 ==> s'.v.direction == Up)
    && (s'.cwnd < s.cwnd && s'.v.velocity > 1 ==> s'.v.direction == Down)
  }

  /** Slow start either doubles the window after a round trip, or leaves it alone, or is over for good. */
  ghost predicate SlowStartStep(s: State, s': State, t: Timing) {
    && (s'.slowStart ==> s.slowStart)
    && s'.initialCwnd == s.initialCwnd
    && (s'.slowStart ==>
          || (s'.cwnd == s.cwnd && s'.lastDouble == s.lastDouble)
          || (s'.cwnd == s.cwnd && s.lastDouble == 0 && s'.lastDouble == t.now)
          || (s'.cwnd == 2 * s.cwnd && s.lastDouble > 0 && s.lastDouble + t.smoothed < t.now == s'.lastDouble))
  }

  lemma GrowKeeps(s: State, packets: nat, t: Timing)
    requires Steady(s)
    ensures var o := Grow(s, packets, t);
            && (o.Aborts? ==> o == Aborts(CwndOverflow))
            && (o.Goes? ==> Steady(o.state) && MovesAsRecorded(s, o.state) && SlowStartStep(s, o.state, t))
  {
    hide StepSize;
    assert VelocityAfter(0) == 1;
    hide VelocityAfter;
  }

  lemma Room(cwnd: nat)
    requires MIN_WINDOW <= cwnd < WORD
    ensures (cwnd - MIN_WINDOW) % WORD == cwnd - MIN_WINDOW
  {
  }

  lemma ShrinkKeeps(s: State, packets: nat, t: Timing)
    requires MIN_WINDOW <= s.cwnd < WORD && s.v.velocity == VelocityAfter(s.v.same)
    ensures var o := Shrink(s, packets, t);
            && o.Goes? && Steady(o.state) && MovesAsRecorded(s, o.state) && !o.state.slowStart
            && o.state.initialCwnd == s.initialCwnd
  {
    hide StepSize;
    assert VelocityAfter(0) == 1;
    hide VelocityAfter;
    Room(s.cwnd);
  }

  /** No acknowledgement can run into the underflow exception; a check fails only on the filters' or the
      round-trip estimator's account. */
  lemma CongestionKeeps(s: State, acked: seq<nat>, lost: seq<nat>, t: Timing)
    requires Steady(s)
    ensures var o := Congestion(s, acked, lost, t);
            && o != Aborts(CwndUnderflow)
            && (o == Aborts(CheckFailed) <==> t.latest < t.lowest || t.standing == 0)
            && (o.Goes? ==> Steady(o.state) && MovesAsRecorded(s, o.state) && SlowStartStep(s, o.state, t))
  {
    LostAllOnlyMarks(s, lost);
    var s1 := LostAll(s, lost).(largestAcked := TopOf(LostAll(s, lost).largestAcked, acked));
    UpdateKeeps(s1, t.now, t.smoothed);
    hide Increases, TopOf, LostAll, Grow, Shrink, VelocityAfter, UpdateDirection;
    var s2 := UpdateDirection(s1, t.now, t.smoothed);
    ShrinkKeeps(s2, |acked|, t);
    GrowKeeps(if s1.slowStart then s1 else s2, |acked|, t);
  }

  // ---- what the steps aim at --------------------------------------------------------------------------

  /** The feedback is negative: a smaller window or a shorter queueing delay never turns an increase
      into a decrease. */
  lemma FeedbackIsNegative(cwnd: nat, smaller: nat, t: Timing, quicker: Timing)
    requires t.lowest <= quicker.latest <= t.latest && t.standing > 0 && smaller <= cwnd
    requires quicker.lowest == t.lowest && quicker.standing == t.standing
    requires Increases(cwnd, t)
    ensures Increases(smaller, quicker)
  {
    QuotientGrows(smaller * 1000000, cwnd * 1000000, t.standing);
    var delay, less := t.latest - t.lowest, quicker.latest - quicker.lowest;
    if less > 0 {
      QuotientShrinks(2 * MSS * 1000000, less, delay);
    }
  }

  lemma ProductTwice(n: nat, v: nat)
    requires n > 0
    ensures 2 * (n * v) / n == 2 * v
  {
    ProductQuotient(2 * v, n);
    assert 2 * (n * v) == 2 * v * n;
  }

  lemma Regroup(n: nat, v: nat)
    ensures n * MSS * v == n * (MSS * v)
  {
  }

  lemma TwiceReducedIff(x: nat, n: nat)
    requires 0 < n <= WORD
    ensures 2 * (x % WORD) / n == 2 * x / n <==> x < WORD
  {
    Remainder(x, WORD);
    var low := x % WORD;
    hide *;
    if x >= WORD {
      QuotientJumps(2 * low, 2 * x, n);
    }
  }

  /** Acknowledging a whole window moves it by twice as many segments as the velocity says, if and only
      if the 64-bit product of both does not wrap. */
  lemma WholeWindowMovesIff(packets: nat, velocity: nat, cwnd: nat)
    requires 0 < cwnd == packets * MSS <= WORD
    ensures StepSize(packets, velocity, cwnd) == 2 * (MSS * velocity) <==> cwnd * (MSS * velocity) < WORD
  {
    Regroup(cwnd, velocity);
    assert StepSize(packets, velocity, cwnd) == 2 * (cwnd * (MSS * velocity) % WORD) / cwnd;
    hide *;
    TwiceReducedIff(cwnd * (MSS * velocity), cwnd);
    ProductTwice(cwnd, MSS * velocity);
  }

  // ---- runs ---------------------------------------------------------------------------------------------

  datatype Event =
    | Send(packet: nat, at: nat)
    | Feedback(acked: seq<nat>, lost: seq<nat>, t: Timing)
    | Resize(packets: nat)

  ghost function Step(s: State, e: Event): Outcome
    requires s.cwnd > 0
  {
    match e
    case Send(packet, _) => Goes(s.(largestSent := Some(packet)))
    case Feedback(acked, lost, t) => Congestion(s, acked, lost, t)
    case Resize(packets) => Goes(SetInitial(s, packets))
  }

  /** ss are the states between the events es, from a fresh sender with at least four segments; a window
      that is set is at least four segments and representable. */
  ghost predicate IsRun(initial: nat, es: seq<Event>, ss: seq<State>) {
    && 4 <= initial && initial * MSS < WORD
    && |ss| == |es| + 1 && ss[0] == Fresh(initial)
    && (forall i :: 0 <= i < |es| ==> es[i].Resize? ==> es[i].packets >= 4 && es[i].packets * MSS < WORD)
    && forall i :: 0 <= i < |es| ==> ss[i].cwnd > 0 && Step(ss[i], es[i]) == Goes(ss[i + 1])
  }

  lemma {:induction false} RunKeeps(initial: nat, es: seq<Event>, ss: seq<State>, i: nat)
    requires IsRun(initial, es, ss) && i <= |es|
    ensures Steady(ss[i])
    decreases i
  {
    if i == 0 {
    } else {
      RunKeeps(initial, es, ss, i - 1);
      var e := es[i - 1];
      assert Step(ss[i - 1], e) == Goes(ss[i]);
      if e.Feedback? {
        CongestionKeeps(ss[i - 1], e.acked, e.lost, e.t);
      }
    }
  }

  /** At every point of every run: the window bound, the velocity law, no underflow ahead, and no move
      against the recorded direction at a velocity above one. */
  lemma RunIsSteady(initial: nat, es: seq<Event>, ss: seq<State>, i: nat, acked: seq<nat>, lost: seq<nat>, t: Timing)
    requires IsRun(initial, es, ss) && i <= |es|
    ensures ss[i].cwnd >= MIN_WINDOW && ss[i].v.velocity == VelocityAfter(ss[i].v.same)
    ensures Congestion(ss[i], acked, lost, t) != Aborts(CwndUnderflow)
    ensures i < |es| && es[i].Feedback? ==> MovesAsRecorded(ss[i], ss[i + 1])
  {
    RunKeeps(initial, es, ss, i);
    CongestionKeeps(ss[i], acked, lost, t);
    if i < |es| && es[i].Feedback? {
      assert Step(ss[i], es[i]) == Goes(ss[i + 1]);
      CongestionKeeps(ss[i], es[i].acked, es[i].lost, es[i].t);
    }
  }

  /** Slow start, once left, is never entered again. */
  lemma {:induction false} SlowStartIsOver(initial: nat, es: seq<Event>, ss: seq<State>, i: nat, j: nat)
    requires IsRun(initial, es, ss) && i <= j <= |es| && !ss[i].slowStart
    ensures !ss[j].slowStart
    decreases j
  {
    if i == j {
    } else {
      SlowStartIsOver(initial, es, ss, i, j - 1);
      RunKeeps(initial, es, ss, j - 1);
      var e := es[j - 1];
      assert Step(ss[j - 1], e) == Goes(ss[j]);
      if e.Feedback? {
        CongestionKeeps(ss[j - 1], e.acked, e.lost, e.t);
      }
    }
  }

  /** Doublings since the window was last set. */
  ghost function Doublings(es: seq<Event>, ss: seq<State>, i: nat): nat
    requires i <= |es| && |ss| == |es| + 1
  {
    if i == 0 then 0
    else if es[i - 1].Resize? then 0
    else Doublings(es, ss, i - 1) + if ss[i].cwnd > ss[i - 1].cwnd then 1 else 0
  }

  /** Acknowledgements come in order of time, the first at time first, and no smoothed round trip is
      shorter than rtt. */
  ghost predicate Timed(es: seq<Event>, first: nat, rtt: nat) {
    && (forall i :: 0 <= i < |es| && es[i].Feedback? ==> first <= es[i].t.now && rtt <= es[i].t.smoothed)
    && forall i, j :: 0 <= i < j < |es| && es[i].Feedback? && es[j].Feedback? ==> es[i].t.now <= es[j].t.now
  }

  /** The window after d doublings at least rtt apart, the first of them after first. */
  ghost predicate Tracks(s: State, d: nat, first: nat, rtt: nat) {
    && s.cwnd == s.initialCwnd * Pow2(d)
    && (s.lastDouble == 0 ==> d == 0)
    && (s.lastDouble > 0 ==> first + d * rtt <= s.lastDouble)
  }

  lemma DoubledWindow(w: nat, d: nat)
    ensures w * Pow2(d + 1) == 2 * (w * Pow2(d))
  {
    assert Pow2(d + 1) == 2 * Pow2(d);
  }

  lemma FeedbackTracks(s: State, s': State, d: nat, t: Timing, first: nat, rtt: nat)
    requires Tracks(s, d, first, rtt) && SlowStartStep(s, s', t) && s'.slowStart
    requires first <= t.now && s.lastDouble <= t.now && rtt <= t.smoothed && s.cwnd > 0
    ensures Tracks(s', if s'.cwnd > s.cwnd then d + 1 else d, first, rtt) && s'.lastDouble <= t.now
  {
    DoubledWindow(s.initialCwnd, d);
    assert (d + 1) * rtt == d * rtt + rtt;
    hide Pow2;
  }

  lemma ResizeTracks(s: State, packets: nat, d: nat, first: nat, rtt: nat)
    requires Tracks(s, d, first, rtt) && s.slowStart
    ensures Tracks(SetInitial(s, packets), 0, first, rtt)
  {
    assert Pow2(0) == 1 && 0 <= d * rtt;
  }

  lemma SendTracks(s: State, s': State, d: nat, first: nat, rtt: nat)
    requires Tracks(s, d, first, rtt) && s' == s.(largestSent := s'.largestSent)
    ensures Tracks(s', d, first, rtt)
  {
  }

  /** In slow start the window is the initial one doubled once per doubling, and the doublings are at
      least a round trip apart, counted from the first acknowledgement. */
  lemma {:induction false} SlowStartDoubles(initial: nat, es: seq<Event>, ss: seq<State>, i: nat, first: nat, rtt: nat)
    requires IsRun(initial, es, ss) && i <= |es| && Timed(es, first, rtt)
    requires ss[i].slowStart
    ensures Tracks(ss[i], Doublings(es, ss, i), first, rtt)
    ensures forall j :: i <= j < |es| && es[j].Feedback? ==> ss[i].lastDouble <= es[j].t.now
    decreases i
  {
    if i == 0 {
      assert Pow2(0) == 1;
    } else {
      var e := es[i - 1];
      assert Step(ss[i - 1], e) == Goes(ss[i]);
      RunKeeps(initial, es, ss, i - 1);
      assert ss[i - 1].cwnd > 0;
      if e.Feedback? {
        CongestionKeeps(ss[i - 1], e.acked, e.lost, e.t);
      }
      hide Steady, MovesAsRecorded, Tracks, IsRun, Congestion;
      SlowStartDoubles(initial, es, ss, i - 1, first, rtt);
      var d := Doublings(es, ss, i - 1);
      match e
      case Send(_, _) => SendTracks(ss[i - 1], ss[i], d, first, rtt);
      case Feedback(_, _, t) => FeedbackTracks(ss[i - 1], ss[i], d, t, first, rtt);
      case Resize(packets) => ResizeTracks(ss[i - 1], packets, d, first, rtt);
    }
  }

  /** So d doublings take at least d round trips after the first acknowledgement. */
  lemma DoublingsTakeRoundTrips(initial: nat, es: seq<Event>, ss: seq<State>, i: nat, first: nat, rtt: nat, j: nat)
    requires IsRun(initial, es, ss) && i <= j < |es| && Timed(es, first, rtt)
    requires ss[i].slowStart && es[j].Feedback?
    ensures Doublings(es, ss, i) * rtt <= es[j].t.now - first
  {
    SlowStartDoubles(initial, es, ss, i, first, rtt);
    assert Doublings(es, ss, i) == 0 ==> Doublings(es, ss, i) * rtt == 0;
  }
}
