/** What feedback does to Copa's window, exactly: quic/model/cc-algo/copa_sender.cc:21-37 and 138-294. */
module CopaWindow {
  import opened Arithmetic
  import opened Bytes
  import opened Copa
  import opened Segments

  predicate Checked(t: Timing) { t.lowest <= t.latest && t.standing > 0 }

  /** A whole number of bytes a second that is not above the target rate of two segments per queueing
      delay, and not below the current rate, a window per standing round trip, cut off. */
  predicate Between(rate: nat, cwnd: nat, t: Timing) {
    rate * (t.latest - t.lowest) <= 2 * MSS * 1000000 && cwnd * 1000000 < (rate + 1) * t.standing
  }

  ghost predicate AsksForGrowth(cwnd: nat, t: Timing) {
    t.latest == t.lowest || exists rate: nat :: Between(rate, cwnd, t)
  }

  lemma TargetRate(rate: nat, delay: nat)
    requires delay > 0
    ensures 2 * MSS * 1000000 / delay >= rate <==> rate * delay <= 2 * MSS * 1000000
  {
    QuotientAtLeast(2 * MSS * 1000000, delay, rate);
  }

  lemma CurrentRate(cwnd: nat, standing: nat, rate: nat)
    requires standing > 0
    ensures cwnd * 1000000 / standing <= rate <==> cwnd * 1000000 < (rate + 1) * standing
  {
    QuotientAtLeast(cwnd * 1000000, standing, rate + 1);
  }

  lemma IncreasesIff(cwnd: nat, t: Timing)
    requires Checked(t)
    ensures Increases(cwnd, t) <==> AsksForGrowth(cwnd, t)
  {
    var delay := t.latest - t.lowest;
    if delay > 0 {
      var target, current := 2 * MSS * 1000000 / delay, cwnd * 1000000 / t.standing;
      assert Increases(cwnd, t) <==> target >= current;
      hide Increases;
      TargetRate(target, delay);
      CurrentRate(cwnd, t.standing, target);
      assert target >= current ==> Between(target, cwnd, t);
      if AsksForGrowth(cwnd, t) {
        var rate: nat :| Between(rate, cwnd, t);
        TargetRate(rate, delay);
        CurrentRate(cwnd, t.standing, rate);
      }
    }
  }

  // ---- how far ------------------------------------------------------------------------------------------

  /** Twice the 64-bit product of acknowledged segments, segment size and velocity. */
  function Push(packets: nat, velocity: nat): nat { 2 * (packets * MSS * MSS * velocity % WORD) }

  lemma StepIs(packets: nat, velocity: nat, cwnd: nat)
    requires cwnd > 0
    ensures var d := StepSize(packets, velocity, cwnd);
      d * cwnd <= Push(packets, velocity) < (d + 1) * cwnd
  {
    var x := Push(packets, velocity);
    var d := StepSize(packets, velocity, cwnd);
    assert d == x / cwnd;
    hide Push, StepSize;
    QuotientAtLeast(x, cwnd, d);
    QuotientAtLeast(x, cwnd, d + 1);
  }

  /** The velocity that moves the window: the one after the look at it, or one if that look found the
      window going the other way. */
  function InForce(s: State, d: Direction, t: Timing): nat {
    var v := UpdateDirection(s, t.now, t.smoothed).v;
    if v.direction != d && v.velocity > 1 then 1 else v.velocity
  }

  /** Where the velocity record stands after feedback that wants direction d. */
  ghost predicate Noted(s: State, s': State, d: Direction, t: Timing) {
    var v := UpdateDirection(s, t.now, t.smoothed).v;
    s'.v == if v.direction != d && v.velocity > 1 then Velocity(1, d, 0, s.cwnd, t.now) else v
  }

  lemma MinTimes(d: nat, e: nat, room: nat, cwnd: nat, x: nat)
    requires e == Min(d, room) && d * cwnd <= x < (d + 1) * cwnd
    ensures e * cwnd <= x && (x < (e + 1) * cwnd || e == room)
  {
    MulMono(e, d, cwnd);
  }

  /** Feedback that does not ask for growth ends slow start and takes off the push, in windows, but no
      more than what is above the minimum. */
  lemma ShrinksBy(s: State, acked: seq<nat>, lost: seq<nat>, t: Timing)
    requires Steady(s) && Checked(t) && !AsksForGrowth(s.cwnd, t)
    ensures var o, x := Congestion(s, acked, lost, t), Push(|acked|, InForce(s, Down, t));
      && o.Goes? && !o.state.slowStart && Noted(s, o.state, Down, t) && o.state.v.velocity == InForce(s, Down, t)
      && var d := s.cwnd - o.state.cwnd;
      && d >= 0 && d * s.cwnd <= x
      && (x < (d + 1) * s.cwnd || o.state.cwnd == MIN_WINDOW) && o.state.cwnd >= MIN_WINDOW
  {
    IncreasesIff(s.cwnd, t);
    LostAllOnlyMarks(s, lost);
    Room(s.cwnd);
    var v := InForce(s, Down, t);
    StepIs(|acked|, v, s.cwnd);
    var d := StepSize(|acked|, v, s.cwnd);
    MinTimes(d, Min(d, s.cwnd - MIN_WINDOW), s.cwnd - MIN_WINDOW, s.cwnd, Push(|acked|, v));
    hide StepSize, Push, Increases, AsksForGrowth, TopOf, LostAll, VelocityAfter;
  }

  lemma MovesAtAllIff(d: nat, cwnd: nat, x: nat)
    requires cwnd > 0 && d * cwnd <= x < (d + 1) * cwnd
    ensures d > 0 <==> x >= cwnd
  {
    MulMono(1, d, cwnd);
  }

  lemma ExactPush(packets: nat, velocity: nat, cwnd: nat)
    requires packets * MSS == cwnd > 0 && cwnd * (MSS * velocity) < WORD
    ensures Push(packets, velocity) == 2 * (MSS * velocity) * cwnd
  {
    Regroup(cwnd, velocity);
    var product := cwnd * (MSS * velocity);
    assert product % WORD == product;
    assert 2 * product == 2 * (MSS * velocity) * cwnd;
  }

  lemma FitsIff(d: nat, cwnd: nat, x: nat)
    requires 0 < cwnd < WORD && d * cwnd <= x < (d + 1) * cwnd
    ensures d + cwnd < WORD <==> x < (WORD - cwnd) * cwnd
  {
    MulMono(d + 1, WORD - cwnd, cwnd);
    MulMono(WORD - cwnd, d, cwnd);
  }

  lemma QuotientHolds(e: nat, cwnd: nat)
    requires cwnd > 0
    ensures e * cwnd < (e + 1) * cwnd
  {
    assert (e + 1) * cwnd == e * cwnd + cwnd;
  }

  lemma OnlyQuotient(d: nat, e: nat, cwnd: nat)
    requires cwnd > 0 && d * cwnd <= e * cwnd < (d + 1) * cwnd
    ensures d == e
  {
    MulMono(d + 1, e, cwnd);
    MulMono(e + 1, d, cwnd);
    assert (e + 1) * cwnd == e * cwnd + cwnd;
  }

  lemma OnlyAmount(d: nat, e: nat, cwnd: nat, room: nat)
    requires cwnd > 0 && e <= room && d * cwnd <= e * cwnd && (e * cwnd < (d + 1) * cwnd || d == room)
    ensures d == e
  {
    if e * cwnd < (d + 1) * cwnd {
      OnlyQuotient(d, e, cwnd);
    } else {
      MulMono(e + 1, d, cwnd);
      QuotientHolds(e, cwnd);
    }
  }

  /** It takes something off exactly above the minimum with a push of at least a window. */
  lemma ShrinksIff(s: State, acked: seq<nat>, lost: seq<nat>, t: Timing)
    requires Steady(s) && Checked(t) && !AsksForGrowth(s.cwnd, t)
    ensures var o := Congestion(s, acked, lost, t);
      o.Goes? && (o.state.cwnd < s.cwnd <==> s.cwnd > MIN_WINDOW && Push(|acked|, o.state.v.velocity) >= s.cwnd)
  {
    ShrinksBy(s, acked, lost, t);
    var o := Congestion(s, acked, lost, t);
    hide Congestion, Push, InForce, Noted, AsksForGrowth;
    var d := s.cwnd - o.state.cwnd;
    MulMono(1, d, s.cwnd);
  }

  /** Acknowledging a whole window shrinks it by twice as many segments as the velocity says. */
  lemma WholeWindowShrinks(s: State, acked: seq<nat>, lost: seq<nat>, t: Timing, v: nat)
    requires Steady(s) && Checked(t) && !AsksForGrowth(s.cwnd, t) && v == InForce(s, Down, t)
    requires |acked| * MSS == s.cwnd >= MIN_WINDOW + 2 * (MSS * v) && s.cwnd * (MSS * v) < WORD
    ensures var o := Congestion(s, acked, lost, t);
      o.Goes? && o.state.cwnd == s.cwnd - 2 * (MSS * v) && o.state.v.velocity == v
  {
    assert s.cwnd > 0;
    hide *;
    ShrinksBy(s, acked, lost, t);
    ExactPush(|acked|, v, s.cwnd);
    var o := Congestion(s, acked, lost, t);
    OnlyAmount(s.cwnd - o.state.cwnd, 2 * (MSS * v), s.cwnd, s.cwnd - MIN_WINDOW);
  }

  /** Outside slow start, feedback that asks for growth adds the push, in windows, or runs into the
      overflow exception exactly when the sum would not fit 64 bits. */
  lemma GrowsBy(s: State, acked: seq<nat>, lost: seq<nat>, t: Timing)
    requires Steady(s) && Checked(t) && !s.slowStart && AsksForGrowth(s.cwnd, t)
    ensures var o, x := Congestion(s, acked, lost, t), Push(|acked|, InForce(s, Up, t));
      && (o.Goes? <==> x < (WORD - s.cwnd) * s.cwnd) && (!o.Goes? ==> o == Aborts(CwndOverflow))
      && (o.Goes? ==>
            && !o.state.slowStart && Noted(s, o.state, Up, t) && o.state.v.velocity == InForce(s, Up, t)
            && var d := o.state.cwnd - s.cwnd;
            && d >= 0 && d * s.cwnd <= x < (d + 1) * s.cwnd)
  {
    IncreasesIff(s.cwnd, t);
    LostAllOnlyMarks(s, lost);
    var v := InForce(s, Up, t);
    StepIs(|acked|, v, s.cwnd);
    var d := StepSize(|acked|, v, s.cwnd);
    FitsIff(d, s.cwnd, Push(|acked|, v));
    hide StepSize, Push, Increases, AsksForGrowth, TopOf, LostAll, VelocityAfter;
  }

  lemma GrowsIff(s: State, acked: seq<nat>, lost: seq<nat>, t: Timing)
    requires Steady(s) && Checked(t) && !s.slowStart && AsksForGrowth(s.cwnd, t)
    ensures var o := Congestion(s, acked, lost, t);
      o.Goes? ==> (o.state.cwnd > s.cwnd <==> Push(|acked|, o.state.v.velocity) >= s.cwnd)
  {
    GrowsBy(s, acked, lost, t);
    var o := Congestion(s, acked, lost, t);
    hide Congestion, Push, InForce, Noted, AsksForGrowth;
    if o.Goes? {
      MovesAtAllIff(o.state.cwnd - s.cwnd, s.cwnd, Push(|acked|, o.state.v.velocity));
    }
  }

  lemma WholeWindowGrows(s: State, acked: seq<nat>, lost: seq<nat>, t: Timing, v: nat)
    requires Steady(s) && Checked(t) && !s.slowStart && AsksForGrowth(s.cwnd, t) && v == InForce(s, Up, t)
    requires |acked| * MSS == s.cwnd && s.cwnd * (MSS * v) < WORD && s.cwnd + 2 * (MSS * v) < WORD
    ensures var o := Congestion(s, acked, lost, t);
      o.Goes? && o.state.cwnd == s.cwnd + 2 * (MSS * v) && o.state.v.velocity == v
  {
    assert 0 < s.cwnd < WORD;
    hide *;
    GrowsBy(s, acked, lost, t);
    ExactPush(|acked|, v, s.cwnd);
    var o := Congestion(s, acked, lost, t);
    var e := 2 * (MSS * v);
    QuotientHolds(e, s.cwnd);
    FitsIff(e, s.cwnd, e * s.cwnd);
    OnlyQuotient(o.state.cwnd - s.cwnd, e, s.cwnd);
  }

  // ---- slow start, losses, acknowledgements ---------------------------------------------------------------

  /** In slow start, feedback that asks for growth doubles the window a smoothed round trip and more after
      the last doubling, or after the first feedback, and else leaves it. */
  lemma SlowStartGrows(s: State, acked: seq<nat>, lost: seq<nat>, t: Timing)
    requires Steady(s) && Checked(t) && s.slowStart && AsksForGrowth(s.cwnd, t)
    ensures var o, doubles := Congestion(s, acked, lost, t), s.lastDouble > 0 && t.now > s.lastDouble + t.smoothed;
      && (o.Goes? <==> !doubles || 2 * s.cwnd < WORD) && (!o.Goes? ==> o == Aborts(CwndOverflow))
      && (o.Goes? ==>
            && o.state.slowStart && o.state.v == s.v
            && o.state.cwnd == (if doubles then 2 * s.cwnd else s.cwnd)
            && o.state.lastDouble == if doubles || s.lastDouble == 0 then t.now else s.lastDouble)
  {
    IncreasesIff(s.cwnd, t);
    LostAllOnlyMarks(s, lost);
    hide Increases, AsksForGrowth, TopOf, LostAll, VelocityAfter;
  }

  lemma {:induction false} TopIsLargest(top: Option<nat>, acked: seq<nat>)
    ensures forall p :: p in acked ==> TopOf(top, acked).Some? && p <= TopOf(top, acked).value
    ensures top.Some? ==> TopOf(top, acked).Some? && top.value <= TopOf(top, acked).value
    ensures TopOf(top, acked) == top || (TopOf(top, acked).Some? && TopOf(top, acked).value in acked)
  {
    if acked == [] {
    } else {
      var before, last := acked[..|acked| - 1], acked[|acked| - 1];
      assert acked == before + [last] && last in acked;
      assert forall p :: p in before ==> p in acked;
      assert forall p :: p in acked ==> p in before || p == last;
      TopIsLargest(top, before);
    }
  }

  ghost predicate Covered(packets: seq<nat>, mark: Option<nat>) {
    forall p :: p in packets ==> mark.Some? && p <= mark.value
  }

  /** The mark moves to the largest packet sent if a packet beyond it is lost, and else stays. */
  lemma {:induction false} LossesMark(s: State, lost: seq<nat>)
    requires Covered(lost, s.largestSent)
    ensures LostAll(s, lost).cutback ==
      if Covered(lost, s.cutback) then s.cutback else s.largestSent
  {
    if lost == [] {
    } else {
      var before := lost[..|lost| - 1];
      assert lost == before + [lost[|lost| - 1]];
      var last := lost[|lost| - 1];
      assert forall p :: p in before ==> p in lost;
      assert forall p :: p in lost ==> p in before || p == last;
      assert last in lost;
      LostAllOnlyMarks(s, before);
      LossesMark(s, before);
      assert LostAll(s, lost) == Lost(LostAll(s, before), last);
    }
  }

  ghost predicate SameMarks(s: State, s': State) {
    && s'.largestSent == s.largestSent && s'.largestAcked == s.largestAcked && s'.cutback == s.cutback
    && s'.initialCwnd == s.initialCwnd
  }

  lemma OnlyWindow(s: State, packets: nat, t: Timing)
    requires s.cwnd > 0
    ensures var u := UpdateDirection(s, t.now, t.smoothed);
      && (Grow(s, packets, t).Goes? ==> SameMarks(s, Grow(s, packets, t).state))
      && (Grow(u, packets, t).Goes? ==> SameMarks(s, Grow(u, packets, t).state))
      && (Shrink(u, packets, t).Goes? ==> SameMarks(s, Shrink(u, packets, t).state))
  {
    hide StepSize;
  }

  /** Whatever else feedback does: the largest acknowledged packet and the mark of the last cut. */
  lemma FeedbackMarks(s: State, acked: seq<nat>, lost: seq<nat>, t: Timing)
    requires s.cwnd > 0 && Covered(lost, s.largestSent)
    ensures var o := Congestion(s, acked, lost, t);
      o.Goes? ==>
        && o.state.largestSent == s.largestSent && o.state.initialCwnd == s.initialCwnd
        && (forall p :: p in acked ==> o.state.largestAcked.Some? && p <= o.state.largestAcked.value)
        && (s.largestAcked.Some? ==> o.state.largestAcked.Some? && s.largestAcked.value <= o.state.largestAcked.value)
        && (o.state.largestAcked == s.largestAcked || o.state.largestAcked.value in acked)
        && o.state.cutback ==
             if Covered(lost, s.cutback) then s.cutback else s.largestSent
  {
    LostAllOnlyMarks(s, lost);
    TopIsLargest(s.largestAcked, acked);
    LossesMark(s, lost);
    var s1 := LostAll(s, lost).(largestAcked := TopOf(s.largestAcked, acked));
    OnlyWindow(s1, |acked|, t);
    hide TopOf, LostAll, Grow, Shrink, Increases, UpdateDirection, Covered;
  }

  /** A fresh sender is in slow start, has no record yet, and takes a new size only until slow start ends. */
  lemma SizesAreSet(initial: nat, s: State, packets: nat)
    ensures var f := Fresh(initial);
      && f.cwnd == f.initialCwnd == initial * MSS && f.slowStart && f.lastDouble == 0
      && f.v.velocity == 1 && f.v.same == 0 && f.v.recordTime == 0
    ensures var r := SetInitial(s, packets);
      if s.slowStart then r == s.(cwnd := packets * MSS, initialCwnd := packets * MSS) else r == s
  {
  }
}
