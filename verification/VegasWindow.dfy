/** What acknowledgements do to the Vegas window, exactly: quic/model/cc-algo/vegas_sender.cc:65-73 and 167-233. */
module VegasWindow {
  import opened Arithmetic
  import opened Bytes
  import opened Segments
  import opened Vegas

  // ---- Reno --------------------------------------------------------------------------------------------------

  /** How far Reno has come after n acknowledgements from s: in slow start a segment each, as long as the
      threshold has not been passed; otherwise nothing before a window has been acknowledged, and then one
      segment and a new count. */
  ghost predicate RenoAfter(s: State, n: nat, s': State) {
    && (s.InSlowStart() && s.cwnd + n * MSS < s.ssthresh + MSS ==>
          s'.cwnd == s.cwnd + n * MSS && s'.numAcked == s.numAcked)
    && (!s.InSlowStart() && (s.numAcked + n) * MSS < s.cwnd ==>
          s'.cwnd == s.cwnd && s'.numAcked == s.numAcked + n)
    && (!s.InSlowStart() && n > 0 && (s.numAcked + n - 1) * MSS < s.cwnd <= (s.numAcked + n) * MSS ==>
          s'.cwnd == s.cwnd + MSS && s'.numAcked == 0)
  }

  lemma OneReno(s: State, n: nat, s': State)
    requires RenoAfter(s, n, s') && s'.ssthresh == s.ssthresh
    requires !s.InSlowStart() ==> (s.numAcked + n) * MSS < s.cwnd
    ensures RenoAfter(s, n + 1, Reno(s'))
  {
  }

  /** With Vegas off every acknowledgement is a Reno step. */
  lemma {:induction false} RenoCounts(s: State, acked: seq<nat>, base: nat)
    requires !s.vegasMode
    ensures AllAckChecks(s, acked, base)
    ensures var s' := AckedAll(s, acked, base);
      !s'.vegasMode && s'.ssthresh == s.ssthresh && s'.begSendNext == s.begSendNext && RenoAfter(s, |acked|, s')
  {
    if acked == [] {
    } else {
      var before := acked[..|acked| - 1];
      RenoCounts(s, before, base);
      var s1 := AckedAll(s, before, base);
      if s.InSlowStart() || (s.numAcked + |before|) * MSS < s.cwnd {
        OneReno(s, |before|, s1);
      }
      hide AllAckChecks;
    }
  }

  /** An event without losses while Vegas is off passes its checks, whatever the base filter answers, and
      moves the window by so many Reno steps. */
  lemma RecoveryGrows(s: State, latestRtt: nat, base: nat, acked: seq<nat>)
    requires !s.vegasMode
    ensures EventChecks(s, latestRtt, base, acked, [])
    ensures var s' := Congestion(s, latestRtt, base, acked, []);
      s'.ssthresh == s.ssthresh && RenoAfter(s, |acked|, s')
  {
    var s1 := Sampled(s, acked, latestRtt);
    assert LostAll(s1, []) == s1;
    RenoCounts(s1, acked, base);
  }

  // ---- within an epoch ---------------------------------------------------------------------------------------

  /** Acknowledgements that do not end the epoch grow the window in slow start, a segment each as long as the
      threshold has not been passed, and otherwise leave it; they touch nothing else. */
  lemma {:induction false} EpochGrows(s: State, acked: seq<nat>, base: nat)
    requires s.vegasMode && s.begSendNext.Some? && s.cwnd >= MIN_WINDOW
    requires forall i :: 0 <= i < |acked| ==> acked[i] < s.begSendNext.value
    ensures AllAckChecks(s, acked, base)
    ensures var s' := AckedAll(s, acked, base);
      && s' == s.(largestAcked := s'.largestAcked, cwnd := s'.cwnd)
      && (!s.InSlowStart() ==> s'.cwnd == s.cwnd)
      && (s.InSlowStart() && s.cwnd + |acked| * MSS < s.ssthresh + MSS ==> s'.cwnd == s.cwnd + |acked| * MSS)
      && s'.cwnd >= s.cwnd
  {
    if acked == [] {
    } else {
      var before := acked[..|acked| - 1];
      EpochGrows(s, before, base);
      assert before == acked[..|acked| - 1];
      hide Adjust, Reno;
    }
  }

  // ---- at the end of an epoch ---------------------------------------------------------------------------------

  /** The acknowledgement of a packet at or beyond the mark. */
  ghost predicate Ends(s: State, packet: nat) {
    s.vegasMode && s.begSendNext.Some? && packet >= s.begSendNext.value && s.cwnd >= MIN_WINDOW
  }

  /** With at most two samples an epoch ends with a Reno step. */
  lemma FewSamplesMeanReno(s: State, packet: nat, base: nat)
    requires Ends(s, packet) && s.rttCount <= 2
    ensures AckChecks(s, packet, base)
    ensures var s' := Acked(s, packet, base);
      s'.ssthresh == s.ssthresh && RenoAfter(s, 1, s')
  {
  }

  /** A multiple of the segment size, not below the quotient and less than a segment above it. */
  ghost predicate RoundedUp(t: nat, x: nat, n: nat)
    requires n > 0
  {
    t % MSS == 0 && x / n <= t < x / n + MSS
  }

  /** With more, slow start either goes on by a segment, or ends at the smaller of the window and the rate
      that the base round trip allows, rounded up to segments, when more than GAMMA bytes are in excess. */
  lemma SlowStartEnds(s: State, packet: nat, base: nat, extra: nat, rate: nat)
    requires Ends(s, packet) && s.rttCount > 2 && s.InSlowStart()
    requires s.minRtt.Some? && 0 < base <= s.minRtt.value
    requires extra == s.cwnd * (s.minRtt.value - base) < WORD && rate == s.cwnd * base < WORD - MSS
    ensures AckChecks(s, packet, base)
    ensures var s' := Acked(s, packet, base);
      if extra >= (GAMMA + 1) * base then
        && s'.cwnd == Max(s'.ssthresh, MIN_WINDOW)
        && exists t: nat :: RoundedUp(t, rate, s.minRtt.value) && s'.ssthresh == Min(s.cwnd, t)
      else s'.cwnd == s.cwnd + MSS && s'.ssthresh == s.ssthresh
    ensures Acked(s, packet, base).numAcked == s.numAcked
  {
    BacklogThresholds(s.cwnd, base, s.minRtt.value, extra);
    TargetIsCeiling(s.cwnd, base, s.minRtt.value, rate);
    assert RoundedUp(Target(s.cwnd, base, s.minRtt.value), rate, s.minRtt.value);
    hide Backlog, Target, RoundedUp;
  }

  /** Outside slow start it takes a segment off above BETA bytes in excess, down to four segments, adds one
      below ALPHA, and holds in between. */
  lemma EpochAdjusts(s: State, packet: nat, base: nat, extra: nat)
    requires Ends(s, packet) && s.rttCount > 2 && !s.InSlowStart()
    requires s.minRtt.Some? && 0 < base <= s.minRtt.value && extra == s.cwnd * (s.minRtt.value - base) < WORD
    ensures AckChecks(s, packet, base)
    ensures var s' := Acked(s, packet, base);
      && s'.ssthresh == s.ssthresh && s'.numAcked == s.numAcked
      && s'.cwnd == if extra >= (BETA + 1) * base then Max(s.cwnd - MSS, MIN_WINDOW)
                    else if extra < ALPHA * base then s.cwnd + MSS
                    else s.cwnd
  {
    BacklogThresholds(s.cwnd, base, s.minRtt.value, extra);
    hide Backlog, Target;
  }

  /** Switching Vegas off or on leaves everything but the epoch alone. */
  lemma SwitchKeepsWindow(s: State, before: bool)
    ensures var r := ModeSwitch(s, before);
      && r == s.(vegasMode := r.vegasMode, begSendNext := r.begSendNext, minRtt := r.minRtt, rttCount := r.rttCount)
      && r.vegasMode == (if s.InRecovery() == before then s.vegasMode else before)
      && (s.InRecovery() || !before ==>
            r.begSendNext == s.begSendNext && r.minRtt == s.minRtt && r.rttCount == s.rttCount)
  {
  }

  // ---- acknowledged packets, sizes ---------------------------------------------------------------------------

  lemma OneAcked(s: State, packet: nat, base: nat)
    requires AckChecks(s, packet, base)
    ensures Acked(s, packet, base).largestAcked ==
            Some(if s.largestAcked.Some? then Max(s.largestAcked.value, packet) else packet)
  {
    hide Target, Backlog;
  }

  /** The largest acknowledged packet is the largest of all. */
  lemma {:induction false} LargestIsKept(s: State, acked: seq<nat>, base: nat)
    requires AllAckChecks(s, acked, base)
    ensures var top := AckedAll(s, acked, base).largestAcked;
      && (forall p :: p in acked ==> top.Some? && p <= top.value)
      && (s.largestAcked.Some? ==> top.Some? && s.largestAcked.value <= top.value)
      && (top == s.largestAcked || (top.Some? && top.value in acked))
  {
    if acked == [] {
    } else {
      var before, last := acked[..|acked| - 1], acked[|acked| - 1];
      assert acked == before + [last];
      assert forall p :: p in before ==> p in acked;
      assert forall p :: p in acked ==> p in before || p == last;
      assert last in acked;
      LargestIsKept(s, before, base);
      hide Acked, AckChecks;
      OneAcked(AckedAll(s, before, base), last, base);
    }
  }

  /** A fresh sender is in slow start below its largest window, and takes a new size only there. */
  lemma SizesAreSet(initial: nat, max: nat, s: State, packets: nat)
    ensures var f := Fresh(initial, max);
      f.cwnd == f.initialCwnd == initial * MSS && f.vegasMode && (f.InSlowStart() <==> initial < max)
    ensures var r := SetInitial(s, packets);
      if s.InSlowStart() then r == s.(cwnd := packets * MSS, initialCwnd := packets * MSS) else r == s
  {
  }
}
