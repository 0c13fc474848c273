/** The Vegas congestion controller: quic/model/cc-algo/vegas_sender.cc. */
module Vegas {
  import opened Arithmetic
  import opened Bytes
  import opened Segments

  const ALPHA: nat := 2 * MSS
  const BETA: nat := 4 * MSS
  const GAMMA: nat := 1 * MSS

  /** The fields of a sender. None stands for an uninitialised packet number, and in minRtt for an
      infinite time. Windows are in bytes, times in microseconds. */
  datatype State = State(
    largestSent: Option<nat>, largestAcked: Option<nat>, cutback: Option<nat>,
    cwnd: nat, initialCwnd: nat, ssthresh: nat,
    minRtt: Option<nat>, rttCount: nat, begSendNext: Option<nat>, numAcked: nat, vegasMode: bool)
  {
    predicate InSlowStart() { cwnd < ssthresh }

    predicate InRecovery() {
      largestAcked.Some? && cutback.Some? && largestAcked.value <= cutback.value
    }
  }

  function Fresh(initialPackets: nat, maxPackets: nat): State {
    State(None, None, None, initialPackets * MSS, initialPackets * MSS, maxPackets * MSS, None, 0, None, 0, true)
  }

  function Sent(s: State, packet: nat): State {
    s.(largestSent := Some(packet), begSendNext := if s.begSendNext.None? then Some(packet) else s.begSendNext)
  }

  function Reno(s: State): State {
    if s.InSlowStart() then s.(cwnd := s.cwnd + MSS)
    else if (s.numAcked + 1) * MSS >= s.cwnd then s.(cwnd := s.cwnd + MSS, numAcked := 0)
    else s.(numAcked := s.numAcked + 1)
  }

  /** A loss cuts the window, unless the packet was sent before the last cut. */
  function Lost(s: State, packet: nat): State {
    if s.cutback.Some? && packet <= s.cutback.value then s
    else
      var w := Max(s.cwnd / 2, MIN_WINDOW);
      s.(cwnd := w, ssthresh := w, cutback := s.largestSent, numAcked := 0)
  }

  /** The actual rate times the base round trip, in whole segments; 64-bit products. */
  function Target(cwnd: nat, base: nat, minRtt: nat): nat
    requires minRtt > 0
  {
    (cwnd * base % WORD / minRtt + MSS - 1) % WORD / MSS * MSS
  }

  /** Bytes queued in the network by the Vegas estimate; 64-bit products. */
  function Backlog(cwnd: nat, base: nat, minRtt: nat): nat
    requires 0 < base <= minRtt
  {
    cwnd * (minRtt - base) % WORD / base
  }

  /** The once-per-round-trip adjustment. */
  function Adjust(s: State, base: nat): State
    requires s.minRtt.Some? && 0 < base <= s.minRtt.value
  {
    var target := Target(s.cwnd, base, s.minRtt.value);
    var diff := Backlog(s.cwnd, base, s.minRtt.value);
    if diff > GAMMA && s.InSlowStart() then s.(cwnd := Min(s.cwnd, target), ssthresh := Min(s.cwnd, target))
    else if s.InSlowStart() then s.(cwnd := s.cwnd + MSS)
    else if diff > BETA then (if s.cwnd > MIN_WINDOW then s.(cwnd := s.cwnd - MSS) else s)
    else if diff < ALPHA then s.(cwnd := s.cwnd + MSS)
    else s
  }

  /** The checks an acknowledgement runs into: a mark has been set, and the divisions are defined. */
  predicate AckChecks(s: State, packet: nat, base: nat) {
    s.vegasMode ==>
      && s.begSendNext.Some?
      && (packet >= s.begSendNext.value && s.rttCount > 2 ==> s.minRtt.Some? && 0 < base <= s.minRtt.value)
  }

  function Acked(s: State, packet: nat, base: nat): State
    requires AckChecks(s, packet, base)
  {
    var top := if s.largestAcked.Some? then Max(s.largestAcked.value, packet) else packet;
    var s1 := s.(largestAcked := Some(top));
    if !s.vegasMode then Reno(s1)
    else if packet >= s.begSendNext.value then
      var s2 := s1.(begSendNext := s.largestSent);
      var s3 := if s.rttCount <= 2 then Reno(s2) else Adjust(s2, base);
      s3.(minRtt := None, rttCount := 0, cwnd := Max(s3.cwnd, MIN_WINDOW))
    else
      var s3 := if s1.InSlowStart() then s1.(cwnd := s1.cwnd + MSS) else s1;
      s3.(cwnd := Max(s3.cwnd, MIN_WINDOW))
  }

  function LostAll(s: State, lost: seq<nat>): State {
    if lost == [] then s else Lost(LostAll(s, lost[..|lost| - 1]), lost[|lost| - 1])
  }

  ghost predicate AllAckChecks(s: State, acked: seq<nat>, base: nat)
    decreases |acked|, 0
  {
    acked == [] ||
      (AllAckChecks(s, acked[..|acked| - 1], base) &&
       AckChecks(AckedAll(s, acked[..|acked| - 1], base), acked[|acked| - 1], base))
  }

  ghost function AckedAll(s: State, acked: seq<nat>, base: nat): State
    requires AllAckChecks(s, acked, base)
    decreases |acked|, 1
  {
    if acked == [] then s
    else Acked(AckedAll(s, acked[..|acked| - 1], base), acked[|acked| - 1], base)
  }

  /** A round-trip sample, one microsecond up so that it is never zero. */
  function Sampled(s: State, acked: seq<nat>, latestRtt: nat): State {
    if acked == [] then s else
      var rtt := latestRtt + 1;
      s.(minRtt := if s.minRtt.Some? then Some(Min(s.minRtt.value, rtt)) else Some(rtt), rttCount := s.rttCount + 1)
  }

  /** Entering recovery turns Vegas off; leaving it turns Vegas on and starts a new epoch. */
  function ModeSwitch(s: State, before: bool): State {
    if s.InRecovery() == before then s
    else if s.InRecovery() then s.(vegasMode := false)
    else s.(vegasMode := true, begSendNext := s.largestSent, minRtt := None, rttCount := 0)
  }

  ghost predicate EventChecks(s: State, latestRtt: nat, base: nat, acked: seq<nat>, lost: seq<nat>) {
    AllAckChecks(LostAll(Sampled(s, acked, latestRtt), lost), acked, base)
  }

  ghost function Congestion(s: State, latestRtt: nat, base: nat, acked: seq<nat>, lost: seq<nat>): State
    requires EventChecks(s, latestRtt, base, acked, lost)
  {
    ModeSwitch(AckedAll(LostAll(Sampled(s, acked, latestRtt), lost), acked, base), s.InRecovery())
  }

  function SetInitial(s: State, packets: nat): State {
    if s.InSlowStart() then s.(initialCwnd := packets * MSS, cwnd := packets * MSS) else s
  }

  // ---- the program -------------------------------------------------------------------------------

  lemma {:induction false} ChecksPrefix(s: State, acked: seq<nat>, i: nat, base: nat)
    requires i <= |acked| && AllAckChecks(s, acked, base)
    ensures AllAckChecks(s, acked[..i], base)
    decreases |acked|
  {
    if i < |acked| {
      ChecksPrefix(s, acked[..|acked| - 1], i, base);
      assert acked[..|acked| - 1][..i] == acked[..i];
    } else {
      assert acked[..i] == acked;
    }
  }

  class VegasSender {
    var largestSent: Option<nat>
    var largestAcked: Option<nat>
    var cutback: Option<nat>
    var cwnd: nat
    var initialCwnd: nat
    var ssthresh: nat
    var minRtt: Option<nat>
    var rttCount: nat
    var begSendNext: Option<nat>
    var numAcked: nat
    var vegasMode: bool

    function AsState(): State
      reads this
    {
      State(largestSent, largestAcked, cutback, cwnd, initialCwnd, ssthresh, minRtt, rttCount, begSendNext,
            numAcked, vegasMode)
    }

    constructor (initialPackets: nat, maxPackets: nat)
      ensures AsState() == Fresh(initialPackets, maxPackets)
    {
      largestSent, largestAcked, cutback := None, None, None;
      cwnd, initialCwnd, ssthresh := initialPackets * MSS, initialPackets * MSS, maxPackets * MSS;
      minRtt, rttCount, begSendNext, numAcked, vegasMode := None, 0, None, 0, true;
    }

    predicate InSlowStart()
      reads this
    {
      cwnd < ssthresh
    }

    predicate InRecovery()
      reads this
    {
      largestAcked.Some? && cutback.Some? && largestAcked.value <= cutback.value
    }

    method SetInitialCongestionWindowInPackets(packets: nat)
      modifies this
      ensures AsState() == SetInitial(old(AsState()), packets)
    {
      if InSlowStart() {
        initialCwnd := packets * MSS;
        cwnd := packets * MSS;
      }
    }

    method OnPacketSent(packet: nat)
      requires largestSent.Some? ==> largestSent.value < packet
      modifies this
      ensures AsState() == Sent(old(AsState()), packet)
    {
      largestSent := Some(packet);
      if begSendNext.None? {
        begSendNext := largestSent;
      }
    }

    method OnPacketLost(packet: nat)
      modifies this
      ensures AsState() == Lost(old(AsState()), packet)
    {
      if cutback.Some? && packet <= cutback.value {
        return;
      }
      cwnd := cwnd / 2;
      cwnd := Max(cwnd, MIN_WINDOW);
      ssthresh := cwnd;
      cutback := largestSent;
      numAcked := 0;
    }

    method IncreaseCongestionWindowAsReno()
      modifies this
      ensures AsState() == Reno(old(AsState()))
    {
      if InSlowStart() {
        cwnd := cwnd + MSS;
      } else {
        numAcked := numAcked + 1;
        if numAcked * MSS >= cwnd {
          cwnd := cwnd + MSS;
          numAcked := 0;
        }
      }
    }

    /** The Vegas part of OnPacketAcked. */
    method AdjustWindow(base: nat)
      requires minRtt.Some? && 0 < base <= minRtt.value
      modifies `cwnd, `ssthresh
      ensures AsState() == Adjust(old(AsState()), base)
    {
      var target := cwnd * base % WORD / minRtt.value;
      target := (target + MSS - 1) % WORD / MSS * MSS;
      var diff := cwnd * (minRtt.value - base) % WORD / base;
      assert target == Target(cwnd, base, minRtt.value) && diff == Backlog(cwnd, base, minRtt.value);
      hide Target, Backlog;
      if diff > GAMMA && InSlowStart() {
        cwnd := Min(cwnd, target);
        ssthresh := cwnd;
      } else if InSlowStart() {
        cwnd := cwnd + MSS;
      } else {
        if diff > BETA {
          if cwnd > MIN_WINDOW {
            cwnd := cwnd - MSS;
          }
        } else if diff < ALPHA {
          cwnd := cwnd + MSS;
        }
      }
    }

    method OnPacketAcked(packet: nat, base: nat)
      requires AckChecks(AsState(), packet, base)
      modifies this
      ensures AsState() == Acked(old(AsState()), packet, base)
    {
      hide Adjust, Reno;
      if largestAcked.None? || largestAcked.value < packet {
        largestAcked := Some(packet);
      }
      if !vegasMode {
        IncreaseCongestionWindowAsReno();
        return;
      }
      if packet >= begSendNext.value {
        begSendNext := largestSent;
        if rttCount <= 2 {
          IncreaseCongestionWindowAsReno();
        } else {
          AdjustWindow(base);
        }
        minRtt := None;
        rttCount := 0;
      } else if InSlowStart() {
        cwnd := cwnd + MSS;
      }
      cwnd := Max(cwnd, MIN_WINDOW);
    }

    /** base is what the windowed filter answers after this event's sample. */
    method OnCongestionEvent(latestRtt: nat, base: nat, acked: seq<nat>, lost: seq<nat>)
      requires EventChecks(AsState(), latestRtt, base, acked, lost)
      modifies this
      ensures AsState() == Congestion(old(AsState()), latestRtt, base, acked, lost)
    {
      ghost var s0 := AsState();
      if |acked| > 0 {
        var rtt := latestRtt + 1;
        if minRtt.None? || minRtt.value > rtt {
          minRtt := Some(rtt);
        }
        rttCount := rttCount + 1;
      }
      ghost var s1 := AsState();
      assert s1 == Sampled(s0, acked, latestRtt);
      var before := InRecovery();
      for i := 0 to |lost|
        invariant AsState() == LostAll(s1, lost[..i])
      {
        OnPacketLost(lost[i]);
        assert lost[..i + 1][..i] == lost[..i];
      }
      assert lost[..|lost|] == lost;
      ghost var s2 := AsState();
      for i := 0 to |acked|
        invariant AllAckChecks(s2, acked[..i], base) && AsState() == AckedAll(s2, acked[..i], base)
      {
        ChecksPrefix(s2, acked, i + 1, base);
        assert acked[..i + 1][..i] == acked[..i];
        OnPacketAcked(acked[i], base);
      }
      assert acked[..|acked|] == acked;
      if InRecovery() != before {
        if InRecovery() {
          vegasMode := false;
        } else {
          vegasMode := true;
          begSendNext := largestSent;
          minRtt := None;
          rttCount := 0;
        }
      }
    }
  }

  // ---- what every event keeps -----------------------------------------------------------------------

  /** Facts that hold at every point, also between the steps of one event. */
  ghost predicate Steady(s: State) {
    && s.cwnd >= MIN_WINDOW
    && (s.rttCount > 0 ==> s.minRtt.Some?) && (s.minRtt.Some? ==> s.minRtt.value >= 1)
    && (s.largestSent.Some? <==> s.begSendNext.Some?)
    && (s.largestSent.Some? ==> s.begSendNext.value <= s.largestSent.value)
    && (s.cutback.Some? ==> s.largestSent.Some? && s.cutback.value <= s.largestSent.value)
    && (s.largestAcked.Some? ==> s.largestSent.Some? && s.largestAcked.value <= s.largestSent.value)
  }

  /** At event boundaries Vegas is on exactly outside recovery. */
  ghost predicate Boundary(s: State) {
    Steady(s) && s.vegasMode == !s.InRecovery()
  }

  ghost predicate WasSent(s: State, packets: seq<nat>) {
    packets != [] ==>
      s.largestSent.Some? && forall i :: 0 <= i < |packets| ==> packets[i] <= s.largestSent.value
  }

  lemma WasSentPrefix(s: State, packets: seq<nat>)
    requires WasSent(s, packets) && packets != []
    ensures WasSent(s, packets[..|packets| - 1])
  {
  }

  /** Cuts move forward: the mark left by the last cut never falls back. */
  ghost predicate CutbackGrows(s: State, s': State) {
    s.cutback.Some? ==> s'.cutback.Some? && s.cutback.value <= s'.cutback.value
  }

  /** A loss either is ignored, because the packet was sent before the last cut, or halves the window
      down to four segments and strictly raises the mark, past the lost packet, and changes nothing else. */
  lemma LossCutsOncePerFlight(s: State, packet: nat)
    requires Steady(s) && WasSent(s, [packet])
    ensures var s' := Lost(s, packet);
            if s.cutback.Some? && packet <= s.cutback.value then s' == s
            else
              && s'.cutback.Some? && packet <= s'.cutback.value
              && (s.cutback.Some? ==> s.cutback.value < s'.cutback.value)
              && s'.cwnd == s'.ssthresh && MIN_WINDOW <= s'.cwnd <= s.cwnd
              && s'.cwnd == (if s.cwnd >= 2 * MIN_WINDOW then s.cwnd / 2 else MIN_WINDOW)
              && s'.numAcked == 0 && s'.cutback == s.largestSent
              && s == s'.(cwnd := s.cwnd, ssthresh := s.ssthresh, numAcked := s.numAcked, cutback := s.cutback)
              && forall later: nat :: later <= s'.largestSent.value ==> Lost(s', later) == s'
  {
    assert [packet][0] == packet;
  }

  lemma LostKeeps(s: State, packet: nat)
    requires Steady(s) && WasSent(s, [packet])
    ensures Steady(Lost(s, packet)) && Lost(s, packet).largestSent == s.largestSent
    ensures Lost(s, packet).minRtt == s.minRtt && Lost(s, packet).rttCount == s.rttCount
    ensures Lost(s, packet).cwnd <= s.cwnd && Lost(s, packet).initialCwnd == s.initialCwnd
    ensures Lost(s, packet).vegasMode == s.vegasMode && CutbackGrows(s, Lost(s, packet))
    ensures Lost(s, packet).begSendNext == s.begSendNext
  {
    assert [packet][0] == packet;
  }

  lemma {:induction false} LostAllKeeps(s: State, lost: seq<nat>)
    requires Steady(s) && WasSent(s, lost)
    ensures Steady(LostAll(s, lost)) && LostAll(s, lost).largestSent == s.largestSent
    ensures LostAll(s, lost).minRtt == s.minRtt && LostAll(s, lost).rttCount == s.rttCount
    ensures LostAll(s, lost).cwnd <= s.cwnd && LostAll(s, lost).initialCwnd == s.initialCwnd
    ensures LostAll(s, lost).vegasMode == s.vegasMode && CutbackGrows(s, LostAll(s, lost))
    ensures LostAll(s, lost).begSendNext == s.begSendNext
  {
    if lost == [] {
    } else {
      var before := lost[..|lost| - 1];
      WasSentPrefix(s, lost);
      LostAllKeeps(s, before);
      LostKeeps(LostAll(s, lost[..|lost| - 1]), lost[|lost| - 1]);
    }
  }

  lemma AckedKeeps(s: State, packet: nat, base: nat)
    requires Steady(s) && WasSent(s, [packet]) && AckChecks(s, packet, base)
    ensures var s' := Acked(s, packet, base);
            Steady(s') && s'.largestSent == s.largestSent && s'.cutback == s.cutback &&
            s'.cwnd <= s.cwnd + MSS && s'.initialCwnd == s.initialCwnd && s'.vegasMode == s.vegasMode
  {
    hide Target, Backlog;
    assert [packet][0] == packet;
  }

  lemma {:induction false} AckedAllKeeps(s: State, acked: seq<nat>, base: nat)
    requires Steady(s) && WasSent(s, acked) && AllAckChecks(s, acked, base)
    ensures var s' := AckedAll(s, acked, base);
            Steady(s') && s'.largestSent == s.largestSent && s'.cutback == s.cutback &&
            s'.cwnd <= s.cwnd + |acked| * MSS && s'.initialCwnd == s.initialCwnd && s'.vegasMode == s.vegasMode
  {
    if acked == [] {
    } else {
      var before := acked[..|acked| - 1];
      WasSentPrefix(s, acked);
      AckedAllKeeps(s, before, base);
      AckedKeeps(AckedAll(s, acked[..|acked| - 1], base), acked[|acked| - 1], base);
    }
  }

  /** When the checks of an event pass, the mode follows recovery and the window stays within bounds. */
  lemma CongestionKeeps(s: State, latestRtt: nat, base: nat, acked: seq<nat>, lost: seq<nat>)
    requires Boundary(s) && WasSent(s, acked) && WasSent(s, lost)
    requires EventChecks(s, latestRtt, base, acked, lost)
    ensures var s' := Congestion(s, latestRtt, base, acked, lost);
            Boundary(s') && s'.largestSent == s.largestSent && s'.initialCwnd == s.initialCwnd &&
            s'.cwnd <= s.cwnd + |acked| * MSS && CutbackGrows(s, s')
  {
    var s1 := Sampled(s, acked, latestRtt);
    LostAllKeeps(s1, lost);
    var s2 := LostAll(s1, lost);
    AckedAllKeeps(s2, acked, base);
  }

  // ---- when the checks pass --------------------------------------------------------------------------

  /** Vegas is on and one of the packets ends the epoch. */
  ghost predicate EndsEpoch(s: State, acked: seq<nat>) {
    s.vegasMode && s.begSendNext.Some? && exists i :: 0 <= i < |acked| && acked[i] >= s.begSendNext.value
  }

  lemma EndsEpochSnoc(s: State, acked: seq<nat>)
    requires acked != []
    ensures EndsEpoch(s, acked) <==>
            EndsEpoch(s, acked[..|acked| - 1]) ||
            (s.vegasMode && s.begSendNext.Some? && acked[|acked| - 1] >= s.begSendNext.value)
  {
    var before := acked[..|acked| - 1];
    assert forall i :: 0 <= i < |before| ==> before[i] == acked[i];
    if EndsEpoch(s, before) {
      var i :| 0 <= i < |before| && before[i] >= s.begSendNext.value;
      assert acked[i] >= s.begSendNext.value;
    }
    if EndsEpoch(s, acked) {
      var i :| 0 <= i < |acked| && acked[i] >= s.begSendNext.value;
      assert i == |before| || before[i] >= s.begSendNext.value;
    }
  }

  /** After the packet that ends an epoch there is no sample left; before it nothing has changed. */
  lemma {:induction false} EpochSoFar(s: State, acked: seq<nat>, base: nat)
    requires Steady(s) && WasSent(s, acked) && AllAckChecks(s, acked, base)
    ensures var s' := AckedAll(s, acked, base);
      if EndsEpoch(s, acked) then s'.rttCount == 0 && s'.minRtt.None? && s'.begSendNext == s.largestSent
      else s'.rttCount == s.rttCount && s'.minRtt == s.minRtt && s'.begSendNext == s.begSendNext
  {
    if acked == [] {
    } else {
      var before := acked[..|acked| - 1];
      WasSentPrefix(s, acked);
      EpochSoFar(s, before, base);
      AckedAllKeeps(s, before, base);
      EndsEpochSnoc(s, acked);
      hide Adjust, EndsEpoch;
    }
  }

  /** The base filter's answer matters only when an epoch with more than two samples ends; then it has to
      be positive and at most the epoch's smallest sample. */
  lemma {:induction false} AckChecksIff(s: State, acked: seq<nat>, base: nat)
    requires Steady(s) && WasSent(s, acked)
    ensures AllAckChecks(s, acked, base) <==>
            (EndsEpoch(s, acked) && s.rttCount > 2 ==> 0 < base <= s.minRtt.value)
  {
    if acked == [] {
    } else {
      var before := acked[..|acked| - 1];
      WasSentPrefix(s, acked);
      AckChecksIff(s, before, base);
      EndsEpochSnoc(s, acked);
      if AllAckChecks(s, before, base) {
        EpochSoFar(s, before, base);
        AckedAllKeeps(s, before, base);
      }
      hide Acked, EndsEpoch;
    }
  }

  lemma EventChecksIff(s: State, latestRtt: nat, base: nat, acked: seq<nat>, lost: seq<nat>)
    requires Boundary(s) && WasSent(s, acked) && WasSent(s, lost)
    ensures var s' := Sampled(s, acked, latestRtt);
      EventChecks(s, latestRtt, base, acked, lost) <==>
      (EndsEpoch(s', acked) && s'.rttCount > 2 ==> 0 < base <= s'.minRtt.value)
  {
    var s1 := Sampled(s, acked, latestRtt);
    LostAllKeeps(s1, lost);
    AckChecksIff(LostAll(s1, lost), acked, base);
  }

  // ---- what the adjustment aims at ------------------------------------------------------------------

  lemma BacklogThresholds(cwnd: nat, base: nat, minRtt: nat, extra: nat)
    requires 0 < base <= minRtt && extra == cwnd * (minRtt - base) < WORD
    ensures Backlog(cwnd, base, minRtt) > GAMMA <==> extra >= (GAMMA + 1) * base
    ensures Backlog(cwnd, base, minRtt) > BETA <==> extra >= (BETA + 1) * base
    ensures Backlog(cwnd, base, minRtt) < ALPHA <==> extra < ALPHA * base
  {
    QuotientAtLeast(extra, base, GAMMA + 1);
    QuotientAtLeast(extra, base, BETA + 1);
    QuotientAtLeast(extra, base, ALPHA);
    assert Backlog(cwnd, base, minRtt) == extra / base;
    hide *;
  }

  /** extra / base is the number of bytes in flight beyond what the base round trip explains. Outside
      slow start the window shrinks when that is more than BETA, grows when it is less than ALPHA, and
      holds in between; slow start ends when it is more than GAMMA. */
  lemma AdjustFollowsBacklog(s: State, base: nat, extra: nat)
    requires s.minRtt.Some? && 0 < base <= s.minRtt.value && s.cwnd >= MIN_WINDOW
    requires extra == s.cwnd * (s.minRtt.value - base) < WORD
    ensures var s' := Adjust(s, base);
      if s.InSlowStart() then
        if extra >= (GAMMA + 1) * base then !s'.InSlowStart() && s'.cwnd <= s.cwnd else s'.cwnd == s.cwnd + MSS
      else if extra >= (BETA + 1) * base then s'.cwnd == (if s.cwnd > MIN_WINDOW then s.cwnd - MSS else s.cwnd)
      else if extra < ALPHA * base then s'.cwnd == s.cwnd + MSS
      else s'.cwnd == s.cwnd
  {
    hide Backlog, Target;
    BacklogThresholds(s.cwnd, base, s.minRtt.value, extra);
  }

  lemma CeilingOf(q: nat)
    requires q < WORD - MSS
    ensures var t := (q + MSS - 1) % WORD / MSS * MSS; t % MSS == 0 && q <= t < q + MSS
  {
  }

  /** The window slow start leaves with: the actual rate times the base round trip, in whole segments. */
  lemma TargetIsCeiling(cwnd: nat, base: nat, minRtt: nat, x: nat)
    requires minRtt > 0 && x == cwnd * base < WORD - MSS
    ensures var t := Target(cwnd, base, minRtt);
      t % MSS == 0 && x / minRtt <= t < x / minRtt + MSS
  {
    QuotientShrinks(x, 1, minRtt);
    CeilingOf(x / minRtt);
    assert x % WORD == x;
    assert Target(cwnd, base, minRtt) == (x / minRtt + MSS - 1) % WORD / MSS * MSS;
    hide *;
  }

  /** The two estimates are exact quotients if and only if their 64-bit products do not wrap. */
  lemma EstimatesAreExactIff(cwnd: nat, base: nat, minRtt: nat, extra: nat, rate: nat)
    requires 0 < base <= minRtt <= WORD && extra == cwnd * (minRtt - base) && rate == cwnd * base
    ensures Backlog(cwnd, base, minRtt) == extra / base <==> extra < WORD
    ensures cwnd * base % WORD / minRtt == rate / minRtt <==> rate < WORD
  {
    assert Backlog(cwnd, base, minRtt) == extra % WORD / base;
    hide *;
    ReducedQuotientIff(extra, WORD, base);
    ReducedQuotientIff(rate, WORD, minRtt);
  }

  // ---- runs ---------------------------------------------------------------------------------------------

  datatype Event =
    | Send(packet: nat)
    | Feedback(latestRtt: nat, base: nat, acked: seq<nat>, lost: seq<nat>)
    | Resize(packets: nat)

  /** Packet numbers grow, only sent packets are reported, and a window that is set is at least four
      segments. */
  ghost predicate Allowed(s: State, e: Event) {
    match e
    case Send(packet) => s.largestSent.Some? ==> s.largestSent.value < packet
    case Feedback(_, _, acked, lost) =>
      WasSent(s, acked) && WasSent(s, lost)
    case Resize(packets) => packets >= 4
  }

  /** The checks and divisions the program runs into while it handles the event are all right. */
  ghost predicate ChecksPass(s: State, e: Event) {
    e.Feedback? ==> EventChecks(s, e.latestRtt, e.base, e.acked, e.lost)
  }

  ghost function Step(s: State, e: Event): State
    requires ChecksPass(s, e)
  {
    match e
    case Send(packet) => Sent(s, packet)
    case Feedback(latestRtt, base, acked, lost) =>
      Congestion(s, latestRtt, base, acked, lost)
    case Resize(packets) => SetInitial(s, packets)
  }

  ghost function AckedBy(e: Event): nat {
    if e.Feedback? then |e.acked| else 0
  }

  ghost function AckedIn(es: seq<Event>): nat {
    if es == [] then 0 else AckedIn(es[..|es| - 1]) + AckedBy(es[|es| - 1])
  }

  lemma StepKeeps(s: State, e: Event)
    requires Boundary(s) && Allowed(s, e) && ChecksPass(s, e)
    ensures Boundary(Step(s, e)) && CutbackGrows(s, Step(s, e))
    ensures s.largestSent.Some? ==> Step(s, e).largestSent.Some? && s.largestSent.value <= Step(s, e).largestSent.value
    ensures Step(s, e).cwnd <= Step(s, e).initialCwnd + (s.cwnd - s.initialCwnd) + AckedBy(e) * MSS
         || Step(s, e).cwnd <= Step(s, e).initialCwnd
  {
    match e
    case Send(packet) =>
    case Feedback(latestRtt, base, acked, lost) => CongestionKeeps(s, latestRtt, base, acked, lost);
    case Resize(packets) =>
  }

  /** ss are the states between the events es, from a fresh sender with at least four segments, as long as
      no check fails. */
  ghost predicate IsRun(initial: nat, max: nat, es: seq<Event>, ss: seq<State>) {
    && initial >= 4
    && |ss| == |es| + 1 && ss[0] == Fresh(initial, max)
    && forall i :: 0 <= i < |es| ==>
         Allowed(ss[i], es[i]) && ChecksPass(ss[i], es[i]) && ss[i + 1] == Step(ss[i], es[i])
  }

  /** At every event boundary of every run: the mode is the negation of recovery, and the window is
      between four segments and the initial window plus one segment per acknowledged packet. */
  lemma {:induction false} RunKeeps(initial: nat, max: nat, es: seq<Event>, ss: seq<State>, i: nat)
    requires IsRun(initial, max, es, ss) && i <= |es|
    ensures Boundary(ss[i])
    ensures MIN_WINDOW <= ss[i].cwnd <= ss[i].initialCwnd + AckedIn(es[..i]) * MSS
    decreases i
  {
    if i == 0 {
    } else {
      RunKeeps(initial, max, es, ss, i - 1);
      StepKeeps(ss[i - 1], es[i - 1]);
      assert es[..i][..i - 1] == es[..i - 1];
    }
  }

  lemma {:induction false} MarksOnlyGrow(initial: nat, max: nat, es: seq<Event>, ss: seq<State>, i: nat, j: nat)
    requires IsRun(initial, max, es, ss) && i <= j <= |es|
    ensures CutbackGrows(ss[i], ss[j])
    decreases j
  {
    if i == j {
    } else {
      MarksOnlyGrow(initial, max, es, ss, i, j - 1);
      RunKeeps(initial, max, es, ss, j - 1);
      StepKeeps(ss[j - 1], es[j - 1]);
    }
  }

  /** Once a cut has happened, no packet it covers ever causes another, for the rest of the run. */
  lemma NoSecondCut(initial: nat, max: nat, es: seq<Event>, ss: seq<State>, i: nat, j: nat, packet: nat)
    requires IsRun(initial, max, es, ss) && i <= j <= |es|
    requires ss[i].cutback.Some? && packet <= ss[i].cutback.value
    ensures Lost(ss[j], packet) == ss[j]
  {
    MarksOnlyGrow(initial, max, es, ss, i, j);
  }
}
