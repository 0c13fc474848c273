/** Vegas's epochs as history: which packet ends one, and which round-trip samples it has brought:
    quic/model/cc-algo/vegas_sender.cc:74-122 and 167-187. */
module VegasEpochs {
  import opened Bytes
  import opened Vegas

  // ---- one acknowledgement, one event -------------------------------------------------------------------

  /** The acknowledgement that ends an epoch moves the mark: nothing sent before the newest packet ends
      the next one, and that packet does. */
  lemma MarkMoves(s: State, p: nat, base: nat)
    requires Steady(s) && WasSent(s, [p]) && AckChecks(s, p, base) && EndsEpoch(s, [p])
    ensures var s' := Acked(s, p, base);
      && (forall q: nat :: q < s.largestSent.value ==> !EndsEpoch(s', [q]))
      && EndsEpoch(s', [s.largestSent.value])
  {
    assert [p][0] == p && [s.largestSent.value][0] == s.largestSent.value;
    hide Adjust, Reno;
  }

  /** A new epoch begins with the acknowledgement of a packet at or beyond the mark, and when Vegas is
      switched on again. */
  ghost predicate Begins(s: State, acked: seq<nat>, s': State) {
    EndsEpoch(s, acked) || (!s.vegasMode && s'.vegasMode)
  }

  lemma EventEpoch(s: State, latestRtt: nat, base: nat, acked: seq<nat>, lost: seq<nat>)
    requires Boundary(s) && WasSent(s, acked) && WasSent(s, lost) && EventChecks(s, latestRtt, base, acked, lost)
    ensures var s', s1 := Congestion(s, latestRtt, base, acked, lost), Sampled(s, acked, latestRtt);
      if Begins(s, acked, s') then s'.begSendNext == s.largestSent && s'.rttCount == 0 && s'.minRtt.None?
      else s'.begSendNext == s.begSendNext && s'.rttCount == s1.rttCount && s'.minRtt == s1.minRtt
  {
    var s1 := Sampled(s, acked, latestRtt);
    LostAllKeeps(s1, lost);
    var s2 := LostAll(s1, lost);
    EpochSoFar(s2, acked, base);
    AckedAllKeeps(s2, acked, base);
    hide AckedAll, LostAll, WasSent;
  }

  // ---- the history ----------------------------------------------------------------------------------------

  /** The newest packet that has been sent. */
  function LastSent(es: seq<Event>): Option<nat> {
    if es == [] then None
    else if es[|es| - 1].Send? then Some(es[|es| - 1].packet)
    else LastSent(es[..|es| - 1])
  }

  function NewSamples(e: Event): seq<nat> {
    if e.Feedback? && e.acked != [] then [e.latestRtt + 1] else []
  }

  /** The samples since the epoch began, each a microsecond up. */
  ghost function Samples(es: seq<Event>, ss: seq<State>, i: nat): seq<nat>
    requires i <= |es| && |ss| == |es| + 1
  {
    if i == 0 then []
    else if es[i - 1].Feedback? && Begins(ss[i - 1], es[i - 1].acked, ss[i]) then []
    else Samples(es, ss, i - 1) + NewSamples(es[i - 1])
  }

  /** The packet whose acknowledgement ends the epoch: the newest one when it began, or the first of all. */
  ghost function Mark(es: seq<Event>, ss: seq<State>, i: nat): Option<nat>
    requires i <= |es| && |ss| == |es| + 1
  {
    if i == 0 then None
    else match es[i - 1]
         case Send(packet) => if Mark(es, ss, i - 1).None? then Some(packet) else Mark(es, ss, i - 1)
         case Feedback(_, _, acked, _) =>
           if Begins(ss[i - 1], acked, ss[i]) then LastSent(es[..i - 1]) else Mark(es, ss, i - 1)
         case Resize(_) => Mark(es, ss, i - 1)
  }

  ghost predicate SmallestOf(m: Option<nat>, samples: seq<nat>) {
    if samples == [] then m.None?
    else m.Some? && m.value in samples && forall x :: x in samples ==> m.value <= x
  }

  lemma SampleCounts(s: State, e: Event, samples: seq<nat>)
    requires e.Feedback? && s.rttCount == |samples| && SmallestOf(s.minRtt, samples)
    ensures var s1, all := Sampled(s, e.acked, e.latestRtt), samples + NewSamples(e);
      s1.rttCount == |all| && SmallestOf(s1.minRtt, all)
  {
    var all := samples + NewSamples(e);
    if e.acked == [] {
      assert all == samples;
    } else {
      assert forall x :: x in all <==> x in samples || x == e.latestRtt + 1;
    }
  }

  /** The mark, the number of samples and the smallest of them are those of the history. */
  ghost predicate Tells(es: seq<Event>, ss: seq<State>, i: nat)
    requires i <= |es| && |ss| == |es| + 1
  {
    && ss[i].largestSent == LastSent(es[..i])
    && ss[i].begSendNext == Mark(es, ss, i)
    && ss[i].rttCount == |Samples(es, ss, i)| && SmallestOf(ss[i].minRtt, Samples(es, ss, i))
  }

  lemma StepTells(es: seq<Event>, ss: seq<State>, i: nat)
    requires i < |es| && |ss| == |es| + 1 && Tells(es, ss, i)
    requires Boundary(ss[i]) && Allowed(ss[i], es[i]) && ChecksPass(ss[i], es[i]) && ss[i + 1] == Step(ss[i], es[i])
    ensures Tells(es, ss, i + 1)
  {
    var s, e := ss[i], es[i];
    assert es[..i + 1][..i] == es[..i] && es[..i + 1][i] == e;
    hide EventChecks, Boundary, WasSent, SmallestOf, Sampled, EndsEpoch, Congestion;
    if e.Feedback? {
      EventEpoch(s, e.latestRtt, e.base, e.acked, e.lost);
      SampleCounts(s, e, Samples(es, ss, i));
      CongestionKeeps(s, e.latestRtt, e.base, e.acked, e.lost);
    }
  }

  lemma StepOf(initial: nat, max: nat, es: seq<Event>, ss: seq<State>, i: nat)
    requires IsRun(initial, max, es, ss) && i < |es|
    ensures |ss| == |es| + 1 && Allowed(ss[i], es[i]) && ChecksPass(ss[i], es[i]) && ss[i + 1] == Step(ss[i], es[i])
  {
  }

  /** In every run the state tells the history. */
  lemma {:induction false} StateIsHistory(initial: nat, max: nat, es: seq<Event>, ss: seq<State>, i: nat)
    requires IsRun(initial, max, es, ss) && i <= |es|
    ensures |ss| == |es| + 1 && Tells(es, ss, i)
    decreases i
  {
    if i == 0 {
    } else {
      hide *;
      StateIsHistory(initial, max, es, ss, i - 1);
      RunKeeps(initial, max, es, ss, i - 1);
      StepOf(initial, max, es, ss, i - 1);
      StepTells(es, ss, i - 1);
    }
  }

  // ---- when the checks pass ---------------------------------------------------------------------------------

  /** In any run an event passes its checks and divisions exactly when the base filter's answer is positive
      and not above any sample of the epoch, or is not used: it is used when one of the packets ends an
      epoch of more than two samples. */
  lemma ChecksPassIff(initial: nat, max: nat, es: seq<Event>, ss: seq<State>, e: Event)
    requires IsRun(initial, max, es, ss) && Allowed(ss[|es|], e)
    ensures ChecksPass(ss[|es|], e) <==>
            (e.Feedback? ==>
               var samples := Samples(es, ss, |es|) + NewSamples(e);
               EndsEpoch(ss[|es|], e.acked) && |samples| > 2 ==> 0 < e.base && forall x :: x in samples ==> e.base <= x)
  {
    RunKeeps(initial, max, es, ss, |es|);
    if e.Feedback? {
      var s, samples := ss[|es|], Samples(es, ss, |es|) + NewSamples(e);
      StateIsHistory(initial, max, es, ss, |es|);
      SampleCounts(s, e, Samples(es, ss, |es|));
      EventChecksIff(s, e.latestRtt, e.base, e.acked, e.lost);
      var s1 := Sampled(s, e.acked, e.latestRtt);
      assert EndsEpoch(s1, e.acked) == EndsEpoch(s, e.acked);
      hide IsRun, EventChecks, Boundary, WasSent, Sampled, EndsEpoch;
    }
  }

  /** A filter that answers with a positive value not above the epoch's samples fails no check. */
  lemma NoCheckFails(initial: nat, max: nat, es: seq<Event>, ss: seq<State>, e: Event)
    requires IsRun(initial, max, es, ss) && Allowed(ss[|es|], e)
    requires e.Feedback? ==>
               0 < e.base && forall x :: x in Samples(es, ss, |es|) + NewSamples(e) ==> e.base <= x
    ensures ChecksPass(ss[|es|], e)
  {
    ChecksPassIff(initial, max, es, ss, e);
  }

  // ---- epochs are a round trip apart -------------------------------------------------------------------------

  /** The mark only moves forward. */
  ghost predicate MarkGrows(s: State, s': State) {
    s.begSendNext.Some? ==> s'.begSendNext.Some? && s.begSendNext.value <= s'.begSendNext.value
  }

  lemma StepMovesMark(s: State, e: Event)
    requires Boundary(s) && Allowed(s, e) && ChecksPass(s, e)
    ensures MarkGrows(s, Step(s, e))
    ensures e.Feedback? && EndsEpoch(s, e.acked) ==> Step(s, e).begSendNext == s.largestSent
  {
    if e.Feedback? {
      EventEpoch(s, e.latestRtt, e.base, e.acked, e.lost);
      hide Congestion;
    }
  }

  lemma {:induction false} MarksGrow(initial: nat, max: nat, es: seq<Event>, ss: seq<State>, i: nat, j: nat)
    requires IsRun(initial, max, es, ss) && i <= j <= |es|
    ensures MarkGrows(ss[i], ss[j])
    decreases j
  {
    if i == j {
    } else {
      MarksGrow(initial, max, es, ss, i, j - 1);
      RunKeeps(initial, max, es, ss, j - 1);
      StepMovesMark(ss[j - 1], es[j - 1]);
    }
  }

  /** Between two events that end an epoch a packet is acknowledged that is not older than anything sent
      before the first. */
  lemma EpochsAreApart(initial: nat, max: nat, es: seq<Event>, ss: seq<State>, i: nat, j: nat) returns (packet: nat)
    requires IsRun(initial, max, es, ss) && i < j < |es| && es[i].Feedback? && es[j].Feedback?
    requires EndsEpoch(ss[i], es[i].acked) && EndsEpoch(ss[j], es[j].acked)
    ensures packet in es[j].acked && LastSent(es[..i]).Some? && LastSent(es[..i]).value <= packet
  {
    RunKeeps(initial, max, es, ss, i);
    StateIsHistory(initial, max, es, ss, i);
    StepMovesMark(ss[i], es[i]);
    assert ss[i + 1] == Step(ss[i], es[i]);
    MarksGrow(initial, max, es, ss, i + 1, j);
    var k :| 0 <= k < |es[j].acked| && es[j].acked[k] >= ss[j].begSendNext.value;
    packet := es[j].acked[k];
  }
}
