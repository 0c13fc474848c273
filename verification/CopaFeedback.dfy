/** What feedback a Copa sender can receive: quic/model/cc-algo/copa_sender.cc:18, 58-59, 108-116 and
    145-175. Packets are reported after they were sent, time does not run backwards, and round-trip
    times, their average and the two filters' answers fit the samples taken so far. */
module CopaFeedback {
  import opened Bytes
  import opened Copa

  /** kMinRTTWindowLength. */
  const MIN_RTT_WINDOW: nat := 10_000_000

  /** When an event happens; setting the window has no time of its own. */
  function At(e: Event): nat {
    match e
    case Send(_, at) => at
    case Feedback(_, _, t) => t.now
    case Resize(_) => 0
  }

  function LastTiming(es: seq<Event>): Option<Timing> {
    if es == [] then None
    else if es[|es| - 1].Feedback? then Some(es[|es| - 1].t)
    else LastTiming(es[..|es| - 1])
  }

  ghost predicate NotBefore(es: seq<Event>, now: nat) {
    forall j :: 0 <= j < |es| ==> At(es[j]) <= now
  }

  ghost predicate WasSent(es: seq<Event>, packet: nat) {
    exists j :: 0 <= j < |es| && es[j].Send? && es[j].packet == packet
  }

  ghost predicate Reported(es: seq<Event>, packet: nat) {
    exists j :: 0 <= j < |es| && es[j].Feedback? && packet in es[j].acked + es[j].lost
  }

  /** A report is not empty, and what it reports was sent and is reported once. */
  ghost predicate FirstReport(es: seq<Event>, packets: seq<nat>) {
    && packets != []
    && (forall p :: p in packets ==> WasSent(es, p) && !Reported(es, p))
    && (forall i, j :: 0 <= i < j < |packets| ==> packets[i] != packets[j])
  }

  /** One of the packets was sent so long ago. */
  ghost predicate SentAgo(es: seq<Event>, packets: seq<nat>, now: nat, ago: nat) {
    exists j :: 0 <= j < |es| && es[j].Send? && es[j].packet in packets && es[j].at + ago <= now
  }

  /** Seven eighths of the old average and one eighth of the sample, to within a microsecond. */
  predicate Averaged(was: nat, sample: nat, smoothed: nat) {
    7 * was + sample < 8 * smoothed + 8 && 8 * smoothed <= 7 * was + sample + 8
  }

  /** An acknowledgement brings a sample, no longer than the packet has been under way. */
  ghost predicate Sampled(es: seq<Event>, acked: seq<nat>, t: Timing) {
    && 0 < t.latest && SentAgo(es, acked, t.now, t.latest)
    && match LastTiming(es)
       case None => t.smoothed == t.latest
       case Some(was) => Averaged(was.smoothed, t.latest, t.smoothed)
  }

  /** Without a new sample the estimator still answers with the old one. */
  predicate Unsampled(es: seq<Event>, t: Timing) {
    match LastTiming(es)
    case None => false
    case Some(was) => t.latest == was.latest && t.smoothed == was.smoothed
  }

  /** The smallest of the answers the estimator gave in the last so many microseconds. */
  ghost predicate SmallestIn(es: seq<Event>, now: nat, window: nat, m: nat) {
    && (exists j :: 0 <= j < |es| && es[j].Feedback? && now <= es[j].t.now + window && es[j].t.latest == m)
    && (forall j :: 0 <= j < |es| && es[j].Feedback? && now <= es[j].t.now + window ==> m <= es[j].t.latest)
  }

  ghost predicate FiltersAnswer(es: seq<Event>, t: Timing) {
    SmallestIn(es, t.now, MIN_RTT_WINDOW, t.lowest) && SmallestIn(es, t.now, t.smoothed / 2, t.standing)
  }

  /** e can happen after es. */
  ghost predicate CanCome(es: seq<Event>, e: Event) {
    match e
    case Send(packet, at) =>
      NotBefore(es, at) && forall j :: 0 <= j < |es| && es[j].Send? ==> es[j].packet < packet
    case Resize(_) => true
    case Feedback(acked, lost, t) =>
      && NotBefore(es, t.now) && FirstReport(es, acked + lost)
      && (Sampled(es, acked, t) || Unsampled(es, t))
      && FiltersAnswer(es + [e], t)
  }

  ghost predicate Receivable(es: seq<Event>) {
    es == [] || (Receivable(es[..|es| - 1]) && CanCome(es[..|es| - 1], es[|es| - 1]))
  }

  lemma OneMore(es: seq<Event>, e: Event)
    requires Receivable(es) && CanCome(es, e)
    ensures Receivable(es + [e])
  {
    assert (es + [e])[..|es|] == es;
    hide CanCome;
  }

  lemma {:induction false} Prefix(es: seq<Event>, n: nat)
    requires Receivable(es) && n <= |es|
    ensures Receivable(es[..n])
    decreases |es|
  {
    hide CanCome;
    if n == |es| {
      assert es[..n] == es;
    } else {
      Prefix(es[..|es| - 1], n);
      assert es[..|es| - 1][..n] == es[..n];
    }
  }

  /** What came n-th could come after what came before. */
  lemma NthCame(es: seq<Event>, n: nat)
    requires Receivable(es) && n < |es|
    ensures CanCome(es[..n], es[n])
  {
    Prefix(es, n + 1);
    assert es[..n + 1][..n] == es[..n] && es[..n + 1][n] == es[n];
    hide CanCome;
  }

  // ---- no check fails ----------------------------------------------------------------------------------

  lemma {:induction false} LastTimingIs(es: seq<Event>) returns (j: nat)
    requires LastTiming(es).Some?
    ensures j < |es| && es[j].Feedback? && es[j].t == LastTiming(es).value
  {
    if es[|es| - 1].Feedback? {
      j := |es| - 1;
    } else {
      j := LastTimingIs(es[..|es| - 1]);
    }
  }

  lemma {:induction false} SamplesArePositive(es: seq<Event>, j: nat)
    requires Receivable(es) && j < |es| && es[j].Feedback?
    ensures es[j].t.latest > 0
    decreases |es|
  {
    if j < |es| - 1 {
      SamplesArePositive(es[..|es| - 1], j);
    } else if Unsampled(es[..|es| - 1], es[j].t) {
      var i := LastTimingIs(es[..|es| - 1]);
      SamplesArePositive(es[..|es| - 1], i);
    }
  }

  /** Both checks on an acknowledgement pass. */
  lemma ChecksPass(es: seq<Event>, e: Event)
    requires Receivable(es) && CanCome(es, e) && e.Feedback?
    ensures 0 < e.t.lowest <= e.t.latest && 0 < e.t.standing <= e.t.latest
  {
    OneMore(es, e);
    var fs := es + [e];
    assert fs[|es|] == e;
    hide Receivable;
    forall j | 0 <= j < |fs| && fs[j].Feedback?
      ensures fs[j].t.latest > 0
    {
      SamplesArePositive(fs, j);
    }
  }
}
