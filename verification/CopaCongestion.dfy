/** A run in which a Copa sender freezes: one packet at a time on a path whose round trip grows from 10
    to 21 milliseconds after the first one and stays there. */
module CopaCongestion {
  import opened Bytes
  import opened Copa
  import opened CopaFeedback
  import opened CopaVelocity
  import opened Segments

  const ROUNDS: nat := 69

  /** The smoothed round-trip time after so many samples of 21 milliseconds. */
  function Smoothed(n: nat): (s: nat)
    ensures 10000 <= s <= 21000
  {
    if n == 0 then 10000 else (7 * Smoothed(n - 1) + 21000) / 8
  }

  function CongestedAt(n: nat): Timing {
    if n == 0 then Timing(10000, 10000, 10000, 10000, 10000)
    else Timing(10000 + 21000 * n, 21000, Smoothed(n), 10000, 21000)
  }

  /** Every packet is sent when the one before it is acknowledged. */
  function SentAt(n: nat): nat {
    if n == 0 then 0 else CongestedAt(n - 1).now
  }

  function SendAt(n: nat): Event { Send(n, SentAt(n)) }

  function AckAt(n: nat): Event { Feedback([n], [], CongestedAt(n)) }

  function Events(n: nat): (es: seq<Event>)
    ensures |es| == 2 * n
  {
    if n == 0 then [] else Events(n - 1) + [SendAt(n - 1)] + [AckAt(n - 1)]
  }

  // ---- it can be received ------------------------------------------------------------------------------

  /** An event of the first n rounds: time is up to the n-th sending, packets are below n. */
  predicate Earlier(e: Event, n: nat) {
    && At(e) <= SentAt(n)
    && match e
       case Send(packet, _) => packet < n
       case Feedback(acked, lost, t) => |acked| == 1 && acked[0] < n && lost == [] && 10000 <= t.latest
       case Resize(_) => false
  }

  ghost predicate Past(es: seq<Event>, n: nat) {
    && (forall j :: 0 <= j < |es| ==> Earlier(es[j], n))
    && LastTiming(es) == (if n == 0 then None else Some(CongestedAt(n - 1)))
    && (n > 0 ==> 1 < |es| && es[1] == AckAt(0))
  }

  lemma StillEarlier(e: Event, n: nat)
    requires Earlier(e, n)
    ensures Earlier(e, n + 1)
  {
  }

  lemma {:induction false} EventsArePast(n: nat)
    ensures Past(Events(n), n)
  {
    if n == 0 {
    } else {
      EventsArePast(n - 1);
      var es, fs := Events(n - 1), Events(n);
      assert fs[..|fs| - 1] == es + [SendAt(n - 1)];
      forall j | 0 <= j < |fs|
        ensures Earlier(fs[j], n)
      {
        if j < |es| {
          StillEarlier(es[j], n - 1);
        }
      }
    }
  }

  lemma SendComes(es: seq<Event>, n: nat)
    requires Past(es, n)
    ensures CanCome(es, SendAt(n))
  {
    forall j | 0 <= j < |es|
      ensures At(es[j]) <= SentAt(n) && (es[j].Send? ==> es[j].packet < n)
    {
      assert Earlier(es[j], n);
    }
  }

  lemma ReportsOnce(es: seq<Event>, n: nat)
    requires Past(es, n)
    ensures FirstReport(es + [SendAt(n)], [n])
  {
    var fs := es + [SendAt(n)];
    assert fs[|es|] == SendAt(n);
    forall j | 0 <= j < |fs| && fs[j].Feedback?
      ensures n !in fs[j].acked + fs[j].lost
    {
      assert Earlier(es[j], n);
    }
  }

  lemma SamplesAverage(es: seq<Event>, n: nat)
    requires Past(es, n)
    ensures Sampled(es + [SendAt(n)], [n], CongestedAt(n))
  {
    var fs := es + [SendAt(n)];
    assert fs[|es|] == SendAt(n) && fs[..|es|] == es;
    assert LastTiming(fs) == LastTiming(es);
    assert n in [n];
  }

  /** Since the first sample none is smaller, and the other filter's window holds only the latest one. */
  lemma FiltersSee(es: seq<Event>, n: nat)
    requires Past(es, n) && n < ROUNDS
    ensures FiltersAnswer(es + [SendAt(n)] + [AckAt(n)], CongestedAt(n))
  {
    var fs, t := es + [SendAt(n)] + [AckAt(n)], CongestedAt(n);
    assert fs[|es| + 1] == AckAt(n) && (n > 0 ==> fs[1] == AckAt(0));
    forall j | 0 <= j < |fs| && fs[j].Feedback?
      ensures t.lowest <= fs[j].t.latest
      ensures t.now <= fs[j].t.now + t.smoothed / 2 ==> t.standing <= fs[j].t.latest
    {
      assert j < |es| ==> Earlier(es[j], n);
    }
    hide Past, Earlier, Smoothed;
    assert SmallestIn(fs, t.now, t.smoothed / 2, t.standing);
    assert SmallestIn(fs, t.now, MIN_RTT_WINDOW, t.lowest) by {
      assert t.now <= CongestedAt(0).now + MIN_RTT_WINDOW;
    }
  }

  lemma AckComes(es: seq<Event>, n: nat)
    requires Past(es, n) && n < ROUNDS
    ensures CanCome(es + [SendAt(n)], AckAt(n))
  {
    var fs, t := es + [SendAt(n)], CongestedAt(n);
    forall j | 0 <= j < |fs|
      ensures At(fs[j]) <= t.now
    {
      assert j < |es| ==> Earlier(es[j], n);
    }
    FiltersSee(es, n);
    SamplesAverage(es, n);
    ReportsOnce(es, n);
    assert [n] + [] == [n];
    hide CongestedAt, FiltersAnswer, Sampled, FirstReport, Past;
  }

  lemma EventsGrow(n: nat)
    ensures Events(n + 1) == Events(n) + [SendAt(n)] + [AckAt(n)]
  {
    hide SendAt, AckAt;
  }

  lemma NoEvents()
    ensures Events(0) == [] && Receivable([])
  {
  }

  lemma {:induction false} CanBeReceived(n: nat)
    requires n <= ROUNDS
    ensures Receivable(Events(n))
  {
    hide *;
    if n == 0 {
      NoEvents();
    } else {
      CanBeReceived(n - 1);
      var es := Events(n - 1);
      EventsArePast(n - 1);
      SendComes(es, n - 1);
      OneMore(es, SendAt(n - 1));
      AckComes(es, n - 1);
      OneMore(es + [SendAt(n - 1)], AckAt(n - 1));
      EventsGrow(n - 1);
    }
  }

  // ---- it is a run -------------------------------------------------------------------------------------

  /** The sender after so many packets, each acknowledged before the next. */
  function AfterRounds(n: nat): State {
    var last := if n == 0 then None else Some(n - 1);
    var v := if n < 2 then Velocity(1, Undecided, 0, 0, 0)
             else if n == 2 then Velocity(1, Undecided, 0, MIN_WINDOW, CongestedAt(1).now)
             else Velocity(VelocityAfter(n - 3), Down, n - 3, MIN_WINDOW, CongestedAt(n - 1).now);
    State(last, last, None, MIN_WINDOW, MIN_WINDOW, n < 2, if n == 0 then 0 else CongestedAt(0).now, v)
  }

  function SentIn(n: nat): State { AfterRounds(n).(largestSent := Some(n)) }

  function States(n: nat): (ss: seq<State>)
    ensures |ss| == 2 * n + 1 && ss[2 * n] == AfterRounds(n)
  {
    if n == 0 then [AfterRounds(0)] else States(n - 1) + [SentIn(n - 1)] + [AfterRounds(n)]
  }

  lemma OneRecord(n: nat)
    requires n > 0
    ensures var s := SentIn(n).(largestAcked := Some(n));
      UpdateDirection(s, CongestedAt(n).now, Smoothed(n)) == s.(v := AfterRounds(n + 1).v)
  {
    hide Pow2, Smoothed;
    if n >= 5 {
      VelocityDoubles(n - 3);
      hide VelocityAfter;
    }
  }

  lemma OneTop(n: nat)
    ensures TopOf(SentIn(n).largestAcked, [n]) == Some(n)
  {
    assert [n][..0] == [];
  }

  /** The first round trip is the shortest there is, so slow start goes on. */
  lemma FirstRound()
    ensures Step(SentIn(0), AckAt(0)) == Goes(AfterRounds(1))
  {
    OneTop(0);
    hide TopOf;
  }

  lemma TooLong(n: nat)
    requires n > 0
    ensures !Increases(MIN_WINDOW, CongestedAt(n))
  {
    hide Smoothed;
  }

  /** The others are long enough to shrink a window that cannot shrink. */
  lemma LaterRound(n: nat)
    requires n > 0
    ensures Step(SentIn(n), AckAt(n)) == Goes(AfterRounds(n + 1))
  {
    hide TopOf, VelocityAfter, StepSize, Smoothed, UpdateDirection, Increases;
    OneTop(n);
    OneRecord(n);
    TooLong(n);
  }

  lemma {:induction false} CongestedRun(n: nat)
    ensures IsRun(4, Events(n), States(n))
  {
    if n == 0 {
      assert Fresh(4) == AfterRounds(0);
    } else {
      CongestedRun(n - 1);
      if n == 1 {
        FirstRound();
      } else {
        LaterRound(n - 1);
      }
      var es, ss := Events(n - 1), States(n - 1);
      assert Step(AfterRounds(n - 1), SendAt(n - 1)) == Goes(SentIn(n - 1));
      hide IsRun, Step, CongestedAt, VelocityAfter;
      RunExtends(4, es, ss, SendAt(n - 1), SentIn(n - 1));
      RunExtends(4, es + [SendAt(n - 1)], ss + [SentIn(n - 1)], AckAt(n - 1), AfterRounds(n));
    }
  }

  lemma LastRound()
    ensures var s := AfterRounds(ROUNDS); s.v.same == 66 && s.v.velocity == 0 && s.cwnd == MIN_WINDOW && Frozen(s)
    ensures At(AckAt(ROUNDS - 1)) < 1_500_000
  {
    hide VelocityAfter, Pow2, Smoothed;
    VelocityDies(66);
  }

  /** A sender that starts with four segments on this path has a counter of 66 after 69 round trips, less
      than one and a half seconds, and is frozen. */
  lemma CongestionFreezes() returns (es: seq<Event>, ss: seq<State>)
    ensures IsRun(4, es, ss) && Receivable(es) && |es| == 2 * ROUNDS && At(es[|es| - 1]) < 1_500_000
    ensures ss[|es|].v.same == 66 && ss[|es|].v.velocity == 0
    ensures Frozen(ss[|es|]) && ss[|es|].cwnd == MIN_WINDOW
  {
    assert ROUNDS == 68 + 1;
    hide *;
    es, ss := Events(ROUNDS), States(ROUNDS);
    CanBeReceived(ROUNDS);
    CongestedRun(ROUNDS);
    EventsGrow(68);
    LastRound();
  }
}
