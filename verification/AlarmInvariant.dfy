/** What every run of the alarm engine keeps. The nodes called, the batch and the multimap form one
    line, strictly ordered by key and insertion; every operation of the engine inserts into that line,
    takes a node out of it, or moves a boundary inside it. */
module AlarmInvariant {
  import opened Arithmetic
  import opened Alarms

  predicate Before(a: Entry, b: Entry) { a.key < b.key || (a.key == b.key && a.ticket < b.ticket) }

  ghost predicate Ordered(q: seq<Entry>) {
    forall i, j :: 0 <= i < j < |q| ==> Before(q[i], q[j])
  }

  /** The time an alarm has to be called: its deadline, or the time it was registered if that is later. */
  function Due(i: Issue): int { Max(i.deadline, Us(i.at)) }

  ghost predicate Filed(e: Entry, issued: seq<Issue>) {
    && e.ticket < |issued|
    && issued[e.ticket].cb == e.cb
    && e.key == Due(issued[e.ticket])
  }

  ghost predicate AllFiled(w: World) {
    && w.engine.tickets == |w.issued|
    && forall i :: 0 <= i < |w.Line()| ==> Filed(w.Line()[i], w.issued)
  }

  /** Every ticket is in the line or was given up, and not both. */
  ghost predicate Conserved(w: World) {
    && (forall t :: t in w.dropped ==> t < |w.issued|)
    && (forall t :: 0 <= t < |w.issued| ==> (t in Tickets(w.Line()) <==> t !in w.dropped))
  }

  ghost predicate Timely(w: World) {
    && |w.at| == |w.past|
    && (forall i :: 0 <= i < |w.past| ==> Us(w.at[i]) == w.past[i].key <= Us(w.engine.now))
    && (forall i :: 0 <= i < |w.batch| ==> w.batch[i].key == Us(w.engine.now))
    && (forall i :: 0 <= i < |w.engine.pending| ==> w.engine.pending[i].key >= Us(w.engine.now))
  }

  ghost predicate Distinct(q: seq<Entry>) {
    forall i, j :: 0 <= i < j < |q| ==> q[i].cb != q[j].cb
  }

  ghost predicate Tokens(q: seq<Entry>, token: map<Id, nat>) {
    forall i :: 0 <= i < |q| ==> q[i].cb in token && token[q[i].cb] == q[i].ticket
  }

  /** The multimap, the set and the alarms' own fields agree. */
  ghost predicate Indexed(w: World) {
    && Distinct(w.batch + w.engine.pending)
    && w.engine.members == Names(w.engine.pending)
    && w.engine.registered == Names(w.batch + w.engine.pending)
    && Tokens(w.batch + w.engine.pending, w.engine.token)
  }

  ghost predicate Booked(w: World) {
    && Ordered(w.Line())
    && AllFiled(w)
    && Conserved(w)
    && Timely(w)
    && Indexed(w)
  }

  /** The timer, if armed, is not late. */
  ghost predicate Armed(s: State) {
    s.timer.Some? ==> s.now <= s.timer.value && (s.pending != [] ==> Us(s.timer.value) <= s.pending[0].key)
  }

  ghost predicate Tight(s: State) { s.pending != [] ==> s.timer.Some? }

  /** What holds between two events. */
  ghost predicate Sound(w: World) {
    Booked(w) && Armed(w.engine) && Tight(w.engine) && w.batch == []
  }

  // ---- sequences of nodes ----

  lemma PutOrdered(q: seq<Entry>, i: nat, e: Entry)
    requires Ordered(q) && i <= |q|
    requires forall j :: 0 <= j < i ==> Before(q[j], e)
    requires forall j :: i <= j < |q| ==> Before(e, q[j])
    ensures Ordered(Put(q, i, e))
  {
    var r := Put(q, i, e);
    forall a, b | 0 <= a < b < |r| ensures Before(r[a], r[b]) {
      assert r[a] == if a < i then q[a] else if a == i then e else q[a - 1];
      assert r[b] == if b < i then q[b] else if b == i then e else q[b - 1];
    }
  }

  lemma CutOrdered(q: seq<Entry>, i: nat)
    requires Ordered(q) && i < |q|
    ensures Ordered(Cut(q, i))
  {
    var r := Cut(q, i);
    forall a, b | 0 <= a < b < |r| ensures Before(r[a], r[b]) {
      assert r[a] == q[if a < i then a else a + 1];
      assert r[b] == q[if b < i then b else b + 1];
    }
  }

  lemma PutElements(q: seq<Entry>, i: nat, e: Entry)
    requires i <= |q|
    ensures Names(Put(q, i, e)) == Names(q) + {e.cb}
    ensures Tickets(Put(q, i, e)) == Tickets(q) + {e.ticket}
  {
    var r := Put(q, i, e);
    assert r[i] == e;
    forall x | x in q ensures x in r {
      var j :| 0 <= j < |q| && q[j] == x;
      assert r[if j < i then j else j + 1] == x;
    }
    assert forall x :: x in r ==> x in q || x == e;
  }

  lemma CutElements(q: seq<Entry>, i: nat)
    requires i < |q|
    ensures forall x :: x in Cut(q, i) <==> exists j :: 0 <= j < |q| && j != i && q[j] == x
  {
    var r := Cut(q, i);
    forall j | 0 <= j < |q| && j != i ensures q[j] in r {
      assert r[if j < i then j else j - 1] == q[j];
    }
    forall x | x in r ensures exists j :: 0 <= j < |q| && j != i && q[j] == x {
      var k :| 0 <= k < |r| && r[k] == x;
      assert q[if k < i then k else k + 1] == x;
    }
  }

  lemma CutNames(q: seq<Entry>, i: nat)
    requires Distinct(q) && i < |q|
    ensures Names(Cut(q, i)) == Names(q) - {q[i].cb}
  {
    CutElements(q, i);
    forall j | 0 <= j < |q| && j != i ensures q[j].cb in Names(Cut(q, i)) {
      assert q[j] in Cut(q, i);
    }
  }

  /** In an ordered line whose keys follow from the tickets, no ticket occurs twice. */
  lemma TicketsDiffer(q: seq<Entry>, issued: seq<Issue>, i: nat, j: nat)
    requires Ordered(q) && i < j < |q|
    requires Filed(q[i], issued) && Filed(q[j], issued)
    ensures q[i].ticket != q[j].ticket
  {
    assert Before(q[i], q[j]);
  }

  lemma CutTickets(q: seq<Entry>, issued: seq<Issue>, i: nat)
    requires Ordered(q) && i < |q|
    requires forall j :: 0 <= j < |q| ==> Filed(q[j], issued)
    ensures Tickets(Cut(q, i)) == Tickets(q) - {q[i].ticket}
  {
    CutElements(q, i);
    forall j | 0 <= j < |q| && j != i
      ensures q[j].ticket in Tickets(Cut(q, i)) && q[j].ticket != q[i].ticket
    {
      assert q[j] in Cut(q, i);
      if i < j {
        TicketsDiffer(q, issued, i, j);
      } else {
        TicketsDiffer(q, issued, j, i);
      }
    }
  }

  // ---- insertion ----

  function Entered(w: World, key: int, cb: Id, deadline: int): World {
    w.(engine := Enter(w.engine, key, cb), issued := w.issued + [Issue(cb, deadline, w.engine.now)])
  }

  ghost function Head(w: World): nat { |w.past| + |w.batch| }

  lemma LineParts(w: World)
    ensures |w.Line()| == Head(w) + |w.engine.pending|
    ensures forall i :: 0 <= i < |w.past| ==> w.Line()[i] == w.past[i]
    ensures forall i :: 0 <= i < |w.batch| ==> w.Line()[|w.past| + i] == w.batch[i]
    ensures forall i :: 0 <= i < |w.engine.pending| ==> w.Line()[Head(w) + i] == w.engine.pending[i]
  {
  }

  lemma PendingSorted(w: World)
    requires Ordered(w.Line())
    ensures forall j, k :: 0 <= j < k < |w.engine.pending| ==> w.engine.pending[j].key <= w.engine.pending[k].key
  {
    LineParts(w);
    forall j, k | 0 <= j < k < |w.engine.pending| ensures w.engine.pending[j].key <= w.engine.pending[k].key {
      assert Before(w.Line()[Head(w) + j], w.Line()[Head(w) + k]);
    }
  }

  lemma PutBehind(q: seq<Entry>, pending: seq<Entry>, u: nat, e: Entry)
    requires u <= |pending|
    ensures q + Put(pending, u, e) == Put(q + pending, |q| + u, e)
  {
    assert (q + pending)[..|q| + u] == q + pending[..u];
    assert (q + pending)[|q| + u..] == pending[u..];
  }

  lemma EnteredLine(w: World, key: int, cb: Id, deadline: int)
    ensures Entered(w, key, cb, deadline).Line() ==
            Put(w.Line(), Head(w) + UpperBound(w.engine.pending, key), Entry(key, cb, w.engine.tickets))
  {
    PutBehind(w.past + w.batch, w.engine.pending, UpperBound(w.engine.pending, key),
              Entry(key, cb, w.engine.tickets));
  }

  lemma EnterAfter(w: World, key: int, cb: Id, j: nat)
    requires AllFiled(w) && Timely(w) && key >= Us(w.engine.now)
    requires j < Head(w) + UpperBound(w.engine.pending, key)
    ensures j < |w.Line()| && Before(w.Line()[j], Entry(key, cb, w.engine.tickets))
  {
    hide Us;
    LineParts(w);
    assert Filed(w.Line()[j], w.issued);
    if j < |w.past| {
      assert w.Line()[j] == w.past[j];
    } else if j < Head(w) {
      assert w.Line()[j] == w.batch[j - |w.past|];
    } else {
      assert w.Line()[j] == w.engine.pending[j - Head(w)];
    }
  }

  lemma EnterBefore(w: World, key: int, cb: Id, j: nat)
    requires Ordered(w.Line()) && Head(w) + UpperBound(w.engine.pending, key) <= j < |w.Line()|
    ensures Before(Entry(key, cb, w.engine.tickets), w.Line()[j])
  {
    hide UpperBound;
    LineParts(w);
    var line, k := w.Line(), Head(w) + UpperBound(w.engine.pending, key);
    hide World.Line, Head;
    assert line[k] == w.engine.pending[UpperBound(w.engine.pending, key)];
    assert j == k || Before(line[k], line[j]);
  }

  lemma EnterOrdered(w: World, key: int, cb: Id, deadline: int)
    requires Ordered(w.Line()) && AllFiled(w) && Timely(w) && key >= Us(w.engine.now)
    ensures Ordered(Entered(w, key, cb, deadline).Line())
  {
    hide *;
    var line := w.Line();
    var k := Head(w) + UpperBound(w.engine.pending, key);
    var e := Entry(key, cb, w.engine.tickets);
    LineParts(w);
    forall j | 0 <= j < k ensures Before(line[j], e) {
      EnterAfter(w, key, cb, j);
    }
    forall j | k <= j < |line| ensures Before(e, line[j]) {
      EnterBefore(w, key, cb, j);
    }
    PutOrdered(line, k, e);
    EnteredLine(w, key, cb, deadline);
  }

  lemma PutFiled(q: seq<Entry>, i: nat, e: Entry, issued: seq<Issue>, last: Issue)
    requires i <= |q| && (forall j :: 0 <= j < |q| ==> Filed(q[j], issued))
    requires e == Entry(Due(last), last.cb, |issued|)
    ensures forall j :: 0 <= j < |Put(q, i, e)| ==> Filed(Put(q, i, e)[j], issued + [last])
  {
    forall j | 0 <= j < |Put(q, i, e)| ensures Filed(Put(q, i, e)[j], issued + [last]) {
      if j < i {
        assert Filed(q[j], issued);
      } else if j > i {
        assert Filed(q[j - 1], issued);
      }
    }
  }

  lemma EnterFiled(w: World, key: int, cb: Id, deadline: int)
    requires AllFiled(w) && key == Max(deadline, Us(w.engine.now))
    ensures AllFiled(Entered(w, key, cb, deadline))
  {
    hide UpperBound, Put, World.Line, Us, Max, Filed, Head;
    EnteredLine(w, key, cb, deadline);
    LineParts(w);
    PutFiled(w.Line(), Head(w) + UpperBound(w.engine.pending, key), Entry(key, cb, w.engine.tickets),
             w.issued, Issue(cb, deadline, w.engine.now));
  }

  lemma EnterConserved(w: World, key: int, cb: Id, deadline: int)
    requires AllFiled(w) && Conserved(w)
    ensures Conserved(Entered(w, key, cb, deadline))
  {
    hide UpperBound, Put, World.Line, Filed, Head, Tickets;
    LineParts(w);
    EnteredLine(w, key, cb, deadline);
    PutElements(w.Line(), Head(w) + UpperBound(w.engine.pending, key), Entry(key, cb, w.engine.tickets));
  }

  lemma EnterTimely(w: World, key: int, cb: Id, deadline: int)
    requires Timely(w) && key >= Us(w.engine.now)
    ensures Timely(Entered(w, key, cb, deadline))
  {
  }

  lemma PutIndexed(q: seq<Entry>, i: nat, e: Entry, token: map<Id, nat>)
    requires Distinct(q) && Tokens(q, token) && i <= |q| && e.cb !in Names(q)
    ensures Distinct(Put(q, i, e)) && Tokens(Put(q, i, e), token[e.cb := e.ticket])
  {
    var r := Put(q, i, e);
    forall j | 0 <= j < |q| ensures q[j].cb != e.cb {
      assert q[j] in q;
    }
    assert forall j :: 0 <= j < |r| ==> r[j] == if j < i then q[j] else if j == i then e else q[j - 1];
  }

  lemma EnterIndexed(w: World, key: int, cb: Id, deadline: int)
    requires Indexed(w) && cb !in w.engine.registered
    ensures Indexed(Entered(w, key, cb, deadline))
  {
    hide UpperBound, Put, Names, Distinct, Tokens;
    var s := w.engine;
    var u := UpperBound(s.pending, key);
    var e := Entry(key, cb, s.tickets);
    var live := w.batch + s.pending;
    PutBehind(w.batch, s.pending, u, e);
    PutElements(live, |w.batch| + u, e);
    PutElements(s.pending, u, e);
    PutIndexed(live, |w.batch| + u, e, s.token);
  }

  lemma EnterKeeps(w: World, key: int, cb: Id, deadline: int)
    requires Booked(w) && cb !in w.engine.registered && key == Max(deadline, Us(w.engine.now))
    ensures Booked(Entered(w, key, cb, deadline))
  {
    hide Entered, Ordered, AllFiled, Conserved, Timely, Indexed;
    EnterOrdered(w, key, cb, deadline);
    EnterFiled(w, key, cb, deadline);
    EnterConserved(w, key, cb, deadline);
    EnterTimely(w, key, cb, deadline);
    EnterIndexed(w, key, cb, deadline);
  }

  // ---- removal ----

  function Left(w: World, i: nat): World
    requires i < |w.engine.pending|
  {
    w.(engine := Leave(w.engine, i), dropped := w.dropped + {w.engine.pending[i].ticket})
  }

  lemma LeftLine(w: World, i: nat)
    requires i < |w.engine.pending|
    ensures Head(w) + i < |w.Line()| && Left(w, i).Line() == Cut(w.Line(), Head(w) + i)
    ensures w.Line()[Head(w) + i] == w.engine.pending[i]
  {
    var q := w.past + w.batch;
    assert (q + w.engine.pending)[..|q| + i] == q + w.engine.pending[..i];
    assert (q + w.engine.pending)[|q| + i + 1..] == w.engine.pending[i + 1..];
  }

  lemma LeaveIndexed(w: World, i: nat)
    requires Indexed(w) && i < |w.engine.pending|
    ensures Indexed(Left(w, i))
  {
    var q := w.engine.pending;
    var live := w.batch + q;
    var k := |w.batch| + i;
    assert live[k] == q[i];
    assert w.batch + Cut(q, i) == Cut(live, k);
    assert forall j :: 0 <= j < |live| - 1 ==> Cut(live, k)[j] == live[if j < k then j else j + 1];
    CutNames(live, k);
    assert Distinct(q) by {
      forall a, b | 0 <= a < b < |q| ensures q[a].cb != q[b].cb {
        assert live[|w.batch| + a] == q[a] && live[|w.batch| + b] == q[b];
      }
    }
    CutNames(q, i);
  }

  lemma LeaveKeeps(w: World, i: nat)
    requires Booked(w) && i < |w.engine.pending|
    ensures Booked(Left(w, i))
  {
    var w1 := Left(w, i);
    var line, k := w.Line(), Head(w) + i;
    LeftLine(w, i);
    CutOrdered(line, k);
    CutTickets(line, w.issued, k);
    assert Filed(line[k], w.issued);
    assert AllFiled(w1) by {
      forall j | 0 <= j < |w1.Line()| ensures Filed(w1.Line()[j], w1.issued) {
        assert w1.Line()[j] == line[if j < k then j else j + 1];
      }
    }
    LeaveIndexed(w, i);
  }

  // ---- the operations ----

  lemma TimerArms(s: State)
    requires s.pending != [] ==> s.pending[0].key >= Us(s.now)
    ensures UpdateTimer(s).Pass?
    ensures var r := UpdateTimer(s).value; r == s.(timer := r.timer) && Armed(r) && Tight(r)
  {
  }

  lemma TicketsApart(w: World, i: nat, j: nat)
    requires Booked(w) && i < |w.batch + w.engine.pending| && j < |w.engine.pending|
    requires i != |w.batch| + j
    ensures (w.batch + w.engine.pending)[i].ticket != w.engine.pending[j].ticket
  {
    var line := w.Line();
    var a, b := |w.past| + i, Head(w) + j;
    assert line[a] == (w.batch + w.engine.pending)[i] && line[b] == w.engine.pending[j];
    assert Filed(line[a], w.issued) && Filed(line[b], w.issued);
    if a < b {
      TicketsDiffer(line, w.issued, a, b);
    } else {
      TicketsDiffer(line, w.issued, b, a);
    }
  }

  /** A registered alarm's token leads to its node, unless the node is in the batch. */
  lemma TokenLeads(w: World, cb: Id)
    requires Booked(w) && cb in w.engine.registered
    ensures cb in w.engine.token
    ensures var i := Position(w.engine.pending, w.engine.token[cb]);
      if cb in Names(w.batch) then i == |w.engine.pending|
      else i < |w.engine.pending| && w.engine.pending[i].cb == cb
  {
    var live := w.batch + w.engine.pending;
    var e :| e in live && e.cb == cb;
    var k :| 0 <= k < |live| && live[k] == e;
    var i := Position(w.engine.pending, w.engine.token[cb]);
    if i < |w.engine.pending| && k != |w.batch| + i {
      TicketsApart(w, k, i);
    }
    assert k < |w.batch| ==> live[k] in w.batch;
    if cb in Names(w.batch) {
      var b :| b in w.batch && b.cb == cb;
      var j :| 0 <= j < |w.batch| && w.batch[j] == b;
      assert live[j] == b;
    } else {
      assert live[k] == w.engine.pending[k - |w.batch|];
    }
  }

  lemma FirstNotPast(w: World)
    requires Booked(w)
    ensures w.engine.pending != [] ==> w.engine.pending[0].key >= Us(w.engine.now)
  {
    hide Ordered, AllFiled, Conserved, Indexed, Us;
  }

  lemma NamesOfBoth(a: seq<Entry>, b: seq<Entry>)
    ensures Names(a + b) == Names(a) + Names(b)
    ensures Tickets(a + b) == Tickets(a) + Tickets(b)
  {
    assert forall x :: x in a + b <==> x in a || x in b;
  }

  /** Outside a batch an alarm is in the set exactly when it is marked as registered. */
  lemma MemberIffRegistered(w: World, cb: Id)
    requires Booked(w) && cb !in Names(w.batch)
    ensures cb in w.engine.members <==> cb in w.engine.registered
  {
    hide Names, Ordered, AllFiled, Conserved, Timely;
    NamesOfBoth(w.batch, w.engine.pending);
  }

  lemma PutFirst(q: seq<Entry>, u: nat, e: Entry)
    requires u <= |q|
    ensures |Put(q, u, e)| == |q| + 1 && Put(q, u, e)[0] == if u == 0 then e else q[0]
  {
  }

  lemma RegisterTimer(s: State, deadline: int, cb: Id)
    requires Armed(s) && (s.pending != [] ==> s.pending[0].key >= Us(s.now))
    requires cb in s.members <==> cb in s.registered
    ensures Register(s, deadline, cb).Pass?
    ensures var r := Register(s, deadline, cb).value;
      var s1 := if cb in s.members then s else Enter(s, Max(deadline, Us(s.now)), cb);
      r == s1.(timer := r.timer) && Armed(r) && (Tight(s) ==> Tight(r))
  {
    hide Put;
    var due := Max(deadline, Us(s.now));
    var s1 := if cb in s.members then s else Enter(s, due, cb);
    PutFirst(s.pending, UpperBound(s.pending, due), Entry(due, cb, s.tickets));
    TimerArms(s1);
  }

  /** The timer is not in the books. */
  lemma SameBooks(w: World, r: World)
    requires Booked(w) && r == w.(engine := w.engine.(timer := r.engine.timer))
    ensures Booked(r)
  {
    assert r.Line() == w.Line();
  }

  lemma RegisterKeeps(w: World, deadline: int, cb: Id)
    requires Booked(w) && Armed(w.engine) && cb !in Names(w.batch)
    ensures Perform(w, Set(cb, deadline)).Pass?
    ensures var r := Perform(w, Set(cb, deadline)).value;
      Booked(r) && Armed(r.engine) && (Tight(w.engine) ==> Tight(r.engine)) && r.engine.now == w.engine.now
  {
    var s := w.engine;
    var due := Max(deadline, Us(s.now));
    hide Booked, Put, UpperBound, Register, Armed, Max, Us;
    MemberIffRegistered(w, cb);
    FirstNotPast(w);
    RegisterTimer(s, deadline, cb);
    var w1 := if cb in s.members then w else Entered(w, due, cb, deadline);
    if cb !in s.members {
      EnterKeeps(w, due, cb, deadline);
    }
    SameBooks(w1, Perform(w, Set(cb, deadline)).value);
  }

  lemma CutFirst(w: World, i: nat)
    requires Booked(w) && i < |w.engine.pending| && |w.engine.pending| > 1
    ensures w.engine.pending[0].key <= Cut(w.engine.pending, i)[0].key
  {
    PendingSorted(w);
    hide Booked;
    assert Cut(w.engine.pending, i)[0] == w.engine.pending[if i == 0 then 1 else 0];
  }

  lemma UnregisterKeeps(w: World, cb: Id)
    requires Booked(w) && Armed(w.engine) && Perform(w, Cancel(cb)).Pass?
    ensures var r := Perform(w, Cancel(cb)).value;
      Booked(r) && Armed(r.engine) && (Tight(w.engine) ==> Tight(r.engine)) && r.engine.now == w.engine.now
  {
    var s := w.engine;
    if cb in s.registered {
      TokenLeads(w, cb);
      var i := Position(s.pending, s.token[cb]);
      LeaveKeeps(w, i);
      assert Perform(w, Cancel(cb)).value == Left(w, i);
      if |s.pending| > 1 {
        CutFirst(w, i);
      }
    }
  }

  lemma PendingIsRegistered(w: World, i: nat)
    requires Booked(w) && i < |w.engine.pending|
    ensures w.engine.pending[i].cb in w.engine.members && w.engine.pending[i].cb in w.engine.registered
  {
    assert w.engine.pending[i] in w.engine.pending;
    assert w.engine.pending[i].cb in Names(w.engine.pending);
    hide Ordered, AllFiled, Conserved, Timely, Names;
    NamesOfBoth(w.batch, w.engine.pending);
  }

  /** A node that moves is one that leaves and one that enters. */
  lemma MoveIsLeaveAndEnter(w: World, i: nat, key: int)
    requires Booked(w) && i < |w.engine.pending| && key >= Us(w.engine.now)
    ensures var s := w.engine;
      var cb := s.pending[i].cb;
      && Entered(Left(w, i), key, cb, key) ==
           w.(engine := Moved(s, i, key).(token := s.token[cb := s.tickets]),
              dropped := w.dropped + {s.pending[i].ticket}, issued := w.issued + [Issue(cb, key, s.now)])
      && Booked(Entered(Left(w, i), key, cb, key))
  {
    var s := w.engine;
    var cb := s.pending[i].cb;
    PendingIsRegistered(w, i);
    LeaveKeeps(w, i);
    hide Booked, Put, Cut, UpperBound;
    assert s.members - {cb} + {cb} == s.members;
    assert s.registered - {cb} + {cb} == s.registered;
    EnterKeeps(Left(w, i), key, cb, key);
  }

  lemma MovedFirst(s: State, i: nat, key: int)
    requires i < |s.pending| && |s.pending| > 1
    ensures var first := Cut(s.pending, i)[0].key;
      Moved(s, i, key).pending != [] && Moved(s, i, key).pending[0].key == if key < first then key else first
  {
    var rest := Cut(s.pending, i);
    var u := UpperBound(rest, key);
    assert Put(rest, u, Entry(key, s.pending[i].cb, s.tickets))[0] ==
      if u > 0 then rest[0] else Entry(key, s.pending[i].cb, s.tickets);
  }

  lemma MovedTimer(s: State, s1: State, first: int, key: int)
    requires Armed(s) && s.pending != [] && Us(s.now) <= s.pending[0].key <= first
    requires s1.now == s.now && s1.timer == s.timer && s1.pending != []
    requires s1.pending[0].key == if key < first then key else first
    ensures var r := if s.timer.None? || key < first then UpdateTimer(s1) else Pass(s1);
      && (r.Pass? <==> key >= Us(s.now))
      && (r.Pass? ==> r.value == s1.(timer := r.value.timer) && r.value.timer.Some? && Armed(r.value))
  {
  }

  lemma ReregisterTimer(s: State, ticket: nat, key: int)
    requires Armed(s) && |s.pending| > 1 && Position(s.pending, ticket) < |s.pending|
    requires Us(s.now) <= s.pending[0].key <= Cut(s.pending, Position(s.pending, ticket))[0].key
    ensures Reregister(s, ticket, key).Pass? <==> key >= Us(s.now)
    ensures key >= Us(s.now) ==> var r := Reregister(s, ticket, key).value;
      r == Moved(s, Position(s.pending, ticket), key).(timer := r.timer) && Armed(r) && Tight(r)
  {
    hide Put, UpperBound, UpdateTimer, Position, Us;
    var i := Position(s.pending, ticket);
    var s1, first := Moved(s, i, key), Cut(s.pending, i)[0].key;
    MovedFirst(s, i, key);
    MovedTimer(s, s1, first, key);
    var r := if s.timer.None? || key < first then UpdateTimer(s1) else Pass(s1);
    assert Reregister(s, ticket, key) == if r.Pass? && r.value.timer.None? then Abort(TimerIdle) else r;
  }

  lemma ReregisterPassesIff(w: World, cb: Id, deadline: int)
    requires Booked(w) && Armed(w.engine) && cb in w.engine.registered && cb !in Names(w.batch)
    ensures Apply(w.engine, Update(cb, deadline)).Pass? <==>
            |w.engine.pending| > 1 && deadline >= Us(w.engine.now)
  {
    var s := w.engine;
    hide Booked, Position, Cut, Names;
    FirstNotPast(w);
    TokenLeads(w, cb);
    if |s.pending| > 1 {
      CutFirst(w, Position(s.pending, s.token[cb]));
      ReregisterTimer(s, s.token[cb], deadline);
    }
  }

  lemma ReregisterKeeps(w: World, cb: Id, deadline: int)
    requires Booked(w) && Armed(w.engine) && cb in w.engine.registered && cb !in Names(w.batch)
    requires |w.engine.pending| > 1 && deadline >= Us(w.engine.now)
    requires Perform(w, Update(cb, deadline)).Pass?
    ensures var r := Perform(w, Update(cb, deadline)).value;
      Booked(r) && Armed(r.engine) && Tight(r.engine) && r.engine.now == w.engine.now
  {
    var s := w.engine;
    FirstNotPast(w);
    hide Booked, Position, Cut, Reregister, Names, Moved, Entered, Left;
    TokenLeads(w, cb);
    var i := Position(s.pending, s.token[cb]);
    CutFirst(w, i);
    ReregisterTimer(s, s.token[cb], deadline);
    MoveIsLeaveAndEnter(w, i, deadline);
    var w1 := Entered(Left(w, i), deadline, cb, deadline);
    var r := Perform(w, Update(cb, deadline)).value;
    assert r == w1.(engine := w1.engine.(timer := r.engine.timer));
    SameBooks(w1, r);
  }

  lemma BatchIsOut(w: World, cb: Id)
    requires Indexed(w) && cb in Names(w.batch)
    ensures cb !in w.engine.members
  {
    var b :| b in w.batch && b.cb == cb;
    var j :| 0 <= j < |w.batch| && w.batch[j] == b;
    var live := w.batch + w.engine.pending;
    forall i | 0 <= i < |w.engine.pending| ensures w.engine.pending[i].cb != cb {
      assert live[j] == b && live[|w.batch| + i] == w.engine.pending[i];
    }
  }

  /** When an operation is accepted: the alarm is not one that OnTimeout has yet to call, and a
      registered alarm can be moved only if another one is pending and the new time is not past. */
  lemma ApplyPassesIff(w: World, op: Op)
    requires Booked(w) && Armed(w.engine)
    ensures Apply(w.engine, op).Pass? <==>
            && op.cb !in Names(w.batch)
            && (op.Update? && op.cb in w.engine.registered ==>
                  |w.engine.pending| > 1 && op.deadline >= Us(w.engine.now))
  {
    var s := w.engine;
    NamesOfBoth(w.batch, s.pending);
    if op.cb in Names(w.batch) {
      TokenLeads(w, op.cb);
      BatchIsOut(w, op.cb);
    } else if op.cb in s.registered {
      TokenLeads(w, op.cb);
      if op.Update? {
        ReregisterPassesIff(w, op.cb, op.deadline);
      } else if op.Set? {
        RegisterKeeps(w, op.deadline, op.cb);
      }
    } else if !op.Cancel? {
      RegisterKeeps(w, op.deadline, op.cb);
      assert Perform(w, Set(op.cb, op.deadline)).Pass?;
    }
  }

  lemma UpdateIsSet(w: World, cb: Id, deadline: int)
    requires cb !in w.engine.registered
    ensures Perform(w, Update(cb, deadline)) == Perform(w, Set(cb, deadline))
  {
    hide Register;
  }

  lemma PerformKeeps(w: World, op: Op)
    requires Booked(w) && Armed(w.engine) && Perform(w, op).Pass?
    ensures var r := Perform(w, op).value;
      Booked(r) && Armed(r.engine) && (Tight(w.engine) ==> Tight(r.engine)) && r.engine.now == w.engine.now
  {
    assert Apply(w.engine, op).Pass?;
    hide Booked, Armed, Perform, Apply, Names;
    ApplyPassesIff(w, op);
    match op
    case Set(cb, deadline) => RegisterKeeps(w, deadline, cb);
    case Cancel(cb) => UnregisterKeeps(w, cb);
    case Update(cb, deadline) =>
      if cb in w.engine.registered {
        ReregisterKeeps(w, cb, deadline);
      } else {
        RegisterKeeps(w, deadline, cb);
        UpdateIsSet(w, cb, deadline);
      }
  }

  // ---- the events ----

  ghost predicate Kept(w: World, r: World) {
    Booked(r) && Armed(r.engine) && r.engine.now == w.engine.now
  }

  lemma {:induction false} PerformAllKeeps(w: World, ops: seq<Op>)
    requires Booked(w) && Armed(w.engine) && PerformAll(w, ops).Pass?
    ensures Kept(w, PerformAll(w, ops).value)
    decreases |ops|
  {
    hide Booked, Armed, Perform;
    if ops == [] {
    } else {
      PerformKeeps(w, ops[0]);
      PerformAllKeeps(Perform(w, ops[0]).value, ops[1..]);
    }
  }

  lemma NotRegistered(w: World, cb: Id)
    requires cb !in w.engine.registered
    ensures Called(w, cb) == w
  {
    assert w.engine.registered - {cb} == w.engine.registered;
  }

  /** Calling an alarm once more leaves the index in agreement exactly when it is not registered. */
  lemma RepeatKeepsIff(w: World, cb: Id)
    requires Booked(w)
    ensures Booked(Called(w, cb)) <==> cb !in w.engine.registered
  {
    if cb !in w.engine.registered {
      NotRegistered(w, cb);
    } else {
      assert cb in Names(w.batch + w.engine.pending) && cb !in Called(w, cb).engine.registered;
    }
  }

  lemma {:induction false} RoundsKeep(w: World, cb: Id, script: Script)
    requires Booked(Called(w, cb)) && Armed(w.engine) && Tidy(w, cb, script)
    requires Rounds(w, cb, script).Pass?
    ensures Kept(w, Rounds(w, cb, script).value)
    decreases script
  {
    assert Armed(Called(w, cb).engine) && Called(w, cb).engine.now == w.engine.now;
    hide Booked, Armed, PerformAll, Perform, Called;
    PerformAllKeeps(Called(w, cb), script.ops);
    var w1 := PerformAll(Called(w, cb), script.ops).value;
    match script
    case Quit(_, ret) =>
      if ret > 0 {
        PerformKeeps(w1, Set(cb, ret));
      }
    case Again(_, _, next) =>
      NotRegistered(w1, cb);
      RoundsKeep(w1, cb, next);
  }

  lemma MovingIndexed(w: World)
    requires Indexed(w) && w.batch != []
    ensures Indexed(Called(Moving(w), w.batch[0].cb))
  {
    var live := w.batch + w.engine.pending;
    assert w.batch[1..] + w.engine.pending == Cut(live, 0);
    CutNames(live, 0);
    assert forall j :: 0 <= j < |live| - 1 ==> Cut(live, 0)[j] == live[j + 1];
  }

  lemma MovingKeeps(w: World)
    requires Booked(w) && w.batch != []
    ensures Booked(Called(Moving(w), w.batch[0].cb))
  {
    var r := Called(Moving(w), w.batch[0].cb);
    assert w.batch == [w.batch[0]] + w.batch[1..];
    assert r.Line() == w.Line();
    MovingIndexed(w);
  }

  lemma {:induction false} CallAllKeeps(w: World, script: Id -> Script)
    requires Booked(w) && Armed(w.engine) && CallAll(w, script).Pass? && TidyAll(w, script)
    ensures Kept(w, CallAll(w, script).value)
    decreases |w.batch|
  {
    hide Booked, Armed, Rounds, Tidy;
    if w.batch == [] {
    } else {
      var cb := w.batch[0].cb;
      MovingKeeps(w);
      RoundsKeep(Moving(w), cb, script(cb));
      CallAllKeeps(Call(w, script(cb)).value, script);
    }
  }

  lemma NamesSplit(q: seq<Entry>, n: nat)
    requires Distinct(q) && n <= |q|
    ensures Names(q[n..]) == Names(q) - Names(q[..n])
  {
    assert q == q[..n] + q[n..];
    NamesOfBoth(q[..n], q[n..]);
    forall a, b | a in q[..n] && b in q[n..] ensures a.cb != b.cb {
      var i :| 0 <= i < n && q[i] == a;
      var j :| n <= j < |q| && q[j] == b;
    }
  }

  lemma PopTimely(w: World)
    requires Timely(w) && w.batch == []
    ensures Timely(Pop(w))
  {
    var s := w.engine;
    var n := DueCount(s.pending, Us(s.now));
    assert forall i :: 0 <= i < n ==> Us(s.now) <= s.pending[i].key <= Us(s.now);
  }

  lemma PopIndexed(w: World)
    requires Indexed(w) && w.batch == []
    ensures Indexed(Pop(w))
  {
    var q, r := w.engine.pending, Pop(w);
    var n := DueCount(q, Us(w.engine.now));
    hide Names, Distinct, Tokens, DueCount, Us;
    assert r.batch == q[..n];
    hide Pop;
    assert w.batch + q == q && q[..n] + q[n..] == q;
    NamesSplit(q, n);
  }

  lemma PopLine(w: World)
    requires w.batch == []
    ensures Pop(w).Line() == w.Line()
  {
    var q := w.engine.pending;
    var n := DueCount(q, Us(w.engine.now));
    assert q == q[..n] + q[n..];
  }

  lemma PopKeeps(w: World)
    requires Booked(w) && w.batch == []
    ensures Booked(Pop(w)) && Armed(Pop(w).engine)
  {
    hide Timely, Indexed, DueCount;
    PopTimely(w);
    PopIndexed(w);
    PopLine(w);
  }

  lemma FireKeeps(w: World, script: Id -> Script, post: seq<Op>)
    requires Sound(w) && Enabled(w, Fire(script, post)) && OnTimeout(w, script, post).Pass?
    ensures Sound(OnTimeout(w, script, post).value)
  {
    hide Booked, PerformAll, CallAll, Fits, TidyAll;
    PopKeeps(w);
    CallAllKeeps(Pop(w), script);
    var w1 := CallAll(Pop(w), script).value;
    if Pop(w).batch != [] {
      PerformAllKeeps(w1, post);
    }
    var w2 := if Pop(w).batch == [] then w1 else PerformAll(w1, post).value;
    TimerArms(w2.engine);
    SameBooks(w2, Rearm(w2).value);
  }

  lemma ShutdownConserved(w: World)
    requires Booked(w) && w.batch == []
    ensures Conserved(Shutdown(w))
  {
    var q := w.engine.pending;
    assert Shutdown(w).Line() == w.past && w.Line() == w.past + q;
    NamesOfBoth(w.past, q);
    forall i, j | 0 <= i < |w.past| && 0 <= j < |q| ensures w.past[i].ticket != q[j].ticket {
      assert w.Line()[i] == w.past[i] && w.Line()[|w.past| + j] == q[j];
      assert Filed(w.Line()[i], w.issued) && Filed(w.Line()[|w.past| + j], w.issued);
      TicketsDiffer(w.Line(), w.issued, i, |w.past| + j);
    }
    forall e | e in q ensures e.ticket < |w.issued| {
      var j :| 0 <= j < |q| && q[j] == e;
      assert Filed(w.Line()[|w.past| + j], w.issued);
    }
  }

  lemma ShutdownKeeps(w: World)
    requires Sound(w)
    ensures Sound(Shutdown(w))
  {
    var r := Shutdown(w);
    ShutdownConserved(w);
    assert w.batch + w.engine.pending == w.engine.pending;
    assert r.batch + r.engine.pending == [];
    assert forall i :: 0 <= i < |r.Line()| ==> r.Line()[i] == w.Line()[i];
  }

  lemma TickTimely(w: World, to: nat)
    requires Timely(w) && Ordered(w.Line()) && w.batch == [] && w.engine.now <= to
    requires w.engine.pending != [] ==> Us(to) <= w.engine.pending[0].key
    ensures Timely(w.(engine := w.engine.(now := to)))
  {
    PendingSorted(w);
  }

  lemma TickKeeps(w: World, to: nat)
    requires Sound(w) && Enabled(w, Tick(to))
    ensures Sound(After(w, Tick(to)).value)
  {
    assert After(w, Tick(to)).value.Line() == w.Line();
    TickTimely(w, to);
  }

  lemma EventKeeps(w: World, ev: Event)
    requires Sound(w) && Enabled(w, ev) && After(w, ev).Pass?
    ensures Sound(After(w, ev).value)
  {
    match ev
    case Tick(to) => TickKeeps(w, to);
    case Client(op) => PerformKeeps(w, op);
    case Fire(script, post) => FireKeeps(w, script, post);
    case Close => ShutdownKeeps(w);
  }

  lemma StartIsSound()
    ensures Sound(START)
  {
  }

  lemma {:induction false} RunKeeps(trace: seq<World>, evs: seq<Event>, i: nat)
    requires IsRun(trace, evs) && i < |trace|
    ensures Sound(trace[i])
  {
    hide Sound, Enabled, After;
    if i == 0 {
      StartIsSound();
    } else {
      RunKeeps(trace, evs, i - 1);
      assert After(trace[i - 1], evs[i - 1]) == Pass(trace[i - 1 + 1]);
      EventKeeps(trace[i - 1], evs[i - 1]);
    }
  }
}
