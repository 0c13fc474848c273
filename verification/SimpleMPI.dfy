/** The participant as the program writes it, proved against the transition functions of Node:
    innetwork-train/model/simple-MPI/simpleMPI.cc. */
module Mpi {
  import opened Arithmetic
  import opened Bytes
  import opened Ring
  import opened Codec
  import opened VectorOp
  import opened Node
  import opened Stream

  type Addr = nat

  /** One call of Send on the socket of a peer. */
  datatype Message = Message(to: Addr, bytes: seq<Byte>)

  const BASESIZE: nat := 1024

  // ---- what the socket calls amount to ------------------------------------------------------------

  function Broadcast(group: seq<Addr>, size: nat): (ms: seq<Message>)
    ensures |ms| == |group|
  {
    seq(|group|, i requires 0 <= i < |group| => Message(group[i], Wire(Request(size))))
  }

  function SplitTo(to: Addr, vec: seq<Word>, k: nat): (ms: seq<Message>)
    requires 0 < k
    ensures |ms| == |vec| / k
  {
    seq(|vec| / k, i requires 0 <= i < |vec| / k => Message(to, Wire(ChunkFrame(vec, k, i))))
  }

  lemma SplitToNext(to: Addr, vec: seq<Word>, k: nat, i: nat)
    requires 0 < k && i < |vec| / k
    ensures SplitTo(to, vec, k)[..i + 1] == SplitTo(to, vec, k)[..i] + [Message(to, Wire(ChunkFrame(vec, k, i)))]
  {
    hide Wire, ChunkFrame;
  }

  function SplitToAll(group: seq<Addr>, vec: seq<Word>, k: nat): seq<Message>
    requires 0 < k
  {
    if group == [] then [] else SplitToAll(group[..|group| - 1], vec, k) + SplitTo(group[|group| - 1], vec, k)
  }

  lemma SplitToAllSnoc(group: seq<Addr>, vec: seq<Word>, k: nat, i: nat)
    requires 0 < k && i < |group|
    ensures SplitToAll(group[..i + 1], vec, k) == SplitToAll(group[..i], vec, k) + SplitTo(group[i], vec, k)
  {
    assert group[..i + 1][..i] == group[..i];
  }

  datatype Peers = Peers(cGroup: seq<Addr>, sGroup: seq<Addr>, k: nat)

  /** The messages one output of a handler stands for; a reply goes to the sender of the request. */
  function Sends(peers: Peers, from: Addr, o: Output): seq<Message>
    requires 0 < peers.k
  {
    match o
    case Requests(size) => Broadcast(peers.cGroup, size)
    case Responses(v) => SplitToAll(peers.sGroup, v, peers.k)
    case Reply(v) => SplitTo(from, v, peers.k)
    case Stop => []
  }

  function AllSends(peers: Peers, from: Addr, outs: seq<Output>): seq<Message>
    requires 0 < peers.k
  {
    if outs == [] then [] else Sends(peers, from, outs[0]) + AllSends(peers, from, outs[1..])
  }

  lemma AllSendsOne(peers: Peers, from: Addr, a: Output)
    requires 0 < peers.k
    ensures AllSends(peers, from, [a]) == Sends(peers, from, a)
  {
    assert [a][1..] == [];
  }

  lemma AllSendsTwo(peers: Peers, from: Addr, a: Output, b: Output)
    requires 0 < peers.k
    ensures AllSends(peers, from, [a, b]) == Sends(peers, from, a) + Sends(peers, from, b)
  {
    assert [a, b][1..] == [b];
    AllSendsOne(peers, from, b);
  }

  /** What a request makes a participant send. */
  lemma RequestSends(peers: Peers, from: Addr, size: nat, sent: seq<Message>)
    requires 0 < peers.k
    ensures sent + AllSends(peers, from, [Requests(size)]) == sent + Broadcast(peers.cGroup, size)
    ensures forall v: seq<Word> :: sent + AllSends(peers, from, [Requests(size), Reply(v)]) ==
                        sent + Broadcast(peers.cGroup, size) + SplitTo(from, v, peers.k)
  {
    hide Broadcast, SplitTo, AllSends;
    AllSendsOne(peers, from, Requests(size));
    forall v: seq<Word>
      ensures sent + AllSends(peers, from, [Requests(size), Reply(v)]) ==
              sent + Broadcast(peers.cGroup, size) + SplitTo(from, v, peers.k)
    {
      AllSendsTwo(peers, from, Requests(size), Reply(v));
      Associative(sent, Broadcast(peers.cGroup, size), SplitTo(from, v, peers.k));
    }
  }

  lemma NextBlock(n: nat, k: nat, i: nat)
    requires 0 < k && n % k == 0 && i <= n / k
    ensures i * k < n <==> i < n / k
    ensures i < n / k ==> i * k + k <= n && (i + 1) * k == i * k + k
  {
    assert n == n / k * k;
    MulMono(i + 1, n / k, k);
    assert (i + 1) * k == i * k + k;
  }

  lemma AssembledBlock(vec: seq<Word>, k: nat, chunks: map<nat, Chunk>, i: nat)
    requires 0 < k && |vec| % k == 0 && i < |vec| / k && i * k in chunks
    requires forall off :: off in chunks ==> |chunks[off].data| == k
    ensures i * k + k <= |vec|
    ensures forall j :: 0 <= j < k ==> Assembled(vec, k, chunks)[i * k + j] == chunks[i * k].data[j]
  {
    NextBlock(|vec|, k, i);
    forall j | 0 <= j < k
      ensures Assembled(vec, k, chunks)[i * k + j] == chunks[i * k].data[j]
    {
      DivMod(i, k, j);
    }
  }

  /** Handlers run one after another on a sequence of frames. */
  function HandleAll(cfg: Config, s: State, fs: seq<Frame>): (r: State)
    requires cfg.Ok() && s.Ok(cfg.k) && forall f :: f in fs ==> CanHandle(cfg, f)
    ensures r.Ok(cfg.k)
  {
    if fs == [] then s
    else
      assert fs[|fs| - 1] in fs;
      Handle(cfg, HandleAll(cfg, s, fs[..|fs| - 1]), fs[|fs| - 1]).0
  }

  /** What those handlers send. */
  function SendsOfAll(cfg: Config, peers: Peers, from: Addr, s: State, fs: seq<Frame>): seq<Message>
    requires cfg.Ok() && peers.k == cfg.k && s.Ok(cfg.k) && forall f :: f in fs ==> CanHandle(cfg, f)
  {
    if fs == [] then []
    else
      var before, f := fs[..|fs| - 1], fs[|fs| - 1];
      assert f in fs;
      SendsOfAll(cfg, peers, from, s, before) +
      AllSends(peers, if f.Request? then from else 0, Handle(cfg, HandleAll(cfg, s, before), f).1)
  }

  /** Whether one of them asks the simulator to stop. */
  predicate StopsInAll(cfg: Config, s: State, fs: seq<Frame>)
    requires cfg.Ok() && s.Ok(cfg.k) && forall f :: f in fs ==> CanHandle(cfg, f)
  {
    fs != [] &&
      var before, f := fs[..|fs| - 1], fs[|fs| - 1];
      assert f in fs;
      StopsInAll(cfg, s, before) || Stop in Handle(cfg, HandleAll(cfg, s, before), f).1
  }

  lemma NothingHandled(cfg: Config, peers: Peers, from: Addr, s: State)
    requires cfg.Ok() && peers.k == cfg.k && s.Ok(cfg.k)
    ensures HandleAll(cfg, s, []) == s && SendsOfAll(cfg, peers, from, s, []) == [] && !StopsInAll(cfg, s, [])
  {
  }

  lemma OneMore(cfg: Config, peers: Peers, from: Addr, s: State, fs: seq<Frame>, n: nat)
    requires cfg.Ok() && peers.k == cfg.k && s.Ok(cfg.k) && n < |fs| && forall f :: f in fs ==> CanHandle(cfg, f)
    ensures fs[n] in fs && forall f :: f in fs[..n] ==> f in fs
    ensures forall f :: f in fs[..n + 1] ==> f in fs
    ensures var was, r := HandleAll(cfg, s, fs[..n]), Handle(cfg, HandleAll(cfg, s, fs[..n]), fs[n]);
            && HandleAll(cfg, s, fs[..n + 1]) == r.0
            && SendsOfAll(cfg, peers, from, s, fs[..n + 1]) ==
               SendsOfAll(cfg, peers, from, s, fs[..n]) +
               AllSends(peers, if fs[n].Request? then from else 0, r.1)
            && StopsInAll(cfg, s, fs[..n + 1]) == (StopsInAll(cfg, s, fs[..n]) || Stop in r.1)
  {
    var more := fs[..n + 1];
    assert more[..|more| - 1] == fs[..n] && more[|more| - 1] == fs[n];
  }

  /** The parser finds the name of the frame's command. */
  lemma KeyOf(b: seq<Byte>, f: Frame)
    requires Wire(f) <= b && Representable(f)
    ensures HeaderSpan(b) + 5 <= |b| && b[2..2 + HeaderSpan(b)] == if f.Request? then REQUESTV else RESPONSEV
    ensures REQUESTV != RESPONSEV
  {
    assert |REQUESTV| != |RESPONSEV|;
    match f
    case Request(size) => PacketParses(b, REQUESTV, 0, Le(size, 2));
    case Response(offset, data) => PacketParses(b, RESPONSEV, offset, WordsLe(data));
  }

  /** Where the parsers find the size in a request. */
  lemma RequestParses(b: seq<Byte>, size: nat)
    requires size < 0x1_0000 && Wire(Request(size)) <= b
    ensures HeaderSpan(b) == |REQUESTV| && |REQUESTV| + 7 <= |b|
    ensures FromLe(b[|REQUESTV| + 5..|REQUESTV| + 7]) == size
  {
    PacketParses(b, REQUESTV, 0, Le(size, 2));
    U16RoundTrip(size);
  }

  lemma AvgSends(peers: Peers, cfg: Config, s: State, sent: seq<Message>)
    requires cfg.Ok() && s.Ok(cfg.k) && s.asEnd && peers.k == cfg.k
    ensures sent + AllSends(peers, 0, Avg(cfg, s).1) ==
            sent + (if s.curIter > 0 then SplitToAll(peers.sGroup, Avg(cfg, s).0.avg, cfg.k) else [])
            + (if s.curIter < cfg.maxIteration then Broadcast(peers.cGroup, s.vsize) else [])
  {
    hide SplitToAll, SplitTo, Broadcast, Assembled, Cleared;
    var next := if s.curIter >= cfg.maxIteration then Stop else Requests(s.vsize);
    AllSendsOne(peers, 0, next);
    if s.curIter > 0 {
      var avg := Assembled(s.avg, cfg.k, s.chunks);
      assert [Responses(avg)] + [next] == [Responses(avg), next];
      AllSendsTwo(peers, 0, Responses(avg), next);
    }
  }

  class SimpleMPI {
    const k: nat
    const cGroup: seq<Addr>
    const sGroup: seq<Addr>
    const maxIteration: nat
    const draw: (nat, nat) -> nat

    var asEnd: bool
    var curIter: nat
    var vsize: nat
    var avg: seq<Word>
    var chunkMap: map<nat, Chunk>
    var drawn: nat
    /** Everything handed to the sockets so far. */
    var sent: seq<Message>
    /** The receive ring of the socket to each peer. */
    var socketPool: map<Addr, CircularBuffer>
    /** Simulator::Stop has been called. */
    var stopped: bool

    function Cfg(): Config {
      Config(k, maxIteration, |cGroup|, draw)
    }

    function AllPeers(): Peers {
      Peers(cGroup, sGroup, k)
    }

    function AsState(): State
      reads this
    {
      State(asEnd, curIter, vsize, avg, chunkMap, drawn)
    }

    ghost predicate Valid()
      reads this
    {
      Cfg().Ok() && AsState().Ok(k) && |sGroup| <= 255
    }

    /** SetupMPI. */
    constructor (k: nat, cGroup: seq<Addr>, sGroup: seq<Addr>, maxIteration: nat, asEnd: bool,
                 draw: (nat, nat) -> nat)
      requires 0 < k <= 254 && |cGroup| <= 255 && |sGroup| <= 255 && maxIteration < 0x1_0000
      ensures Valid() && sent == [] && !stopped
      ensures Cfg() == Config(k, maxIteration, |cGroup|, draw) && AllPeers() == Peers(cGroup, sGroup, k)
      ensures AsState() == State(asEnd, 0, 0, [], map[], 0)
    {
      this.k, this.cGroup, this.sGroup, this.maxIteration, this.draw := k, cGroup, sGroup, maxIteration, draw;
      this.asEnd, curIter, vsize, avg, chunkMap, drawn, sent, stopped := asEnd, 0, 0, [], map[], 0, [], false;
      socketPool := map[];
    }

    method SetVSize(size: nat)
      requires Valid() && size < 0x1_0000 && size % k == 0 && size / k <= 255
      modifies this`vsize, this`avg
      ensures Valid() && vsize == size && avg == Zeros(size)
    {
      vsize := size;
      avg := Zeros(size);
    }

    method SendRequestVTo(to: Addr, size: nat)
      modifies this`sent
      ensures sent == old(sent) + [Message(to, Wire(Request(size)))]
    {
      var buffer := new Byte[BASESIZE];
      var bufferSize := CreateRequestV(buffer, REQUESTV, size);
      sent := sent + [Message(to, buffer[..bufferSize])];
    }

    method SendRequestVToAll(size: nat)
      modifies this`sent
      ensures sent == old(sent) + Broadcast(cGroup, size)
    {
      hide Wire;
      for i := 0 to |cGroup|
        invariant sent == old(sent) + Broadcast(cGroup, size)[..i]
      {
        SendRequestVTo(cGroup[i], size);
      }
    }

    /** The body of the loop of SendResponseVTo: clear the buffer, write one frame, send it. */
    method SendChunk(bufferV: array<Byte>, to: Addr, vec: seq<Word>, pos: nat, ghost i: nat)
      requires 0 < k <= 254 && |vec| < 0x1_0000 && bufferV.Length == BASESIZE * 2
      requires i < |vec| / k && pos == i * k && pos + k <= |vec|
      modifies this`sent, bufferV
      ensures sent == old(sent) + [Message(to, Wire(ChunkFrame(vec, k, i)))]
    {
      forall j | 0 <= j < bufferV.Length {
        bufferV[j] := 0;
      }
      var bufferSize := CreatResponseV(bufferV, RESPONSEV, vec, pos, k);
      sent := sent + [Message(to, bufferV[..bufferSize])];
    }

    method SendResponseVTo(to: Addr, vec: seq<Word>)
      requires 0 < k <= 254 && |vec| < 0x1_0000 && |vec| % k == 0
      modifies this`sent
      ensures sent == old(sent) + SplitTo(to, vec, k)
    {
      hide SplitTo, Wire, ChunkFrame;
      assert SplitTo(to, vec, k)[..0] == [];
      var pos := 0;
      var end := |vec|;
      var bufferV := new Byte[BASESIZE * 2];
      ghost var i := 0;
      while pos < end
        invariant 0 <= i <= |vec| / k && pos == i * k
        invariant sent == old(sent) + SplitTo(to, vec, k)[..i]
        decreases |vec| / k - i
      {
        NextBlock(|vec|, k, i);
        SendChunk(bufferV, to, vec, pos, i);
        SplitToNext(to, vec, k, i);
        pos := pos + k;
        i := i + 1;
      }
      NextBlock(|vec|, k, i);
    }

    method SendResponseVToP()
      requires Valid()
      modifies this`sent
      ensures sent == old(sent) + SplitToAll(sGroup, avg, k)
    {
      assert SplitToAll(sGroup[..0], avg, k) == [];
      hide SplitToAll, SplitTo;
      for i := 0 to |sGroup|
        invariant sent == old(sent) + SplitToAll(sGroup[..i], avg, k)
      {
        SendResponseVTo(sGroup[i], avg);
        SplitToAllSnoc(sGroup, avg, k, i);
      }
      assert sGroup[..|sGroup|] == sGroup;
    }

    method ClearChunkMap()
      modifies this`chunkMap
      ensures chunkMap == Cleared(old(chunkMap), k)
    {
      var keys := chunkMap.Keys;
      while keys != {}
        invariant keys <= chunkMap.Keys == old(chunkMap).Keys
        invariant forall off :: off in chunkMap && off !in keys ==> chunkMap[off] == Chunk(0, Zeros(k))
        decreases |keys|
      {
        var off :| off in keys;
        chunkMap := chunkMap[off := Chunk(0, Zeros(k))];
        keys := keys - {off};
      }
    }

    /** The table entries AvgEnd has found are all there. */
    method WriteChunk2Vec(vec: seq<Word>, size: nat) returns (r: seq<Word>)
      requires Valid() && |vec| == size < 0x1_0000 && size % k == 0 && size / k <= 255
      requires forall i :: 0 <= i < size / k ==> i * k in chunkMap
      ensures r == Assembled(vec, k, chunkMap)
    {
      r := vec;
      ghost var goal := Assembled(vec, k, chunkMap);
      var range := Range(size, k);
      var i := 0;
      while i < range
        invariant 0 <= i <= range == size / k && |r| == size && i * k <= size
        invariant r[..i * k] == goal[..i * k]
      {
        NextBlock(size, k, i);
        var base := i * k;
        var data := chunkMap[base].data;
        AssembledBlock(vec, k, chunkMap, i);
        var j := 0;
        while j < |data|
          invariant 0 <= j <= k && |r| == size
          invariant r[..base + j] == goal[..base + j]
        {
          r := r[base + j := data[j]];
          j := j + 1;
        }
        i := i + 1;
      }
      NextBlock(size, k, i);
    }

    method AVG()
      requires Valid()
      requires asEnd && curIter > 0 ==> forall i :: 0 <= i < vsize / k ==> i * k in chunkMap
      modifies this`asEnd, this`avg, this`chunkMap, this`sent, this`stopped
      ensures Valid()
      ensures AsState() == Avg(Cfg(), old(AsState())).0
      ensures sent == old(sent) + AllSends(AllPeers(), 0, Avg(Cfg(), old(AsState())).1)
      ensures stopped == (old(stopped) || Stop in Avg(Cfg(), old(AsState())).1)
    {
      ghost var s0, sent0 := AsState(), sent;
      if asEnd {
        asEnd := false;
        if curIter > 0 {
          avg := WriteChunk2Vec(avg, vsize);
          SendResponseVToP();
          ClearChunkMap();
        }
        if curIter >= maxIteration {
          stopped := true;
        }
        if curIter < maxIteration {
          SendRequestVToAll(vsize);
        }
        AvgSends(AllPeers(), Cfg(), s0, sent0);
      }
    }

    method AvgEnd(size: nat)
      requires Valid() && size == vsize
      modifies this`asEnd, this`curIter, this`avg, this`chunkMap, this`sent, this`stopped
      ensures Valid()
      ensures AsState() == Node.AvgEnd(Cfg(), old(AsState())).0
      ensures sent == old(sent) + AllSends(AllPeers(), 0, Node.AvgEnd(Cfg(), old(AsState())).1)
      ensures stopped == (old(stopped) || Stop in Node.AvgEnd(Cfg(), old(AsState())).1)
    {
      var res := true;
      var aggSize := |cGroup| % 0x100;
      var range := Range(size, k);
      var i := 0;
      while i < range
        invariant 0 <= i <= range
        invariant res <==> forall j :: 0 <= j < i ==> j * k in chunkMap && chunkMap[j * k].count == aggSize
      {
        if i * k !in chunkMap {
          res := false;
          break;
        }
        res := res && chunkMap[i * k].count == aggSize;
        i := i + 1;
      }
      assert res <==> Complete(Cfg(), chunkMap, vsize);
      asEnd := res;
      if res {
        curIter := (curIter + 1) % 0x1_0000;
      }
      AVG();
    }

    /** The buffer holds a response frame, and whatever an earlier use left behind it. */
    method HandleResponseV(buffer: array<Byte>, ghost offset: nat, ghost data: seq<Word>)
      requires Valid() && |cGroup| > 0 && |data| == k && offset < 0x1_0000
      requires Wire(Response(offset, data)) <= buffer[..]
      modifies this`asEnd, this`curIter, this`avg, this`chunkMap, this`sent, this`stopped
      ensures Valid()
      ensures AsState() == OnResponse(Cfg(), old(AsState()), offset, data).0
      ensures sent == old(sent) + AllSends(AllPeers(), 0, OnResponse(Cfg(), old(AsState()), offset, data).1)
      ensures stopped == (old(stopped) || Stop in OnResponse(Cfg(), old(AsState()), offset, data).1)
    {
      ghost var s0 := AsState();
      var off, vec := ParseResponse(buffer, offset, data);
      var complete := Accumulate(off, vec);
      if complete {
        AvgEnd(vsize);
      }
    }

    /** The middle of HandleResponseV: create the chunk if need be, add the vector in, count it, and
        divide once every child has been counted. */
    method Accumulate(off: nat, vec: seq<Word>) returns (complete: bool)
      requires Valid() && |cGroup| > 0 && |vec| == k
      modifies this`chunkMap
      ensures Valid()
      ensures var c := Bumped(ChunkAt(old(chunkMap), k, off), vec, |cGroup|);
              complete == (c.count == |cGroup|) && chunkMap == old(chunkMap)[off := c]
    {
      ghost var table := chunkMap;
      if off !in chunkMap {
        chunkMap := chunkMap[off := Chunk(0, Zeros(k))];
      }
      var c := chunkMap[off];
      assert c == ChunkAt(table, k, off) && |c.data| == |vec|;
      var sum := SumVector(c.data, c.data, vec);
      assert sum == AddWords(c.data, vec);
      var count := (c.count + 1) % 0x100;
      chunkMap := chunkMap[off := Chunk(count, sum)];
      complete := count == |cGroup|;
      if complete {
        var quotient := AvgVector(sum, count);
        assert quotient == DivideWords(sum, count);
        chunkMap := chunkMap[off := Chunk(count, quotient)];
      }
      assert chunkMap == table[off := chunkMap[off]];
    }

    /** The parsing half of HandleResponseV. */
    method ParseResponse(buffer: array<Byte>, ghost offset: nat, ghost data: seq<Word>)
      returns (off: nat, vec: seq<Word>)
      requires 0 < k <= 254 && |data| == k && offset < 0x1_0000
      requires Wire(Response(offset, data)) <= buffer[..]
      ensures off == offset && vec == data
    {
      PacketParses(buffer[..], RESPONSEV, offset, WordsLe(data));
      vec := Zeros(k);
      var headerOff, key, dataLen, o := PraseHeader(buffer);
      off := o;
      assert dataLen != 0 && dataLen - headerOff == 8 * k;
      vec := PraseVector(buffer, headerOff, dataLen - headerOff, vec);
      WordsParse(buffer[..], headerOff, data, vec);
    }

    method HandleRequestV(from: Addr, buffer: array<Byte>, ghost size: nat)
      requires Valid() && CanHandle(Cfg(), Request(size))
      requires Wire(Request(size)) <= buffer[..]
      modifies this`vsize, this`avg, this`drawn, this`sent
      ensures Valid()
      ensures AsState() == OnRequest(Cfg(), old(AsState()), size).0
      ensures sent == old(sent) + AllSends(AllPeers(), from, OnRequest(Cfg(), old(AsState()), size).1)
    {
      RequestParses(buffer[..], size);
      hide Wire, FromLe, HeaderSpan, AllSends, Broadcast, SplitTo, RandomVector;
      var headerOff, key, dataLen, offset := PraseHeader(buffer);
      var n := PraseInt16(buffer, headerOff);
      assert n == size;
      vsize := n;
      avg := Zeros(n);
      SendRequestVToAll(n);
      RequestSends(AllPeers(), from, n, old(sent));
      if |cGroup| <= 0 {
        var randVec := RandomVector(Cfg(), drawn, n);
        drawn := drawn + 1;
        SendResponseVTo(from, randVec);
      }
    }

    /** Dispatch on the command name; the frame in the buffer is f. */
    method Dispatch(from: Addr, buffer: array<Byte>, ghost f: Frame)
      requires Valid() && CanHandle(Cfg(), f) && Representable(f)
      requires Wire(f) <= buffer[..]
      modifies this`asEnd, this`curIter, this`vsize, this`avg, this`chunkMap, this`drawn, this`sent, this`stopped
      ensures Valid()
      ensures AsState() == Handle(Cfg(), old(AsState()), f).0
      ensures sent == old(sent) +
              AllSends(AllPeers(), if f.Request? then from else 0, Handle(Cfg(), old(AsState()), f).1)
      ensures stopped == (old(stopped) || Stop in Handle(Cfg(), old(AsState()), f).1)
    {
      KeyOf(buffer[..], f);
      var headerOff, key, dataLen, offset := PraseHeader(buffer);
      if key == REQUESTV {
        HandleRequestV(from, buffer, f.size);
      } else if key == RESPONSEV {
        HandleResponseV(buffer, f.offset, f.data);
      }
    }

    function GetBuffer(from: Addr): CircularBuffer
      reads this
      requires from in socketPool
    {
      socketPool[from]
    }

    /** The peek of the receive loop. */
    method PeekLength(ring: CircularBuffer, ghost flight: seq<Byte>, ghost fs: seq<Frame>, ghost stride: nat)
      returns (dataLen: nat)
      requires 0 < k <= 254 && ring.Valid() && 2 < ring.size
      requires stride == REQUEST_STRIDE || stride == RESPONSE_STRIDE
      requires Carries(Link(flight, ring.AsView()), fs, stride)
      requires forall f :: f in fs ==> CanHandle(Cfg(), f)
      ensures dataLen == FromLe(ring.Contents()[..2])
    {
      TakeSeesFirstFrame(Link(flight, ring.AsView()), fs, stride);
      assert fs[0] in fs;
      dataLen := ring.GetHeadUint16();
    }

    /** The body of the receive loop: a fresh buffer, one frame read into it, one handler called. */
    method TakeFrame(from: Addr, ring: CircularBuffer, dataLen: nat, ghost flight: seq<Byte>, ghost fs: seq<Frame>,
                     ghost n: nat, ghost stride: nat) returns (ghost extra: seq<Message>)
      requires Valid() && ring.Valid() && n <= |fs|
      requires stride == REQUEST_STRIDE || stride == RESPONSE_STRIDE
      requires Carries(Link(flight, ring.AsView()), fs[n..], stride)
      requires 2 < ring.size && 0 < dataLen <= ring.size && dataLen == FromLe(ring.Contents()[..2])
      requires forall f :: f in fs ==> CanHandle(Cfg(), f)
      modifies this`asEnd, this`curIter, this`vsize, this`avg, this`chunkMap, this`drawn, this`sent, this`stopped
      modifies ring`size, ring`readPos
      ensures Valid() && ring.Valid() && n < |fs| && fs[n] in fs
      ensures ring.size < old(ring.size)
      ensures Carries(Link(flight, ring.AsView()), fs[n + 1..], stride)
      ensures AsState() == Handle(Cfg(), old(AsState()), fs[n]).0
      ensures sent == old(sent) + extra
      ensures extra == AllSends(AllPeers(), if fs[n].Request? then from else 0, Handle(Cfg(), old(AsState()), fs[n]).1)
      ensures stopped == (old(stopped) || Stop in Handle(Cfg(), old(AsState()), fs[n]).1)
    {
      hide Wire, Decode, FromLe, Handle, AllSends, CanHandle;
      TakeSeesFirstFrame(Link(flight, ring.AsView()), fs[n..], stride);
      TakeCarriesRest(Link(flight, ring.AsView()), fs[n..], stride);
      assert fs[n..][0] == fs[n] && fs[n..][1..] == fs[n + 1..] && fs[n] in fs[n..];
      var bs := if dataLen > BASESIZE * 2 then dataLen else BASESIZE * 2;
      var buffer := new Byte[bs];
      var got := ring.Read(buffer, dataLen);
      assert Wire(fs[n]) <= buffer[..];
      extra := AllSends(AllPeers(), if fs[n].Request? then from else 0, Handle(Cfg(), AsState(), fs[n]).1);
      Dispatch(from, buffer, fs[n]);
    }

    /** From s0 on, with these messages sent and this stop flag, the frames fs have been handled. */
    ghost predicate Reached(from: Addr, s0: State, sent0: seq<Message>, stopped0: bool, fs: seq<Frame>)
      requires Cfg().Ok() && s0.Ok(k) && forall f :: f in fs ==> CanHandle(Cfg(), f)
      reads this
    {
      && AsState() == HandleAll(Cfg(), s0, fs)
      && sent == sent0 + SendsOfAll(Cfg(), AllPeers(), from, s0, fs)
      && stopped == (stopped0 || StopsInAll(Cfg(), s0, fs))
    }

    /** One pass of the receive loop. */
    method TakeOneMore(from: Addr, ring: CircularBuffer, dataLen: nat, ghost flight: seq<Byte>, ghost fs: seq<Frame>,
                       ghost n: nat, ghost stride: nat,
                       ghost s0: State, ghost sent0: seq<Message>, ghost stopped0: bool)
      requires Valid() && ring.Valid() && n <= |fs|
      requires stride == REQUEST_STRIDE || stride == RESPONSE_STRIDE
      requires Carries(Link(flight, ring.AsView()), fs[n..], stride)
      requires 2 < ring.size && 0 < dataLen <= ring.size && dataLen == FromLe(ring.Contents()[..2])
      requires (forall f :: f in fs ==> CanHandle(Cfg(), f)) && forall f :: f in fs[..n] ==> f in fs
      requires s0.Ok(k) && Reached(from, s0, sent0, stopped0, fs[..n])
      modifies this`asEnd, this`curIter, this`vsize, this`avg, this`chunkMap, this`drawn, this`sent, this`stopped
      modifies ring`size, ring`readPos
      ensures Valid() && ring.Valid() && n < |fs|
      ensures ring.size < old(ring.size)
      ensures Carries(Link(flight, ring.AsView()), fs[n + 1..], stride)
      ensures (forall f :: f in fs[..n + 1] ==> f in fs) && Reached(from, s0, sent0, stopped0, fs[..n + 1])
    {
      hide HandleAll, SendsOfAll, StopsInAll, Handle, AllSends, CanHandle, Carries;
      ghost var before := SendsOfAll(Cfg(), AllPeers(), from, s0, fs[..n]);
      ghost var extra := TakeFrame(from, ring, dataLen, flight, fs, n, stride);
      OneMore(Cfg(), AllPeers(), from, s0, fs, n);
      Associative(sent0, before, extra);
    }

    /** Poll one socket. The stream behind its ring is fs: what is buffered here and, in flight, what has
        yet to arrive. The frames taken are the first n of fs, and no whole frame is left. */
    method ReceiveDataFrom(from: Addr, ghost flight: seq<Byte>, ghost fs: seq<Frame>, ghost stride: nat)
      returns (ghost n: nat)
      requires Valid() && from in socketPool && socketPool[from].Valid()
      requires stride == REQUEST_STRIDE || stride == RESPONSE_STRIDE
      requires Carries(Link(flight, socketPool[from].AsView()), fs, stride)
      requires forall f :: f in fs ==> CanHandle(Cfg(), f)
      modifies this`asEnd, this`curIter, this`vsize, this`avg, this`chunkMap, this`drawn, this`sent, this`stopped
      modifies GetBuffer(from)`size, GetBuffer(from)`readPos
      ensures Valid() && socketPool[from].Valid() && n <= |fs|
      ensures Carries(Link(flight, socketPool[from].AsView()), fs[n..], stride)
      ensures !Link(flight, socketPool[from].AsView()).HasFrame()
      ensures forall f :: f in fs[..n] ==> f in fs
      ensures Reached(from, old(AsState()), old(sent), old(stopped), fs[..n])
    {
      var ring := socketPool[from];
      ghost var s0, sent0, stopped0 := AsState(), sent, stopped;
      n := 0;
      assert fs[0..] == fs && fs[..0] == [];
      NothingHandled(Cfg(), AllPeers(), from, s0);
      assert Reached(from, s0, sent0, stopped0, fs[..0]);
      hide Reached, Carries, CanHandle;
      var dataLen := 0;
      var bufferSize := ring.GetSize();
      if bufferSize > 2 {
        dataLen := PeekLength(ring, flight, fs, stride);
      }
      while dataLen <= bufferSize && dataLen > 0
        invariant Valid() && ring == socketPool[from] && ring.Valid() && n <= |fs|
        invariant bufferSize == ring.size
        invariant Carries(Link(flight, ring.AsView()), fs[n..], stride)
        invariant dataLen == if bufferSize > 2 then FromLe(ring.Contents()[..2]) else 0
        invariant forall f :: f in fs[..n] ==> f in fs
        invariant Reached(from, s0, sent0, stopped0, fs[..n])
        decreases ring.size
      {
        TakeOneMore(from, ring, dataLen, flight, fs, n, stride, s0, sent0, stopped0);
        n := n + 1;
        bufferSize := ring.GetSize();
        dataLen := 0;
        if bufferSize <= 2 {
          break;
        }
        dataLen := PeekLength(ring, flight, fs[n..], stride);
      }
    }
  }
}
