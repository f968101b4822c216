/** The reader loop of ffplay and its three packet queues: the loop stops
    reading while the queues hold too much, so their memory stays bounded. */
module BackPressure {
  import opened Wrappers
  import opened PacketQueue

  const MAX_QUEUE_SIZE: nat := 15 * 1024 * 1024

  /** Index of each queue, in the order a seek treats them. */
  const AUDIO: nat := 0
  const SUBTITLE: nat := 1
  const VIDEO: nat := 2

  const ALL: set<nat> := {0, 1, 2}

  /** Where the reader stands in its loop. */
  datatype ReaderPc =
    | LoopTop
    | Seeking(next: nat, cleared: bool)  // queue `next` is to be emptied, or was and gets its flush packet
    | Summing(read: set<nat>, sum: nat)  // adding up the sizes of the queues, one unlocked read at a time
    | Reading                            // the queues were not full: about to read
    | Draining(done: set<nat>)           // end of file: an empty packet for every open stream

  datatype System = System(queues: seq<QueueState>, pc: ReaderPc)

  /** `open[i]` says that stream i is shown; no stream is opened or closed here.
      `nodeSize` is the size of a list node, `largest` bounds the packets of the file. */
  datatype Config = Config(open: seq<bool>, nodeSize: nat, largest: nat)

  datatype Action =
    | DecoderPop(i: nat)
    | StartSeek
    | SeekStep
    | NoSeek
    | SumStep(i: nat)
    | SumDone
    | PutPacket(i: nat, id: nat, size: nat)
    | DropPacket
    | EndOfFile
    | PutNull(i: nat)
    | DrainDone

  predicate ValidConfig(c: Config) { |c.open| == 3 && c.nodeSize > 0 }

  predicate EnoughFrames(c: Config, q: QueueState, open: bool) {
    |q.entries| > MIN_FRAMES || !open || q.aborted
  }

  /** The wait condition of the loop, given the summed sizes. */
  predicate Full(c: Config, s: System, sum: nat)
    requires |c.open| == 3 == |s.queues|
  {
    sum > MAX_QUEUE_SIZE ||
    (EnoughFrames(c, s.queues[AUDIO], c.open[AUDIO]) && EnoughFrames(c, s.queues[VIDEO], c.open[VIDEO]) &&
     EnoughFrames(c, s.queues[SUBTITLE], c.open[SUBTITLE]))
  }

  function Step(c: Config, s: System, a: Action): (r: Option<System>)
    requires ValidConfig(c) && |s.queues| == 3
    ensures r.Some? ==> |r.value.queues| == 3
  {
    match a
    case DecoderPop(i) =>
      if i >= 3 || s.queues[i].entries == [] then None
      else Some(s.(queues := s.queues[i := Pop(s.queues[i])]))
    case StartSeek => if s.pc.LoopTop? then Some(s.(pc := Seeking(0, false))) else None
    case SeekStep =>
      if !s.pc.Seeking? then None
      else if s.pc.next >= 3 then Some(s.(pc := Summing({}, 0)))
      else
        var i := s.pc.next;
        if !c.open[i] then Some(s.(pc := Seeking(i + 1, false)))
        else if !s.pc.cleared then Some(System(s.queues[i := Clear(s.queues[i])], Seeking(i, true)))
        else Some(System(s.queues[i := Put(s.queues[i], FlushPacket)], Seeking(i + 1, false)))
    case NoSeek => if s.pc.LoopTop? then Some(s.(pc := Summing({}, 0))) else None
    case SumStep(i) =>
      if !s.pc.Summing? || i >= 3 || i in s.pc.read then None
      else Some(s.(pc := Summing(s.pc.read + {i}, s.pc.sum + Bytes(s.queues[i].entries, c.nodeSize))))
    case SumDone =>
      if !s.pc.Summing? || !(ALL <= s.pc.read) then None
      else Some(s.(pc := if Full(c, s, s.pc.sum) then LoopTop else Reading))
    case PutPacket(i, id, size) =>
      if !s.pc.Reading? || i >= 3 || !c.open[i] || size > c.largest then None
      else Some(System(s.queues[i := Put(s.queues[i], DataPacket(id, size))], LoopTop))
    case DropPacket => if s.pc.Reading? then Some(s.(pc := LoopTop)) else None
    case EndOfFile => if s.pc.Reading? then Some(s.(pc := Draining({}))) else None
    case PutNull(i) =>
      if !s.pc.Draining? || i >= 3 || !c.open[i] || i in s.pc.done then None
      else Some(System(s.queues[i := Put(s.queues[i], NullPacket)], Draining(s.pc.done + {i})))
    case DrainDone => if s.pc.Draining? then Some(s.(pc := LoopTop)) else None
  }

  function Run(c: Config, s: System, actions: seq<Action>): (r: Option<System>)
    requires ValidConfig(c) && |s.queues| == 3
    ensures r.Some? ==> |r.value.queues| == 3
    decreases |actions|
  {
    if actions == [] then Some(s) else
    match Step(c, s, actions[0]) case None => None case Some(s') => Run(c, s', actions[1..])
  }

  /** The bytes of all three queues. */
  function Total(c: Config, queues: seq<QueueState>): nat
    requires |queues| == 3
  {
    Bytes(queues[0].entries, c.nodeSize) + Bytes(queues[1].entries, c.nodeSize) + Bytes(queues[2].entries, c.nodeSize)
  }

  /** One node for queue i, if it is among `these` and holds something. */
  function Node(c: Config, queues: seq<QueueState>, these: set<nat>, i: nat): nat
    requires |queues| == 3 && i < 3
  {
    if i in these && queues[i].entries != [] then c.nodeSize else 0
  }

  function Nodes(c: Config, queues: seq<QueueState>, these: set<nat>): nat
    requires |queues| == 3
  {
    Node(c, queues, these, 0) + Node(c, queues, these, 1) + Node(c, queues, these, 2)
  }

  /** What is in excess of the limit is at most one packet and a node for every
      queue that is not empty; a queue that empties takes its node along. */
  ghost predicate Bounded(c: Config, s: System)
    requires |s.queues| == 3
  {
    Total(c, s.queues) <= MAX_QUEUE_SIZE + c.largest + Nodes(c, s.queues, ALL) &&
    match s.pc
    case Seeking(i, cleared) => cleared ==> i < 3 && s.queues[i].entries == []
    case Summing(read, sum) => SumSoFar(c, s.queues, read) <= sum
    case Reading => Total(c, s.queues) <= MAX_QUEUE_SIZE
    case Draining(done) => Total(c, s.queues) <= MAX_QUEUE_SIZE + Nodes(c, s.queues, done)
    case LoopTop => true
  }

  /** The bytes now in the queues whose sizes were read. */
  function SumSoFar(c: Config, queues: seq<QueueState>, read: set<nat>): nat
    requires |queues| == 3
  {
    (if 0 in read then Bytes(queues[0].entries, c.nodeSize) else 0) +
    (if 1 in read then Bytes(queues[1].entries, c.nodeSize) else 0) +
    (if 2 in read then Bytes(queues[2].entries, c.nodeSize) else 0)
  }

  lemma PutBytes(c: Config, q: QueueState, pkt: Packet)
    ensures Bytes(Put(q, pkt).entries, c.nodeSize) ==
            if q.aborted then Bytes(q.entries, c.nodeSize) else Bytes(q.entries, c.nodeSize) + pkt.Size() + c.nodeSize
    ensures if q.aborted then Put(q, pkt) == q else Put(q, pkt).entries != []
  {
    if !q.aborted {
      var serial := if pkt.FlushPacket? then q.serial + 1 else q.serial;
      BytesAppend(q.entries, Entry(pkt, serial), c.nodeSize);
    }
  }

  lemma Update(c: Config, queues: seq<QueueState>, these: set<nat>, i: nat, q: QueueState)
    requires |queues| == 3 && i < 3
    ensures Total(c, queues[i := q]) ==
            Total(c, queues) - Bytes(queues[i].entries, c.nodeSize) + Bytes(q.entries, c.nodeSize)
    ensures Nodes(c, queues[i := q], these) ==
            Nodes(c, queues, these) - Node(c, queues, these, i) + Node(c, queues[i := q], these, i)
  {
  }

  /** The first packet takes its bytes along, and with the last packet a node. */
  lemma PopBytes(c: Config, queues: seq<QueueState>, these: set<nat>, i: nat)
    requires |queues| == 3 && i < 3 && queues[i].entries != []
    ensures Bytes(Pop(queues[i]).entries, c.nodeSize) + Node(c, queues, these, i) <=
            Bytes(queues[i].entries, c.nodeSize) + Node(c, queues[i := Pop(queues[i])], these, i)
    ensures Bytes(Pop(queues[i]).entries, c.nodeSize) <= Bytes(queues[i].entries, c.nodeSize)
  {
    var es := queues[i].entries;
    assert Bytes(es, c.nodeSize) == es[0].pkt.Size() + c.nodeSize + Bytes(es[1..], c.nodeSize);
  }

  lemma SumFalls(c: Config, queues: seq<QueueState>, read: set<nat>, i: nat, q: QueueState)
    requires |queues| == 3 && i < 3 && Bytes(q.entries, c.nodeSize) <= Bytes(queues[i].entries, c.nodeSize)
    ensures SumSoFar(c, queues[i := q], read) <= SumSoFar(c, queues, read)
  {
    hide Bytes;
  }

  lemma PopKeepsBound(c: Config, s: System, i: nat)
    requires ValidConfig(c) && |s.queues| == 3 && i < 3 && s.queues[i].entries != [] && Bounded(c, s)
    ensures Bounded(c, s.(queues := s.queues[i := Pop(s.queues[i])]))
  {
    hide Total, Nodes, Node, Bytes, SumSoFar;
    var q := Pop(s.queues[i]);
    PopBytes(c, s.queues, ALL, i);
    Update(c, s.queues, ALL, i, q);
    match s.pc
    case Draining(done) =>
      PopBytes(c, s.queues, done, i);
      Update(c, s.queues, done, i, q);
    case Summing(read, sum) => SumFalls(c, s.queues, read, i, q);
    case _ =>
  }

  lemma ClearKeepsBound(c: Config, s: System, i: nat)
    requires ValidConfig(c) && |s.queues| == 3 && i < 3 && s.pc == Seeking(i, false) && Bounded(c, s)
    ensures Bounded(c, System(s.queues[i := Clear(s.queues[i])], Seeking(i, true)))
  {
    hide Total, Nodes;
    Update(c, s.queues, ALL, i, Clear(s.queues[i]));
    assert s.queues[i].entries != [] ==> Bytes(s.queues[i].entries, c.nodeSize) >= c.nodeSize;
  }

  lemma FlushKeepsBound(c: Config, s: System, i: nat)
    requires ValidConfig(c) && |s.queues| == 3 && i < 3 && s.pc == Seeking(i, true) && Bounded(c, s)
    ensures Bounded(c, System(s.queues[i := Put(s.queues[i], FlushPacket)], Seeking(i + 1, false)))
  {
    hide Total, Nodes, Put, Bytes;
    PutBytes(c, s.queues[i], FlushPacket);
    Update(c, s.queues, ALL, i, Put(s.queues[i], FlushPacket));
  }

  lemma SeekKeepsBound(c: Config, s: System)
    requires ValidConfig(c) && |s.queues| == 3 && Bounded(c, s) && s.pc.Seeking?
    ensures Bounded(c, Step(c, s, SeekStep).value)
  {
    hide Total, Nodes, Put, Bytes, Clear;
    var i := s.pc.next;
    if i < 3 && c.open[i] {
      if s.pc.cleared {
        FlushKeepsBound(c, s, i);
      } else {
        ClearKeepsBound(c, s, i);
      }
    } else if i >= 3 {
      assert SumSoFar(c, s.queues, {}) == 0;
    }
  }

  lemma PutKeepsBound(c: Config, s: System, i: nat, pkt: Packet)
    requires ValidConfig(c) && |s.queues| == 3 && i < 3 && pkt.Size() <= c.largest && s.pc.Reading? && Bounded(c, s)
    ensures Bounded(c, System(s.queues[i := Put(s.queues[i], pkt)], LoopTop))
  {
    PutBytes(c, s.queues[i], pkt);
    Update(c, s.queues, ALL, i, Put(s.queues[i], pkt));
  }

  lemma NullKeepsBound(c: Config, s: System, i: nat)
    requires ValidConfig(c) && |s.queues| == 3 && i < 3 && s.pc.Draining? && i !in s.pc.done && Bounded(c, s)
    ensures Bounded(c, System(s.queues[i := Put(s.queues[i], NullPacket)], Draining(s.pc.done + {i})))
  {
    hide Put, Bytes, Total, Nodes;
    var queues, done := s.queues[i := Put(s.queues[i], NullPacket)], s.pc.done;
    PutBytes(c, s.queues[i], NullPacket);
    Update(c, s.queues, done + {i}, i, Put(s.queues[i], NullPacket));
    NodesAdd(c, s.queues, done, i);
    NodesMonotonic(c, queues, done + {i});
  }

  lemma NodesAdd(c: Config, queues: seq<QueueState>, these: set<nat>, i: nat)
    requires |queues| == 3 && i < 3 && i !in these
    ensures Nodes(c, queues, these + {i}) == Nodes(c, queues, these) + Node(c, queues, {i}, i)
  {
  }

  lemma NodesMonotonic(c: Config, queues: seq<QueueState>, these: set<nat>)
    requires |queues| == 3
    ensures Nodes(c, queues, these) <= Nodes(c, queues, ALL) <= 3 * c.nodeSize
  {
  }

  /** The sizes are read in any order: C leaves it open. */
  lemma SumKeepsBound(c: Config, s: System, i: nat)
    requires ValidConfig(c) && |s.queues| == 3 && Bounded(c, s) && Step(c, s, SumStep(i)).Some?
    ensures Bounded(c, Step(c, s, SumStep(i)).value)
  {
    hide Total, Nodes, Bytes;
  }

  lemma SumDoneKeepsBound(c: Config, s: System)
    requires ValidConfig(c) && |s.queues| == 3 && Bounded(c, s) && Step(c, s, SumDone).Some?
    ensures Bounded(c, Step(c, s, SumDone).value)
  {
    hide Nodes, Bytes;
    assert ALL <= s.pc.read && 0 in ALL && 1 in ALL && 2 in ALL;
    assert SumSoFar(c, s.queues, s.pc.read) == Total(c, s.queues);
  }

  lemma StepKeepsBound(c: Config, s: System, a: Action)
    requires ValidConfig(c) && |s.queues| == 3 && Bounded(c, s) && Step(c, s, a).Some?
    ensures Bounded(c, Step(c, s, a).value)
  {
    match a
    case DecoderPop(i) => PopKeepsBound(c, s, i);
    case SeekStep => SeekKeepsBound(c, s);
    case PutPacket(i, id, size) => PutKeepsBound(c, s, i, DataPacket(id, size));
    case PutNull(i) => NullKeepsBound(c, s, i);
    case SumStep(i) => SumKeepsBound(c, s, i);
    case SumDone => SumDoneKeepsBound(c, s);
    case _ =>
  }

  /** At no moment of any interleaving do the queues hold more than the limit,
      the largest packet and three list nodes. */
  lemma {:induction false} QueuesBounded(c: Config, s: System, actions: seq<Action>)
    requires ValidConfig(c) && |s.queues| == 3 && Bounded(c, s) && Run(c, s, actions).Some?
    ensures Bounded(c, Run(c, s, actions).value)
    ensures Total(c, Run(c, s, actions).value.queues) <= MAX_QUEUE_SIZE + c.largest + 3 * c.nodeSize
    decreases |actions|
  {
    NodesMonotonic(c, s.queues, ALL);
    if actions != [] {
      StepKeepsBound(c, s, actions[0]);
      QueuesBounded(c, Step(c, s, actions[0]).value, actions[1..]);
    }
  }

  /** The loop starts within the bound: the open streams hold one flush packet each. */
  lemma StartBounded(c: Config, serials: seq<int>)
    requires ValidConfig(c) && |serials| == 3
    ensures var queues := seq(3, i requires 0 <= i < 3 =>
        if c.open[i] then Start(QueueState([], serials[i], true)) else QueueState([], serials[i], true));
      Bounded(c, System(queues, LoopTop))
  {
    var queues := seq(3, i requires 0 <= i < 3 =>
      if c.open[i] then Start(QueueState([], serials[i], true)) else QueueState([], serials[i], true));
    forall i | 0 <= i < 3 ensures Bytes(queues[i].entries, c.nodeSize) == Node(c, queues, ALL, i) {
      if c.open[i] {
        var e := Entry(FlushPacket, serials[i] + 1);
        assert queues[i].entries == [] + [e];
        BytesAppend([], e, c.nodeSize);
      }
    }
  }

  // ---------- when the loop reads ----------

  /** After summing up, the loop reads exactly if the sum is within 15 megabytes and
      some open stream that is not stopping has at most five packets. */
  lemma ReadsIff(c: Config, s: System)
    requires ValidConfig(c) && |s.queues| == 3 && s.pc.Summing? && {0, 1, 2} <= s.pc.read
    ensures Step(c, s, SumDone).Some?
    ensures Step(c, s, SumDone).value.pc.Reading? <==>
            s.pc.sum <= 15728640 &&
            exists i :: 0 <= i < 3 && c.open[i] && !s.queues[i].aborted && |s.queues[i].entries| <= 5
    ensures !Step(c, s, SumDone).value.pc.Reading? ==> Step(c, s, SumDone).value.pc.LoopTop?
    ensures Step(c, s, SumDone).value.queues == s.queues
  {
    assert 0 in {0, 1, 2} && 1 in {0, 1, 2} && 2 in {0, 1, 2};
    assert forall i :: 0 <= i < 3 ==>
      (EnoughFrames(c, s.queues[i], c.open[i]) <==>
         !(c.open[i] && !s.queues[i].aborted && |s.queues[i].entries| <= 5));
    if Step(c, s, SumDone).value.pc.Reading? {
      assert !EnoughFrames(c, s.queues[AUDIO], c.open[AUDIO]) || !EnoughFrames(c, s.queues[VIDEO], c.open[VIDEO]) ||
             !EnoughFrames(c, s.queues[SUBTITLE], c.open[SUBTITLE]);
    }
  }

  lemma SumsOne(c: Config, s: System, i: nat)
    requires ValidConfig(c) && |s.queues| == 3 && s.pc.Summing?
    ensures if i < 3 && i !in s.pc.read then
              Step(c, s, SumStep(i)) ==
              Some(s.(pc := Summing(s.pc.read + {i}, s.pc.sum + Bytes(s.queues[i].entries, c.nodeSize))))
            else Step(c, s, SumStep(i)).None?
    ensures Step(c, s, SumDone).Some? <==> 0 in s.pc.read && 1 in s.pc.read && 2 in s.pc.read
  {
    assert 0 in ALL && 1 in ALL && 2 in ALL;
  }

  /** Each queue's size is read once, in any order, and added as it is then. */
  lemma SumsUp(c: Config, s: System, i: nat, j: nat, k: nat)
    requires ValidConfig(c) && |s.queues| == 3 && s.pc == Summing({}, 0)
    requires i < 3 && j < 3 && k < 3 && i != j && j != k && i != k
    ensures Run(c, s, [SumStep(i), SumStep(j), SumStep(k)]) == Some(s.(pc := Summing({i, j, k}, Total(c, s.queues))))
  {
    hide Bytes, Step;
    var s1 := s.(pc := Summing({i}, Bytes(s.queues[i].entries, c.nodeSize)));
    var s2 := s.(pc := Summing({i, j}, s1.pc.sum + Bytes(s.queues[j].entries, c.nodeSize)));
    var s3 := s.(pc := Summing({i, j, k}, s2.pc.sum + Bytes(s.queues[k].entries, c.nodeSize)));
    SumsOne(c, s, i);
    SumsOne(c, s1, j);
    SumsOne(c, s2, k);
    assert {} + {i} == {i} && {i} + {j} == {i, j} && {i, j} + {k} == {i, j, k};
    var all := [SumStep(i), SumStep(j), SumStep(k)];
    assert all[1..] == [SumStep(j), SumStep(k)] && all[1..][1..] == [SumStep(k)] && [SumStep(k)][1..] == [];
    assert Run(c, s3, []) == Some(s3);
    assert Run(c, s2, [SumStep(k)]) == Some(s3);
    assert Run(c, s1, [SumStep(j), SumStep(k)]) == Some(s3);
  }

  /** A loop that is about to read can queue any packet of the file for any open stream. */
  lemma AnyPacketIsPut(c: Config, s: System, i: nat, id: nat, size: nat)
    requires ValidConfig(c) && |s.queues| == 3 && s.pc.Reading? && i < 3 && c.open[i] && size <= c.largest
    ensures Step(c, s, PutPacket(i, id, size)) ==
            Some(System(s.queues[i := Put(s.queues[i], DataPacket(id, size))], LoopTop))
  {
  }

  /** A seek as it is done when nothing interferes, from queue i on. */
  function Sought(c: Config, s: System, n: nat): Option<System>
    requires ValidConfig(c) && |s.queues| == 3
    decreases n
  {
    if n == 0 then Some(s)
    else match Step(c, s, SeekStep) case None => None case Some(s') => Sought(c, s', n - 1)
  }

  /** A queue after a seek: a closed one as it was, an open one with nothing but a
      flush packet of a new serial, or with nothing if it is stopping. */
  function Flushed(open: bool, q: QueueState): QueueState {
    if !open then q
    else if q.aborted then q.(entries := [])
    else QueueState([Entry(FlushPacket, q.serial + 1)], q.serial + 1, false)
  }

  lemma FlushedIs(q: QueueState)
    ensures Put(Clear(q), FlushPacket) == Flushed(true, q)
  {
  }

  lemma SeekOne(c: Config, s: System, i: nat)
    requires ValidConfig(c) && |s.queues| == 3 && i < 3 && s.pc == Seeking(i, false)
    ensures Sought(c, s, if c.open[i] then 2 else 1) ==
            Some(System(s.queues[i := Flushed(c.open[i], s.queues[i])], Seeking(i + 1, false)))
  {
    FlushedIs(s.queues[i]);
    var s1 := Step(c, s, SeekStep).value;
    if c.open[i] {
      assert Sought(c, s1, 1) == Sought(c, Step(c, s1, SeekStep).value, 0);
      assert s.queues[i := Clear(s.queues[i])][i := Put(Clear(s.queues[i]), FlushPacket)] ==
             s.queues[i := Put(Clear(s.queues[i]), FlushPacket)];
    } else {
      assert s.queues[i := s.queues[i]] == s.queues;
    }
  }

  lemma {:induction false} SoughtMore(c: Config, s: System, n: nat, m: nat)
    requires ValidConfig(c) && |s.queues| == 3 && Sought(c, s, n).Some?
    ensures |Sought(c, s, n).value.queues| == 3 && Sought(c, s, n + m) == Sought(c, Sought(c, s, n).value, m)
    decreases n
  {
    if n > 0 {
      SoughtMore(c, Step(c, s, SeekStep).value, n - 1, m);
    }
  }

  /** A seek that nothing interferes with does that to all three queues. */
  lemma SeekFlushesAll(c: Config, s: System) returns (n: nat)
    requires ValidConfig(c) && |s.queues| == 3 && s.pc.LoopTop?
    ensures Step(c, s, StartSeek).Some?
    ensures Sought(c, Step(c, s, StartSeek).value, n) ==
            Some(System(seq(3, i requires 0 <= i < 3 => Flushed(c.open[i], s.queues[i])), Seeking(3, false)))
  {
    hide Step, Flushed;
    StartsSeek(c, s);
    var s0 := Step(c, s, StartSeek).value;
    var a, b, d := if c.open[0] then 2 else 1, if c.open[1] then 2 else 1, if c.open[2] then 2 else 1;
    SeekOne(c, s0, 0);
    var s1 := Sought(c, s0, a).value;
    SeekOne(c, s1, 1);
    SoughtMore(c, s0, a, b);
    var s2 := Sought(c, s1, b).value;
    SeekOne(c, s2, 2);
    SoughtMore(c, s0, a + b, d);
    var s3 := Sought(c, s2, d).value;
    n := a + b + d;
    assert s3.queues == seq(3, i requires 0 <= i < 3 => Flushed(c.open[i], s.queues[i]));
  }

  lemma StartsSeek(c: Config, s: System)
    requires ValidConfig(c) && |s.queues| == 3 && s.pc.LoopTop?
    ensures Step(c, s, StartSeek) == Some(s.(pc := Seeking(0, false)))
  {
  }
}
