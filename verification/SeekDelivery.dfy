/** No packet is lost on its way to the codec: while the serial stays and no call
    fails, the decoder works off the queued packets in order, each until all its
    bytes are taken. */
module SeekDelivery {
  import opened PacketQueue
  import opened SeekIsolation
  import opened Wrappers

  // ---------- a list of what is owed ----------

  /** A packet and the bytes of it that the codec has not taken yet. */
  datatype Owed = Owed(id: nat, bytes: int)

  /** What happens to the list: the reader queues a packet, the codec is given one
      and takes `taken` bytes, or, if it takes packets as a whole, all of them. */
  datatype Deed = Queued(id: nat, size: nat) | Called(id: nat, whole: bool, taken: int)

  /** Only the first packet may be given to the codec, and it stays first until
      all its bytes are taken. */
  function Deliver(todo: seq<Owed>, deed: Deed): Option<seq<Owed>> {
    match deed
    case Queued(id, size) => Some(todo + [Owed(id, size)])
    case Called(id, whole, taken) =>
      if todo == [] || todo[0].id != id then None
      else if !whole && taken < todo[0].bytes then Some([Owed(id, todo[0].bytes - taken)] + todo[1..])
      else Some(todo[1..])
  }

  function DeliverAll(todo: seq<Owed>, deeds: seq<Deed>): Option<seq<Owed>>
    decreases |deeds|
  {
    if deeds == [] then Some(todo)
    else match Deliver(todo, deeds[0]) case None => None case Some(next) => DeliverAll(next, deeds[1..])
  }

  // ---------- what the decoder owes ----------

  /** The data packets of a serial in a queue. */
  function InQueue(es: seq<Entry>, serial: int): seq<Owed> {
    if es == [] then []
    else (if es[0].pkt.DataPacket? && es[0].serial == serial then [Owed(es[0].pkt.id, es[0].pkt.size)] else [])
         + InQueue(es[1..], serial)
  }

  /** The data packet the decoder has taken from the queue and not finished. */
  function InDecoder(s: System): seq<Owed> {
    var d := s.d;
    if d.pc.Fetched? then
      if d.pc.entry.pkt.DataPacket? && d.pc.entry.serial == s.q.serial
      then [Owed(d.pc.entry.pkt.id, d.pc.entry.pkt.size)] else []
    else if (d.pc.Enter? || d.pc.Check? || d.pc.Decode?) && d.pending &&
            d.held.pkt.DataPacket? && d.held.serial == s.q.serial
    then [Owed(d.held.pkt.id, d.left)] else []
  }

  function Todo(s: System): seq<Owed> { InDecoder(s) + InQueue(s.q.entries, s.q.serial) }

  /** What a step does, as seen from outside: the packets put, and the codec calls
      on packets of the queue's serial, from the log. */
  function Deeds(s: System, a: Action): seq<Deed> {
    match Step(s, a)
    case None => []
    case Some(s') =>
      if a.ReaderPut? then [Queued(s.nextId, a.size)]
      else if a.CodecStep? && |s'.log| > |s.log| then
        match s'.log[|s'.log| - 1]
        case Decoded(id, serial) => if serial == s.q.serial then [Called(id, !a.isAudio, a.ret)] else []
        case BuffersFlushed => []
      else []
  }

  function AllDeeds(s: System, actions: seq<Action>): seq<Deed>
    decreases |actions|
  {
    if actions == [] then []
    else
      match Step(s, actions[0])
      case None => []
      case Some(s') => Deeds(s, actions[0]) + AllDeeds(s', actions[1..])
  }

  /** No seek, no abort, no stream opened, and no codec call that fails. */
  predicate Calm(actions: seq<Action>) {
    forall a <- actions :: a.ReaderPut? || a.ReaderPutNull? || a.DecoderStep? || (a.CodecStep? && a.ret >= 0)
  }

  /** The decoder knows the serial of the packet it has. */
  ghost predicate KnowsSerial(s: System) {
    var d := s.d;
    (d.pc.Fetched? ==> d.pktSerial == d.pc.entry.serial) &&
    (d.pending && (d.pc.Enter? || d.pc.Check? || d.pc.Decode?) ==> d.held.serial == d.pktSerial) &&
    (d.pc.Decode? ==> d.pending)
  }

  lemma StepKnowsSerial(s: System, a: Action)
    requires KnowsSerial(s) && Step(s, a).Some?
    ensures KnowsSerial(Step(s, a).value)
  {
  }

  lemma {:induction false} InQueueAppend(es: seq<Entry>, e: Entry, serial: int)
    ensures InQueue(es + [e], serial) == InQueue(es, serial) +
            if e.pkt.DataPacket? && e.serial == serial then [Owed(e.pkt.id, e.pkt.size)] else []
  {
    if es == [] {
      assert InQueue([], serial) == [];
      assert [e][1..] == [];
    } else {
      InQueueAppend(es[1..], e, serial);
      assert (es + [e])[1..] == es[1..] + [e];
    }
  }

  lemma DeliverOne(todo: seq<Owed>, deed: Deed)
    ensures DeliverAll(todo, [deed]) == Deliver(todo, deed)
    ensures DeliverAll(todo, []) == Some(todo)
  {
    assert [deed][1..] == [];
  }

  lemma PutDelivers(s: System, a: Action)
    requires (a.ReaderPut? || a.ReaderPutNull?) && !s.q.aborted
    ensures DeliverAll(Todo(s), Deeds(s, a)) == Some(Todo(Step(s, a).value))
  {
    hide InQueue, DeliverAll;
    var s' := Step(s, a).value;
    var pkt := if a.ReaderPut? then DataPacket(s.nextId, a.size) else NullPacket;
    var more := InQueue(s.q.entries, s.q.serial);
    InQueueAppend(s.q.entries, Entry(pkt, s.q.serial), s.q.serial);
    assert InDecoder(s') == InDecoder(s);
    if a.ReaderPut? {
      var last := Owed(s.nextId, a.size);
      assert InDecoder(s) + (more + [last]) == InDecoder(s) + more + [last];
      DeliverOne(Todo(s), Queued(s.nextId, a.size));
    } else {
      assert more + [] == more;
      DeliverOne(Todo(s), Queued(0, 0));
    }
  }

  lemma DecoderDelivers(s: System)
    requires KnowsSerial(s) && !s.q.aborted && DecoderNext(s).Some?
    ensures Todo(DecoderNext(s).value) == Todo(s)
  {
    if s.d.pc.Fetch? {
      assert InDecoder(s) == [];
    }
  }

  lemma CodecDelivers(s: System, a: Action)
    requires KnowsSerial(s) && a.CodecStep? && a.ret >= 0 && Step(s, a).Some?
    ensures DeliverAll(Todo(s), Deeds(s, a)) == Some(Todo(Step(s, a).value))
  {
    hide InQueue, DeliverAll;
    var s', more := Step(s, a).value, InQueue(s.q.entries, s.q.serial);
    DeliverOne(Todo(s), Called(0, true, 0));
    assert [] + more == more;
    if s.d.held.pkt.DataPacket? {
      var id := s.d.held.pkt.id;
      assert s'.log == s.log + [Decoded(id, s.d.held.serial)];
      DeliverOne(Todo(s), Called(id, !a.isAudio, a.ret));
      if s.d.held.serial == s.q.serial {
        assert ([Owed(id, s.d.left)] + more)[1..] == more;
      }
    }
  }

  lemma StepDelivers(s: System, a: Action)
    requires KnowsSerial(s) && !s.q.aborted && Step(s, a).Some? && Calm([a])
    ensures DeliverAll(Todo(s), Deeds(s, a)) == Some(Todo(Step(s, a).value))
    ensures KnowsSerial(Step(s, a).value) && !Step(s, a).value.q.aborted
  {
    hide Todo, DeliverAll, KnowsSerial;
    assert a in [a];
    StepKnowsSerial(s, a);
    match a
    case CodecStep(isAudio, ret, gotFrame) => CodecDelivers(s, a);
    case DecoderStep =>
      DecoderDelivers(s);
      DeliverOne(Todo(s), Queued(0, 0));
    case _ => PutDelivers(s, a);
  }

  lemma {:induction false} DeliverConcat(todo: seq<Owed>, a: seq<Deed>, b: seq<Deed>)
    requires DeliverAll(todo, a).Some?
    ensures DeliverAll(todo, a + b) == DeliverAll(DeliverAll(todo, a).value, b)
    decreases |a|
  {
    if a == [] {
      assert a + b == b;
    } else {
      assert (a + b)[1..] == a[1..] + b;
      DeliverConcat(Deliver(todo, a[0]).value, a[1..], b);
    }
  }

  /** While the serial stays and no call fails, in every interleaving the packets
      of the queue's serial are given to the codec in order, each again and again
      until all its bytes are taken, and none is left out. */
  lemma {:induction false} NothingLost(s: System, actions: seq<Action>)
    requires KnowsSerial(s) && !s.q.aborted && Run(s, actions).Some? && Calm(actions)
    ensures DeliverAll(Todo(s), AllDeeds(s, actions)) == Some(Todo(Run(s, actions).value))
    decreases |actions|
  {
    hide Todo, KnowsSerial, Step, Deeds;
    if actions == [] {
      DeliverOne(Todo(s), Queued(0, 0));
    } else {
      var a := actions[0];
      assert Calm([a]) && Calm(actions[1..]);
      StepDelivers(s, a);
      NothingLost(Step(s, a).value, actions[1..]);
      DeliverConcat(Todo(s), Deeds(s, a), AllDeeds(Step(s, a).value, actions[1..]));
    }
  }

  /** Every run from the start knows the serials. */
  lemma {:induction false} RunKnowsSerial(s: System, actions: seq<Action>)
    requires KnowsSerial(s) && Run(s, actions).Some?
    ensures KnowsSerial(Run(s, actions).value)
    decreases |actions|
  {
    if actions != [] {
      StepKnowsSerial(s, actions[0]);
      RunKnowsSerial(Step(s, actions[0]).value, actions[1..]);
    }
  }

  // ---------- what that means for one packet ----------

  /** The bytes the calls on a packet took, and whether one took it as a whole. */
  function Taken(deeds: seq<Deed>, id: nat): int {
    if deeds == [] then 0
    else (if deeds[0].Called? && deeds[0].id == id then deeds[0].taken else 0) + Taken(deeds[1..], id)
  }

  predicate CalledFor(deeds: seq<Deed>, id: nat) { exists d :: d in deeds && d.Called? && d.id == id }

  predicate CalledWhole(deeds: seq<Deed>, id: nat) { exists d :: d in deeds && d.Called? && d.id == id && d.whole }

  /** No packet is listed or queued under this number, but the one at k. */
  ghost predicate OnlyAt(todo: seq<Owed>, deeds: seq<Deed>, k: nat) {
    k < |todo| && (forall i :: 0 <= i < |todo| && i != k ==> todo[i].id != todo[k].id) &&
    forall d <- deeds :: d.Queued? ==> d.id != todo[k].id
  }

  ghost predicate Listed(todo: seq<Owed>, id: nat) { exists o <- todo :: o.id == id }

  /** A packet that has left the list was given to the codec until it had taken
      the packet as a whole or all its bytes. */
  lemma {:induction false} LeftIsFinished(todo: seq<Owed>, deeds: seq<Deed>, k: nat)
    requires DeliverAll(todo, deeds).Some? && OnlyAt(todo, deeds, k)
    requires !Listed(DeliverAll(todo, deeds).value, todo[k].id)
    ensures CalledFor(deeds, todo[k].id)
    ensures CalledWhole(deeds, todo[k].id) || Taken(deeds, todo[k].id) >= todo[k].bytes
    decreases |deeds|
  {
    var id := todo[k].id;
    if deeds == [] {
      assert false;
    } else {
      var next := Deliver(todo, deeds[0]).value;
      assert deeds == [deeds[0]] + deeds[1..];
      if deeds[0].Called? && k == 0 && (deeds[0].whole || deeds[0].taken >= todo[0].bytes) {
        assert deeds[0] in deeds;
        Untouched(next, deeds[1..], id);
      } else {
        var j := if deeds[0].Called? && |next| < |todo| then k - 1 else k;
        assert next[j].id == id;
        LeftIsFinished(next, deeds[1..], j);
        Later(deeds, id);
      }
    }
  }

  lemma Later(deeds: seq<Deed>, id: nat)
    requires deeds != []
    ensures CalledFor(deeds[1..], id) ==> CalledFor(deeds, id)
    ensures CalledWhole(deeds[1..], id) ==> CalledWhole(deeds, id)
  {
    assert deeds == [deeds[0]] + deeds[1..];
  }

  /** A packet not on the list is not given to the codec. */
  lemma {:induction false} Untouched(todo: seq<Owed>, deeds: seq<Deed>, id: nat)
    requires DeliverAll(todo, deeds).Some? && !Listed(todo, id)
    requires forall d <- deeds :: d.Queued? ==> d.id != id
    ensures Taken(deeds, id) == 0 && !CalledFor(deeds, id)
    decreases |deeds|
  {
    if deeds != [] {
      var next := Deliver(todo, deeds[0]).value;
      assert deeds == [deeds[0]] + deeds[1..];
      assert deeds[0].Called? ==> todo[0] in todo;
      forall o <- next ensures o.id != id {
        if o in todo {
        } else if deeds[0].Called? {
          assert todo[0] in todo;
        }
      }
      Untouched(next, deeds[1..], id);
    }
  }

  /** While a packet is on the list, no packet behind it is given to the codec. */
  lemma {:induction false} NoneOvertakes(todo: seq<Owed>, deeds: seq<Deed>, k: nat, l: nat)
    requires DeliverAll(todo, deeds).Some? && k < l && OnlyAt(todo, deeds, k) && OnlyAt(todo, deeds, l)
    requires Listed(DeliverAll(todo, deeds).value, todo[k].id)
    ensures !CalledFor(deeds, todo[l].id)
    decreases |deeds|
  {
    if deeds != [] {
      var next := Deliver(todo, deeds[0]).value;
      assert deeds == [deeds[0]] + deeds[1..];
      var gone := deeds[0].Called? && |next| < |todo|;
      if gone && k == 0 {
        NotListedAgain(next, deeds[1..], todo[k].id);
        assert false;
      } else {
        var i := if gone then 1 else 0;
        assert next[k - i].id == todo[k].id && next[l - i].id == todo[l].id;
        NoneOvertakes(next, deeds[1..], k - i, l - i);
      }
    }
  }

  lemma {:induction false} NotListedAgain(todo: seq<Owed>, deeds: seq<Deed>, id: nat)
    requires DeliverAll(todo, deeds).Some? && !Listed(todo, id)
    requires forall d <- deeds :: d.Queued? ==> d.id != id
    ensures !Listed(DeliverAll(todo, deeds).value, id)
    decreases |deeds|
  {
    if deeds != [] {
      var next := Deliver(todo, deeds[0]).value;
      forall o <- next ensures o.id != id {
        if o !in todo && deeds[0].Called? {
          assert todo[0] in todo;
        }
      }
      NotListedAgain(next, deeds[1..], id);
    }
  }

  // ---------- the decoder goes on ----------

  /** Outside the codec the decoder waits exactly for a packet, or has stopped. */
  lemma WaitsIff(s: System)
    ensures DecoderNext(s).None? <==>
            s.d.pc.Stopped? || s.d.pc.Decode? || (s.d.pc.Fetch? && !s.q.aborted && s.q.entries == [])
  {
  }

  /** The first packet of the queue reaches the codec as it is if it carries the
      queue's serial, and is passed over if it does not or is the flush packet. */
  lemma FirstIsTaken(s: System)
    requires s.d.pc.Fetch? && !s.q.aborted && s.q.entries != []
    ensures var e := s.q.entries[0];
      Run(s, [DecoderStep, DecoderStep]).Some? &&
      var s' := Run(s, [DecoderStep, DecoderStep]).value;
      s'.q == Pop(s.q) &&
      if e.pkt.FlushPacket? || e.serial != s.q.serial then s'.d.pc.Fetch?
      else s'.d.pc.Decode? && s'.d.held == e && s'.d.left == e.pkt.Size() && s'.d.pending
  {
    assert [DecoderStep, DecoderStep][1..] == [DecoderStep] && [DecoderStep][1..] == [];
    var s1 := DecoderNext(s).value;
    assert Run(s1, [DecoderStep]) == Run(DecoderNext(s1).value, []);
  }

  /** A packet that is pending is given to the codec again before another is
      taken, unless a seek has begun or the queue is aborted. */
  lemma PendingComesFirst(s: System)
    requires s.d.pc.Enter? && s.d.pending && s.d.held.serial == s.d.pktSerial == s.q.serial && !s.q.aborted
    ensures Run(s, [DecoderStep, DecoderStep]) == Some(s.(d := s.d.(pc := Decode)))
  {
    assert [DecoderStep, DecoderStep][1..] == [DecoderStep] && [DecoderStep][1..] == [];
    var s1 := DecoderNext(s).value;
    assert Run(s1, [DecoderStep]) == Run(DecoderNext(s1).value, []);
  }

  /** What a codec call leaves behind: a failed one drops its packet; an empty packet
      is given again as long as frames come out, and then the decoder is finished
      with its serial; the log gets the data packet, as it is. */
  lemma CodecAnswers(s: System, isAudio: bool, ret: int, gotFrame: bool)
    requires s.d.pc.Decode? && s.d.pending && !s.d.held.pkt.FlushPacket?
    ensures var d, s' := s.d, CodecNext(s, isAudio, ret, gotFrame);
      s'.d.pc.Enter? && s'.q == s.q && s'.d.held == d.held && s'.d.pktSerial == d.pktSerial &&
      (ret < 0 ==> !s'.d.pending && s'.d.finished == d.finished) &&
      (ret >= 0 && d.held.pkt.NullPacket? ==>
         s'.d.pending == gotFrame && s'.d.finished == if gotFrame then d.finished else d.pktSerial) &&
      (ret >= 0 && d.held.pkt.DataPacket? ==>
         s'.d.finished == d.finished && (s'.d.pending <==> isAudio && ret < d.left) &&
         (isAudio ==> s'.d.left == d.left - ret)) &&
      s'.log == s.log + if d.held.pkt.DataPacket? then [Decoded(d.held.pkt.id, d.held.serial)] else []
  {
  }
}
