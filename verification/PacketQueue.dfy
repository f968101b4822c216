/** ffplay's packet queue: a linked list under a lock, and the first-in
    first-out sequence it stands for. */
module PacketQueue {
  import opened Wrappers

  /** More packets than this are enough for a queue. */
  const MIN_FRAMES: nat := 5

  /** The one flush packet, an empty packet that drains a decoder, or a packet of the file. */
  datatype Packet =
    | FlushPacket
    | NullPacket
    | DataPacket(id: nat, size: nat)
  {
    function Size(): nat { if DataPacket? then size else 0 }
  }

  datatype Entry = Entry(pkt: Packet, serial: int)

  datatype QueueState = QueueState(entries: seq<Entry>, serial: int, aborted: bool)

  /** Packet bytes plus one list node for each packet. */
  function Bytes(entries: seq<Entry>, nodeSize: nat): nat {
    if entries == [] then 0 else entries[0].pkt.Size() + nodeSize + Bytes(entries[1..], nodeSize)
  }

  lemma {:induction false} BytesAppend(entries: seq<Entry>, e: Entry, nodeSize: nat)
    ensures Bytes(entries + [e], nodeSize) == Bytes(entries, nodeSize) + e.pkt.Size() + nodeSize
  {
    if entries == [] {
      assert [e][1..] == [];
    } else {
      assert (entries + [e])[1..] == entries[1..] + [e];
      BytesAppend(entries[1..], e, nodeSize);
    }
  }

  // ---------- the queue as a sequence ----------

  function Put(q: QueueState, pkt: Packet): QueueState {
    if q.aborted then q else
    var serial := if pkt.FlushPacket? then q.serial + 1 else q.serial;
    QueueState(q.entries + [Entry(pkt, serial)], serial, false)
  }

  function Clear(q: QueueState): QueueState { q.(entries := []) }

  function Abort(q: QueueState): QueueState { q.(aborted := true) }

  function Start(q: QueueState): QueueState { Put(q.(aborted := false), FlushPacket) }

  function Pop(q: QueueState): QueueState
    requires q.entries != []
  {
    q.(entries := q.entries[1..])
  }

  // ---------- the queue as a linked list ----------

  class PacketNode {
    const pkt: Packet
    var next: PacketNode?
    const serial: int

    constructor (pkt: Packet, serial: int)
      ensures this.pkt == pkt && this.serial == serial && next == null
    {
      this.pkt, this.serial, next := pkt, serial, null;
    }
  }

  ghost function EntriesOf(nodes: seq<PacketNode>): (r: seq<Entry>)
    ensures |r| == |nodes|
    ensures forall i :: 0 <= i < |nodes| ==> r[i] == Entry(nodes[i].pkt, nodes[i].serial)
  {
    seq(|nodes|, i requires 0 <= i < |nodes| => Entry(nodes[i].pkt, nodes[i].serial))
  }

  lemma EntriesAppend(nodes: seq<PacketNode>, n: PacketNode)
    ensures EntriesOf(nodes + [n]) == EntriesOf(nodes) + [Entry(n.pkt, n.serial)]
  {
  }

  /** `nodes` is the chain from its first element to the end of the list. */
  ghost predicate Chain(nodes: seq<PacketNode>)
    reads nodes
  {
    (forall i {:trigger nodes[i].next} :: 0 <= i < |nodes| - 1 ==> nodes[i].next == nodes[i + 1]) &&
    (nodes != [] ==> nodes[|nodes| - 1].next == null) &&
    (forall i, j :: 0 <= i < j < |nodes| ==> nodes[i] != nodes[j])
  }

  /** What packet_queue_get reports; it waits instead of `Wait` when asked to block. */
  datatype GetResult = Aborted | Empty | Wait | Got(entry: Entry)

  class PacketList {
    var firstPkt: PacketNode?
    var lastPkt: PacketNode?
    var nbPackets: int
    var size: int
    var abortRequest: bool
    var serial: int
    const nodeSize: nat
    ghost var nodes: seq<PacketNode>

    ghost predicate Valid()
      reads this, nodes
    {
      Chain(nodes) &&
      firstPkt == (if nodes == [] then null else nodes[0]) &&
      lastPkt == (if nodes == [] then null else nodes[|nodes| - 1]) &&
      nbPackets == |nodes| &&
      size == Bytes(Entries(), nodeSize)
    }

    ghost function Entries(): seq<Entry>
      reads this
    {
      EntriesOf(nodes)
    }

    ghost function Contents(): QueueState
      reads this
    {
      QueueState(Entries(), serial, abortRequest)
    }

    constructor (nodeSize: nat)
      ensures Valid() && nodes == [] && this.nodeSize == nodeSize
      ensures Contents() == QueueState([], 0, true)
    {
      firstPkt, lastPkt, nbPackets, size, serial := null, null, 0, 0, 0;
      abortRequest := true;
      this.nodeSize := nodeSize;
      nodes := [];
    }

    method PutPrivate(pkt: Packet) returns (ok: bool)
      requires Valid()
      modifies this, nodes
      ensures Valid() && ok == !old(abortRequest)
      ensures Contents() == Put(old(Contents()), pkt)
      ensures forall n <- nodes :: n in old(nodes) || fresh(n)
    {
      hide Bytes, EntriesOf;
      if abortRequest {
        return false;
      }
      if pkt.FlushPacket? {
        serial := serial + 1;
      }
      var pkt1 := new PacketNode(pkt, serial);
      if lastPkt == null {
        firstPkt := pkt1;
      } else {
        lastPkt.next := pkt1;
      }
      lastPkt := pkt1;
      nbPackets := nbPackets + 1;
      size := size + pkt1.pkt.Size() + nodeSize;
      BytesAppend(Entries(), Entry(pkt, serial), nodeSize);
      EntriesAppend(nodes, pkt1);
      nodes := nodes + [pkt1];
      return true;
    }

    method Flush()
      requires Valid()
      modifies this
      ensures Valid() && Contents() == Clear(old(Contents()))
      ensures nodes == []
    {
      var pkt := firstPkt;
      ghost var i := 0;
      while pkt != null
        invariant i <= |nodes| && pkt == if i < |nodes| then nodes[i] else null
        decreases |nodes| - i
      {
        var pkt1 := pkt.next;
        pkt, i := pkt1, i + 1;
      }
      lastPkt := null;
      firstPkt := null;
      nbPackets := 0;
      size := 0;
      nodes := [];
    }

    method AbortQueue()
      requires Valid()
      modifies this`abortRequest
      ensures Valid() && Contents() == Abort(old(Contents()))
    {
      abortRequest := true;
    }

    method StartQueue()
      requires Valid()
      modifies this, nodes
      ensures Valid() && Contents() == Start(old(Contents()))
    {
      abortRequest := false;
      var _ := PutPrivate(FlushPacket);
    }

    method Get(block: bool) returns (r: GetResult)
      requires Valid()
      modifies this
      ensures Valid()
      ensures r == if old(abortRequest) then Aborted
                   else if old(Entries()) != [] then Got(old(Entries())[0])
                   else if block then Wait else Empty
      ensures Contents() == if r.Got? then Pop(old(Contents())) else old(Contents())
    {
      if abortRequest {
        return Aborted;
      }
      var pkt1 := firstPkt;
      if pkt1 != null {
        firstPkt := pkt1.next;
        if firstPkt == null {
          lastPkt := null;
        }
        nbPackets := nbPackets - 1;
        size := size - (pkt1.pkt.Size() + nodeSize);
        assert EntriesOf(nodes[1..]) == EntriesOf(nodes)[1..];
        nodes := nodes[1..];
        return Got(Entry(pkt1.pkt, pkt1.serial));
      } else if !block {
        return Empty;
      }
      return Wait;
    }
  }
}
