/** A reader thread, a decoder thread and the thread that opens and closes
    streams, all working on one packet queue. A seek empties the queue and then
    puts a flush packet with a new serial; every locked region and every
    unlocked read of a queue field is one step, and steps interleave freely. */
module SeekIsolation {
  import opened Wrappers
  import opened PacketQueue

  /** What the codec is given, in order. */
  datatype CodecEvent = BuffersFlushed | Decoded(id: nat, serial: int)

  /** Where the decoder thread stands in decoder_decode_frame. */
  datatype DecoderPc =
    | Stopped                 // not running
    | Enter                   // about to read abort_request
    | Check                   // about to compare serials
    | Fetch                   // about to get a packet
    | Fetched(entry: Entry)   // about to test the packet it got
    | Decode                  // about to call the codec

  datatype Decoder = Decoder(
    pc: DecoderPc,
    pktSerial: int,
    pending: bool,
    held: Entry,
    left: int,
    finished: int)

  /** `owes`: the reader has emptied the queue and not yet put the flush packet.
      `flushed` is the serial of the last flush packet a decoder took, `log`
      what codecs were given so far, `nextId` numbers the packets of the file. */
  datatype System = System(
    q: QueueState,
    owes: bool,
    d: Decoder,
    flushed: int,
    log: seq<CodecEvent>,
    nextId: nat)

  datatype Action =
    | ReaderPut(size: nat)
    | ReaderPutNull
    | ReaderClear
    | ReaderPutFlush
    | AbortQueue
    | ClearAborted
    | StartDecoder
    | DecoderStep
    | CodecStep(isAudio: bool, ret: int, gotFrame: bool)

  const NEW_DECODER := Decoder(Enter, 0, false, Entry(NullPacket, 0), 0, 0)

  const INITIAL := System(QueueState([], 0, true), false, NEW_DECODER.(pc := Stopped), -1, [], 0)

  /** One step of the decoder thread outside the codec; `None` while it waits. */
  function DecoderNext(s: System): Option<System> {
    var d := s.d;
    match d.pc
    case Stopped => None
    case Enter => Some(s.(d := d.(pc := if s.q.aborted then Stopped else Check)))
    case Check =>
      Some(s.(d := d.(pc := if !d.pending || s.q.serial != d.pktSerial then Fetch else Decode)))
    case Fetch =>
      if s.q.aborted then Some(s.(d := d.(pc := Stopped)))
      else if s.q.entries == [] then None
      else
        var e := s.q.entries[0];
        var d' := d.(pc := Fetched(e), pktSerial := e.serial);
        if e.pkt.FlushPacket? then
          Some(s.(q := Pop(s.q), d := d'.(finished := 0), flushed := e.serial, log := s.log + [BuffersFlushed]))
        else
          Some(s.(q := Pop(s.q), d := d'))
    case Fetched(e) =>
      if e.pkt.FlushPacket? || s.q.serial != d.pktSerial then Some(s.(d := d.(pc := Fetch)))
      else Some(s.(d := d.(pc := Decode, held := e, left := e.pkt.Size(), pending := true)))
    case Decode => None
  }

  /** The codec call and the bookkeeping after it; the next loop test and the
      next call of the function both continue at `Enter`. */
  function CodecNext(s: System, isAudio: bool, ret: int, gotFrame: bool): System {
    var d := s.d;
    var log := if d.held.pkt.DataPacket? then s.log + [Decoded(d.held.pkt.id, d.held.serial)] else s.log;
    var d' :=
      if ret < 0 then d.(pending := false)
      else if d.held.pkt.DataPacket? then
        var left := d.left - if isAudio then ret else d.left;
        d.(left := left, pending := d.pending && left > 0)
      else if !gotFrame then d.(pending := false, finished := d.pktSerial)
      else d;
    s.(d := d'.(pc := Enter), log := log)
  }

  function Step(s: System, a: Action): Option<System> {
    match a
    case ReaderPut(size) =>
      Some(s.(q := Put(s.q, DataPacket(s.nextId, size)), nextId := s.nextId + 1))
    case ReaderPutNull => Some(s.(q := Put(s.q, NullPacket)))
    case ReaderClear => Some(s.(q := Clear(s.q), owes := true))
    case ReaderPutFlush => Some(s.(q := Put(s.q, FlushPacket), owes := false))
    case AbortQueue => Some(s.(q := Abort(s.q)))
    case ClearAborted =>
      if s.d.pc.Stopped? && s.q.aborted then Some(s.(q := Clear(s.q))) else None
    case StartDecoder =>
      if s.d.pc.Stopped? then Some(s.(q := Start(s.q), d := NEW_DECODER)) else None
    case DecoderStep => DecoderNext(s)
    case CodecStep(isAudio, ret, gotFrame) =>
      if s.d.pc.Decode? then Some(CodecNext(s, isAudio, ret, gotFrame)) else None
  }

  function Run(s: System, actions: seq<Action>): Option<System>
    decreases |actions|
  {
    if actions == [] then Some(s) else
    match Step(s, actions[0]) case None => None case Some(s') => Run(s', actions[1..])
  }

  /** The reader puts no packet between emptying the queue and putting the flush packet. */
  ghost predicate Disciplined(s: System, actions: seq<Action>)
    decreases |actions|
  {
    actions != [] ==>
      (actions[0].ReaderPut? || actions[0].ReaderPutNull? ==> !s.owes) &&
      (Step(s, actions[0]).Some? ==> Disciplined(Step(s, actions[0]).value, actions[1..]))
  }

  // ---------- what a seek must guarantee ----------

  /** Between data packets of different serials the codec is flushed. */
  ghost predicate Isolated(log: seq<CodecEvent>) {
    forall i, j :: 0 <= i < j < |log| && log[i].Decoded? && log[j].Decoded? && log[i].serial != log[j].serial ==>
      exists k :: i < k < j && log[k].BuffersFlushed?
  }

  /** Packets reach the codec in the order of the file. */
  ghost predicate InOrder(log: seq<CodecEvent>) {
    forall i, j :: 0 <= i < j < |log| && log[i].Decoded? && log[j].Decoded? ==> log[i].id <= log[j].id
  }

  // ---------- the invariant ----------

  ghost predicate FlushAhead(entries: seq<Entry>, n: int, serial: int) {
    exists i :: 0 <= i < n <= |entries| && entries[i].pkt.FlushPacket? && entries[i].serial == serial
  }

  /** Serials in the queue rise exactly at flush packets. */
  ghost predicate SerialsRise(s: System) {
    var es := s.q.entries;
    s.flushed <= s.q.serial &&
    (forall i :: 0 <= i < |es| ==> s.flushed <= es[i].serial <= s.q.serial) &&
    (forall i :: 0 <= i < |es| && es[i].pkt.FlushPacket? ==> s.flushed < es[i].serial) &&
    (forall i, j :: 0 <= i < j < |es| ==> es[i].serial <= es[j].serial) &&
    (forall i, j :: 0 <= i < j < |es| && es[j].pkt.FlushPacket? ==> es[i].serial < es[j].serial)
  }

  /** No packet can be taken before the flush packet of its serial. */
  ghost predicate Announced(s: System) {
    var es := s.q.entries;
    (forall j :: 0 <= j < |es| && !es[j].pkt.FlushPacket? ==>
       es[j].serial == s.flushed || FlushAhead(es, j, es[j].serial)) &&
    (s.q.aborted || s.owes || s.q.serial == s.flushed || FlushAhead(es, |es|, s.q.serial))
  }

  ghost predicate HeldCurrent(s: System) {
    var d := s.d;
    (d.pc.Fetched? ==>
       d.pktSerial == d.pc.entry.serial && (!d.pc.entry.pkt.FlushPacket? ==> d.pktSerial == s.flushed)) &&
    (d.pending && (d.pc.Enter? || d.pc.Check? || d.pc.Decode?) ==>
       d.held.serial == d.pktSerial == s.flushed) &&
    (d.pc.Decode? ==> d.pending)
  }

  ghost predicate LogCurrent(s: System) {
    Isolated(s.log) &&
    forall i :: 0 <= i < |s.log| && s.log[i].Decoded? ==>
      s.log[i].serial == s.flushed || exists k :: i < k < |s.log| && s.log[k].BuffersFlushed?
  }

  ghost predicate Ordered(s: System) {
    var es := s.q.entries;
    InOrder(s.log) &&
    (forall i, j :: 0 <= i < j < |es| && es[i].pkt.DataPacket? && es[j].pkt.DataPacket? ==>
       es[i].pkt.id < es[j].pkt.id) &&
    (forall i :: 0 <= i < |es| && es[i].pkt.DataPacket? ==> es[i].pkt.id < s.nextId) &&
    (forall i :: 0 <= i < |s.log| && s.log[i].Decoded? ==> s.log[i].id < s.nextId) &&
    (forall i, j :: 0 <= i < |s.log| && 0 <= j < |es| && s.log[i].Decoded? && es[j].pkt.DataPacket? ==>
       s.log[i].id < es[j].pkt.id) &&
    InHand(s, s.d.held, s.d.pending) &&
    (s.d.pc.Fetched? ==> InHand(s, s.d.pc.entry, true))
  }

  /** A packet taken from the queue is behind everything decoded and ahead of everything queued. */
  ghost predicate InHand(s: System, e: Entry, live: bool) {
    live && e.pkt.DataPacket? ==>
      e.pkt.id < s.nextId &&
      (forall i :: 0 <= i < |s.log| && s.log[i].Decoded? ==> s.log[i].id <= e.pkt.id) &&
      (forall j :: 0 <= j < |s.q.entries| && s.q.entries[j].pkt.DataPacket? ==> e.pkt.id < s.q.entries[j].pkt.id)
  }

  ghost predicate Inv(s: System) {
    SerialsRise(s) && Announced(s) && HeldCurrent(s) && LogCurrent(s)
  }

  lemma PutRises(s: System, pkt: Packet, s': System)
    requires SerialsRise(s) && s'.q == Put(s.q, pkt) && s'.flushed == s.flushed
    ensures SerialsRise(s')
  {
  }

  /** A queued packet stays announced when another is queued behind it. */
  lemma StillAhead(es: seq<Entry>, more: seq<Entry>, n: nat, serial: int)
    requires n <= |es| && es <= more && FlushAhead(es, n, serial)
    ensures FlushAhead(more, n, serial)
  {
    var i :| 0 <= i < n && es[i].pkt.FlushPacket? && es[i].serial == serial;
    assert more[i] == es[i];
  }

  lemma PutAnnounces(s: System, pkt: Packet, s': System)
    requires SerialsRise(s) && Announced(s)
    requires s' == s.(q := Put(s.q, pkt), owes := s'.owes, nextId := s'.nextId)
    requires if pkt.FlushPacket? then s'.owes == false else !s.owes && !s'.owes
    ensures SerialsRise(s') && Announced(s')
  {
    hide FlushAhead;
    PutRises(s, pkt, s');
    var es, es' := s.q.entries, s'.q.entries;
    if !s.q.aborted {
      forall j | 0 <= j < |es'| && !es'[j].pkt.FlushPacket?
        ensures es'[j].serial == s'.flushed || FlushAhead(es', j, es'[j].serial)
      {
        if j < |es| {
          assert es'[j] == es[j];
        }
        if FlushAhead(es, j, es'[j].serial) {
          StillAhead(es, es', j, es'[j].serial);
        }
      }
      if pkt.FlushPacket? {
        LastAhead(es', s'.q.serial);
      } else if s.q.serial != s.flushed {
        assert FlushAhead(es, |es|, s.q.serial);
        StillAhead(es, es', |es|, s.q.serial);
        WiderAhead(es', |es|, s.q.serial);
      }
    }
  }

  lemma LastAhead(es: seq<Entry>, serial: int)
    requires es != [] && es[|es| - 1].pkt.FlushPacket? && es[|es| - 1].serial == serial
    ensures FlushAhead(es, |es|, serial)
  {
  }

  lemma WiderAhead(es: seq<Entry>, n: nat, serial: int)
    requires n <= |es| && FlushAhead(es, n, serial)
    ensures FlushAhead(es, |es|, serial)
  {
  }

  lemma PopAnnounces(s: System, s': System)
    requires SerialsRise(s) && Announced(s) && s.q.entries != []
    requires s'.q == Pop(s.q) && s'.owes == s.owes
    requires s'.flushed == if s.q.entries[0].pkt.FlushPacket? then s.q.entries[0].serial else s.flushed
    ensures SerialsRise(s') && Announced(s')
    ensures !s.q.entries[0].pkt.FlushPacket? ==> s.q.entries[0].serial == s.flushed
  {
    var es, es' := s.q.entries, s'.q.entries;
    forall n, serial | 1 <= n <= |es| && FlushAhead(es, n, serial) &&
                       !(es[0].pkt.FlushPacket? && es[0].serial == serial)
      ensures FlushAhead(es', n - 1, serial)
    {
      var i :| 0 <= i < n && es[i].pkt.FlushPacket? && es[i].serial == serial;
      assert es'[i - 1] == es[i];
    }
    forall j | 0 <= j < |es'| && !es'[j].pkt.FlushPacket?
      ensures es'[j].serial == s'.flushed || FlushAhead(es', j, es'[j].serial)
    {
      assert es'[j] == es[j + 1];
    }
  }

  lemma LogAppend(s: System, e: CodecEvent, s': System)
    requires LogCurrent(s) && s'.log == s.log + [e]
    requires e.Decoded? ==> e.serial == s.flushed == s'.flushed
    ensures LogCurrent(s')
  {
    var log := s.log + [e];
    forall i, j | 0 <= i < j < |log| && log[i].Decoded? && log[j].Decoded? && log[i].serial != log[j].serial
      ensures exists k :: i < k < j && log[k].BuffersFlushed?
    {
      assert log[i] == s.log[i];
      if j < |s.log| {
        var k :| i < k < j && s.log[k].BuffersFlushed?;
        assert log[k] == s.log[k];
      } else {
        var k :| i < k < |s.log| && s.log[k].BuffersFlushed?;
        assert log[k] == s.log[k];
      }
    }
    forall i | 0 <= i < |log| && log[i].Decoded?
      ensures (log[i].serial == s.flushed && e.Decoded?) || exists k :: i < k < |log| && log[k].BuffersFlushed?
    {
      if i < |s.log| {
        assert log[i] == s.log[i];
        if e.BuffersFlushed? {
          assert log[|s.log|].BuffersFlushed?;
        } else if s.log[i].serial != s.flushed {
          var k :| i < k < |s.log| && s.log[k].BuffersFlushed?;
          assert log[k] == s.log[k];
        }
      }
    }
  }

  lemma FetchKeepsInv(s: System)
    requires Inv(s) && s.d.pc.Fetch? && !s.q.aborted && s.q.entries != []
    ensures Inv(DecoderNext(s).value)
  {
    var s' := DecoderNext(s).value;
    PopAnnounces(s, s');
    if s.q.entries[0].pkt.FlushPacket? {
      LogAppend(s, BuffersFlushed, s');
    }
  }

  lemma CodecKeepsInv(s: System, isAudio: bool, ret: int, gotFrame: bool)
    requires Inv(s) && s.d.pc.Decode?
    ensures Inv(CodecNext(s, isAudio, ret, gotFrame))
  {
    var s' := CodecNext(s, isAudio, ret, gotFrame);
    if s.d.held.pkt.DataPacket? {
      LogAppend(s, Decoded(s.d.held.pkt.id, s.d.held.serial), s');
    }
  }

  lemma AbortKeepsInv(s: System)
    requires Inv(s)
    ensures Inv(s.(q := Abort(s.q)))
  {
  }

  lemma ClearKeepsInv(s: System, owes: bool)
    requires Inv(s) && (owes || s.q.aborted)
    ensures Inv(s.(q := Clear(s.q), owes := owes))
  {
  }

  lemma StepKeepsInv(s: System, a: Action)
    requires Inv(s) && Step(s, a).Some?
    requires a.ReaderPut? || a.ReaderPutNull? ==> !s.owes
    ensures Inv(Step(s, a).value)
  {
    var s' := Step(s, a).value;
    match a
    case ReaderPut(size) => PutAnnounces(s, DataPacket(s.nextId, size), s');
    case ReaderPutNull => PutAnnounces(s, NullPacket, s');
    case ReaderClear => ClearKeepsInv(s, true);
    case ReaderPutFlush => PutAnnounces(s, FlushPacket, s');
    case AbortQueue => AbortKeepsInv(s);
    case ClearAborted => ClearKeepsInv(s, s.owes);
    case StartDecoder => StartKeepsInv(s);
    case DecoderStep =>
      if s.d.pc.Fetch? && !s.q.aborted {
        FetchKeepsInv(s);
      } else {
        assert s'.q == s.q && s'.log == s.log && s'.flushed == s.flushed && s'.owes == s.owes;
      }
    case CodecStep(isAudio, ret, gotFrame) => CodecKeepsInv(s, isAudio, ret, gotFrame);
  }

  lemma StartKeepsInv(s: System)
    requires Inv(s)
    ensures Inv(s.(q := Start(s.q), d := NEW_DECODER))
  {
    var s0 := s.(q := s.q.(aborted := false));
    var es, q' := s.q.entries, Start(s.q);
    assert q'.entries == es + [Entry(FlushPacket, s.q.serial + 1)];
    forall j | 0 <= j < |es| && !es[j].pkt.FlushPacket?
      ensures es[j].serial == s.flushed || FlushAhead(q'.entries, j, es[j].serial)
    {
      if es[j].serial != s.flushed {
        var i :| 0 <= i < j && es[i].pkt.FlushPacket? && es[i].serial == es[j].serial;
        assert q'.entries[i] == es[i];
      }
    }
    assert q'.entries[|es|].pkt.FlushPacket?;
  }

  lemma {:induction false} RunKeepsInv(s: System, actions: seq<Action>)
    requires Inv(s) && Run(s, actions).Some? && Disciplined(s, actions)
    ensures Inv(Run(s, actions).value)
    decreases |actions|
  {
    if actions != [] {
      StepKeepsInv(s, actions[0]);
      RunKeepsInv(Step(s, actions[0]).value, actions[1..]);
    }
  }

  /** In every interleaving, the codec never sees packets of two serials without
      being flushed in between. */
  lemma SeekIsolation(actions: seq<Action>)
    requires Run(INITIAL, actions).Some? && Disciplined(INITIAL, actions)
    ensures Isolated(Run(INITIAL, actions).value.log)
  {
    RunKeepsInv(INITIAL, actions);
  }

  // ---------- order ----------

  lemma PutKeepsOrder(s: System, pkt: Packet, s': System)
    requires Ordered(s) && (pkt.DataPacket? ==> pkt.id == s.nextId && s'.nextId == s.nextId + 1)
    requires s'.q == Put(s.q, pkt) && s'.log == s.log && s'.nextId >= s.nextId
    requires s'.d == s.d || (!s'.d.pending && !s'.d.pc.Fetched?)
    ensures Ordered(s')
  {
  }

  lemma PopKeepsOrder(s: System, s': System)
    requires Ordered(s) && s.q.entries != [] && s'.q == Pop(s.q) && s'.nextId == s.nextId
    requires s'.log == s.log || s'.log == s.log + [BuffersFlushed]
    requires s'.d.held == s.d.held && s'.d.pending == s.d.pending && s'.d.pc == Fetched(s.q.entries[0])
    ensures Ordered(s')
  {
    var es, es' := s.q.entries, s'.q.entries;
    assert forall i :: 0 <= i < |es'| ==> es'[i] == es[i + 1];
    assert forall i :: 0 <= i < |s'.log| && s'.log[i].Decoded? ==> i < |s.log| && s'.log[i] == s.log[i];
    assert InHand(s', es[0], true);
    assert InHand(s', s'.d.held, s'.d.pending);
  }

  lemma CodecKeepsOrder(s: System, isAudio: bool, ret: int, gotFrame: bool)
    requires Ordered(s) && s.d.pc.Decode? && s.d.pending
    ensures Ordered(CodecNext(s, isAudio, ret, gotFrame))
  {
    var s' := CodecNext(s, isAudio, ret, gotFrame);
    assert InHand(s, s.d.held, true);
    assert s'.d.held == s.d.held;
    assert forall i :: 0 <= i < |s'.log| && s'.log[i].Decoded? ==>
      (i < |s.log| && s'.log[i] == s.log[i]) || s'.log[i].id == s.d.held.pkt.id;
    assert InHand(s', s'.d.held, s'.d.pending);
  }

  lemma LocalKeepsOrder(s: System, s': System)
    requires Ordered(s) && (s'.q.entries == s.q.entries || s'.q.entries == [])
    requires s'.log == s.log && s'.nextId == s.nextId
    requires s'.d.pc.Fetched? ==> s'.d.pc == s.d.pc
    requires (s'.d.held == s.d.held && s'.d.pending == s.d.pending) || (s.d.pc.Fetched? && s'.d.held == s.d.pc.entry)
    ensures Ordered(s')
  {
  }

  lemma StepKeepsOrder(s: System, a: Action)
    requires Ordered(s) && (s.d.pc.Decode? ==> s.d.pending) && Step(s, a).Some?
    ensures Ordered(Step(s, a).value)
    ensures Step(s, a).value.d.pc.Decode? ==> Step(s, a).value.d.pending
  {
    var s' := Step(s, a).value;
    match a
    case ReaderPut(size) => PutKeepsOrder(s, DataPacket(s.nextId, size), s');
    case ReaderPutNull => PutKeepsOrder(s, NullPacket, s');
    case ReaderPutFlush => PutKeepsOrder(s, FlushPacket, s');
    case StartDecoder => PutKeepsOrder(s.(q := s.q.(aborted := false)), FlushPacket, s');
    case DecoderStep =>
      if s.d.pc.Fetch? && !s.q.aborted {
        PopKeepsOrder(s, s');
      } else {
        LocalKeepsOrder(s, s');
      }
    case CodecStep(isAudio, ret, gotFrame) => CodecKeepsOrder(s, isAudio, ret, gotFrame);
    case _ => LocalKeepsOrder(s, s');
  }

  lemma {:induction false} RunKeepsOrder(s: System, actions: seq<Action>)
    requires Ordered(s) && (s.d.pc.Decode? ==> s.d.pending) && Run(s, actions).Some?
    ensures Ordered(Run(s, actions).value)
    decreases |actions|
  {
    if actions != [] {
      StepKeepsOrder(s, actions[0]);
      RunKeepsOrder(Step(s, actions[0]).value, actions[1..]);
    }
  }

  /** Packets reach the codec in file order, whatever is discarded on the way
      and whatever the threads do. */
  lemma DecodedInOrder(actions: seq<Action>)
    requires Run(INITIAL, actions).Some?
    ensures InOrder(Run(INITIAL, actions).value.log)
  {
    RunKeepsOrder(INITIAL, actions);
  }

  // ---------- after a seek ----------

  /** `n` was the queue's serial when the log had `start` entries. */
  ghost predicate FreshSince(s: System, n: int, start: nat) {
    n <= s.q.serial && (s.d.pc.Decode? ==> n <= s.d.held.serial) && start <= |s.log| &&
    forall i :: start <= i < |s.log| && s.log[i].Decoded? ==> n <= s.log[i].serial
  }

  lemma StepStaysFresh(s: System, a: Action, n: int, start: nat)
    requires HeldCurrent(s) && Step(s, a).Some? && FreshSince(s, n, start)
    ensures FreshSince(Step(s, a).value, n, start)
  {
    var s' := Step(s, a).value;
    if a.CodecStep? && s.d.held.pkt.DataPacket? {
      assert s'.log == s.log + [Decoded(s.d.held.pkt.id, s.d.held.serial)];
    }
  }

  lemma {:induction false} RunStaysFresh(s: System, actions: seq<Action>, n: int, start: nat)
    requires Inv(s) && Run(s, actions).Some? && Disciplined(s, actions) && FreshSince(s, n, start)
    ensures FreshSince(Run(s, actions).value, n, start)
    decreases |actions|
  {
    if actions != [] {
      StepKeepsInv(s, actions[0]);
      StepStaysFresh(s, actions[0], n, start);
      RunStaysFresh(Step(s, actions[0]).value, actions[1..], n, start);
    }
  }

  /** What codecs were given stays given. */
  lemma {:induction false} RunExtendsLog(s: System, actions: seq<Action>)
    requires Run(s, actions).Some?
    ensures s.log <= Run(s, actions).value.log
    decreases |actions|
  {
    if actions != [] {
      var s' := Step(s, actions[0]).value;
      assert s.log <= s'.log;
      RunExtendsLog(s', actions[1..]);
    }
  }

  /** The packet at hand, as the codec sees it. */
  function AtHand(s: System): CodecEvent {
    if s.d.held.pkt.DataPacket? then Decoded(s.d.held.pkt.id, s.d.held.serial) else BuffersFlushed
  }

  /** A packet that has passed the serial check is decoded once before the next check. */
  lemma {:induction false} RunFreshAfterHeld(s: System, actions: seq<Action>, n: int, i: nat)
    requires Inv(s) && Run(s, actions).Some? && Disciplined(s, actions) && n <= s.q.serial && s.d.pc.Decode?
    requires var log := Run(s, actions).value.log; |s.log| <= i < |log| && log[i].Decoded?
    ensures var log := Run(s, actions).value.log; n <= log[i].serial || (i == |s.log| && log[i] == AtHand(s))
    decreases |actions|
  {
    if actions != [] {
      var s' := Step(s, actions[0]).value;
      StepKeepsInv(s, actions[0]);
      if actions[0].CodecStep? {
        RunStaysFresh(s', actions[1..], n, |s'.log|);
        RunExtendsLog(s', actions[1..]);
      } else {
        assert s'.d == s.d && s'.log == s.log;
        RunFreshAfterHeld(s', actions[1..], n, i);
      }
    }
  }

  /** Once a seek has raised the serial, no packet from before it is decoded any
      more, except that one packet which had already passed the serial check may
      be the very next one the codec is given. */
  lemma NoStaleData(before: seq<Action>, after: seq<Action>, i: nat)
    requires Run(INITIAL, before).Some? && Disciplined(INITIAL, before)
    requires var s := Run(INITIAL, before).value; Run(s, after).Some? && Disciplined(s, after)
    requires var s := Run(INITIAL, before).value; var log := Run(s, after).value.log;
      |s.log| <= i < |log| && log[i].Decoded?
    ensures var s := Run(INITIAL, before).value; var log := Run(s, after).value.log;
      log[i].serial >= s.q.serial || (s.d.pc.Decode? && i == |s.log| && log[i] == AtHand(s))
  {
    var s := Run(INITIAL, before).value;
    RunKeepsInv(INITIAL, before);
    if s.d.pc.Decode? {
      RunFreshAfterHeld(s, after, s.q.serial, i);
    } else {
      RunStaysFresh(s, after, s.q.serial, |s.log|);
    }
  }

  // ---------- the discipline is needed ----------

  lemma {:induction false} RunAppend(s: System, actions: seq<Action>, a: Action)
    requires Run(s, actions).Some?
    ensures Run(s, actions + [a]) == Step(Run(s, actions).value, a)
    decreases |actions|
  {
    if actions == [] {
      assert ([] + [a])[1..] == [];
    } else {
      assert (actions + [a])[1..] == actions[1..] + [a];
      RunAppend(Step(s, actions[0]).value, actions[1..], a);
    }
  }

  lemma RunDecoderStep(s: System, actions: seq<Action>, t: System)
    requires Run(s, actions).Some? && DecoderNext(Run(s, actions).value) == Some(t)
    ensures Run(s, actions + [DecoderStep]) == Some(t)
  {
    RunAppend(s, actions, DecoderStep);
  }

  /** A decoder that was given the first packet of serial 1 and waits for more. */
  const ONE_DECODED := System(
    QueueState([], 1, false), false,
    Decoder(Enter, 1, false, Entry(DataPacket(0, 1), 1), 0, 0), 1, [BuffersFlushed, Decoded(0, 1)], 1)

  lemma ReachOneDecoded() returns (actions: seq<Action>)
    ensures Run(INITIAL, actions) == Some(ONE_DECODED)
  {
    assert Run(INITIAL, []) == Some(INITIAL);
    hide Run;
    var f, p, d0 := Entry(FlushPacket, 1), Entry(DataPacket(0, 1), 1), NEW_DECODER;
    var none: seq<Entry> := [];
    assert none + [f] == [f] && [f] + [p] == [f, p] && [f, p][1..] == [p] && [p][1..] == none;
    assert [] + [BuffersFlushed] == [BuffersFlushed];
    assert [BuffersFlushed] + [Decoded(0, 1)] == [BuffersFlushed, Decoded(0, 1)];
    actions := [];
    RunAppend(INITIAL, actions, StartDecoder);
    actions := actions + [StartDecoder];
    RunAppend(INITIAL, actions, ReaderPut(1));
    actions := actions + [ReaderPut(1)];
    RunDecoderStep(INITIAL, actions, System(QueueState([f, p], 1, false), false, d0.(pc := Check), -1, [], 1));
    actions := actions + [DecoderStep];
    RunDecoderStep(INITIAL, actions, System(QueueState([f, p], 1, false), false, d0.(pc := Fetch), -1, [], 1));
    actions := actions + [DecoderStep];
    var d1, log1 := d0.(pktSerial := 1), [BuffersFlushed];
    RunDecoderStep(INITIAL, actions, System(QueueState([p], 1, false), false, d1.(pc := Fetched(f)), 1, log1, 1));
    actions := actions + [DecoderStep];
    RunDecoderStep(INITIAL, actions, System(QueueState([p], 1, false), false, d1.(pc := Fetch), 1, log1, 1));
    actions := actions + [DecoderStep];
    RunDecoderStep(INITIAL, actions, System(QueueState([], 1, false), false, d1.(pc := Fetched(p)), 1, log1, 1));
    actions := actions + [DecoderStep];
    var d2 := d1.(pc := Decode, held := p, left := 1, pending := true);
    RunDecoderStep(INITIAL, actions, System(QueueState([], 1, false), false, d2, 1, log1, 1));
    actions := actions + [DecoderStep];
    RunAppend(INITIAL, actions, CodecStep(false, 0, true));
    actions := actions + [CodecStep(false, 0, true)];
  }

  /** The reader's flush packet is lost with the rest of the queue, and the next
      packet is decoded under the new serial. */
  lemma ReachTwoDecoded() returns (actions: seq<Action>)
    ensures Run(INITIAL, actions).Some?
    ensures Run(INITIAL, actions).value.log == [BuffersFlushed, Decoded(0, 1), Decoded(1, 2)]
  {
    hide Run;
    actions := ReachOneDecoded();
    var f, p, none: seq<Entry> := Entry(FlushPacket, 2), Entry(DataPacket(1, 1), 2), [];
    assert none + [f] == [f] && none + [p] == [p] && [p][1..] == none;
    var d3, log2 := ONE_DECODED.d, ONE_DECODED.log;
    RunAppend(INITIAL, actions, ReaderPutFlush);
    actions := actions + [ReaderPutFlush];
    RunAppend(INITIAL, actions, ReaderClear);
    actions := actions + [ReaderClear];
    RunAppend(INITIAL, actions, ReaderPut(1));
    actions := actions + [ReaderPut(1)];
    RunDecoderStep(INITIAL, actions, System(QueueState([p], 2, false), true, d3.(pc := Check), 1, log2, 2));
    actions := actions + [DecoderStep];
    RunDecoderStep(INITIAL, actions, System(QueueState([p], 2, false), true, d3.(pc := Fetch), 1, log2, 2));
    actions := actions + [DecoderStep];
    var d4 := d3.(pktSerial := 2);
    RunDecoderStep(INITIAL, actions, System(QueueState([], 2, false), true, d4.(pc := Fetched(p)), 1, log2, 2));
    actions := actions + [DecoderStep];
    var d5 := d4.(pc := Decode, held := p, left := 1, pending := true);
    RunDecoderStep(INITIAL, actions, System(QueueState([], 2, false), true, d5, 1, log2, 2));
    actions := actions + [DecoderStep];
    RunAppend(INITIAL, actions, CodecStep(false, 0, true));
    actions := actions + [CodecStep(false, 0, true)];
  }

  /** A reader that empties the queue, flush packet included, and goes on putting
      packets makes the codec see two serials in a row. */
  lemma ClearAloneBreaksIsolation() returns (actions: seq<Action>)
    ensures Run(INITIAL, actions).Some? && !Disciplined(INITIAL, actions)
    ensures !Isolated(Run(INITIAL, actions).value.log)
  {
    hide Run, Disciplined;
    actions := ReachTwoDecoded();
    var log := Run(INITIAL, actions).value.log;
    assert log[1].serial != log[2].serial;
    if Disciplined(INITIAL, actions) {
      SeekIsolation(actions);
    }
  }

  // ---------- serials of queued packets ----------

  /** Every queued packet carries the queue's serial. */
  ghost predicate SerialsCurrent(s: System) { forall e <- s.q.entries :: e.serial == s.q.serial }

  /** The serial is only raised while the queue is empty: a stream is opened with
      an empty queue, a flush packet put into an empty queue or refused by it. */
  predicate RaisesOnEmpty(s: System, a: Action) {
    (a.StartDecoder? ==> s.q.entries == []) && (a.ReaderPutFlush? ==> s.q.entries == [] || s.q.aborted)
  }

  /** A step leaves the queued serials current exactly under that guard. */
  lemma StaysCurrentIff(s: System, a: Action)
    requires SerialsCurrent(s) && Step(s, a).Some?
    ensures SerialsCurrent(Step(s, a).value) <==> RaisesOnEmpty(s, a)
  {
    var t := Step(s, a).value;
    if !RaisesOnEmpty(s, a) {
      assert t.q.entries[0] == s.q.entries[0] && t.q.serial == s.q.serial + 1;
    } else if a.DecoderStep? && t.q.entries != s.q.entries {
      assert t.q.entries == s.q.entries[1..];
    }
  }

  ghost predicate AlwaysCurrent(s: System, actions: seq<Action>)
    decreases |actions|
  {
    SerialsCurrent(s) &&
    (actions != [] ==> Step(s, actions[0]).Some? ==> AlwaysCurrent(Step(s, actions[0]).value, actions[1..]))
  }

  predicate AlwaysRaisesOnEmpty(s: System, actions: seq<Action>)
    decreases |actions|
  {
    actions != [] ==> Step(s, actions[0]).Some? ==>
      RaisesOnEmpty(s, actions[0]) && AlwaysRaisesOnEmpty(Step(s, actions[0]).value, actions[1..])
  }

  /** Throughout a run every queued packet carries the queue's serial exactly if
      the serial is raised on an empty queue each time. */
  lemma {:induction false} AlwaysCurrentIff(s: System, actions: seq<Action>)
    requires SerialsCurrent(s)
    ensures AlwaysCurrent(s, actions) <==> AlwaysRaisesOnEmpty(s, actions)
    decreases |actions|
  {
    if actions != [] && Step(s, actions[0]).Some? {
      StaysCurrentIff(s, actions[0]);
      if RaisesOnEmpty(s, actions[0]) {
        AlwaysCurrentIff(Step(s, actions[0]).value, actions[1..]);
      } else {
        NotCurrentNow(Step(s, actions[0]).value, actions[1..]);
      }
    }
  }

  lemma NotCurrentNow(s: System, actions: seq<Action>)
    requires !SerialsCurrent(s)
    ensures !AlwaysCurrent(s, actions)
  {
  }

  /** Between its two halves a seek leaves the queue empty. */
  ghost predicate AllCurrent(s: System) {
    (s.owes ==> s.q.entries == []) && SerialsCurrent(s)
  }

  /** The discipline of the callers: the reader puts nothing between the halves of
      a seek and flush packets only then, and a stream is opened on an empty
      queue with no seek half done. */
  ghost predicate Orderly(s: System, actions: seq<Action>)
    decreases |actions|
  {
    actions != [] ==>
      (actions[0].ReaderPut? || actions[0].ReaderPutNull? ==> !s.owes) &&
      (actions[0].ReaderPutFlush? ==> s.owes) &&
      (actions[0].StartDecoder? ==> s.q.entries == [] && !s.owes) &&
      (Step(s, actions[0]).Some? ==> Orderly(Step(s, actions[0]).value, actions[1..]))
  }

  /** Opening a stream keeps that state exactly on an empty queue with no seek half done. */
  lemma StartCurrentIff(s: System)
    requires AllCurrent(s) && s.d.pc.Stopped?
    ensures AllCurrent(Step(s, StartDecoder).value) <==> s.q.entries == [] && !s.owes
  {
    var t := Step(s, StartDecoder).value;
    if s.q.entries != [] {
      assert t.q.entries[0] == s.q.entries[0] && t.q.serial == s.q.serial + 1;
    }
  }

  /** In every orderly run, from the start and through any number of opened
      streams and seeks, every queued packet carries the queue's serial. */
  lemma {:induction false} QueuedSerialsCurrent(s: System, actions: seq<Action>)
    requires AllCurrent(s) && Run(s, actions).Some? && Orderly(s, actions)
    ensures AllCurrent(Run(s, actions).value)
    decreases |actions|
  {
    if actions != [] {
      if actions[0].StartDecoder? {
        StartCurrentIff(s);
      }
      QueuedSerialsCurrent(Step(s, actions[0]).value, actions[1..]);
    }
  }

  /** Opening a stream between the two halves of a seek leaves two serials queued. */
  lemma OpeningDuringSeek(s: System)
    requires s.q.entries == [] && !s.owes && s.d.pc.Stopped?
    ensures var actions := [ReaderClear, StartDecoder, ReaderPutFlush];
      Run(s, actions).Some? && !SerialsCurrent(Run(s, actions).value)
  {
    var actions := [ReaderClear, StartDecoder, ReaderPutFlush];
    var s1 := Step(s, ReaderClear).value;
    var s2 := Step(s1, StartDecoder).value;
    var s3 := Step(s2, ReaderPutFlush).value;
    assert actions[1..] == [StartDecoder, ReaderPutFlush] && actions[1..][1..] == [ReaderPutFlush];
    assert actions[1..][1..][1..] == [];
    assert Run(s2, [ReaderPutFlush]) == Some(s3);
    assert Run(s1, [StartDecoder, ReaderPutFlush]) == Some(s3);
    assert Run(s, actions) == Some(s3);
    assert s3.q.entries[0].serial == s.q.serial + 1 && s3.q.serial == s.q.serial + 2;
  }
}
