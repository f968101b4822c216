/** ffplay's frame queue: a ring of frames between one producer and one
    consumer. `size` changes under a lock; `rindex`, `windex` and
    `rindex_shown` are each written by one thread outside it. */
module FrameRing {
  import opened Wrappers

  /** What a slot holds: nothing, or a decoded frame. */
  datatype Frame = NoFrame | Frame(id: nat, serial: int, pos: int)

  const FRAME_QUEUE_SIZE: nat := 16

  // ---------- positions in the ring ----------

  /** Moving an index one on, as `if (++i == max) i = 0` does. */
  function Wrap(i: nat, m: nat): nat { if i + 1 == m then 0 else i + 1 }

  /** The slot of the k-th frame ever pushed. */
  function Slot(k: nat, m: nat): (s: nat)
    requires m > 0
    ensures s < m
  {
    if k == 0 then 0 else Wrap(Slot(k - 1, m), m)
  }

  lemma {:induction false} SlotPlus(k: nat, n: nat, m: nat)
    requires m > 0 && n <= m
    ensures Slot(k + n, m) == if Slot(k, m) + n < m then Slot(k, m) + n else Slot(k, m) + n - m
  {
    if n > 0 {
      SlotPlus(k, n - 1, m);
    }
  }

  /** Frames less than a whole turn apart are in different slots. */
  lemma SlotsDiffer(a: nat, b: nat, m: nat)
    requires m > 0 && a < b < a + m
    ensures Slot(a, m) != Slot(b, m)
  {
    SlotPlus(a, b - a, m);
  }

  lemma ModuloOneTurn(x: nat, m: nat)
    requires m > 0 && x < 2 * m
    ensures x % m == if x < m then x else x - m
  {
    var q := x / m;
    assert x == m * q + x % m;
    assert q == 0 || q == 1;
  }

  /** The slot `(i + n) % m` that the readers compute. */
  lemma PeekSlotIs(k: nat, n: nat, m: nat)
    requires 0 < m && n <= m && Slot(k, m) + n < 2 * m
    ensures (Slot(k, m) + n) % m == Slot(k + n, m)
  {
    SlotPlus(k, n, m);
    ModuloOneTurn(Slot(k, m) + n, m);
  }

  // ---------- the threads ----------

  datatype ProducerPc =
    | ProducerIdle
    | Writing     // has the slot from frame_queue_peek_writable
    | Advanced    // has moved windex, not yet raised size

  datatype ConsumerPc =
    | ConsumerIdle
    | Released    // has dropped the frame at rindex, not yet moved rindex
    | MovedOn     // has moved rindex, not yet lowered size

  /** `pushed` is every frame ever pushed, `gone` how many were released,
      `passed` the frames the consumer has gone past, in its own order. */
  datatype System = System(
    slots: seq<Frame>,
    rindex: nat,
    windex: nat,
    size: int,
    shown: nat,
    keepLast: bool,
    aborted: bool,
    producer: ProducerPc,
    consumer: ConsumerPc,
    pushed: seq<Frame>,
    gone: nat,
    passed: seq<Frame>)

  datatype Action =
    | PeekWritable
    | WriteSlot(frame: Frame)
    | AdvanceWindex
    | RaiseSize
    | Next
    | AdvanceRindex
    | LowerSize
    | Prev
    | SetAbort(flag: bool)

  function Remaining(s: System): int { s.size - s.shown }

  /** The slot frame_queue_peek shows. */
  function PeekSlot(s: System): nat
    requires s.slots != []
  {
    (s.rindex + s.shown) % |s.slots|
  }

  /** One step of a thread; `None` when it waits or its program does not do that now. */
  function Step(s: System, a: Action): Option<System>
    requires s.slots != []
  {
    var m := |s.slots|;
    match a
    case PeekWritable =>
      if s.producer.ProducerIdle? && s.size < m && !s.aborted then Some(s.(producer := Writing)) else None
    case WriteSlot(frame) =>
      if s.producer.Writing? && s.windex < m then Some(s.(slots := s.slots[s.windex := frame])) else None
    case AdvanceWindex =>
      if s.producer.Writing? && s.windex < m then
        Some(s.(windex := Wrap(s.windex, m), producer := Advanced, pushed := s.pushed + [s.slots[s.windex]]))
      else None
    case RaiseSize =>
      if s.producer.Advanced? then Some(s.(size := s.size + 1, producer := ProducerIdle)) else None
    case Next =>
      if !s.consumer.ConsumerIdle? || Remaining(s) <= 0 || s.rindex >= m then None
      else
        var passed := s.passed + [s.slots[PeekSlot(s)]];
        if s.keepLast && s.shown == 0 then Some(s.(shown := 1, passed := passed))
        else Some(s.(slots := s.slots[s.rindex := NoFrame], consumer := Released, passed := passed))
    case AdvanceRindex =>
      if s.consumer.Released? then
        Some(s.(rindex := Wrap(s.rindex, m), gone := s.gone + 1, consumer := MovedOn))
      else None
    case LowerSize =>
      if s.consumer.MovedOn? then Some(s.(size := s.size - 1, consumer := ConsumerIdle)) else None
    case Prev =>
      if !s.consumer.ConsumerIdle? then None
      else
        Some(s.(shown := 0,
                passed := if s.shown == 1 && s.passed != [] then s.passed[..|s.passed| - 1] else s.passed))
    case SetAbort(flag) => Some(s.(aborted := flag))
  }

  function Run(s: System, actions: seq<Action>): Option<System>
    requires s.slots != []
    decreases |actions|
  {
    if actions == [] then Some(s) else
    match Step(s, actions[0])
    case None => None
    case Some(s') => if s'.slots == [] then None else Run(s', actions[1..])
  }

  predicate Initial(s: System) {
    s.slots != [] && s.rindex == 0 && s.windex == 0 && s.size == 0 && s.shown == 0 &&
    s.producer == ProducerIdle && s.consumer == ConsumerIdle && s.pushed == [] && s.gone == 0 && s.passed == []
  }

  // ---------- the invariant ----------

  function One(b: bool): nat { if b then 1 else 0 }

  /** Frames whose push is complete. */
  function Complete(s: System): int { |s.pushed| - One(s.producer.Advanced?) }

  /** Frames released for reuse, as `size` tells it. */
  function Freed(s: System): int { s.gone - One(s.consumer.MovedOn?) }

  ghost predicate Counters(s: System) {
    var m := |s.slots|;
    m > 0 && s.windex == Slot(|s.pushed|, m) && s.rindex == Slot(s.gone, m) &&
    s.size == Complete(s) - Freed(s) &&
    0 <= s.size <= m && (!s.producer.ProducerIdle? ==> s.size < m) &&
    s.shown <= 1 && (s.shown == 1 ==> s.keepLast) &&
    One(!s.consumer.ConsumerIdle?) + s.shown <= s.size
  }

  /** First frame not yet dropped by the consumer. */
  function First(s: System): nat { s.gone + One(s.consumer.Released?) }

  /** Every frame not yet dropped, the last shown one included, is intact. */
  ghost predicate Intact(s: System)
    requires s.slots != []
  {
    forall k :: First(s) <= k < |s.pushed| ==> s.slots[Slot(k, |s.slots|)] == s.pushed[k]
  }

  /** The consumer has passed the frames in push order, each once. */
  ghost predicate InPushOrder(s: System) {
    var n := First(s) + s.shown;
    n <= |s.pushed| && s.passed == s.pushed[..n]
  }

  ghost predicate Inv(s: System) {
    Counters(s) && Intact(s) && InPushOrder(s)
  }

  /** The producer's slot is none the consumer may look at. */
  lemma WritableNotLive(s: System, k: nat)
    requires Counters(s) && s.producer.Writing? && s.gone <= k < |s.pushed|
    ensures Slot(k, |s.slots|) != s.windex
  {
    SlotsDiffer(k, |s.pushed|, |s.slots|);
  }

  lemma ProducerKeepsInv(s: System, a: Action)
    requires Inv(s) && (a.PeekWritable? || a.WriteSlot? || a.AdvanceWindex? || a.RaiseSize?)
    requires Step(s, a).Some?
    ensures Inv(Step(s, a).value)
  {
    var s' := Step(s, a).value;
    match a
    case WriteSlot(frame) =>
      forall k | First(s') <= k < |s'.pushed| ensures s'.slots[Slot(k, |s'.slots|)] == s'.pushed[k] {
        WritableNotLive(s, k);
      }
    case AdvanceWindex =>
      assert s'.windex == Slot(|s.pushed| + 1, |s.slots|);
    case _ =>
  }

  lemma PeekIsNext(s: System)
    requires Inv(s) && s.consumer.ConsumerIdle? && Remaining(s) > 0
    ensures s.gone + s.shown < |s.pushed|
    ensures s.slots[PeekSlot(s)] == s.pushed[s.gone + s.shown]
  {
    PeekSlotIs(s.gone, s.shown, |s.slots|);
  }

  lemma NextKeepsInv(s: System)
    requires Inv(s) && Step(s, Next).Some?
    ensures Inv(Step(s, Next).value)
  {
    var s' := Step(s, Next).value;
    PeekIsNext(s);
    var n := s.gone + s.shown;
    assert s.pushed[..n] + [s.pushed[n]] == s.pushed[..n + 1];
    forall k | First(s') <= k < |s'.pushed| ensures s'.slots[Slot(k, |s'.slots|)] == s'.pushed[k] {
      if s'.consumer.Released? {
        assert k < s.gone + |s.slots|;
        SlotsDiffer(s.gone, k, |s.slots|);
      }
    }
  }

  lemma ConsumerKeepsInv(s: System, a: Action)
    requires Inv(s) && (a.Next? || a.AdvanceRindex? || a.LowerSize? || a.Prev?)
    requires Step(s, a).Some?
    ensures Inv(Step(s, a).value)
  {
    var s' := Step(s, a).value;
    match a
    case Next => NextKeepsInv(s);
    case AdvanceRindex =>
      assert s'.rindex == Slot(s.gone + 1, |s.slots|);
    case _ =>
  }

  /** In every interleaving of the two threads: the counters agree, live frames
      are intact and were passed in push order. */
  lemma {:induction false} RingSafe(s: System, actions: seq<Action>)
    requires Inv(s) && Run(s, actions).Some?
    ensures Inv(Run(s, actions).value)
    decreases |actions|
  {
    if actions != [] {
      var a := actions[0];
      if a.PeekWritable? || a.WriteSlot? || a.AdvanceWindex? || a.RaiseSize? {
        ProducerKeepsInv(s, a);
      } else if a.SetAbort? {
      } else {
        ConsumerKeepsInv(s, a);
      }
      RingSafe(Step(s, a).value, actions[1..]);
    }
  }

  lemma InitialInv(s: System)
    requires Initial(s)
    ensures Inv(s)
  {
  }

  /** What the readers of the queue may rely on at any moment: the frame to show
      is the one after the last passed, the kept frame is the last passed, and
      the slot being filled is neither. */
  lemma RingReaders(start: System, actions: seq<Action>)
    requires Initial(start) && Run(start, actions).Some?
    ensures var s := Run(start, actions).value;
      s.slots != [] && s.windex < |s.slots| && s.rindex < |s.slots| &&
      0 <= s.size <= |s.slots| && s.shown <= s.size &&
      (s.consumer.ConsumerIdle? ==>
         Remaining(s) == Complete(s) - |s.passed| &&
         (Remaining(s) > 0 ==>
            s.slots[PeekSlot(s)] == s.pushed[|s.passed|] && (s.producer.Writing? ==> PeekSlot(s) != s.windex)) &&
         (s.shown == 1 ==>
            s.passed != [] && s.slots[s.rindex] == s.passed[|s.passed| - 1] &&
            (s.producer.Writing? ==> s.rindex != s.windex)))
  {
    hide Run, Step, Slot;
    InitialInv(start);
    RingSafe(start, actions);
    var s := Run(start, actions).value;
    if s.consumer.ConsumerIdle? {
      if Remaining(s) > 0 {
        PeekIsNext(s);
        PeekSlotIs(s.gone, s.shown, |s.slots|);
        if s.producer.Writing? {
          WritableNotLive(s, s.gone + s.shown);
        }
      }
      if s.shown == 1 {
        assert s.slots[Slot(s.gone, |s.slots|)] == s.pushed[s.gone];
        if s.producer.Writing? {
          WritableNotLive(s, s.gone);
        }
      }
    }
  }

  /** When each thread can go on: the producer exactly while there is room and no
      abort, the consumer exactly while a frame is left to show. */
  lemma ThreadsGoOn(s: System, frame: Frame)
    requires Inv(s)
    ensures s.producer.ProducerIdle? ==>
              (Step(s, PeekWritable).Some? <==> Complete(s) - Freed(s) < |s.slots| && !s.aborted)
    ensures s.producer.Writing? ==> Step(s, WriteSlot(frame)).Some? && Step(s, AdvanceWindex).Some?
    ensures s.producer.Advanced? ==> Step(s, RaiseSize).Some?
    ensures s.consumer.ConsumerIdle? ==>
              (Step(s, Next).Some? <==> |s.passed| < Complete(s)) && Step(s, Prev).Some?
    ensures s.consumer.Released? ==> Step(s, AdvanceRindex).Some?
    ensures s.consumer.MovedOn? ==> Step(s, LowerSize).Some?
  {
  }

  /** How many frames one action passes, or gives back. */
  function Passes(s: System, a: Action): int {
    if a.Next? then 1 else if a.Prev? then 0 - s.shown else 0
  }

  function Advances(s: System, actions: seq<Action>): int
    requires s.slots != []
    decreases |actions|
  {
    if actions == [] then 0 else
    match Step(s, actions[0])
    case None => 0
    case Some(s') => Passes(s, actions[0]) + if s'.slots == [] then 0 else Advances(s', actions[1..])
  }

  /** Completed pushes of a run. */
  function Raises(actions: seq<Action>): nat {
    if actions == [] then 0 else Raises(actions[1..]) + One(actions[0].RaiseSize?)
  }

  lemma StepPasses(s: System, a: Action)
    requires Inv(s) && Step(s, a).Some?
    ensures Inv(Step(s, a).value)
    ensures |Step(s, a).value.passed| == |s.passed| + Passes(s, a)
    ensures Complete(Step(s, a).value) == Complete(s) + One(a.RaiseSize?)
  {
    RingSafe(s, [a]);
    assert Run(s, [a]) == Run(Step(s, a).value, [a][1..]);
  }

  lemma {:induction false} RunPasses(s: System, actions: seq<Action>)
    requires Inv(s) && Run(s, actions).Some?
    ensures |Run(s, actions).value.passed| == |s.passed| + Advances(s, actions)
    ensures Complete(Run(s, actions).value) == Complete(s) + Raises(actions)
    decreases |actions|
  {
    if actions != [] {
      StepPasses(s, actions[0]);
      RunPasses(Step(s, actions[0]).value, actions[1..]);
    }
  }

  lemma RemainingIs(s: System)
    requires Inv(s) && s.consumer.ConsumerIdle?
    ensures Remaining(s) == Complete(s) - |s.passed|
  {
  }

  /** What frame_queue_nb_remaining returns to an idle consumer rises by one for
      every completed push, falls by one for every call of frame_queue_next, and
      rises by one for every call of frame_queue_prev that finds a kept frame. */
  lemma NextPassesOne(s: System, actions: seq<Action>)
    requires Inv(s) && Run(s, actions).Some?
    requires s.consumer.ConsumerIdle? && Run(s, actions).value.consumer.ConsumerIdle?
    ensures Remaining(Run(s, actions).value) == Remaining(s) + Raises(actions) - Advances(s, actions)
  {
    hide Run, Remaining, Complete;
    RingSafe(s, actions);
    RunPasses(s, actions);
    RemainingIs(s);
    RemainingIs(Run(s, actions).value);
  }

  // ---------- the queue object, used by one thread at a time ----------

  /** The frames in the queue, oldest first, and whether the oldest was shown. */
  datatype View = View(frames: seq<Frame>, shown: bool)

  /** `n` frames of a ring of m slots, from the k-th pushed on. */
  ghost function Window(slots: seq<Frame>, k: nat, n: nat, m: nat): (r: seq<Frame>)
    requires 0 < m <= |slots|
    ensures |r| == n && forall i :: 0 <= i < n ==> r[i] == slots[Slot(k + i, m)]
  {
    seq(n, i requires 0 <= i < n => slots[Slot(k + i, m)])
  }

  lemma WindowRelease(slots: seq<Frame>, k: nat, n: nat, m: nat)
    requires 0 < n <= m <= |slots|
    ensures Window(slots[Slot(k, m) := NoFrame], k + 1, n - 1, m) == Window(slots, k, n, m)[1..]
  {
    var after := slots[Slot(k, m) := NoFrame];
    var left, right := Window(after, k + 1, n - 1, m), Window(slots, k, n, m)[1..];
    forall i | 0 <= i < n - 1 ensures left[i] == right[i] {
      SlotsDiffer(k, k + 1 + i, m);
      assert k + (i + 1) == k + 1 + i;
    }
  }

  lemma NextSlot(k: nat, m: nat)
    requires m > 0
    ensures Slot(k + 1, m) == Wrap(Slot(k, m), m)
  {
  }

  class FrameQueue {
    const queue: array<Frame>
    var rindex: nat
    var windex: nat
    var size: int
    const maxSize: nat
    const keepLast: bool
    var rindexShown: nat
    ghost var pushed: nat

    ghost predicate Valid()
      reads this, queue
    {
      0 < maxSize <= queue.Length == FRAME_QUEUE_SIZE &&
      0 <= size <= maxSize && size <= pushed &&
      windex == Slot(pushed, maxSize) && rindex == Slot(pushed - size, maxSize) &&
      rindexShown <= 1 && rindexShown <= size && (rindexShown == 1 ==> keepLast)
    }

    /** The slot of the i-th frame in the queue. */
    ghost function At(i: nat): (s: nat)
      requires Valid() && i < size
      reads this, queue
      ensures s < queue.Length
    {
      Slot(pushed - size + i, maxSize)
    }

    ghost function Contents(): (v: View)
      requires Valid()
      reads this, queue
      ensures |v.frames| == size
    {
      View(Window(queue[..], pushed - size, size, maxSize), rindexShown == 1)
    }

    constructor (maxSize: nat, keepLast: bool)
      requires maxSize > 0
      ensures Valid() && fresh(queue) && Contents() == View([], false)
      ensures this.keepLast == keepLast
      ensures this.maxSize == if maxSize < FRAME_QUEUE_SIZE then maxSize else FRAME_QUEUE_SIZE
    {
      queue := new Frame[FRAME_QUEUE_SIZE](_ => NoFrame);
      this.maxSize := if maxSize < FRAME_QUEUE_SIZE then maxSize else FRAME_QUEUE_SIZE;
      this.keepLast := keepLast;
      rindex, windex, size, rindexShown, pushed := 0, 0, 0, 0, 0;
    }

    /** The slot to fill, if there is room; it holds none of the queued frames. */
    method PeekWritable(aborted: bool) returns (slot: Option<nat>)
      requires Valid()
      ensures slot == if size < maxSize && !aborted then Some(windex) else None
      ensures slot.Some? ==> slot.value < queue.Length && forall i :: 0 <= i < size ==> At(i) != slot.value
    {
      if size >= maxSize || aborted {
        return None;
      }
      forall i | 0 <= i < size ensures At(i) != windex {
        SlotsDiffer(pushed - size + i, pushed, maxSize);
      }
      return Some(windex);
    }

    method Push()
      requires Valid() && size < maxSize
      modifies this`windex, this`size, this`pushed
      ensures Valid()
      ensures Contents() == View(old(Contents()).frames + [queue[old(windex)]], old(Contents()).shown)
    {
      hide Slot;
      ghost var before := Contents().frames;
      NextSlot(pushed, maxSize);
      windex := windex + 1;
      if windex == maxSize {
        windex := 0;
      }
      size := size + 1;
      pushed := pushed + 1;
      assert forall i :: 0 <= i < size - 1 ==> Contents().frames[i] == before[i];
    }

    method NextFrame()
      requires Valid() && size > rindexShown
      modifies this`rindex, this`size, this`rindexShown, queue
      ensures Valid()
      ensures Contents() == if keepLast && !old(Contents()).shown then old(Contents()).(shown := true)
                            else View(old(Contents()).frames[1..], old(Contents()).shown)
    {
      if keepLast && rindexShown == 0 {
        rindexShown := 1;
        return;
      }
      hide Slot;
      ghost var first := pushed - size;
      assert Contents().frames == Window(queue[..], first, size, maxSize);
      WindowRelease(queue[..], first, size, maxSize);
      queue[rindex] := NoFrame;
      assert queue[..] == old(queue[..])[rindex := NoFrame];
      NextSlot(first, maxSize);
      rindex := rindex + 1;
      if rindex == maxSize {
        rindex := 0;
      }
      size := size - 1;
    }

    method PrevFrame() returns (ret: nat)
      requires Valid()
      modifies this`rindexShown
      ensures Valid() && Contents() == View(old(Contents()).frames, false)
      ensures ret == old(rindexShown)
    {
      ret := rindexShown;
      rindexShown := 0;
    }

    method NbRemaining() returns (n: int)
      requires Valid()
      ensures n == |Contents().frames| - if Contents().shown then 1 else 0
    {
      n := size - rindexShown;
    }

    /** The first frame not shown yet. */
    method Peek() returns (frame: Frame)
      requires Valid() && size > rindexShown
      ensures frame == Contents().frames[if Contents().shown then 1 else 0]
    {
      PeekSlotIs(pushed - size, rindexShown, maxSize);
      frame := queue[(rindex + rindexShown) % maxSize];
    }

    method PeekNext() returns (frame: Frame)
      requires Valid() && size > rindexShown + 1
      ensures frame == Contents().frames[if Contents().shown then 2 else 1]
    {
      PeekSlotIs(pushed - size, rindexShown + 1, maxSize);
      frame := queue[(rindex + rindexShown + 1) % maxSize];
    }

    /** The last shown frame, while it is kept. */
    method PeekLast() returns (frame: Frame)
      requires Valid()
      ensures size > 0 ==> frame == Contents().frames[0]
    {
      frame := queue[rindex];
    }

    method LastPos(queueSerial: int) returns (pos: int)
      requires Valid()
      ensures var v := Contents();
        pos == if v.shown && v.frames[0].Frame? && v.frames[0].serial == queueSerial then v.frames[0].pos else -1
    {
      var fp := queue[rindex];
      if rindexShown == 1 && fp.Frame? && fp.serial == queueSerial {
        return fp.pos;
      }
      return -1;
    }
  }
}
