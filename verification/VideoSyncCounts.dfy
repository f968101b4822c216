/** What the frame counters of ffmpeg's rate conversion mean: which inputs were
    dropped, which were written more than once, and in which order. */
module VideoSyncCounts {
  import opened Rounding
  import opened VideoSync
  import opened VideoSyncLaws
  import opened Wrappers

  // ---------- which frames are dropped and which are copied ----------

  function Copies(es: seq<Emission>, k: nat): nat {
    if es == [] then 0 else Copies(es[..|es| - 1], k) + if es[|es| - 1].src == k then 1 else 0
  }

  /** How many of the inputs 0 to n - 1 were never written. */
  function NeverEmitted(es: seq<Emission>, n: nat): nat {
    if n == 0 then 0 else NeverEmitted(es, n - 1) + if Copies(es, n - 1) == 0 then 1 else 0
  }

  /** How many copies too many there are of the inputs 0 to n - 1. */
  function ExtraCopies(es: seq<Emission>, n: nat): nat {
    if n == 0 then 0 else ExtraCopies(es, n - 1) + if Copies(es, n - 1) > 0 then Copies(es, n - 1) - 1 else 0
  }

  lemma CopiesAppend(es: seq<Emission>, e: Emission, k: nat)
    ensures Copies(es + [e], k) == Copies(es, k) + if e.src == k then 1 else 0
  {
    assert (es + [e])[..|es|] == es;
  }

  lemma {:induction false} SameCopies(es: seq<Emission>, es': seq<Emission>, n: nat)
    requires forall k: nat :: k < n ==> Copies(es', k) == Copies(es, k)
    ensures NeverEmitted(es', n) == NeverEmitted(es, n) && ExtraCopies(es', n) == ExtraCopies(es, n)
  {
    if n > 0 {
      SameCopies(es, es', n - 1);
    }
  }

  function Positive(n: int): nat { if n > 0 then n else 0 }

  /** How often a call writes input k: the previous frame first, then the new one. */
  function Written(s: State, next: Option<nat>, plan: Plan, i: int, k: nat): nat {
    (if s.lastFrame == Some(k) then Positive(Min(plan.previous, plan.total) - i) else 0) +
    (if next == Some(k) then
       Positive(plan.total - if s.lastFrame.Some? && i < plan.previous then plan.previous else i) else 0)
  }

  lemma {:induction false} EmitCopies(c: Config, s: State, next: Option<nat>, plan: Plan, i: int, k: nat)
    requires c.recordingTime.None? && (next.Some? || (s.lastFrame.Some? && plan.total <= plan.previous))
    ensures Copies(Emit(c, s, next, plan, i).0.emitted, k) == Copies(s.emitted, k) + Written(s, next, plan, i, k)
    decreases plan.total - i
  {
    if i < plan.total {
      var e := Emission(SourceOf(s, next, plan.previous, i).value, s.syncOpts);
      CopiesAppend(s.emitted, e, k);
      EmitCopies(c, s.(syncOpts := s.syncOpts + 1, frameNumber := s.frameNumber + 1,
                       emitted := s.emitted + [e]), next, plan, i + 1, k);
    }
  }

  /** The counters tell what became of the inputs 0 to n - 1, the last of which
      may still be waiting, except that both are `excess` too high. */
  ghost predicate Off(s: State, n: nat, excess: int) {
    s.nbDrop + One(s.lastDroped) == NeverEmitted(s.emitted, n) + excess &&
    s.nbDup == ExtraCopies(s.emitted, n) + excess &&
    (forall k: nat :: n <= k ==> Copies(s.emitted, k) == 0) &&
    (n > 0 && s.lastFrame == Some(n - 1) ==> (s.lastDroped <==> Copies(s.emitted, n - 1) == 0))
  }

  /** The counters tell exactly what became of the inputs 0 to n - 1. */
  ghost predicate Accounted(s: State, n: nat) { Off(s, n, 0) }

  /** How often every input has been written after a call. */
  lemma CallCopies(c: Config, s: State, next: Option<Picture>, k: nat)
    requires Sensible(c, s) && c.recordingTime.None? && SmoothCall(c, s, next)
    ensures var plan, s' := MakePlan(c, s, next), VideoOut(c, s, next);
      Copies(s'.emitted, k) == Copies(s.emitted, k) + Written(s, IdOf(next), plan, 0, k) &&
      s'.nbDrop == s.nbDrop + One(plan.previous == 0 && s.lastDroped) &&
      s'.nbDup == s.nbDup + Positive(Extra(s, plan)) &&
      s'.lastDroped == (plan.total == plan.previous && next.Some?) && s'.lastFrame == IdOf(next)
  {
    var plan := MakePlan(c, s, next);
    var s1 := Counted(s, next, plan);
    PlanSensible(c, s, next);
    EmitWritesAll(c, s1, IdOf(next), plan, 0);
    EmitFrame(c, s1, IdOf(next), plan, 0);
    EmitCopies(c, s1, IdOf(next), plan, 0, k);
  }

  /** What new copies of the last two inputs do to the two counts. */
  lemma CountsStep(es: seq<Emission>, es': seq<Emission>, n: nat)
    requires n > 0 && forall k: nat :: k < n - 1 ==> Copies(es', k) == Copies(es, k)
    ensures NeverEmitted(es', n) - NeverEmitted(es, n) == One(Copies(es', n - 1) == 0) - One(Copies(es, n - 1) == 0)
    ensures ExtraCopies(es', n) - ExtraCopies(es, n) ==
            Positive(Copies(es', n - 1) - 1) - Positive(Copies(es, n - 1) - 1)
    ensures NeverEmitted(es', n + 1) == NeverEmitted(es', n) + One(Copies(es', n) == 0)
    ensures ExtraCopies(es', n + 1) == ExtraCopies(es', n) + Positive(Copies(es', n) - 1)
  {
    SameCopies(es, es', n - 1);
  }

  /** A call with a frame before it keeps the counters as right or wrong as they were. */
  lemma PictureKeepsOff(c: Config, s: State, p: Picture, n: nat, excess: int)
    requires Sensible(c, s) && Off(s, n, excess) && p.id == n > 0 && c.recordingTime.None?
    requires s.lastFrame == Some(n - 1) && SmoothCall(c, s, Some(p))
    ensures Off(VideoOut(c, s, Some(p)), n + 1, excess) && VideoOut(c, s, Some(p)).lastFrame == Some(n)
  {
    hide VideoOut, MakePlan, SmoothCall, NeverEmitted, ExtraCopies, Copies;
    var plan, s' := MakePlan(c, s, Some(p)), VideoOut(c, s, Some(p));
    PlanSensible(c, s, Some(p));
    forall k: nat
      ensures Copies(s'.emitted, k) == Copies(s.emitted, k) + Written(s, Some(n), plan, 0, k)
    {
      CallCopies(c, s, Some(p), k);
    }
    CallCopies(c, s, Some(p), n);
    CountsStep(s.emitted, s'.emitted, n);
    assert Copies(s'.emitted, n - 1) == Copies(s.emitted, n - 1) + plan.previous;
    assert Copies(s'.emitted, n) == plan.total - plan.previous;
    assert s'.nbDup == ExtraCopies(s'.emitted, n + 1) + excess;
    assert s'.nbDrop + One(s'.lastDroped) == NeverEmitted(s'.emitted, n + 1) + excess;
  }

  /** The final flush writes the last input again or gives it up. */
  lemma FlushKeepsOff(c: Config, s: State, n: nat, excess: int)
    requires Sensible(c, s) && Off(s, n, excess) && c.recordingTime.None?
    requires n > 0 && s.lastFrame == Some(n - 1) && SmoothCall(c, s, None)
    ensures ExactCounts(VideoOut(c, s, None), n) <==> excess == 0
  {
    hide VideoOut, MakePlan, SmoothCall, NeverEmitted, ExtraCopies, Copies;
    var plan, s' := MakePlan(c, s, None), VideoOut(c, s, None);
    PlanSensible(c, s, None);
    forall k: nat ensures Copies(s'.emitted, k) == Copies(s.emitted, k) + Written(s, None, plan, 0, k) {
      CallCopies(c, s, None, k);
    }
    CallCopies(c, s, None, n);
    CountsStep(s.emitted, s'.emitted, n);
  }

  // ---------- the first call ----------

  /** With no frame before it, the first input is written for both parts of the
      plan; it must not be left marked as pending. */
  predicate FirstCounted(plan: Plan) { plan.previous == 0 || plan.previous < plan.total }

  /** The first input was written, every copy counts as a duplicate, and yet it
      is marked as pending. */
  ghost predicate FalselyPending(s: State) {
    s.lastDroped && s.lastFrame == Some(0) && s.nbDrop == 0 && Copies(s.emitted, 0) > 0 &&
    s.nbDup == Copies(s.emitted, 0) && forall k: nat :: 1 <= k ==> Copies(s.emitted, k) == 0
  }

  lemma StartSensible(c: Config)
    requires c.maxFrames.Some? ==> c.maxFrames.value >= 0
    ensures Sensible(c, START) && START.emitted == []
  {
  }

  lemma NoCopies(k: nat)
    ensures Copies([], k) == 0
  {
  }

  lemma OneCount(es: seq<Emission>)
    ensures NeverEmitted(es, 1) == One(Copies(es, 0) == 0) && ExtraCopies(es, 1) == Positive(Copies(es, 0) - 1)
  {
    assert NeverEmitted(es, 0) == 0 && ExtraCopies(es, 0) == 0;
  }

  lemma FirstCall(c: Config, p: Picture)
    requires (c.maxFrames.Some? ==> c.maxFrames.value >= 0) && p.id == 0 && c.recordingTime.None?
    requires SmoothCall(c, START, Some(p))
    ensures var s := VideoOut(c, START, Some(p));
      Sensible(c, s) && s.lastFrame == Some(0) &&
      if FirstCounted(MakePlan(c, START, Some(p))) then Accounted(s, 1) else FalselyPending(s)
  {
    hide VideoOut, MakePlan, SmoothCall, NeverEmitted, ExtraCopies, Copies, Sensible;
    StartSensible(c);
    StaysSensible(c, START, Some(p));
    var plan, s := MakePlan(c, START, Some(p)), VideoOut(c, START, Some(p));
    PlanSensible(c, START, Some(p));
    forall k: nat ensures Copies(s.emitted, k) == Written(START, Some(0), plan, 0, k) {
      CallCopies(c, START, Some(p), k);
      NoCopies(k);
    }
    CallCopies(c, START, Some(p), 0);
    assert Copies(s.emitted, 0) == plan.total;
    OneCount(s.emitted);
  }

  /** After the first call the counters tell the truth exactly under that condition. */
  lemma FirstCallIff(c: Config, p: Picture)
    requires (c.maxFrames.Some? ==> c.maxFrames.value >= 0) && p.id == 0 && c.recordingTime.None?
    requires SmoothCall(c, START, Some(p))
    ensures Accounted(VideoOut(c, START, Some(p)), 1) <==> FirstCounted(MakePlan(c, START, Some(p)))
  {
    FirstCall(c, p);
    assert ExtraCopies(VideoOut(c, START, Some(p)).emitted, 0) == 0;
  }

  // ---------- the second call settles it ----------

  /** Late copies of the first input take the false mark away again; without
      them the first input is counted as dropped for good. */
  lemma SecondPicture(c: Config, s: State, p: Picture)
    requires Sensible(c, s) && FalselyPending(s) && p.id == 1 && c.recordingTime.None? && SmoothCall(c, s, Some(p))
    ensures var s' := VideoOut(c, s, Some(p));
      s'.lastFrame == Some(1) && Off(s', 2, if MakePlan(c, s, Some(p)).previous > 0 then 0 else 1)
  {
    hide VideoOut, MakePlan;
    var plan, s' := MakePlan(c, s, Some(p)), VideoOut(c, s, Some(p));
    PlanSensible(c, s, Some(p));
    forall k: nat ensures Copies(s'.emitted, k) == Copies(s.emitted, k) + Written(s, Some(1), plan, 0, k) {
      CallCopies(c, s, Some(p), k);
    }
    CallCopies(c, s, Some(p), 0);
    assert Copies(s'.emitted, 0) == Copies(s.emitted, 0) + plan.previous;
    assert Copies(s'.emitted, 1) == plan.total - plan.previous;
    TwoCounts(s'.emitted);
  }

  lemma TwoCounts(es: seq<Emission>)
    ensures NeverEmitted(es, 2) == One(Copies(es, 0) == 0) + One(Copies(es, 1) == 0)
    ensures ExtraCopies(es, 2) == Positive(Copies(es, 0) - 1) + Positive(Copies(es, 1) - 1)
  {
    OneCount(es);
  }

  lemma SecondFlush(c: Config, s: State)
    requires Sensible(c, s) && FalselyPending(s) && c.recordingTime.None? && SmoothCall(c, s, None)
    ensures ExactCounts(VideoOut(c, s, None), 1) <==> MakePlan(c, s, None).previous > 0
  {
    hide VideoOut, MakePlan;
    var plan, s' := MakePlan(c, s, None), VideoOut(c, s, None);
    PlanSensible(c, s, None);
    CallCopies(c, s, None, 0);
    OneCount(s'.emitted);
  }

  /** Dropped frames are the inputs never written, duplicates the copies beyond the first. */
  ghost predicate ExactCounts(s: State, n: nat) {
    s.nbDrop == NeverEmitted(s.emitted, n) && s.nbDup == ExtraCopies(s.emitted, n)
  }

  // ---------- whole runs ----------

  /** The inputs, numbered from 0. */
  ghost predicate Numbered(ps: seq<Picture>) {
    forall i :: 0 <= i < |ps| ==> ps[i].id == i
  }

  /** The first plan leaves nothing falsely pending, or the second one, of a
      picture or of the flush, has late copies. */
  predicate Settles(c: Config, first: Picture, second: Option<Picture>) {
    FirstCounted(MakePlan(c, START, Some(first))) ||
    MakePlan(c, VideoOut(c, START, Some(first)), second).previous > 0
  }

  lemma RunOne(c: Config, p: Picture)
    ensures Run(c, START, Inputs([p])) == VideoOut(c, START, Some(p))
  {
    assert Inputs([p])[..0] == [];
  }

  /** From the second input on the counters are right or one too high, and stay so. */
  lemma {:induction false} RunOff(c: Config, ps: seq<Picture>)
    requires c.maxFrames.Some? ==> c.maxFrames.value >= 0
    requires Numbered(ps) && |ps| >= 2 && Smooth(c, START, Inputs(ps))
    ensures var s := Run(c, START, Inputs(ps));
      Sensible(c, s) && s.lastFrame == Some(|ps| - 1) &&
      Off(s, |ps|, if Settles(c, ps[0], Some(ps[1])) then 0 else 1)
  {
    var n := |ps| - 1;
    InputsSplit(ps);
    RunLedger(c, START, Inputs(ps));
    if n == 1 {
      assert ps[..1] == [ps[0]];
      InputsSplit([ps[0]]);
      assert Inputs([ps[0]])[..0] == [];
      RunOne(c, ps[0]);
      FirstCall(c, ps[0]);
      var s := VideoOut(c, START, Some(ps[0]));
      if FirstCounted(MakePlan(c, START, Some(ps[0]))) {
        PictureKeepsOff(c, s, ps[1], 1, 0);
      } else {
        SecondPicture(c, s, ps[1]);
      }
    } else {
      RunOff(c, ps[..n]);
      assert ps[..n][0] == ps[0] && ps[..n][1] == ps[1];
      PictureKeepsOff(c, Run(c, START, Inputs(ps[..n])), ps[n], n, if Settles(c, ps[0], Some(ps[1])) then 0 else 1);
    }
  }

  /** Over a run and its final flush the dropped frames are exactly the inputs
      never written, and the duplicates exactly the copies beyond the first,
      exactly if the first two plans settle it. */
  lemma DropsAndDupsIff(c: Config, ps: seq<Picture>)
    requires c.maxFrames.Some? ==> c.maxFrames.value >= 0
    requires Numbered(ps) && ps != [] && Smooth(c, START, Inputs(ps))
    requires SmoothCall(c, Run(c, START, Inputs(ps)), None)
    ensures ExactCounts(VideoOut(c, Run(c, START, Inputs(ps)), None), |ps|) <==>
            Settles(c, ps[0], if |ps| == 1 then None else Some(ps[1]))
  {
    hide VideoOut, MakePlan;
    if |ps| == 1 {
      assert ps == [ps[0]];
      RunOne(c, ps[0]);
      InputsSplit(ps);
      assert Inputs(ps)[..0] == [] && Run(c, START, []) == START;
      FirstCall(c, ps[0]);
      var s := VideoOut(c, START, Some(ps[0]));
      if FirstCounted(MakePlan(c, START, Some(ps[0]))) {
        FlushKeepsOff(c, s, 1, 0);
      } else {
        SecondFlush(c, s);
      }
    } else {
      RunOff(c, ps);
      FlushKeepsOff(c, Run(c, START, Inputs(ps)), |ps|, if Settles(c, ps[0], Some(ps[1])) then 0 else 1);
    }
  }

  const LATEFIRST := Picture(0, 2.4, 0.0)

  lemma LateFirstPlan(c: Config)
    requires c.format == Cfr && c.dropThreshold == 0.0 && c.maxFrames.None? && c.errorThreshold >= 1.0
    ensures MakePlan(c, START, Some(LATEFIRST)) == Plan(2, 2, 0) && SmoothCall(c, START, Some(LATEFIRST))
  {
  }

  /** Nothing late in the two calls before it: the flush writes nothing. */
  lemma QuietFlushPlan(c: Config, s: State)
    requires c.maxFrames.None? && c.errorThreshold >= 1.0 && s.lastFrame.Some? && s.nb0b == s.nb0c == 0 <= s.nb0a
    ensures MakePlan(c, s, None).previous == 0 && SmoothCall(c, s, None)
  {
  }

  lemma CallHistory(c: Config, p: Picture)
    requires SmoothCall(c, START, Some(p))
    ensures var s := VideoOut(c, START, Some(p));
      s.nb0a == MakePlan(c, START, Some(p)).previous && s.nb0b == s.nb0c == 0
  {
    EmitFrame(c, Counted(START, Some(p), MakePlan(c, START, Some(p))), Some(p.id), MakePlan(c, START, Some(p)), 0);
  }

  /** A first picture 2.4 ticks late: both its copies are planned as late ones,
      and it is counted as dropped although it was written. */
  lemma LateFirstPicture(c: Config)
    requires c.format == Cfr && c.dropThreshold == 0.0 && c.maxFrames.None? && c.recordingTime.None?
    requires c.errorThreshold >= 1.0
    ensures var ps := [LATEFIRST];
      Smooth(c, START, Inputs(ps)) && SmoothCall(c, Run(c, START, Inputs(ps)), None) &&
      !ExactCounts(VideoOut(c, Run(c, START, Inputs(ps)), None), 1)
  {
    hide VideoOut, MakePlan, SmoothCall;
    var ps, s := [LATEFIRST], VideoOut(c, START, Some(LATEFIRST));
    LateFirstPlan(c);
    RunOne(c, LATEFIRST);
    InputsSplit(ps);
    assert Inputs(ps)[..0] == [] && Run(c, START, []) == START;
    FirstCall(c, LATEFIRST);
    CallHistory(c, LATEFIRST);
    QuietFlushPlan(c, s);
    SecondFlush(c, s);
  }

  // ---------- order ----------

  ghost predicate OrderedUpTo(es: seq<Emission>, hi: int) {
    (forall i, j :: 0 <= i < j < |es| ==> es[i].src <= es[j].src) && forall i :: 0 <= i < |es| ==> es[i].src <= hi
  }

  lemma OrderedAppend(es: seq<Emission>, lo: int, e: Emission)
    requires OrderedUpTo(es, lo) && lo <= e.src
    ensures OrderedUpTo(es + [e], e.src)
  {
  }

  /** The newest source a call has used before frame i. */
  function LastSource(s: State, next: nat, plan: Plan, i: int): int {
    if i <= plan.previous && s.lastFrame.Some? then s.lastFrame.value else if i == 0 then -1 else next
  }

  lemma {:induction false} EmitKeepsOrder(c: Config, s: State, next: nat, plan: Plan, i: int)
    requires 0 <= i && 0 <= plan.previous && OrderedUpTo(s.emitted, LastSource(s, next, plan, i))
    requires s.lastFrame.Some? ==> s.lastFrame.value <= next
    ensures OrderedUpTo(Emit(c, s, Some(next), plan, i).0.emitted, next)
    decreases plan.total - i
  {
    if i < plan.total && !TimeUp(c, s.syncOpts) {
      var e := Emission(SourceOf(s, Some(next), plan.previous, i).value, s.syncOpts);
      OrderedAppend(s.emitted, LastSource(s, next, plan, i), e);
      EmitKeepsOrder(c, s.(syncOpts := s.syncOpts + 1, frameNumber := s.frameNumber + 1,
                           emitted := s.emitted + [e]), next, plan, i + 1);
    }
  }

  /** Everything written so far is ordered and no newer than the kept frame, one of the first n. */
  ghost predicate OrderKept(s: State, n: nat) {
    OrderedUpTo(s.emitted, if s.lastFrame.Some? then s.lastFrame.value else -1) &&
    (s.lastFrame.Some? ==> s.lastFrame.value < n)
  }

  /** A skipped duplication keeps the older frame; every other call keeps its own. */
  lemma CallKeepsOrder(c: Config, s: State, p: Picture)
    requires Sensible(c, s) && c.recordingTime.None? && OrderKept(s, p.id)
    ensures OrderKept(VideoOut(c, s, Some(p)), p.id + 1)
  {
    var plan := MakePlan(c, s, Some(p));
    PlanSensible(c, s, Some(p));
    if !TooLarge(c, s, plan) {
      EmitWritesAll(c, Counted(s, Some(p), plan), Some(p.id), plan, 0);
      EmitKeepsOrder(c, Counted(s, Some(p), plan), p.id, plan, 0);
    }
  }

  lemma {:induction false} PicturesInOrder(c: Config, ps: seq<Picture>)
    requires (c.maxFrames.Some? ==> c.maxFrames.value >= 0) && c.recordingTime.None? && Numbered(ps)
    ensures Sensible(c, Run(c, START, Inputs(ps))) && OrderKept(Run(c, START, Inputs(ps)), |ps|)
  {
    hide VideoOut, OrderKept;
    RunLedger(c, START, Inputs(ps));
    if ps == [] {
      assert Run(c, START, []) == START;
      StartInOrder();
    } else {
      var n := |ps| - 1;
      InputsSplit(ps);
      PicturesInOrder(c, ps[..n]);
      CallKeepsOrder(c, Run(c, START, Inputs(ps[..n])), ps[n]);
    }
  }

  lemma StartInOrder()
    ensures OrderKept(START, 0)
  {
  }

  /** A flush writes the last frame only. */
  lemma {:induction false} FlushKeepsOrder(c: Config, s: State, plan: Plan, i: int)
    requires 0 <= i && plan.total <= plan.previous && s.lastFrame.Some? && OrderedUpTo(s.emitted, s.lastFrame.value)
    ensures OrderedUpTo(Emit(c, s, None, plan, i).0.emitted, s.lastFrame.value)
    decreases plan.total - i
  {
    if i < plan.total && !TimeUp(c, s.syncOpts) {
      var e := Emission(s.lastFrame.value, s.syncOpts);
      OrderedAppend(s.emitted, s.lastFrame.value, e);
      FlushKeepsOrder(c, s.(syncOpts := s.syncOpts + 1, frameNumber := s.frameNumber + 1,
                            emitted := s.emitted + [e]), plan, i + 1);
    }
  }

  lemma FlushOrdered(c: Config, s: State, n: nat)
    requires Sensible(c, s) && OrderKept(s, n)
    ensures OrderedUpTo(s.emitted, n - 1) && OrderedUpTo(VideoOut(c, s, None).emitted, n - 1)
  {
    var plan := MakePlan(c, s, None);
    PlanSensible(c, s, None);
    if s.lastFrame.Some? {
      FlushKeepsOrder(c, Counted(s, None, plan), plan, 0);
    }
  }

  /** Frames are written in input order, over every run of numbered inputs
      without a recording time and over the flush after it. */
  lemma SourcesInOrder(c: Config, ps: seq<Picture>)
    requires (c.maxFrames.Some? ==> c.maxFrames.value >= 0) && c.recordingTime.None? && Numbered(ps)
    ensures OrderedUpTo(Run(c, START, Inputs(ps)).emitted, |ps| - 1)
    ensures OrderedUpTo(VideoOut(c, Run(c, START, Inputs(ps)), None).emitted, |ps| - 1)
  {
    PicturesInOrder(c, ps);
    FlushOrdered(c, Run(c, START, Inputs(ps)), |ps|);
  }
}
