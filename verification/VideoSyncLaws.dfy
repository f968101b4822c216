/** What ffmpeg's rate conversion promises over whole runs: no frame is lost
    uncounted, order is kept, and the output clock stays near the input. */
module VideoSyncLaws {
  import opened Wrappers
  import opened Rounding
  import opened VideoSync

  function Run(c: Config, s: State, inputs: seq<Option<Picture>>): State {
    if inputs == [] then s
    else VideoOut(c, Run(c, s, inputs[..|inputs| - 1]), inputs[|inputs| - 1])
  }

  // ---------- every plan is sensible ----------

  ghost predicate Sensible(c: Config, s: State) {
    (c.maxFrames.Some? ==> s.frameNumber <= c.maxFrames.value) &&
    0 <= s.nb0a && 0 <= s.nb0b && 0 <= s.nb0c
  }

  lemma PlanSensible(c: Config, s: State, next: Option<Picture>)
    requires Sensible(c, s)
    ensures var plan := MakePlan(c, s, next); 0 <= plan.previous <= plan.total
    ensures var plan := MakePlan(c, s, next); c.maxFrames.Some? ==> s.frameNumber + plan.total <= c.maxFrames.value
    ensures next.None? ==> MakePlan(c, s, next).previous == MakePlan(c, s, next).total
  {
  }

  /** What writing changes and what it leaves alone. */
  lemma {:induction false} EmitFrame(c: Config, s: State, next: Option<nat>, plan: Plan, i: int)
    ensures var (s', all) := Emit(c, s, next, plan, i);
      var n := |s'.emitted| - |s.emitted|;
      0 <= n && (i <= plan.total ==> n <= plan.total - i && (all <==> n == plan.total - i)) &&
      s'.syncOpts == s.syncOpts + n && s'.frameNumber == s.frameNumber + n &&
      s' == s.(syncOpts := s'.syncOpts, frameNumber := s'.frameNumber, finished := s'.finished, emitted := s'.emitted)
    decreases plan.total - i
  {
    if i < plan.total && SourceOf(s, next, plan.previous, i).Some? && !TimeUp(c, s.syncOpts) {
      var src := SourceOf(s, next, plan.previous, i).value;
      EmitFrame(c, s.(syncOpts := s.syncOpts + 1, frameNumber := s.frameNumber + 1,
                      emitted := s.emitted + [Emission(src, s.syncOpts)]), next, plan, i + 1);
    }
  }

  lemma StaysSensible(c: Config, s: State, next: Option<Picture>)
    requires Sensible(c, s)
    ensures Sensible(c, VideoOut(c, s, next))
  {
    PlanSensible(c, s, next);
    EmitFrame(c, Counted(s, next, MakePlan(c, s, next)), IdOf(next), MakePlan(c, s, next), 0);
  }

  // ---------- conservation ----------

  /** Written, dropped and pending frames, less the extra copies. */
  function Balance(s: State): int { |s.emitted| + s.nbDrop + One(s.lastDroped) - s.nbDup }

  /** Planned frames a call did not write, because of the recording time or for want of a picture. */
  function Missing(c: Config, s: State, next: Option<Picture>): int {
    var plan := MakePlan(c, s, next);
    if TooLarge(c, s, plan) then 0
    else plan.total - (|Emit(c, Counted(s, next, plan), IdOf(next), plan, 0).0.emitted| - |s.emitted|)
  }

  /** Frames a skipped duplication counts as dropped beyond the input it skips. */
  function CountedTwice(c: Config, s: State, next: Option<Picture>): int {
    var plan := MakePlan(c, s, next);
    if TooLarge(c, s, plan) then One(next.None?) + One(plan.previous == 0 && s.lastDroped) else 0
  }

  /** The ledger of one call, whatever happens in it. */
  lemma CallLedger(c: Config, s: State, next: Option<Picture>)
    requires Sensible(c, s)
    ensures Balance(VideoOut(c, s, next)) ==
            Balance(s) + One(next.Some?) - Missing(c, s, next) + CountedTwice(c, s, next)
    ensures 0 <= Missing(c, s, next)
  {
    PlanSensible(c, s, next);
    EmitFrame(c, Counted(s, next, MakePlan(c, s, next)), IdOf(next), MakePlan(c, s, next), 0);
  }

  function Pictures(inputs: seq<Option<Picture>>): int {
    if inputs == [] then 0 else Pictures(inputs[..|inputs| - 1]) + One(inputs[|inputs| - 1].Some?)
  }

  /** Unwritten planned frames of a run, less those counted twice. */
  function Shortfall(c: Config, s: State, inputs: seq<Option<Picture>>): int {
    if inputs == [] then 0 else
    var n := |inputs| - 1;
    var t := Run(c, s, inputs[..n]);
    Shortfall(c, s, inputs[..n]) + Missing(c, t, inputs[n]) - CountedTwice(c, t, inputs[n])
  }

  lemma {:induction false} RunLedger(c: Config, s: State, inputs: seq<Option<Picture>>)
    requires Sensible(c, s)
    ensures Sensible(c, Run(c, s, inputs))
    ensures Balance(Run(c, s, inputs)) == Balance(s) + Pictures(inputs) - Shortfall(c, s, inputs)
  {
    if inputs != [] {
      var n := |inputs| - 1;
      RunLedger(c, s, inputs[..n]);
      CallLedger(c, Run(c, s, inputs[..n]), inputs[n]);
      StaysSensible(c, Run(c, s, inputs[..n]), inputs[n]);
    }
  }

  /** A call keeps the balance unless it skips a duplication at a flush or while
      an earlier frame is pending, or plans frames it has no picture or no time for. */
  predicate KeepsBalance(c: Config, s: State, next: Option<Picture>) {
    var plan := MakePlan(c, s, next);
    if TooLarge(c, s, plan) then next.Some? && !(plan.previous == 0 && s.lastDroped)
    else
      plan.total == 0 ||
      ((next.Some? || s.lastFrame.Some?) && !TimeUp(c, plan.syncOpts + plan.total - 1))
  }

  lemma TimeUpLater(c: Config, a: int, b: int)
    requires c.tbNum > 0 && a <= b && TimeUp(c, a)
    ensures TimeUp(c, b)
  {
    assert (b - c.firstPts) * c.tbNum == (a - c.firstPts) * c.tbNum + (b - a) * c.tbNum;
    assert (b - a) * c.tbNum >= 0;
  }

  /** All frames are written exactly if there is a picture for them and the time
      has not come for the last of them. */
  lemma {:induction false} EmitWritesAllIff(c: Config, s: State, next: Option<nat>, plan: Plan, i: int)
    requires c.tbNum > 0 && i < plan.total && (next.None? ==> plan.total <= plan.previous)
    ensures Emit(c, s, next, plan, i).1 <==>
            (next.Some? || s.lastFrame.Some?) && !TimeUp(c, s.syncOpts + plan.total - i - 1)
    decreases plan.total - i
  {
    if SourceOf(s, next, plan.previous, i).Some? {
      if TimeUp(c, s.syncOpts) {
        TimeUpLater(c, s.syncOpts, s.syncOpts + plan.total - i - 1);
      } else if i + 1 < plan.total {
        var src := SourceOf(s, next, plan.previous, i).value;
        EmitWritesAllIff(c, s.(syncOpts := s.syncOpts + 1, frameNumber := s.frameNumber + 1,
                               emitted := s.emitted + [Emission(src, s.syncOpts)]), next, plan, i + 1);
      }
    }
  }

  lemma CallBalancedIff(c: Config, s: State, next: Option<Picture>)
    requires Sensible(c, s) && c.tbNum > 0
    ensures Balance(VideoOut(c, s, next)) == Balance(s) + One(next.Some?) <==> KeepsBalance(c, s, next)
    ensures !TooLarge(c, s, MakePlan(c, s, next)) ==> (Missing(c, s, next) == 0 <==> KeepsBalance(c, s, next))
  {
    var plan := MakePlan(c, s, next);
    PlanSensible(c, s, next);
    CallLedger(c, s, next);
    if !TooLarge(c, s, plan) {
      var s1 := Counted(s, next, plan);
      EmitFrame(c, s1, IdOf(next), plan, 0);
      if plan.total > 0 {
        EmitWritesAllIff(c, s1, IdOf(next), plan, 0);
      }
    }
  }

  /** After the first n calls everything is accounted for. */
  ghost predicate BalancedAfter(c: Config, inputs: seq<Option<Picture>>, n: nat)
    requires n <= |inputs|
  {
    var s := Run(c, START, inputs[..n]);
    |s.emitted| + s.nbDrop + One(s.lastDroped) == Pictures(inputs[..n]) + s.nbDup
  }

  ghost predicate CallKeepsBalance(c: Config, inputs: seq<Option<Picture>>, n: nat)
    requires n < |inputs|
  {
    KeepsBalance(c, Run(c, START, inputs[..n]), inputs[n])
  }

  lemma RunOneMore(c: Config, inputs: seq<Option<Picture>>, n: nat)
    requires n < |inputs|
    ensures Run(c, START, inputs[..n + 1]) == VideoOut(c, Run(c, START, inputs[..n]), inputs[n])
    ensures Pictures(inputs[..n + 1]) == Pictures(inputs[..n]) + One(inputs[n].Some?)
  {
    assert inputs[..n + 1][..n] == inputs[..n];
  }

  /** One more call stays balanced exactly under the guard. */
  lemma BalancedNextIff(c: Config, inputs: seq<Option<Picture>>, n: nat)
    requires (c.maxFrames.Some? ==> c.maxFrames.value >= 0) && c.tbNum > 0
    requires n < |inputs| && BalancedAfter(c, inputs, n)
    ensures BalancedAfter(c, inputs, n + 1) <==> CallKeepsBalance(c, inputs, n)
  {
    RunOneMore(c, inputs, n);
    RunLedger(c, START, inputs[..n]);
    CallBalancedIff(c, Run(c, START, inputs[..n]), inputs[n]);
  }

  lemma {:induction false} BalancedUpTo(c: Config, inputs: seq<Option<Picture>>, n: nat)
    requires (c.maxFrames.Some? ==> c.maxFrames.value >= 0) && c.tbNum > 0
    requires n <= |inputs| && forall k :: 0 <= k < n ==> CallKeepsBalance(c, inputs, k)
    ensures BalancedAfter(c, inputs, n)
    decreases n
  {
    if n > 0 {
      BalancedUpTo(c, inputs, n - 1);
      assert CallKeepsBalance(c, inputs, n - 1);
      BalancedNextIff(c, inputs, n - 1);
    }
  }

  /** Frames are conserved throughout a run, flushes included, exactly if every
      call meets the guard. */
  lemma FramesConservedIff(c: Config, inputs: seq<Option<Picture>>)
    requires (c.maxFrames.Some? ==> c.maxFrames.value >= 0) && c.tbNum > 0
    ensures (forall n :: 0 <= n <= |inputs| ==> BalancedAfter(c, inputs, n)) <==>
            (forall n :: 0 <= n < |inputs| ==> CallKeepsBalance(c, inputs, n))
  {
    if forall n :: 0 <= n < |inputs| ==> CallKeepsBalance(c, inputs, n) {
      forall n | 0 <= n <= |inputs| ensures BalancedAfter(c, inputs, n) {
        BalancedUpTo(c, inputs, n);
      }
    }
    if forall n :: 0 <= n <= |inputs| ==> BalancedAfter(c, inputs, n) {
      forall n | 0 <= n < |inputs| ensures CallKeepsBalance(c, inputs, n) {
        assert BalancedAfter(c, inputs, n) && BalancedAfter(c, inputs, n + 1);
        BalancedNextIff(c, inputs, n);
      }
    }
  }

  lemma NoSkipNoDoubleCount(c: Config, s: State, next: Option<Picture>)
    requires !TooLarge(c, s, MakePlan(c, s, next))
    ensures CountedTwice(c, s, next) == 0
  {
  }

  /** Frames counted missing do not come back: without skipped duplications the
      end of a run alone tells whether every call met the guard. */
  lemma {:induction false} ConservedAtEndIff(c: Config, inputs: seq<Option<Picture>>, n: nat)
    requires (c.maxFrames.Some? ==> c.maxFrames.value >= 0) && c.tbNum > 0 && n <= |inputs|
    requires forall k :: 0 <= k < n ==> !Skips(c, inputs, k)
    ensures Shortfall(c, START, inputs[..n]) >= 0
    ensures BalancedAfter(c, inputs, n) <==> forall k :: 0 <= k < n ==> CallKeepsBalance(c, inputs, k)
    decreases n
  {
    hide VideoOut, MakePlan, TooLarge, KeepsBalance, Missing, CountedTwice;
    RunLedger(c, START, inputs[..n]);
    if n > 0 {
      ConservedAtEndIff(c, inputs, n - 1);
      var t := Run(c, START, inputs[..n - 1]);
      assert inputs[..n][..n - 1] == inputs[..n - 1];
      assert !Skips(c, inputs, n - 1);
      RunLedger(c, START, inputs[..n - 1]);
      CallLedger(c, t, inputs[n - 1]);
      CallBalancedIff(c, t, inputs[n - 1]);
      NoSkipNoDoubleCount(c, t, inputs[n - 1]);
      assert CallKeepsBalance(c, inputs, n - 1) <==> Missing(c, t, inputs[n - 1]) == 0;
    }
  }

  ghost predicate Skips(c: Config, inputs: seq<Option<Picture>>, n: nat)
    requires n < |inputs|
  {
    var s := Run(c, START, inputs[..n]); TooLarge(c, s, MakePlan(c, s, inputs[n]))
  }

  const LATE := Picture(0, -5.0, 1.0)
  const LONG := Picture(1, 0.0, 100.0)

  lemma LateIsPending(c: Config)
    requires c.format == Cfr && c.maxFrames.None? && c.dropThreshold == 0.0
    ensures MakePlan(c, START, Some(LATE)) == Plan(0, 0, 0)
    ensures KeepsBalance(c, START, Some(LATE))
    ensures var s := VideoOut(c, START, Some(LATE)); s.lastDroped && s.syncOpts == 0 && s.frameNumber == 0
  {
  }

  lemma LongIsTooLarge(c: Config, s: State)
    requires c.format == Cfr && c.maxFrames.None? && c.dropThreshold == 0.0 && c.errorThreshold == 1.0
    requires s.lastDroped && s.syncOpts == 0 && s.frameNumber == 0
    ensures !KeepsBalance(c, s, Some(LONG))
  {
    assert MakePlan(c, s, Some(LONG)) == Plan(100, 0, 0);
  }

  /** A late picture and then one too long: the second call counts the pending
      picture as dropped and leaves it pending. */
  lemma CountedTwiceOnSkip(c: Config)
    requires c.format == Cfr && c.maxFrames.None? && c.dropThreshold == 0.0 && c.errorThreshold == 1.0 && c.tbNum > 0
    ensures var inputs := [Some(LATE), Some(LONG)];
      BalancedAfter(c, inputs, 1) && !CallKeepsBalance(c, inputs, 1) && !BalancedAfter(c, inputs, 2)
  {
    hide VideoOut, MakePlan, KeepsBalance;
    var inputs: seq<Option<Picture>> := [Some(LATE), Some(LONG)];
    assert inputs[..0] == [] && Run(c, START, []) == START;
    RunOneMore(c, inputs, 0);
    LateIsPending(c);
    LongIsTooLarge(c, VideoOut(c, START, Some(LATE)));
    assert BalancedAfter(c, inputs, 0);
    BalancedNextIff(c, inputs, 0);
    BalancedNextIff(c, inputs, 1);
  }

  /** No skipped duplication, no recording time, and a picture at hand at every flush. */
  ghost predicate Smooth(c: Config, s: State, inputs: seq<Option<Picture>>) {
    c.recordingTime.None? &&
    (inputs != [] ==>
       var before, next := inputs[..|inputs| - 1], inputs[|inputs| - 1];
       Smooth(c, s, before) && SmoothCall(c, Run(c, s, before), next))
  }

  ghost predicate SmoothCall(c: Config, s: State, next: Option<Picture>) {
    !TooLarge(c, s, MakePlan(c, s, next)) && (next.None? ==> s.lastFrame.Some?)
  }

  lemma {:induction false} EmitWritesAll(c: Config, s: State, next: Option<nat>, plan: Plan, i: int)
    requires c.recordingTime.None? && (next.Some? || (s.lastFrame.Some? && plan.total <= plan.previous))
    ensures Emit(c, s, next, plan, i).1
    decreases plan.total - i
  {
    if i < plan.total {
      var src := SourceOf(s, next, plan.previous, i).value;
      EmitWritesAll(c, s.(syncOpts := s.syncOpts + 1, frameNumber := s.frameNumber + 1,
                          emitted := s.emitted + [Emission(src, s.syncOpts)]), next, plan, i + 1);
    }
  }

  lemma {:induction false} SmoothHasNoShortfall(c: Config, s: State, inputs: seq<Option<Picture>>)
    requires Sensible(c, s) && Smooth(c, s, inputs)
    ensures Shortfall(c, s, inputs) == 0
  {
    if inputs != [] {
      var n := |inputs| - 1;
      SmoothHasNoShortfall(c, s, inputs[..n]);
      RunLedger(c, s, inputs[..n]);
      var t := Run(c, s, inputs[..n]);
      var plan := MakePlan(c, t, inputs[n]);
      PlanSensible(c, t, inputs[n]);
      EmitWritesAll(c, Counted(t, inputs[n], plan), IdOf(inputs[n]), plan, 0);
      EmitFrame(c, Counted(t, inputs[n], plan), IdOf(inputs[n]), plan, 0);
    }
  }

  lemma FramesConserved(c: Config, inputs: seq<Option<Picture>>)
    requires c.maxFrames.Some? ==> c.maxFrames.value >= 0
    requires Smooth(c, START, inputs)
    ensures var s := Run(c, START, inputs);
      |s.emitted| + s.nbDrop + One(s.lastDroped) == Pictures(inputs) + s.nbDup
  {
    SmoothHasNoShortfall(c, START, inputs);
    RunLedger(c, START, inputs);
  }

  // ---------- timestamps ----------

  ghost predicate PtsRise(es: seq<Emission>) {
    forall i, j :: 0 <= i < j < |es| ==> es[i].pts < es[j].pts
  }

  ghost predicate PtsBelow(s: State) {
    PtsRise(s.emitted) && forall e <- s.emitted :: e.pts < s.syncOpts
  }

  lemma {:induction false} EmitRises(c: Config, s: State, next: Option<nat>, plan: Plan, i: int)
    requires PtsBelow(s)
    ensures PtsBelow(Emit(c, s, next, plan, i).0)
    decreases plan.total - i
  {
    if i < plan.total && SourceOf(s, next, plan.previous, i).Some? && !TimeUp(c, s.syncOpts) {
      var src := SourceOf(s, next, plan.previous, i).value;
      EmitRises(c, s.(syncOpts := s.syncOpts + 1, frameNumber := s.frameNumber + 1,
                      emitted := s.emitted + [Emission(src, s.syncOpts)]), next, plan, i + 1);
    }
  }

  /** The output clock is never set back, except in the two pass-through modes. */
  lemma ClockForward(c: Config, s: State, next: Option<Picture>)
    requires c.format in {VsCfr, Cfr, Vfr}
    ensures MakePlan(c, s, next).syncOpts >= s.syncOpts
    ensures c.format == Cfr ==> MakePlan(c, s, next).syncOpts == s.syncOpts
  {
    if next.Some? {
      var q := Clip(c, s, next.value);
      if q.syncIpts >= s.syncOpts as real {
        RoundHalfEvenAtLeast(q.syncIpts, s.syncOpts);
      }
    }
  }

  /** In all modes that keep a rate, timestamps rise strictly over every run,
      with or without limits. */
  lemma {:induction false} TimestampsRise(c: Config, s: State, inputs: seq<Option<Picture>>)
    requires c.format in {VsCfr, Cfr, Vfr} && PtsBelow(s)
    ensures PtsBelow(Run(c, s, inputs))
  {
    if inputs != [] {
      var n := |inputs| - 1;
      TimestampsRise(c, s, inputs[..n]);
      var t := Run(c, s, inputs[..n]);
      ClockForward(c, t, inputs[n]);
      var plan := MakePlan(c, t, inputs[n]);
      EmitRises(c, Counted(t, inputs[n], plan), IdOf(inputs[n]), plan, 0);
    }
  }

  /** Emitted timestamps are the integers from `first` on. */
  ghost predicate Consecutive(s: State, first: int) {
    s.syncOpts == first + |s.emitted| && forall i :: 0 <= i < |s.emitted| ==> s.emitted[i].pts == first + i
  }

  lemma {:induction false} EmitConsecutive(c: Config, s: State, next: Option<nat>, plan: Plan, i: int, first: int)
    requires Consecutive(s, first)
    ensures Consecutive(Emit(c, s, next, plan, i).0, first)
    decreases plan.total - i
  {
    if i < plan.total && SourceOf(s, next, plan.previous, i).Some? && !TimeUp(c, s.syncOpts) {
      var src := SourceOf(s, next, plan.previous, i).value;
      EmitConsecutive(c, s.(syncOpts := s.syncOpts + 1, frameNumber := s.frameNumber + 1,
                            emitted := s.emitted + [Emission(src, s.syncOpts)]), next, plan, i + 1, first);
    }
  }

  /** At a constant rate no timestamp is left out, over every run. */
  lemma {:induction false} ConstantRateConsecutive(c: Config, s: State, inputs: seq<Option<Picture>>, first: int)
    requires c.format == Cfr && Consecutive(s, first)
    ensures Consecutive(Run(c, s, inputs), first)
  {
    if inputs != [] {
      var n := |inputs| - 1;
      ConstantRateConsecutive(c, s, inputs[..n], first);
      var t := Run(c, s, inputs[..n]);
      ClockForward(c, t, inputs[n]);
      var plan := MakePlan(c, t, inputs[n]);
      EmitConsecutive(c, Counted(t, inputs[n], plan), IdOf(inputs[n]), plan, 0, first);
    }
  }

  // ---------- drift ----------

  function End(p: Picture): real { p.syncIpts + p.duration }

  ghost predicate EndsRise(s: State, ps: seq<Picture>) {
    (ps != [] ==> End(ps[0]) >= s.syncOpts as real - 2.1) &&
    (forall i :: 0 <= i < |ps| ==> ps[i].duration >= 0.0) &&
    forall i :: 0 < i < |ps| ==> End(ps[i - 1]) <= End(ps[i])
  }

  function Inputs(ps: seq<Picture>): (r: seq<Option<Picture>>)
    ensures |r| == |ps| && forall i :: 0 <= i < |ps| ==> r[i] == Some(ps[i])
  {
    seq(|ps|, i requires 0 <= i < |ps| => Some(ps[i]))
  }

  lemma InputsSplit(ps: seq<Picture>)
    requires ps != []
    ensures var n := |ps| - 1; Inputs(ps)[..n] == Inputs(ps[..n]) && Inputs(ps)[n] == Some(ps[n])
  {
  }

  function Drift(s: State, p: Picture): real { End(p) - s.syncOpts as real }

  function MaxDrift(c: Config): real { if c.format == Cfr then 0.5 else 1.0 }

  lemma PlanDrift(c: Config, s: State, p: Picture)
    requires c.format in {Cfr, VsCfr} && c.dropThreshold == 0.0 && c.maxFrames.None? && p.duration >= 0.0
    requires Drift(s, p) >= -2.1
    ensures var plan := MakePlan(c, s, Some(p));
      -2.1 <= End(p) - (plan.syncOpts + plan.total) as real <= MaxDrift(c)
  {
    var q := Clip(c, s, p);
    assert End(q) == End(p);
    assert 0.0 <= q.duration;
  }

  /** With the drop threshold at 0 and no limits, the output clock never strays
      from the end of the input: at most 2.1 ticks ahead of it, at most half a
      tick behind (a whole one where the clock may be set at the start). */
  lemma {:induction false} DriftBound(c: Config, s: State, ps: seq<Picture>)
    requires c.format in {Cfr, VsCfr} && c.dropThreshold == 0.0 && c.maxFrames.None?
    requires Sensible(c, s) && EndsRise(s, ps) && Smooth(c, s, Inputs(ps)) && ps != []
    ensures -2.1 <= Drift(Run(c, s, Inputs(ps)), ps[|ps| - 1]) <= MaxDrift(c)
  {
    var n := |ps| - 1;
    InputsSplit(ps);
    var t := Run(c, s, Inputs(ps[..n]));
    RunLedger(c, s, Inputs(ps[..n]));
    if n > 0 {
      DriftBound(c, s, ps[..n]);
      assert ps[..n][n - 1] == ps[n - 1] && End(ps[n - 1]) <= End(ps[n]);
    }
    CallDrift(c, t, ps[n]);
  }

  lemma CallDrift(c: Config, s: State, p: Picture)
    requires c.format in {Cfr, VsCfr} && c.dropThreshold == 0.0 && c.maxFrames.None? && p.duration >= 0.0
    requires Sensible(c, s) && c.recordingTime.None? && SmoothCall(c, s, Some(p)) && Drift(s, p) >= -2.1
    ensures -2.1 <= Drift(VideoOut(c, s, Some(p)), p) <= MaxDrift(c)
  {
    var plan := MakePlan(c, s, Some(p));
    PlanDrift(c, s, p);
    PlanSensible(c, s, Some(p));
    EmitWritesAll(c, Counted(s, Some(p), plan), Some(p.id), plan, 0);
    EmitFrame(c, Counted(s, Some(p), plan), Some(p.id), plan, 0);
  }
}
