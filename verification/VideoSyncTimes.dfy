/** When ffmpeg's rate conversion writes each input: which are dropped, at which
    output ticks the others appear, and how often. */
module VideoSyncTimes {
  import opened Rounding
  import opened VideoSync
  import opened VideoSyncLaws
  import opened Wrappers

  // ---------- nearest ticks ----------

  /** The tick nearest to a time, the even one of two. */
  ghost predicate Nearest(tick: int, time: real) {
    Abs(time - tick as real) <= 0.5 && (Abs(time - tick as real) == 0.5 ==> tick % 2 == 0)
  }

  /** Where an input starts that is cut at the clock. */
  function CutStart(p: Picture, clock: int): real {
    if p.syncIpts < clock as real then clock as real else p.syncIpts
  }

  // ---------- variable rate ----------

  /** The tick of an input when the clock stands at `clock`: the clock itself if the
      input ends hardly later, else the tick nearest to its start. */
  ghost predicate Follows(p: Picture, clock: int, pts: int) {
    if p.syncIpts + p.duration - clock as real <= 0.6 then pts == clock
    else pts >= clock && Nearest(pts, CutStart(p, clock))
  }

  predicate TooLate(p: Picture, clock: int) { p.syncIpts + p.duration - clock as real <= -0.6 }

  lemma VfrPlan(c: Config, s: State, p: Picture)
    requires c.format == Vfr && c.maxFrames.None?
    ensures var plan := MakePlan(c, s, Some(p));
      if TooLate(p, s.syncOpts) then plan == Plan(0, 0, s.syncOpts)
      else plan.total == 1 && plan.previous == 0 && Follows(p, s.syncOpts, plan.syncOpts)
    ensures !TooLarge(c, s, MakePlan(c, s, Some(p)))
  {
    var q := Clip(c, s, p);
    if p.syncIpts + p.duration - s.syncOpts as real > 0.6 {
      assert q.syncIpts == CutStart(p, s.syncOpts);
      RoundHalfEvenAtLeast(q.syncIpts, s.syncOpts);
    }
  }

  /** A plan of one new frame writes it at the plan's tick. */
  lemma OneFrame(c: Config, s: State, p: Picture)
    requires c.recordingTime.None? && !TooLarge(c, s, MakePlan(c, s, Some(p)))
    requires MakePlan(c, s, Some(p)).total == 1 && MakePlan(c, s, Some(p)).previous == 0
    ensures var s', tick := VideoOut(c, s, Some(p)), MakePlan(c, s, Some(p)).syncOpts;
      s'.emitted == s.emitted + [Emission(p.id, tick)] && s'.syncOpts == tick + 1
  {
    hide MakePlan, TooLarge, Counted, TimeUp;
    var plan := MakePlan(c, s, Some(p));
    CountedKeeps(s, Some(p), plan);
    EmitOne(c, Counted(s, Some(p), plan), p.id, plan);
  }

  lemma CountedKeeps(s: State, next: Option<Picture>, plan: Plan)
    ensures Counted(s, next, plan).emitted == s.emitted && Counted(s, next, plan).syncOpts == plan.syncOpts
  {
  }

  lemma EmitOne(c: Config, s: State, id: nat, plan: Plan)
    requires c.recordingTime.None? && plan.total == 1 && plan.previous == 0
    ensures var (s', all) := Emit(c, s, Some(id), plan, 0);
      all && s'.emitted == s.emitted + [Emission(id, s.syncOpts)] && s'.syncOpts == s.syncOpts + 1
  {
    var s1 := s.(syncOpts := s.syncOpts + 1, frameNumber := s.frameNumber + 1,
                 emitted := s.emitted + [Emission(id, s.syncOpts)]);
    assert Emit(c, s1, Some(id), plan, 1) == (s1, true);
  }

  lemma NoFrame(c: Config, s: State, p: Picture)
    requires MakePlan(c, s, Some(p)).total <= 0
    ensures VideoOut(c, s, Some(p)).emitted == s.emitted
    ensures VideoOut(c, s, Some(p)).syncOpts == MakePlan(c, s, Some(p)).syncOpts
  {
  }

  /** The clock when input i comes: just after the last frame of the inputs before it. */
  function ClockBefore(es: seq<Emission>, i: int): int {
    if es == [] then 0
    else if es[|es| - 1].src < i then es[|es| - 1].pts + 1
    else ClockBefore(es[..|es| - 1], i)
  }

  /** Input i appears once, at the tick that follows, or not at all if it ends
      0.6 ticks before the clock. */
  ghost predicate FollowedAt(es: seq<Emission>, p: Picture, i: int) {
    var clock := ClockBefore(es, i);
    if TooLate(p, clock) then forall e <- es :: e.src != i
    else
      (exists j :: 0 <= j < |es| && es[j].src == i && Follows(p, clock, es[j].pts)) &&
      forall j, k :: 0 <= j < |es| && 0 <= k < |es| && es[j].src == es[k].src == i ==> j == k
  }

  lemma ClockAppend(es: seq<Emission>, e: Emission, i: int)
    ensures ClockBefore(es + [e], i) == if e.src < i then e.pts + 1 else ClockBefore(es, i)
  {
    assert (es + [e])[..|es|] == es;
  }

  /** Frames of later inputs change nothing for an earlier one. */
  lemma FollowedAppend(es: seq<Emission>, e: Emission, p: Picture, i: int)
    requires FollowedAt(es, p, i) && i < e.src
    ensures FollowedAt(es + [e], p, i)
  {
    ClockAppend(es, e, i);
    var all := es + [e];
    if !TooLate(p, ClockBefore(es, i)) {
      var j :| 0 <= j < |es| && es[j].src == i && Follows(p, ClockBefore(es, i), es[j].pts);
      assert all[j] == es[j];
    }
  }

  lemma FollowedNew(es: seq<Emission>, p: Picture, i: int, pts: int)
    requires i >= 0 && (forall e <- es :: e.src < i)
    requires !TooLate(p, ClockBefore(es, i)) && Follows(p, ClockBefore(es, i), pts)
    ensures FollowedAt(es + [Emission(i, pts)], p, i)
  {
    var all := es + [Emission(i, pts)];
    ClockAppend(es, Emission(i, pts), i);
    assert all[|es|].src == i;
    forall j | 0 <= j < |es| ensures all[j].src != i {
      assert all[j] in es;
    }
  }

  /** Over a whole run at a variable rate each input is written at the tick nearest
      to its start, or at the clock, or dropped, exactly as its times tell. */
  lemma {:induction false} VfrFollows(c: Config, ps: seq<Picture>)
    requires c.format == Vfr && c.maxFrames.None? && c.recordingTime.None?
    requires forall i :: 0 <= i < |ps| ==> ps[i].id == i
    ensures var s := Run(c, START, Inputs(ps));
      (forall i :: 0 <= i < |ps| ==> FollowedAt(s.emitted, ps[i], i)) &&
      (forall e <- s.emitted :: e.src < |ps|) && s.syncOpts == ClockBefore(s.emitted, |ps|)
  {
    hide VideoOut, MakePlan, TooLarge, FollowedAt, Follows;
    if ps == [] {
      assert Run(c, START, []) == START;
    } else {
      var n := |ps| - 1;
      var p := ps[n];
      InputsSplit(ps);
      VfrFollows(c, ps[..n]);
      var s := Run(c, START, Inputs(ps[..n]));
      forall i | 0 <= i < n ensures FollowedAt(s.emitted, ps[i], i) {
        assert ps[..n][i] == ps[i];
      }
      VfrPlan(c, s, p);
      if TooLate(p, s.syncOpts) {
        NoFrame(c, s, p);
        NotYet(s.emitted, p, n);
        ClockAtEnd(s.emitted, n);
      } else {
        OneFrame(c, s, p);
        var e := Emission(n, MakePlan(c, s, Some(p)).syncOpts);
        FollowedNew(s.emitted, p, n, e.pts);
        forall i | 0 <= i < n ensures FollowedAt(s.emitted + [e], ps[i], i) {
          FollowedAppend(s.emitted, e, ps[i], i);
        }
        ClockAppend(s.emitted, e, n + 1);
      }
    }
  }

  lemma NotYet(es: seq<Emission>, p: Picture, i: int)
    requires (forall e <- es :: e.src < i) && TooLate(p, ClockBefore(es, i))
    ensures FollowedAt(es, p, i)
  {
  }

  lemma ClockAtEnd(es: seq<Emission>, n: int)
    requires forall e <- es :: e.src < n
    ensures ClockBefore(es, n + 1) == ClockBefore(es, n)
  {
    if es != [] {
      assert es[|es| - 1] in es;
    }
  }

  // ---------- without a rate ----------

  lemma PassedPlan(c: Config, s: State, p: Picture)
    requires c.format in {Passthrough, Drop} && c.maxFrames.None?
    ensures var plan := MakePlan(c, s, Some(p));
      plan.total == 1 && plan.previous == 0 && Nearest(plan.syncOpts, p.syncIpts) && !TooLarge(c, s, plan)
  {
  }

  /** Passed through, every input is written once, at the tick nearest to its timestamp. */
  lemma {:induction false} PassedThrough(c: Config, ps: seq<Picture>)
    requires c.format in {Passthrough, Drop} && c.maxFrames.None? && c.recordingTime.None?
    ensures var es := Run(c, START, Inputs(ps)).emitted;
      |es| == |ps| && forall i :: 0 <= i < |ps| ==> es[i].src == ps[i].id && Nearest(es[i].pts, ps[i].syncIpts)
  {
    hide VideoOut, MakePlan, TooLarge, Nearest;
    if ps == [] {
      assert Run(c, START, []) == START;
    } else {
      var n := |ps| - 1;
      InputsSplit(ps);
      PassedThrough(c, ps[..n]);
      var s := Run(c, START, Inputs(ps[..n]));
      PassedPlan(c, s, ps[n]);
      OneFrame(c, s, ps[n]);
      forall i | 0 <= i < n ensures ps[..n][i] == ps[i] {
      }
    }
  }

  // ---------- constant rate ----------

  /** How many frames an input asks for that ends `ahead` ticks after the clock. */
  ghost predicate Fills(ahead: real, total: int) {
    if ahead < -1.1 then total == 0 else if ahead <= 1.1 then total == 1 else Nearest(total, ahead)
  }

  /** How many of them still show the input before, when its own start is `ahead` ticks after the clock. */
  ghost predicate Waits(ahead: real, previous: int) {
    if ahead <= 1.1 then previous == 0 else Nearest(previous, ahead - 0.6)
  }

  /** At a constant rate without limit and threshold an input fills the output up to its
      end; what lies before its start, by more than 1.1 ticks, still shows the input before. */
  lemma CfrFills(c: Config, s: State, p: Picture)
    requires c.format == Cfr && c.maxFrames.None? && c.dropThreshold == 0.0 && p.duration >= 0.0
    ensures var plan, ahead := MakePlan(c, s, Some(p)), p.syncIpts + p.duration - s.syncOpts as real;
      plan.syncOpts == s.syncOpts && Fills(ahead, plan.total) &&
      Waits(p.syncIpts - s.syncOpts as real, plan.previous)
  {
  }

  /** With a threshold, an input that ends below it is dropped unless it is the first; others are not affected. */
  lemma ThresholdDrops(c: Config, s: State, p: Picture)
    requires c.format in {Cfr, VsCfr} && c.dropThreshold != 0.0 && s.frameNumber != 0 && c.maxFrames.None?
    ensures var ahead := p.syncIpts + p.duration - s.syncOpts as real;
      if ahead < c.dropThreshold then MakePlan(c, s, Some(p)) == Plan(0, 0, s.syncOpts)
      else MakePlan(c, s, Some(p)) == MakePlan(c.(dropThreshold := 0.0), s, Some(p))
  {
  }

  /** With -vsync vscfr a first input that starts half a tick late or more sets the
      clock to the tick nearest to its start and fills its own duration; any other
      input is treated as at a constant rate. */
  lemma VsCfrStarts(c: Config, s: State, p: Picture)
    requires c.format == VsCfr && c.maxFrames.None? && c.dropThreshold == 0.0 && p.duration >= 0.0
    ensures var plan, start := MakePlan(c, s, Some(p)), CutStart(p, s.syncOpts);
      if s.frameNumber == 0 && start - s.syncOpts as real >= 0.5 then
        Nearest(plan.syncOpts, start) && plan.previous == 0 && Fills(p.duration, plan.total)
      else plan == MakePlan(c.(format := Cfr), s, Some(p))
  {
  }

  // ---------- limits ----------

  /** A frame limit cuts a plan just at the limit. */
  lemma LimitCuts(c: Config, s: State, next: Option<Picture>, max: int)
    requires c.maxFrames == Some(max) && 0 <= s.nb0a && 0 <= s.nb0b && 0 <= s.nb0c
    ensures var plan, free := MakePlan(c, s, next), MakePlan(c.(maxFrames := None), s, next);
      (s.frameNumber + free.total <= max ==> plan == free) &&
      (s.frameNumber + free.total > max ==> s.frameNumber + plan.total == max) &&
      (free.previous <= plan.total ==> plan.previous == free.previous) && plan.syncOpts == free.syncOpts
  {
  }

  /** The recording time is over exactly if the tick lies at or after it, in seconds. */
  lemma TimeUpIs(c: Config, tick: int)
    requires c.tbDen > 0 && c.recordingTime.Some?
    ensures TimeUp(c, tick) <==>
            (tick - c.firstPts) as real * (c.tbNum as real / c.tbDen as real) >=
            c.recordingTime.value as real / 1000000.0
  {
    var ticks, num, den := (tick - c.firstPts) as real, c.tbNum as real, c.tbDen as real;
    var seconds, limit := ticks * (num / den), c.recordingTime.value as real / 1000000.0;
    assert seconds * den == ticks * num;
    assert TimeUp(c, tick) <==> ticks * num * 1000000.0 >= c.recordingTime.value as real * den;
  }

  lemma {:induction false} EmitFinishes(c: Config, s: State, next: Option<nat>, plan: Plan, i: int)
    requires c.tbNum > 0 && (next.None? ==> plan.total <= plan.previous)
    ensures Emit(c, s, next, plan, i).0.finished <==>
            s.finished || (i < plan.total && (next.Some? || s.lastFrame.Some?) &&
                           TimeUp(c, s.syncOpts + plan.total - i - 1))
    decreases plan.total - i
  {
    if i < plan.total && SourceOf(s, next, plan.previous, i).Some? {
      if TimeUp(c, s.syncOpts) {
        TimeUpLater(c, s.syncOpts, s.syncOpts + plan.total - i - 1);
      } else {
        var src := SourceOf(s, next, plan.previous, i).value;
        EmitFinishes(c, s.(syncOpts := s.syncOpts + 1, frameNumber := s.frameNumber + 1,
                           emitted := s.emitted + [Emission(src, s.syncOpts)]), next, plan, i + 1);
      }
    }
  }

  /** A call marks the stream as finished exactly if the recording time is over by the
      last frame it plans and has a picture for. */
  lemma FinishesIff(c: Config, s: State, next: Option<Picture>)
    requires Sensible(c, s) && c.tbNum > 0
    ensures var plan := MakePlan(c, s, next);
      VideoOut(c, s, next).finished <==>
        s.finished || (!TooLarge(c, s, plan) && plan.total > 0 && (next.Some? || s.lastFrame.Some?) &&
                       TimeUp(c, plan.syncOpts + plan.total - 1))
  {
    var plan := MakePlan(c, s, next);
    PlanSensible(c, s, next);
    EmitFinishes(c, Counted(s, next, plan), IdOf(next), plan, 0);
  }

  // ---------- the flush ----------

  /** Neither more than half of three numbers lie below it, nor above. */
  predicate Median(m: int, a: int, b: int, c: int) {
    m in {a, b, c} && (a <= m || b <= m) && (a <= m || c <= m) && (b <= m || c <= m) &&
    (a >= m || b >= m) && (a >= m || c >= m) && (b >= m || c >= m)
  }

  /** The flush repeats the last picture as often as pictures waited lately: the
      median of the last three calls. */
  lemma FlushIsMedian(c: Config, s: State)
    requires c.maxFrames.None?
    ensures var plan := MakePlan(c, s, None);
      Median(plan.total, s.nb0a, s.nb0b, s.nb0c) && plan.previous == plan.total && plan.syncOpts == s.syncOpts
  {
  }

  /** The history is that of the last three calls, skipped ones included. */
  lemma HistoryShifts(c: Config, s: State, next: Option<Picture>)
    ensures var s' := VideoOut(c, s, next);
      s'.nb0a == MakePlan(c, s, next).previous && s'.nb0b == s.nb0a && s'.nb0c == s.nb0b
  {
    EmitFrame(c, Counted(s, next, MakePlan(c, s, next)), IdOf(next), MakePlan(c, s, next), 0);
  }

  /** A call is given up exactly if it has frames to duplicate and plans more than
      thirty times the error threshold; it writes nothing then. */
  lemma SkipsIff(c: Config, s: State, p: Picture)
    requires Sensible(c, s)
    ensures var plan, s' := MakePlan(c, s, Some(p)), VideoOut(c, s, Some(p));
      TooLarge(c, s, plan) <==>
        plan.total as real > 30.0 * c.errorThreshold &&
        ((plan.previous > 0 && s.lastDroped && plan.total > plan.previous && plan.total > 2) ||
         (plan.previous > 0 && s.lastDroped && plan.total == plan.previous && plan.total > 1) ||
         (!(plan.previous > 0 && s.lastDroped) && plan.total > plan.previous && plan.total > 1) ||
         (!(plan.previous > 0 && s.lastDroped) && plan.total == plan.previous && plan.total > 0))
    ensures var plan := MakePlan(c, s, Some(p)); TooLarge(c, s, plan) ==> VideoOut(c, s, Some(p)).emitted == s.emitted
  {
    PlanSensible(c, s, Some(p));
  }
}
