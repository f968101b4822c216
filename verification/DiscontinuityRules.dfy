/** When timestamps are unwrapped, moved or dropped, in terms of the times alone. */
module DiscontinuityRules {
  import opened Discontinuity
  import opened Rounding
  import opened Timestamps

  // ---------- wrap correction ----------

  /** Doubling `n` times. */
  lemma {:induction false} PeriodDoubles(n: nat)
    ensures Pow2(0) == 1 && Pow2(n + 1) == 2 * Pow2(n) > 0
  {
    if n > 0 {
      PeriodDoubles(n - 1);
    }
  }

  /** While correction is pending, a timestamp more than half a period after the
      start is moved back by one period, and no other is moved. */
  lemma UnwrapIs(c: Config, sc: StreamConfig, st: StreamState, p: Packet)
    requires ValidStream(sc) && !st.wrapCorrectionDone && c.startTime != AV_NOPTS_VALUE && sc.wrapBits < 64
    ensures var half, u, start := Pow2(sc.wrapBits - 1), Unwrap(c, sc, st, p), ToTicks(sc, c.startTime);
      Abs(Time(sc, start) - c.startTime as real) <= sc.tick / 2.0 &&
      u.pts == (if p.pts != AV_NOPTS_VALUE && p.pts - start > half then p.pts - 2 * half else p.pts) &&
      u.dts == (if p.dts != AV_NOPTS_VALUE && p.dts - start > half then p.dts - 2 * half else p.dts)
  {
    PeriodDoubles(sc.wrapBits - 1);
    TickError(sc, c.startTime);
  }

  /** Correction ends with the first packet none of whose timestamps is moved; a
      stream that is done, of a file without start time, or without wrap is left alone. */
  lemma WrapEnds(c: Config, sc: StreamConfig, st: StreamState, p: Packet)
    requires ValidStream(sc)
    ensures !st.wrapCorrectionDone && c.startTime != AV_NOPTS_VALUE && sc.wrapBits < 64 ==>
              (WrapDone(c, sc, st, p) <==> Unwrap(c, sc, st, p) == p)
    ensures st.wrapCorrectionDone || c.startTime == AV_NOPTS_VALUE || sc.wrapBits >= 64 ==>
              Unwrap(c, sc, st, p) == p && WrapDone(c, sc, st, p) == st.wrapCorrectionDone
  {
  }

  lemma {:induction false} LeastStartIs(starts: seq<int>, n: nat)
    requires n <= |starts|
    ensures var least := LeastStart(starts, n);
      (forall i :: 0 <= i < n ==> least <= starts[i]) && least <= INT64_MAX &&
      (least == INT64_MAX || exists i :: 0 <= i < n && starts[i] == least)
  {
    if n > 0 {
      LeastStartIs(starts, n - 1);
    }
  }

  /** The offset is corrected once, from the file's start to the earliest start of
      the enabled streams, when that is later. */
  lemma StartIsCorrected(c: Config, sc: StreamConfig, f: FileState, st: StreamState)
    ensures var least, o := LeastStart(c.streamStarts, |c.streamStarts|), StartOffset(c, sc, f, st);
      if !st.wrapCorrectionDone && c.startTime != AV_NOPTS_VALUE && sc.wrapBits < 64 &&
         st.nextDts == AV_NOPTS_VALUE && f.tsOffset == -c.startTime && c.tsDiscont && least > c.startTime
      then o == -least && o != -c.startTime else o == f.tsOffset
  {
  }

  // ---------- jumps ----------

  /** A packet's time, rounded to microseconds as the program does. */
  ghost predicate Micros(sc: StreamConfig, t: int, us: int) {
    Abs(Time(sc, t) - us as real) <= 0.5 && us == ToUs(sc, t)
  }

  /** A packet jumps exactly if its time is off what it is measured against by more
      than the threshold, or, where there is a prediction, more than a tenth of a
      second before what was decoded last; the jump is then all of the difference. */
  lemma JumpIff(c: Config, sc: StreamConfig, f: FileState, st: StreamState, dts: int, us: int)
    requires sc.audioOrVideo && Set(dts) && !c.copyTs && c.tsDiscont && Micros(sc, dts, us)
    ensures var delta, limit := us - Reference(f, st), c.deltaThreshold * 1000000.0;
      var off := delta as real < -limit || delta as real > limit;
      if Set(st.nextDts) then
        Jump(c, sc, f, st, dts) == if off || us + 100000 < st.pts || us + 100000 < st.dts then delta else 0
      else Jump(c, sc, f, st, dts) == if Set(f.lastTs) && off then delta else 0
  {
  }

  /** Data and subtitle packets, copied timestamps and packets without dts never jump. */
  lemma NoJump(c: Config, sc: StreamConfig, f: FileState, st: StreamState, dts: int)
    ensures !sc.audioOrVideo || dts == AV_NOPTS_VALUE || c.copyTs || !c.tsDiscont ==> Jump(c, sc, f, st, dts) == 0
  {
  }

  /** Where timestamps cannot jump, one is kept exactly if it is within the error
      threshold of the prediction; nothing is dropped without a prediction. */
  lemma KeptIff(c: Config, sc: StreamConfig, st: StreamState, p: Packet)
    requires sc.audioOrVideo && Set(p.dts) && !c.copyTs && !c.tsDiscont && Set(st.nextDts)
    ensures var limit, d := c.errorThreshold * 1000000.0, (ToUs(sc, p.dts) - st.nextDts) as real;
      DropInvalid(c, sc, st, p).dts == if -limit <= d <= limit then p.dts else AV_NOPTS_VALUE
    ensures var limit, d := c.errorThreshold * 1000000.0, (ToUs(sc, p.pts) - st.nextDts) as real;
      DropInvalid(c, sc, st, p).pts == if p.pts == AV_NOPTS_VALUE || -limit <= d <= limit then p.pts else AV_NOPTS_VALUE
  {
  }

  lemma NothingDropped(c: Config, sc: StreamConfig, st: StreamState, p: Packet)
    ensures !sc.audioOrVideo || !Set(p.dts) || c.copyTs || c.tsDiscont || !Set(st.nextDts) ==>
              DropInvalid(c, sc, st, p) == p
  {
  }

  /** The file remembers the time of the last packet that left with a dts. */
  lemma LastIsRemembered(c: Config, sc: StreamConfig, f: FileState, st: StreamState, p: Packet)
    requires ValidStream(sc)
    ensures var o := Rebase(c, sc, f, st, p);
      if o.p.dts != AV_NOPTS_VALUE then Abs(Time(sc, o.p.dts) - o.f.lastTs as real) <= 0.5 else o.f.lastTs == f.lastTs
  {
  }
}
