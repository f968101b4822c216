/** Re-basing of input timestamps in ffmpeg: wrap correction, the file's
    offset, and the jumps of formats whose timestamps may be discontinuous. */
module Discontinuity {
  import opened Timestamps
  import opened Rounding

  datatype Packet = Packet(pts: int, dts: int)

  /** Settings: can the format's timestamps jump, are they copied untouched, the two thresholds
      in seconds, and the start times of the enabled streams in microseconds. */
  datatype Config = Config(
    tsDiscont: bool,
    copyTs: bool,
    deltaThreshold: real,
    errorThreshold: real,
    startTime: int,
    streamStarts: seq<int>)

  /** One tick of the stream lasts `tick` microseconds; timestamps wrap after `wrapBits` bits. */
  datatype StreamConfig = StreamConfig(audioOrVideo: bool, tick: real, wrapBits: nat)

  datatype FileState = FileState(tsOffset: int, lastTs: int)

  /** Timestamps in microseconds, as predicted by decoding. */
  datatype StreamState = StreamState(wrapCorrectionDone: bool, nextDts: int, pts: int, dts: int)

  predicate ValidStream(sc: StreamConfig) { sc.tick > 0.0 && sc.wrapBits >= 1 }

  function Pow2(n: nat): nat { if n == 0 then 1 else 2 * Pow2(n - 1) }

  function Max(a: int, b: int): int { if a > b then a else b }

  function Min(a: int, b: int): int { if a < b then a else b }

  // ---------- rescaling ----------

  function ToUs(sc: StreamConfig, t: int): int { RoundHalfAway(t as real * sc.tick) }

  function ToTicks(sc: StreamConfig, us: int): int
    requires sc.tick > 0.0
  {
    RoundHalfAway(us as real / sc.tick)
  }

  /** A shift of the timestamps that are set. */
  function Shift(p: Packet, ticks: int): Packet {
    Packet(if Set(p.pts) then p.pts + ticks else p.pts, if Set(p.dts) then p.dts + ticks else p.dts)
  }

  // ---------- wrap correction ----------

  function LeastStart(starts: seq<int>, i: nat): int
    requires i <= |starts|
  {
    if i == 0 then INT64_MAX else Min(LeastStart(starts, i - 1), starts[i - 1])
  }

  predicate WrapPending(c: Config, sc: StreamConfig, st: StreamState) {
    !st.wrapCorrectionDone && Set(c.startTime) && sc.wrapBits < 64
  }

  /** The offset once the start time is that of the enabled streams. */
  function StartOffset(c: Config, sc: StreamConfig, f: FileState, st: StreamState): int {
    if WrapPending(c, sc, st) && !Set(st.nextDts) && f.tsOffset == -c.startTime && c.tsDiscont &&
       LeastStart(c.streamStarts, |c.streamStarts|) > c.startTime
    then -LeastStart(c.streamStarts, |c.streamStarts|) else f.tsOffset
  }

  function UnwrapOne(c: Config, sc: StreamConfig, t: int): int
    requires ValidStream(sc)
  {
    if Set(t) && t > ToTicks(sc, c.startTime) + Pow2(sc.wrapBits - 1) then t - Pow2(sc.wrapBits) else t
  }

  function Unwrap(c: Config, sc: StreamConfig, st: StreamState, p: Packet): Packet
    requires ValidStream(sc)
  {
    if WrapPending(c, sc, st) then Packet(UnwrapOne(c, sc, p.pts), UnwrapOne(c, sc, p.dts)) else p
  }

  function WrapDone(c: Config, sc: StreamConfig, st: StreamState, p: Packet): bool
    requires ValidStream(sc)
  {
    if WrapPending(c, sc, st) then Unwrap(c, sc, st, p) == p else st.wrapCorrectionDone
  }

  // ---------- corrections ----------

  predicate Beyond(delta: int, threshold: real) {
    delta as real < -threshold * AV_TIME_BASE as real || delta as real > threshold * AV_TIME_BASE as real
  }

  /** The jump to take out of the file's timestamps, 0 when there is none. */
  function Jump(c: Config, sc: StreamConfig, f: FileState, st: StreamState, dts: int): int {
    if !sc.audioOrVideo || !Set(dts) || c.copyTs || !c.tsDiscont then 0
    else if !Set(st.nextDts) then
      if Set(f.lastTs) && Beyond(ToUs(sc, dts) - f.lastTs, c.deltaThreshold) then ToUs(sc, dts) - f.lastTs else 0
    else
      var delta := ToUs(sc, dts) - st.nextDts;
      if Beyond(delta, c.deltaThreshold) || ToUs(sc, dts) + AV_TIME_BASE / 10 < Max(st.pts, st.dts) then delta else 0
  }

  /** Formats without jumps: timestamps far off the prediction are dropped. */
  function DropInvalid(c: Config, sc: StreamConfig, st: StreamState, p: Packet): Packet {
    if !sc.audioOrVideo || !Set(p.dts) || c.copyTs || c.tsDiscont || !Set(st.nextDts) then p
    else
      Packet(if Set(p.pts) && Beyond(ToUs(sc, p.pts) - st.nextDts, c.errorThreshold) then AV_NOPTS_VALUE else p.pts,
             if Beyond(ToUs(sc, p.dts) - st.nextDts, c.errorThreshold) then AV_NOPTS_VALUE else p.dts)
  }

  /** What becomes of a packet: its new timestamps, the file, the jump taken out. */
  datatype Outcome = Outcome(p: Packet, f: FileState, wrapCorrectionDone: bool, jump: int)

  function Rebase(c: Config, sc: StreamConfig, f: FileState, st: StreamState, p: Packet): Outcome
    requires ValidStream(sc)
  {
    var offset := StartOffset(c, sc, f, st);
    var shifted := Shift(Unwrap(c, sc, st, p), ToTicks(sc, offset));
    var jump := Jump(c, sc, f, st, shifted.dts);
    var landed := if jump != 0 then Shift(shifted, -ToTicks(sc, jump)) else shifted;
    var out := DropInvalid(c, sc, st, landed);
    Outcome(out,
            FileState(offset - jump, if Set(out.dts) then ToUs(sc, out.dts) else f.lastTs),
            WrapDone(c, sc, st, p), jump)
  }

  // ---------- the objects ----------

  class InputStream {
    const sc: StreamConfig
    var wrapCorrectionDone: bool
    var nextDts: int
    var pts: int
    var dts: int

    ghost function Contents(): StreamState
      reads this
    {
      StreamState(wrapCorrectionDone, nextDts, pts, dts)
    }

    constructor (sc: StreamConfig)
      ensures this.sc == sc && Contents() == StreamState(false, AV_NOPTS_VALUE, AV_NOPTS_VALUE, AV_NOPTS_VALUE)
    {
      this.sc := sc;
      wrapCorrectionDone, nextDts, pts, dts := false, AV_NOPTS_VALUE, AV_NOPTS_VALUE, AV_NOPTS_VALUE;
    }
  }

  class InputFile {
    const c: Config
    var tsOffset: int
    var lastTs: int

    ghost function Contents(): FileState
      reads this
    {
      FileState(tsOffset, lastTs)
    }

    constructor (c: Config, tsOffset: int)
      ensures this.c == c && Contents() == FileState(tsOffset, AV_NOPTS_VALUE)
    {
      this.c := c;
      this.tsOffset := tsOffset;
      lastTs := AV_NOPTS_VALUE;
    }

    /** The timestamp part of process_input, for one packet of one stream. */
    method ProcessInput(ist: InputStream, pkt: Packet) returns (out: Packet)
      requires ValidStream(ist.sc)
      modifies this, ist`wrapCorrectionDone
      ensures var o := Rebase(c, ist.sc, old(Contents()), old(ist.Contents()), pkt);
        out == o.p && Contents() == o.f && ist.wrapCorrectionDone == o.wrapCorrectionDone
    {
      out := CorrectWrap(ist, pkt);
      out := Shift(out, ToTicks(ist.sc, tsOffset));
      if ist.sc.audioOrVideo && Set(out.dts) && !Set(ist.nextDts) && !c.copyTs && c.tsDiscont && Set(lastTs) {
        var delta := ToUs(ist.sc, out.dts) - lastTs;
        if Beyond(delta, c.deltaThreshold) {
          out := TakeOut(ist, out, delta);
        }
      } else if ist.sc.audioOrVideo && Set(out.dts) && Set(ist.nextDts) && !c.copyTs {
        out := FollowPrediction(ist, out);
      }
      if Set(out.dts) {
        lastTs := ToUs(ist.sc, out.dts);
      }
    }

    method CorrectWrap(ist: InputStream, pkt: Packet) returns (p: Packet)
      requires ValidStream(ist.sc)
      modifies this`tsOffset, ist`wrapCorrectionDone
      ensures p == Unwrap(c, ist.sc, old(ist.Contents()), pkt)
      ensures tsOffset == StartOffset(c, ist.sc, old(Contents()), old(ist.Contents()))
      ensures ist.wrapCorrectionDone == WrapDone(c, ist.sc, old(ist.Contents()), pkt)
    {
      p := pkt;
      if !ist.wrapCorrectionDone && Set(c.startTime) && ist.sc.wrapBits < 64 {
        if !Set(ist.nextDts) && tsOffset == -c.startTime && c.tsDiscont {
          var newStartTime := INT64_MAX;
          for i := 0 to |c.streamStarts|
            invariant newStartTime == LeastStart(c.streamStarts, i)
          {
            newStartTime := Min(newStartTime, c.streamStarts[i]);
          }
          if newStartTime > c.startTime {
            tsOffset := -newStartTime;
          }
        }
        var stime := ToTicks(ist.sc, c.startTime);
        ist.wrapCorrectionDone := true;
        if Set(p.dts) && p.dts > stime + Pow2(ist.sc.wrapBits - 1) {
          p := p.(dts := p.dts - Pow2(ist.sc.wrapBits));
          ist.wrapCorrectionDone := false;
        }
        if Set(p.pts) && p.pts > stime + Pow2(ist.sc.wrapBits - 1) {
          p := p.(pts := p.pts - Pow2(ist.sc.wrapBits));
          ist.wrapCorrectionDone := false;
        }
        Pow2Positive(ist.sc.wrapBits);
      }
    }

    /** Moves a jump of `delta` microseconds from the packet into the file's offset. */
    method TakeOut(ist: InputStream, p: Packet, delta: int) returns (out: Packet)
      requires ValidStream(ist.sc)
      modifies this`tsOffset
      ensures tsOffset == old(tsOffset) - delta
      ensures out == if delta != 0 then Shift(p, -ToTicks(ist.sc, delta)) else p
    {
      tsOffset := tsOffset - delta;
      ZeroTicks(ist.sc);
      out := Shift(p, -ToTicks(ist.sc, delta));
    }

    method FollowPrediction(ist: InputStream, p: Packet) returns (out: Packet)
      requires ValidStream(ist.sc) && ist.sc.audioOrVideo && Set(p.dts) && Set(ist.nextDts) && !c.copyTs
      modifies this`tsOffset
      ensures var jump := Jump(c, ist.sc, old(Contents()), ist.Contents(), p.dts);
        tsOffset == old(tsOffset) - jump &&
        out == DropInvalid(c, ist.sc, ist.Contents(), if jump != 0 then Shift(p, -ToTicks(ist.sc, jump)) else p)
    {
      out := p;
      var pktDts := ToUs(ist.sc, p.dts);
      var delta := pktDts - ist.nextDts;
      if c.tsDiscont {
        if Beyond(delta, c.deltaThreshold) || pktDts + AV_TIME_BASE / 10 < Max(ist.pts, ist.dts) {
          out := TakeOut(ist, p, delta);
        }
      } else {
        if Beyond(delta, c.errorThreshold) {
          out := out.(dts := AV_NOPTS_VALUE);
        }
        if Set(out.pts) {
          var pktPts := ToUs(ist.sc, out.pts);
          delta := pktPts - ist.nextDts;
          if Beyond(delta, c.errorThreshold) {
            out := out.(pts := AV_NOPTS_VALUE);
          }
        }
      }
    }
  }

  lemma Pow2Positive(n: nat)
    ensures Pow2(n) > 0
  {
  }

  lemma ZeroTicks(sc: StreamConfig)
    requires sc.tick > 0.0
    ensures ToTicks(sc, 0) == 0
  {
    assert 0.0 / sc.tick == 0.0;
  }

  // ---------- accuracy of rescaling ----------

  /** The exact time of a timestamp, in microseconds. */
  function Time(sc: StreamConfig, t: int): real { t as real * sc.tick }

  lemma Distributes(x: real, y: real, k: real)
    ensures (x + y) * k == x * k + y * k && (x - y) * k == x * k - y * k
  {
  }

  lemma HalfTick(e: real, k: real)
    requires Abs(e) <= 0.5 && k > 0.0
    ensures Abs(e * k) <= k / 2.0
  {
    assert e <= 0.5 && -e <= 0.5;
    assert e * k <= 0.5 * k by { Scale(e, 0.5, k); }
    assert -e * k <= 0.5 * k by { Scale(-e, 0.5, k); }
  }

  lemma Scale(x: real, y: real, k: real)
    requires x <= y && k > 0.0
    ensures x * k <= y * k
  {
    assert (y - x) * k >= 0.0;
    Distributes(y, x, k);
  }

  /** A shift by a rescaled time moves a timestamp by that time, give or take half a tick. */
  lemma TickError(sc: StreamConfig, us: int)
    requires sc.tick > 0.0
    ensures Abs(Time(sc, ToTicks(sc, us)) - us as real) <= sc.tick / 2.0
  {
    var q := us as real / sc.tick;
    var n := ToTicks(sc, us);
    assert q * sc.tick == us as real;
    HalfTick(n as real - q, sc.tick);
    Distributes(n as real, q, sc.tick);
  }

  /** Whole ticks are rescaled without error. */
  lemma WholeTicks(sc: StreamConfig, us: int, n: int)
    requires sc.tick > 0.0 && us as real == Time(sc, n)
    ensures ToTicks(sc, us) == n
  {
    var q := us as real / sc.tick;
    assert q * sc.tick == n as real * sc.tick;
    Distributes(q, n as real, sc.tick);
    assert (q - n as real) * sc.tick == 0.0;
    assert q == n as real;
  }

  lemma TimeShift(sc: StreamConfig, t: int, ticks: int)
    ensures Time(sc, t + ticks) == Time(sc, t) + Time(sc, ticks)
    ensures Time(sc, t - ticks) == Time(sc, t) - Time(sc, ticks)
  {
    Distributes(t as real, ticks as real, sc.tick);
  }

  // ---------- what one packet leaves with ----------

  /** A packet that can be re-based: audio or video, of a format with jumps, and
      with a decode timestamp that stays set through both shifts. */
  ghost predicate Rebasable(c: Config, sc: StreamConfig, f: FileState, st: StreamState, p: Packet) {
    ValidStream(sc) && sc.audioOrVideo && c.tsDiscont && !c.copyTs && c.deltaThreshold >= 0.0 &&
    Set(Unwrap(c, sc, st, p).dts) && Set(Shifted(c, sc, f, st, p).dts) && Set(Rebase(c, sc, f, st, p).p.dts)
  }

  ghost function Shifted(c: Config, sc: StreamConfig, f: FileState, st: StreamState, p: Packet): Packet
    requires ValidStream(sc)
  {
    Shift(Unwrap(c, sc, st, p), ToTicks(sc, StartOffset(c, sc, f, st)))
  }

  /** The decode time is the wrap-corrected one plus the file's new offset, up to
      the rounding of two shifts. */
  lemma LandsAtOffset(c: Config, sc: StreamConfig, f: FileState, st: StreamState, p: Packet)
    requires Rebasable(c, sc, f, st, p)
    ensures var o := Rebase(c, sc, f, st, p);
      Abs(Time(sc, o.p.dts) - (Time(sc, Unwrap(c, sc, st, p).dts) + o.f.tsOffset as real)) <= sc.tick
  {
    var o, w, offset := Rebase(c, sc, f, st, p), Unwrap(c, sc, st, p), StartOffset(c, sc, f, st);
    TickError(sc, offset);
    TickError(sc, o.jump);
    TimeShift(sc, w.dts, ToTicks(sc, offset));
    TimeShift(sc, w.dts + ToTicks(sc, offset), ToTicks(sc, o.jump));
  }

  /** With offsets and jumps of whole ticks there is no rounding at all. */
  lemma LandsExactly(c: Config, sc: StreamConfig, f: FileState, st: StreamState, p: Packet,
                     offsetTicks: int, jumpTicks: int)
    requires Rebasable(c, sc, f, st, p)
    requires StartOffset(c, sc, f, st) as real == Time(sc, offsetTicks)
    requires Rebase(c, sc, f, st, p).jump as real == Time(sc, jumpTicks)
    ensures var o := Rebase(c, sc, f, st, p);
      Time(sc, o.p.dts) == Time(sc, Unwrap(c, sc, st, p).dts) + o.f.tsOffset as real
  {
    var o, w, offset := Rebase(c, sc, f, st, p), Unwrap(c, sc, st, p), StartOffset(c, sc, f, st);
    WholeTicks(sc, offset, offsetTicks);
    WholeTicks(sc, o.jump, jumpTicks);
    TimeShift(sc, w.dts, offsetTicks);
    TimeShift(sc, w.dts + offsetTicks, jumpTicks);
  }

  /** Presentation and decode timestamps are moved by the same amount. */
  lemma StampsMoveTogether(c: Config, sc: StreamConfig, f: FileState, st: StreamState, p: Packet)
    requires Rebasable(c, sc, f, st, p)
    requires Set(Unwrap(c, sc, st, p).pts) && Set(Shifted(c, sc, f, st, p).pts)
    ensures var o, w := Rebase(c, sc, f, st, p), Unwrap(c, sc, st, p); o.p.pts - w.pts == o.p.dts - w.dts
  {
  }

  /** The time a packet is measured against: the decoder's prediction, or the
      file's last timestamp for a stream that has none yet. */
  ghost function Reference(f: FileState, st: StreamState): int {
    if Set(st.nextDts) then st.nextDts else f.lastTs
  }

  /** Every packet with a reference leaves within the threshold of it; after a
      jump it leaves at the reference itself, up to rounding. */
  lemma LandsNearReference(c: Config, sc: StreamConfig, f: FileState, st: StreamState, p: Packet)
    requires Rebasable(c, sc, f, st, p) && Set(Reference(f, st))
    ensures var o := Rebase(c, sc, f, st, p);
      Abs(Time(sc, o.p.dts) - Reference(f, st) as real) <=
        0.5 + if o.jump != 0 then sc.tick / 2.0 else c.deltaThreshold * AV_TIME_BASE as real
  {
    var o, shifted := Rebase(c, sc, f, st, p), Shifted(c, sc, f, st, p);
    var us := ToUs(sc, shifted.dts);
    assert Abs(Time(sc, shifted.dts) - us as real) <= 0.5;
    if o.jump != 0 {
      assert o.jump == us - Reference(f, st);
      TickError(sc, o.jump);
      TimeShift(sc, shifted.dts, ToTicks(sc, o.jump));
    } else {
      assert us == Reference(f, st) || !Beyond(us - Reference(f, st), c.deltaThreshold);
    }
  }

  /** Formats without jumps never move the offset, and what keeps a decode
      timestamp is within the error threshold of the prediction. */
  lemma OtherFormats(c: Config, sc: StreamConfig, f: FileState, st: StreamState, p: Packet)
    requires ValidStream(sc) && !c.tsDiscont
    ensures Rebase(c, sc, f, st, p).f.tsOffset == f.tsOffset
    ensures var o := Rebase(c, sc, f, st, p);
      sc.audioOrVideo && !c.copyTs && Set(st.nextDts) && Set(o.p.dts) ==>
        !Beyond(ToUs(sc, o.p.dts) - st.nextDts, c.errorThreshold) &&
        (Set(o.p.pts) ==> !Beyond(ToUs(sc, o.p.pts) - st.nextDts, c.errorThreshold))
  {
  }

  // ---------- whole runs ----------

  /** A packet of some stream, and what decoding has predicted for that stream by then. */
  datatype Arrival = Arrival(sc: StreamConfig, st: StreamState, p: Packet)

  ghost predicate ValidArrivals(arrivals: seq<Arrival>) { forall a <- arrivals :: ValidStream(a.sc) }

  ghost function Run(c: Config, f: FileState, arrivals: seq<Arrival>): FileState
    requires ValidArrivals(arrivals)
  {
    if arrivals == [] then f else
    var n := |arrivals| - 1;
    var g := Run(c, f, arrivals[..n]);
    Rebase(c, arrivals[n].sc, g, arrivals[n].st, arrivals[n].p).f
  }

  /** Jumps taken out during a run, in microseconds. */
  ghost function Jumps(c: Config, f: FileState, arrivals: seq<Arrival>): int
    requires ValidArrivals(arrivals)
  {
    if arrivals == [] then 0 else
    var n := |arrivals| - 1;
    var g, a := Run(c, f, arrivals[..n]), arrivals[n];
    Jumps(c, f, arrivals[..n]) + Rebase(c, a.sc, g, a.st, a.p).jump
  }

  /** Corrections of the start time during a run. */
  ghost function StartCorrections(c: Config, f: FileState, arrivals: seq<Arrival>): int
    requires ValidArrivals(arrivals)
  {
    if arrivals == [] then 0 else
    var n := |arrivals| - 1;
    var g, a := Run(c, f, arrivals[..n]), arrivals[n];
    StartCorrections(c, f, arrivals[..n]) + StartOffset(c, a.sc, g, a.st) - g.tsOffset
  }

  lemma {:induction false} OffsetLedger(c: Config, f: FileState, arrivals: seq<Arrival>)
    requires ValidArrivals(arrivals)
    ensures Run(c, f, arrivals).tsOffset == f.tsOffset + StartCorrections(c, f, arrivals) - Jumps(c, f, arrivals)
  {
    if arrivals != [] {
      OffsetLedger(c, f, arrivals[..|arrivals| - 1]);
    }
  }

  /** How far the packet of a jump arrives from the time it is measured against. */
  ghost function Stray(c: Config, g: FileState, a: Arrival): real
    requires ValidStream(a.sc)
  {
    if Rebase(c, a.sc, g, a.st, a.p).jump == 0 then 0.0
    else Time(a.sc, Shifted(c, a.sc, g, a.st, a.p).dts) - Reference(g, a.st) as real
  }

  /** What the packets of a run have strayed by at their jumps. */
  ghost function Strays(c: Config, f: FileState, arrivals: seq<Arrival>): real
    requires ValidArrivals(arrivals)
  {
    if arrivals == [] then 0.0 else
    var n := |arrivals| - 1;
    Strays(c, f, arrivals[..n]) + Stray(c, Run(c, f, arrivals[..n]), arrivals[n])
  }

  ghost function JumpCount(c: Config, f: FileState, arrivals: seq<Arrival>): nat
    requires ValidArrivals(arrivals)
  {
    if arrivals == [] then 0 else
    var n := |arrivals| - 1;
    var g, a := Run(c, f, arrivals[..n]), arrivals[n];
    JumpCount(c, f, arrivals[..n]) + if Rebase(c, a.sc, g, a.st, a.p).jump == 0 then 0 else 1
  }

  lemma JumpIsStray(c: Config, g: FileState, a: Arrival)
    requires ValidStream(a.sc)
    ensures var jump := Rebase(c, a.sc, g, a.st, a.p).jump;
      Abs(jump as real - Stray(c, g, a)) <= if jump == 0 then 0.0 else 0.5
  {
    var dts := Shifted(c, a.sc, g, a.st, a.p).dts;
    assert Abs(Time(a.sc, dts) - ToUs(a.sc, dts) as real) <= 0.5;
  }

  lemma {:induction false} JumpsAreStrays(c: Config, f: FileState, arrivals: seq<Arrival>)
    requires ValidArrivals(arrivals)
    ensures Abs(Jumps(c, f, arrivals) as real - Strays(c, f, arrivals)) <= 0.5 * JumpCount(c, f, arrivals) as real
  {
    hide Rebase, Stray;
    if arrivals != [] {
      var n := |arrivals| - 1;
      JumpsAreStrays(c, f, arrivals[..n]);
      JumpIsStray(c, Run(c, f, arrivals[..n]), arrivals[n]);
    }
  }

  ghost predicate RebasableAt(c: Config, f: FileState, arrivals: seq<Arrival>, i: nat)
    requires ValidArrivals(arrivals) && i < |arrivals|
  {
    Rebasable(c, arrivals[i].sc, Run(c, f, arrivals[..i]), arrivals[i].st, arrivals[i].p)
  }

  /** The decode time packet i arrives with, wrap-corrected. */
  ghost function TimeIn(c: Config, arrivals: seq<Arrival>, i: nat): real
    requires ValidArrivals(arrivals) && i < |arrivals|
  {
    Time(arrivals[i].sc, Unwrap(c, arrivals[i].sc, arrivals[i].st, arrivals[i].p).dts)
  }

  /** The decode time packet i leaves with. */
  ghost function TimeOut(c: Config, f: FileState, arrivals: seq<Arrival>, i: nat): real
    requires ValidArrivals(arrivals) && i < |arrivals|
  {
    Time(arrivals[i].sc, Rebase(c, arrivals[i].sc, Run(c, f, arrivals[..i]), arrivals[i].st, arrivals[i].p).p.dts)
  }

  /** In a run of packets of any streams every one leaves at its own time plus
      the file's first offset, less the jumps taken out of the packets up to it. */
  lemma RunLandsAtOffset(c: Config, f: FileState, arrivals: seq<Arrival>, i: nat)
    requires ValidArrivals(arrivals) && i < |arrivals| && RebasableAt(c, f, arrivals, i)
    ensures var done := arrivals[..i + 1];
      Abs(TimeOut(c, f, arrivals, i) -
          (TimeIn(c, arrivals, i) + (f.tsOffset + StartCorrections(c, f, done) - Jumps(c, f, done)) as real))
        <= arrivals[i].sc.tick
  {
    hide Rebase, Unwrap, Rebasable, Jumps, StartCorrections;
    OffsetLedger(c, f, arrivals[..i + 1]);
    assert arrivals[..i + 1][..i] == arrivals[..i];
    LandsAtOffset(c, arrivals[i].sc, Run(c, f, arrivals[..i]), arrivals[i].st, arrivals[i].p);
  }

  /** What a run takes out of the packets' times is what packets have strayed by:
      beyond the tick of packet i, only half a microsecond a jump is lost. */
  lemma RunTakesOutStrays(c: Config, f: FileState, arrivals: seq<Arrival>, i: nat)
    requires ValidArrivals(arrivals) && i < |arrivals| && RebasableAt(c, f, arrivals, i)
    ensures var done := arrivals[..i + 1];
      Abs(TimeOut(c, f, arrivals, i) -
          (TimeIn(c, arrivals, i) + (f.tsOffset + StartCorrections(c, f, done)) as real - Strays(c, f, done)))
        <= arrivals[i].sc.tick + 0.5 * JumpCount(c, f, done) as real
  {
    hide RebasableAt, TimeIn, TimeOut, Jumps, Strays, StartCorrections, JumpCount;
    RunLandsAtOffset(c, f, arrivals, i);
    JumpsAreStrays(c, f, arrivals[..i + 1]);
  }

  /** Packets that leave the file at the same offset, of one stream or two, leave
      as far apart as they came, up to rounding. */
  lemma DistanceKept(c: Config, sc1: StreamConfig, f1: FileState, st1: StreamState, p1: Packet,
                     sc2: StreamConfig, f2: FileState, st2: StreamState, p2: Packet)
    requires Rebasable(c, sc1, f1, st1, p1) && Rebasable(c, sc2, f2, st2, p2)
    requires Rebase(c, sc1, f1, st1, p1).f.tsOffset == Rebase(c, sc2, f2, st2, p2).f.tsOffset
    ensures var o1, o2 := Rebase(c, sc1, f1, st1, p1), Rebase(c, sc2, f2, st2, p2);
      Abs((Time(sc2, o2.p.dts) - Time(sc1, o1.p.dts)) -
          (Time(sc2, Unwrap(c, sc2, st2, p2).dts) - Time(sc1, Unwrap(c, sc1, st1, p1).dts))) <= sc1.tick + sc2.tick
  {
    hide Rebase, Unwrap, Rebasable;
    LandsAtOffset(c, sc1, f1, st1, p1);
    LandsAtOffset(c, sc2, f2, st2, p2);
  }

  /** Two packets of a run change their distance by just the jumps and the start
      correction between them; without any it is kept, across streams as well. */
  lemma RunDistance(c: Config, f: FileState, arrivals: seq<Arrival>, i: nat, j: nat)
    requires ValidArrivals(arrivals) && i <= j < |arrivals|
    requires RebasableAt(c, f, arrivals, i) && RebasableAt(c, f, arrivals, j)
    ensures var jumps := Jumps(c, f, arrivals[..j + 1]) - Jumps(c, f, arrivals[..i + 1]);
      var corrections := StartCorrections(c, f, arrivals[..j + 1]) - StartCorrections(c, f, arrivals[..i + 1]);
      Abs((TimeOut(c, f, arrivals, j) - TimeOut(c, f, arrivals, i)) -
          (TimeIn(c, arrivals, j) - TimeIn(c, arrivals, i) + (corrections - jumps) as real))
        <= arrivals[i].sc.tick + arrivals[j].sc.tick
  {
    hide RebasableAt, TimeIn, TimeOut, Jumps, StartCorrections;
    RunLandsAtOffset(c, f, arrivals, i);
    RunLandsAtOffset(c, f, arrivals, j);
  }
}
