/** ffmpeg's video output step: every input frame is dropped, written once or
    duplicated so that the output clock follows the input timestamps. */
module VideoSync {
  import opened Wrappers
  import opened Rounding

  datatype Format = VsCfr | Cfr | Vfr | Passthrough | Drop

  /** `maxFrames` and `recordingTime` (in microseconds) are `None` when unlimited;
      an encoder tick is `tbNum / tbDen` seconds. */
  datatype Config = Config(
    format: Format,
    maxFrames: Option<int>,
    dropThreshold: real,
    errorThreshold: real,
    recordingTime: Option<int>,
    firstPts: int,
    tbNum: int,
    tbDen: int)

  /** An input frame with its timestamp and duration in output ticks. */
  datatype Picture = Picture(id: nat, syncIpts: real, duration: real)

  /** A frame handed to the encoder. */
  datatype Emission = Emission(src: nat, pts: int)

  datatype State = State(
    syncOpts: int,
    frameNumber: int,
    lastDroped: bool,
    nb0a: int, nb0b: int, nb0c: int,       // last_nb0_frames, newest first
    lastFrame: Option<nat>,
    finished: bool,
    nbDrop: int,
    nbDup: int,
    emitted: seq<Emission>)

  function Min(a: int, b: int): int { if a < b then a else b }

  function Mid(a: int, b: int, c: int): int {
    if a < b then (if b < c then b else if a < c then c else a)
    else (if a < c then a else if b < c then c else b)
  }

  // ---------- how many frames to write ----------

  /** `total` frames, the first `previous` of them copies of the previous input. */
  datatype Plan = Plan(total: int, previous: int, syncOpts: int)

  /** A frame that starts before the output clock is cut at its front. */
  function Clip(c: Config, s: State, p: Picture): Picture {
    var delta0 := p.syncIpts - s.syncOpts as real;
    if delta0 < 0.0 && delta0 + p.duration > 0.0 && !c.format.Passthrough? && !c.format.Drop? then
      var cor := if -delta0 < p.duration then -delta0 else p.duration;
      Picture(p.id, p.syncIpts + cor, p.duration - cor)
    else p
  }

  function PlanConstantRate(c: Config, s: State, delta0: real, delta: real, syncOpts: int): Plan {
    if c.dropThreshold != 0.0 && delta < c.dropThreshold && s.frameNumber != 0 then Plan(0, 0, syncOpts)
    else if delta < -1.1 then Plan(0, 0, syncOpts)
    else if delta > 1.1 then
      Plan(RoundHalfEven(delta), if delta0 > 1.1 then RoundHalfEven(delta0 - 0.6) else 0, syncOpts)
    else Plan(1, 0, syncOpts)
  }

  function PlanPicture(c: Config, s: State, p: Picture): Plan {
    var delta := p.syncIpts - s.syncOpts as real + p.duration;
    var q := Clip(c, s, p);
    var delta0 := q.syncIpts - s.syncOpts as real;
    match c.format
    case VsCfr =>
      if s.frameNumber == 0 && delta - q.duration >= 0.5 then
        PlanConstantRate(c, s, 0.0, q.duration, RoundHalfEven(q.syncIpts))
      else PlanConstantRate(c, s, delta0, delta, s.syncOpts)
    case Cfr => PlanConstantRate(c, s, delta0, delta, s.syncOpts)
    case Vfr =>
      if delta <= -0.6 then Plan(0, 0, s.syncOpts)
      else if delta > 0.6 then Plan(1, 0, RoundHalfEven(q.syncIpts))
      else Plan(1, 0, s.syncOpts)
    case _ => Plan(1, 0, RoundHalfEven(q.syncIpts))
  }

  /** The plan of a call; without a picture the recent history is flushed. */
  function MakePlan(c: Config, s: State, next: Option<Picture>): Plan {
    var plan :=
      match next
      case None => var n := Mid(s.nb0a, s.nb0b, s.nb0c); Plan(n, n, s.syncOpts)
      case Some(p) => PlanPicture(c, s, p);
    var total := if c.maxFrames.Some? then Min(plan.total, c.maxFrames.value - s.frameNumber) else plan.total;
    Plan(total, Min(plan.previous, total), plan.syncOpts)
  }

  // ---------- counting and writing ----------

  function One(b: bool): int { if b then 1 else 0 }

  /** Planned frames that are neither a late first copy nor a first copy of the new frame. */
  function Extra(s: State, plan: Plan): int {
    plan.total - One(plan.previous != 0 && s.lastDroped) - One(plan.total > plan.previous)
  }

  predicate TooLarge(c: Config, s: State, plan: Plan) {
    Extra(s, plan) > 0 && plan.total as real > c.errorThreshold * 30.0
  }

  /** check_recording_time: the output clock has reached the recording time. */
  predicate TimeUp(c: Config, syncOpts: int) {
    c.recordingTime.Some? && (syncOpts - c.firstPts) * c.tbNum * 1000000 >= c.recordingTime.value * c.tbDen
  }

  function SourceOf(s: State, next: Option<nat>, previous: int, i: int): Option<nat> {
    if i < previous && s.lastFrame.Some? then s.lastFrame else next
  }

  /** Frames i to total - 1 of a plan, and whether all of them were written. */
  function Emit(c: Config, s: State, next: Option<nat>, plan: Plan, i: int): (State, bool)
    decreases plan.total - i
  {
    if i >= plan.total then (s, true) else
    match SourceOf(s, next, plan.previous, i)
    case None => (s, false)
    case Some(src) =>
      if TimeUp(c, s.syncOpts) then (s.(finished := true), false)
      else
        Emit(c, s.(syncOpts := s.syncOpts + 1, frameNumber := s.frameNumber + 1,
                   emitted := s.emitted + [Emission(src, s.syncOpts)]),
             next, plan, i + 1)
  }

  /** The state when the frames are about to be written. */
  function Counted(s: State, next: Option<Picture>, plan: Plan): State {
    s.(syncOpts := plan.syncOpts,
       nb0a := plan.previous, nb0b := s.nb0a, nb0c := s.nb0b,
       nbDrop := s.nbDrop + One(plan.previous == 0 && s.lastDroped),
       nbDup := s.nbDup + if Extra(s, plan) > 0 then Extra(s, plan) else 0,
       lastDroped := plan.total == plan.previous && next.Some?)
  }

  /** The state after "frame duplication too large, skipping". */
  function GivenUp(s: State, plan: Plan): State {
    s.(syncOpts := plan.syncOpts,
       nb0a := plan.previous, nb0b := s.nb0a, nb0c := s.nb0b,
       nbDrop := s.nbDrop + One(plan.previous == 0 && s.lastDroped) + 1)
  }

  function IdOf(next: Option<Picture>): Option<nat> {
    match next case None => None case Some(p) => Some(p.id)
  }

  function VideoOut(c: Config, s: State, next: Option<Picture>): State {
    var plan := MakePlan(c, s, next);
    if TooLarge(c, s, plan) then GivenUp(s, plan)
    else
      var (s', all) := Emit(c, Counted(s, next, plan), IdOf(next), plan, 0);
      if all then s'.(lastFrame := IdOf(next)) else s'
  }

  // ---------- the output stream object ----------

  class OutputStream {
    const c: Config
    var syncOpts: int
    var frameNumber: int
    var lastDroped: bool
    var lastNb0Frames: array<int>
    var lastFrame: Option<nat>
    var finished: bool
    var nbFramesDrop: int
    var nbFramesDup: int
    var emitted: seq<Emission>

    ghost predicate Valid()
      reads this
    {
      lastNb0Frames.Length == 3
    }

    ghost function Contents(): State
      requires Valid()
      reads this, lastNb0Frames
    {
      State(syncOpts, frameNumber, lastDroped, lastNb0Frames[0], lastNb0Frames[1], lastNb0Frames[2],
            lastFrame, finished, nbFramesDrop, nbFramesDup, emitted)
    }

    constructor (config: Config)
      ensures Valid() && fresh(lastNb0Frames) && c == config && Contents() == START
    {
      c := config;
      syncOpts, frameNumber, lastDroped, lastFrame, finished := 0, 0, false, None, false;
      nbFramesDrop, nbFramesDup, emitted := 0, 0, [];
      lastNb0Frames := new int[3](_ => 0);
    }

    method CheckRecordingTime() returns (ok: bool)
      requires Valid()
      modifies this`finished
      ensures ok == !TimeUp(c, syncOpts)
      ensures finished == (old(finished) || !ok)
    {
      if c.recordingTime.Some? &&
         (syncOpts - c.firstPts) * c.tbNum * 1000000 >= c.recordingTime.value * c.tbDen {
        finished := true;
        return false;
      }
      return true;
    }

    method DoVideoOut(nextPicture: Option<Picture>)
      requires Valid()
      modifies this, lastNb0Frames
      ensures Valid() && lastNb0Frames == old(lastNb0Frames)
      ensures Contents() == VideoOut(c, old(Contents()), nextPicture)
    {
      ghost var s, plan := Contents(), MakePlan(c, Contents(), nextPicture);
      var nbFrames, nb0Frames := PlanFrames(nextPicture);
      var tooLarge := CountFrames(nextPicture, nbFrames, nb0Frames, s, plan);
      if tooLarge {
        return;
      }
      var all := EmitFrames(IdOf(nextPicture), nbFrames, nb0Frames, plan);
      if all {
        lastFrame := IdOf(nextPicture);
      }
    }

    method PlanFrames(nextPicture: Option<Picture>) returns (nbFrames: int, nb0Frames: int)
      requires Valid()
      modifies this`syncOpts
      ensures Plan(nbFrames, nb0Frames, syncOpts) == MakePlan(c, old(Contents()), nextPicture)
    {
      if nextPicture.None? {
        nbFrames := Mid(lastNb0Frames[0], lastNb0Frames[1], lastNb0Frames[2]);
        nb0Frames := nbFrames;
      } else {
        nbFrames, nb0Frames := Decide(nextPicture.value);
      }
      if c.maxFrames.Some? {
        nbFrames := Min(nbFrames, c.maxFrames.value - frameNumber);
      }
      nb0Frames := Min(nb0Frames, nbFrames);
    }

    method CountFrames(nextPicture: Option<Picture>, nbFrames: int, nb0Frames: int, ghost s: State, ghost plan: Plan)
      returns (tooLarge: bool)
      requires Valid() && plan == Plan(nbFrames, nb0Frames, syncOpts) && Contents() == s.(syncOpts := plan.syncOpts)
      modifies this`nbFramesDrop, this`nbFramesDup, this`lastDroped, lastNb0Frames
      ensures tooLarge == TooLarge(c, s, plan)
      ensures !tooLarge ==> Contents() == Counted(s, nextPicture, plan)
      ensures tooLarge ==> Contents() == GivenUp(s, plan)
    {
      lastNb0Frames[2] := lastNb0Frames[1];
      lastNb0Frames[1] := lastNb0Frames[0];
      lastNb0Frames[0] := nb0Frames;

      if nb0Frames == 0 && lastDroped {
        nbFramesDrop := nbFramesDrop + 1;
      }
      if nbFrames > One(nb0Frames != 0 && lastDroped) + One(nbFrames > nb0Frames) {
        if nbFrames as real > c.errorThreshold * 30.0 {
          nbFramesDrop := nbFramesDrop + 1;
          return true;
        }
        nbFramesDup := nbFramesDup + (nbFrames - One(nb0Frames != 0 && lastDroped) - One(nbFrames > nb0Frames));
      }
      lastDroped := nbFrames == nb0Frames && nextPicture.Some?;
      return false;
    }

    method EmitFrames(nextPicture: Option<nat>, nbFrames: int, nb0Frames: int, ghost plan: Plan) returns (all: bool)
      requires Valid() && plan.total == nbFrames && plan.previous == nb0Frames
      modifies this`syncOpts, this`frameNumber, this`emitted, this`finished
      ensures (Contents(), all) == Emit(c, old(Contents()), nextPicture, plan, 0)
    {
      var i := 0;
      while i < nbFrames
        invariant Emit(c, Contents(), nextPicture, plan, i) == Emit(c, old(Contents()), nextPicture, plan, 0)
        decreases nbFrames - i
      {
        var inPicture := if i < nb0Frames && lastFrame.Some? then lastFrame else nextPicture;
        if inPicture.None? {
          return false;
        }
        var pts := syncOpts;
        var ok := CheckRecordingTime();
        if !ok {
          return false;
        }
        emitted := emitted + [Emission(inPicture.value, pts)];
        syncOpts := syncOpts + 1;
        frameNumber := frameNumber + 1;
        i := i + 1;
      }
      return true;
    }

    /** The rate decision for an input frame, before the limits. */
    method Decide(nextPicture: Picture) returns (nbFrames: int, nb0Frames: int)
      requires Valid()
      modifies this`syncOpts
      ensures Plan(nbFrames, nb0Frames, syncOpts) == PlanPicture(c, old(Contents()), nextPicture)
    {
      var syncIpts, duration := nextPicture.syncIpts, nextPicture.duration;
      var delta0 := syncIpts - syncOpts as real;
      var delta := delta0 + duration;
      nb0Frames := 0;
      nbFrames := 1;
      if delta0 < 0.0 && delta > 0.0 && c.format != Passthrough && c.format != Drop {
        var cor := if -delta0 < duration then -delta0 else duration;
        syncIpts := syncIpts + cor;
        duration := duration - cor;
        delta0 := delta0 + cor;
      }
      match c.format {
        case VsCfr =>
          if frameNumber == 0 && delta - duration >= 0.5 {
            delta := duration;
            delta0 := 0.0;
            syncOpts := RoundHalfEven(syncIpts);
          }
          nbFrames, nb0Frames := DecideConstantRate(delta0, delta);
        case Cfr => nbFrames, nb0Frames := DecideConstantRate(delta0, delta);
        case Vfr =>
          if delta <= -0.6 {
            nbFrames := 0;
          } else if delta > 0.6 {
            syncOpts := RoundHalfEven(syncIpts);
          }
        case _ => syncOpts := RoundHalfEven(syncIpts);
      }
    }

    method DecideConstantRate(delta0: real, delta: real) returns (nbFrames: int, nb0Frames: int)
      requires Valid()
      ensures Plan(nbFrames, nb0Frames, syncOpts) == PlanConstantRate(c, Contents(), delta0, delta, syncOpts)
    {
      nb0Frames := 0;
      nbFrames := 1;
      if c.dropThreshold != 0.0 && delta < c.dropThreshold && frameNumber != 0 {
        nbFrames := 0;
      } else if delta < -1.1 {
        nbFrames := 0;
      } else if delta > 1.1 {
        nbFrames := RoundHalfEven(delta);
        if delta0 > 1.1 {
          nb0Frames := RoundHalfEven(delta0 - 0.6);
        }
      }
    }
  }

  /** A fresh output stream. */
  const START := State(0, 0, false, 0, 0, 0, None, false, 0, 0, [])
}
