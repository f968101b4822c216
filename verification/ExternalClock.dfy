/** ffplay's external clock: it runs at an adjustable speed, can be paused, and
    is set anew at every change. Times are in seconds; an unset time is `None`. */
module ExternalClock {
  import opened PacketQueue
  import opened Rounding
  import opened Wrappers

  const EXTERNAL_CLOCK_SPEED_MIN: real := 0.900
  const EXTERNAL_CLOCK_SPEED_MAX: real := 1.010
  const EXTERNAL_CLOCK_SPEED_STEP: real := 0.001
  const AV_NOSYNC_THRESHOLD: real := 10.0

  // ---------- one clock ----------

  datatype ClockState = ClockState(
    pts: Option<real>,
    ptsDrift: Option<real>,
    lastUpdated: real,
    speed: real,
    serial: int,
    paused: bool)

  /** What the clock shows at a time, unless its serial is obsolete. */
  function Shown(c: ClockState, queueSerial: int, time: real): Option<real> {
    if queueSerial != c.serial || (c.ptsDrift.None? && !c.paused) then None
    else if c.paused then c.pts
    else Some(Drifted(c.ptsDrift.value, time, c.lastUpdated, c.speed))
  }

  function Drifted(drift: real, time: real, lastUpdated: real, speed: real): real {
    drift + time - (time - lastUpdated) * (1.0 - speed)
  }

  function SetAt(c: ClockState, pts: Option<real>, serial: int, time: real): ClockState {
    c.(pts := pts, lastUpdated := time, serial := serial,
       ptsDrift := match pts case None => None case Some(p) => Some(p - time))
  }

  class Clock {
    var pts: Option<real>
    var ptsDrift: Option<real>
    var lastUpdated: real
    var speed: real
    var serial: int
    var paused: bool

    ghost function Contents(): ClockState
      reads this
    {
      ClockState(pts, ptsDrift, lastUpdated, speed, serial, paused)
    }

    /** init_clock at `time` */
    constructor (time: real)
      ensures Contents() == ClockState(None, None, time, 1.0, -1, false)
    {
      speed := 1.0;
      paused := false;
      pts, lastUpdated, ptsDrift, serial := None, time, None, -1;
    }

    method GetClock(queueSerial: int, time: real) returns (r: Option<real>)
      ensures r == Shown(Contents(), queueSerial, time)
    {
      if queueSerial != serial {
        return None;
      }
      if paused {
        return pts;
      }
      if ptsDrift.None? {
        return None;
      }
      return Some(Drifted(ptsDrift.value, time, lastUpdated, speed));
    }

    method SetClockAt(newPts: Option<real>, newSerial: int, time: real)
      modifies this
      ensures Contents() == SetAt(old(Contents()), newPts, newSerial, time)
    {
      pts := newPts;
      lastUpdated := time;
      ptsDrift := match pts case None => None case Some(p) => Some(p - time);
      serial := newSerial;
    }

    /** The clock of the queue `queueSerial` is read at t1 and set at t2. */
    method SetClockSpeed(queueSerial: int, newSpeed: real, t1: real, t2: real)
      modifies this
      ensures Contents() ==
        SetAt(old(Contents()), Shown(old(Contents()), queueSerial, t1), old(serial), t2).(speed := newSpeed)
    {
      var value := GetClock(queueSerial, t1);
      SetClockAt(value, serial, t2);
      speed := newSpeed;
    }

    /** sync_clock_to_slave: the two clocks are read at t1 and t2, this one is set at t3. */
    method SyncToSlave(queueSerial: int, slave: Clock, slaveQueueSerial: int, t1: real, t2: real, t3: real)
      modifies this
      ensures var c, s := old(Contents()), old(slave.Contents());
        Contents() == Synced(c, Shown(c, queueSerial, t1), Shown(s, slaveQueueSerial, t2), s.serial, t3)
    {
      var value := GetClock(queueSerial, t1);
      var slaveValue := slave.GetClock(slaveQueueSerial, t2);
      if slaveValue.Some? && (value.None? || Abs(value.value - slaveValue.value) > AV_NOSYNC_THRESHOLD) {
        SetClockAt(slaveValue, slave.serial, t3);
      }
    }
  }

  function Synced(c: ClockState, value: Option<real>, slave: Option<real>, serial: int, time: real): ClockState {
    if slave.Some? && (value.None? || Abs(value.value - slave.value) > AV_NOSYNC_THRESHOLD)
    then SetAt(c, slave, serial, time) else c
  }

  /** After a synchronisation the clock shows the slave's time or was close to it. */
  lemma SyncedIsClose(c: ClockState, slave: real, serial: int, t1: real, t3: real)
    requires !c.paused
    ensures var value := Shown(c, c.serial, t1); var c' := Synced(c, value, Some(slave), serial, t3);
      Shown(c', c'.serial, t3) == Some(slave) ||
      (c' == c && value.Some? && Abs(value.value - slave) <= AV_NOSYNC_THRESHOLD)
  {
    ShownIs(SetAt(c, Some(slave), serial, t3), t3);
    assert (t3 - t3) * c.speed == 0.0 * c.speed;
  }

  /** A clock is taken over exactly if its value is known and this one is unset or
      more than ten seconds off; otherwise nothing changes. */
  lemma SyncedIff(c: ClockState, value: Option<real>, slave: Option<real>, serial: int, t3: real)
    requires !c.paused
    ensures slave.None? ==> Synced(c, value, slave, serial, t3) == c
    ensures slave.Some? && value.Some? && -10.0 <= value.value - slave.value <= 10.0 ==>
              Synced(c, value, slave, serial, t3) == c
    ensures slave.Some? && (value.None? || value.value - slave.value < -10.0 || value.value - slave.value > 10.0) ==>
              var c' := Synced(c, value, slave, serial, t3); c'.serial == serial && Shown(c', serial, t3) == slave
  {
    if slave.Some? {
      ShownIs(SetAt(c, slave, serial, t3), t3);
      assert (t3 - t3) * c.speed == 0.0 * c.speed;
    }
  }

  /** A clock set for another serial shows nothing, whether paused or not. */
  lemma ObsoleteShowsNothing(c: ClockState, queueSerial: int, time: real)
    ensures queueSerial != c.serial ==> Shown(c, queueSerial, time) == None
    ensures queueSerial == c.serial && c.paused ==> Shown(c, queueSerial, time) == c.pts
  {
  }

  // ---------- the speed ----------

  /** Packets waiting in a queue, `None` for a stream that is not shown. */
  function NextSpeed(speed: real, video: Option<int>, audio: Option<int>): real {
    if (video.Some? && video.value <= MIN_FRAMES / 2) || (audio.Some? && audio.value <= MIN_FRAMES / 2) then
      var s := speed - EXTERNAL_CLOCK_SPEED_STEP; if s > EXTERNAL_CLOCK_SPEED_MIN then s else EXTERNAL_CLOCK_SPEED_MIN
    else if (video.None? || video.value > MIN_FRAMES * 2) && (audio.None? || audio.value > MIN_FRAMES * 2) then
      var s := speed + EXTERNAL_CLOCK_SPEED_STEP; if s < EXTERNAL_CLOCK_SPEED_MAX then s else EXTERNAL_CLOCK_SPEED_MAX
    else if speed != 1.0 then
      speed + EXTERNAL_CLOCK_SPEED_STEP * (1.0 - speed) / Abs(1.0 - speed)
    else speed
  }

  /** The speeds that can be reached: whole steps from 1, at most 100 down and 10 up. */
  ghost predicate OnGrid(speed: real, k: int) {
    -100 <= k <= 10 && speed == 1.0 + k as real * EXTERNAL_CLOCK_SPEED_STEP
  }

  lemma TowardsOne(speed: real)
    requires speed != 1.0
    ensures EXTERNAL_CLOCK_SPEED_STEP * (1.0 - speed) / Abs(1.0 - speed) ==
            if speed < 1.0 then EXTERNAL_CLOCK_SPEED_STEP else -EXTERNAL_CLOCK_SPEED_STEP
  {
    var d := 1.0 - speed;
    if d > 0.0 {
      Cancel(EXTERNAL_CLOCK_SPEED_STEP, d);
    } else {
      Cancel(-EXTERNAL_CLOCK_SPEED_STEP, -d);
    }
  }

  lemma Cancel(x: real, d: real)
    requires d != 0.0
    ensures x * d / d == x
  {
    var q := x * d / d;
    assert q * d == x * d;
    assert (q - x) * d == q * d - x * d;
    assert (q - x) * d == 0.0;
  }

  /** Every speed stays on the grid, hence between 0.900 and 1.010. */
  lemma SpeedStaysOnGrid(speed: real, k: int, video: Option<int>, audio: Option<int>) returns (k': int)
    requires OnGrid(speed, k)
    ensures OnGrid(NextSpeed(speed, video, audio), k')
    ensures EXTERNAL_CLOCK_SPEED_MIN <= NextSpeed(speed, video, audio) <= EXTERNAL_CLOCK_SPEED_MAX
    ensures k - 1 <= k' <= k + 1
  {
    if (video.Some? && video.value <= MIN_FRAMES / 2) || (audio.Some? && audio.value <= MIN_FRAMES / 2) {
      k' := if k > -100 then k - 1 else -100;
    } else if (video.None? || video.value > MIN_FRAMES * 2) && (audio.None? || audio.value > MIN_FRAMES * 2) {
      k' := if k < 10 then k + 1 else 10;
    } else if speed != 1.0 {
      TowardsOne(speed);
      k' := if k < 0 then k + 1 else k - 1;
    } else {
      k' := k;
    }
  }

  /** A shown queue of at most two packets makes the clock one step slower, down to
      0.900; shown queues of more than ten each make it one step faster, up to
      1.010; anything between moves it one step towards 1. */
  lemma SpeedFollowsQueues(speed: real, k: int, video: Option<int>, audio: Option<int>)
    requires OnGrid(speed, k)
    ensures (video.Some? && video.value <= 2) || (audio.Some? && audio.value <= 2) ==>
              OnGrid(NextSpeed(speed, video, audio), if k > -100 then k - 1 else -100)
    ensures (video.Some? ==> video.value > 10) && (audio.Some? ==> audio.value > 10) ==>
              OnGrid(NextSpeed(speed, video, audio), if k < 10 then k + 1 else 10)
    ensures (video.Some? ==> video.value > 2) && (audio.Some? ==> audio.value > 2) &&
            ((video.Some? && video.value <= 10) || (audio.Some? && audio.value <= 10)) ==>
              OnGrid(NextSpeed(speed, video, audio), if k < 0 then k + 1 else if k > 0 then k - 1 else 0)
  {
    if speed != 1.0 {
      TowardsOne(speed);
    }
  }

  /** A reading of the queues that finds them neither short nor long. */
  predicate Neutral(video: Option<int>, audio: Option<int>) {
    !((video.Some? && video.value <= MIN_FRAMES / 2) || (audio.Some? && audio.value <= MIN_FRAMES / 2)) &&
    !((video.None? || video.value > MIN_FRAMES * 2) && (audio.None? || audio.value > MIN_FRAMES * 2))
  }

  /** The speed after checks that read the queues so. */
  function Settled(speed: real, readings: seq<(Option<int>, Option<int>)>): real
    decreases |readings|
  {
    if readings == [] then speed
    else Settled(NextSpeed(speed, readings[0].0, readings[0].1), readings[1..])
  }

  /** With nothing to correct the clock returns to normal speed exactly, one step per check. */
  lemma {:induction false} ReturnsToNormal(speed: real, k: int, readings: seq<(Option<int>, Option<int>)>)
    requires OnGrid(speed, k) && |readings| >= if k < 0 then -k else k
    requires forall r <- readings :: Neutral(r.0, r.1)
    ensures Settled(speed, readings) == 1.0
    decreases |readings|
  {
    if readings != [] {
      var r, rest := readings[0], readings[1..];
      assert Neutral(r.0, r.1);
      if k != 0 {
        TowardsOne(speed);
        ReturnsToNormal(NextSpeed(speed, r.0, r.1), if k < 0 then k + 1 else k - 1, rest);
      } else {
        ReturnsToNormal(speed, 0, rest);
      }
    }
  }

  // ---------- the player's external clock ----------

  /** The clock is its own queue: its serial is never obsolete. */
  class ExternalClockOwner {
    const extclk: Clock
    const vidclk: Clock
    const audclk: Clock
    var frameTimer: real
    var paused: bool

    ghost predicate Valid()
      reads this, extclk, vidclk, audclk
    {
      extclk != vidclk && extclk != audclk && vidclk != audclk &&
      extclk.paused == vidclk.paused == audclk.paused == paused
    }

    constructor (time: real)
      ensures Valid() && fresh(extclk) && fresh(vidclk) && fresh(audclk) && frameTimer == 0.0
      ensures extclk.Contents() == vidclk.Contents() == audclk.Contents() ==
              ClockState(None, None, time, 1.0, -1, false)
    {
      extclk := new Clock(time);
      vidclk := new Clock(time);
      audclk := new Clock(time);
      frameTimer, paused := 0.0, false;
    }

    /** Called while playing: the clock is read at t1 and set at t2. */
    method CheckExternalClockSpeed(video: Option<int>, audio: Option<int>, t1: real, t2: real)
      requires Valid() && !paused
      modifies extclk
      ensures Valid() && extclk.Contents() == Apply(old(extclk.Contents()), SpeedCheck(video, audio, t1, t2))
    {
      if (video.Some? && video.value <= MIN_FRAMES / 2) || (audio.Some? && audio.value <= MIN_FRAMES / 2) {
        var s := extclk.speed - EXTERNAL_CLOCK_SPEED_STEP;
        s := if s > EXTERNAL_CLOCK_SPEED_MIN then s else EXTERNAL_CLOCK_SPEED_MIN;
        extclk.SetClockSpeed(extclk.serial, s, t1, t2);
      } else if (video.None? || video.value > MIN_FRAMES * 2) && (audio.None? || audio.value > MIN_FRAMES * 2) {
        var s := extclk.speed + EXTERNAL_CLOCK_SPEED_STEP;
        s := if s < EXTERNAL_CLOCK_SPEED_MAX then s else EXTERNAL_CLOCK_SPEED_MAX;
        extclk.SetClockSpeed(extclk.serial, s, t1, t2);
      } else {
        var speed := extclk.speed;
        if speed != 1.0 {
          var s := speed + EXTERNAL_CLOCK_SPEED_STEP * (1.0 - speed) / Abs(1.0 - speed);
          extclk.SetClockSpeed(extclk.serial, s, t1, t2);
        }
      }
    }

    /** stream_toggle_pause: the time is read for the frame timer, the video clock
        (of a queue with serial `videoSerial`) is read and set, and the external one.
        `canPause` says that the input can pause by itself. */
    method TogglePause(canPause: bool, videoSerial: int, now: real, v1: real, v2: real, t1: real, t2: real)
      requires Valid()
      modifies this, extclk, vidclk, audclk`paused
      ensures Valid() && paused == !old(paused)
      ensures extclk.Contents() == Apply(old(extclk.Contents()), PauseToggle(t1, t2))
      ensures vidclk.Contents() == VideoToggled(old(vidclk.Contents()), canPause, videoSerial, v1, v2)
      ensures audclk.Contents() == old(audclk.Contents()).(paused := !old(paused))
      ensures frameTimer == old(frameTimer) + if old(paused) then now - old(vidclk.lastUpdated) else 0.0
    {
      if paused {
        frameTimer := frameTimer + now - vidclk.lastUpdated;
        if canPause {
          vidclk.paused := false;
        }
        var shown := vidclk.GetClock(videoSerial, v1);
        vidclk.SetClockAt(shown, vidclk.serial, v2);
      }
      var value := extclk.GetClock(extclk.serial, t1);
      extclk.SetClockAt(value, extclk.serial, t2);
      paused := !paused;
      audclk.paused := paused;
      vidclk.paused := paused;
      extclk.paused := paused;
    }
  }

  /** The video clock is set anew only when playing goes on. */
  function VideoToggled(c: ClockState, canPause: bool, queueSerial: int, t1: real, t2: real): ClockState {
    if !c.paused then c.(paused := true)
    else
      var c' := if canPause then c.(paused := false) else c;
      SetAt(c', Shown(c', queueSerial, t1), c.serial, t2).(paused := false)
  }

  /** When playing goes on, a video clock that cannot tell how long the pause was
      shows what it showed before; one of an obsolete serial shows nothing. */
  lemma ResumedShows(c: ClockState, queueSerial: int, t1: real, t2: real)
    requires c.paused
    ensures var c' := VideoToggled(c, false, queueSerial, t1, t2);
      !c'.paused && c'.serial == c.serial && c'.lastUpdated == t2 &&
      Shown(c', c.serial, t2) == if queueSerial == c.serial then c.pts else None
  {
    var c' := VideoToggled(c, false, queueSerial, t1, t2);
    if queueSerial == c.serial && c.pts.Some? {
      ShownIs(c', t2);
      assert (t2 - t2) * c.speed == 0.0 * c.speed;
    }
  }

  /** One that can tell goes on as if it had run through the pause. */
  lemma ResumedRunsOn(c: ClockState, t1: real, t2: real)
    requires c.paused && c.ptsDrift.Some?
    ensures var c' := VideoToggled(c, true, c.serial, t1, t2);
      !c'.paused && c'.serial == c.serial && c'.lastUpdated == t2 &&
      Shown(c', c.serial, t2) == Some(c.ptsDrift.value + t1 - (t1 - c.lastUpdated) * (1.0 - c.speed))
  {
    var c' := VideoToggled(c, true, c.serial, t1, t2);
    assert c'.pts == Some(Drifted(c.ptsDrift.value, t1, c.lastUpdated, c.speed)) && c'.speed == c.speed;
    ShownIs(c', t2);
    var shown := c.ptsDrift.value + t1 - (t1 - c.lastUpdated) * (1.0 - c.speed);
    assert Drifted(c.ptsDrift.value, t1, c.lastUpdated, c.speed) == shown;
    var none := t2 - c'.lastUpdated;
    assert none == 0.0;
    assert none * c'.speed == 0.0;
    assert Shown(c', c'.serial, t2) == Some(shown + none * c'.speed);
  }

  /** What happens to the clock between two resynchronisations. It is read at t1 and set at t2. */
  datatype Event =
    | SpeedCheck(video: Option<int>, audio: Option<int>, t1: real, t2: real)
    | PauseToggle(t1: real, t2: real)

  /** A speed check that keeps the speed does not touch the clock. */
  predicate Touches(c: ClockState, e: Event) {
    e.SpeedCheck? ==>
      (e.video.Some? && e.video.value <= MIN_FRAMES / 2) || (e.audio.Some? && e.audio.value <= MIN_FRAMES / 2) ||
      ((e.video.None? || e.video.value > MIN_FRAMES * 2) && (e.audio.None? || e.audio.value > MIN_FRAMES * 2)) ||
      c.speed != 1.0
  }

  function Apply(c: ClockState, e: Event): ClockState {
    if !Touches(c, e) then c else
    var c' := SetAt(c, Shown(c, c.serial, e.t1), c.serial, e.t2);
    match e
    case SpeedCheck(video, audio, _, _) => c'.(speed := NextSpeed(c.speed, video, audio))
    case PauseToggle(_, _) => c'.(paused := !c.paused)
  }

  /** A pause only sets the flags, a check always sets the speed the queues ask for,
      and leaves the clock alone exactly if that is 1 and was before. */
  lemma EventsApply(c: ClockState, video: Option<int>, audio: Option<int>, t1: real, t2: real)
    ensures Apply(c, SpeedCheck(video, audio, t1, t2)).speed == NextSpeed(c.speed, video, audio)
    ensures Apply(c, SpeedCheck(video, audio, t1, t2)).paused == c.paused
    ensures NextSpeed(c.speed, video, audio) != c.speed ==>
              Apply(c, SpeedCheck(video, audio, t1, t2)).lastUpdated == t2
    ensures (video.Some? ==> video.value > 2) && (audio.Some? ==> audio.value > 2) &&
            ((video.Some? && video.value <= 10) || (audio.Some? && audio.value <= 10)) && c.speed == 1.0 ==>
              Apply(c, SpeedCheck(video, audio, t1, t2)) == c
    ensures Apply(c, PauseToggle(t1, t2)).paused == !c.paused && Apply(c, PauseToggle(t1, t2)).speed == c.speed
    ensures forall canPause, queueSerial :: !c.paused ==>
              VideoToggled(c, canPause, queueSerial, t1, t2) == c.(paused := true)
  {
  }

  // ---------- the law of the clock ----------

  /** What a clock gains from one time to another. */
  function Gain(c: ClockState, from: real, to: real): real {
    if c.paused then 0.0 else (to - from) * c.speed
  }

  ghost predicate Running(c: ClockState) {
    c.pts.Some? && (!c.paused ==> c.ptsDrift == Some(c.pts.value - c.lastUpdated))
  }

  lemma ShownGains(c: ClockState, from: real, to: real)
    requires Running(c)
    ensures Shown(c, c.serial, from).Some? && Shown(c, c.serial, to).Some?
    ensures Shown(c, c.serial, to).value == Shown(c, c.serial, from).value + Gain(c, from, to)
  {
    if !c.paused {
      ShownIs(c, from);
      ShownIs(c, to);
      assert (to - from) * c.speed == (to - c.lastUpdated) * c.speed - (from - c.lastUpdated) * c.speed;
    }
  }

  lemma ShownIs(c: ClockState, t: real)
    requires Running(c) && !c.paused
    ensures Shown(c, c.serial, t) == Some(c.pts.value + (t - c.lastUpdated) * c.speed)
  {
    assert c.ptsDrift.value == c.pts.value - c.lastUpdated;
    DriftedIs(c.pts.value, c.lastUpdated, t, c.speed);
    assert Shown(c, c.serial, t).value == c.pts.value + (t - c.lastUpdated) * c.speed;
  }

  lemma DriftedIs(pts: real, lastUpdated: real, time: real, speed: real)
    ensures Drifted(pts - lastUpdated, time, lastUpdated, speed) == pts + (time - lastUpdated) * speed
  {
    var d := time - lastUpdated;
    Distribute(d, 1.0, speed);
    assert d * 1.0 == d;
  }

  lemma Distribute(d: real, x: real, y: real)
    ensures d * (x - y) == d * x - d * y
  {
  }

  /** No event makes the clock jump: set at t2, it shows what it showed when read at t1. */
  lemma EventsAreContinuous(c: ClockState, e: Event)
    requires Running(c) && Touches(c, e)
    ensures Running(Apply(c, e)) && Apply(c, e).serial == c.serial
    ensures Shown(Apply(c, e), c.serial, e.t2) == Shown(c, c.serial, e.t1)
  {
    ShownGains(c, e.t1, e.t1);
    var c' := Apply(c, e);
    if !c'.paused {
      ShownIs(c', e.t2);
      assert (e.t2 - c'.lastUpdated) * c'.speed == 0.0 * c'.speed;
    }
  }

  /** The clock after a run of events. */
  function ApplyAll(c: ClockState, events: seq<Event>): ClockState
    decreases |events|
  {
    if events == [] then c else ApplyAll(Apply(c, events[0]), events[1..])
  }

  /** Time is read in order, starting at `from`, up to `to`. */
  ghost predicate InTime(from: real, events: seq<Event>, to: real)
    decreases |events|
  {
    if events == [] then from <= to
    else from <= events[0].t1 <= events[0].t2 && InTime(events[0].t2, events[1..], to)
  }

  /** The gain of a run, speed by speed; between reading and setting the clock stands still. */
  function TotalGain(c: ClockState, from: real, events: seq<Event>, to: real): real
    decreases |events|
  {
    if events == [] then Gain(c, from, to)
    else if !Touches(c, events[0]) then
      Gain(c, from, events[0].t2) + TotalGain(c, events[0].t2, events[1..], to)
    else
      Gain(c, from, events[0].t1) + TotalGain(Apply(c, events[0]), events[0].t2, events[1..], to)
  }

  /** Time that passed while playing, outside the moments of reading and setting. */
  function PlayTime(c: ClockState, from: real, events: seq<Event>, to: real): real
    decreases |events|
  {
    if events == [] then (if c.paused then 0.0 else to - from)
    else if !Touches(c, events[0]) then
      (if c.paused then 0.0 else events[0].t2 - from) + PlayTime(c, events[0].t2, events[1..], to)
    else
      (if c.paused then 0.0 else events[0].t1 - from) + PlayTime(Apply(c, events[0]), events[0].t2, events[1..], to)
  }

  /** Over every run between resynchronisations the clock advances by exactly the
      sum of playing time times current speed. */
  lemma {:induction false} ClockLaw(c: ClockState, from: real, events: seq<Event>, to: real)
    requires Running(c)
    ensures var c' := ApplyAll(c, events);
      Running(c') && c'.serial == c.serial &&
      Shown(c, c.serial, from).Some? && Shown(c', c'.serial, to).Some? &&
      Shown(c', c'.serial, to).value == Shown(c, c.serial, from).value + TotalGain(c, from, events, to)
    decreases |events|
  {
    if events == [] {
      ShownGains(c, from, to);
    } else if !Touches(c, events[0]) {
      ShownGains(c, from, events[0].t2);
      ClockLaw(c, events[0].t2, events[1..], to);
    } else {
      ShownGains(c, from, events[0].t1);
      EventsAreContinuous(c, events[0]);
      ClockLaw(Apply(c, events[0]), events[0].t2, events[1..], to);
    }
  }

  lemma GainBounds(c: ClockState, k: int, from: real, to: real)
    requires OnGrid(c.speed, k) && from <= to
    ensures var play := if c.paused then 0.0 else to - from;
      EXTERNAL_CLOCK_SPEED_MIN * play <= Gain(c, from, to) <= EXTERNAL_CLOCK_SPEED_MAX * play
  {
    var d := to - from;
    assert EXTERNAL_CLOCK_SPEED_MIN <= c.speed <= EXTERNAL_CLOCK_SPEED_MAX;
    assert d * (c.speed - EXTERNAL_CLOCK_SPEED_MIN) >= 0.0;
    assert d * (EXTERNAL_CLOCK_SPEED_MAX - c.speed) >= 0.0;
  }

  /** A clock started at normal speed gains between 0.900 and 1.010 of the playing time. */
  lemma {:induction false} ClockRate(c: ClockState, k: int, from: real, events: seq<Event>, to: real)
    requires OnGrid(c.speed, k) && InTime(from, events, to)
    ensures var play := PlayTime(c, from, events, to);
      0.0 <= play &&
      EXTERNAL_CLOCK_SPEED_MIN * play <= TotalGain(c, from, events, to) <= EXTERNAL_CLOCK_SPEED_MAX * play
    decreases |events|
  {
    if events == [] {
      GainBounds(c, k, from, to);
    } else {
      var e := events[0];
      if !Touches(c, e) {
        GainBounds(c, k, from, e.t2);
        ClockRate(c, k, e.t2, events[1..], to);
        RateSum(if c.paused then 0.0 else e.t2 - from, PlayTime(c, e.t2, events[1..], to));
      } else {
        GainBounds(c, k, from, e.t1);
        var k' := k;
        if e.SpeedCheck? {
          k' := SpeedStaysOnGrid(c.speed, k, e.video, e.audio);
        }
        ClockRate(Apply(c, e), k', e.t2, events[1..], to);
        RateSum(if c.paused then 0.0 else e.t1 - from, PlayTime(Apply(c, e), e.t2, events[1..], to));
      }
    }
  }

  lemma RateSum(a: real, b: real)
    ensures EXTERNAL_CLOCK_SPEED_MIN * (a + b) == EXTERNAL_CLOCK_SPEED_MIN * a + EXTERNAL_CLOCK_SPEED_MIN * b
    ensures EXTERNAL_CLOCK_SPEED_MAX * (a + b) == EXTERNAL_CLOCK_SPEED_MAX * a + EXTERNAL_CLOCK_SPEED_MAX * b
  {
  }
}
