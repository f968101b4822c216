/** What a press of the stream key finds, position by position. */
module ChannelOrder {
  import opened ChannelCycle
  import opened Wrappers

  /** The stream at a position of the program, or of the file without one. */
  function At(q: Query, i: nat): Option<Stream> {
    var index := match q.program case None => i case Some(p) => if i < |p| then p[i] else |q.streams|;
    if index < |q.streams| then Some(q.streams[index]) else None
  }

  /** A stream of the wanted kind; one of audio with a sample rate and channels. */
  predicate Plays(q: Query, i: nat) {
    match At(q, i)
    case None => false
    case Some(st) => st.codecType == q.kind && !(q.kind == AudioType && (st.sampleRate == 0 || st.channels == 0))
  }

  lemma AcceptableIs(q: Query, i: nat)
    requires ValidQuery(q) && i < Positions(q)
    ensures Acceptable(q, i) <==> Plays(q, i)
  {
    if q.program.Some? {
      assert q.program.value[i] in q.program.value;
    }
  }

  /** Where a search starts: at the last stream, at its first place in the program, or before all. */
  lemma StartIs(q: Query)
    requires ValidQuery(q)
    ensures match q.program
      case None => Start(q) == q.last
      case Some(p) =>
        if exists i :: 0 <= i < |p| && p[i] == q.last
        then 0 <= Start(q) < |p| && p[Start(q)] == q.last && q.last !in p[..Start(q)] else Start(q) == -1
  {
    if q.program.Some? {
      FirstPlace(q.program.value, q.last, 0);
    }
  }

  lemma {:induction false} FirstPlace(p: seq<nat>, last: int, i: nat)
    requires i <= |p|
    ensures var r := StartFrom(p, last, i);
      (r == -1 && forall k :: i <= k < |p| ==> p[k] != last) ||
      (i <= r < |p| && p[r] == last && forall k :: i <= k < r ==> p[k] != last)
    decreases |p| - i
  {
    if i < |p| && p[i] != last {
      FirstPlace(p, last, i + 1);
    }
  }

  /** Nothing plays from one position up to, but without, another. */
  ghost predicate NothingIn(q: Query, from: int, to: int) {
    forall i: nat :: from <= i < to ==> !Plays(q, i)
  }

  /** The search goes upwards; past the last position it turns "off" for subtitles
      and goes on from the first one otherwise, up to where it started. */
  lemma FirstHitMeans(q: Query, start: int, r: Option<int>)
    requires ValidQuery(q) && -1 <= start < Positions(q) && FirstHit(q, start, r)
    ensures match r
      case None => q.kind != SubtitleType && NothingIn(q, start + 1, Positions(q)) && NothingIn(q, 0, start)
      case Some(at) =>
        if at == -1 then q.kind == SubtitleType && NothingIn(q, start + 1, Positions(q))
        else
          0 <= at < Positions(q) && Plays(q, at) &&
          if at > start then NothingIn(q, start + 1, at)
          else q.kind != SubtitleType && at < start && NothingIn(q, start + 1, Positions(q)) && NothingIn(q, 0, at)
  {
    hide Plays;
    match r {
      case None =>
        MissedMeans(q, start, Tries(q, start) + 1);
        SubtitlesTurnOff(q, start);
      case Some(at) =>
        var n: nat :| 1 <= n <= Tries(q, start) && Tried(q, start, n) == at && Missed(q, start, n);
        MissedMeans(q, start, n);
        if at >= 0 {
          AcceptableIs(q, at);
        }
    }
  }

  /** The positions tried without a hit, upwards and from the beginning again. */
  lemma MissedMeans(q: Query, start: int, n: int)
    requires ValidQuery(q) && -1 <= start < Positions(q) && Missed(q, start, n) && 1 <= n <= Tries(q, start) + 1
    ensures NothingIn(q, start + 1, if start + n < Positions(q) then start + n else Positions(q))
    ensures q.kind != SubtitleType ==> NothingIn(q, 0, start + n - Positions(q))
  {
    forall i: nat | start + 1 <= i < start + n && i < Positions(q) ensures !Plays(q, i) {
      assert Tried(q, start, i - start) == i;
      AcceptableIs(q, i);
    }
    if q.kind != SubtitleType {
      forall i: nat | i < start + n - Positions(q) ensures !Plays(q, i) {
        assert Tried(q, start, i + Positions(q) - start) == i;
        AcceptableIs(q, i);
      }
    }
  }

  /** A search for subtitles always ends at "off" at the latest. */
  lemma SubtitlesTurnOff(q: Query, start: int)
    requires ValidQuery(q) && -1 <= start < Positions(q)
    ensures q.kind == SubtitleType ==> !Missed(q, start, Tries(q, start) + 1)
  {
    assert q.kind == SubtitleType ==> Tried(q, start, Tries(q, start)) == OFF && Hit(q, OFF);
  }

  /** A press keeps the last stream or leads to one that plays, or to "off" for subtitles. */
  lemma PressedPlays(q: Query, last: int)
    requires ValidQuery(q) && Pressed(q, last)
    ensures if last == -1 then q.kind == SubtitleType
            else 0 <= last < |q.streams| && q.streams[last].codecType == q.kind &&
                 (q.kind == AudioType ==> q.streams[last].sampleRate != 0 && q.streams[last].channels != 0) &&
                 (q.program.Some? ==> last in q.program.value)
  {
    var r :| FirstHit(q, Start(q), Some(r)) && last == StreamOrOff(q, r);
    FirstHitMeans(q, Start(q), Some(r));
  }
}
