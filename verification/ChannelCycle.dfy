/** ffplay's search for the next video, audio or subtitle stream to show. */
module ChannelCycle {
  import opened Wrappers

  datatype CodecType = VideoType | AudioType | SubtitleType | OtherType

  datatype Stream = Stream(codecType: CodecType, sampleRate: int, channels: int)

  /** What the search is given: the streams of the file, the streams of the
      program being shown (if any, and if it is not a video stream that is
      wanted), and the stream last shown, -1 for none. */
  datatype Query = Query(streams: seq<Stream>, program: Option<seq<nat>>, kind: CodecType, last: int)

  const OFF: int := -1

  ghost predicate ValidQuery(q: Query) {
    q.kind != OtherType && -1 <= q.last < |q.streams| &&
    (q.program.Some? ==> q.kind != VideoType && forall i <- q.program.value :: i < |q.streams|)
  }

  /** How many positions the search runs over. */
  function Positions(q: Query): nat {
    match q.program case None => |q.streams| case Some(p) => |p|
  }

  function StreamAt(q: Query, position: nat): (i: nat)
    requires position < Positions(q)
    ensures ValidQuery(q) ==> i < |q.streams|
  {
    match q.program case None => position case Some(p) => assert p[position] in p; p[position]
  }

  /** A stream of the wanted kind; an audio stream needs sane parameters. */
  predicate Acceptable(q: Query, position: nat)
    requires ValidQuery(q) && position < Positions(q)
  {
    var st := q.streams[StreamAt(q, position)];
    st.codecType == q.kind && (q.kind == AudioType ==> st.sampleRate != 0 && st.channels != 0)
  }

  /** Position of the last stream in the program, -1 if it is not there. */
  function StartFrom(p: seq<nat>, last: int, i: nat): int
    requires i <= |p|
    decreases |p| - i
  {
    if i == |p| then -1 else if p[i] == last then i else StartFrom(p, last, i + 1)
  }

  function Start(q: Query): (start: int)
    requires ValidQuery(q)
    ensures -1 <= start < Positions(q)
  {
    match q.program
    case None => q.last
    case Some(p) => (StartFromInRange(p, q.last, 0); StartFrom(p, q.last, 0))
  }

  lemma StartFromInRange(p: seq<nat>, last: int, i: nat)
    requires i <= |p|
    ensures -1 <= StartFrom(p, last, i) < |p|
    decreases |p| - i
  {
  }

  // ---------- the order of the search ----------

  /** The k-th position tried after `start`: upwards, then "off" for subtitles,
      else from the beginning again. */
  function Tried(q: Query, start: int, k: nat): int {
    if start + k < Positions(q) then start + k
    else if q.kind == SubtitleType then OFF
    else start + k - Positions(q)
  }

  /** The number of positions tried when nothing is found. */
  function Tries(q: Query, start: int): int {
    if q.kind == SubtitleType then Positions(q) - start
    else if start == -1 then Positions(q)
    else Positions(q) - 1
  }

  /** Whether the search ends at a position. */
  predicate Hit(q: Query, position: int)
    requires ValidQuery(q) && -1 <= position < Positions(q)
  {
    position == OFF || Acceptable(q, position)
  }

  lemma TriedInRange(q: Query, start: int, k: nat)
    requires ValidQuery(q) && -1 <= start < Positions(q) && 1 <= k <= Tries(q, start)
    ensures -1 <= Tried(q, start, k) < Positions(q)
    ensures Tried(q, start, k) == OFF ==> q.kind == SubtitleType && k == Tries(q, start)
  {
  }

  /** The first n - 1 positions tried are no hits. */
  ghost predicate Missed(q: Query, start: int, n: int)
    requires ValidQuery(q) && -1 <= start < Positions(q)
  {
    forall k: nat {:trigger Tried(q, start, k)} :: 1 <= k < n ==>
      -1 <= Tried(q, start, k) < Positions(q) && !Hit(q, Tried(q, start, k))
  }

  /** `r` is the first hit in the order of the search; `None` if there is none. */
  ghost predicate FirstHit(q: Query, start: int, r: Option<int>)
    requires ValidQuery(q) && -1 <= start < Positions(q)
  {
    match r
    case None => Missed(q, start, Tries(q, start) + 1)
    case Some(position) =>
      -1 <= position < Positions(q) && Hit(q, position) &&
      exists n: nat {:trigger Tried(q, start, n)} ::
        1 <= n <= Tries(q, start) && Tried(q, start, n) == position && Missed(q, start, n)
  }

  function StreamOrOff(q: Query, position: int): int
    requires -1 <= position < Positions(q)
  {
    if position == OFF then OFF else StreamAt(q, position)
  }

  /** What a press makes the stream last shown. */
  ghost predicate Pressed(q: Query, last: int)
    requires ValidQuery(q)
  {
    exists r :: FirstHit(q, Start(q), Some(r)) && last == StreamOrOff(q, r)
  }

  /** The stream to show from now on, OFF for none; without a hit the last one stays. */
  method CycleChannel(q: Query) returns (switched: bool, last: int)
    requires ValidQuery(q)
    ensures if switched then Pressed(q, last) else FirstHit(q, Start(q), None) && last == q.last
  {
    var startIndex := q.last;
    if q.program.Some? {
      var p := q.program.value;
      startIndex := 0;
      while startIndex < |p| && p[startIndex] != q.last
        invariant 0 <= startIndex <= |p|
        invariant StartFrom(p, q.last, startIndex) == StartFrom(p, q.last, 0)
      {
        startIndex := startIndex + 1;
      }
      if startIndex == |p| {
        startIndex := -1;
      }
    }
    var r := Search(q, startIndex);
    if r.None? {
      return false, q.last;
    }
    return true, if r.value == OFF then OFF else StreamAt(q, r.value);
  }

  /** Where the search goes after the k-th position, and when it is back at its start. */
  lemma TriedNext(q: Query, start: int, k: nat)
    requires ValidQuery(q) && -1 <= start < Positions(q) && k <= Tries(q, start)
    requires var at := Tried(q, start, k); -1 <= at < Positions(q) && (at == -1 ==> k == 0)
    ensures var at := Tried(q, start, k);
      if at + 1 < Positions(q) then Tried(q, start, k + 1) == at + 1 && (at + 1 == start <==> k == Tries(q, start))
      else if q.kind == SubtitleType then Tried(q, start, k + 1) == OFF && k + 1 == Tries(q, start)
      else if start == -1 then k == Tries(q, start)
      else Tried(q, start, k + 1) == 0 && (start == 0 <==> k == Tries(q, start))
  {
  }

  lemma MissedOneMore(q: Query, start: int, k: nat)
    requires ValidQuery(q) && -1 <= start < Positions(q) && Missed(q, start, k + 1)
    requires -1 <= Tried(q, start, k + 1) < Positions(q) && !Hit(q, Tried(q, start, k + 1))
    ensures Missed(q, start, k + 2)
  {
  }

  lemma FoundFirst(q: Query, start: int, k: nat)
    requires ValidQuery(q) && -1 <= start < Positions(q) && Missed(q, start, k + 1) && k + 1 <= Tries(q, start)
    requires -1 <= Tried(q, start, k + 1) < Positions(q) && Hit(q, Tried(q, start, k + 1))
    ensures FirstHit(q, start, Some(Tried(q, start, k + 1)))
  {
  }

  method Search(q: Query, startIndex: int) returns (r: Option<int>)
    requires ValidQuery(q) && -1 <= startIndex < Positions(q)
    ensures FirstHit(q, startIndex, r)
  {
    var nbStreams := Positions(q);
    var streamIndex := startIndex;
    assert Tried(q, startIndex, 0) == startIndex && 0 <= Tries(q, startIndex);
    assert Missed(q, startIndex, 1);
    hide Tried, Tries, Missed;
    ghost var k: nat := 0;
    while true
      invariant k <= Tries(q, startIndex) && streamIndex == Tried(q, startIndex, k)
      invariant streamIndex == -1 ==> k == 0
      invariant -1 <= streamIndex < nbStreams
      invariant Missed(q, startIndex, k + 1)
      decreases Tries(q, startIndex) - k
    {
      TriedNext(q, startIndex, k);
      streamIndex := streamIndex + 1;
      if streamIndex >= nbStreams {
        if q.kind == SubtitleType {
          FoundFirst(q, startIndex, k);
          return Some(OFF);
        }
        if startIndex == -1 {
          return None;
        }
        streamIndex := 0;
      }
      if streamIndex == startIndex {
        return None;
      }
      var st := q.streams[StreamAt(q, streamIndex)];
      if st.codecType == q.kind {
        if q.kind != AudioType || (st.sampleRate != 0 && st.channels != 0) {
          FoundFirst(q, startIndex, k);
          return Some(streamIndex);
        }
      }
      MissedOneMore(q, startIndex, k);
      k := k + 1;
    }
  }

  // ---------- pressing the key again and again ----------

  /** One press leads from one position to the other. */
  ghost predicate Next(q: Query, from: int, to: int)
    requires ValidQuery(q)
  {
    -1 <= from < Positions(q) && FirstHit(q, from, Some(to))
  }

  /** Steps from one position to another in the order of the search. */
  function Distance(q: Query, from: int, to: int): int {
    if from < to then to - from
    else if q.kind == SubtitleType then Positions(q) + 1 + to - from
    else Positions(q) + to - from
  }

  lemma TriedAtDistance(q: Query, from: int, to: int)
    requires ValidQuery(q) && (from != to || from == OFF) && -1 <= from < Positions(q)
    requires if q.kind == SubtitleType then -1 <= to < Positions(q) else 0 <= to < Positions(q)
    requires q.kind == SubtitleType && to != OFF ==> from < to
    ensures 1 <= Distance(q, from, to) <= Tries(q, from) && Tried(q, from, Distance(q, from, to)) == to
  {
  }

  /** A chain of presses of the key, as positions of one search. */
  ghost predicate PositionPath(q: Query, path: seq<int>)
    requires ValidQuery(q)
  {
    path != [] && forall i :: 0 <= i < |path| - 1 ==> Next(q, path[i], path[i + 1])
  }

  /** A press comes strictly nearer to any position that can be shown. */
  lemma NextExists(q: Query, from: int, to: int) returns (next: int)
    requires ValidQuery(q) && (from != to || from == OFF) && -1 <= from < Positions(q)
    requires -1 <= to < Positions(q) && Hit(q, to) && (to == OFF ==> q.kind == SubtitleType)
    requires q.kind == SubtitleType && to != OFF ==> from < to
    ensures Next(q, from, next) && (next == OFF ==> q.kind == SubtitleType)
    ensures next == to || (next != OFF && Distance(q, next, to) < Distance(q, from, to))
    ensures q.kind == SubtitleType && to != OFF ==> from < next <= to
  {
    TriedAtDistance(q, from, to);
    var k: nat := 1;
    while !Hit(q, Tried(q, from, k))
      invariant 1 <= k <= Distance(q, from, to)
      invariant -1 <= Tried(q, from, k) < Positions(q)
      invariant Missed(q, from, k)
      decreases Distance(q, from, to) - k
    {
      k := k + 1;
      TriedInRange(q, from, k);
    }
    next := Tried(q, from, k);
  }

  lemma {:induction false} EveryPositionReached(q: Query, from: int, to: int) returns (path: seq<int>)
    requires ValidQuery(q) && -1 <= from < Positions(q)
    requires -1 <= to < Positions(q) && Hit(q, to) && (to == OFF ==> q.kind == SubtitleType)
    ensures PositionPath(q, path) && path[0] == from && path[|path| - 1] == to
    decreases (q.kind == SubtitleType && to != OFF && from > to), (if from == to then 0 else Distance(q, from, to))
  {
    if from == to {
      path := [from];
    } else if q.kind == SubtitleType && to != OFF && from > to {
      var head := EveryPositionReached(q, from, OFF);
      var tail := EveryPositionReached(q, OFF, to);
      path := head + tail[1..];
      forall i | 0 <= i < |path| - 1 ensures Next(q, path[i], path[i + 1]) {
        if i < |head| - 1 {
          assert Next(q, head[i], head[i + 1]);
        } else {
          assert path[i] == tail[i - |head| + 1] && path[i + 1] == tail[i - |head| + 2];
          assert Next(q, tail[i - |head| + 1], tail[i - |head| + 1 + 1]);
        }
      }
    } else {
      var next := NextExists(q, from, to);
      var rest := EveryPositionReached(q, next, to);
      path := [from] + rest;
      forall i | 0 <= i < |path| - 1 ensures Next(q, path[i], path[i + 1]) {
        if i > 0 {
          assert Next(q, rest[i - 1], rest[i - 1 + 1]);
        }
      }
    }
  }

  // ---------- presses of the key, each from the stream it finds ----------

  /** No stream is listed twice in the program. */
  ghost predicate Distinct(p: seq<nat>) { forall i, j :: 0 <= i < j < |p| ==> p[i] != p[j] }

  /** ff_program_add_stream_index: the streams of a program when one more is listed. */
  method ProgramAddStreamIndex(p: seq<nat>, nbStreams: nat, idx: nat) returns (r: seq<nat>)
    ensures r == if idx < nbStreams && idx !in p then p + [idx] else p
    ensures Distinct(p) ==> Distinct(r)
    ensures (forall i <- p :: i < nbStreams) ==> forall i <- r :: i < nbStreams
  {
    if idx >= nbStreams {
      return p;
    }
    for j := 0 to |p|
      invariant idx !in p[..j]
    {
      if p[j] == idx {
        return p;
      }
    }
    assert p[..|p|] == p;
    return p + [idx];
  }

  ghost predicate DistinctProgram(q: Query) { q.program.Some? ==> Distinct(q.program.value) }

  /** Each press starts from the stream the one before it has left. */
  ghost predicate Presses(q: Query, lasts: seq<int>)
    requires ValidQuery(q)
  {
    lasts != [] && lasts[0] == q.last && forall i :: 0 <= i < |lasts| - 1 ==> PressedFrom(q, lasts[i], lasts[i + 1])
  }

  ghost predicate PressedFrom(q: Query, last: int, next: int)
    requires ValidQuery(q)
  {
    -1 <= last < |q.streams| && Pressed(q.(last := last), next)
  }

  lemma {:induction false} StartFromFinds(p: seq<nat>, j: nat, i: nat)
    requires Distinct(p) && i <= j < |p|
    ensures StartFrom(p, p[j], i) == j
    decreases j - i
  {
    if i < j {
      StartFromFinds(p, j, i + 1);
    }
  }

  lemma {:induction false} StartFromNone(p: seq<nat>, last: int, i: nat)
    requires i <= |p| && forall k: nat :: i <= k < |p| ==> p[k] != last
    ensures StartFrom(p, last, i) == -1
    decreases |p| - i
  {
    if i < |p| {
      StartFromNone(p, last, i + 1);
    }
  }

  /** With distinct entries the search starts where the press before it stopped. */
  lemma StartIsPosition(q: Query, position: int)
    requires ValidQuery(q) && DistinctProgram(q) && -1 <= position < Positions(q)
    ensures -1 <= StreamOrOff(q, position) < |q.streams|
    ensures Start(q.(last := StreamOrOff(q, position))) == position
  {
    if q.program.Some? {
      if position == OFF {
        StartFromNone(q.program.value, OFF, 0);
      } else {
        StartFromFinds(q.program.value, position, 0);
      }
    }
  }

  /** The stream last shown matters to the start of a search only. */
  lemma SameSearch(q: Query, last: int, start: int, r: int)
    requires ValidQuery(q) && -1 <= last < |q.streams| && -1 <= start < Positions(q) && FirstHit(q, start, Some(r))
    ensures FirstHit(q.(last := last), start, Some(r))
  {
    var n: nat :| 1 <= n <= Tries(q, start) && Tried(q, start, n) == r && Missed(q, start, n);
    var q' := q.(last := last);
    forall k: nat | 1 <= k < n ensures -1 <= Tried(q', start, k) < Positions(q') && !Hit(q', Tried(q', start, k)) {
      assert Tried(q', start, k) == Tried(q, start, k);
    }
    assert Tried(q', start, n) == r && Missed(q', start, n);
  }

  lemma PressFromPosition(q: Query, from: int, to: int)
    requires ValidQuery(q) && DistinctProgram(q) && Next(q, from, to)
    ensures PressedFrom(q, StreamOrOff(q, from), StreamOrOff(q, to))
  {
    StartIsPosition(q, from);
    SameSearch(q, StreamOrOff(q, from), from, to);
  }

  /** A chain of positions is a chain of presses, whatever its first press starts from. */
  lemma PathIsPresses(q: Query, path: seq<int>) returns (lasts: seq<int>)
    requires ValidQuery(q) && DistinctProgram(q) && PositionPath(q, path) && path[0] == Start(q) && |path| > 1
    ensures -1 <= path[|path| - 1] < Positions(q)
    ensures Presses(q, lasts) && lasts[|lasts| - 1] == StreamOrOff(q, path[|path| - 1])
  {
    forall i | 0 <= i < |path| ensures -1 <= path[i] < Positions(q) {
      if i > 0 {
        assert Next(q, path[i - 1], path[i - 1 + 1]);
      }
    }
    lasts := seq(|path|, i requires 0 <= i < |path| => if i == 0 then q.last else StreamOrOff(q, path[i]));
    forall i | 0 <= i < |lasts| - 1 ensures PressedFrom(q, lasts[i], lasts[i + 1]) {
      assert Next(q, path[i], path[i + 1]);
      if i == 0 {
        assert q.(last := q.last) == q;
      } else {
        PressFromPosition(q, path[i], path[i + 1]);
      }
    }
  }

  /** Every stream that can be shown, and "off" for subtitles, is reached by
      pressing the key often enough, whatever was shown last. */
  lemma EveryChannelReached(q: Query, to: int) returns (lasts: seq<int>)
    requires ValidQuery(q) && DistinctProgram(q)
    requires -1 <= to < Positions(q) && Hit(q, to) && (to == OFF ==> q.kind == SubtitleType)
    ensures Presses(q, lasts) && lasts[|lasts| - 1] == StreamOrOff(q, to)
  {
    if q.last == StreamOrOff(q, to) {
      lasts := [q.last];
    } else {
      var path := EveryPositionReached(q, Start(q), to);
      if |path| == 1 {
        NotShown(q, to);
        var next := NextExists(q, OFF, OFF);
        var rest := EveryPositionReached(q, next, OFF);
        path := [OFF] + rest;
        forall i | 0 <= i < |path| - 1 ensures Next(q, path[i], path[i + 1]) {
          if i > 0 {
            assert Next(q, rest[i - 1], rest[i - 1 + 1]);
          }
        }
      }
      lasts := PathIsPresses(q, path);
    }
  }

  /** A search that starts where it is to end shows another stream only from outside the program. */
  lemma NotShown(q: Query, to: int)
    requires ValidQuery(q) && Start(q) == to && q.last != StreamOrOff(q, to)
    ensures to == OFF
  {
    if q.program.Some? {
      StartFromIs(q.program.value, q.last, 0);
    }
  }

  lemma {:induction false} StartFromIs(p: seq<nat>, last: int, i: nat)
    requires i <= |p|
    ensures var r := StartFrom(p, last, i); r != -1 ==> 0 <= r < |p| && p[r] == last
    decreases |p| - i
  {
    if i < |p| {
      StartFromIs(p, last, i + 1);
    }
  }

  // ---------- what a repeated entry would do ----------

  const TWICE := Query([Stream(OtherType, 0, 0), Stream(AudioType, 48000, 2), Stream(AudioType, 48000, 2)],
                       Some([1, 1, 2]), AudioType, 1)

  /** In a program that lists stream 1 twice, every press shows stream 1 again, never stream 2. */
  lemma {:induction false} RepeatedEntryTraps(lasts: seq<int>)
    requires Presses(TWICE, lasts)
    ensures Hit(TWICE, 2) && StreamAt(TWICE, 2) == 2
    ensures lasts[|lasts| - 1] == 1
  {
    if |lasts| > 1 {
      var n := |lasts| - 1;
      forall i | 0 <= i < n - 1 ensures PressedFrom(TWICE, lasts[..n][i], lasts[..n][i + 1]) {
        assert lasts[..n][i] == lasts[i] && lasts[..n][i + 1] == lasts[i + 1];
        assert PressedFrom(TWICE, lasts[i], lasts[i + 1]);
      }
      RepeatedEntryTraps(lasts[..n]);
      assert PressedFrom(TWICE, lasts[n - 1], lasts[n - 1 + 1]);
      TrappedPress(lasts[n]);
    }
  }

  lemma TrappedPress(next: int)
    requires PressedFrom(TWICE, 1, next)
    ensures next == 1
  {
    assert TWICE.(last := 1) == TWICE && Start(TWICE) == 0;
    assert Tried(TWICE, 0, 1) == 1 && Hit(TWICE, 1);
    var r :| FirstHit(TWICE, 0, Some(r)) && next == StreamOrOff(TWICE, r);
    var n: nat :| 1 <= n <= Tries(TWICE, 0) && Tried(TWICE, 0, n) == r && Missed(TWICE, 0, n);
    if n > 1 {
      assert false;
    }
  }
}
