/** Timestamp repair before muxing: ffmpeg makes the decode timestamps of an
    output stream rise and keeps presentation after decoding. */
module DtsRepair {
  import opened Timestamps

  datatype Stamps = Stamps(pts: int, dts: int)

  /** Flags of the output format and whether the stream is audio or video. */
  datatype Config = Config(noTimestamps: bool, tsNonstrict: bool, audioOrVideo: bool)

  /** No 64-bit timestamp is below the unset one. */
  predicate InRange(p: Stamps) { p.pts >= AV_NOPTS_VALUE && p.dts >= AV_NOPTS_VALUE }

  function Min3(a: int, b: int, c: int): int {
    var m := if a < b then a else b; if m < c then m else c
  }

  function Max3(a: int, b: int, c: int): int {
    var m := if a > b then a else b; if m > c then m else c
  }

  /** Both timestamps when decoding would come after presentation. */
  function Guess(last: int, p: Stamps): int {
    p.pts + p.dts + last + 1 - Min3(p.pts, p.dts, last + 1) - Max3(p.pts, p.dts, last + 1)
  }

  function Ordered(last: int, p: Stamps): Stamps {
    if Set(p.dts) && Set(p.pts) && p.dts > p.pts then Stamps(Guess(last, p), Guess(last, p)) else p
  }

  /** The least decode timestamp allowed after `last`. */
  function Floor(c: Config, last: int): int { last + if c.tsNonstrict then 0 else 1 }

  function Raised(c: Config, last: int, p: Stamps): Stamps {
    if c.audioOrVideo && Set(p.dts) && Set(last) && p.dts < Floor(c, last) then
      Stamps(if p.pts >= p.dts && p.pts < Floor(c, last) then Floor(c, last) else p.pts, Floor(c, last))
    else p
  }

  /** The timestamps a packet is written with. */
  function Repair(c: Config, last: int, p: Stamps): Stamps {
    if c.noTimestamps then p else Raised(c, last, Ordered(last, p))
  }

  class OutputStream {
    const c: Config
    var lastMuxDts: int

    constructor (config: Config)
      ensures c == config && lastMuxDts == AV_NOPTS_VALUE
    {
      c := config;
      lastMuxDts := AV_NOPTS_VALUE;
    }

    method WriteFrame(packet: Stamps) returns (written: Stamps)
      modifies this
      ensures written == Repair(c, old(lastMuxDts), packet)
      ensures lastMuxDts == written.dts
    {
      var pts, dts := packet.pts, packet.dts;
      if !c.noTimestamps {
        if dts != AV_NOPTS_VALUE && pts != AV_NOPTS_VALUE && dts > pts {
          var guess := pts + dts + lastMuxDts + 1
            - Min3(pts, dts, lastMuxDts + 1)
            - Max3(pts, dts, lastMuxDts + 1);
          pts, dts := guess, guess;
        }
        if c.audioOrVideo && dts != AV_NOPTS_VALUE && lastMuxDts != AV_NOPTS_VALUE {
          var max := lastMuxDts + (if c.tsNonstrict then 0 else 1);
          if dts < max {
            if pts >= dts {
              pts := if pts > max then pts else max;
            }
            dts := max;
          }
        }
      }
      lastMuxDts := dts;
      return Stamps(pts, dts);
    }
  }

  /** What a run of packets is written with, `last` being the decode timestamp before it. */
  function Written(c: Config, last: int, ps: seq<Stamps>): (out: seq<Stamps>)
    ensures |out| == |ps|
    decreases |ps|
  {
    if ps == [] then [] else
    var p := Repair(c, last, ps[0]);
    [p] + Written(c, p.dts, ps[1..])
  }

  // ---------- the guess ----------

  /** m is a middle one of three numbers: at least two are not above it, at least two not below. */
  predicate IsMedian(m: int, a: int, b: int, c: int) {
    (m == a && (b <= m <= c || c <= m <= b)) ||
    (m == b && (a <= m <= c || c <= m <= a)) ||
    (m == c && (a <= m <= b || b <= m <= a))
  }

  lemma GuessIsMedian(last: int, p: Stamps)
    ensures IsMedian(Guess(last, p), p.pts, p.dts, last + 1)
  {
  }

  // ---------- one packet ----------

  lemma RepairKeepsRange(c: Config, last: int, p: Stamps)
    requires InRange(p) && last >= AV_NOPTS_VALUE
    ensures InRange(Repair(c, last, p))
    ensures Set(Repair(c, last, p).dts) <==> Set(p.dts)
    ensures Set(Repair(c, last, p).pts) <==> Set(p.pts)
  {
    GuessIsMedian(last, p);
  }

  /** What a muxer wants of a packet after `last`. */
  predicate Acceptable(c: Config, last: int, p: Stamps) {
    (Set(p.pts) && Set(p.dts) ==> p.pts >= p.dts) &&
    (Set(last) && Set(p.dts) && c.audioOrVideo ==> p.dts >= Floor(c, last))
  }

  lemma RepairAcceptable(c: Config, last: int, p: Stamps)
    requires InRange(p) && last >= AV_NOPTS_VALUE && !c.noTimestamps
    ensures Acceptable(c, last, Repair(c, last, p))
    ensures Acceptable(c, last, p) <==> Repair(c, last, p) == p
  {
    GuessIsMedian(last, p);
  }

  function Larger(a: int, b: int): int { if a > b then a else b }

  /** What a packet is written with: if decoding would come after presentation, both
      become a middle one of pts, dts and the next dts; then dts is raised to the
      least one allowed, and pts, if dts was not after it, along with dts as far as needed. */
  lemma RepairIs(c: Config, last: int, p: Stamps)
    requires InRange(p) && last >= AV_NOPTS_VALUE && !c.noTimestamps
    ensures var r := Repair(c, last, p);
      exists q: Stamps ::
        (if Set(p.pts) && Set(p.dts) && p.dts > p.pts
         then q.pts == q.dts && IsMedian(q.dts, p.pts, p.dts, last + 1) else q == p) &&
        var least := if c.tsNonstrict then last else last + 1;
        if c.audioOrVideo && Set(last) && Set(p.dts)
        then r == Stamps(if q.pts >= q.dts then Larger(q.pts, least) else q.pts, Larger(q.dts, least))
        else r == q
  {
    var q := Ordered(last, p);
    GuessIsMedian(last, p);
    assert if Set(p.pts) && Set(p.dts) && p.dts > p.pts
           then q.pts == q.dts && IsMedian(q.dts, p.pts, p.dts, last + 1) else q == p;
  }

  // ---------- whole runs ----------

  ghost predicate AllInRange(ps: seq<Stamps>) { forall p <- ps :: InRange(p) }

  /** Every packet is acceptable after the one before it. */
  ghost predicate ValidRun(c: Config, last: int, ps: seq<Stamps>) {
    forall i :: 0 <= i < |ps| ==> AcceptableAt(c, last, ps, i)
  }

  ghost predicate AcceptableAt(c: Config, last: int, ps: seq<Stamps>, i: int)
    requires 0 <= i < |ps|
  {
    Acceptable(c, if i == 0 then last else ps[i - 1].dts, ps[i])
  }

  lemma ValidRunCons(c: Config, last: int, p: Stamps, ps: seq<Stamps>)
    ensures ValidRun(c, last, [p] + ps) <==> Acceptable(c, last, p) && ValidRun(c, p.dts, ps)
  {
    var all := [p] + ps;
    assert Acceptable(c, last, p) == AcceptableAt(c, last, all, 0);
    forall i | 0 <= i < |ps| ensures AcceptableAt(c, p.dts, ps, i) == AcceptableAt(c, last, all, i + 1) {
      assert all[i + 1] == ps[i] && all[i] == if i == 0 then p else ps[i - 1];
    }
    if ValidRun(c, p.dts, ps) && Acceptable(c, last, p) {
      forall i | 0 <= i < |all| ensures AcceptableAt(c, last, all, i) {
        if i > 0 {
          assert AcceptableAt(c, p.dts, ps, i - 1);
        }
      }
    }
  }

  /** Over every run: decode timestamps of neighbours rise, presentation never
      comes before decoding, and no timestamp appears or disappears. */
  lemma {:induction false} WrittenValid(c: Config, last: int, ps: seq<Stamps>)
    requires AllInRange(ps) && last >= AV_NOPTS_VALUE && !c.noTimestamps
    ensures ValidRun(c, last, Written(c, last, ps)) && AllInRange(Written(c, last, ps))
    ensures forall i :: 0 <= i < |ps| ==>
              (Set(Written(c, last, ps)[i].dts) <==> Set(ps[i].dts)) &&
              (Set(Written(c, last, ps)[i].pts) <==> Set(ps[i].pts))
    decreases |ps|
  {
    if ps != [] {
      var p := Repair(c, last, ps[0]);
      RepairKeepsRange(c, last, ps[0]);
      RepairAcceptable(c, last, ps[0]);
      WrittenValid(c, p.dts, ps[1..]);
      ValidRunCons(c, last, p, Written(c, p.dts, ps[1..]));
    }
  }

  /** Repair changes nothing exactly when the run was valid already. */
  lemma {:induction false} UnchangedIffValid(c: Config, last: int, ps: seq<Stamps>)
    requires AllInRange(ps) && last >= AV_NOPTS_VALUE && !c.noTimestamps
    ensures Written(c, last, ps) == ps <==> ValidRun(c, last, ps)
    decreases |ps|
  {
    if ps != [] {
      var p, rest := Repair(c, last, ps[0]), ps[1..];
      RepairKeepsRange(c, last, ps[0]);
      RepairAcceptable(c, last, ps[0]);
      UnchangedIffValid(c, p.dts, rest);
      assert ps == [ps[0]] + rest;
      ValidRunCons(c, last, ps[0], rest);
      if Written(c, last, ps) == ps {
        assert Written(c, last, ps)[0] == ps[0] && Written(c, last, ps)[1..] == rest;
      }
    }
  }

  lemma RepairIdempotent(c: Config, last: int, ps: seq<Stamps>)
    requires AllInRange(ps) && last >= AV_NOPTS_VALUE && !c.noTimestamps
    ensures Written(c, last, Written(c, last, ps)) == Written(c, last, ps)
  {
    WrittenValid(c, last, ps);
    UnchangedIffValid(c, last, Written(c, last, ps));
  }

  /** Through any stretch of packets that all have a decode timestamp, the
      timestamps rise, strictly unless the format allows equal ones. */
  lemma {:induction false} StretchRises(c: Config, last: int, ps: seq<Stamps>, i: nat, j: nat)
    requires AllInRange(ps) && last >= AV_NOPTS_VALUE && !c.noTimestamps && c.audioOrVideo
    requires i < j < |ps| && forall k :: i <= k <= j ==> Set(ps[k].dts)
    ensures var out := Written(c, last, ps);
      out[i].dts <= out[j].dts && (!c.tsNonstrict ==> out[i].dts < out[j].dts)
    decreases j - i
  {
    WrittenValid(c, last, ps);
    var out := Written(c, last, ps);
    assert AcceptableAt(c, last, out, j);
    if i < j - 1 {
      StretchRises(c, last, ps, i, j - 1);
    }
  }

  // ---------- gaps ----------

  /** Each packet is repaired after what was written before it. */
  lemma {:induction false} WrittenAt(c: Config, last: int, ps: seq<Stamps>, i: nat)
    requires i < |ps|
    ensures var out := Written(c, last, ps); out[i] == Repair(c, if i == 0 then last else out[i - 1].dts, ps[i])
    decreases |ps|
  {
    if i > 0 {
      WrittenAt(c, Repair(c, last, ps[0]).dts, ps[1..], i - 1);
    }
  }

  /** The decode timestamp a packet is given when there is none before it. */
  function FreshDts(p: Stamps): int { if Set(p.pts) && p.pts < p.dts then p.pts else p.dts }

  lemma RepairFresh(c: Config, p: Stamps)
    requires InRange(p) && Set(p.dts) && !c.noTimestamps
    ensures Repair(c, AV_NOPTS_VALUE, p).dts == FreshDts(p)
  {
    GuessIsMedian(AV_NOPTS_VALUE, p);
  }

  /** Packets between i and j, at least one, and none with a decode timestamp. */
  ghost predicate Gap(ps: seq<Stamps>, i: nat, j: nat)
    requires j < |ps|
  {
    i + 1 < j && Set(ps[i].dts) && Set(ps[j].dts) && forall k :: i < k < j ==> !Set(ps[k].dts)
  }

  ghost predicate RisesTo(c: Config, ps: seq<Stamps>, i: nat, j: nat)
    requires i < |ps| && j < |ps|
  {
    ps[j].dts >= Floor(c, ps[i].dts)
  }

  /** Across a gap the timestamps rise exactly if the packet after it was high
      enough by itself: the gap makes the stream forget the last timestamp. */
  lemma GapRisesIff(c: Config, last: int, ps: seq<Stamps>, i: nat, j: nat)
    requires AllInRange(ps) && last >= AV_NOPTS_VALUE && !c.noTimestamps && j < |ps| && Gap(ps, i, j)
    ensures var out := Written(c, last, ps);
      RisesTo(c, out, i, j) <==> FreshDts(ps[j]) >= Floor(c, out[i].dts)
  {
    WrittenValid(c, last, ps);
    WrittenAt(c, last, ps, j);
    RepairFresh(c, ps[j]);
  }

  /** All the decode timestamps of a run rise, whatever lies between them. */
  ghost predicate AllRise(c: Config, ps: seq<Stamps>) {
    forall i, j :: 0 <= i < j < |ps| && Set(ps[i].dts) && Set(ps[j].dts) ==> RisesTo(c, ps, i, j)
  }

  /** Every packet after a gap comes high enough by itself. */
  ghost predicate GapsRise(c: Config, last: int, ps: seq<Stamps>) {
    forall i, j :: 0 <= i < j < |ps| && Gap(ps, i, j) ==> FreshDts(ps[j]) >= Floor(c, Written(c, last, ps)[i].dts)
  }

  lemma {:induction false} RisesThrough(c: Config, last: int, ps: seq<Stamps>, i: nat, j: nat)
    requires AllInRange(ps) && last >= AV_NOPTS_VALUE && !c.noTimestamps && c.audioOrVideo && GapsRise(c, last, ps)
    requires i < j < |ps| && Set(ps[i].dts) && Set(ps[j].dts)
    ensures RisesTo(c, Written(c, last, ps), i, j)
    decreases j - i
  {
    var out := Written(c, last, ps);
    WrittenValid(c, last, ps);
    if k: nat :| i < k < j && Set(ps[k].dts) {
      RisesThrough(c, last, ps, i, k);
      RisesThrough(c, last, ps, k, j);
    } else if j == i + 1 {
      assert AcceptableAt(c, last, out, j);
    } else {
      assert Gap(ps, i, j);
      GapRisesIff(c, last, ps, i, j);
    }
  }

  /** The decode timestamps of a whole run rise exactly if every packet after a
      gap comes high enough by itself. */
  lemma AllRiseIff(c: Config, last: int, ps: seq<Stamps>)
    requires AllInRange(ps) && last >= AV_NOPTS_VALUE && !c.noTimestamps && c.audioOrVideo
    ensures AllRise(c, Written(c, last, ps)) <==> GapsRise(c, last, ps)
  {
    var out := Written(c, last, ps);
    WrittenValid(c, last, ps);
    if GapsRise(c, last, ps) {
      forall i, j | 0 <= i < j < |out| && Set(out[i].dts) && Set(out[j].dts) ensures RisesTo(c, out, i, j) {
        RisesThrough(c, last, ps, i, j);
      }
    }
    if AllRise(c, out) {
      forall i, j | 0 <= i < j < |ps| && Gap(ps, i, j) ensures FreshDts(ps[j]) >= Floor(c, out[i].dts) {
        assert RisesTo(c, out, i, j);
        GapRisesIff(c, last, ps, i, j);
      }
    }
  }

  /** A run whose timestamps fall across a gap and are left as they are. */
  lemma GapForgets(c: Config)
    requires !c.noTimestamps
    ensures var ps := [Stamps(10, 10), Stamps(AV_NOPTS_VALUE, AV_NOPTS_VALUE), Stamps(5, 5)];
      Written(c, AV_NOPTS_VALUE, ps) == ps && Gap(ps, 0, 2) && !RisesTo(c, ps, 0, 2)
  {
    var ps := [Stamps(10, 10), Stamps(AV_NOPTS_VALUE, AV_NOPTS_VALUE), Stamps(5, 5)];
    forall i | 0 <= i < |ps| ensures AcceptableAt(c, AV_NOPTS_VALUE, ps, i) {
      assert i == 0 || i == 1 || i == 2;
    }
    UnchangedIffValid(c, AV_NOPTS_VALUE, ps);
  }

  // ---------- the repair is the least one ----------

  /** Timestamps that rise from `last` on and are nowhere below the wanted ones. */
  ghost predicate RisesAbove(c: Config, last: int, ps: seq<Stamps>, ds: seq<int>)
    decreases |ps|
  {
    |ds| == |ps| &&
    (ps != [] ==>
       ps[0].dts <= ds[0] && (Set(last) ==> Floor(c, last) <= ds[0]) && RisesAbove(c, ds[0], ps[1..], ds[1..]))
  }

  function Decoding(ps: seq<Stamps>): (ds: seq<int>)
    ensures |ds| == |ps| && forall i :: 0 <= i < |ps| ==> ds[i] == ps[i].dts
  {
    seq(|ps|, i requires 0 <= i < |ps| => ps[i].dts)
  }

  /** A lower start leaves every rising choice allowed. */
  lemma LowerStart(c: Config, last: int, lower: int, ps: seq<Stamps>, ds: seq<int>)
    requires RisesAbove(c, last, ps, ds) && AV_NOPTS_VALUE < lower <= last
    ensures RisesAbove(c, lower, ps, ds)
  {
  }

  /** For packets that only need their decode timestamps raised, the repaired
      timestamps rise, and no rising choice raises any of them less. */
  lemma {:induction false} LeastRepair(c: Config, last: int, ps: seq<Stamps>, ds: seq<int>)
    requires AllInRange(ps) && last >= AV_NOPTS_VALUE && !c.noTimestamps && c.audioOrVideo
    requires forall p <- ps :: Set(p.dts) && (Set(p.pts) ==> p.pts >= p.dts)
    requires RisesAbove(c, last, ps, ds)
    ensures RisesAbove(c, last, ps, Decoding(Written(c, last, ps)))
    ensures forall i :: 0 <= i < |ps| ==> Written(c, last, ps)[i].dts <= ds[i]
    decreases |ps|
  {
    if ps != [] {
      var p := Repair(c, last, ps[0]);
      RepairKeepsRange(c, last, ps[0]);
      LowerStart(c, ds[0], p.dts, ps[1..], ds[1..]);
      LeastRepair(c, p.dts, ps[1..], ds[1..]);
      var out, rest := Written(c, last, ps), Written(c, p.dts, ps[1..]);
      assert Decoding(out)[1..] == Decoding(rest);
      forall i | 0 <= i < |ps| ensures out[i].dts <= ds[i] {
        if i > 0 {
          assert out[i] == rest[i - 1] && ds[i] == ds[1..][i - 1];
        }
      }
    }
  }
}
