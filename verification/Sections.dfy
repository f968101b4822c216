/** ffprobe's section table: choosing what to show marks a section and all
    sections below it, and a section is visited if anything below it is chosen. */
module Sections {
  import JsonWriter

  // ---------- the graph of sections ----------

  type Graph = seq<seq<nat>>

  ghost predicate ValidGraph(children: Graph) {
    forall i, k :: 0 <= i < |children| && 0 <= k < |children[i]| ==> children[i][k] < |children|
  }

  /** Ranks fall along every edge, so there is no cycle. */
  ghost predicate Acyclic(children: Graph, rank: seq<nat>) {
    |rank| == |children| && ValidGraph(children) &&
    forall i, k :: 0 <= i < |children| && 0 <= k < |children[i]| ==> rank[children[i][k]] < rank[i]
  }

  ghost predicate Path(children: Graph, p: seq<nat>) {
    p != [] && (forall i :: 0 <= i < |p| ==> p[i] < |children|) &&
    forall i :: 0 <= i < |p| - 1 ==> p[i + 1] in children[p[i]]
  }

  /** Some path of child links leads from one section to the other. */
  ghost predicate Reaches(children: Graph, from: nat, to: nat) {
    exists p :: Path(children, p) && p[0] == from && p[|p| - 1] == to
  }

  lemma ReachesSelf(children: Graph, a: nat)
    requires a < |children|
    ensures Reaches(children, a, a)
  {
    assert Path(children, [a]);
    assert [a][0] == a && [a][|[a]| - 1] == a;
  }

  lemma ReachesVia(children: Graph, a: nat, c: nat, b: nat)
    requires ValidGraph(children) && a < |children| && c in children[a] && Reaches(children, c, b)
    ensures Reaches(children, a, b)
  {
    var p :| Path(children, p) && p[0] == c && p[|p| - 1] == b;
    var q := [a] + p;
    forall i | 0 <= i < |q| - 1 ensures q[i + 1] in children[q[i]] {
      if i > 0 {
        assert p[i - 1 + 1] in children[p[i - 1]];
      }
    }
    assert Path(children, q) && q[0] == a && q[|q| - 1] == b;
  }

  lemma ReachesSplit(children: Graph, a: nat, b: nat) returns (c: nat)
    requires Reaches(children, a, b) && a != b
    ensures a < |children| && c in children[a] && Reaches(children, c, b)
  {
    var p :| Path(children, p) && p[0] == a && p[|p| - 1] == b;
    c := p[1];
    var q := p[1..];
    forall i | 0 <= i < |q| - 1 ensures q[i + 1] in children[q[i]] {
      assert p[i + 1 + 1] in children[p[i + 1]];
    }
    assert Path(children, q) && q[0] == c && q[|q| - 1] == b;
    assert p[0 + 1] in children[p[0]];
  }

  /** Reachable through one of the first n children. */
  ghost predicate ReachesThrough(children: Graph, a: nat, n: nat, b: nat)
    requires a < |children| && n <= |children[a]|
  {
    exists k :: 0 <= k < n && Reaches(children, children[a][k], b)
  }

  lemma ReachesIff(children: Graph, a: nat, b: nat)
    requires ValidGraph(children) && a < |children|
    ensures Reaches(children, a, b) <==> a == b || ReachesThrough(children, a, |children[a]|, b)
  {
    ReachesSelf(children, a);
    if Reaches(children, a, b) && a != b {
      var c := ReachesSplit(children, a, b);
      var k :| 0 <= k < |children[a]| && children[a][k] == c;
      assert Reaches(children, children[a][k], b);
    }
    if ReachesThrough(children, a, |children[a]|, b) {
      var k :| 0 <= k < |children[a]| && Reaches(children, children[a][k], b);
      ReachesVia(children, a, children[a][k], b);
    }
  }

  // ---------- the table ----------

  class SectionTable {
    const children: Graph
    const names: seq<string>
    const uniqueNames: seq<string>     // "" where a section has none
    var showAll: array<bool>
    var entriesToShow: array<set<string>>
    ghost const rank: seq<nat>

    ghost predicate Valid()
      reads this
    {
      Acyclic(children, rank) && |names| == |children| == |uniqueNames| &&
      showAll.Length == |children| == entriesToShow.Length
    }

    constructor (children: Graph, names: seq<string>, uniqueNames: seq<string>, ghost rank: seq<nat>)
      requires Acyclic(children, rank) && |names| == |children| == |uniqueNames|
      ensures Valid() && fresh(showAll) && fresh(entriesToShow)
      ensures this.children == children && this.names == names && this.uniqueNames == uniqueNames
      ensures forall i :: 0 <= i < |children| ==> !showAll[i] && entriesToShow[i] == {}
    {
      this.children := children;
      this.names := names;
      this.uniqueNames := uniqueNames;
      this.rank := rank;
      showAll := new bool[|children|](_ => false);
      entriesToShow := new set<string>[|children|](_ => {});
    }

    /** Shows everything of a section and of all sections below it, or adds
        single entries of the one section. */
    method MarkSectionShowEntries(id: nat, showAllEntries: bool, entries: set<string>)
      requires Valid() && id < |children|
      modifies showAll, entriesToShow
      ensures Valid()
      ensures showAllEntries ==>
                (forall i :: 0 <= i < |children| ==> showAll[i] == (old(showAll[i]) || Reaches(children, id, i))) &&
                entriesToShow[..] == old(entriesToShow[..])
      ensures !showAllEntries ==>
                showAll[..] == old(showAll[..])[id := false] &&
                entriesToShow[..] == old(entriesToShow[..])[id := old(entriesToShow[id]) + entries]
      decreases rank[id]
    {
      showAll[id] := showAllEntries;
      if showAllEntries {
        ghost var before := old(showAll[..]);
        for k := 0 to |children[id]|
          invariant forall i :: 0 <= i < |children| ==>
                      showAll[i] == (before[i] || i == id || ReachesThrough(children, id, k, i))
          invariant entriesToShow[..] == old(entriesToShow[..])
        {
          MarkSectionShowEntries(children[id][k], true, entries);
        }
        forall i | 0 <= i < |children| ensures showAll[i] == (before[i] || Reaches(children, id, i)) {
          ReachesIff(children, id, i);
        }
      } else {
        entriesToShow[id] := entriesToShow[id] + entries;
      }
    }

    /** Something is chosen in the section itself. */
    ghost predicate Chosen(i: nat)
      requires Valid() && i < |children|
      reads this, showAll, entriesToShow
    {
      showAll[i] || entriesToShow[i] != {}
    }

    method CheckSectionShowEntries(id: nat) returns (r: bool)
      requires Valid() && id < |children|
      ensures r <==> exists i :: 0 <= i < |children| && Reaches(children, id, i) && Chosen(i)
      decreases rank[id]
    {
      ReachesSelf(children, id);
      if showAll[id] || entriesToShow[id] != {} {
        assert Chosen(id);
        return true;
      }
      for k := 0 to |children[id]|
        invariant forall i :: 0 <= i < |children| && ReachesThrough(children, id, k, i) ==> !Chosen(i)
      {
        var found := CheckSectionShowEntries(children[id][k]);
        if found {
          ghost var i :| 0 <= i < |children| && Reaches(children, children[id][k], i) && Chosen(i);
          ReachesVia(children, id, children[id][k], i);
          return true;
        }
        forall i | 0 <= i < |children| && ReachesThrough(children, id, k + 1, i) ensures !Chosen(i) {
          if !Reaches(children, children[id][k], i) {
            assert ReachesThrough(children, id, k, i);
          }
        }
      }
      forall i | 0 <= i < |children| && Reaches(children, id, i) ensures !Chosen(i) {
        ReachesIff(children, id, i);
      }
      return false;
    }

    predicate Matches(i: nat, name: string)
      requires i < |names| == |uniqueNames|
    {
      name == names[i] || (uniqueNames[i] != "" && name == uniqueNames[i])
    }

    /** Marks every section of a name; 0 when there is none. */
    method MatchSection(name: string, showAllEntries: bool, entries: set<string>) returns (ret: nat)
      requires Valid()
      modifies showAll, entriesToShow
      ensures Valid()
      ensures ret == 0 <==> forall m :: 0 <= m < |children| ==> !Matches(m, name)
      ensures showAllEntries ==>
                entriesToShow[..] == old(entriesToShow[..]) &&
                forall i :: 0 <= i < |children| ==>
                  showAll[i] == (old(showAll[i]) ||
                    exists m :: 0 <= m < |children| && Matches(m, name) && Reaches(children, m, i))
      ensures !showAllEntries ==>
                forall i :: 0 <= i < |children| ==>
                  showAll[i] == (old(showAll[i]) && !Matches(i, name)) &&
                  entriesToShow[i] == old(entriesToShow[i]) + if Matches(i, name) then entries else {}
    {
      ret := 0;
      for m := 0 to |children|
        invariant ret == 0 <==> forall k :: 0 <= k < m ==> !Matches(k, name)
        invariant showAllEntries ==>
                    entriesToShow[..] == old(entriesToShow[..]) &&
                    forall i :: 0 <= i < |children| ==>
                      showAll[i] == (old(showAll[i]) ||
                        exists k :: 0 <= k < m && Matches(k, name) && Reaches(children, k, i))
        invariant !showAllEntries ==>
                    forall i :: 0 <= i < |children| ==>
                      showAll[i] == (old(showAll[i]) && !(i < m && Matches(i, name))) &&
                      entriesToShow[i] == old(entriesToShow[i]) + if i < m && Matches(i, name) then entries else {}
      {
        if Matches(m, name) {
          ret := ret + 1;
          ghost var s, e := showAll[..], entriesToShow[..];
          MarkSectionShowEntries(m, showAllEntries, entries);
          if !showAllEntries {
            assert forall i :: 0 <= i < |children| ==> showAll[i] == s[m := false][i];
            assert forall i :: 0 <= i < |children| ==> entriesToShow[i] == e[m := e[m] + entries][i];
          }
        }
      }
    }
  }

  // ---------- ffprobe's own table ----------

  /** children_ids of each section, in the order of the section identifiers. */
  const PROBE_CHILDREN: Graph := [
    [1],              //  0 chapter
    [],               //  1 chapter tags
    [0],              //  2 chapters
    [],               //  3 error
    [5],              //  4 format
    [],               //  5 format tags
    [8, 9],           //  6 frame
    [6, 38],          //  7 frames
    [],               //  8 frame tags
    [10],             //  9 frame side data list
    [],               // 10 frame side data
    [],               // 11 library version
    [11],             // 12 library versions
    [16],             // 13 packet
    [13],             // 14 packets
    [13],             // 15 packets and frames
    [17],             // 16 packet side data list
    [],               // 17 packet side data
    [19, 21],         // 18 pixel format
    [],               // 19 pixel format flags
    [],               // 20 pixel format component
    [20],             // 21 pixel format components
    [18],             // 22 pixel formats
    [],               // 23 program stream disposition
    [],               // 24 program stream tags
    [28, 26],         // 25 program
    [27],             // 26 program streams
    [23, 24],         // 27 program stream
    [],               // 28 program tags
    [],               // 29 program version
    [25],             // 30 programs
    [2, 4, 7, 30, 34, 14, 3, 29, 12, 22],  // 31 root
    [33, 35, 36],     // 32 stream
    [],               // 33 stream disposition
    [32],             // 34 streams
    [],               // 35 stream tags
    [37],             // 36 stream side data list
    [],               // 37 stream side data
    []                // 38 subtitle
  ]

  const PROBE_RANK: seq<nat> := [
    1, 0, 2, 0, 1, 0, 2, 3, 0, 1,
    0, 0, 1, 2, 3, 3, 1, 0, 2, 0,
    0, 1, 3, 0, 0, 3, 2, 1, 0, 0,
    4, 5, 2, 0, 3, 0, 1, 0, 0
  ]

  const PROBE_ROOT: nat := 31

  /** The sections flagged as arrays. */
  const PROBE_ARRAYS: set<nat> := {2, 7, 9, 12, 14, 15, 16, 21, 22, 26, 30, 34, 36}

  lemma ProbeTableAcyclic()
    ensures Acyclic(PROBE_CHILDREN, PROBE_RANK)
  {
    forall i, k | 0 <= i < |PROBE_CHILDREN| && 0 <= k < |PROBE_CHILDREN[i]|
      ensures PROBE_CHILDREN[i][k] < |PROBE_CHILDREN| && PROBE_RANK[PROBE_CHILDREN[i][k]] < PROBE_RANK[i]
    {
      assert k < 10;
    }
  }

  /** Arrays hold no arrays, and the root is below nothing. */
  lemma ProbeTableLayout(i: nat, k: nat)
    requires i < |PROBE_CHILDREN| && k < |PROBE_CHILDREN[i]|
    ensures var child := PROBE_CHILDREN[i][k];
      child != PROBE_ROOT && (i in PROBE_ARRAYS ==> child !in PROBE_ARRAYS)
  {
    assert k < 10;
  }

  lemma {:induction false} PathLength(children: Graph, rank: seq<nat>, p: seq<nat>)
    requires Acyclic(children, rank) && Path(children, p)
    ensures |p| <= rank[p[0]] + 1
  {
    if |p| > 1 {
      assert p[0 + 1] in children[p[0]];
      var k :| 0 <= k < |children[p[0]]| && children[p[0]][k] == p[1];
      var q := p[1..];
      forall i | 0 <= i < |q| - 1 ensures q[i + 1] in children[q[i]] {
        assert p[i + 1 + 1] in children[p[i + 1]];
      }
      PathLength(children, rank, q);
    }
  }

  lemma PathBound(children: Graph, rank: seq<nat>, p: seq<nat>, top: nat)
    requires Acyclic(children, rank) && Path(children, p) && RanksUpTo(rank, top)
    ensures |p| <= top + 1
  {
    PathLength(children, rank, p);
    assert p[0] < |rank|;
  }

  ghost predicate RanksUpTo(rank: seq<nat>, top: nat) { forall i :: 0 <= i < |rank| ==> rank[i] <= top }

  lemma ProbeRanks()
    ensures RanksUpTo(PROBE_RANK, 5)
  {
  }

  const FRAMES: nat := 7

  /** How ffprobe nests what it prints: besides the children, the root holds
      packets and frames together, and these hold packets, frames and subtitles;
      a writer that does not join them is given packets among the frames. */
  const PROBE_NESTING: Graph :=
    PROBE_CHILDREN[FRAMES := [6, 38, 13]][JsonWriter.PACKETS_AND_FRAMES := [13, 6, 38]]
      [PROBE_ROOT := PROBE_CHILDREN[PROBE_ROOT] + [JsonWriter.PACKETS_AND_FRAMES]]

  lemma AcyclicUpdate(children: Graph, rank: seq<nat>, i: nat, links: seq<nat>)
    requires Acyclic(children, rank) && i < |children|
    requires forall k :: 0 <= k < |links| ==> links[k] < |rank| && rank[links[k]] < rank[i]
    ensures Acyclic(children[i := links], rank)
  {
  }

  lemma ProbeNestingAcyclic()
    ensures Acyclic(PROBE_NESTING, PROBE_RANK)
  {
    hide Acyclic;
    ProbeTableAcyclic();
    AcyclicTable();
    var links := [6, 38, 13];
    AcyclicUpdate(PROBE_CHILDREN, PROBE_RANK, FRAMES, links);
    AcyclicUpdate(PROBE_CHILDREN[FRAMES := links], PROBE_RANK, JsonWriter.PACKETS_AND_FRAMES, [13, 6, 38]);
    RootLinks();
    AcyclicUpdate(PROBE_CHILDREN[FRAMES := links][JsonWriter.PACKETS_AND_FRAMES := [13, 6, 38]], PROBE_RANK,
                  PROBE_ROOT, PROBE_CHILDREN[PROBE_ROOT] + [JsonWriter.PACKETS_AND_FRAMES]);
  }

  lemma AcyclicTable()
    ensures |PROBE_CHILDREN| == |PROBE_RANK| == 39 && PROBE_ROOT < 39
  {
  }

  lemma RootLinks()
    ensures var links := PROBE_CHILDREN[PROBE_ROOT] + [JsonWriter.PACKETS_AND_FRAMES];
      forall k :: 0 <= k < |links| ==> links[k] < |PROBE_RANK| && PROBE_RANK[links[k]] < PROBE_RANK[PROBE_ROOT]
  {
  }

  /** The child links are among the nestings. */
  lemma ChildrenNest(p: seq<nat>)
    requires Path(PROBE_CHILDREN, p)
    ensures Path(PROBE_NESTING, p)
  {
    forall i | 0 <= i < |p| - 1 ensures p[i + 1] in PROBE_NESTING[p[i]] {
      assert p[i + 1] in PROBE_CHILDREN[p[i]];
      if p[i] == JsonWriter.PACKETS_AND_FRAMES {
        assert PROBE_NESTING[p[i]][0] == 13;
      } else if p[i] == FRAMES {
        assert PROBE_NESTING[p[i]][0] == 6 && PROBE_NESTING[p[i]][1] == 38;
      }
    }
  }

  /** Any chain of sections nested in each other fits the levels of a writer. */
  lemma ProbeDepth(p: seq<nat>)
    requires Path(PROBE_NESTING, p) || Path(PROBE_CHILDREN, p)
    ensures |p| <= 6 <= JsonWriter.SECTION_MAX_NB_LEVELS
  {
    hide Path;
    if Path(PROBE_CHILDREN, p) {
      ChildrenNest(p);
    }
    ProbeNestingAcyclic();
    ProbeRanks();
    PathBound(PROBE_NESTING, PROBE_RANK, p, 5);
  }
}
