/** Which surface a decoder gets next: over its life, the free one that was handed
    out longest ago; and how many it starts with. */
module SurfaceOrder {
  import opened SurfacePool
  import opened Wrappers

  /** Twenty surfaces for a codec with many reference frames, six for any other, and
      one more for each frame thread. */
  lemma SurfaceCountIs(frameThreads: nat)
    ensures SurfaceCount(true, frameThreads) == 20 + frameThreads
    ensures SurfaceCount(false, frameThreads) == 6 + frameThreads
  {
  }

  /** A decoder starts with all its surfaces free. */
  lemma CreatedFree(p: Pool, surfaces: seq<nat>, d: nat)
    ensures var p' := Create(p, surfaces, Some(d));
      p'.surfaces == surfaces && p'.owner.decoder == Some(d) && |p'.used| == |surfaces| &&
      forall i :: 0 <= i < |surfaces| ==> !p'.used[i]
  {
  }

  /** While one decoder lives: frames are got and released. */
  datatype Use = Taken | GivenBack(w: nat)

  ghost function Next(p: Pool, u: Use): Option<Pool> {
    match u
    case Taken => Step(p, GetBuffer)
    case GivenBack(w) => Step(p, ReleaseBuffer(w))
  }

  /** The pool after some uses, and the positions handed out, oldest first. */
  ghost function Uses(p: Pool, uses: seq<Use>): Option<(Pool, seq<nat>)> {
    if uses == [] then Some((p, []))
    else
      match Uses(p, uses[..|uses| - 1])
      case None => None
      case Some((q, handed)) =>
        match Next(q, uses[|uses| - 1])
        case None => None
        case Some(q') => Some((q', handed + HandedOut(q, q', uses[|uses| - 1])))
  }

  /** The position a get has marked as used. */
  ghost function HandedOut(q: Pool, q': Pool, u: Use): seq<nat> {
    if u == Taken && exists i: nat :: NewlyUsed(q, q', i) then
      var i: nat :| NewlyUsed(q, q', i); [i]
    else []
  }

  ghost predicate NewlyUsed(q: Pool, q': Pool, i: nat) {
    i < |q.used| == |q'.used| && !q.used[i] && q'.used[i]
  }

  /** When a position was last handed out, counted from 0; 0 also if it never was. */
  function LastUse(handed: seq<nat>, i: nat): nat {
    if handed == [] then 0
    else if handed[|handed| - 1] == i then |handed| - 1
    else LastUse(handed[..|handed| - 1], i)
  }

  lemma LastUseAppend(handed: seq<nat>, j: nat, i: nat)
    ensures LastUse(handed + [j], i) == if i == j then |handed| else LastUse(handed, i)
  {
    assert (handed + [j])[..|handed|] == handed;
  }

  ghost predicate AgesTell(p: Pool, handed: seq<nat>) {
    Shaped(p) && p.surfaceAge == |handed| && forall i :: 0 <= i < |p.age| ==> p.age[i] == LastUse(handed, i)
  }

  /** No free surface was handed out before that at i, and none in front of it as long ago. */
  ghost predicate LongestAgo(q: Pool, handed: seq<nat>, i: nat)
    requires i < |q.used|
  {
    (forall j: nat :: j < |q.used| && !q.used[j] ==> LastUse(handed, i) <= LastUse(handed, j)) &&
    (forall j: nat :: j < i && !q.used[j] ==> LastUse(handed, i) < LastUse(handed, j))
  }

  lemma GetHandsOut(q: Pool)
    requires Shaped(q)
    ensures Get(q).Some? ==> HandedOut(q, Get(q).value, Taken) == [Oldest(q.used, q.age, |q.used|).value]
    ensures Get(q).None? ==> HandedOut(q, q, Taken) == []
  {
    if Get(q).Some? {
      assert NewlyUsed(q, Get(q).value, Oldest(q.used, q.age, |q.used|).value);
    }
  }

  lemma UseKeepsAges(q: Pool, u: Use, handed: seq<nat>)
    requires AgesTell(q, handed) && Next(q, u).Some?
    ensures AgesTell(Next(q, u).value, handed + HandedOut(q, Next(q, u).value, u))
  {
    hide Oldest;
    var q' := Next(q, u).value;
    match u {
      case GivenBack(w) => assert handed + [] == handed;
      case Taken =>
        GetHandsOut(q);
        if Get(q).Some? {
          var j := Oldest(q.used, q.age, |q.used|).value;
          forall i | 0 <= i < |q.age| ensures q'.age[i] == LastUse(handed + [j], i) {
            LastUseAppend(handed, j, i);
          }
        } else {
          assert handed + [] == handed;
        }
    }
  }

  lemma {:induction false} UsesKeepAges(p: Pool, uses: seq<Use>)
    requires AgesTell(p, []) && Uses(p, uses).Some?
    ensures AgesTell(Uses(p, uses).value.0, Uses(p, uses).value.1)
    decreases |uses|
  {
    hide Next, AgesTell, HandedOut;
    if uses != [] {
      UsesKeepAges(p, uses[..|uses| - 1]);
      var (q, handed) := Uses(p, uses[..|uses| - 1]).value;
      UseKeepsAges(q, uses[|uses| - 1], handed);
    }
  }

  /** Over every life of a decoder, the surface handed out next is free, and no free
      one was last handed out before it; of those, the first in the pool. (A surface
      never used counts as one handed out first.) */
  lemma LongestAgoFirst(p: Pool, surfaces: seq<nat>, d: nat, uses: seq<Use>)
    requires var p0 := Create(p, surfaces, Some(d)); Uses(p0, uses).Some?
    ensures var (q, handed) := Uses(Create(p, surfaces, Some(d)), uses).value;
      Shaped(q) && match Get(q)
        case None => forall i :: 0 <= i < |q.used| ==> q.used[i]
        case Some(q') => exists i: nat :: NewlyUsed(q, q', i) && LongestAgo(q, handed, i)
  {
    var p0 := Create(p, surfaces, Some(d));
    UsesKeepAges(p0, uses);
    var (q, handed) := Uses(p0, uses).value;
    if Get(q).Some? {
      var i := Oldest(q.used, q.age, |q.used|).value;
      assert NewlyUsed(q, Get(q).value, i) && LongestAgo(q, handed, i);
    }
  }
}
