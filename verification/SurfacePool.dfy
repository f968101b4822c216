/** The pool of DXVA2 decoder surfaces: the free surface used longest ago is
    handed out, and frames still held after a decoder is destroyed do not
    disturb the pool of the next one. */
module SurfacePool {
  import opened Wrappers

  /** The decoder of the pool and the references to decoder objects; `kept` maps
      each wrapper that is still out to the decoder it holds. */
  datatype Owner = Owner(decoder: Option<nat>, refs: map<nat, nat>, kept: map<nat, nat>)

  /** `refs` counts the references to every surface object that is alive;
      `held` maps each wrapper that is still out to the surface it holds. */
  datatype Pool = Pool(
    surfaces: seq<nat>,
    used: seq<bool>,
    age: seq<nat>,
    surfaceAge: nat,
    refs: map<nat, nat>,
    held: map<nat, nat>,
    nextWrapper: nat,
    owner: Owner)

  const EMPTY := Pool([], [], [], 0, map[], map[], 0, Owner(None, map[], map[]))

  function Refs(refs: map<nat, nat>, s: nat): nat { if s in refs then refs[s] else 0 }

  function AddRef(refs: map<nat, nat>, s: nat): map<nat, nat> { refs[s := Refs(refs, s) + 1] }

  function DropRef(refs: map<nat, nat>, s: nat): map<nat, nat> {
    if Refs(refs, s) == 0 then refs else refs[s := Refs(refs, s) - 1]
  }

  // ---------- references to decoders ----------

  function Keep(o: Owner, w: nat): Owner
    requires o.decoder.Some?
  {
    o.(refs := AddRef(o.refs, o.decoder.value), kept := o.kept[w := o.decoder.value])
  }

  function Unkeep(o: Owner, w: nat): Owner
    requires w in o.kept
  {
    o.(refs := DropRef(o.refs, o.kept[w]), kept := o.kept - {w})
  }

  function Drop(o: Owner): Owner {
    match o.decoder case None => o case Some(d) => o.(decoder := None, refs := DropRef(o.refs, d))
  }

  function Own(o: Owner, d: nat): Owner { o.(decoder := Some(d), refs := AddRef(o.refs, d)) }

  // ---------- what the operations do ----------

  /** The free surface of least age among the first n, the first of equals. */
  function Oldest(used: seq<bool>, age: seq<nat>, n: nat): (r: Option<nat>)
    requires n <= |used| == |age|
    ensures r.None? <==> forall i :: 0 <= i < n ==> used[i]
    ensures r.Some? ==> r.value < n && !used[r.value]
    ensures r.Some? ==> forall i :: 0 <= i < n && !used[i] ==> age[r.value] <= age[i]
    ensures r.Some? ==> forall i :: 0 <= i < r.value && !used[i] ==> age[r.value] < age[i]
  {
    if n == 0 then None else
    var r := Oldest(used, age, n - 1);
    if !used[n - 1] && (r.None? || age[n - 1] < age[r.value]) then Some(n - 1) else r
  }

  /** The arrays go together, and surfaces come with a decoder. */
  predicate Shaped(p: Pool) {
    |p.used| == |p.age| == |p.surfaces| && (p.surfaces != [] ==> p.owner.decoder.Some?)
  }

  function Get(p: Pool): (r: Option<Pool>)
    requires Shaped(p)
  {
    match Oldest(p.used, p.age, |p.used|)
    case None => None
    case Some(i) =>
      Some(p.(used := p.used[i := true], age := p.age[i := p.surfaceAge], surfaceAge := p.surfaceAge + 1,
              refs := AddRef(p.refs, p.surfaces[i]),
              held := p.held[p.nextWrapper := p.surfaces[i]], nextWrapper := p.nextWrapper + 1,
              owner := Keep(p.owner, p.nextWrapper)))
  }

  /** First position of a surface in the pool, if it is still there. */
  function Find(surfaces: seq<nat>, s: nat, i: nat): (r: Option<nat>)
    requires i <= |surfaces|
    ensures r.None? <==> s !in surfaces[i..]
    ensures r.Some? ==> i <= r.value < |surfaces| && surfaces[r.value] == s
    decreases |surfaces| - i
  {
    if i == |surfaces| then None else if surfaces[i] == s then Some(i) else Find(surfaces, s, i + 1)
  }

  function Release(p: Pool, w: nat): Pool
    requires |p.used| == |p.surfaces| && w in p.held && w in p.owner.kept
  {
    var s := p.held[w];
    p.(used := match Find(p.surfaces, s, 0) case None => p.used case Some(i) => p.used[i := false],
       refs := DropRef(p.refs, s), held := p.held - {w},
       owner := Unkeep(p.owner, w))
  }

  function DropAll(refs: map<nat, nat>, surfaces: seq<nat>): map<nat, nat>
    decreases |surfaces|
  {
    if surfaces == [] then refs else DropAll(DropRef(refs, surfaces[0]), surfaces[1..])
  }

  function Destroy(p: Pool): Pool {
    p.(surfaces := [], used := [], age := [], surfaceAge := 0, refs := DropAll(p.refs, p.surfaces),
       owner := Drop(p.owner))
  }

  function AddAll(refs: map<nat, nat>, surfaces: seq<nat>): map<nat, nat>
    decreases |surfaces|
  {
    if surfaces == [] then refs else AddAll(AddRef(refs, surfaces[0]), surfaces[1..])
  }

  /** How many surfaces a decoder gets: four to work on, the reference frames of
      the codec, and one for each frame thread. */
  function SurfaceCount(manyRefs: bool, frameThreads: nat): nat { 4 + (if manyRefs then 16 else 2) + frameThreads }

  /** The driver creates new surface objects: none of them is alive already. */
  ghost predicate NewSurfaces(p: Pool, surfaces: seq<nat>) {
    p.surfaces == [] && Distinct(surfaces) && forall s <- surfaces :: Refs(p.refs, s) == 0
  }

  function WithSurfaces(p: Pool, surfaces: seq<nat>): Pool {
    p.(surfaces := surfaces, used := seq(|surfaces|, _ => false), age := seq(|surfaces|, _ => 0),
       surfaceAge := 0, refs := AddAll(p.refs, surfaces))
  }

  /** A new decoder object with its one reference. */
  ghost predicate NewDecoder(p: Pool, decoder: Option<nat>) {
    p.owner.decoder.None? && (decoder.Some? ==> Refs(p.owner.refs, decoder.value) == 0)
  }

  /** When the driver makes no decoder, the surfaces are given back. */
  function Create(p: Pool, surfaces: seq<nat>, decoder: Option<nat>): Pool {
    var p' := WithSurfaces(p, surfaces);
    match decoder
    case None => Destroy(p')
    case Some(d) => p'.(owner := Own(p.owner, d))
  }

  // ---------- the invariant ----------

  ghost predicate Distinct(s: seq<nat>) {
    forall i, j :: 0 <= i < j < |s| ==> s[i] != s[j]
  }

  /** The wrappers that hold an object. */
  ghost function Holding(m: map<nat, nat>, y: nat): set<nat> {
    set w | w in m && m[w] == y
  }

  lemma HoldOneMore(m: map<nat, nat>, w: nat, y: nat, x: nat)
    requires w !in m
    ensures |Holding(m[w := y], x)| == |Holding(m, x)| + One(x == y)
  {
    assert Holding(m[w := y], x) == Holding(m, x) + if x == y then {w} else {};
  }

  lemma HoldOneLess(m: map<nat, nat>, w: nat, x: nat)
    requires w in m
    ensures |Holding(m - {w}, x)| == |Holding(m, x)| - One(x == m[w])
  {
    assert w in Holding(m, m[w]);
    assert Holding(m - {w}, x) == Holding(m, x) - if x == m[w] then {w} else {};
  }

  /** The wrappers that hold a surface. */
  ghost function Holders(p: Pool, s: nat): set<nat> { Holding(p.held, s) }

  function One(b: bool): nat { if b then 1 else 0 }

  /** References to a decoder count the pool it is for and the wrappers that hold it. */
  ghost predicate DecodersExact(o: Owner, nextWrapper: nat) {
    (forall w <- o.kept :: w < nextWrapper) &&
    forall d: nat :: Refs(o.refs, d) == One(o.decoder == Some(d)) + |Holding(o.kept, d)|
  }

  /** A surface of the pool is marked used exactly when one wrapper holds it, no
      surface has two holders, and references count the pool and the holders. */
  ghost predicate SurfacesExact(p: Pool) {
    |p.used| == |p.age| == |p.surfaces| && Distinct(p.surfaces) &&
    (forall w <- p.held :: w < p.nextWrapper) &&
    (forall s: nat :: Refs(p.refs, s) == One(s in p.surfaces) + |Holders(p, s)|) &&
    (forall i :: 0 <= i < |p.surfaces| ==> |Holders(p, p.surfaces[i])| == One(p.used[i]))
  }

  ghost predicate Exclusive(p: Pool) {
    Shaped(p) && SurfacesExact(p) && DecodersExact(p.owner, p.nextWrapper) && p.held.Keys == p.owner.kept.Keys
  }

  lemma GetKeepsSurfaces(p: Pool)
    requires Shaped(p) && SurfacesExact(p) && Get(p).Some?
    ensures SurfacesExact(Get(p).value)
  {
    hide Oldest, Holding;
    var p' := Get(p).value;
    var i := Oldest(p.used, p.age, |p.used|).value;
    assert p.nextWrapper !in p.held;
    forall s: nat ensures |Holders(p', s)| == |Holders(p, s)| + One(s == p.surfaces[i]) {
      HoldOneMore(p.held, p.nextWrapper, p.surfaces[i], s);
    }
  }

  lemma KeepIsExact(o: Owner, w: nat)
    requires DecodersExact(o, w) && o.decoder.Some?
    ensures DecodersExact(Keep(o, w), w + 1)
  {
    hide Holding;
    assert w !in o.kept;
    forall d: nat ensures |Holding(Keep(o, w).kept, d)| == |Holding(o.kept, d)| + One(o.decoder == Some(d)) {
      HoldOneMore(o.kept, w, o.decoder.value, d);
    }
  }

  lemma UnkeepIsExact(o: Owner, w: nat, n: nat)
    requires DecodersExact(o, n) && w in o.kept
    ensures DecodersExact(Unkeep(o, w), n)
  {
    hide Holding;
    forall d: nat ensures |Holding(Unkeep(o, w).kept, d)| == |Holding(o.kept, d)| - One(d == o.kept[w]) {
      HoldOneLess(o.kept, w, d);
    }
  }

  lemma DropIsExact(o: Owner, n: nat)
    requires DecodersExact(o, n)
    ensures DecodersExact(Drop(o), n)
  {
    hide Holding;
  }

  lemma OwnIsExact(o: Owner, d: nat, n: nat)
    requires DecodersExact(o, n) && o.decoder.None? && Refs(o.refs, d) == 0
    ensures DecodersExact(Own(o, d), n)
  {
    hide Holding;
  }

  lemma ReleaseKeepsSurfaces(p: Pool, w: nat)
    requires SurfacesExact(p) && w in p.held && w in p.owner.kept
    ensures SurfacesExact(Release(p, w))
  {
    hide Holding;
    var p', s := Release(p, w), p.held[w];
    forall t: nat ensures |Holders(p', t)| == |Holders(p, t)| - One(t == s) {
      HoldOneLess(p.held, w, t);
    }
    assert p.surfaces[0..] == p.surfaces;
  }

  lemma {:induction false} DropAllRefs(refs: map<nat, nat>, surfaces: seq<nat>, s: nat)
    requires Distinct(surfaces) && forall t <- surfaces :: Refs(refs, t) >= 1
    ensures Refs(DropAll(refs, surfaces), s) == Refs(refs, s) - One(s in surfaces)
    decreases |surfaces|
  {
    if surfaces != [] {
      var refs' := DropRef(refs, surfaces[0]);
      forall t <- surfaces[1..] ensures Refs(refs', t) >= 1 {
        var j :| 0 <= j < |surfaces[1..]| && surfaces[1..][j] == t;
        assert surfaces[j + 1] == t && t != surfaces[0];
        assert t in surfaces;
      }
      DropAllRefs(refs', surfaces[1..], s);
      assert surfaces == [surfaces[0]] + surfaces[1..];
    }
  }

  lemma {:induction false} AddAllRefs(refs: map<nat, nat>, surfaces: seq<nat>, s: nat)
    requires Distinct(surfaces)
    ensures Refs(AddAll(refs, surfaces), s) == Refs(refs, s) + One(s in surfaces)
    decreases |surfaces|
  {
    if surfaces != [] {
      AddAllRefs(AddRef(refs, surfaces[0]), surfaces[1..], s);
      assert surfaces == [surfaces[0]] + surfaces[1..];
    }
  }

  lemma DestroyKeepsSurfaces(p: Pool)
    requires SurfacesExact(p)
    ensures SurfacesExact(Destroy(p))
  {
    forall s: nat ensures Refs(Destroy(p).refs, s) == |Holders(Destroy(p), s)| {
      forall t <- p.surfaces ensures Refs(p.refs, t) >= 1 {
      }
      DropAllRefs(p.refs, p.surfaces, s);
      assert Holders(Destroy(p), s) == Holders(p, s);
    }
  }

  lemma NewSurfacesKeep(p: Pool, surfaces: seq<nat>)
    requires SurfacesExact(p) && NewSurfaces(p, surfaces)
    ensures SurfacesExact(WithSurfaces(p, surfaces))
  {
    var p' := WithSurfaces(p, surfaces);
    forall s: nat ensures Refs(p'.refs, s) == One(s in surfaces) + |Holders(p', s)| {
      AddAllRefs(p.refs, surfaces, s);
      assert Holders(p', s) == Holders(p, s);
    }
    forall i | 0 <= i < |surfaces| ensures |Holders(p', surfaces[i])| == 0 {
      assert surfaces[i] in surfaces && Refs(p.refs, surfaces[i]) == 0;
      assert Holders(p', surfaces[i]) == Holders(p, surfaces[i]);
    }
  }

  lemma CreateKeeps(p: Pool, surfaces: seq<nat>, decoder: Option<nat>)
    requires Exclusive(p) && NewSurfaces(p, surfaces) && NewDecoder(p, decoder)
    ensures Exclusive(Create(p, surfaces, decoder))
  {
    hide AddAll, DropAll, DecodersExact;
    var p', q := WithSurfaces(p, surfaces), Create(p, surfaces, decoder);
    NewSurfacesKeep(p, surfaces);
    match decoder {
      case None =>
        DestroyKeepsSurfaces(p');
        DropIsExact(p.owner, p.nextWrapper);
      case Some(d) =>
        OwnIsExact(p.owner, d, p.nextWrapper);
    }
  }

  // ---------- whole runs ----------

  datatype Action =
    | GetBuffer
    | ReleaseBuffer(w: nat)
    | DestroyDecoder
    | CreateDecoder(surfaces: seq<nat>, decoder: Option<nat>)

  ghost predicate Allowed(p: Pool, a: Action) {
    match a
    case ReleaseBuffer(w) => w in p.held && w in p.owner.kept
    case CreateDecoder(surfaces, decoder) => NewSurfaces(p, surfaces) && NewDecoder(p, decoder)
    case _ => true
  }

  /** One operation; a get that finds no free surface changes nothing. */
  ghost function Step(p: Pool, a: Action): Option<Pool> {
    if !Shaped(p) || !Allowed(p, a) then None else
    match a
    case GetBuffer => (match Get(p) case None => Some(p) case Some(p') => Some(p'))
    case ReleaseBuffer(w) => Some(Release(p, w))
    case DestroyDecoder => Some(Destroy(p))
    case CreateDecoder(surfaces, decoder) => Some(Create(p, surfaces, decoder))
  }

  ghost function Run(p: Pool, actions: seq<Action>): Option<Pool>
    decreases |actions|
  {
    if actions == [] then Some(p) else
    match Step(p, actions[0]) case None => None case Some(p') => Run(p', actions[1..])
  }

  lemma StepKeeps(p: Pool, a: Action)
    requires Exclusive(p) && Step(p, a).Some?
    ensures Exclusive(Step(p, a).value)
  {
    hide SurfacesExact, DecodersExact, AddAll, DropAll;
    match a
    case GetBuffer =>
      if Get(p).Some? {
        GetKeepsSurfaces(p);
        KeepIsExact(p.owner, p.nextWrapper);
      }
    case ReleaseBuffer(w) =>
      ReleaseKeepsSurfaces(p, w);
      UnkeepIsExact(p.owner, w, p.nextWrapper);
    case DestroyDecoder =>
      DestroyKeepsSurfaces(p);
      DropIsExact(p.owner, p.nextWrapper);
    case CreateDecoder(surfaces, decoder) => CreateKeeps(p, surfaces, decoder);
  }

  lemma {:induction false} RunKeeps(p: Pool, actions: seq<Action>)
    requires Exclusive(p) && Run(p, actions).Some?
    ensures Exclusive(Run(p, actions).value)
    decreases |actions|
  {
    if actions != [] {
      StepKeeps(p, actions[0]);
      RunKeeps(Step(p, actions[0]).value, actions[1..]);
    }
  }

  /** In every run, through any number of decoders, each surface in use has
      exactly one holder, and the references to surfaces and decoders are exact. */
  lemma PoolExclusive(actions: seq<Action>)
    requires Run(EMPTY, actions).Some?
    ensures Exclusive(Run(EMPTY, actions).value)
  {
    assert forall s: nat :: Holding(map[], s) == {};
    RunKeeps(EMPTY, actions);
  }

  /** Get fails exactly when every surface is held; a frame of an earlier decoder
      frees no surface; and once every wrapper is back, every surface is free. */
  lemma PoolAnswers(p: Pool)
    requires Exclusive(p)
    ensures Get(p).None? <==> forall s <- p.surfaces :: Holders(p, s) != {}
    ensures forall w <- p.held :: w in p.owner.kept && (p.held[w] !in p.surfaces ==> Release(p, w).used == p.used)
    ensures p.held == map[] ==> forall i :: 0 <= i < |p.used| ==> !p.used[i]
  {
    assert p.surfaces[0..] == p.surfaces;
    forall i | 0 <= i < |p.surfaces| ensures p.used[i] <==> Holders(p, p.surfaces[i]) != {} {
    }
    if Get(p).None? {
      forall s <- p.surfaces ensures Holders(p, s) != {} {
        var i :| 0 <= i < |p.surfaces| && p.surfaces[i] == s;
        assert p.used[i];
      }
    } else {
      var i := Oldest(p.used, p.age, |p.used|).value;
      assert p.surfaces[i] in p.surfaces;
    }
    if p.held == map[] {
      forall i | 0 <= i < |p.used| ensures !p.used[i] {
        assert Holders(p, p.surfaces[i]) == {};
      }
    }
  }

  // ---------- the decoder context ----------

  class SurfaceWrapper {
    const id: nat
    const surface: nat
    const decoder: nat

    constructor (id: nat, surface: nat, decoder: nat)
      ensures this.id == id && this.surface == surface && this.decoder == decoder
    {
      this.id, this.surface, this.decoder := id, surface, decoder;
    }
  }

  class Dxva2Context {
    var surfaces: array<nat>
    var used: array<bool>
    var age: array<nat>
    var numSurfaces: nat
    var surfaceAge: nat
    ghost var refs: map<nat, nat>
    ghost var held: map<nat, nat>
    var nextWrapper: nat
    var decoder: Option<nat>
    ghost var decoderRefs: map<nat, nat>
    ghost var kept: map<nat, nat>

    ghost predicate Valid()
      reads this
    {
      surfaces.Length == used.Length == age.Length == numSurfaces && surfaces != age &&
      (numSurfaces > 0 ==> decoder.Some?)
    }

    ghost function Contents(): Pool
      reads this, surfaces, used, age
    {
      Pool(surfaces[..], used[..], age[..], surfaceAge, refs, held, nextWrapper, Owned())
    }

    constructor ()
      ensures Valid() && Contents() == EMPTY && fresh(surfaces) && fresh(used) && fresh(age)
    {
      surfaces, used, age := new nat[0], new bool[0], new nat[0];
      numSurfaces, surfaceAge, nextWrapper := 0, 0, 0;
      refs, held := map[], map[];
      decoder, decoderRefs, kept := None, map[], map[];
    }

    method FindOldest() returns (oldUnused: int)
      requires Valid()
      ensures -1 <= oldUnused < numSurfaces
      ensures Oldest(used[..], age[..], numSurfaces) == if oldUnused == -1 then None else Some(oldUnused)
    {
      oldUnused := -1;
      for i := 0 to numSurfaces
        invariant -1 <= oldUnused < i
        invariant Oldest(used[..], age[..], i) == if oldUnused == -1 then None else Some(oldUnused)
      {
        if !used[i] && (oldUnused == -1 || age[i] < age[oldUnused]) {
          oldUnused := i;
        }
      }
    }

    method GetBuffer() returns (w: SurfaceWrapper?)
      requires Valid()
      modifies this, used, age
      ensures Valid()
      ensures w == null ==> Get(old(Contents())).None? && Contents() == old(Contents())
      ensures w != null ==> fresh(w) && Some(Contents()) == Get(old(Contents())) &&
                            w.id in held && held[w.id] == w.surface && w.id in kept && kept[w.id] == w.decoder
    {
      hide AddRef, Oldest;
      var i := FindOldest();
      if i == -1 {
        return null;
      }
      w := new SurfaceWrapper(nextWrapper, surfaces[i], decoder.value);
      nextWrapper := nextWrapper + 1;
      refs := AddRef(refs, surfaces[i]);
      held := held[w.id := surfaces[i]];
      decoderRefs := AddRef(decoderRefs, w.decoder);
      kept := kept[w.id := w.decoder];
      used[i] := true;
      age[i] := surfaceAge;
      surfaceAge := surfaceAge + 1;
      assert used[..] == old(used[..])[i := true];
      assert age[..] == old(age[..])[i := old(surfaceAge)];
    }

    method ReleaseBuffer(w: SurfaceWrapper)
      requires Valid() && w.id in held && held[w.id] == w.surface && w.id in kept && kept[w.id] == w.decoder
      modifies this, used
      ensures Valid() && Contents() == Release(old(Contents()), w.id)
    {
      hide DropRef, Unkeep;
      var i := 0;
      while i < numSurfaces && surfaces[i] != w.surface
        invariant i <= numSurfaces
        invariant Find(surfaces[..], w.surface, i) == Find(surfaces[..], w.surface, 0)
      {
        i := i + 1;
      }
      if i < numSurfaces {
        used[i] := false;
      }
      refs := DropRef(refs, w.surface);
      held := held - {w.id};
      LetGo(w);
    }

    /** A wrapper gives back its decoder. */
    method LetGo(w: SurfaceWrapper)
      requires w.id in kept && kept[w.id] == w.decoder
      modifies this`decoderRefs, this`kept
      ensures Owned() == Unkeep(old(Owned()), w.id)
    {
      decoderRefs := DropRef(decoderRefs, w.decoder);
      kept := kept - {w.id};
    }

    method DestroyDecoder()
      requires surfaces.Length == used.Length == age.Length == numSurfaces
      modifies this
      ensures Valid() && Contents() == Destroy(old(Contents()))
    {
      hide Drop, DropAll;
      ReleaseSurfaces();
      FreeArrays();
      ReleaseDecoder();
      assert surfaces[..] == [] && used[..] == [] && age[..] == [];
    }

    method FreeArrays()
      modifies this`surfaces, this`used, this`age, this`numSurfaces, this`surfaceAge
      ensures surfaces.Length == used.Length == age.Length == numSurfaces == surfaceAge == 0 && surfaces != age
    {
      surfaces, used, age := new nat[0], new bool[0], new nat[0];
      numSurfaces := 0;
      surfaceAge := 0;
    }

    ghost function Owned(): Owner
      reads this
    {
      Owner(decoder, decoderRefs, kept)
    }

    method ReleaseDecoder()
      modifies this`decoder, this`decoderRefs
      ensures Owned() == Drop(old(Owned())) && decoder.None?
    {
      if decoder.Some? {
        decoderRefs := DropRef(decoderRefs, decoder.value);
        decoder := None;
      }
    }

    /** The loop that gives back the pool's references. */
    method ReleaseSurfaces()
      requires surfaces.Length == numSurfaces
      modifies this`refs
      ensures refs == DropAll(old(refs), surfaces[..])
    {
      for i := 0 to numSurfaces
        invariant DropAll(refs, surfaces[..][i..]) == DropAll(old(refs), surfaces[..])
      {
        assert surfaces[..][i..][1..] == surfaces[..][i + 1..];
        refs := DropRef(refs, surfaces[i]);
      }
      assert surfaces[..][numSurfaces..] == [];
    }

    /** The pool part of dxva2_create_decoder. The driver makes as many surfaces
        as it is asked for, or none, and then a decoder, or none. */
    method CreateDecoder(manyRefs: bool, frameThreads: nat, made: array<nat>, newDecoder: Option<nat>)
        returns (ok: bool)
      requires Valid() && NewSurfaces(Contents(), made[..]) && NewDecoder(Contents(), newDecoder)
      requires made.Length == SurfaceCount(manyRefs, frameThreads) || (made.Length == 0 && newDecoder.None?)
      modifies this
      ensures Valid() && Contents() == Create(old(Contents()), made[..], newDecoder)
      ensures ok == newDecoder.Some? && (ok ==> numSurfaces == (if manyRefs then 20 else 6) + frameThreads)
    {
      hide AddRef, AddAll, DropAll, DropRef;
      var count := 4;
      if manyRefs {
        count := count + 16;
      } else {
        count := count + 2;
      }
      count := count + frameThreads;
      TakeSurfaces(made);
      if newDecoder.None? {
        DestroyDecoder();
        return false;
      }
      decoder := newDecoder;
      decoderRefs := AddRef(decoderRefs, newDecoder.value);
      assert numSurfaces == count;
      return true;
    }

    /** The surfaces the driver has made. */
    method TakeSurfaces(made: array<nat>)
      requires Valid()
      modifies this
      ensures surfaces == made && fresh(used) && fresh(age) && decoder == old(decoder)
      ensures surfaces.Length == used.Length == age.Length == numSurfaces && surfaces != age
      ensures Contents() == WithSurfaces(old(Contents()), made[..])
    {
      hide AddAll;
      surfaces, numSurfaces := made, made.Length;
      used := new bool[made.Length](_ => false);
      age := new nat[made.Length](_ => 0);
      surfaceAge := 0;
      refs := AddAll(refs, made[..]);
      assert used[..] == seq(made.Length, _ => false);
      assert age[..] == seq(made.Length, _ => 0);
    }
  }
}
