/** When the chroma rows of a subtitle fall out of step: below a first row alone
    that leaves a column over, they are written one sample too early. */
module SubtitleShift {
  import opened SubtitleBlend
  import opened SubtitlePairs
  import opened SubtitlePicture
  import opened SubtitleLaws

  /** What the chroma law says of the samples at one place. */
  ghost predicate ChromaLawAt(a: Area, rect: Subtitle, was: Planes3, y: nat, x: nat)
  {
    (x < a.cbWrap && y * a.cbWrap + x < |was.cb| ==>
       ChromaSampleIs(a, rect, was.cb, Blended(a, rect, was).cb, a.cbWrap, true, y, x)) &&
    (x < a.crWrap && y * a.crWrap + x < |was.cr| ==>
       ChromaSampleIs(a, rect, was.cr, Blended(a, rect, was).cr, a.crWrap, false, y, x))
  }

  // ---------- a picture that shows it ----------

  const CLEAR: Sample := Pixel(0, 0, 0, 0)
  const INK: Sample := Pixel(255, 255, 255, 255)

  /** Three rows of ink, and nothing below them. */
  function Inked(a: Area): Subtitle {
    Subtitle(a.x, a.y, a.w, a.h, a.w, seq<Byte>(a.w * a.h, k => if k < RowStart3(a.w) then 1 else 0), Palette())
  }

  function RowStart3(w: nat): nat { w + w + w }

  function Palette(): (r: seq<Sample>)
    ensures |r| == 256 && r[0] == CLEAR && r[1] == INK
  {
    seq<Sample>(256, k => if k == 0 then CLEAR else INK)
  }

  function Blank(n: nat): (r: seq<Byte>)
    ensures |r| == n
  {
    seq<Byte>(n, k => 0)
  }

  lemma InkedPixel(a: Area, k: nat)
    ensures k < a.w * a.h && k < RowStart3(a.w) ==> PixelAt(Inked(a), k) == INK
    ensures k >= RowStart3(a.w) ==> PixelAt(Inked(a), k) == CLEAR
  {
  }

  // ---------- clear pixels change nothing ----------

  lemma Regroup(x: int, m: int)
    ensures x * m * 255 == x * (255 * m)
  {
  }

  lemma DivExact(n: int, x: int, d: int)
    requires d >= 1 && n == x * d
    ensures n / d == x
  {
    var q := n / d;
    assert n == q * d + n % d && 0 <= n % d < d;
    if x < q {
      ScaleLe(x + 1, q, d);
      Distribute(x, 1, d);
    } else if x > q {
      ScaleLe(q + 1, x, d);
      Distribute(q, 1, d);
    }
  }

  lemma BlendClear(sample: Byte, sum: nat, m: nat)
    requires 1 <= m && sum <= 255 * m
    ensures Blend(0, sample, sum, m) == sample
  {
    Regroup(sample, m);
    DivExact(sample * m * 255, sample, 255 * m);
  }

  lemma CellClear(b: Band, odd: nat, j: nat)
    requires Even(b, odd) && j < Width(Size(b), odd)
    requires b.Two? ==> forall k :: 0 <= k < Size(b) ==> b.top[k] == CLEAR && b.bottom[k] == CLEAR
    requires !b.Two? ==> forall k :: 0 <= k < Size(b) ==> b.line[k] == CLEAR
    ensures Cell(b, odd, j).a == 0
  {
  }

  lemma ChromaOneClear(was: seq<Byte>, at: int, b: Band, odd: nat, blue: bool)
    requires Even(b, odd)
    requires b.Two? ==> forall k :: 0 <= k < Size(b) ==> b.top[k] == CLEAR && b.bottom[k] == CLEAR
    requires !b.Two? ==> forall k :: 0 <= k < Size(b) ==> b.line[k] == CLEAR
    ensures ChromaOne(was, at, b, odd, blue) == was
  {
    hide Blend, Cell, ChromaOne, Width;
    var now := ChromaOne(was, at, b, odd, blue);
    forall i | 0 <= i < |was| ensures now[i] == was[i] {
      ChromaOneAt(was, at, b, odd, blue, i);
      if at <= i < at + Width(Size(b), odd) {
        CellClear(b, odd, i - at);
        var s := Cell(b, odd, i - at);
        BlendClear(was[i], if blue then s.u else s.v, s.m);
      }
    }
  }

  lemma {:induction false} RowStartRises(rect: Subtitle, r: nat, q: nat)
    requires r <= q
    ensures RowStart(rect, r) <= RowStart(rect, q)
  {
    if r < q {
      RowStartRises(rect, r, q - 1);
    }
  }

  lemma {:induction false} ChromaRowsClear(was: seq<Byte>, at: int, n: nat, odd: nat, wrap: nat, rect: Subtitle,
                                           r: nat, h: nat, blue: bool)
    requires odd <= 1 && odd <= n
    requires forall k: nat :: RowStart(rect, r) <= k ==> PixelAt(rect, k) == CLEAR
    ensures ChromaRows(was, at, n, odd, wrap, rect, r, h, blue) == was
    decreases h
  {
    hide ChromaOne, PixelAt, RowStart;
    if h > 0 {
      RowStartRises(rect, r, r + 2);
      ChromaOneClear(was, at, BandAt(rect, n, r, h), odd, blue);
      ChromaRowsClear(was, at + wrap, n, odd, wrap, rect, r + 2, if h >= 2 then h - 2 else 0, blue);
    }
  }

  // ---------- the last sample of the second chroma row ----------

  lemma ChromaOneLeaves(was: seq<Byte>, at: int, b: Band, odd: nat, blue: bool, i: nat)
    requires Even(b, odd) && i < |was| && at + Width(Size(b), odd) <= i
    ensures ChromaOne(was, at, b, odd, blue)[i] == was[i]
  {
    hide Blend, Cell, ChromaOne, Width;
    ChromaOneAt(was, at, b, odd, blue, i);
  }

  lemma InkedStart(a: Area)
    ensures RowStart(Inked(a), 1) == a.w && RowStart(Inked(a), 2) == a.w + a.w
    ensures RowStart(Inked(a), 3) == RowStart3(a.w)
  {
    hide Inked;
    assert Inked(a).wrap == a.w by { InkedWrap(a); }
    NextRow(Inked(a), 0);
    NextRow(Inked(a), 1);
    NextRow(Inked(a), 2);
  }

  lemma InkedWrap(a: Area)
    ensures Inked(a).wrap == a.w
  {
  }

  /** Out of step the last sample of the second chroma row is written by no row. */
  lemma LastIsMissed(a: Area, was: seq<Byte>, wrap: nat, blue: bool, i: nat)
    requires a.x % 2 <= a.w && a.y % 2 == 1 && !InStep(a) && a.x / 2 + Width(a.w, a.x % 2) <= wrap
    requires i == a.y / 2 * wrap + a.x / 2 + wrap + Width(a.w, a.x % 2) - 1 && i < |was|
    ensures ChromaPlane(a, Inked(a), was, wrap, blue)[i] == was[i]
  {
    hide ChromaOne, Width, Inked, RowStart, ChromaRows, BandAt;
    var odd, at, rect := a.x % 2, a.y / 2 * wrap + a.x / 2, Inked(a);
    var first := ChromaOne(was, at, One(Line(rect, 0, a.w)), odd, blue);
    AlignedStay(a);
    StayRange(a.w, odd);
    ChromaOneLeaves(was, at, One(Line(rect, 0, a.w)), odd, blue, i);
    var b := BandAt(rect, a.w, 1, a.h - 1);
    var second := ChromaOne(first, at + wrap - 1, b, odd, blue);
    ChromaOneLeaves(first, at + wrap - 1, b, odd, blue, i);
    InkedStart(a);
    forall k: nat | RowStart(rect, 3) <= k ensures PixelAt(rect, k) == CLEAR {
      InkedPixel(a, k);
    }
    ChromaRowsClear(second, at + wrap - 1 + wrap, a.w, odd, wrap, rect, 3, if a.h >= 3 then a.h - 3 else 0, blue);
    OneMoreRow(first, at + wrap - 1, a.w, odd, wrap, rect, 1, a.h - 1, blue);
  }

  lemma StayRange(n: nat, odd: nat)
    requires odd <= 1 && odd <= n
    ensures 0 <= Stay(n, odd) <= 1
  {
  }

  lemma OneMoreRow(was: seq<Byte>, at: int, n: nat, odd: nat, wrap: nat, rect: Subtitle, r: nat, h: nat, blue: bool)
    requires odd <= 1 && odd <= n && h > 0
    ensures ChromaRows(was, at, n, odd, wrap, rect, r, h, blue) ==
            ChromaRows(ChromaOne(was, at, BandAt(rect, n, r, h), odd, blue), at + wrap, n, odd, wrap, rect, r + 2,
                       if h >= 2 then h - 2 else 0, blue)
  {
  }

  /** The place that row leaves out is the last column, alone. */
  lemma LastColumn(a: Area, x: nat)
    requires a.x % 2 <= a.w && !InStep(a) && x == a.x / 2 + Width(a.w, a.x % 2) - 1
    ensures 2 * x == a.x + a.w - 1
  {
  }

  lemma InkedRow(a: Area, r: nat)
    requires 1 <= r <= 2 && r < a.h && a.w > 0
    ensures PixelAt(Inked(a), RowStart(Inked(a), r) + (a.w - 1)) == INK
  {
    hide Inked, RowStart, PixelAt;
    InkedStart(a);
    ScaleLe(r + 1, a.h, a.w);
    Distribute(r, 1, a.w);
    InkedPixel(a, RowStart(Inked(a), r) + (a.w - 1));
  }

  lemma OwnOutside(a: Area, rect: Subtitle, y: int, x: int)
    requires !Inside(a, y, x)
    ensures Own(a, rect, y, x) == CLEAR
  {
  }

  lemma AddClear(p: Pixel)
    ensures Add(p, CLEAR) == p
  {
  }

  /** Two pixels, one above the other, under the left half of a chroma sample. */
  lemma LeftShade(a: Area, rect: Subtitle, y: int, x: int)
    requires Inside(a, 2 * y, 2 * x) && !Inside(a, 2 * y, 2 * x + 1) && !Inside(a, 2 * y + 1, 2 * x + 1)
    ensures var sum := Add(Own(a, rect, 2 * y, 2 * x), Own(a, rect, 2 * y + 1, 2 * x));
      CoverShade(a, rect, y, x) == Shade(sum.a / 4, sum.u, sum.v, Covered(a, y, x))
    ensures Covered(a, y, x) == if Inside(a, 2 * y + 1, 2 * x) then 2 else 1
  {
    hide Own, Inside, Add;
    OwnOutside(a, rect, 2 * y, 2 * x + 1);
    OwnOutside(a, rect, 2 * y + 1, 2 * x + 1);
    AddClear(Own(a, rect, 2 * y, 2 * x));
    AddClear(Own(a, rect, 2 * y + 1, 2 * x));
  }

  /** It covers ink, so the law wants it to change. */
  lemma LastWantsInk(a: Area, y: nat, x: nat)
    requires a.x % 2 <= a.w && a.y % 2 == 1 && !InStep(a)
    requires y == a.y / 2 + 1 && x == a.x / 2 + Width(a.w, a.x % 2) - 1
    ensures Covered(a, y, x) > 0
    ensures Mixed(0, CoverShade(a, Inked(a), y, x), true) != 0
    ensures Mixed(0, CoverShade(a, Inked(a), y, x), false) != 0
  {
    hide Inked, RowStart, PixelAt, CoverShade, Covered;
    LastColumn(a, x);
    var rect := Inked(a);
    assert 2 * y == a.y + 1;
    InkedRow(a, 1);
    assert Own(a, rect, 2 * y, 2 * x) == INK;
    if a.h >= 3 {
      InkedRow(a, 2);
    }
    assert Own(a, rect, 2 * y + 1, 2 * x) == if a.h >= 3 then INK else CLEAR;
    LeftShade(a, rect, y, x);
    assert CoverShade(a, rect, y, x) == if a.h >= 3 then Shade(127, 510, 510, 2) else Shade(63, 255, 255, 1);
  }

  /** The picture before. */
  function Empty(a: Area): Planes3 {
    var lines := (a.y + a.h + 1) / 2;
    Planes3(Blank((a.y + a.h) * a.wrap), Blank(lines * a.cbWrap), Blank(lines * a.crWrap))
  }

  /** The program can be given this subtitle and this picture. */
  lemma InkedReceivable(a: Area)
    requires a.x + a.w <= a.wrap
    requires a.x / 2 + Width(a.w, a.x % 2) <= a.cbWrap && a.x / 2 + Width(a.w, a.x % 2) <= a.crWrap
    ensures Receivable(a, Inked(a), Empty(a))
  {
    assert a.x / 2 + Width(a.w, a.x % 2) == (a.x + a.w + 1) / 2;
    Swap(a.w, a.h);
    assert Room(SizesOf(Empty(a)), a, Inked(a), a.x + a.w, a.y + a.h);
  }

  lemma Swap(x: nat, y: nat)
    ensures x * y == y * x
  {
  }

  lemma BlankAt(n: nat, i: nat)
    requires i < n
    ensures Blank(n)[i] == 0
  {
  }

  lemma LawFails(a: Area)
    requires a.x % 2 <= a.w && a.y % 2 <= a.h && !InStep(a) && a.x + a.w <= a.wrap
    requires a.x / 2 + Width(a.w, a.x % 2) <= a.cbWrap && a.x / 2 + Width(a.w, a.x % 2) <= a.crWrap
    ensures Receivable(a, Inked(a), Empty(a))
    ensures !ChromaLawAt(a, Inked(a), Empty(a), a.y / 2 + 1, a.x / 2 + Width(a.w, a.x % 2) - 1)
  {
    hide Inked, Blended, ChromaPlane, Width, Covered, CoverShade, Mixed, Blank, Receivable;
    InkedReceivable(a);
    var y, x := a.y / 2 + 1, a.x / 2 + Width(a.w, a.x % 2) - 1;
    var was := Empty(a);
    WidthPositive(a);
    ScaleLe(0, a.y / 2, a.cbWrap);
    ScaleLe(0, y, a.cbWrap);
    Distribute(a.y / 2, 1, a.cbWrap);
    Distribute(a.y / 2, 2, a.cbWrap);
    ScaleLe(a.y / 2 + 2, (a.y + a.h + 1) / 2, a.cbWrap);
    var i := y * a.cbWrap + x;
    BlankAt((a.y + a.h + 1) / 2 * a.cbWrap, i);
    ChromaRefines(a, Inked(a), was);
    LastIsMissed(a, was.cb, a.cbWrap, true, i);
    LastWantsInk(a, y, x);
  }

  /** The chroma law holds of every subtitle clipped to a rectangle and every
      picture exactly if no chroma row below a first one alone is written out of step. */
  lemma ChromaLawIff(a: Area)
    requires a.x % 2 <= a.w && a.y % 2 <= a.h && a.x + a.w <= a.wrap
    requires a.x / 2 + Width(a.w, a.x % 2) <= a.cbWrap && a.x / 2 + Width(a.w, a.x % 2) <= a.crWrap
    ensures (forall rect: Subtitle, was: Planes3, y: nat, x: nat ::
               Receivable(a, rect, was) ==> ChromaLawAt(a, rect, was, y, x)) <==> InStep(a)
  {
    hide Blended, ChromaSampleIs, Width, Inked, Empty, Receivable;
    if InStep(a) {
      forall rect: Subtitle, was: Planes3, y: nat, x: nat ensures ChromaLawAt(a, rect, was, y, x) {
        ChromaLaw(a, rect, was, y, x);
      }
    } else {
      WidthPositive(a);
      LawFails(a);
    }
  }

  lemma WidthPositive(a: Area)
    requires !InStep(a) && a.x % 2 <= a.w
    ensures Width(a.w, a.x % 2) >= 1
  {
  }
}
