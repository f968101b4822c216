/** What the subtitle blend does to each sample: the luma plane is that of the
    simple double loop, and a chroma sample is mixed with the pixels it covers. */
module SubtitleLaws {
  import opened SubtitleBlend
  import opened SubtitlePairs
  import opened SubtitlePicture

  // ---------- luma: the simple double loop ----------

  function LumaOne(was: seq<Byte>, at: int, line: seq<Sample>): (r: seq<Byte>)
    ensures |r| == |was|
  {
    Written(was, at, NewLuma(was, at, line), |line|)
  }

  /** Row after row, each sample blended with its own pixel. */
  function LumaRows(was: seq<Byte>, at: int, n: nat, wrap: nat, rect: Subtitle, p: nat, rows: nat): (r: seq<Byte>)
    ensures |r| == |was|
    decreases rows
  {
    if rows == 0 then was
    else LumaRows(LumaOne(was, at, Line(rect, p, n)), at + wrap, n, wrap, rect, p + rect.wrap, rows - 1)
  }

  lemma LumaOneAt(was: seq<Byte>, at: int, line: seq<Sample>, i: nat)
    requires i < |was|
    ensures LumaOne(was, at, line)[i] == if at <= i < at + |line| then Lit(was[i], line[i - at]) else was[i]
  {
    hide Blend;
  }

  /** Two rows interleaved are two rows in turn. */
  lemma TwoAreTwo(was: seq<Byte>, at: int, wrap: nat, top: seq<Sample>, bottom: seq<Sample>)
    requires |top| <= wrap
    ensures WrittenTwo(was, at, wrap, NewLuma(was, at, top), |top|, NewLuma(was, at + wrap, bottom), |bottom|)
         == LumaOne(LumaOne(was, at, top), at + wrap, bottom)
  {
    hide Blend;
    var first := LumaOne(was, at, top);
    var below, alone := NewLuma(was, at + wrap, bottom), NewLuma(first, at + wrap, bottom);
    forall k | 0 <= k < |bottom| ensures below[k] == alone[k] {
      assert AtOrZero(first, at + wrap + k) == AtOrZero(was, at + wrap + k);
    }
    assert below == alone;
  }

  lemma {:induction false} PairsDownLuma(a: Area, rect: Subtitle, was: Planes3, at: Cursor, h: nat)
    requires a.x % 2 <= a.w <= a.wrap && at.p >= 0
    ensures PairsDown(a, rect, was, at, h).lum == LumaRows(was.lum, at.lum, a.w, a.wrap, rect, at.p, h)
    decreases h
  {
    hide NewLuma, NewChroma, Written;
    if h >= 2 {
      var top, bottom := Line(rect, at.p, a.w), Line(rect, at.p + rect.wrap, a.w);
      TwoAreTwo(was.lum, at.lum, a.wrap, top, bottom);
      PairsDownLuma(a, rect, TwoStep(a, rect, was, at), Below(a, rect, at), h - 2);
    }
  }

  /** The unrolled blend makes the luma plane of the simple double loop. */
  lemma LumaRefines(a: Area, rect: Subtitle, was: Planes3)
    requires a.x % 2 <= a.w <= a.wrap && a.y % 2 <= a.h
    ensures Blended(a, rect, was).lum == LumaRows(was.lum, a.y * a.wrap + a.x, a.w, a.wrap, rect, 0, a.h)
  {
    hide NewLuma, NewChroma, Written;
    var at := Origin(a);
    if a.y % 2 == 1 {
      PairsDownLuma(a, rect, OneStep(a, rect, was, at, false), AfterOne(a, rect, at), a.h - 1);
    } else {
      PairsDownLuma(a, rect, was, at, a.h);
    }
  }

  /** Of the samples of a plane with lines of `wrap`, those of one row. */
  lemma InRow(row: nat, y: nat, wrap: nat, x0: nat, n: nat, x: nat)
    requires x0 + n <= wrap && x < wrap
    ensures row * wrap + x0 <= y * wrap + x < row * wrap + x0 + n <==> y == row && x0 <= x < x0 + n
  {
    if y < row {
      ScaleLe(y + 1, row, wrap);
      Distribute(y, 1, wrap);
    } else if y > row {
      ScaleLe(row + 1, y, wrap);
      Distribute(row, 1, wrap);
    }
  }

  lemma {:induction false} LumaRowsAt(was: seq<Byte>, row: nat, x0: nat, n: nat, wrap: nat, rect: Subtitle,
                                      r: nat, rows: nat, y: nat, x: nat)
    requires x0 + n <= wrap && x < wrap && y * wrap + x < |was| && r * rect.wrap >= 0
    ensures var i := y * wrap + x;
      0 <= i && LumaRows(was, row * wrap + x0, n, wrap, rect, r * rect.wrap, rows)[i] ==
        if row <= y < row + rows && x0 <= x < x0 + n
        then Lit(was[i], PixelAt(rect, (r + y - row) * rect.wrap + (x - x0))) else was[i]
    decreases rows
  {
    hide Blend, LumaOne;
    ScaleLe(0, y, wrap);
    var i := y * wrap + x;
    if rows > 0 {
      var next := LumaOne(was, row * wrap + x0, Line(rect, r * rect.wrap, n));
      InRow(row, y, wrap, x0, n, x);
      LumaOneAt(was, row * wrap + x0, Line(rect, r * rect.wrap, n), i);
      Distribute(row, 1, wrap);
      Distribute(r, 1, rect.wrap);
      ScaleLe(0, r + 1, rect.wrap);
      LumaRowsAt(next, row + 1, x0, n, wrap, rect, r + 1, rows - 1, y, x);
    }
  }

  /** Each luma sample of the rectangle is blended once, with its own source
      pixel; every other sample is unchanged. */
  lemma LumaLaw(a: Area, rect: Subtitle, was: Planes3, y: nat, x: nat)
    requires a.x % 2 <= a.w && a.y % 2 <= a.h && a.x + a.w <= a.wrap
    requires x < a.wrap && y * a.wrap + x < |was.lum|
    ensures var i, r := y * a.wrap + x, Blended(a, rect, was).lum;
      0 <= i && |r| == |was.lum| &&
      r[i] == if a.y <= y < a.y + a.h && a.x <= x < a.x + a.w
              then Lit(was.lum[i], PixelAt(rect, (y - a.y) * rect.wrap + (x - a.x))) else was.lum[i]
  {
    hide Blend, Blended;
    LumaRefines(a, rect, was);
    assert 0 * rect.wrap == 0;
    LumaRowsAt(was.lum, a.y, a.x, a.w, a.wrap, rect, 0, a.h, y, x);
  }

  // ---------- chroma: each sample and what it covers ----------

  function ChromaOne(was: seq<Byte>, at: int, b: Band, odd: nat, blue: bool): (r: seq<Byte>)
    requires Even(b, odd)
    ensures |r| == |was|
  {
    Written(was, at, NewChroma(was, at, b, odd, blue), Width(Size(b), odd))
  }

  /** The rows of the source that meet in the chroma row of source row r, with h rows left. */
  function BandAt(rect: Subtitle, n: nat, r: nat, h: int): (b: Band)
    ensures Size(b) == n && !b.One? && (b.Two? ==> |b.top| == |b.bottom|)
  {
    if h >= 2 then LinePair(rect, RowStart(rect, r), n) else Tail(Line(rect, RowStart(rect, r), n))
  }

  /** Where source row r starts. */
  function RowStart(rect: Subtitle, r: nat): nat { if r == 0 then 0 else RowStart(rect, r - 1) + rect.wrap }

  lemma {:induction false} RowStartIs(rect: Subtitle, r: nat)
    ensures RowStart(rect, r) == r * rect.wrap
  {
    if r > 0 {
      RowStartIs(rect, r - 1);
      Distribute(r - 1, 1, rect.wrap);
    }
  }

  /** Chroma row after chroma row. */
  function ChromaRows(was: seq<Byte>, at: int, n: nat, odd: nat, wrap: nat, rect: Subtitle,
                      r: nat, h: nat, blue: bool): (s: seq<Byte>)
    requires odd <= 1 && odd <= n
    ensures |s| == |was|
    decreases h
  {
    if h == 0 then was
    else
      ChromaRows(ChromaOne(was, at, BandAt(rect, n, r, h), odd, blue), at + wrap, n, odd, wrap, rect, r + 2,
                 if h >= 2 then h - 2 else 0, blue)
  }

  lemma ChromaOneAt(was: seq<Byte>, at: int, b: Band, odd: nat, blue: bool, i: nat)
    requires Even(b, odd) && i < |was|
    ensures ChromaOne(was, at, b, odd, blue)[i] ==
            if at <= i < at + Width(Size(b), odd) then Tint(was[i], Cell(b, odd, i - at), blue) else was[i]
  {
    hide Blend, Cell, Width;
  }

  lemma {:induction false} PairsDownChroma(a: Area, rect: Subtitle, was: Planes3, at: Cursor, r: nat, h: nat)
    requires a.x % 2 <= a.w && at.p == RowStart(rect, r)
    ensures PairsDown(a, rect, was, at, h).cb == ChromaRows(was.cb, at.cb, a.w, a.x % 2, a.cbWrap, rect, r, h, true)
    ensures PairsDown(a, rect, was, at, h).cr == ChromaRows(was.cr, at.cr, a.w, a.x % 2, a.crWrap, rect, r, h, false)
    decreases h
  {
    hide NewLuma, NewChroma, Written, Width, Below;
    ReturnIs(a, rect, at);
    if h >= 2 {
      assert RowStart(rect, r + 2) == RowStart(rect, r + 1) + rect.wrap;
      PairsDownChroma(a, rect, TwoStep(a, rect, was, at), Below(a, rect, at), r + 2, h - 2);
    }
  }

  lemma {:induction false} ChromaRowsAt(was: seq<Byte>, row: nat, x0: nat, n: nat, odd: nat, wrap: nat, rect: Subtitle,
                                        r: nat, h: nat, blue: bool, y: nat, x: nat)
    requires odd <= 1 && odd <= n && x0 + Width(n, odd) <= wrap && x < wrap && y * wrap + x < |was|
    ensures var i := y * wrap + x;
      0 <= i && ChromaRows(was, row * wrap + x0, n, odd, wrap, rect, r, h, blue)[i] ==
        if row <= y && 2 * (y - row) < h && x0 <= x < x0 + Width(n, odd)
        then Tint(was[i], Cell(BandAt(rect, n, r + 2 * (y - row), h - 2 * (y - row)), odd, x - x0), blue) else was[i]
    decreases h
  {
    hide Blend, ChromaOne, Cell, Width, BandAt;
    ScaleLe(0, y, wrap);
    var i := y * wrap + x;
    if h > 0 {
      var b := BandAt(rect, n, r, h);
      InRow(row, y, wrap, x0, Width(n, odd), x);
      ChromaOneAt(was, row * wrap + x0, b, odd, blue, i);
      Distribute(row, 1, wrap);
      ChromaRowsAt(ChromaOne(was, row * wrap + x0, b, odd, blue), row + 1, x0, n, odd, wrap, rect, r + 2,
                   if h >= 2 then h - 2 else 0, blue, y, x);
    }
  }

  predicate Inside(a: Area, y: int, x: int) { a.y <= y < a.y + a.h && a.x <= x < a.x + a.w }

  function Own(a: Area, rect: Subtitle, y: int, x: int): Pixel {
    if Inside(a, y, x) then PixelAt(rect, RowStart(rect, y - a.y) + (x - a.x)) else Pixel(0, 0, 0, 0)
  }

  /** The pixels a chroma sample covers: their number, and their sum. */
  function Covered(a: Area, y: int, x: int): nat {
    (if Inside(a, 2 * y, 2 * x) then 1 else 0) + (if Inside(a, 2 * y, 2 * x + 1) then 1 else 0) +
    (if Inside(a, 2 * y + 1, 2 * x) then 1 else 0) + (if Inside(a, 2 * y + 1, 2 * x + 1) then 1 else 0)
  }

  function CoveredSum(a: Area, rect: Subtitle, y: int, x: int): Pixel {
    Add(Add(Own(a, rect, 2 * y, 2 * x), Own(a, rect, 2 * y, 2 * x + 1)),
        Add(Own(a, rect, 2 * y + 1, 2 * x), Own(a, rect, 2 * y + 1, 2 * x + 1)))
  }

  /** Two columns of a last row that has no row below it. */
  predicate InTail(a: Area, y: int, x: int) {
    Inside(a, 2 * y, 2 * x) && Inside(a, 2 * y, 2 * x + 1) && !Inside(a, 2 * y + 1, 2 * x)
  }

  /** What a chroma sample should be mixed with; in a tail, what it is mixed with. */
  function CoverShade(a: Area, rect: Subtitle, y: int, x: int): Shade {
    hide CoveredSum, Covered, Own, InTail;
    var sum := CoveredSum(a, rect, y, x);
    if InTail(a, y, x) then
      Shade(sum.a / 4, Own(a, rect, 2 * y, 2 * x + 1).u, Own(a, rect, 2 * y, 2 * x + 1).v, 2)
    else Shade(sum.a / 4, sum.u, sum.v, Covered(a, y, x))
  }

  /** The pixel in column c of a source row is that of its place in the picture. */
  lemma OwnAt(a: Area, rect: Subtitle, r: nat, c: int)
    requires r < a.h
    ensures Inside(a, a.y + r, a.x + c) <==> 0 <= c < a.w
    ensures Own(a, rect, a.y + r, a.x + c) ==
            if 0 <= c < a.w then Line(rect, RowStart(rect, r), a.w)[c] else Pixel(0, 0, 0, 0)
  {
  }

  lemma NoneBeyond(a: Area, rect: Subtitle, y: int, x: int)
    requires !(a.y <= y < a.y + a.h)
    ensures !Inside(a, y, x) && Own(a, rect, y, x) == Pixel(0, 0, 0, 0)
  {
  }

  function OneIf(b: bool): nat { if b then 1 else 0 }

  lemma WidthBound(n: nat, odd: nat, j: nat)
    requires j < Width(n, odd)
    ensures 2 * j <= n + odd - 1
  {
  }

  /** The sum of the pixels of one source row under a chroma sample. */
  lemma ColsAre(a: Area, rect: Subtitle, r: nat, odd: nat, x: int, j: nat)
    requires odd <= 1 && odd <= a.w && r < a.h && j < Width(a.w, odd) && x == a.x - odd + 2 * j
    ensures Add(Own(a, rect, a.y + r, x), Own(a, rect, a.y + r, x + 1)) ==
            Cols(Line(rect, RowStart(rect, r), a.w), odd, j)
    ensures High(a.w, odd, j) - Low(odd, j) == OneIf(Inside(a, a.y + r, x)) + OneIf(Inside(a, a.y + r, x + 1))
    ensures High(a.w, odd, j) - Low(odd, j) == 2 <==> Inside(a, a.y + r, x) && Inside(a, a.y + r, x + 1)
    ensures Inside(a, a.y + r, x + 1) ==>
              Own(a, rect, a.y + r, x + 1) == Line(rect, RowStart(rect, r), a.w)[High(a.w, odd, j) - 1]
    ensures !(Inside(a, a.y + r, x) && Inside(a, a.y + r, x + 1)) ==>
              Cols(Line(rect, RowStart(rect, r), a.w), odd, j) ==
                Line(rect, RowStart(rect, r), a.w)[High(a.w, odd, j) - 1]
  {
    hide PixelAt, RowStart, Line, Own, Inside, Width;
    WidthBound(a.w, odd, j);
    OwnAt(a, rect, r, 2 * j - odd);
    OwnAt(a, rect, r, 2 * j - odd + 1);
    assert a.x + (2 * j - odd) == x && a.x + (2 * j - odd + 1) == x + 1;
  }

  /** The single first row of a rectangle at an odd line. */
  lemma FirstBand(a: Area, rect: Subtitle, odd: nat, y: int, x: int, j: nat)
    requires odd <= 1 && odd <= a.w && a.h >= 1 && j < Width(a.w, odd) && 2 * x == a.x - odd + 2 * j && 2 * y + 1 == a.y
    ensures Cell(One(Line(rect, RowStart(rect, 0), a.w)), odd, j) == CoverShade(a, rect, y, x)
  {
    hide PixelAt, RowStart, Line, Own, Inside, Cols, High, Low, Width;
    ColsAre(a, rect, 0, odd, 2 * x, j);
    NoneBeyond(a, rect, 2 * y, 2 * x);
    NoneBeyond(a, rect, 2 * y, 2 * x + 1);
  }

  lemma PairBand(a: Area, rect: Subtitle, r: nat, odd: nat, y: int, x: int, j: nat)
    requires odd <= 1 && odd <= a.w && r + 1 < a.h && j < Width(a.w, odd)
    requires 2 * x == a.x - odd + 2 * j && 2 * y == a.y + r
    ensures Cell(BandAt(rect, a.w, r, a.h - r), odd, j) == CoverShade(a, rect, y, x)
  {
    hide PixelAt, RowStart, Line, Own, Inside, Cols, High, Low, Width;
    ColsAre(a, rect, r, odd, 2 * x, j);
    NextRow(rect, r);
    ColsAre(a, rect, r + 1, odd, 2 * x, j);
    InsideColumn(a, r, r + 1, 2 * x);
    InsideColumn(a, r, r + 1, 2 * x + 1);
  }

  lemma InsideColumn(a: Area, r: nat, q: nat, x: int)
    requires r < a.h && q < a.h
    ensures Inside(a, a.y + r, x) <==> Inside(a, a.y + q, x)
  {
  }

  lemma TailBand(a: Area, rect: Subtitle, r: nat, odd: nat, y: int, x: int, j: nat)
    requires odd <= 1 && odd <= a.w && r + 1 == a.h && j < Width(a.w, odd)
    requires 2 * x == a.x - odd + 2 * j && 2 * y == a.y + r
    ensures Cell(BandAt(rect, a.w, r, a.h - r), odd, j) == CoverShade(a, rect, y, x)
  {
    hide PixelAt, RowStart, Line, Own, Inside, Cols, High, Low, Width;
    ColsAre(a, rect, r, odd, 2 * x, j);
    NoneBeyond(a, rect, 2 * y + 1, 2 * x);
    NoneBeyond(a, rect, 2 * y + 1, 2 * x + 1);
  }

  /** A pair of rows, or the last one alone. */
  lemma LowerBand(a: Area, rect: Subtitle, r: nat, odd: nat, y: int, x: int, j: nat)
    requires odd <= 1 && odd <= a.w && r < a.h && j < Width(a.w, odd) && 2 * x == a.x - odd + 2 * j && 2 * y == a.y + r
    ensures Cell(BandAt(rect, a.w, r, a.h - r), odd, j) == CoverShade(a, rect, y, x)
  {
    hide Cell, BandAt, CoverShade, Width;
    if r + 1 < a.h {
      PairBand(a, rect, r, odd, y, x, j);
    } else {
      TailBand(a, rect, r, odd, y, x, j);
    }
  }

  lemma NextRow(rect: Subtitle, r: nat)
    ensures RowStart(rect, r + 1) == RowStart(rect, r) + rect.wrap
  {
  }

  /** The chroma pointers stay in step with the luma rows. */
  predicate Aligned(a: Area) { a.y % 2 == 0 || (a.w - a.x % 2) % 2 == 0 }

  /** After a first row alone the chroma pointers are one line further down
      exactly if no column was left over. */
  lemma AlignedIff(a: Area, rect: Subtitle, at: Cursor)
    requires a.x % 2 <= a.w && a.y % 2 == 1
    ensures Aligned(a) <==> AfterOne(a, rect, at).cb == at.cb + a.cbWrap
    ensures Aligned(a) <==> AfterOne(a, rect, at).cr == at.cr + a.crWrap
  {
    AlignedStay(a);
  }

  /** No chroma row after the first is written out of step. */
  predicate InStep(a: Area) { Aligned(a) || a.h < 2 }

  lemma OneStepChroma(a: Area, rect: Subtitle, was: Planes3, at: Cursor)
    requires a.x % 2 <= a.w && at.p == 0
    ensures OneStep(a, rect, was, at, false).cb == ChromaOne(was.cb, at.cb, One(Line(rect, 0, a.w)), a.x % 2, true)
    ensures OneStep(a, rect, was, at, false).cr == ChromaOne(was.cr, at.cr, One(Line(rect, 0, a.w)), a.x % 2, false)
  {
    hide NewLuma, NewChroma, Written, Width;
  }

  /** A chroma plane after the blend, as chroma rows in turn. */
  lemma ChromaRefines(a: Area, rect: Subtitle, was: Planes3)
    requires a.x % 2 <= a.w && a.y % 2 <= a.h
    ensures Blended(a, rect, was).cb == ChromaPlane(a, rect, was.cb, a.cbWrap, true)
    ensures Blended(a, rect, was).cr == ChromaPlane(a, rect, was.cr, a.crWrap, false)
  {
    hide NewLuma, NewChroma, Written, Width, ChromaRows, PairsDown, OneStep, ChromaOne, Line, Below, AfterOne;
    var at := Origin(a);
    ReturnIs(a, rect, at);
    if a.y % 2 == 1 {
      AlignedIff(a, rect, at);
      NextRow(rect, 0);
      OneStepChroma(a, rect, was, at);
      PairsDownChroma(a, rect, OneStep(a, rect, was, at, false), AfterOne(a, rect, at), 1, a.h - 1);
    } else {
      PairsDownChroma(a, rect, was, at, 0, a.h);
    }
  }

  /** The rows after a first one alone start one sample early when a column was left over. */
  function ChromaPlane(a: Area, rect: Subtitle, was: seq<Byte>, wrap: nat, blue: bool): (s: seq<Byte>)
    requires a.x % 2 <= a.w && a.y % 2 <= a.h
    ensures |s| == |was|
  {
    var at := a.y / 2 * wrap + a.x / 2;
    if a.y % 2 == 1 then
      ChromaRows(ChromaOne(was, at, One(Line(rect, 0, a.w)), a.x % 2, blue), at + wrap - Stay(a.w, a.x % 2),
                 a.w, a.x % 2, wrap, rect, 1, a.h - 1, blue)
    else ChromaRows(was, at, a.w, a.x % 2, wrap, rect, 0, a.h, blue)
  }

  /** A sample mixed with a shade that fits; others cannot occur. */
  function Mixed(sample: Byte, s: Shade, blue: bool): Byte {
    if s.a <= 255 && 1 <= s.m && s.u <= 255 * s.m && s.v <= 255 * s.m then Tint(sample, s, blue) else sample
  }

  lemma MixedIs(sample: Byte, s: Paint, blue: bool)
    ensures Mixed(sample, s, blue) == Tint(sample, s, blue)
  {
  }

  /** The chroma rows touched are those that cover some pixel. */
  lemma CoversSome(a: Area, odd: nat, y: int, x: int)
    requires odd <= 1 && odd <= a.w && a.x % 2 == odd
    ensures Covered(a, y, x) > 0 <==>
            a.h > 0 && a.y - 1 <= 2 * y < a.y + a.h && a.x / 2 <= x < a.x / 2 + Width(a.w, odd)
  {
  }

  /** What the chroma law says of one sample. */
  ghost predicate ChromaSampleIs(a: Area, rect: Subtitle, was: seq<Byte>, now: seq<Byte>, wrap: nat, blue: bool,
                                 y: nat, x: nat) {
    var i := y * wrap + x;
    |now| == |was| && 0 <= i < |was| &&
    now[i] == if Covered(a, y, x) > 0 then Mixed(was[i], CoverShade(a, rect, y, x), blue) else was[i]
  }

  lemma ChromaEven(a: Area, rect: Subtitle, was: seq<Byte>, wrap: nat, blue: bool, y: nat, x: nat)
    requires a.x % 2 <= a.w && a.y % 2 == 0
    requires a.x / 2 + Width(a.w, a.x % 2) <= wrap && x < wrap && y * wrap + x < |was|
    ensures ChromaSampleIs(a, rect, was, ChromaPlane(a, rect, was, wrap, blue), wrap, blue, y, x)
  {
    hide Blend, Cell, Width, BandAt, CoverShade, Covered, ChromaRows;
    var odd, row, x0 := a.x % 2, a.y / 2, a.x / 2;
    CoversSome(a, odd, y, x);
    ChromaRowsAt(was, row, x0, a.w, odd, wrap, rect, 0, a.h, blue, y, x);
    if Covered(a, y, x) > 0 {
      LowerBand(a, rect, 2 * (y - row), odd, y, x, x - x0);
      MixedIs(was[y * wrap + x], Cell(BandAt(rect, a.w, 2 * (y - row), a.h - 2 * (y - row)), odd, x - x0), blue);
    }
  }

  lemma AlignedStay(a: Area)
    requires a.x % 2 <= a.w && a.y % 2 == 1
    ensures Aligned(a) <==> Stay(a.w, a.x % 2) == 0
  {
    assert Stay(a.w, a.x % 2) == (a.w - a.x % 2) % 2;
  }

  lemma NoRows(was: seq<Byte>, at: int, n: nat, odd: nat, wrap: nat, rect: Subtitle, r: nat, blue: bool)
    requires odd <= 1 && odd <= n
    ensures ChromaRows(was, at, n, odd, wrap, rect, r, 0, blue) == was
  {
  }

  lemma ChromaOdd(a: Area, rect: Subtitle, was: seq<Byte>, wrap: nat, blue: bool, y: nat, x: nat)
    requires a.x % 2 <= a.w && a.y % 2 == 1 <= a.h && InStep(a)
    requires a.x / 2 + Width(a.w, a.x % 2) <= wrap && x < wrap && y * wrap + x < |was|
    ensures ChromaSampleIs(a, rect, was, ChromaPlane(a, rect, was, wrap, blue), wrap, blue, y, x)
  {
    hide Blend, Cell, Width, BandAt, CoverShade, Covered, ChromaRows, ChromaOne, Line;
    var odd, row, x0 := a.x % 2, a.y / 2, a.x / 2;
    var b := One(Line(rect, 0, a.w));
    var first := ChromaOne(was, row * wrap + x0, b, odd, blue);
    CoversSome(a, odd, y, x);
    ScaleLe(0, y, wrap);
    ChromaOneAt(was, row * wrap + x0, b, odd, blue, y * wrap + x);
    InRow(row, y, wrap, x0, Width(a.w, odd), x);
    Distribute(row, 1, wrap);
    if a.h >= 2 {
      AlignedStay(a);
      ChromaRowsAt(first, row + 1, x0, a.w, odd, wrap, rect, 1, a.h - 1, blue, y, x);
    } else {
      NoRows(first, row * wrap + x0 + wrap - Stay(a.w, odd), a.w, odd, wrap, rect, 1, blue);
    }
    if Covered(a, y, x) > 0 {
      if y == row {
        FirstBand(a, rect, odd, y, x, x - x0);
        MixedIs(was[y * wrap + x], Cell(b, odd, x - x0), blue);
      } else {
        LowerBand(a, rect, 2 * y - a.y, odd, y, x, x - x0);
        MixedIs(was[y * wrap + x], Cell(BandAt(rect, a.w, 2 * y - a.y, a.h - (2 * y - a.y)), odd, x - x0), blue);
      }
    }
  }

  /** When the chroma pointers stay in step, each chroma sample that covers
      pixels of the rectangle is mixed once with their sum, weighed by a quarter
      of their alpha (under the last row of an odd number, with the colour of the
      right one alone); every other sample is unchanged. */
  lemma ChromaLaw(a: Area, rect: Subtitle, was: Planes3, y: nat, x: nat)
    requires a.x % 2 <= a.w && a.y % 2 <= a.h && InStep(a)
    requires a.x / 2 + Width(a.w, a.x % 2) <= a.cbWrap && a.x / 2 + Width(a.w, a.x % 2) <= a.crWrap
    ensures x < a.cbWrap && y * a.cbWrap + x < |was.cb| ==>
              ChromaSampleIs(a, rect, was.cb, Blended(a, rect, was).cb, a.cbWrap, true, y, x)
    ensures x < a.crWrap && y * a.crWrap + x < |was.cr| ==>
              ChromaSampleIs(a, rect, was.cr, Blended(a, rect, was).cr, a.crWrap, false, y, x)
  {
    hide Blended, ChromaPlane, ChromaSampleIs, Width;
    ChromaRefines(a, rect, was);
    if x < a.cbWrap && y * a.cbWrap + x < |was.cb| {
      if a.y % 2 == 0 {
        ChromaEven(a, rect, was.cb, a.cbWrap, true, y, x);
      } else {
        ChromaOdd(a, rect, was.cb, a.cbWrap, true, y, x);
      }
    }
    if x < a.crWrap && y * a.crWrap + x < |was.cr| {
      if a.y % 2 == 0 {
        ChromaEven(a, rect, was.cr, a.crWrap, false, y, x);
      } else {
        ChromaOdd(a, rect, was.cr, a.crWrap, false, y, x);
      }
    }
  }
}
