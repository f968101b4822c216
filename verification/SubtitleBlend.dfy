/** Blending a paletted subtitle into a planar picture with half-size chroma:
    rows are taken two at a time and columns two at a time, with separate code
    for what is left at the edges. This file has the samples and single rows. */
module SubtitleBlend {

  type Byte = x: int | 0 <= x <= 255

  /** A pixel, or the sum of several. */
  datatype Pixel = Pixel(y: nat, u: nat, v: nat, a: nat)

  predicate Within(px: Pixel, m: nat) {
    px.y <= 255 * m && px.u <= 255 * m && px.v <= 255 * m && px.a <= 255 * m
  }

  type Sample = px: Pixel | Within(px, 1) witness Pixel(0, 0, 0, 0)

  function Add(p: Pixel, q: Pixel): Pixel { Pixel(p.y + q.y, p.u + q.u, p.v + q.v, p.a + q.a) }

  lemma ScaleLe(x: int, y: int, z: int)
    requires x <= y && 0 <= z
    ensures x * z <= y * z
  {
  }

  lemma MixRange(a: nat, x: nat, y: nat, top: nat)
    requires a <= 255 && x <= top && y <= top
    ensures 0 <= x * (255 - a) + y * a <= top * 255
  {
    ScaleLe(0, x, 255 - a);
    ScaleLe(0, y, a);
    ScaleLe(x, top, 255 - a);
    ScaleLe(y, top, a);
  }

  lemma DivLe(x: int, d: int)
    requires d >= 1 && 0 <= x <= 255 * d
    ensures 0 <= x / d <= 255
  {
    var q := x / d;
    assert x == d * q + x % d;
    if q > 255 {
      ScaleLe(256, q, d);
    }
  }

  /** A sample mixed with the sum of m new ones; every result fits a byte. */
  function Blend(a: nat, sample: Byte, sum: nat, m: nat): Byte
    requires a <= 255 && 1 <= m && sum <= 255 * m
  {
    MixRange(a, sample * m, sum, 255 * m);
    DivLe(sample * m * (255 - a) + sum * a, 255 * m);
    (sample * m * (255 - a) + sum * a) / (255 * m)
  }

  /** The subtitle: position, size, its pixels as palette indices, and the palette. */
  datatype Subtitle = Subtitle(x: int, y: int, w: int, h: int, wrap: nat, data: seq<Byte>, palette: seq<Sample>)

  function PixelAt(rect: Subtitle, k: int): Sample {
    if 0 <= k < |rect.data| && rect.data[k] < |rect.palette| then rect.palette[rect.data[k]] else Pixel(0, 0, 0, 0)
  }

  /** The n pixels of a source row. */
  function Line(rect: Subtitle, p: nat, n: nat): (r: seq<Sample>)
    ensures |r| == n
  {
    seq<Sample>(n, k => PixelAt(rect, p + k))
  }

  // ---------- the new samples of a row ----------

  function Lit(sample: Byte, px: Sample): Byte { Blend(px.a, sample, px.y, 1) }

  function AtOrZero(s: seq<Byte>, i: int): Byte { if 0 <= i < |s| then s[i] else 0 }

  /** What the luma samples from `at` on become. */
  function NewLuma(was: seq<Byte>, at: int, line: seq<Sample>): (r: seq<Byte>)
    ensures |r| == |line|
  {
    seq<Byte>(|line|, k requires 0 <= k < |line| => Lit(AtOrZero(was, at + k), line[k]))
  }

  /** What a chroma sample is mixed with: the sums over m pixels, and a weight. */
  datatype Shade = Shade(a: nat, u: nat, v: nat, m: nat)

  type Paint = s: Shade | s.a <= 255 && 1 <= s.m && s.u <= 255 * s.m && s.v <= 255 * s.m witness Shade(0, 0, 0, 1)

  /** How many chroma samples a row of n touches; `odd` if it starts at an odd column. */
  function Width(n: nat, odd: nat): nat { (n + odd + 1) / 2 }

  /** How many columns, or rows, the code takes of n: all of them; but of none,
      at an odd place, the first and the one that the test for a last one lets through. */
  function Taken(n: nat, odd: nat): nat { if odd <= n then n else odd + 1 }

  /** The chroma sample a column belongs to is among those of the row. */
  lemma WidthIs(n: nat, odd: nat, k: nat, j: nat)
    requires odd <= 1 && odd <= n && 2 * j == k + odd && k <= n
    ensures j <= Width(n, odd) && (j == Width(n, odd) <==> k == n) && (k == n - 1 ==> j + 1 == Width(n, odd))
  {
  }

  /** 1 if a last column is left over after taking columns in pairs. */
  function Stay(n: nat, odd: nat): int { 2 * Width(n, odd) - n - odd }

  /** The columns that share the j-th chroma sample. */
  function Low(odd: nat, j: nat): int { if 2 * j < odd then 0 else 2 * j - odd }

  function High(n: nat, odd: nat, j: nat): int { if 2 * j - odd + 2 <= n then 2 * j - odd + 2 else n }

  function Cols(line: seq<Sample>, odd: nat, j: nat): (px: Pixel)
    requires odd <= 1 && odd <= |line| && j < Width(|line|, odd)
    ensures Within(px, High(|line|, odd, j) - Low(odd, j))
  {
    if High(|line|, odd, j) - Low(odd, j) == 2 then Add(line[Low(odd, j)], line[Low(odd, j) + 1])
    else line[Low(odd, j)]
  }

  /** The source rows that share a chroma row. In a single last row the pair
      of columns is weighed by both but coloured by the second alone. */
  datatype Band = One(line: seq<Sample>) | Two(top: seq<Sample>, bottom: seq<Sample>) | Tail(line: seq<Sample>)

  function Size(b: Band): nat { if b.Two? then |b.top| else |b.line| }

  predicate Even(b: Band, odd: nat) { odd <= 1 && odd <= Size(b) && (b.Two? ==> |b.top| == |b.bottom|) }

  function Cell(b: Band, odd: nat, j: nat): Paint
    requires Even(b, odd) && j < Width(Size(b), odd)
  {
    var lo, hi := Low(odd, j), High(Size(b), odd, j);
    match b
    case One(line) => var px := Cols(line, odd, j); Shade(px.a / 4, px.u, px.v, hi - lo)
    case Two(top, bottom) =>
      var px := Add(Cols(top, odd, j), Cols(bottom, odd, j)); Shade(px.a / 4, px.u, px.v, 2 * (hi - lo))
    case Tail(line) => Shade(Cols(line, odd, j).a / 4, line[hi - 1].u, line[hi - 1].v, hi - lo)
  }

  function Tint(sample: Byte, s: Paint, blue: bool): Byte { Blend(s.a, sample, if blue then s.u else s.v, s.m) }

  /** What the chroma samples from `at` on become. */
  function NewChroma(was: seq<Byte>, at: int, b: Band, odd: nat, blue: bool): (r: seq<Byte>)
    requires Even(b, odd)
    ensures |r| == Width(Size(b), odd)
  {
    seq<Byte>(Width(Size(b), odd), j requires 0 <= j < Width(Size(b), odd) =>
      Tint(AtOrZero(was, at + j), Cell(b, odd, j), blue))
  }

  // ---------- rows in progress ----------

  /** A plane with the first k of some samples written, from `at` on. */
  function Written(was: seq<Byte>, at: int, new_: seq<Byte>, k: nat): (r: seq<Byte>)
    requires k <= |new_|
    ensures |r| == |was|
  {
    seq<Byte>(|was|, i requires 0 <= i < |was| => if at <= i < at + k then new_[i - at] else was[i])
  }

  lemma WrittenStep(was: seq<Byte>, at: nat, new_: seq<Byte>, k: nat)
    requires k < |new_| && at + k < |was|
    ensures Written(was, at, new_, k)[at + k := new_[k]] == Written(was, at, new_, k + 1)
    ensures Written(was, at, new_, k)[at + k] == was[at + k]
  {
  }

  lemma WrittenNone(was: seq<Byte>, at: int, new_: seq<Byte>)
    ensures Written(was, at, new_, 0) == was
  {
  }

  datatype Planes3 = Planes3(lum: seq<Byte>, cb: seq<Byte>, cr: seq<Byte>)

  /** The moving pointers: into the three planes and the source. */
  datatype Cursor = Cursor(lum: int, cb: int, cr: int, p: int)

  function Move(c: Cursor, columns: int, chroma: int): Cursor {
    Cursor(c.lum + columns, c.cb + chroma, c.cr + chroma, c.p + columns)
  }

  function Single(tail: bool, line: seq<Sample>): Band { if tail then Tail(line) else One(line) }

  /** The new samples of a single row. */
  function NewRow(was: Planes3, at: Cursor, b: Band, odd: nat): (r: Planes3)
    requires Even(b, odd) && !b.Two?
    ensures |r.lum| == Size(b) && |r.cb| == |r.cr| == Width(Size(b), odd)
  {
    Planes3(NewLuma(was.lum, at.lum, b.line),
            NewChroma(was.cb, at.cb, b, odd, true), NewChroma(was.cr, at.cr, b, odd, false))
  }

  /** The planes with k luma and j chroma samples of a row written. */
  function RowDone(was: Planes3, at: Cursor, new_: Planes3, k: nat, j: nat): Planes3
    requires k <= |new_.lum| && j <= |new_.cb| && j <= |new_.cr|
  {
    Planes3(Written(was.lum, at.lum, new_.lum, k),
            Written(was.cb, at.cb, new_.cb, j), Written(was.cr, at.cr, new_.cr, j))
  }

  /** The new samples of a pair of columns of a single row. */
  lemma PairCell(tail: bool, line: seq<Sample>, odd: nat, k: nat, j: nat)
    requires odd <= 1 && odd <= |line| && k + 2 <= |line| && 2 * j == k + odd
    ensures j < Width(|line|, odd)
    ensures Cell(Single(tail, line), odd, j) ==
      (var sum := Add(line[k], line[k + 1]);
       if tail then Shade(sum.a / 4, line[k + 1].u, line[k + 1].v, 2) else Shade(sum.a / 4, sum.u, sum.v, 2))
  {
    assert Low(odd, j) == k && High(|line|, odd, j) == k + 2;
  }

  /** The new samples of a column alone in a single row. */
  lemma ColumnCell(tail: bool, line: seq<Sample>, odd: nat, k: nat, j: nat)
    requires odd <= 1 && odd <= |line| && k < |line|
    requires (k == 0 && j == 0 && odd == 1) || (k == |line| - 1 && 2 * j == k + odd)
    ensures j < Width(|line|, odd)
    ensures Cell(Single(tail, line), odd, j) == Shade(line[k].a / 4, line[k].u, line[k].v, 1)
  {
    assert Low(odd, j) == k && High(|line|, odd, j) == k + 1;
  }

  /** The new samples of a row, one by one. */
  lemma NewRowAt(was: Planes3, at: Cursor, b: Band, odd: nat, k: nat, j: nat)
    requires Even(b, odd) && !b.Two? && k < Size(b) && j < Width(Size(b), odd)
    ensures 0 <= at.lum && at.lum + k < |was.lum| ==>
              NewRow(was, at, b, odd).lum[k] == Lit(was.lum[at.lum + k], b.line[k])
    ensures 0 <= at.cb && at.cb + j < |was.cb| ==>
              NewRow(was, at, b, odd).cb[j] == Tint(was.cb[at.cb + j], Cell(b, odd, j), true)
    ensures 0 <= at.cr && at.cr + j < |was.cr| ==>
              NewRow(was, at, b, odd).cr[j] == Tint(was.cr[at.cr + j], Cell(b, odd, j), false)
  {
    hide Blend, Cell;
  }

  predicate InData(rect: Subtitle, p: int, n: nat) {
    0 <= p && p + n <= |rect.data| && |rect.palette| >= 256
  }

  /** Reads a pixel; the index and the palette entry are in range. */
  method YuvaIn(rect: Subtitle, p: int) returns (px: Sample)
    requires InData(rect, p, 1)
    ensures px == PixelAt(rect, p)
  {
    px := rect.palette[rect.data[p]];
  }

  /** Writes the k-th new sample of a row into a plane whose first k are written. */
  method Put(plane: array<Byte>, i: int, value: Byte,
             ghost was: seq<Byte>, ghost at: nat, ghost new_: seq<Byte>, ghost k: nat)
    requires k < |new_| && i == at + k < plane.Length
    requires plane[..] == Written(was, at, new_, k)
    requires value == new_[k]
    modifies plane
    ensures plane[..] == Written(was, at, new_, k + 1)
  {
    WrittenStep(was, at, new_, k);
    ghost var s := plane[..];
    plane[i] := value;
    assert plane[..] == s[i := value];
  }

  /** The sizes of the three planes. */
  datatype Sizes = Sizes(lum: nat, cb: nat, cr: nat)

  predicate HasRow(z: Sizes, rect: Subtitle, at: Cursor, n: nat, odd: nat) {
    InData(rect, at.p, n) && odd <= 1 && odd <= n && 0 <= at.lum && at.lum + n <= z.lum &&
    0 <= at.cb && at.cb + Width(n, odd) <= z.cb && 0 <= at.cr && at.cr + Width(n, odd) <= z.cr
  }

  class Picture {
    const lum: array<Byte>
    const cb: array<Byte>
    const cr: array<Byte>
    const wrap: nat
    const cbWrap: nat
    const crWrap: nat

    constructor (lum: array<Byte>, cb: array<Byte>, cr: array<Byte>, wrap: nat, cbWrap: nat, crWrap: nat)
      ensures this.lum == lum && this.cb == cb && this.cr == cr
      ensures this.wrap == wrap && this.cbWrap == cbWrap && this.crWrap == crWrap
    {
      this.lum, this.cb, this.cr, this.wrap, this.cbWrap, this.crWrap := lum, cb, cr, wrap, cbWrap, crWrap;
    }

    predicate Planes() { lum != cb && lum != cr && cb != cr }

    ghost function Contents(): Planes3
      reads lum, cb, cr
    {
      Planes3(lum[..], cb[..], cr[..])
    }

    function Size(): Sizes { Sizes(lum.Length, cb.Length, cr.Length) }

    /** A row of n samples fits the planes and the source. */
    predicate Fits(rect: Subtitle, at: Cursor, n: nat, odd: nat) {
      Planes() && HasRow(Size(), rect, at, n, odd)
    }

    /** A single row: the first one at an odd line, or the last one. */
    method BlendOne(rect: Subtitle, tail: bool, at: Cursor, dstw: nat, odd: nat) returns (c: Cursor)
      requires Fits(rect, at, Taken(dstw, odd), odd)
      modifies lum, cb, cr
      ensures var was, n := old(Contents()), Taken(dstw, odd);
              Contents() == RowDone(was, at, NewRow(was, at, Single(tail, Line(rect, at.p, n)), odd), n, Width(n, odd))
      ensures var n := Taken(dstw, odd); c == Move(at, n, Width(n, odd) - Stay(n, odd))
    {
      hide Blend, NewLuma, NewChroma, Written;
      ghost var n := Taken(dstw, odd);
      ghost var was := Contents();
      ghost var new_ := NewRow(was, at, Single(tail, Line(rect, at.p, n)), odd);
      WrittenNone(was.lum, at.lum, new_.lum);
      WrittenNone(was.cb, at.cb, new_.cb);
      WrittenNone(was.cr, at.cr, new_.cr);
      assert Contents() == RowDone(was, at, new_, 0, 0);
      hide RowDone, NewRow;
      c := at;
      if odd == 1 {
        OneColumn(rect, tail, c, was, at, new_, n, odd, 0, 0);
        c := Move(c, 1, 1);
      }
      ghost var k, j := odd, odd;
      var w := dstw - odd;
      while w >= 2
        invariant if w >= 0 then k == n - w else w == -1 && k == n - 1
        invariant 2 * j == k + odd && j <= Width(n, odd)
        invariant c == Move(at, k, j)
        invariant Contents() == RowDone(was, at, new_, k, j)
      {
        PairInRow(rect, tail, c, was, at, new_, n, odd, k, j);
        c := Move(c, 2, 1);
        k, j := k + 2, j + 1;
        w := w - 2;
      }
      if w != 0 {
        OneColumn(rect, tail, c, was, at, new_, n, odd, k, j);
        c := Move(c, 1, 0);
        k, j := k + 1, j + 1;
      }
      assert k == n && j == Width(n, odd);
    }

    /** A first column at an odd position, or a last one alone, of a single row. */
    method OneColumn(rect: Subtitle, tail: bool, c: Cursor, ghost was: Planes3, ghost at: Cursor, ghost new_: Planes3,
                     ghost n: nat, ghost odd: nat, ghost k: nat, ghost j: nat)
      requires Fits(rect, at, n, odd) && k < n && c == Move(at, k, j)
      requires (k == 0 && j == 0 && odd == 1) || (k == n - 1 && 2 * j == k + odd)
      requires new_ == NewRow(was, at, Single(tail, Line(rect, at.p, n)), odd)
      requires Contents() == RowDone(was, at, new_, k, j)
      modifies lum, cb, cr
      ensures Contents() == RowDone(was, at, new_, k + 1, j + 1)
    {
      hide Blend, Written, Cell, NewLuma, NewChroma, Width;
      var px := YuvaIn(rect, c.p);
      var s := Shade(px.a / 4, px.u, px.v, 1);
      ColumnCell(tail, Line(rect, at.p, n), odd, k, j);
      NewRowAt(was, at, Single(tail, Line(rect, at.p, n)), odd, k, j);
      WrittenStep(was.lum, at.lum, new_.lum, k);
      WrittenStep(was.cb, at.cb, new_.cb, j);
      WrittenStep(was.cr, at.cr, new_.cr, j);
      Put(lum, c.lum, Blend(px.a, lum[c.lum], px.y, 1), was.lum, at.lum, new_.lum, k);
      Put(cb, c.cb, Blend(s.a, cb[c.cb], s.u, s.m), was.cb, at.cb, new_.cb, j);
      Put(cr, c.cr, Blend(s.a, cr[c.cr], s.v, s.m), was.cr, at.cr, new_.cr, j);
    }

    /** Two columns of a single row. */
    method PairInRow(rect: Subtitle, tail: bool, c: Cursor, ghost was: Planes3, ghost at: Cursor, ghost new_: Planes3,
                     ghost n: nat, ghost odd: nat, ghost k: nat, ghost j: nat)
      requires Fits(rect, at, n, odd) && k + 2 <= n && 2 * j == k + odd && c == Move(at, k, j)
      requires new_ == NewRow(was, at, Single(tail, Line(rect, at.p, n)), odd)
      requires Contents() == RowDone(was, at, new_, k, j)
      modifies lum, cb, cr
      ensures Contents() == RowDone(was, at, new_, k + 2, j + 1)
    {
      hide Blend, Written, Cell, NewLuma, NewChroma, Width;
      var px := YuvaIn(rect, c.p);
      var sum: Pixel := px;
      PairCell(tail, Line(rect, at.p, n), odd, k, j);
      NewRowAt(was, at, Single(tail, Line(rect, at.p, n)), odd, k, j);
      NewRowAt(was, at, Single(tail, Line(rect, at.p, n)), odd, k + 1, j);
      WrittenStep(was.lum, at.lum, new_.lum, k);
      WrittenStep(was.lum, at.lum, new_.lum, k + 1);
      WrittenStep(was.cb, at.cb, new_.cb, j);
      WrittenStep(was.cr, at.cr, new_.cr, j);
      Put(lum, c.lum, Blend(px.a, lum[c.lum], px.y, 1), was.lum, at.lum, new_.lum, k);
      px := YuvaIn(rect, c.p + 1);
      sum := Add(sum, px);
      Put(lum, c.lum + 1, Blend(px.a, lum[c.lum + 1], px.y, 1), was.lum, at.lum, new_.lum, k + 1);
      var s := if tail then Shade(sum.a / 4, px.u, px.v, 2) else Shade(sum.a / 4, sum.u, sum.v, 2);
      Put(cb, c.cb, Blend(s.a, cb[c.cb], s.u, s.m), was.cb, at.cb, new_.cb, j);
      Put(cr, c.cr, Blend(s.a, cr[c.cr], s.v, s.m), was.cr, at.cr, new_.cr, j);
    }
  }
}
