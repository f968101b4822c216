/** Two subtitle rows at a time: four luma samples for one sample of each chroma plane. */
module SubtitlePairs {
  import opened SubtitleBlend

  /** A plane with the first k samples of a row and l of the row below written. */
  function WrittenTwo(was: seq<Byte>, at: int, wrap: nat, top: seq<Byte>, k: nat, bottom: seq<Byte>, l: nat): seq<Byte>
    requires k <= |top| && l <= |bottom|
  {
    Written(Written(was, at, top, k), at + wrap, bottom, l)
  }

  /** Samples below the row in progress are still the old ones. */
  lemma WrittenBelow(was: seq<Byte>, at: int, new_: seq<Byte>, k: nat, i: nat)
    requires k <= |new_| && at + k <= i < |was|
    ensures Written(was, at, new_, k)[i] == was[i]
  {
  }

  /** The upper row may go on after the lower one was begun. */
  lemma TopStep(was: seq<Byte>, at: nat, wrap: nat, top: seq<Byte>, k: nat, bottom: seq<Byte>, l: nat)
    requires k < |top| <= wrap && l <= |bottom| && at + k < |was|
    ensures WrittenTwo(was, at, wrap, top, k, bottom, l)[at + k := top[k]]
         == WrittenTwo(was, at, wrap, top, k + 1, bottom, l)
    ensures WrittenTwo(was, at, wrap, top, k, bottom, l)[at + k] == was[at + k]
  {
  }

  /** The new samples of two rows. */
  datatype NewTwo = NewTwo(top: seq<Byte>, bottom: seq<Byte>, cb: seq<Byte>, cr: seq<Byte>)

  function NewRows(was: Planes3, at: Cursor, wrap: nat, b: Band, odd: nat): (r: NewTwo)
    requires Even(b, odd) && b.Two?
    ensures |r.top| == |r.bottom| == Size(b) && |r.cb| == |r.cr| == Width(Size(b), odd)
  {
    NewTwo(NewLuma(was.lum, at.lum, b.top), NewLuma(was.lum, at.lum + wrap, b.bottom),
           NewChroma(was.cb, at.cb, b, odd, true), NewChroma(was.cr, at.cr, b, odd, false))
  }

  function RowsDone(was: Planes3, at: Cursor, wrap: nat, new_: NewTwo, k: nat, l: nat, j: nat): Planes3
    requires k <= |new_.top| && l <= |new_.bottom| && j <= |new_.cb| && j <= |new_.cr|
  {
    Planes3(WrittenTwo(was.lum, at.lum, wrap, new_.top, k, new_.bottom, l),
            Written(was.cb, at.cb, new_.cb, j), Written(was.cr, at.cr, new_.cr, j))
  }

  function LinePair(rect: Subtitle, p: nat, n: nat): Band { Two(Line(rect, p, n), Line(rect, p + rect.wrap, n)) }

  /** The new samples of two rows, one by one. */
  lemma NewRowsAt(was: Planes3, at: Cursor, wrap: nat, b: Band, odd: nat, k: nat, j: nat)
    requires Even(b, odd) && b.Two? && k < Size(b) && j < Width(Size(b), odd)
    ensures 0 <= at.lum && at.lum + k < |was.lum| ==>
              NewRows(was, at, wrap, b, odd).top[k] == Lit(was.lum[at.lum + k], b.top[k])
    ensures 0 <= at.lum && at.lum + wrap + k < |was.lum| ==>
              NewRows(was, at, wrap, b, odd).bottom[k] == Lit(was.lum[at.lum + wrap + k], b.bottom[k])
    ensures 0 <= at.cb && at.cb + j < |was.cb| ==>
              NewRows(was, at, wrap, b, odd).cb[j] == Tint(was.cb[at.cb + j], Cell(b, odd, j), true)
    ensures 0 <= at.cr && at.cr + j < |was.cr| ==>
              NewRows(was, at, wrap, b, odd).cr[j] == Tint(was.cr[at.cr + j], Cell(b, odd, j), false)
  {
    hide Blend, Cell;
  }

  /** The chroma shade of four pixels. */
  lemma SquareCell(b: Band, odd: nat, k: nat, j: nat)
    requires Even(b, odd) && b.Two? && k + 2 <= Size(b) && 2 * j == k + odd
    ensures j < Width(Size(b), odd)
    ensures Cell(b, odd, j) ==
      (var sum := Add(Add(Add(b.top[k], b.top[k + 1]), b.bottom[k]), b.bottom[k + 1]);
       Shade(sum.a / 4, sum.u, sum.v, 4))
  {
    assert Low(odd, j) == k && High(Size(b), odd, j) == k + 2;
  }

  /** The chroma shade of two pixels one above the other. */
  lemma UprightCell(b: Band, odd: nat, k: nat, j: nat)
    requires Even(b, odd) && b.Two? && k < Size(b)
    requires (k == 0 && j == 0 && odd == 1) || (k == Size(b) - 1 && 2 * j == k + odd)
    ensures j < Width(Size(b), odd)
    ensures Cell(b, odd, j) == (var sum := Add(b.top[k], b.bottom[k]); Shade(sum.a / 4, sum.u, sum.v, 2))
  {
    assert Low(odd, j) == k && High(Size(b), odd, j) == k + 1;
  }

  /** Writes the next sample of the upper row. */
  method PutTop(plane: array<Byte>, i: int, value: Byte, ghost was: seq<Byte>, ghost at: nat, ghost wrap: nat,
                ghost top: seq<Byte>, ghost k: nat, ghost bottom: seq<Byte>, ghost l: nat)
    requires k < |top| <= wrap && l <= |bottom| && i == at + k < plane.Length && |was| == plane.Length
    requires plane[..] == WrittenTwo(was, at, wrap, top, k, bottom, l) && value == top[k]
    modifies plane
    ensures plane[..] == WrittenTwo(was, at, wrap, top, k + 1, bottom, l)
  {
    TopStep(was, at, wrap, top, k, bottom, l);
    ghost var s := plane[..];
    plane[i] := value;
    assert plane[..] == s[i := value];
  }

  /** Writes the next sample of the lower row. */
  method PutBottom(plane: array<Byte>, i: int, value: Byte, ghost was: seq<Byte>, ghost at: nat, ghost wrap: nat,
                   ghost top: seq<Byte>, ghost k: nat, ghost bottom: seq<Byte>, ghost l: nat)
    requires k <= |top| && l < |bottom| && i == at + wrap + l < plane.Length && |was| == plane.Length
    requires plane[..] == WrittenTwo(was, at, wrap, top, k, bottom, l) && value == bottom[l]
    modifies plane
    ensures plane[..] == WrittenTwo(was, at, wrap, top, k, bottom, l + 1)
  {
    hide Written;
    Put(plane, i, value, Written(was, at, top, k), at + wrap, bottom, l);
  }

  /** Two rows of n samples fit the planes and the source. */
  predicate FitsTwo(pic: Picture, rect: Subtitle, at: Cursor, n: nat, odd: nat) {
    pic.Planes() && HasRows(pic.Size(), pic.wrap, rect, at, n, odd)
  }

  predicate HasRows(z: Sizes, wrap: nat, rect: Subtitle, at: Cursor, n: nat, odd: nat) {
    HasRow(z, rect, at, n, odd) && n <= wrap && at.lum + wrap + n <= z.lum && InData(rect, at.p + rect.wrap, n)
  }

  /** Two rows before their first column. */
  lemma NoneDone(pic: Picture, rect: Subtitle, was: Planes3, at: Cursor, n: nat, odd: nat) returns (new_: NewTwo)
    requires FitsTwo(pic, rect, at, n, odd)
    ensures odd <= 1 && odd <= n && Even(LinePair(rect, at.p, n), odd) && LinePair(rect, at.p, n).Two?
    ensures new_ == NewRows(was, at, pic.wrap, LinePair(rect, at.p, n), odd)
    ensures |new_.top| == |new_.bottom| == n && |new_.cb| == |new_.cr| == Width(n, odd) && odd <= Width(n, odd)
    ensures RowsDone(was, at, pic.wrap, new_, 0, 0, 0) == was
  {
    hide Blend, NewLuma, NewChroma, Written;
    new_ := NewRows(was, at, pic.wrap, LinePair(rect, at.p, n), odd);
    WrittenNone(was.lum, at.lum, new_.top);
    WrittenNone(was.lum, at.lum + pic.wrap, new_.bottom);
    WrittenNone(was.cb, at.cb, new_.cb);
    WrittenNone(was.cr, at.cr, new_.cr);
  }

  /** Two rows. */
  method BlendTwo(pic: Picture, rect: Subtitle, at: Cursor, dstw: nat, odd: nat) returns (c: Cursor)
    requires FitsTwo(pic, rect, at, Taken(dstw, odd), odd)
    modifies pic.lum, pic.cb, pic.cr
    ensures var was, n := old(pic.Contents()), Taken(dstw, odd);
            pic.Contents() == RowsDone(was, at, pic.wrap, NewRows(was, at, pic.wrap, LinePair(rect, at.p, n), odd),
                                       n, n, Width(n, odd))
    ensures var n := Taken(dstw, odd); c == Move(at, n, Width(n, odd))
  {
    hide RowsDone, NewRows, LinePair, FitsTwo, Width;
    ghost var n := Taken(dstw, odd);
    ghost var was := pic.Contents();
    ghost var new_ := NoneDone(pic, rect, was, at, n, odd);
    c := at;
    if odd == 1 {
      UprightColumn(pic, rect, c, was, at, new_, n, odd, 0, 0);
      c := Move(c, 1, 1);
    }
    ghost var k, j := odd, odd;
    var w := dstw - odd;
    while w >= 2
      invariant if w >= 0 then k == n - w else w == -1 && k == n - 1
      invariant 2 * j == k + odd && j <= Width(n, odd)
      invariant c == Move(at, k, j)
      invariant pic.Contents() == RowsDone(was, at, pic.wrap, new_, k, k, j)
    {
      Square(pic, rect, c, was, at, new_, n, odd, k, j);
      c := Move(c, 2, 1);
      k, j := k + 2, j + 1;
      w := w - 2;
      WidthIs(n, odd, k, j);
    }
    WidthIs(n, odd, k, j);
    if w != 0 {
      UprightColumn(pic, rect, c, was, at, new_, n, odd, k, j);
      c := Move(c, 1, 1);
      k, j := k + 1, j + 1;
    }
    assert k == n && j == Width(n, odd);
  }

  /** A first column at an odd position, or a last one alone, of two rows. */
  method UprightColumn(pic: Picture, rect: Subtitle, c: Cursor,
                       ghost was: Planes3, ghost at: Cursor, ghost new_: NewTwo,
                       ghost n: nat, ghost odd: nat, ghost k: nat, ghost j: nat)
    requires FitsTwo(pic, rect, at, n, odd) && k < n && c == Move(at, k, j)
    requires (k == 0 && j == 0 && odd == 1) || (k == n - 1 && 2 * j == k + odd)
    requires |was.lum| == pic.lum.Length && |was.cb| == pic.cb.Length && |was.cr| == pic.cr.Length
    requires new_ == NewRows(was, at, pic.wrap, LinePair(rect, at.p, n), odd)
    requires pic.Contents() == RowsDone(was, at, pic.wrap, new_, k, k, j)
    modifies pic.lum, pic.cb, pic.cr
    ensures pic.Contents() == RowsDone(was, at, pic.wrap, new_, k + 1, k + 1, j + 1)
  {
    hide Blend, Written, Cell, NewLuma, NewChroma, Width;
    ghost var b := LinePair(rect, at.p, n);
    UprightCell(b, odd, k, j);
    NewRowsAt(was, at, pic.wrap, b, odd, k, j);
    WrittenStep(was.cb, at.cb, new_.cb, j);
    WrittenStep(was.cr, at.cr, new_.cr, j);
    var px := YuvaIn(rect, c.p);
    LightTop(pic, c.lum, px, was.lum, at.lum, new_.top, k, new_.bottom, k);
    var sum: Pixel := px;
    px := YuvaIn(rect, c.p + rect.wrap);
    LightBottom(pic, c.lum + pic.wrap, px, was.lum, at.lum, new_.top, k + 1, new_.bottom, k);
    sum := Add(sum, px);
    var s := Shade(sum.a / 4, sum.u, sum.v, 2);
    Put(pic.cb, c.cb, Blend(s.a, pic.cb[c.cb], s.u, s.m), was.cb, at.cb, new_.cb, j);
    Put(pic.cr, c.cr, Blend(s.a, pic.cr[c.cr], s.v, s.m), was.cr, at.cr, new_.cr, j);
  }

  /** Two columns of two rows. */
  method Square(pic: Picture, rect: Subtitle, c: Cursor, ghost was: Planes3, ghost at: Cursor, ghost new_: NewTwo,
                ghost n: nat, ghost odd: nat, ghost k: nat, ghost j: nat)
    requires FitsTwo(pic, rect, at, n, odd) && k + 2 <= n && 2 * j == k + odd && c == Move(at, k, j)
    requires |was.lum| == pic.lum.Length && |was.cb| == pic.cb.Length && |was.cr| == pic.cr.Length
    requires new_ == NewRows(was, at, pic.wrap, LinePair(rect, at.p, n), odd)
    requires pic.Contents() == RowsDone(was, at, pic.wrap, new_, k, k, j)
    modifies pic.lum, pic.cb, pic.cr
    ensures pic.Contents() == RowsDone(was, at, pic.wrap, new_, k + 2, k + 2, j + 1)
  {
    hide Blend, Written, Cell, NewLuma, NewChroma, Width, NewRows;
    ghost var b := LinePair(rect, at.p, n);
    SquareCell(b, odd, k, j);
    NewRowsAt(was, at, pic.wrap, b, odd, k, j);
    NewRowsAt(was, at, pic.wrap, b, odd, k + 1, j);
    WrittenStep(was.cb, at.cb, new_.cb, j);
    WrittenStep(was.cr, at.cr, new_.cr, j);
    var px := YuvaIn(rect, c.p);
    LightTop(pic, c.lum, px, was.lum, at.lum, new_.top, k, new_.bottom, k);
    var sum: Pixel := px;
    px := YuvaIn(rect, c.p + 1);
    LightTop(pic, c.lum + 1, px, was.lum, at.lum, new_.top, k + 1, new_.bottom, k);
    sum := Add(sum, px);
    px := YuvaIn(rect, c.p + rect.wrap);
    LightBottom(pic, c.lum + pic.wrap, px, was.lum, at.lum, new_.top, k + 2, new_.bottom, k);
    sum := Add(sum, px);
    px := YuvaIn(rect, c.p + rect.wrap + 1);
    LightBottom(pic, c.lum + pic.wrap + 1, px, was.lum, at.lum, new_.top, k + 2, new_.bottom, k + 1);
    sum := Add(sum, px);
    var s := Shade(sum.a / 4, sum.u, sum.v, 4);
    Put(pic.cb, c.cb, Blend(s.a, pic.cb[c.cb], s.u, s.m), was.cb, at.cb, new_.cb, j);
    Put(pic.cr, c.cr, Blend(s.a, pic.cr[c.cr], s.v, s.m), was.cr, at.cr, new_.cr, j);
  }

  /** Blends the next luma sample of the upper row. */
  method LightTop(pic: Picture, i: int, px: Sample, ghost was: seq<Byte>, ghost at: nat,
                  ghost top: seq<Byte>, ghost k: nat, ghost bottom: seq<Byte>, ghost l: nat)
    requires k < |top| <= pic.wrap && l <= |bottom| && i == at + k < pic.lum.Length && |was| == pic.lum.Length
    requires pic.lum[..] == WrittenTwo(was, at, pic.wrap, top, k, bottom, l) && top[k] == Lit(was[i], px)
    modifies pic.lum
    ensures pic.lum[..] == WrittenTwo(was, at, pic.wrap, top, k + 1, bottom, l)
  {
    hide Blend, Written;
    TopStep(was, at, pic.wrap, top, k, bottom, l);
    PutTop(pic.lum, i, Blend(px.a, pic.lum[i], px.y, 1), was, at, pic.wrap, top, k, bottom, l);
  }

  /** Blends the next luma sample of the lower row. */
  method LightBottom(pic: Picture, i: int, px: Sample, ghost was: seq<Byte>, ghost at: nat,
                     ghost top: seq<Byte>, ghost k: nat, ghost bottom: seq<Byte>, ghost l: nat)
    requires k <= |top| <= pic.wrap && l < |bottom| && i == at + pic.wrap + l < pic.lum.Length
    requires |was| == pic.lum.Length
    requires pic.lum[..] == WrittenTwo(was, at, pic.wrap, top, k, bottom, l) && bottom[l] == Lit(was[i], px)
    modifies pic.lum
    ensures pic.lum[..] == WrittenTwo(was, at, pic.wrap, top, k, bottom, l + 1)
  {
    hide Blend, Written;
    WrittenStep(Written(was, at, top, k), at + pic.wrap, bottom, l);
    WrittenBelow(was, at, top, k, i);
    PutBottom(pic.lum, i, Blend(px.a, pic.lum[i], px.y, 1), was, at, pic.wrap, top, k, bottom, l);
  }
}
