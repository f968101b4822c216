/** The whole subtitle blend, and what it does to each sample of the picture. */
module SubtitlePicture {
  import opened SubtitleBlend
  import opened SubtitlePairs

  function Clip(v: int, lo: int, hi: int): int { if v < lo then lo else if v > hi then hi else v }

  /** The rectangle blended, clipped to the picture, and the line sizes. */
  datatype Area = Area(x: nat, y: nat, w: nat, h: nat, wrap: nat, cbWrap: nat, crWrap: nat)

  function Clipped(rect: Subtitle, imgw: nat, imgh: nat, wrap: nat, cbWrap: nat, crWrap: nat): (a: Area)
    ensures a.x + a.w <= imgw && a.y + a.h <= imgh
    ensures rect.w >= 0 ==> a.w <= rect.w
    ensures rect.h >= 0 ==> a.h <= rect.h
  {
    var w, h := Clip(rect.w, 0, imgw), Clip(rect.h, 0, imgh);
    Area(Clip(rect.x, 0, imgw - w), Clip(rect.y, 0, imgh - h), w, h, wrap, cbWrap, crWrap)
  }

  /** A rectangle inside the picture is left as it is; any other becomes the nearest one
      inside: size first, then place. */
  lemma ClippedIs(rect: Subtitle, imgw: nat, imgh: nat, wrap: nat, cbWrap: nat, crWrap: nat)
    ensures var a := Clipped(rect, imgw, imgh, wrap, cbWrap, crWrap);
      a.wrap == wrap && a.cbWrap == cbWrap && a.crWrap == crWrap &&
      a.w == (if rect.w < 0 then 0 else if rect.w > imgw then imgw else rect.w) &&
      a.h == (if rect.h < 0 then 0 else if rect.h > imgh then imgh else rect.h) &&
      a.x == (if rect.x < 0 then 0 else if rect.x + a.w > imgw then imgw - a.w else rect.x) &&
      a.y == (if rect.y < 0 then 0 else if rect.y + a.h > imgh then imgh - a.h else rect.y)
  {
  }

  // ---------- the planes, two rows at a time ----------

  /** The columns the code takes in each row. */
  function Columns(a: Area): nat { Taken(a.w, a.x % 2) }

  /** The chroma width the code goes back by. */
  function Width2(w: nat, odd: nat): nat { (w + 1) / 2 + if odd == 1 && w % 2 == 0 then 1 else 0 }

  function OneStep(a: Area, rect: Subtitle, was: Planes3, at: Cursor, tail: bool): Planes3
    requires at.p >= 0
  {
    var n := Columns(a);
    RowDone(was, at, NewRow(was, at, Single(tail, Line(rect, at.p, n)), a.x % 2), n, Width(n, a.x % 2))
  }

  function TwoStep(a: Area, rect: Subtitle, was: Planes3, at: Cursor): Planes3
    requires at.p >= 0
  {
    var n := Columns(a);
    RowsDone(was, at, a.wrap, NewRows(was, at, a.wrap, LinePair(rect, at.p, n), a.x % 2), n, n, Width(n, a.x % 2))
  }

  /** Where the next rows start `rows` lines further down, the pointers having
      moved on by these columns and chroma samples. */
  function Return(a: Area, rect: Subtitle, at: Cursor, rows: nat, columns: int, chroma: int): Cursor {
    var behind := chroma - Width2(a.w, a.x % 2);
    Cursor(at.lum + rows * a.wrap + columns - a.w, at.cb + a.cbWrap + behind, at.cr + a.crWrap + behind,
           at.p + rows * rect.wrap + columns - a.w)
  }

  /** After two rows. */
  function Below(a: Area, rect: Subtitle, at: Cursor): Cursor {
    Return(a, rect, at, 2, Columns(a), Width(Columns(a), a.x % 2))
  }

  /** After a single row: when a column was left over, the chroma pointers stay one sample behind. */
  function AfterOne(a: Area, rect: Subtitle, at: Cursor): Cursor {
    var n, odd := Columns(a), a.x % 2;
    Return(a, rect, at, 1, n, Width(n, odd) - Stay(n, odd))
  }

  /** A rectangle that has the columns taken of it. */
  lemma ReturnIs(a: Area, rect: Subtitle, at: Cursor)
    requires a.x % 2 <= a.w
    ensures Columns(a) == a.w
    ensures Below(a, rect, at) ==
            Cursor(at.lum + 2 * a.wrap, at.cb + a.cbWrap, at.cr + a.crWrap, at.p + 2 * rect.wrap)
    ensures var stay := Stay(a.w, a.x % 2);
      AfterOne(a, rect, at) ==
      Cursor(at.lum + a.wrap, at.cb + a.cbWrap - stay, at.cr + a.crWrap - stay, at.p + rect.wrap)
  {
    WidthFormula(a.w, a.x % 2);
  }

  function PairsDown(a: Area, rect: Subtitle, was: Planes3, at: Cursor, h: int): Planes3
    requires at.p >= 0
    decreases if h < 0 then 0 else h
  {
    if h >= 2 then PairsDown(a, rect, TwoStep(a, rect, was, at), Below(a, rect, at), h - 2)
    else if h != 0 then OneStep(a, rect, was, at, true) else was
  }

  /** The first sample of the rectangle in each plane. */
  function Origin(a: Area): Cursor {
    Cursor(a.y * a.wrap + a.x, (a.y / 2) * a.cbWrap + a.x / 2, (a.y / 2) * a.crWrap + a.x / 2, 0)
  }

  function Blended(a: Area, rect: Subtitle, was: Planes3): Planes3 {
    if a.y % 2 == 1 then
      PairsDown(a, rect, OneStep(a, rect, was, Origin(a), false), AfterOne(a, rect, Origin(a)), a.h - 1)
    else PairsDown(a, rect, was, Origin(a), a.h)
  }

  // ---------- every access is in range ----------

  /** The rectangle is that of a subtitle clipped to a picture of this size, with
      room for the picture in the planes and for the subtitle in its data. */
  predicate Room(z: Sizes, a: Area, rect: Subtitle, imgw: nat, imgh: nat) {
    a == Clipped(rect, imgw, imgh, a.wrap, a.cbWrap, a.crWrap) &&
    imgw <= a.wrap && imgh * a.wrap <= z.lum &&
    (imgw + 1) / 2 <= a.cbWrap && (imgh + 1) / 2 * a.cbWrap <= z.cb &&
    (imgw + 1) / 2 <= a.crWrap && (imgh + 1) / 2 * a.crWrap <= z.cr &&
    rect.w <= rect.wrap && (rect.h > 0 ==> rect.h * rect.wrap <= |rect.data|) && |rect.palette| >= 256
  }

  function SizesOf(p: Planes3): Sizes { Sizes(|p.lum|, |p.cb|, |p.cr|) }

  /** Some picture size makes this the rectangle of the subtitle in these planes. */
  ghost predicate Receivable(a: Area, rect: Subtitle, was: Planes3) {
    exists imgw: nat, imgh: nat :: Room(SizesOf(was), a, rect, imgw, imgh)
  }

  ghost predicate FitsDown(z: Sizes, a: Area, rect: Subtitle, at: Cursor, h: int)
    decreases if h < 0 then 0 else h
  {
    if h >= 2 then
      HasRows(z, a.wrap, rect, at, Columns(a), a.x % 2) && FitsDown(z, a, rect, Below(a, rect, at), h - 2)
    else h != 0 ==> HasRow(z, rect, at, Columns(a), a.x % 2)
  }

  /** Every row the code takes lies inside the planes and the source. */
  ghost predicate FitsAll(z: Sizes, a: Area, rect: Subtitle) {
    if a.y % 2 == 1 then
      HasRow(z, rect, Origin(a), Columns(a), a.x % 2) &&
      FitsDown(z, a, rect, AfterOne(a, rect, Origin(a)), a.h - 1)
    else FitsDown(z, a, rect, Origin(a), a.h)
  }

  lemma RowEnd(y: nat, rows: nat, wrap: nat, size: nat, x: nat, n: nat)
    requires y < rows && rows * wrap <= size && x + n <= wrap
    ensures y * wrap + x + n <= size
  {
    ScaleLe(y + 1, rows, wrap);
  }

  /** The pointers at picture row y, which is row r of the source. */
  function CursorAt(a: Area, rect: Subtitle, y: nat, r: nat, stay: int): Cursor {
    Cursor(y * a.wrap + a.x, y / 2 * a.cbWrap + a.x / 2 - stay, y / 2 * a.crWrap + a.x / 2 - stay, r * rect.wrap)
  }

  lemma RowFits(z: Sizes, rect: Subtitle, imgw: nat, imgh: nat, a: Area, y: nat, r: nat, stay: int)
    requires Room(z, a, rect, imgw, imgh)
    requires a.x % 2 <= a.w && y < imgh && r < a.h && 0 <= stay <= 1 && (stay == 1 ==> y >= 2 && imgw >= 1)
    ensures HasRow(z, rect, CursorAt(a, rect, y, r, stay), a.w, a.x % 2)
  {
    RowEnd(y, imgh, a.wrap, z.lum, a.x, a.w);
    assert a.x / 2 + Width(a.w, a.x % 2) <= (imgw + 1) / 2;
    RowEnd(y / 2, (imgh + 1) / 2, a.cbWrap, z.cb, a.x / 2, Width(a.w, a.x % 2));
    RowEnd(y / 2, (imgh + 1) / 2, a.crWrap, z.cr, a.x / 2, Width(a.w, a.x % 2));
    RowEnd(r, rect.h, rect.wrap, |rect.data|, 0, a.w);
    ScaleLe(0, y, a.wrap);
    ScaleLe(0, r, rect.wrap);
    if stay == 1 {
      ScaleLe(1, y / 2, a.cbWrap);
      ScaleLe(1, y / 2, a.crWrap);
    } else {
      ScaleLe(0, y / 2, a.cbWrap);
      ScaleLe(0, y / 2, a.crWrap);
    }
  }

  lemma BelowIs(a: Area, rect: Subtitle, y: nat, r: nat, stay: int)
    requires a.x % 2 <= a.w
    ensures Below(a, rect, CursorAt(a, rect, y, r, stay)) == CursorAt(a, rect, y + 2, r + 2, stay)
  {
    ReturnIs(a, rect, CursorAt(a, rect, y, r, stay));
    assert (y + 2) / 2 == y / 2 + 1;
    Distribute(y, 2, a.wrap);
    Distribute(r, 2, rect.wrap);
    Distribute(y / 2, 1, a.cbWrap);
    Distribute(y / 2, 1, a.crWrap);
  }

  lemma Distribute(x: int, d: int, z: int)
    ensures (x + d) * z == x * z + d * z
  {
  }

  lemma TwoRowsFit(z: Sizes, rect: Subtitle, imgw: nat, imgh: nat, a: Area, y: nat, r: nat, stay: int)
    requires Room(z, a, rect, imgw, imgh)
    requires a.x % 2 <= a.w && y + 1 < imgh && r + 1 < a.h && 0 <= stay <= 1 && (stay == 1 ==> y >= 2 && imgw >= 1)
    ensures HasRows(z, a.wrap, rect, CursorAt(a, rect, y, r, stay), a.w, a.x % 2)
  {
    RowFits(z, rect, imgw, imgh, a, y, r, stay);
    RowEnd(y + 1, imgh, a.wrap, z.lum, a.x, a.w);
    RowEnd(r + 1, rect.h, rect.wrap, |rect.data|, 0, a.w);
    Distribute(y, 1, a.wrap);
    Distribute(r, 1, rect.wrap);
  }

  lemma {:induction false} RowsFit(z: Sizes, rect: Subtitle, imgw: nat, imgh: nat, a: Area,
                                   y: nat, r: nat, stay: int, h: nat)
    requires Room(z, a, rect, imgw, imgh)
    requires a.x % 2 <= a.w && y % 2 == 0 && y + h <= imgh && r + h <= a.h
    requires 0 <= stay <= 1 && (stay == 1 ==> y >= 2 && imgw >= 1)
    ensures FitsDown(z, a, rect, CursorAt(a, rect, y, r, stay), h)
    decreases h
  {
    hide CursorAt, HasRows, Room, Clipped, HasRow;
    if h >= 1 {
      RowFits(z, rect, imgw, imgh, a, y, r, stay);
      if h >= 2 {
        TwoRowsFit(z, rect, imgw, imgh, a, y, r, stay);
        BelowIs(a, rect, y, r, stay);
        RowsFit(z, rect, imgw, imgh, a, y + 2, r + 2, stay, h - 2);
      }
    }
  }

  lemma OriginIs(a: Area, rect: Subtitle)
    ensures Origin(a) == CursorAt(a, rect, a.y, 0, 0)
  {
  }

  /** The pointers after the first row of a rectangle at an odd line. */
  lemma AfterOneIs(a: Area, rect: Subtitle)
    requires a.y % 2 == 1 && a.x % 2 <= a.w
    ensures AfterOne(a, rect, Origin(a)) == CursorAt(a, rect, a.y + 1, 1, Stay(a.w, a.x % 2))
  {
    ReturnIs(a, rect, Origin(a));
    assert (a.y + 1) / 2 == a.y / 2 + 1;
    Distribute(a.y, 1, a.wrap);
    Distribute(a.y / 2, 1, a.cbWrap);
    Distribute(a.y / 2, 1, a.crWrap);
  }

  /** A rectangle clipped to the picture fits. */
  lemma AllFit(z: Sizes, rect: Subtitle, imgw: nat, imgh: nat, a: Area)
    requires Room(z, a, rect, imgw, imgh)
    requires a.x % 2 <= a.w && a.y % 2 <= a.h
    ensures FitsAll(z, a, rect)
  {
    hide FitsDown, HasRow;
    ReturnIs(a, rect, Origin(a));
    OriginIs(a, rect);
    if a.y % 2 == 1 {
      AfterOneIs(a, rect);
      RowFits(z, rect, imgw, imgh, a, a.y, 0, 0);
      RowsFit(z, rect, imgw, imgh, a, a.y + 1, 1, Stay(a.w, a.x % 2), a.h - 1);
    } else {
      RowsFit(z, rect, imgw, imgh, a, a.y, 0, 0, a.h);
    }
  }

  /** The source's own formula for the chroma width of a row. */
  lemma WidthFormula(n: nat, odd: nat)
    requires odd <= 1 && odd <= n
    ensures Width2(n, odd) == Width(n, odd)
  {
  }

  /** The rows taken two at a time, and a last one alone. */
  method BlendDown(pic: Picture, rect: Subtitle, lum0: int, cb0: int, cr0: int, p0: int,
                   dstx: nat, dstw: nat, h0: int, ghost a: Area)
    requires a.x == dstx && a.w == dstw && a.wrap == pic.wrap && a.cbWrap == pic.cbWrap && a.crWrap == pic.crWrap
    requires 0 <= p0
    requires pic.Planes() && FitsDown(pic.Size(), a, rect, Cursor(lum0 + dstx, cb0 + dstx / 2, cr0 + dstx / 2, p0), h0)
    modifies pic.lum, pic.cb, pic.cr
    ensures pic.Contents() ==
            PairsDown(a, rect, old(pic.Contents()), Cursor(lum0 + dstx, cb0 + dstx / 2, cr0 + dstx / 2, p0), h0)
  {
    hide RowDone, RowsDone, NewRow, NewRows;
    var odd, skip2 := dstx % 2, dstx / 2;
    var width2 := (dstw + 1) / 2 + if odd == 1 && dstw % 2 == 0 then 1 else 0;
    var lum, cb, cr, p, h := lum0, cb0, cr0, p0, h0;
    ghost var at := Cursor(lum + dstx, cb + skip2, cr + skip2, p);
    ghost var result := PairsDown(a, rect, pic.Contents(), at, h);
    while h >= 2
      invariant 0 <= p && at == Cursor(lum + dstx, cb + skip2, cr + skip2, p)
      invariant FitsDown(pic.Size(), a, rect, at, h)
      invariant PairsDown(a, rect, pic.Contents(), at, h) == result
    {
      var c := BlendTwo(pic, rect, Cursor(lum + dstx, cb + skip2, cr + skip2, p), dstw, odd);
      p := c.p + rect.wrap + (rect.wrap - dstw);
      lum := c.lum + pic.wrap + (pic.wrap - dstw - dstx);
      cb, cr := c.cb + pic.cbWrap - width2 - skip2, c.cr + pic.crWrap - width2 - skip2;
      at := Below(a, rect, at);
      h := h - 2;
    }
    if h != 0 {
      var c := pic.BlendOne(rect, true, Cursor(lum + dstx, cb + skip2, cr + skip2, p), dstw, odd);
    }
  }

  /** The single row of a rectangle at an odd line, and the pointers after it. */
  method FirstRow(pic: Picture, rect: Subtitle, lum0: int, cb0: int, cr0: int, dstx: nat, dstw: nat, ghost a: Area)
      returns (lum: int, cb: int, cr: int, p: int)
    requires a.x == dstx && a.w == dstw && a.wrap == pic.wrap && a.cbWrap == pic.cbWrap && a.crWrap == pic.crWrap
    requires pic.Fits(rect, Cursor(lum0 + dstx, cb0 + dstx / 2, cr0 + dstx / 2, 0), Columns(a), a.x % 2)
    modifies pic.lum, pic.cb, pic.cr
    ensures var at := Cursor(lum0 + dstx, cb0 + dstx / 2, cr0 + dstx / 2, 0);
      pic.Contents() == OneStep(a, rect, old(pic.Contents()), at, false) &&
      Cursor(lum + dstx, cb + dstx / 2, cr + dstx / 2, p) == AfterOne(a, rect, at)
  {
    hide RowDone, NewRow;
    var odd, skip2 := dstx % 2, dstx / 2;
    var width2 := (dstw + 1) / 2 + if odd == 1 && dstw % 2 == 0 then 1 else 0;
    var c := pic.BlendOne(rect, false, Cursor(lum0 + dstx, cb0 + skip2, cr0 + skip2, 0), dstw, odd);
    p := c.p + rect.wrap - dstw;
    lum := c.lum + pic.wrap - dstw - dstx;
    cb, cr := c.cb + pic.cbWrap - width2 - skip2, c.cr + pic.crWrap - width2 - skip2;
  }

  method BlendSubrect(pic: Picture, rect: Subtitle, imgw: nat, imgh: nat)
    requires pic.Planes()
    requires FitsAll(pic.Size(), Clipped(rect, imgw, imgh, pic.wrap, pic.cbWrap, pic.crWrap), rect)
    modifies pic.lum, pic.cb, pic.cr
    ensures pic.Contents() ==
            Blended(Clipped(rect, imgw, imgh, pic.wrap, pic.cbWrap, pic.crWrap), rect, old(pic.Contents()))
  {
    hide OneStep, AfterOne, FitsDown, PairsDown, Columns, HasRow;
    var dstw := Clip(rect.w, 0, imgw);
    var dsth := Clip(rect.h, 0, imgh);
    var dstx := Clip(rect.x, 0, imgw - dstw);
    var dsty := Clip(rect.y, 0, imgh - dsth);
    ghost var a := Clipped(rect, imgw, imgh, pic.wrap, pic.cbWrap, pic.crWrap);
    var lum, cb, cr, p := dsty * pic.wrap, dsty / 2 * pic.cbWrap, dsty / 2 * pic.crWrap, 0;
    assert Cursor(lum + dstx, cb + dstx / 2, cr + dstx / 2, p) == Origin(a);
    if dsty % 2 == 1 {
      lum, cb, cr, p := FirstRow(pic, rect, lum, cb, cr, dstx, dstw, a);
      AfterOneP(a, rect, Origin(a));
    }
    BlendDown(pic, rect, lum, cb, cr, p, dstx, dstw, dsth - dsty % 2, a);
  }

  lemma AfterOneP(a: Area, rect: Subtitle, at: Cursor)
    requires at.p >= 0
    ensures AfterOne(a, rect, at).p >= 0
  {
  }
}
