/** Rectangles clipped to no column at an odd column or to no line at an odd
    line: the code still blends, and the luma law says exactly when it does not. */
module SubtitleEmpty {
  import opened SubtitleBlend
  import opened SubtitlePairs
  import opened SubtitlePicture
  import opened SubtitleLaws
  import opened SubtitleShift

  /** What the luma law says of the sample at one place. */
  ghost predicate LumaLawAt(a: Area, rect: Subtitle, was: Planes3, y: nat, x: nat) {
    x < a.wrap && y * a.wrap + x < |was.lum| ==>
      var i, r := y * a.wrap + x, Blended(a, rect, was).lum;
      0 <= i && |r| == |was.lum| &&
      r[i] == if Inside(a, y, x) then Lit(was.lum[i], PixelAt(rect, (y - a.y) * rect.wrap + (x - a.x))) else was.lum[i]
  }

  /** A subtitle and a picture the code can blend without leaving either. */
  ghost predicate Blendable(a: Area, rect: Subtitle, was: Planes3) {
    Receivable(a, rect, was) && FitsAll(SizesOf(was), a, rect)
  }

  function Rows(a: Area): nat { Taken(a.h, a.y % 2) }

  /** An odd first column and line belong to the rectangle, or nothing is taken. */
  predicate Exact(a: Area) { (a.x % 2 <= a.w && a.y % 2 <= a.h) || Columns(a) == 0 || Rows(a) == 0 }

  // ---------- nothing is taken ----------

  lemma OneStepLuma(a: Area, rect: Subtitle, was: Planes3, at: Cursor, tail: bool)
    requires at.p >= 0
    ensures OneStep(a, rect, was, at, tail).lum == LumaOne(was.lum, at.lum, Line(rect, at.p, Columns(a)))
  {
    hide NewLuma, NewChroma, Written, Width;
  }

  lemma TwoStepLuma(a: Area, rect: Subtitle, was: Planes3, at: Cursor)
    requires at.p >= 0 && Columns(a) <= a.wrap
    ensures TwoStep(a, rect, was, at).lum ==
            LumaOne(LumaOne(was.lum, at.lum, Line(rect, at.p, Columns(a))), at.lum + a.wrap,
                    Line(rect, at.p + rect.wrap, Columns(a)))
  {
    hide NewLuma, NewChroma, Written, Width;
    TwoAreTwo(was.lum, at.lum, a.wrap, Line(rect, at.p, Columns(a)), Line(rect, at.p + rect.wrap, Columns(a)));
  }

  lemma {:induction false} NoColumns(a: Area, rect: Subtitle, was: Planes3, at: Cursor, h: int)
    requires at.p >= 0 && Columns(a) == 0
    ensures PairsDown(a, rect, was, at, h).lum == was.lum
    decreases if h < 0 then 0 else h
  {
    hide LumaOne, Width, OneStep, TwoStep;
    if h >= 2 {
      TwoStepLuma(a, rect, was, at);
      NoLine(was.lum, at.lum, Line(rect, at.p, 0));
      NoLine(was.lum, at.lum + a.wrap, Line(rect, at.p + rect.wrap, 0));
      NoColumns(a, rect, TwoStep(a, rect, was, at), Below(a, rect, at), h - 2);
    } else if h != 0 {
      OneStepLuma(a, rect, was, at, true);
      NoLine(was.lum, at.lum, Line(rect, at.p, 0));
    }
  }

  lemma NoLine(was: seq<Byte>, at: int, line: seq<Sample>)
    requires line == []
    ensures LumaOne(was, at, line) == was
  {
  }

  lemma NothingTaken(a: Area, rect: Subtitle, was: Planes3)
    requires Columns(a) == 0 || Rows(a) == 0
    ensures Blended(a, rect, was).lum == was.lum
  {
    hide LumaOne, Width, OneStep;
    if Columns(a) == 0 {
      if a.y % 2 == 1 {
        OneStepLuma(a, rect, was, Origin(a), false);
        NoLine(was.lum, Origin(a).lum, Line(rect, 0, 0));
        NoColumns(a, rect, OneStep(a, rect, was, Origin(a), false), AfterOne(a, rect, Origin(a)), a.h - 1);
      } else {
        NoColumns(a, rect, was, Origin(a), a.h);
      }
    }
  }

  lemma LawHolds(a: Area, rect: Subtitle, was: Planes3, y: nat, x: nat)
    requires Exact(a) && Blendable(a, rect, was)
    ensures LumaLawAt(a, rect, was, y, x)
  {
    hide Blended, FitsAll;
    if x < a.wrap && y * a.wrap + x < |was.lum| {
      if a.x % 2 <= a.w && a.y % 2 <= a.h {
        LumaLaw(a, rect, was, y, x);
      } else {
        NothingTaken(a, rect, was);
        ScaleLe(0, y, a.wrap);
      }
    }
  }

  // ---------- ink ----------

  /** The subtitle with ink for every pixel. */
  function AllInk(rect: Subtitle): Subtitle {
    rect.(data := seq<Byte>(|rect.data|, _ => 1), palette := seq<Sample>(256, _ => INK))
  }

  lemma AllInkAt(rect: Subtitle, k: int)
    ensures PixelAt(AllInk(rect), k) == if 0 <= k < |rect.data| then INK else CLEAR
  {
  }

  lemma BlendInk(sample: Byte)
    ensures Lit(sample, INK) == 255 && Lit(sample, CLEAR) == sample
  {
    BlendClear(sample, 0, 1);
    DivExact(255 * 255, 255, 255);
  }

  /** A fully lit sample stays so. */
  lemma LumaOneStaysLit(rect: Subtitle, was: seq<Byte>, at: int, p: nat, n: nat, i: nat)
    requires i < |was| && was[i] == 255
    ensures LumaOne(was, at, Line(AllInk(rect), p, n))[i] == 255
  {
    hide Blend, LumaOne, AllInk, PixelAt, Lit;
    LumaOneAt(was, at, Line(AllInk(rect), p, n), i);
    BlendInk(255);
    if at <= i < at + n {
      AllInkAt(rect, p + (i - at));
    }
  }

  predicate LitAt(lum: seq<Byte>, i: nat) { i < |lum| && lum[i] == 255 }

  lemma {:induction false} StaysLit(a: Area, rect: Subtitle, was: Planes3, at: Cursor, h: int, z: Sizes, i: nat)
    requires at.p >= 0 && LitAt(was.lum, i) && FitsDown(z, a, AllInk(rect), at, h)
    ensures LitAt(PairsDown(a, AllInk(rect), was, at, h).lum, i)
    decreases if h < 0 then 0 else h
  {
    hide LumaOne, OneStep, TwoStep, AllInk, HasRow, Width, Line;
    var ink, n := AllInk(rect), Columns(a);
    if h >= 2 {
      TwoStepLuma(a, ink, was, at);
      LumaOneStaysLit(rect, was.lum, at.lum, at.p, n, i);
      LumaOneStaysLit(rect, LumaOne(was.lum, at.lum, Line(ink, at.p, n)), at.lum + a.wrap, at.p + ink.wrap, n, i);
      StaysLit(a, rect, TwoStep(a, ink, was, at), Below(a, ink, at), h - 2, z, i);
    } else if h != 0 {
      OneStepLuma(a, ink, was, at, true);
      LumaOneStaysLit(rect, was.lum, at.lum, at.p, n, i);
    }
  }

  /** Colour does not matter to what fits. */
  lemma {:induction false} InkFits(z: Sizes, a: Area, rect: Subtitle, at: Cursor, h: int)
    requires FitsDown(z, a, rect, at, h)
    ensures FitsDown(z, a, AllInk(rect), at, h)
    decreases if h < 0 then 0 else h
  {
    hide Width;
    if h >= 2 {
      InkFits(z, a, rect, Below(a, rect, at), h - 2);
    }
  }

  function Dark(was: Planes3): (r: Planes3)
    ensures SizesOf(r) == SizesOf(was)
  {
    Planes3(Blank(|was.lum|), Blank(|was.cb|), Blank(|was.cr|))
  }

  lemma InkBlendable(a: Area, rect: Subtitle, was: Planes3)
    requires Blendable(a, rect, was)
    ensures Blendable(a, AllInk(rect), Dark(was))
  {
    hide FitsDown, Width;
    var z := SizesOf(was);
    var imgw: nat, imgh: nat :| Room(z, a, rect, imgw, imgh);
    assert Room(z, a, AllInk(rect), imgw, imgh);
    if a.y % 2 == 1 {
      InkFits(z, a, rect, AfterOne(a, rect, Origin(a)), a.h - 1);
    } else {
      InkFits(z, a, rect, Origin(a), a.h);
    }
  }

  // ---------- the first sample ----------

  /** A row that is taken lights its first sample. */
  lemma LightsFirst(z: Sizes, rect: Subtitle, was: seq<Byte>, at: Cursor, n: nat, odd: nat)
    requires HasRow(z, AllInk(rect), at, n, odd) && n > 0 && |was| == z.lum
    ensures at.lum < |was| && LitAt(LumaOne(was, at.lum, Line(AllInk(rect), at.p, n)), at.lum)
  {
    hide Blend, LumaOne, PixelAt, Lit, Width;
    LumaOneAt(was, at.lum, Line(AllInk(rect), at.p, n), at.lum);
    AllInkAt(rect, at.p);
    BlendInk(was[at.lum]);
  }

  lemma LightsOrigin(a: Area, rect: Subtitle, was: Planes3)
    requires !Exact(a) && FitsAll(SizesOf(was), a, AllInk(rect))
    ensures 0 <= Origin(a).lum < |was.lum| && LitAt(Blended(a, AllInk(rect), was).lum, Origin(a).lum)
  {
    hide LumaOne, OneStep, TwoStep, AllInk, HasRow, Width, Line, PairsDown, Origin;
    var ink, n, at, z := AllInk(rect), Columns(a), Origin(a), SizesOf(was);
    OriginAt(a);
    if a.y % 2 == 1 {
      var next := OneStep(a, ink, was, at, false);
      OneStepLuma(a, ink, was, at, false);
      LightsFirst(z, rect, was.lum, at, n, a.x % 2);
      StaysLit(a, rect, next, AfterOne(a, ink, at), a.h - 1, z, at.lum);
    } else {
      LightsDown(a, rect, was, at, a.h);
    }
  }

  lemma OriginAt(a: Area)
    ensures Origin(a).lum == a.y * a.wrap + a.x >= 0 && Origin(a).p == 0
  {
    ScaleLe(0, a.y, a.wrap);
  }

  lemma LightsDown(a: Area, rect: Subtitle, was: Planes3, at: Cursor, h: int)
    requires h > 0 && Columns(a) > 0 && at.p >= 0 && at.lum >= 0 && FitsDown(SizesOf(was), a, AllInk(rect), at, h)
    ensures at.lum < |was.lum| && LitAt(PairsDown(a, AllInk(rect), was, at, h).lum, at.lum)
  {
    hide LumaOne, OneStep, TwoStep, AllInk, HasRow, Width, Line;
    var ink, n, z := AllInk(rect), Columns(a), SizesOf(was);
    LightsFirst(z, rect, was.lum, at, n, a.x % 2);
    if h >= 2 {
      TwoStepLuma(a, ink, was, at);
      LumaOneStaysLit(rect, LumaOne(was.lum, at.lum, Line(ink, at.p, n)), at.lum + a.wrap, at.p + ink.wrap, n, at.lum);
      StaysLit(a, rect, TwoStep(a, ink, was, at), Below(a, ink, at), h - 2, z, at.lum);
    } else {
      OneStepLuma(a, ink, was, at, true);
    }
  }

  /** The place of that sample: with the last column at the line size, the next line begins there. */
  lemma OriginPlace(a: Area) returns (y: nat, x: nat)
    requires a.x <= a.wrap && (a.x == a.wrap ==> a.w == 0 < a.wrap)
    requires a.w == 0 || a.h == 0
    ensures x < a.wrap || a.wrap == 0
    ensures y * a.wrap + x == Origin(a).lum && !Inside(a, y, x)
  {
    if a.x < a.wrap {
      y, x := a.y, a.x;
    } else {
      y, x := a.y + 1, 0;
      Distribute(a.y, 1, a.wrap);
    }
  }

  lemma LawFailsEmpty(a: Area, rect: Subtitle, was: Planes3) returns (y: nat, x: nat)
    requires !Exact(a) && Blendable(a, rect, was)
    ensures !LumaLawAt(a, AllInk(rect), Dark(was), y, x)
  {
    hide AllInk, Blended, FitsAll, Receivable, Exact, Origin, Inside, Dark;
    InkBlendable(a, rect, was);
    LightsOrigin(a, rect, Dark(was));
    InLine(a, rect, was);
    EmptyAt(a);
    y, x := OriginPlace(a);
    DarkAt(was, Origin(a).lum);
    assert x < a.wrap;
  }

  lemma InLine(a: Area, rect: Subtitle, was: Planes3)
    requires Receivable(a, rect, was)
    ensures a.x + a.w <= a.wrap
  {
  }

  lemma EmptyAt(a: Area)
    requires !Exact(a)
    ensures (a.w == 0 && a.x >= 1) || (a.h == 0 && a.w > 0)
  {
  }

  lemma DarkAt(was: Planes3, i: int)
    ensures 0 <= i < |Dark(was).lum| ==> Dark(was).lum[i] == 0
  {
  }

  /** The luma law holds of every subtitle clipped to a rectangle and every
      picture exactly if an odd first column and line belong to the rectangle,
      or nothing is taken of it. */
  lemma LumaLawIff(a: Area, rect0: Subtitle, was0: Planes3)
    requires Blendable(a, rect0, was0)
    ensures (forall rect: Subtitle, was: Planes3, y: nat, x: nat ::
               Blendable(a, rect, was) ==> LumaLawAt(a, rect, was, y, x)) <==> Exact(a)
  {
    hide Exact, Blendable, LumaLawAt;
    if Exact(a) {
      forall rect: Subtitle, was: Planes3, y: nat, x: nat | Blendable(a, rect, was)
        ensures LumaLawAt(a, rect, was, y, x)
      {
        LawHolds(a, rect, was, y, x);
      }
    } else {
      var y, x := LawFailsEmpty(a, rect0, was0);
      InkBlendable(a, rect0, was0);
    }
  }

  const NO_COLUMN := Subtitle(1, 0, 0, 1, 2, [1, 1], Palette())
  const ROW := Planes3([0, 0, 0, 0], [0, 0], [0, 0])

  const STRIP := Area(1, 0, 0, 1, 4, 2, 2)

  /** A rectangle of the first line alone. */
  lemma TopLine(z: Sizes, a: Area, rect: Subtitle, was: Planes3)
    requires a.y == 0 && a.h == 1
    ensures var at := Cursor(a.x, a.x / 2, a.x / 2, 0);
      (FitsAll(z, a, rect) <==> HasRow(z, rect, at, Columns(a), a.x % 2)) &&
      Blended(a, rect, was) == OneStep(a, rect, was, at, true)
  {
    hide OneStep, TwoStep, HasRow, HasRows, Columns, Below;
    assert Origin(a) == Cursor(a.x, a.x / 2, a.x / 2, 0);
  }

  lemma NoColumnBlendable()
    ensures STRIP == Clipped(NO_COLUMN, 4, 1, 4, 2, 2) && Blendable(STRIP, NO_COLUMN, ROW)
  {
    hide FitsAll, Blended;
    assert Room(SizesOf(ROW), STRIP, NO_COLUMN, 4, 1);
    assert HasRow(SizesOf(ROW), NO_COLUMN, Cursor(1, 0, 0, 0), 2, 1);
    TopLine(SizesOf(ROW), STRIP, NO_COLUMN, ROW);
  }

  /** A subtitle of one line and no columns at column 1 lights the two columns
      from there on in a picture of four. */
  lemma NoColumnBlends()
    ensures Blendable(STRIP, NO_COLUMN, ROW) && Blended(STRIP, NO_COLUMN, ROW).lum == [0, 255, 255, 0]
  {
    hide LumaOne, Blend, Lit, PixelAt, Blended, OneStep, Blendable, FitsAll;
    NoColumnBlendable();
    TopLine(SizesOf(ROW), STRIP, NO_COLUMN, ROW);
    var line := Line(NO_COLUMN, 0, 2);
    OneStepLuma(STRIP, NO_COLUMN, ROW, Cursor(1, 0, 0, 0), true);
    NoColumnPixels();
    BlendInk(0);
    LumaOneAt(ROW.lum, 1, line, 0);
    LumaOneAt(ROW.lum, 1, line, 1);
    LumaOneAt(ROW.lum, 1, line, 2);
    LumaOneAt(ROW.lum, 1, line, 3);
  }

  lemma NoColumnPixels()
    ensures PixelAt(NO_COLUMN, 0) == INK && PixelAt(NO_COLUMN, 1) == INK
  {
  }
}
