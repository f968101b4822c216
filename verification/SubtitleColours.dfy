/** What a subtitle does to the samples of a picture, as arithmetic on the
    palette entries of its pixels. */
module SubtitleColours {
  import opened SubtitleBlend
  import opened SubtitlePicture
  import opened SubtitleLaws

  /** The palette entry shown at a place of the picture; nothing outside the rectangle. */
  function Entry(a: Area, rect: Subtitle, y: int, x: int): Pixel {
    var k := (y - a.y) * rect.wrap + (x - a.x);
    if a.y <= y < a.y + a.h && a.x <= x < a.x + a.w && 0 <= k < |rect.data| && rect.data[k] < |rect.palette|
    then rect.palette[rect.data[k]] else Pixel(0, 0, 0, 0)
  }

  /** 1 for a place inside the rectangle. */
  function Count(a: Area, y: int, x: int): nat {
    if a.y <= y < a.y + a.h && a.x <= x < a.x + a.w then 1 else 0
  }

  lemma EntryInData(a: Area, rect: Subtitle, was: Planes3, y: int, x: int)
    requires Receivable(a, rect, was) && Inside(a, y, x)
    ensures var k := (y - a.y) * rect.wrap + (x - a.x); 0 <= k < |rect.data| && rect.data[k] < |rect.palette|
  {
    var imgw: nat, imgh: nat :| Room(SizesOf(was), a, rect, imgw, imgh);
    ScaleLe(0, y - a.y, rect.wrap);
    ScaleLe(y - a.y + 1, rect.h, rect.wrap);
    Distribute(y - a.y, 1, rect.wrap);
  }

  /** The pixel the code reads for a place is its palette entry. */
  lemma OwnIsEntry(a: Area, rect: Subtitle, was: Planes3, y: int, x: int)
    requires Receivable(a, rect, was)
    ensures Own(a, rect, y, x) == Entry(a, rect, y, x)
  {
    if Inside(a, y, x) {
      EntryInData(a, rect, was, y, x);
      RowStartIs(rect, y - a.y);
    }
  }

  // ---------- luma ----------

  lemma LitIs(sample: Byte, px: Sample)
    ensures Lit(sample, px) == (sample * (255 - px.a) + px.y * px.a) / 255
  {
  }

  /** Each luma sample of the rectangle is mixed with the brightness of its own
      palette entry by that entry's alpha. */
  lemma LumaArithmetic(a: Area, rect: Subtitle, was: Planes3, y: nat, x: nat)
    requires a.x % 2 <= a.w && a.y % 2 <= a.h && Receivable(a, rect, was)
    requires a.y <= y < a.y + a.h && a.x <= x < a.x + a.w && y * a.wrap + x < |was.lum|
    ensures var i, px, r := y * a.wrap + x, Entry(a, rect, y, x), Blended(a, rect, was).lum;
      0 <= i && |r| == |was.lum| && r[i] == (was.lum[i] * (255 - px.a) + px.y * px.a) / 255
  {
    hide Blended, Lit, Receivable, PixelAt;
    InPlanes(a, rect, was);
    EntryInData(a, rect, was, y, x);
    LumaLaw(a, rect, was, y, x);
    EntryIs(a, rect, y, x);
    LitIs(was.lum[y * a.wrap + x], PixelAt(rect, (y - a.y) * rect.wrap + (x - a.x)));
  }

  lemma EntryIs(a: Area, rect: Subtitle, y: int, x: int)
    requires Inside(a, y, x)
    ensures PixelAt(rect, (y - a.y) * rect.wrap + (x - a.x)) == Entry(a, rect, y, x)
  {
  }

  lemma InPlanes(a: Area, rect: Subtitle, was: Planes3)
    requires Receivable(a, rect, was)
    ensures a.x + a.w <= a.wrap
    ensures a.x / 2 + Width(a.w, a.x % 2) <= a.cbWrap && a.x / 2 + Width(a.w, a.x % 2) <= a.crWrap
  {
  }

  // ---------- chroma ----------

  /** The four entries under a chroma sample, left to right and downwards. */
  function Four(a: Area, rect: Subtitle, y: int, x: int): seq<Pixel> {
    [Entry(a, rect, 2 * y, 2 * x), Entry(a, rect, 2 * y, 2 * x + 1),
     Entry(a, rect, 2 * y + 1, 2 * x), Entry(a, rect, 2 * y + 1, 2 * x + 1)]
  }

  function Number(a: Area, y: int, x: int): nat {
    Count(a, 2 * y, 2 * x) + Count(a, 2 * y, 2 * x + 1) + Count(a, 2 * y + 1, 2 * x) + Count(a, 2 * y + 1, 2 * x + 1)
  }

  /** A last line alone, and both columns in the rectangle. */
  predicate LastLine(a: Area, y: int, x: int) {
    2 * y + 1 == a.y + a.h && a.y <= 2 * y && a.x <= 2 * x && 2 * x + 1 < a.x + a.w
  }

  /** A sample mixed with the sum c over n pixels by the weight w. */
  function Mix(sample: int, c: int, n: int, w: int): int
    requires n > 0
  {
    (sample * n * (255 - w) + c * w) / (255 * n)
  }

  lemma CoverIs(a: Area, rect: Subtitle, was: Planes3, y: int, x: int)
    requires Receivable(a, rect, was)
    ensures Covered(a, y, x) == Number(a, y, x) && (InTail(a, y, x) <==> LastLine(a, y, x))
    ensures var f := Four(a, rect, y, x);
      CoverShade(a, rect, y, x) ==
        if LastLine(a, y, x) then Shade((f[0].a + f[1].a + f[2].a + f[3].a) / 4, f[1].u, f[1].v, 2)
        else Shade((f[0].a + f[1].a + f[2].a + f[3].a) / 4, f[0].u + f[1].u + f[2].u + f[3].u,
                   f[0].v + f[1].v + f[2].v + f[3].v, Number(a, y, x))
  {
    hide Receivable, Own, Entry;
    OwnIsEntry(a, rect, was, 2 * y, 2 * x);
    OwnIsEntry(a, rect, was, 2 * y, 2 * x + 1);
    OwnIsEntry(a, rect, was, 2 * y + 1, 2 * x);
    OwnIsEntry(a, rect, was, 2 * y + 1, 2 * x + 1);
  }

  lemma EntryWithin(a: Area, rect: Subtitle, y: int, x: int)
    ensures Within(Entry(a, rect, y, x), Count(a, y, x)) && Count(a, y, x) <= 1
  {
  }

  /** The sums under a chroma sample fit their number. */
  lemma FourWithin(a: Area, rect: Subtitle, y: int, x: int)
    ensures var f, n := Four(a, rect, y, x), Number(a, y, x);
      (f[0].a + f[1].a + f[2].a + f[3].a) / 4 <= 255 && f[1].u <= 255 && f[1].v <= 255 &&
      f[0].u + f[1].u + f[2].u + f[3].u <= 255 * n && f[0].v + f[1].v + f[2].v + f[3].v <= 255 * n
  {
    hide Entry, Count;
    EntryWithin(a, rect, 2 * y, 2 * x);
    EntryWithin(a, rect, 2 * y, 2 * x + 1);
    EntryWithin(a, rect, 2 * y + 1, 2 * x);
    EntryWithin(a, rect, 2 * y + 1, 2 * x + 1);
  }

  lemma MixedIsMix(sample: Byte, s: Shade, blue: bool)
    requires s.a <= 255 && 1 <= s.m && s.u <= 255 * s.m && s.v <= 255 * s.m
    ensures Mixed(sample, s, blue) == Mix(sample, if blue then s.u else s.v, s.m, s.a)
  {
    MixedIs(sample, s, blue);
  }

  /** What a chroma sample becomes: the weight is a quarter of the summed alpha,
      the colour the sum of the entries (in a last line of both columns, the right
      one alone). */
  function NewBlue(a: Area, rect: Subtitle, sample: int, y: int, x: int): int {
    var f, n := Four(a, rect, y, x), Number(a, y, x);
    var w := (f[0].a + f[1].a + f[2].a + f[3].a) / 4;
    if n == 0 then sample
    else if LastLine(a, y, x) then Mix(sample, f[1].u, 2, w)
    else Mix(sample, f[0].u + f[1].u + f[2].u + f[3].u, n, w)
  }

  function NewRed(a: Area, rect: Subtitle, sample: int, y: int, x: int): int {
    var f, n := Four(a, rect, y, x), Number(a, y, x);
    var w := (f[0].a + f[1].a + f[2].a + f[3].a) / 4;
    if n == 0 then sample
    else if LastLine(a, y, x) then Mix(sample, f[1].v, 2, w)
    else Mix(sample, f[0].v + f[1].v + f[2].v + f[3].v, n, w)
  }

  lemma CoverMixes(a: Area, rect: Subtitle, was: Planes3, sample: Byte, y: int, x: int)
    requires Receivable(a, rect, was) && Covered(a, y, x) > 0
    ensures Mixed(sample, CoverShade(a, rect, y, x), true) == NewBlue(a, rect, sample, y, x)
    ensures Mixed(sample, CoverShade(a, rect, y, x), false) == NewRed(a, rect, sample, y, x)
  {
    hide Receivable, Four, Number, Mixed, Mix, CoverShade, LastLine, Covered, InTail;
    CoverIs(a, rect, was, y, x);
    FourWithin(a, rect, y, x);
    MixedIsMix(sample, CoverShade(a, rect, y, x), true);
    MixedIsMix(sample, CoverShade(a, rect, y, x), false);
  }

  /** In step, the blue-difference plane is mixed with u and the red-difference
      plane with v of the palette entries each sample covers. */
  lemma ChromaArithmetic(a: Area, rect: Subtitle, was: Planes3, y: nat, x: nat)
    requires a.x % 2 <= a.w && a.y % 2 <= a.h && InStep(a) && Receivable(a, rect, was)
    ensures x < a.cbWrap && y * a.cbWrap + x < |was.cb| ==>
              var i, r := y * a.cbWrap + x, Blended(a, rect, was).cb;
              0 <= i && |r| == |was.cb| && r[i] == NewBlue(a, rect, was.cb[i], y, x)
    ensures x < a.crWrap && y * a.crWrap + x < |was.cr| ==>
              var i, r := y * a.crWrap + x, Blended(a, rect, was).cr;
              0 <= i && |r| == |was.cr| && r[i] == NewRed(a, rect, was.cr[i], y, x)
  {
    hide Blended, Receivable, CoverShade, Covered, NewBlue, NewRed, Mixed, Width, Number;
    InPlanes(a, rect, was);
    ChromaLaw(a, rect, was, y, x);
    CoverIs(a, rect, was, y, x);
    Unmixed(a, rect, y, x);
    if x < a.cbWrap && y * a.cbWrap + x < |was.cb| && Covered(a, y, x) > 0 {
      CoverMixes(a, rect, was, was.cb[y * a.cbWrap + x], y, x);
    }
    if x < a.crWrap && y * a.crWrap + x < |was.cr| && Covered(a, y, x) > 0 {
      CoverMixes(a, rect, was, was.cr[y * a.crWrap + x], y, x);
    }
  }

  lemma Unmixed(a: Area, rect: Subtitle, y: int, x: int)
    ensures Number(a, y, x) == 0 ==>
              forall sample: int :: NewBlue(a, rect, sample, y, x) == sample == NewRed(a, rect, sample, y, x)
  {
  }

  // ---------- which components matter ----------

  /** Subtitles of one shape whose entries have the same alpha, and the same u. */
  ghost predicate SameBlue(a: Area, rect1: Subtitle, rect2: Subtitle) {
    forall y: int, x: int :: Entry(a, rect1, y, x).a == Entry(a, rect2, y, x).a &&
                             Entry(a, rect1, y, x).u == Entry(a, rect2, y, x).u
  }

  ghost predicate SameRed(a: Area, rect1: Subtitle, rect2: Subtitle) {
    forall y: int, x: int :: Entry(a, rect1, y, x).a == Entry(a, rect2, y, x).a &&
                             Entry(a, rect1, y, x).v == Entry(a, rect2, y, x).v
  }

  lemma Place(i: nat, wrap: nat)
    requires wrap > 0
    ensures i / wrap >= 0 && i % wrap < wrap && i == i / wrap * wrap + i % wrap
  {
  }

  /** The blue-difference plane depends on nothing of the colours but u and alpha. */
  lemma BlueFromU(a: Area, rect1: Subtitle, rect2: Subtitle, was: Planes3)
    requires a.x % 2 <= a.w && a.y % 2 <= a.h && InStep(a) && a.cbWrap > 0
    requires Receivable(a, rect1, was) && Receivable(a, rect2, was) && SameBlue(a, rect1, rect2)
    ensures Blended(a, rect1, was).cb == Blended(a, rect2, was).cb
  {
    hide Blended, Receivable, Entry, Number, Mix, LastLine;
    SameLengths(a, rect1, rect2, was);
    var r1, r2 := Blended(a, rect1, was).cb, Blended(a, rect2, was).cb;
    forall i: nat | i < |was.cb| ensures r1[i] == r2[i] {
      Place(i, a.cbWrap);
      ChromaArithmetic(a, rect1, was, i / a.cbWrap, i % a.cbWrap);
      ChromaArithmetic(a, rect2, was, i / a.cbWrap, i % a.cbWrap);
    }
  }

  /** And the red-difference plane nothing but v and alpha. */
  lemma RedFromV(a: Area, rect1: Subtitle, rect2: Subtitle, was: Planes3)
    requires a.x % 2 <= a.w && a.y % 2 <= a.h && InStep(a) && a.crWrap > 0
    requires Receivable(a, rect1, was) && Receivable(a, rect2, was) && SameRed(a, rect1, rect2)
    ensures Blended(a, rect1, was).cr == Blended(a, rect2, was).cr
  {
    hide Blended, Receivable, Entry, Number, Mix, LastLine;
    SameLengths(a, rect1, rect2, was);
    var r1, r2 := Blended(a, rect1, was).cr, Blended(a, rect2, was).cr;
    forall i: nat | i < |was.cr| ensures r1[i] == r2[i] {
      Place(i, a.crWrap);
      ChromaArithmetic(a, rect1, was, i / a.crWrap, i % a.crWrap);
      ChromaArithmetic(a, rect2, was, i / a.crWrap, i % a.crWrap);
    }
  }

  lemma SameLengths(a: Area, rect1: Subtitle, rect2: Subtitle, was: Planes3)
    requires a.x % 2 <= a.w && a.y % 2 <= a.h
    ensures |Blended(a, rect1, was).cb| == |Blended(a, rect2, was).cb| == |was.cb|
    ensures |Blended(a, rect1, was).cr| == |Blended(a, rect2, was).cr| == |was.cr|
  {
    hide Blended, ChromaPlane;
    ChromaRefines(a, rect1, was);
    ChromaRefines(a, rect2, was);
  }
}
