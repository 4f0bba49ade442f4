/** Loading an image into part of a texture: in one go through shared memory, or in fragments
    of whole lines that the server pastes one by one. */
module Textures {
  import opened Bytes
  import opened Options

  datatype Pixel = Pixel(r: byte, g: byte, b: byte, a: byte)

  /** A texture of tw times th pixels, kept in lines of w pixels. */
  datatype Format = Format(w: nat, h: nat, tw: nat, th: nat)

  const MAX_SIZE := 4096      // of a texture, either way

  predicate Fitting(f: Format, n: int) {
    0 < f.tw <= f.w && 0 < f.th <= f.h && f.tw <= MAX_SIZE && f.th <= MAX_SIZE && n == f.w * f.h
  }

  /** An image of w times h pixels, to go to position (x, y). */
  datatype Image = Image(x: nat, y: nat, w: nat, h: nat, data: seq<Pixel>)

  predicate Complete(im: Image) {
    |im.data| == im.w * im.h
  }

  /** Position and size are 16 bits wide. */
  predicate Narrow(im: Image) {
    im.x < 0x1_0000 && im.y < 0x1_0000 && im.w < 0x1_0000 && im.h < 0x1_0000
  }

  /** Is line r, column c both inside the texture and covered by the image? */
  predicate Covered(f: Format, im: Image, r: int, c: int) {
    im.y <= r < im.y + im.h && r < f.th && im.x <= c < im.x + im.w && c < f.tw
  }

  /** What line r, column c shows once the image is pasted over pixel `under`: the image's
      pixel where it covers the texture, and `under` everywhere else. */
  function Shown(f: Format, im: Image, under: Pixel, r: int, c: int): Pixel
    requires Complete(im)
  {
    if Covered(f, im, r, c)
    then (InImage(im, r, c); im.data[(r - im.y) * im.w + (c - im.x)])
    else under
  }

  function PixelAt(f: Format, im: Image, before: seq<Pixel>, p: int): Pixel
    requires Complete(im) && f.w > 0 && 0 <= p < |before|
  {
    Shown(f, im, before[p], p / f.w, p % f.w)
  }

  function Pasted(f: Format, im: Image, before: seq<Pixel>): (after: seq<Pixel>)
    requires Complete(im) && f.w > 0
    ensures |after| == |before|
  {
    seq(|before|, p requires 0 <= p < |before| => PixelAt(f, im, before, p))
  }

  lemma InImage(im: Image, r: int, c: int)
    requires Complete(im) && im.y <= r < im.y + im.h && im.x <= c < im.x + im.w
    ensures 0 <= (r - im.y) * im.w + (c - im.x) < |im.data|
  {
    Within(r - im.y, c - im.x, im.w, im.h);
  }

  /** Column c of line i lies inside a block of h lines of w. */
  lemma Within(i: int, c: int, w: int, h: int)
    requires 0 <= i < h && 0 <= c < w
    ensures 0 <= i * w + c < w * h
    ensures i * w + w <= w * h
  {
    MulGrows(i + 1, h, w);
    assert (i + 1) * w == i * w + w;
    MulGrows(0, i, w);
  }

  lemma MulGrows(a: int, b: int, w: int)
    requires a <= b && 0 <= w
    ensures a * w <= b * w
  {
    assert (b - a) * w >= 0;
    assert (b - a) * w == b * w - a * w;
  }

  /** Line and column of a place. */
  lemma PlaceOf(p: int, w: int, r: int, c: int)
    requires w > 0 && 0 <= c < w && p == r * w + c
    ensures p / w == r && p % w == c
  {
    var q, m := p / w, p % w;
    assert p == q * w + m;
    assert (q - r) * w == q * w - r * w == c - m;
    SmallMultiple(q - r, w, c - m);
  }

  lemma SmallMultiple(k: int, w: int, d: int)
    requires w > 0 && k * w == d && -w < d < w
    ensures k == 0
  {
    if k >= 1 { MulGrows(1, k, w); } else if k <= -1 { MulGrows(k, -1, w); }
  }

  // ------------------------------------------------------------ clipping and pasting

  /** Conversion to 16 bits with sign. */
  function AsInt16(x: int): int { (x + 0x8000) % 0x1_0000 - 0x8000 }

  /** The clipped sizes are kept in 16 bits. A width cut off at the texture's edge is right
      exactly unless the image starts more than 2^15 behind the edge; then it comes out
      positive although nothing is left of the image. */
  lemma ClippedWidth(tw: int, x: int)
    requires 0 <= tw < 0x8000 && 0 <= x < 0x1_0000
    ensures AsInt16(tw - x) == tw - x <==> x <= tw + 0x8000
    ensures x > tw + 0x8000 ==> AsInt16(tw - x) == tw - x + 0x1_0000
  {
    assert x <= tw + 0x8000 ==> 0 <= tw - x + 0x8000 < 0x1_0000;
    assert x > tw + 0x8000 ==> AsInt16(tw - x) == tw - x + 0x1_0000;
  }

  function ClippedW(f: Format, im: Image): int { AsInt16(if im.x + im.w > f.tw then f.tw - im.x else im.w) }

  function ClippedH(f: Format, im: Image): int { AsInt16(if im.y + im.h > f.th then f.th - im.y else im.h) }

  /** No line that starts behind this place is copied. */
  function Limit(f: Format): int { f.w * f.th + f.tw }

  function LineStart(f: Format, im: Image, i: int): int { (im.y + i) * f.w + im.x }

  /** The buffer with n pixels of the data copied to place p1. */
  function WithLine(b: seq<Pixel>, p1: int, data: seq<Pixel>, src: int, n: int): (r: seq<Pixel>)
    requires 0 <= p1 && 0 <= n && p1 + n <= |b| && 0 <= src && src + n <= |data|
    ensures |r| == |b|
  {
    seq(|b|, p requires 0 <= p < |b| => if p1 <= p < p1 + n then data[src + (p - p1)] else b[p])
  }

  predicate CopyFits(b: seq<Pixel>, p1: int, data: seq<Pixel>, src: int, n: int) {
    0 <= p1 && 0 <= n && p1 + n <= |b| && 0 <= src && src + n <= |data|
  }

  /** The first n lines copied, of mw pixels each; nothing from the limit on. None where the
      copying leaves the image or the buffer. */
  function LinesLoaded(f: Format, im: Image, b: seq<Pixel>, mw: int, n: nat): (r: Option<seq<Pixel>>)
    ensures r.Some? ==> |r.value| == |b|
  {
    if n == 0 then Some(b)
    else
      match LinesLoaded(f, im, b, mw, n - 1)
      case None => None
      case Some(c) =>
        var p1, src := LineStart(f, im, n - 1), (n - 1) * im.w;
        if p1 > Limit(f) then Some(c)
        else if CopyFits(c, p1, im.data, src, mw) then Some(WithLine(c, p1, im.data, src, mw)) else None
  }

  /** What loading the image makes of the buffer. */
  function Loaded(f: Format, im: Image, b: seq<Pixel>): (r: Option<seq<Pixel>>)
    ensures r.Some? ==> |r.value| == |b|
  {
    if ClippedW(f, im) <= 0 then Some(b)
    else LinesLoaded(f, im, b, ClippedW(f, im), if ClippedH(f, im) < 0 then 0 else ClippedH(f, im))
  }

  /** The image does not start more than 2^15 behind the right edge, or it has no lines, or
      its first line starts behind the last pixel. */
  predicate OnCourse(f: Format, im: Image) {
    im.x <= f.tw + 0x8000 || im.h == 0 || LineStart(f, im, 0) > Limit(f)
  }

  function Min(a: int, b: int): int { if a < b then a else b }

  /** Places of one line's stretch are exactly those of that line and those columns. */
  lemma StretchIs(f: Format, p: int, r: int, x: int, n: int)
    requires f.w > 0 && 0 <= x && 0 <= n && x + n <= f.w && 0 <= p
    ensures r * f.w + x <= p < r * f.w + x + n <==> p / f.w == r && x <= p % f.w < x + n
  {
    var c := p - r * f.w;
    if 0 <= c < f.w {
      PlaceOf(p, f.w, r, c);
    } else {
      assert p == (p / f.w) * f.w + p % f.w;
    }
  }

  /** The first n lines of the image. */
  function Upper(im: Image, n: nat): Image
    requires Complete(im) && n <= im.h
    ensures Complete(Upper(im, n))
  {
    MulGrows(n, im.h, im.w);
    Image(im.x, im.y, im.w, n, im.data[..n * im.w])
  }

  /** Loads an image into the pixel buffer, line by line, clipped to the texture. */
  method LoadTex(f: Format, buf: array<Pixel>, im: Image) returns (astray: bool)
    requires Fitting(f, buf.Length) && Complete(im) && Narrow(im)
    modifies buf
    ensures astray <==> Loaded(f, im, old(buf[..])).None?
    ensures !astray ==> Loaded(f, im, old(buf[..])) == Some(buf[..])
    ensures OnCourse(f, im) ==> !astray && buf[..] == Pasted(f, im, old(buf[..]))
  {
    var m := f.w * f.th + f.tw;           // the limit for line starts
    var mw := AsInt16(if im.x + im.w > f.tw then f.tw - im.x else im.w);
    var mh := AsInt16(if im.y + im.h > f.th then f.th - im.y else im.h);
    ghost var was := buf[..];
    if OnCourse(f, im) { OnCourseLoads(f, im, was); }
    if mw <= 0 { return false; }          // nothing to do
    var i := 0;
    while i < mh
      invariant 0 <= i && (i <= mh || i == 0) && LinesLoaded(f, im, was, mw, i) == Some(buf[..])
    {
      var p1 := (im.y + i) * f.w + im.x;  // where the line goes
      if p1 > m {                         // behind the texture
        BehindLimit(f, im, was, mw, i, mh);
        return false;
      }
      LineLoaded(f, im, was, mw, i, buf[..]);
      var src := i * im.w;
      astray := !CopyFits(buf[..], p1, im.data, src, mw);
      if astray {
        OnceAstray(f, im, was, mw, i + 1, mh);
        return;
      }
      CopyLine(buf, p1, im.data, src, mw);
      i := i + 1;
    }
    return false;
  }

  lemma LineLoaded(f: Format, im: Image, b: seq<Pixel>, mw: int, i: nat, c: seq<Pixel>)
    requires LinesLoaded(f, im, b, mw, i) == Some(c) && LineStart(f, im, i) <= Limit(f)
    ensures var p1, src := LineStart(f, im, i), i * im.w;
            LinesLoaded(f, im, b, mw, i + 1)
            == if CopyFits(c, p1, im.data, src, mw) then Some(WithLine(c, p1, im.data, src, mw)) else None
  {
  }

  /** Later lines start further on. */
  lemma StartsLater(f: Format, im: Image, i: int, k: int)
    requires i <= k
    ensures LineStart(f, im, i) <= LineStart(f, im, k)
  {
    MulGrows(im.y + i, im.y + k, f.w);
  }

  lemma {:induction false} BehindLimit(f: Format, im: Image, b: seq<Pixel>, mw: int, i: nat, n: nat)
    requires i <= n && LineStart(f, im, i) > Limit(f)
    ensures LinesLoaded(f, im, b, mw, n) == LinesLoaded(f, im, b, mw, i)
    decreases n - i
  {
    if i < n {
      BehindLimit(f, im, b, mw, i, n - 1);
      StartsLater(f, im, i, n - 1);
    }
  }

  lemma {:induction false} OnceAstray(f: Format, im: Image, b: seq<Pixel>, mw: int, i: nat, n: nat)
    requires i <= n && LinesLoaded(f, im, b, mw, i).None?
    ensures LinesLoaded(f, im, b, mw, n).None?
    decreases n - i
  {
    if i < n { OnceAstray(f, im, b, mw, i, n - 1); }
  }

  /** On course, loading is pasting, whatever the buffer holds. */
  lemma OnCourseLoads(f: Format, im: Image, b: seq<Pixel>)
    requires Fitting(f, |b|) && Complete(im) && Narrow(im) && OnCourse(f, im)
    ensures Loaded(f, im, b) == Some(Pasted(f, im, b))
  {
    var mw, mh := ClippedW(f, im), ClippedH(f, im);
    ClippedWidth(f.tw, im.x);
    ClippedWidth(f.th, im.y);
    if mw <= 0 {
      NothingCovered(f, im, b);
    } else if LineStart(f, im, 0) > Limit(f) {
      BehindLimit(f, im, b, mw, 0, if mh < 0 then 0 else mh);
      BehindCoversNothing(f, im, b);
    } else {
      StartsInside(f, im);
      var n: nat := if mh < 0 then 0 else mh;
      if im.x <= f.tw + 0x8000 { LinesPaste(f, im, b, mw, n); } else { PastedNothing(f, im, b); }
      RestNotCovered(f, im, b, n);
    }
  }

  /** An image that does not start behind the limit does not start far below the texture. */
  lemma StartsInside(f: Format, im: Image)
    requires 0 < f.tw <= f.w && LineStart(f, im, 0) <= Limit(f)
    ensures im.y <= f.th + 1
  {
    assert (f.th + 2) * f.w == f.w * f.th + 2 * f.w;
    if im.y >= f.th + 2 { MulGrows(f.th + 2, im.y, f.w); }
  }

  /** One that does covers none of it. */
  lemma BehindCoversNothing(f: Format, im: Image, b: seq<Pixel>)
    requires Complete(im) && f.w > 0 && LineStart(f, im, 0) > Limit(f)
    ensures Pasted(f, im, b) == b
  {
    assert f.th * f.w == f.w * f.th;
    if im.x < f.tw && im.y < f.th { MulGrows(im.y, f.th, f.w); }
  }

  lemma {:induction false} LinesPaste(f: Format, im: Image, b: seq<Pixel>, mw: int, n: nat)
    requires Fitting(f, |b|) && Complete(im) && n <= im.h && (n == 0 || im.y + n <= f.th)
    requires 0 < mw == (if im.x + im.w > f.tw then f.tw - im.x else im.w)
    ensures LinesLoaded(f, im, b, mw, n) == Some(Pasted(f, Upper(im, n), b))
  {
    if n == 0 {
      PastedNothing(f, im, b);
    } else {
      LinesPaste(f, im, b, mw, n - 1);
      LineFits(f, im, n - 1, mw);
      var c := Pasted(f, Upper(im, n - 1), b);
      PastedOneMore(f, im, b, n - 1, mw, c, WithLine(c, LineStart(f, im, n - 1), im.data, (n - 1) * im.w, mw));
    }
  }

  /** The copying goes astray, or stores d at place p. */
  predicate Strays(r: Option<seq<Pixel>>, p: int, d: Pixel) { r.None? || (0 <= p < |r.value| && r.value[p] == d) }

  /** Off course, the first pixel of the image ends up in the buffer, although the image
      covers nothing of the texture, or the copying goes astray. */
  lemma OffCourseStores(f: Format, im: Image, b: seq<Pixel>)
    requires Fitting(f, |b|) && Complete(im) && Narrow(im) && !OnCourse(f, im)
    ensures Pasted(f, im, b) == b
    ensures |im.data| > 0 ==> Strays(Loaded(f, im, b), LineStart(f, im, 0), im.data[0])
    ensures |im.data| == 0 ==> Loaded(f, im, b).None?
  {
    var mw, mh := ClippedW(f, im), ClippedH(f, im);
    ClippedWidth(f.tw, im.x);
    ClippedWidth(f.th, im.y);
    assert f.th * f.w == f.w * f.th;
    if im.y >= f.th { MulGrows(f.th, im.y, f.w); }
    FirstStays(f, im, b, mw, mh);
  }

  lemma {:induction false} FirstStays(f: Format, im: Image, b: seq<Pixel>, mw: int, n: nat)
    requires f.w > 0 && 0 < mw && 0 < n && LineStart(f, im, 0) <= Limit(f)
    ensures |im.data| > 0 ==> Strays(LinesLoaded(f, im, b, mw, n), LineStart(f, im, 0), im.data[0])
    ensures |im.data| == 0 ==> LinesLoaded(f, im, b, mw, n).None?
  {
    if n == 1 {
      assert LinesLoaded(f, im, b, mw, 0) == Some(b);
    } else {
      FirstStays(f, im, b, mw, n - 1);
      StartsLater(f, im, 1, n - 1);
      assert (im.y + 1) * f.w == im.y * f.w + f.w;
    }
  }

  /** Loading is pasting for every content of the buffer if and only if the image is on
      course. */
  lemma LoadsWhenOnCourse(f: Format, im: Image)
    requires Fitting(f, f.w * f.h) && Complete(im) && Narrow(im)
    ensures OnCourse(f, im)
       <==> forall b :: |b| == f.w * f.h ==> Loaded(f, im, b) == Some(Pasted(f, im, b))
  {
    if OnCourse(f, im) {
      forall b | |b| == f.w * f.h ensures Loaded(f, im, b) == Some(Pasted(f, im, b)) { OnCourseLoads(f, im, b); }
    } else {
      var d := if |im.data| > 0 then im.data[0] else CLEAR;
      MulGrows(0, f.h, f.w);
      var b := Blank(f.w * f.h, d);
      OffCourseStores(f, im, b);
      assert Loaded(f, im, b) != Some(Pasted(f, im, b));
    }
  }

  const CLEAR := Pixel(0, 0, 0, 0)

  /** n pixels unlike d. */
  function Blank(n: nat, d: Pixel): (b: seq<Pixel>)
    ensures |b| == n && forall p :: 0 <= p < n ==> b[p] != d
  {
    seq(n, _ => if d == CLEAR then Pixel(0, 0, 0, 1) else CLEAR)
  }

  method CopyLine(buf: array<Pixel>, p1: int, data: seq<Pixel>, src: int, n: int)
    requires CopyFits(buf[..], p1, data, src, n)
    modifies buf
    ensures buf[..] == WithLine(old(buf[..]), p1, data, src, n)
  {
    forall k | 0 <= k < n { buf[p1 + k] := data[src + k]; }
  }

  /** A clipped line lies inside the buffer, before the limit, and inside the image. */
  lemma LineFits(f: Format, im: Image, i: int, mw: int)
    requires 0 < f.tw <= f.w && 0 < f.th <= f.h && Complete(im)
    requires 0 <= i < im.h && im.y + i < f.th && 0 < mw <= im.w && im.x + mw <= f.tw
    ensures 0 <= (im.y + i) * f.w + im.x && (im.y + i) * f.w + im.x + mw <= f.w * f.h
    ensures (im.y + i) * f.w + im.x <= f.w * f.th + f.tw
    ensures 0 <= i * im.w && i * im.w + mw <= |im.data|
  {
    Within(im.y + i, im.x, f.w, f.h);
    Within(im.y + i, im.x, f.w, f.th);
    Within(i, 0, im.w, im.h);
  }

  lemma NothingCovered(f: Format, im: Image, before: seq<Pixel>)
    requires Complete(im) && 0 < f.tw <= f.w
    requires (if im.x + im.w > f.tw then f.tw - im.x else im.w) <= 0
    ensures Pasted(f, im, before) == before
  {
  }

  lemma PastedNothing(f: Format, im: Image, before: seq<Pixel>)
    requires Complete(im) && f.w > 0
    ensures Pasted(f, Upper(im, 0), before) == before
  {
  }

  /** What of the image lies below the texture is not covered. */
  lemma RestNotCovered(f: Format, im: Image, before: seq<Pixel>, n: nat)
    requires Complete(im) && f.w > 0 && n <= im.h && (n == im.h || im.y + n >= f.th)
    ensures Pasted(f, im, before) == Pasted(f, Upper(im, n), before)
  {
    forall p | 0 <= p < |before| ensures PixelAt(f, im, before, p) == PixelAt(f, Upper(im, n), before, p) {
      UpperShows(f, im, before[p], n, p / f.w, p % f.w);
    }
  }

  lemma PastedOneMore(f: Format, im: Image, was: seq<Pixel>, i: nat, mw: int, before: seq<Pixel>, after: seq<Pixel>)
    requires Complete(im) && 0 < f.tw <= f.w && i < im.h && im.y + i < f.th
    requires 0 < mw == (if im.x + im.w > f.tw then f.tw - im.x else im.w)
    requires before == Pasted(f, Upper(im, i), was) && |after| == |was|
    requires 0 <= i * im.w && i * im.w + mw <= |im.data|
    requires forall p :: 0 <= p < |after| ==>
               after[p] == if (im.y + i) * f.w + im.x <= p < (im.y + i) * f.w + im.x + mw
                           then im.data[i * im.w + (p - ((im.y + i) * f.w + im.x))] else before[p]
    ensures after == Pasted(f, Upper(im, i + 1), was)
  {
    forall p | 0 <= p < |was| ensures after[p] == PixelAt(f, Upper(im, i + 1), was, p) {
      StretchIs(f, p, im.y + i, im.x, mw);
      assert before[p] == PixelAt(f, Upper(im, i), was, p);
      if p / f.w == im.y + i {
        LineIsImage(f, im, was, i, mw, p);
      } else {
        OtherLine(f, im, was, i, p);
      }
    }
  }

  /** A pixel of line i of the image, or beside it. */
  lemma LineIsImage(f: Format, im: Image, was: seq<Pixel>, i: nat, mw: int, p: int)
    requires Complete(im) && 0 < f.tw <= f.w && i < im.h && im.y + i < f.th && 0 <= p < |was|
    requires 0 < mw == (if im.x + im.w > f.tw then f.tw - im.x else im.w)
    requires p / f.w == im.y + i
    ensures var c := p % f.w;
            if im.x <= c < im.x + mw
            then 0 <= i * im.w + (c - im.x) < |im.data|
                 && PixelAt(f, Upper(im, i + 1), was, p) == im.data[i * im.w + (c - im.x)]
                 && c - im.x == p - ((im.y + i) * f.w + im.x)
            else PixelAt(f, Upper(im, i + 1), was, p) == was[p]
    ensures PixelAt(f, Upper(im, i), was, p) == was[p]
  {
    var c := p % f.w;
    assert p == (p / f.w) * f.w + c;
    if im.x <= c < im.x + mw {
      InImage(im, im.y + i, c);
      InImage(Upper(im, i + 1), im.y + i, c);
    }
  }

  /** A pixel of any other line. */
  lemma OtherLine(f: Format, im: Image, was: seq<Pixel>, i: nat, p: int)
    requires Complete(im) && 0 < f.w && i < im.h && 0 <= p < |was| && p / f.w != im.y + i
    ensures PixelAt(f, Upper(im, i + 1), was, p) == PixelAt(f, Upper(im, i), was, p)
  {
    UpperShows(f, im, was[p], i, p / f.w, p % f.w);
    UpperShows(f, im, was[p], i + 1, p / f.w, p % f.w);
  }

  /** The upper lines show what the image shows, down to their end. */
  lemma UpperShows(f: Format, im: Image, under: Pixel, n: nat, r: int, c: int)
    requires Complete(im) && n <= im.h
    ensures Shown(f, Upper(im, n), under, r, c) == if r < im.y + n then Shown(f, im, under, r, c) else under
  {
    if Covered(f, Upper(im, n), r, c) {
      InImage(im, r, c);
      InImage(Upper(im, n), r, c);
    }
  }

  // ------------------------------------------------------------ fragments

  const MF_LEN := 65530       // maximum fragmentation length

  /** Lines i to i + lines of the image, as an image of their own. */
  function Fragment(im: Image, i: nat, lines: nat): Image
    requires Complete(im) && i + lines <= im.h
    ensures Complete(Fragment(im, i, lines))
  {
    MulGrows(0, i, im.w);
    MulGrows(i, i + lines, im.w);
    MulGrows(i + lines, im.h, im.w);
    assert (i + lines) * im.w - i * im.w == im.w * lines;
    Image(im.x, im.y + i, im.w, lines, im.data[i * im.w..(i + lines) * im.w])
  }

  /** A fragment shows what the image shows, in its lines. */
  lemma FragmentShows(f: Format, im: Image, under: Pixel, i: nat, lines: nat, r: int, c: int)
    requires Complete(im) && i + lines <= im.h
    ensures Shown(f, Fragment(im, i, lines), under, r, c)
         == if im.y + i <= r < im.y + i + lines then Shown(f, im, under, r, c) else under
  {
    var part := Fragment(im, i, lines);
    if Covered(f, part, r, c) {
      InImage(part, r, c);
      InImage(im, r, c);
      FragmentData(im, i, lines, r - im.y, c - im.x);
    }
  }

  lemma FragmentData(im: Image, i: nat, lines: nat, line: int, c: int)
    requires Complete(im) && i + lines <= im.h && i <= line
    requires 0 <= (line - i) * im.w + c < |Fragment(im, i, lines).data| && 0 <= line * im.w + c < |im.data|
    ensures Fragment(im, i, lines).data[(line - i) * im.w + c] == im.data[line * im.w + c]
  {
    assert line * im.w == (line - i) * im.w + i * im.w;
  }

  lemma FragmentPixel(f: Format, im: Image, was: seq<Pixel>, i: nat, lines: nat, p: int)
    requires Complete(im) && f.w > 0 && i + lines <= im.h && 0 <= p < |was|
    ensures PixelAt(f, Upper(im, i + lines), was, p)
         == PixelAt(f, Fragment(im, i, lines), Pasted(f, Upper(im, i), was), p)
  {
    var r, c, under := p / f.w, p % f.w, PixelAt(f, Upper(im, i), was, p);
    UpperShows(f, im, was[p], i, r, c);
    UpperShows(f, im, was[p], i + lines, r, c);
    FragmentShows(f, im, under, i, lines, r, c);
    ShownOver(f, im, was[p], under, r, c);
  }

  lemma ShownOver(f: Format, im: Image, under: Pixel, other: Pixel, r: int, c: int)
    requires Complete(im)
    ensures Covered(f, im, r, c) ==> Shown(f, im, under, r, c) == Shown(f, im, other, r, c)
    ensures !Covered(f, im, r, c) ==> Shown(f, im, under, r, c) == under
  {
  }

  /** The upper lines and then a fragment make the upper lines of both. */
  lemma FragmentContinues(f: Format, im: Image, was: seq<Pixel>, i: nat, lines: nat)
    requires Complete(im) && f.w > 0 && i + lines <= im.h
    ensures Pasted(f, Fragment(im, i, lines), Pasted(f, Upper(im, i), was)) == Pasted(f, Upper(im, i + lines), was)
  {
    forall p | 0 <= p < |was|
      ensures Pasted(f, Fragment(im, i, lines), Pasted(f, Upper(im, i), was))[p] == Pasted(f, Upper(im, i + lines), was)[p]
    {
      FragmentPixel(f, im, was, i, lines, p);
    }
  }

  /** How many lines of w pixels a message can hold. */
  function Linestep(w: nat): nat
    requires w > 0
  {
    (MF_LEN - 16) / (w * 4)
  }

  /** One line more would not fit, and some fit exactly if one does. */
  lemma LinestepIsMost(w: nat)
    requires w > 0
    ensures 16 + w * (Linestep(w) + 1) * 4 > MF_LEN
    ensures Linestep(w) > 0 <==> 16 + w * 4 <= MF_LEN
  {
    var q := Linestep(w);
    assert (MF_LEN - 16) == q * (w * 4) + (MF_LEN - 16) % (w * 4);
    assert (q + 1) * (w * 4) == w * (q + 1) * 4 == q * (w * 4) + w * 4;
    if q > 0 { MulGrows(1, q, w * 4); }
  }

  /** That many lines keep a message within the limit. */
  lemma FragmentFits(w: nat, lines: nat)
    requires w > 0 && lines <= Linestep(w)
    ensures 16 + w * lines * 4 <= MF_LEN
  {
    MulGrows(lines, Linestep(w), w * 4);
    assert Linestep(w) * (w * 4) <= MF_LEN - 16;
    assert lines * (w * 4) == w * lines * 4;
  }

  /** Lines i to i + lines as their message carries them: the position has 16 bits there. */
  function Sent(im: Image, i: nat, lines: nat): (part: Image)
    requires Complete(im) && i + lines <= im.h
    ensures Complete(part) && (im.y + i < 0x1_0000 ==> part == Fragment(im, i, lines))
  {
    Fragment(im, i, lines).(y := (im.y + i) % 0x1_0000)
  }

  function LinesFrom(im: Image, i: nat, linestep: nat): nat
    requires i < im.h
  {
    if im.h - i > linestep then linestep else im.h - i
  }

  /** What the fragments from line i on make of the buffer. */
  function FragmentsLoaded(f: Format, im: Image, b: seq<Pixel>, i: nat, linestep: nat): (r: Option<seq<Pixel>>)
    requires Complete(im) && linestep > 0
    ensures r.Some? ==> |r.value| == |b|
    decreases im.h - i
  {
    if i >= im.h then Some(b)
    else
      match Loaded(f, Sent(im, i, LinesFrom(im, i, linestep)), b)
      case None => None
      case Some(c) => FragmentsLoaded(f, im, c, i + linestep, linestep)
  }

  /** The fragment from line i on is on course, and its position did not wrap around to a
      place in the texture. */
  predicate FragmentOk(f: Format, im: Image, i: nat, linestep: nat)
    requires Complete(im) && i < im.h
  {
    && OnCourse(f, Sent(im, i, LinesFrom(im, i, linestep)))
    && (im.y + i < 0x1_0000 || im.x >= f.tw || im.y + i - 0x1_0000 >= f.th)
  }

  predicate FragmentsOk(f: Format, im: Image, i: nat, linestep: nat)
    requires Complete(im) && linestep > 0
    decreases im.h - i
  {
    i >= im.h || (FragmentOk(f, im, i, linestep) && FragmentsOk(f, im, i + linestep, linestep))
  }

  lemma CoversNothing(f: Format, im: Image, b: seq<Pixel>)
    requires Complete(im) && f.w > 0 && (im.x >= f.tw || im.y >= f.th)
    ensures Pasted(f, im, b) == b
  {
  }

  /** A fragment that is in order continues the upper lines. */
  lemma SentContinues(f: Format, im: Image, was: seq<Pixel>, i: nat, linestep: nat)
    requires Fitting(f, |was|) && Complete(im) && Narrow(im) && i < im.h && FragmentOk(f, im, i, linestep)
    ensures var lines := LinesFrom(im, i, linestep);
            Loaded(f, Sent(im, i, lines), Pasted(f, Upper(im, i), was)) == Some(Pasted(f, Upper(im, i + lines), was))
  {
    var lines, c := LinesFrom(im, i, linestep), Pasted(f, Upper(im, i), was);
    var part := Sent(im, i, lines);
    OnCourseLoads(f, part, c);
    FragmentContinues(f, im, was, i, lines);
    if im.y + i >= 0x1_0000 {
      CoversNothing(f, part, c);
      CoversNothing(f, Fragment(im, i, lines), c);
    }
  }

  lemma {:induction false} FragmentsPaste(f: Format, im: Image, was: seq<Pixel>, i: nat, linestep: nat)
    requires Fitting(f, |was|) && Complete(im) && Narrow(im) && linestep > 0 && FragmentsOk(f, im, i, linestep)
    ensures FragmentsLoaded(f, im, Pasted(f, Upper(im, Min(i, im.h)), was), i, linestep) == Some(Pasted(f, im, was))
    decreases im.h - i
  {
    if i >= im.h {
      RestNotCovered(f, im, was, im.h);
    } else {
      SentContinues(f, im, was, i, linestep);
      FragmentsPaste(f, im, was, i + linestep, linestep);
    }
  }

  /** The image does not cover the pixel at place p. */
  predicate Bare(f: Format, im: Image, p: int)
    requires f.w > 0
  {
    !Covered(f, im, p / f.w, p % f.w)
  }

  /** Fragments in order leave alone what the image does not cover. */
  lemma {:induction false} FragmentsLeave(f: Format, im: Image, b: seq<Pixel>, i: nat, linestep: nat, p: int)
    requires Fitting(f, |b|) && Complete(im) && Narrow(im) && linestep > 0 && FragmentsOk(f, im, i, linestep)
    requires 0 <= p < |b| && Bare(f, im, p)
    ensures var r := FragmentsLoaded(f, im, b, i, linestep); r.Some? && r.value[p] == b[p]
    decreases im.h - i
  {
    if i < im.h {
      var part := Sent(im, i, LinesFrom(im, i, linestep));
      OnCourseLoads(f, part, b);
      assert !Covered(f, part, p / f.w, p % f.w);
      FragmentsLeave(f, im, Pasted(f, part, b), i + linestep, linestep, p);
    }
  }

  /** An image on course shows its first pixel, if that lies in the texture. */
  lemma FirstIsStored(f: Format, im: Image, b: seq<Pixel>)
    requires Fitting(f, |b|) && Complete(im) && Narrow(im) && OnCourse(f, im) && |im.data| > 0
    requires im.x < f.tw && im.y < f.th && im.w > 0 && im.h > 0
    ensures Strays(Loaded(f, im, b), LineStart(f, im, 0), im.data[0])
  {
    var p := LineStart(f, im, 0);
    OnCourseLoads(f, im, b);
    Within(im.y, im.x, f.w, f.h);
    PlaceOf(p, f.w, im.y, im.x);
    assert PixelAt(f, im, b, p) == im.data[0];
  }

  lemma FirstPlace(f: Format, im: Image)
    requires 0 <= im.x < f.w
    ensures LineStart(f, im, 0) / f.w == im.y && LineStart(f, im, 0) % f.w == im.x
  {
    PlaceOf(LineStart(f, im, 0), f.w, im.y, im.x);
  }

  /** A fragment out of order stores a pixel d where the image shows none. */
  lemma FragmentStrays(f: Format, im: Image, i: nat, linestep: nat) returns (p: int, d: Pixel)
    requires Fitting(f, f.w * f.h) && Complete(im) && Narrow(im) && im.w > 0 && linestep > 0
    requires i < im.h && !FragmentOk(f, im, i, linestep)
    ensures Bare(f, im, p)
    ensures forall b :: |b| == f.w * f.h ==> Strays(Loaded(f, Sent(im, i, LinesFrom(im, i, linestep)), b), p, d)
  {
    var part := Sent(im, i, LinesFrom(im, i, linestep));
    InImage(part, part.y, part.x);
    p, d := LineStart(f, part, 0), part.data[0];
    if OnCourse(f, part) { FirstPlace(f, part); }
    forall b | |b| == f.w * f.h ensures Strays(Loaded(f, part, b), p, d) {
      if OnCourse(f, part) { FirstIsStored(f, part, b); } else { OffCourseStores(f, part, b); }
    }
  }

  /** So does the upload then. */
  lemma {:induction false} FragmentsStray(f: Format, im: Image, i: nat, linestep: nat) returns (p: int, d: Pixel)
    requires Fitting(f, f.w * f.h) && Complete(im) && Narrow(im) && im.w > 0 && linestep > 0
    requires !FragmentsOk(f, im, i, linestep)
    ensures Bare(f, im, p)
    ensures forall b :: |b| == f.w * f.h ==> Strays(FragmentsLoaded(f, im, b, i, linestep), p, d)
    decreases im.h - i
  {
    if !FragmentsOk(f, im, i + linestep, linestep) {
      p, d := FragmentsStray(f, im, i + linestep, linestep);
    } else {
      p, d := FragmentStrays(f, im, i, linestep);
      forall b | |b| == f.w * f.h ensures Strays(FragmentsLoaded(f, im, b, i, linestep), p, d) {
        StaysAstray(f, im, b, i, linestep, p, d);
      }
    }
  }

  /** What the last fragment out of order stored, the later ones leave. */
  lemma StaysAstray(f: Format, im: Image, b: seq<Pixel>, i: nat, linestep: nat, p: int, d: Pixel)
    requires Fitting(f, |b|) && Complete(im) && Narrow(im) && linestep > 0 && i < im.h
    requires Strays(Loaded(f, Sent(im, i, LinesFrom(im, i, linestep)), b), p, d)
    requires FragmentsOk(f, im, i + linestep, linestep) && Bare(f, im, p)
    ensures Strays(FragmentsLoaded(f, im, b, i, linestep), p, d)
  {
    var c := Loaded(f, Sent(im, i, LinesFrom(im, i, linestep)), b);
    if c.Some? { FragmentsLeave(f, im, c.value, i + linestep, linestep, p); }
  }

  /** An upload in fragments is pasting for every content of the buffer if and only if all its
      fragments are in order. */
  lemma UploadsWhenInOrder(f: Format, im: Image, linestep: nat)
    requires Fitting(f, f.w * f.h) && Complete(im) && Narrow(im) && im.w > 0 && linestep > 0
    ensures FragmentsOk(f, im, 0, linestep)
       <==> forall b :: |b| == f.w * f.h ==> FragmentsLoaded(f, im, b, 0, linestep) == Some(Pasted(f, im, b))
  {
    if FragmentsOk(f, im, 0, linestep) {
      forall b | |b| == f.w * f.h ensures FragmentsLoaded(f, im, b, 0, linestep) == Some(Pasted(f, im, b)) {
        PastedNothing(f, im, b);
        FragmentsPaste(f, im, b, 0, linestep);
      }
    } else {
      var p, d := FragmentsStray(f, im, 0, linestep);
      MulGrows(0, f.h, f.w);
      var b := Blank(f.w * f.h, d);
      if 0 <= p < |b| { assert PixelAt(f, im, b, p) == b[p] != d; }
      assert FragmentsLoaded(f, im, b, 0, linestep) != Some(Pasted(f, im, b));
    }
  }

  /** In particular an image that ends within 16 bits and does not start 2^15 behind the
      texture's edge is uploaded right, whatever the height of the fragments. */
  lemma {:induction false} UsuallyInOrder(f: Format, im: Image, i: nat, linestep: nat)
    requires Complete(im) && linestep > 0 && im.x <= f.tw + 0x8000 && im.y + im.h <= 0x1_0000
    ensures FragmentsOk(f, im, i, linestep)
    decreases im.h - i
  {
    if i < im.h { UsuallyInOrder(f, im, i + linestep, linestep); }
  }

  const LARGE := Format(4096, 4096, 4096, 4096)

  /** One pixel far to the right of a large texture is off course. Two lines of 10000 pixels
      from the last line that has a number in 16 bits are sent one by one, and the second
      comes back at the top. */
  lemma OutOfOrder()
    ensures !OnCourse(LARGE, Image(40000, 0, 1, 1, [CLEAR]))
    ensures var im := Image(0, 65535, 10000, 2, seq(20000, _ => CLEAR));
            Complete(im) && Linestep(im.w) == 1 && !FragmentsOk(LARGE, im, 0, 1) && Sent(im, 1, 1).y == 0
  {
    var im := Image(0, 65535, 10000, 2, seq(20000, _ => CLEAR));
    assert Complete(im) && Linestep(im.w) == 1 && Sent(im, 1, 1).y == 0;
    assert !FragmentOk(LARGE, im, 1, 1);
    assert !FragmentsOk(LARGE, im, 1, 1);
  }

  /** The server's part: a message of the right size is loaded. */
  method ProtLoadTex(f: Format, buf: array<Pixel>, im: Image, length: nat) returns (astray: bool)
    requires Fitting(f, buf.Length) && Complete(im) && Narrow(im)
    modifies buf
    ensures var right := length > 16 && length == 16 + im.w * im.h * 4;
            var r := if right then Loaded(f, im, old(buf[..])) else Some(old(buf[..]));
            (astray <==> r.None?) && (!astray ==> r == Some(buf[..]))
  {
    astray := false;
    if length > 16 {
      var num := length - 16;
      if im.w * im.h * 4 == num {      // check correct size
        astray := LoadTex(f, buf, im);
      }
    }
  }

  /** Send the fragment from line i on, and have it loaded. */
  method SendFragment(f: Format, buf: array<Pixel>, im: Image, i: nat, linestep: nat) returns (length: nat, astray: bool)
    requires Fitting(f, buf.Length) && Complete(im) && Narrow(im) && im.w > 0
    requires i < im.h && 0 < linestep <= Linestep(im.w)
    modifies buf
    ensures var r := Loaded(f, Sent(im, i, LinesFrom(im, i, linestep)), old(buf[..]));
            (astray <==> r.None?) && (!astray ==> r == Some(buf[..]))
    ensures length <= MF_LEN
  {
    var lines := if im.h - i > linestep then linestep else im.h - i;
    FragmentFits(im.w, lines);
    MulGrows(1, im.w, lines);
    length := 16 + im.w * lines * 4;
    astray := ProtLoadTex(f, buf, Sent(im, i, lines), length);
  }

  /** Load a texture from memory: over shared memory when the texture is attached, in
      fragments of whole lines otherwise. Either way it is pasted when all is in order. */
  method LoadTexture(f: Format, buf: array<Pixel>, im: Image, attached: bool) returns (result: int, astray: bool)
    requires Fitting(f, buf.Length) && Complete(im) && Narrow(im) && (attached || im.w > 0)
    modifies buf
    ensures result == if attached || 16 + im.w * 4 <= MF_LEN then 0 else -1
    ensures result == -1 ==> buf[..] == old(buf[..]) && !astray
    ensures result == 0 && (if attached then OnCourse(f, im) else FragmentsOk(f, im, 0, Linestep(im.w))) ==>
              !astray && buf[..] == Pasted(f, im, old(buf[..]))
    ensures result == 0 ==>
              var r := if attached then Loaded(f, im, old(buf[..]))
                       else FragmentsLoaded(f, im, old(buf[..]), 0, Linestep(im.w));
              (astray <==> r.None?) && (!astray ==> r == Some(buf[..]))
  {
    if attached {
      astray := LoadTex(f, buf, im);
      return 0, astray;
    }
    var linestep := Linestep(im.w);
    LinestepIsMost(im.w);
    if linestep == 0 { return -1, false; }
    ghost var was := buf[..];
    astray := SendFragments(f, buf, im, linestep);
    if FragmentsOk(f, im, 0, linestep) {
      PastedNothing(f, im, was);
      FragmentsPaste(f, im, was, 0, linestep);
    }
    return 0, astray;
  }

  method SendFragments(f: Format, buf: array<Pixel>, im: Image, linestep: nat) returns (astray: bool)
    requires Fitting(f, buf.Length) && Complete(im) && Narrow(im) && im.w > 0
    requires 0 < linestep <= Linestep(im.w)
    modifies buf
    ensures var r := FragmentsLoaded(f, im, old(buf[..]), 0, linestep);
            (astray <==> r.None?) && (!astray ==> r == Some(buf[..]))
  {
    var i := 0;
    while i < im.h
      invariant 0 <= i
      invariant FragmentsLoaded(f, im, old(buf[..]), 0, linestep) == FragmentsLoaded(f, im, buf[..], i, linestep)
      decreases im.h - i
    {
      var length;
      length, astray := SendFragment(f, buf, im, i, linestep);
      if astray { return; }
      i := i + linestep;
    }
    return false;
  }
}
