/**
 * Bitmaps as `CCoarseMeshBuild` handles them: pixels in one buffer, row after row, written through
 * moving pointers. `Expand` gives a bitmap a border one pixel wide.
 */
module Bitmaps {

  type Pixel = int

  lemma CellInside(w: nat, h: nat, x: nat, y: nat)
    requires x < w && y < h
    ensures y * w + x < w * h
  {
    assert (y + 1) * w <= h * w;
  }

  function Cell(px: seq<Pixel>, w: nat, h: nat, x: nat, y: nat): Pixel
    requires |px| == w * h && x < w && y < h
  {
    CellInside(w, h, x, y);
    px[y * w + x]
  }

  lemma CellsDiffer(w: nat, x: nat, y: nat, a: nat, b: nat)
    requires x < w && a < w && y * w + x == b * w + a
    ensures x == a && y == b
  {
    if y < b {
      LaterRow(w, x, y, a, b);
    } else if b < y {
      LaterRow(w, a, b, x, y);
    }
  }

  lemma LaterRow(w: nat, x: nat, y: nat, a: nat, b: nat)
    requires x < w && y < b
    ensures y * w + x < b * w + a
  {
    assert (y + 1) * w <= b * w;
  }

  lemma WriteOneCell(px: seq<Pixel>, w: nat, h: nat, x: nat, y: nat, d: nat, v: Pixel, a: nat, b: nat)
    requires |px| == w * h && x < w && y < h && d == y * w + x && d < |px| && a < w && b < h
    ensures Cell(px[d := v], w, h, a, b) == if a == x && b == y then v else Cell(px, w, h, a, b)
  {
    CellInside(w, h, a, b);
    if d == b * w + a {
      CellsDiffer(w, x, y, a, b);
    }
  }

  /** Writing one cell changes that cell only. */
  lemma WriteCell(px: seq<Pixel>, px2: seq<Pixel>, w: nat, h: nat, x: nat, y: nat, d: nat, v: Pixel)
    requires |px| == |px2| == w * h && x < w && y < h && d == y * w + x && d < |px| && px2 == px[d := v]
    ensures forall a: nat, b: nat | a < w && b < h ::
              Cell(px2, w, h, a, b) == if a == x && b == y then v else Cell(px, w, h, a, b)
  {
    hide Cell;
    forall a: nat, b: nat | a < w && b < h
      ensures Cell(px2, w, h, a, b) == if a == x && b == y then v else Cell(px, w, h, a, b)
    {
      WriteOneCell(px, w, h, x, y, d, v, a, b);
    }
  }

  class Bitmap {
    var width: nat
    var height: nat
    var pixels: array<Pixel>

    ghost predicate Valid()
      reads this
    {
      pixels.Length == width * height
    }

    constructor (w: nat, h: nat)
      ensures Valid() && width == w && height == h && fresh(pixels)
      ensures forall i | 0 <= i < pixels.Length :: pixels[i] == 0
    {
      width, height := w, h;
      pixels := new Pixel[w * h](_ => 0);
    }

    ghost function At(x: nat, y: nat): Pixel
      requires Valid() && x < width && y < height
      reads this, pixels
    {
      Cell(pixels[..], width, height, x, y)
    }

    /** Gives the bitmap a new size; what it shows is lost. */
    method Resize(w: nat, h: nat)
      modifies this
      ensures Valid() && width == w && height == h && fresh(pixels)
    {
      width, height := w, h;
      pixels := new Pixel[w * h](_ => 0);
    }

    /** Copies a buffer of w * h pixels to (x, y), clipped on the four sides. */
    method Blit(src: array<Pixel>, w: nat, h: nat, x: int, y: int)
      requires Valid() && src != pixels && src.Length == w * h
      modifies pixels
      ensures forall a: nat, b: nat | a < width && b < height ::
                At(a, b) == if x <= a < x + w && y <= b < y + h then Cell(src[..], w, h, a - x, b - y)
                            else old(At(a, b))
    {
      ghost var was, from := pixels[..], src[..];
      var srcStartX, srcStartY := if x < 0 then -x else 0, if y < 0 then -y else 0;
      if w <= srcStartX || h <= srcStartY {
        return;
      }
      var j := srcStartY;
      while j < h && y + j < height
        invariant srcStartY <= j <= h && src[..] == from
        invariant BlittedUpTo(pixels[..], was, width, height, from, w, h, x, y, srcStartX, j)
        decreases h - j
      {
        var i := srcStartX;
        while i < w && x + i < width
          invariant srcStartX <= i <= w && src[..] == from
          invariant BlittedUpTo(pixels[..], was, width, height, from, w, h, x, y, i, j)
          decreases w - i
        {
          var d := CellIndex(width, height, x + i, y + j);
          var v := src[CellIndex(w, h, i, j)];
          ghost var before := pixels[..];
          BlitOneMore(before, was, width, height, from, w, h, x, y, i, j, d);
          hide BlittedUpTo;
          pixels[d] := v;
          assert pixels[..] == before[d := v];
          i := i + 1;
        }
        RowBlitted(pixels[..], was, width, height, from, w, h, x, y, i, j);
        hide BlittedUpTo;
        j := j + 1;
      }
      AllBlitted(pixels[..], was, width, height, from, w, h, x, y, srcStartX, j);
    }
  }

  /** What cell (a, b) shows when the first j rows are copied, and i pixels of the next. */
  ghost function Shown(was: seq<Pixel>, width: nat, height: nat, from: seq<Pixel>, w: nat, h: nat,
                       x: int, y: int, i: nat, j: nat, a: nat, b: nat): Pixel
    requires |was| == width * height && |from| == w * h && i <= w && j <= h && a < width && b < height
  {
    if x <= a < x + w && y <= b < y + j then Cell(from, w, h, a - x, b - y)
    else if x <= a < x + i && b == y + j && j < h then Cell(from, w, h, a - x, b - y)
    else Cell(was, width, height, a, b)
  }

  ghost predicate BlittedUpTo(px: seq<Pixel>, was: seq<Pixel>, width: nat, height: nat, from: seq<Pixel>,
                              w: nat, h: nat, x: int, y: int, i: nat, j: nat)
    requires |px| == |was| == width * height && |from| == w * h && i <= w && j <= h
  {
    forall a: nat, b: nat | a < width && b < height ::
      Cell(px, width, height, a, b) == Shown(was, width, height, from, w, h, x, y, i, j, a, b)
  }

  /** A row is over: the next one begins at the left edge. */
  lemma RowBlitted(px: seq<Pixel>, was: seq<Pixel>, width: nat, height: nat, from: seq<Pixel>,
                   w: nat, h: nat, x: int, y: int, i: nat, j: nat)
    requires |px| == |was| == width * height && |from| == w * h && i <= w && j < h
    requires (i == w || x + i >= width) && BlittedUpTo(px, was, width, height, from, w, h, x, y, i, j)
    ensures (if x < 0 then -x else 0) <= w ==>
              BlittedUpTo(px, was, width, height, from, w, h, x, y, if x < 0 then -x else 0, j + 1)
  {
    var start := if x < 0 then -x else 0;
    if start <= w {
      hide Cell;
      forall a: nat, b: nat | a < width && b < height
        ensures Cell(px, width, height, a, b) == Shown(was, width, height, from, w, h, x, y, start, j + 1, a, b)
      {
        assert Cell(px, width, height, a, b) == Shown(was, width, height, from, w, h, x, y, i, j, a, b);
      }
    }
  }

  lemma AllBlitted(px: seq<Pixel>, was: seq<Pixel>, width: nat, height: nat, from: seq<Pixel>,
                   w: nat, h: nat, x: int, y: int, i: nat, j: nat)
    requires |px| == |was| == width * height && |from| == w * h && i <= w && j <= h
    requires (j == h || y + j >= height) && x + i <= (if x < 0 then 0 else x)
    requires BlittedUpTo(px, was, width, height, from, w, h, x, y, i, j)
    ensures forall a: nat, b: nat | a < width && b < height ::
              Cell(px, width, height, a, b)
              == if x <= a < x + w && y <= b < y + h then Cell(from, w, h, a - x, b - y) else Cell(was, width, height, a, b)
  {
    hide Cell;
    forall a: nat, b: nat | a < width && b < height
      ensures Cell(px, width, height, a, b)
              == if x <= a < x + w && y <= b < y + h then Cell(from, w, h, a - x, b - y) else Cell(was, width, height, a, b)
    {
      assert Cell(px, width, height, a, b) == Shown(was, width, height, from, w, h, x, y, i, j, a, b);
    }
  }

  lemma BlitOneMore(px: seq<Pixel>, was: seq<Pixel>, width: nat, height: nat, from: seq<Pixel>,
                    w: nat, h: nat, x: int, y: int, i: nat, j: nat, d: nat)
    requires |px| == |was| == width * height && |from| == w * h && i < w && j < h
    requires 0 <= x + i < width && 0 <= y + j < height && BlittedUpTo(px, was, width, height, from, w, h, x, y, i, j)
    requires d == (y + j) * width + (x + i)
    ensures d < |px|
    ensures BlittedUpTo(px[d := Cell(from, w, h, i, j)], was, width, height, from, w, h, x, y, i + 1, j)
  {
    CellInside(width, height, x + i, y + j);
    var px2 := px[d := Cell(from, w, h, i, j)];
    WriteCell(px, px2, width, height, x + i, y + j, d, Cell(from, w, h, i, j));
    hide Cell;
    forall a: nat, b: nat | a < width && b < height
      ensures Cell(px2, width, height, a, b) == Shown(was, width, height, from, w, h, x, y, i + 1, j, a, b)
    {
      assert Cell(px, width, height, a, b) == Shown(was, width, height, from, w, h, x, y, i, j, a, b);
    }
  }

  function CellIndex(w: nat, h: nat, x: nat, y: nat): (i: nat)
    requires x < w && y < h
    ensures i == y * w + x < w * h
  {
    CellInside(w, h, x, y);
    y * w + x
  }

  function Clamp(i: nat, n: nat): nat
    requires n > 0
  {
    if i == 0 then 0 else if i > n then n - 1 else i - 1
  }

  /** With the border, pixel i stands for i - 1; no pixel of the bitmap is nearer than the one repeated. */
  lemma ClampIsNearest(i: nat, n: nat, k: nat)
    requires k < n
    ensures Clamp(i, n) < n
    ensures k <= i - 1 ==> k <= Clamp(i, n) <= i - 1
    ensures i - 1 <= k ==> i - 1 <= Clamp(i, n) <= k
  {
  }

  /** What the expanded bitmap shows at (a, b): the nearest pixel of the original. */
  function Nearest(px: seq<Pixel>, w: nat, h: nat, a: nat, b: nat): Pixel
    requires |px| == w * h && w > 0 && h > 0
  {
    Cell(px, w, h, Clamp(a, w), Clamp(b, h))
  }

  ghost predicate RightAt(px: seq<Pixel>, from: seq<Pixel>, w: nat, h: nat, a: nat, b: nat)
    requires |from| == w * h && w > 0 && h > 0 && |px| == (w + 2) * (h + 2)
  {
    a < w + 2 && b < h + 2 && Cell(px, w + 2, h + 2, a, b) == Nearest(from, w, h, a, b)
  }

  /** Writing the right value somewhere spoils no cell. */
  lemma WriteRight(px: seq<Pixel>, from: seq<Pixel>, w: nat, h: nat, x: nat, y: nat, i: int, v: Pixel)
    requires |from| == w * h && w > 0 && h > 0 && |px| == (w + 2) * (h + 2) && x < w + 2 && y < h + 2
    requires i == y * (w + 2) + x && v == Nearest(from, w, h, x, y)
    ensures 0 <= i < |px| && RightAt(px[i := v], from, w, h, x, y)
    ensures forall a, b | RightAt(px, from, w, h, a, b) :: RightAt(px[i := v], from, w, h, a, b)
  {
    CellInside(w + 2, h + 2, x, y);
    WriteCell(px, px[i := v], w + 2, h + 2, x, y, i, v);
  }

  /** Pixel arithmetic of the pointers of `expand`. */
  lemma Offsets(w: nat, h: nat, k: nat)
    requires w > 0 && h > 0 && k < h
    ensures w * (h - 1) == (h - 1) * w && (w + 2) * (h + 1) == (h + 1) * (w + 2)
    ensures (w + 2) * (h + 2) - 1 == (h + 1) * (w + 2) + (w + 1)
    ensures w * h - 1 == (h - 1) * w + (w - 1)
    ensures (k + 1) * w == k * w + w && (k + 2) * (w + 2) == (k + 1) * (w + 2) + (w + 2)
  {
  }

  lemma BlittedInside(px: seq<Pixel>, from: seq<Pixel>, w: nat, h: nat, w2: nat, h2: nat)
    requires |from| == w * h && w > 0 && h > 0 && w2 == w + 2 && h2 == h + 2 && |px| == w2 * h2
    requires forall a: nat, b: nat | 1 <= a <= w && 1 <= b <= h ::
               Cell(px, w2, h2, a, b) == Cell(from, w, h, a - 1, b - 1)
    ensures InteriorRight(px, from, w, h)
  {
  }

  /** The bitmap, one pixel larger on each side, shows what it did; the old buffer is returned. */
  method Enlarge(bitmap: Bitmap) returns (copy: array<Pixel>)
    requires bitmap.Valid() && bitmap.width > 0 && bitmap.height > 0
    modifies bitmap
    ensures bitmap.Valid() && fresh(bitmap.pixels)
    ensures copy == old(bitmap.pixels) && copy[..] == old(bitmap.pixels[..])
    ensures bitmap.width == old(bitmap.width) + 2 && bitmap.height == old(bitmap.height) + 2
    ensures InteriorRight(bitmap.pixels[..], copy[..], old(bitmap.width), old(bitmap.height))
  {
    var w, h := bitmap.width, bitmap.height;
    copy := bitmap.pixels;
    ghost var from := copy[..];
    bitmap.Resize(w + 2, h + 2);
    ghost var w2, h2 := bitmap.width, bitmap.height;
    bitmap.Blit(copy, w, h, 1, 1);
    ghost var px := bitmap.pixels[..];
    assert copy[..] == from;
    forall a: nat, b: nat | 1 <= a <= w && 1 <= b <= h
      ensures Cell(px, w2, h2, a, b) == Cell(from, w, h, a - 1, b - 1)
    {
      assert bitmap.At(a, b) == Cell(px, w2, h2, a, b);
    }
    BlittedInside(px, from, w, h, w2, h2);
  }

  /** Adds a border: every pixel of it repeats the nearest pixel of the bitmap. Nothing if it is empty. */
  method Expand(bitmap: Bitmap)
    requires bitmap.Valid()
    modifies bitmap, bitmap.pixels
    ensures bitmap.Valid()
    ensures var w, h := old(bitmap.width), old(bitmap.height);
            if w == 0 || h == 0 then
              bitmap.width == w && bitmap.height == h && bitmap.pixels[..] == old(bitmap.pixels[..])
            else
              && bitmap.width == w + 2 && bitmap.height == h + 2
              && forall a: nat, b: nat | a < w + 2 && b < h + 2 ::
                   bitmap.At(a, b) == Nearest(old(bitmap.pixels[..]), w, h, a, b)
  {
    var w, h := bitmap.width, bitmap.height;
    if w != 0 && h != 0 {
      var copy := Enlarge(bitmap);
      Border(bitmap.pixels, copy, w, h);
      AllNearest(bitmap, copy[..], w, h);
    }
  }

  lemma AllNearest(bitmap: Bitmap, from: seq<Pixel>, w: nat, h: nat)
    requires bitmap.Valid() && |from| == w * h && w > 0 && h > 0
    requires bitmap.width == w + 2 && bitmap.height == h + 2
    requires forall a: nat, b: nat | a < w + 2 && b < h + 2 :: RightAt(bitmap.pixels[..], from, w, h, a, b)
    ensures forall a: nat, b: nat | a < w + 2 && b < h + 2 :: bitmap.At(a, b) == Nearest(from, w, h, a, b)
  {
    forall a: nat, b: nat | a < w + 2 && b < h + 2
      ensures bitmap.At(a, b) == Nearest(from, w, h, a, b)
    {
      assert RightAt(bitmap.pixels[..], from, w, h, a, b);
    }
  }

  /** Copies a pixel of the original through a pair of pointers, to the cell (x, y). */
  method Store(px: array<Pixel>, dest: int, copy: array<Pixel>, src: int, ghost w: nat, ghost h: nat,
               ghost x: nat, ghost y: nat)
    requires w > 0 && h > 0 && copy.Length == w * h && px.Length == (w + 2) * (h + 2) && px != copy
    requires x < w + 2 && y < h + 2
    requires dest == y * (w + 2) + x && src == Clamp(y, h) * w + Clamp(x, w)
    modifies px
    ensures RightAt(px[..], copy[..], w, h, x, y)
    ensures forall a, b | RightAt(old(px[..]), copy[..], w, h, a, b) :: RightAt(px[..], copy[..], w, h, a, b)
  {
    CellInside(w, h, Clamp(x, w), Clamp(y, h));
    WriteRight(px[..], copy[..], w, h, x, y, dest, copy[src]);
    ghost var before := px[..];
    px[dest] := copy[src];
    assert px[..] == before[dest := copy[src]];
  }

  ghost predicate InteriorRight(px: seq<Pixel>, from: seq<Pixel>, w: nat, h: nat)
    requires |from| == w * h && w > 0 && h > 0 && |px| == (w + 2) * (h + 2)
  {
    forall a: nat, b: nat | 1 <= a <= w && 1 <= b <= h :: RightAt(px, from, w, h, a, b)
  }

  /** The cells 1 to n of row b. */
  ghost predicate RowRight(px: seq<Pixel>, from: seq<Pixel>, w: nat, h: nat, b: nat, n: nat)
    requires |from| == w * h && w > 0 && h > 0 && |px| == (w + 2) * (h + 2)
  {
    forall a: nat | 1 <= a <= n :: RightAt(px, from, w, h, a, b)
  }

  /** The cells 1 to n of column a. */
  ghost predicate ColumnRight(px: seq<Pixel>, from: seq<Pixel>, w: nat, h: nat, a: nat, n: nat)
    requires |from| == w * h && w > 0 && h > 0 && |px| == (w + 2) * (h + 2)
  {
    forall b: nat | 1 <= b <= n :: RightAt(px, from, w, h, a, b)
  }

  /** The border of the expanded bitmap: the top and bottom rows, the two sides, the corners. */
  method Border(px: array<Pixel>, copy: array<Pixel>, w: nat, h: nat)
    requires w > 0 && h > 0 && copy.Length == w * h && px.Length == (w + 2) * (h + 2) && px != copy
    requires InteriorRight(px[..], copy[..], w, h)
    modifies px
    ensures forall a: nat, b: nat | a < w + 2 && b < h + 2 :: RightAt(px[..], copy[..], w, h, a, b)
  {
    hide RightAt, Cell, Nearest;
    ghost var from := copy[..];
    Offsets(w, h, 0);
    var topSrc, topDest := 0, 1;
    for i := 0 to w
      invariant InteriorRight(px[..], from, w, h) && RowRight(px[..], from, w, h, 0, i)
    {
      Store(px, topDest + i, copy, topSrc + i, w, h, i + 1, 0);
    }
    var bottomSrc, bottomDest := topSrc + w * (h - 1), (w + 2) * (h + 1) + 1;
    for i := 0 to w
      invariant InteriorRight(px[..], from, w, h) && RowRight(px[..], from, w, h, 0, w)
      invariant RowRight(px[..], from, w, h, h + 1, i)
    {
      Store(px, bottomDest + i, copy, bottomSrc + i, w, h, i + 1, h + 1);
    }
    var leftSrc, leftDest := 0, w + 2;
    var rightSrc, rightDest := leftSrc + w - 1, leftDest + w + 1;
    for i := 0 to h
      invariant leftSrc == i * w && leftDest == (i + 1) * (w + 2)
      invariant rightSrc == leftSrc + w - 1 && rightDest == leftDest + w + 1
      invariant InteriorRight(px[..], from, w, h) && RowRight(px[..], from, w, h, 0, w)
      invariant RowRight(px[..], from, w, h, h + 1, w)
      invariant ColumnRight(px[..], from, w, h, 0, i) && ColumnRight(px[..], from, w, h, w + 1, i)
    {
      Offsets(w, h, i);
      Store(px, leftDest, copy, leftSrc, w, h, 0, i + 1);
      Store(px, rightDest, copy, rightSrc, w, h, w + 1, i + 1);
      leftDest, rightDest := leftDest + (w + 2), rightDest + (w + 2);
      leftSrc, rightSrc := leftSrc + w, rightSrc + w;
    }
    Store(px, 0, copy, 0, w, h, 0, 0);
    Store(px, w + 1, copy, w - 1, w, h, w + 1, 0);
    Store(px, (w + 2) * (h + 2) - 1, copy, w * h - 1, w, h, w + 1, h + 1);
    Store(px, (w + 2) * (h + 1), copy, w * (h - 1), w, h, 0, h + 1);
    AllSides(px[..], from, w, h);
  }

  lemma AllSides(px: seq<Pixel>, from: seq<Pixel>, w: nat, h: nat)
    requires |from| == w * h && w > 0 && h > 0 && |px| == (w + 2) * (h + 2)
    requires InteriorRight(px, from, w, h)
    requires RowRight(px, from, w, h, 0, w) && RowRight(px, from, w, h, h + 1, w)
    requires ColumnRight(px, from, w, h, 0, h) && ColumnRight(px, from, w, h, w + 1, h)
    requires RightAt(px, from, w, h, 0, 0) && RightAt(px, from, w, h, w + 1, 0)
    requires RightAt(px, from, w, h, w + 1, h + 1) && RightAt(px, from, w, h, 0, h + 1)
    ensures forall a: nat, b: nat | a < w + 2 && b < h + 2 :: RightAt(px, from, w, h, a, b)
  {
    hide RightAt;
  }
}
