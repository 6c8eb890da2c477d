/**
 * The placement loop of `CCoarseMeshBuild::buildBitmap` with the pixels it copies: each texture is
 * blitted in the atlas when it is placed, and is still there at the end.
 */
module TextureAtlas {
  import opened Bitmaps
  import opened TexturePacking
  import opened Wrappers

  function SizeOf(b: Bitmap): Size
    reads b
  {
    Size(b.width, b.height)
  }

  ghost function Sizes(textures: seq<Bitmap>): (s: seq<Size>)
    reads textures
    ensures |s| == |textures| && forall i | 0 <= i < |s| :: s[i] == SizeOf(textures[i])
  {
    if textures == [] then [] else Sizes(textures[..|textures| - 1]) + [SizeOf(textures[|textures| - 1])]
  }

  /** The picture px shows a texture at a place: what does not stick out of the atlas. */
  ghost predicate Shows(px: seq<Pixel>, atlas: Size, from: seq<Pixel>, r: Rect) {
    && |px| == atlas.width * atlas.height && |from| == r.width * r.height
    && forall x: nat, y: nat | x < r.width && y < r.height && r.u + x < atlas.width && r.v + y < atlas.height ::
         Cell(px, atlas.width, atlas.height, r.u + x, r.v + y) == Cell(from, r.width, r.height, x, y)
  }

  /** The picture px shows what was shows, but for a texture blitted at r. */
  ghost predicate Blitted(px: seq<Pixel>, was: seq<Pixel>, atlas: Size, from: seq<Pixel>, r: Rect)
    requires |px| == |was| == atlas.width * atlas.height && |from| == r.width * r.height
  {
    forall a: nat, b: nat | a < atlas.width && b < atlas.height ::
      Cell(px, atlas.width, atlas.height, a, b) ==
        if r.u <= a < r.u + r.width && r.v <= b < r.v + r.height then Cell(from, r.width, r.height, a - r.u, b - r.v)
        else Cell(was, atlas.width, atlas.height, a, b)
  }

  /** A texture stays visible when another one is blitted beside it, and the new one is visible. */
  lemma BlitBeside(px: seq<Pixel>, was: seq<Pixel>, atlas: Size, from: seq<Pixel>, r: Rect, other: seq<Pixel>, o: Rect)
    requires |px| == |was| == atlas.width * atlas.height && |from| == r.width * r.height
    requires Blitted(px, was, atlas, from, r) && Shows(was, atlas, other, o) && !Overlaps(r, o)
    ensures Shows(px, atlas, other, o)
  {
    hide Cell;
    forall x: nat, y: nat | x < o.width && y < o.height && o.u + x < atlas.width && o.v + y < atlas.height
      ensures Cell(px, atlas.width, atlas.height, o.u + x, o.v + y) == Cell(other, o.width, o.height, x, y)
    {
      assert Cell(px, atlas.width, atlas.height, o.u + x, o.v + y)
          == Cell(was, atlas.width, atlas.height, o.u + x, o.v + y);
    }
  }

  lemma BlitShows(px: seq<Pixel>, was: seq<Pixel>, atlas: Size, from: seq<Pixel>, r: Rect)
    requires |px| == |was| == atlas.width * atlas.height && |from| == r.width * r.height
    requires Blitted(px, was, atlas, from, r)
    ensures Shows(px, atlas, from, r)
  {
    hide Cell;
    forall x: nat, y: nat | x < r.width && y < r.height && r.u + x < atlas.width && r.v + y < atlas.height
      ensures Cell(px, atlas.width, atlas.height, r.u + x, r.v + y) == Cell(from, r.width, r.height, x, y)
    {
      var a, b := r.u + x, r.v + y;
      assert Cell(px, atlas.width, atlas.height, a, b) == Cell(from, r.width, r.height, a - r.u, b - r.v);
    }
  }

  /** The atlas shows the textures from the k-th on, where they were placed. */
  ghost predicate AllShown(px: seq<Pixel>, atlas: Size, textures: seq<Bitmap>, placed: seq<Rect>)
    requires |placed| <= |textures|
    reads textures, set b | b in textures :: b.pixels
  {
    forall i | 0 <= i < |placed| :: Shows(px, atlas, textures[|textures| - 1 - i].pixels[..], placed[i])
  }

  /** `inserted`, kept in order of rows: after its equals. */
  method Insert(inserted: seq<Rect>, r: Rect) returns (s: seq<Rect>)
    requires SortedByRow(inserted)
    ensures SortedByRow(s) && Elements(s) == Elements(inserted) + {r}
  {
    var k := LowerBound(inserted, r.v + 1);
    s := inserted[..k] + [r] + inserted[k..];
    assert inserted == inserted[..k] + inserted[k..];
    assert forall x :: x in s <==> x in inserted || x == r;
  }

  ghost predicate InputOk(textures: seq<Bitmap>, atlas: Bitmap)
    reads textures, atlas
  {
    atlas.Valid() && forall b | b in textures :: b.Valid() && b.pixels != atlas.pixels && b != atlas
  }

  lemma {:induction false} NonePlaced(sizes: seq<Size>, atlas: Size, k: nat)
    requires k <= |sizes| && PackFrom(sizes, atlas, k).None?
    ensures PackFrom(sizes, atlas, 0).None?
  {
    if k > 0 {
      NonePlaced(sizes, atlas, k - 1);
    }
  }

  lemma NoPlace(sizes: seq<Size>, atlas: Size, k: nat, done: seq<Rect>)
    requires k < |sizes| && PackFrom(sizes, atlas, k + 1) == Some(done)
    requires Scan(Elements(done), sizes[k], atlas, 0).None?
    ensures PackFrom(sizes, atlas, 0).None?
  {
    NonePlaced(sizes, atlas, k);
  }

  lemma PlacedNext(sizes: seq<Size>, atlas: Size, k: nat, done: seq<Rect>, r: Rect)
    requires k < |sizes| && PackFrom(sizes, atlas, k + 1) == Some(done)
    requires Scan(Elements(done), sizes[k], atlas, 0) == Some(r)
    ensures PackFrom(sizes, atlas, k) == Some(done + [r])
    ensures r == At(sizes[k], r.u, r.v)
    ensures forall i | 0 <= i < |done| :: !Overlaps(r, done[i])
  {
    PackedApart(sizes, atlas, k);
    var p := done + [r];
    assert p[|done|] == r;
    forall i | 0 <= i < |done|
      ensures !Overlaps(r, done[i])
    {
      assert !Overlaps(p[|done|], p[i]);
    }
  }

  lemma StillNotHigher(before: seq<Rect>, higher: nat, inserted: seq<Rect>, r: Rect, m: nat)
    requires NotHigher(before, higher) && Elements(inserted) == Elements(before) + {r}
    requires higher <= m && r.height <= m
    ensures NotHigher(inserted, m)
  {
    forall i | 0 <= i < |inserted|
      ensures inserted[i].height <= m
    {
      assert inserted[i] in Elements(inserted);
    }
  }

  method BlitTexture(t: Bitmap, atlas: Bitmap, r: Rect)
    requires t.Valid() && atlas.Valid() && t.pixels != atlas.pixels && r == At(SizeOf(t), r.u, r.v)
    modifies atlas.pixels
    ensures Blitted(atlas.pixels[..], old(atlas.pixels[..]), SizeOf(atlas), t.pixels[..], r)
  {
    ghost var was, w, h := atlas.pixels[..], atlas.width, atlas.height;
    ghost var from := t.pixels[..];
    atlas.Blit(t.pixels, t.width, t.height, r.u, r.v);
    ghost var px := atlas.pixels[..];
    assert t.pixels[..] == from;
    forall a: nat, b: nat | a < w && b < h
      ensures Cell(px, w, h, a, b) ==
        if r.u <= a < r.u + r.width && r.v <= b < r.v + r.height then Cell(from, r.width, r.height, a - r.u, b - r.v)
        else Cell(was, w, h, a, b)
    {
      assert atlas.At(a, b) == Cell(px, w, h, a, b);
    }
  }

  /** Blits texture k beside those already placed. */
  method BlitOne(textures: seq<Bitmap>, atlas: Bitmap, k: nat, ghost done: seq<Rect>, r: Rect)
    requires InputOk(textures, atlas) && k < |textures| && |done| == |textures| - 1 - k
    requires AllShown(atlas.pixels[..], SizeOf(atlas), textures, done)
    requires r == At(SizeOf(textures[k]), r.u, r.v)
    requires forall i | 0 <= i < |done| :: !Overlaps(r, done[i])
    modifies atlas.pixels
    ensures AllShown(atlas.pixels[..], SizeOf(atlas), textures, done + [r])
  {
    hide Blitted, Shows, Overlaps, Cell;
    var t := textures[k];
    assert t in textures;
    ghost var was := atlas.pixels[..];
    ghost var size := SizeOf(atlas);
    BlitTexture(t, atlas, r);
    ghost var px := atlas.pixels[..];
    BlitShows(px, was, size, t.pixels[..], r);
    forall i | 0 <= i < |done|
      ensures Shows(px, size, textures[|textures| - 1 - i].pixels[..], done[i])
    {
      var o := textures[|textures| - 1 - i];
      assert o in textures && o.pixels[..] == old(o.pixels[..]);
      BlitBeside(px, was, size, t.pixels[..], r, o.pixels[..], done[i]);
    }
  }

  /**
   * Places and blits the textures, from the last one down. It agrees with the reference placement, and
   * every texture can be read back from the atlas where it was placed: the whole of it if and only if it
   * fits the atlas.
   */
  method BuildBitmap(textures: seq<Bitmap>, atlas: Bitmap) returns (placed: Option<seq<Rect>>)
    requires InputOk(textures, atlas)
    modifies atlas.pixels
    ensures placed == PackFrom(Sizes(textures), SizeOf(atlas), 0)
    ensures placed.Some? ==> |placed.value| == |textures| && AllShown(atlas.pixels[..], SizeOf(atlas), textures, placed.value)
    ensures placed.Some? ==>
              forall i | 0 <= i < |textures| ::
                Inside(placed.value[i], SizeOf(atlas)) <==> Fits(SizeOf(textures[|textures| - 1 - i]), SizeOf(atlas))
  {
    var size := SizeOf(atlas);
    ghost var sizes := Sizes(textures);
    var inserted: seq<Rect>, done: seq<Rect>, maxTexHeight := [], [], 0;
    var k := |textures|;
    assert PackFrom(sizes, size, k) == Some(done) && SortedByRow(inserted) && NotHigher(inserted, maxTexHeight);
    assert AllShown(atlas.pixels[..], size, textures, done);
    hide PackFrom, Scan, NotHigher, SortedByRow, AllShown, Overlaps;
    while k > 0
      invariant 0 <= k <= |textures|
      invariant PackFrom(sizes, size, k) == Some(done) && |done| == |textures| - k
      invariant Elements(inserted) == Elements(done)
      invariant SortedByRow(inserted) && NotHigher(inserted, maxTexHeight)
      invariant AllShown(atlas.pixels[..], size, textures, done)
    {
      k := k - 1;
      var t := textures[k];
      assert t in textures;
      var r := FirstFit(inserted, maxTexHeight, SizeOf(t), size);
      if r.None? {
        NoPlace(sizes, size, k, done);
        return None;
      }
      PlacedNext(sizes, size, k, done, r.value);
      ghost var before, higher := inserted, maxTexHeight;
      inserted := Insert(inserted, r.value);
      if t.height > maxTexHeight {
        maxTexHeight := t.height;
      }
      StillNotHigher(before, higher, inserted, r.value, maxTexHeight);
      BlitOne(textures, atlas, k, done, r.value);
      done := done + [r.value];
    }
    PackedApart(sizes, size, 0);
    return Some(done);
  }
}
