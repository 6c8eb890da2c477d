/**
 * Placement of the textures of the coarse meshes in one big texture (`CCoarseMeshBuild::buildBitmap`).
 *
 * The source scans the positions row by row, but tests only the textures of a window of the placed ones
 * and jumps over the one it collides with. The reference here tests every position against all of them.
 */
module TexturePacking {
  import opened Wrappers

  datatype Size = Size(width: nat, height: nat)

  datatype Rect = Rect(u: nat, v: nat, width: nat, height: nat)

  function At(s: Size, u: nat, v: nat): Rect {
    Rect(u, v, s.width, s.height)
  }

  predicate Overlaps(a: Rect, b: Rect) {
    && a.v < b.v + b.height && a.v + a.height > b.v
    && a.u < b.u + b.width && a.u + a.width > b.u
  }

  ghost function Cells(r: Rect): iset<(int, int)> {
    iset x: int, y: int | r.u <= x < r.u + r.width && r.v <= y < r.v + r.height :: (x, y)
  }

  /** Two textures that are not empty overlap if and only if they have a cell in common. */
  lemma OverlapsMeans(a: Rect, b: Rect)
    requires a.width > 0 && a.height > 0 && b.width > 0 && b.height > 0
    ensures Overlaps(a, b) <==> exists c :: c in Cells(a) && c in Cells(b)
  {
    if Overlaps(a, b) {
      var x, y := if a.u < b.u then b.u else a.u, if a.v < b.v then b.v else a.v;
      assert (x, y) in Cells(a) && (x, y) in Cells(b);
    }
  }

  ghost predicate Free(placed: set<Rect>, r: Rect) {
    forall o | o in placed :: !Overlaps(r, o)
  }

  const UINT_LIMIT: nat := 0x1_0000_0000

  /** Where the scan ends. The difference is unsigned: a texture larger than the atlas makes it huge. */
  function Limit(size: nat, atlas: nat): nat {
    if size <= atlas then atlas - size else (atlas - size) % UINT_LIMIT
  }

  /** The positions tried: the last row and column that would fit are not among them. */
  ghost predicate Tried(s: Size, atlas: Size, u: nat, v: nat) {
    u < Limit(s.width, atlas.width) && v < Limit(s.height, atlas.height)
  }

  /** A texture no larger than the atlas stays inside, and clear of the last row and column. */
  lemma TriedAre(s: Size, atlas: Size, u: nat, v: nat)
    requires s.width <= atlas.width && s.height <= atlas.height
    ensures Tried(s, atlas, u, v) <==> u + s.width < atlas.width && v + s.height < atlas.height
  {
  }

  /** (a, b) comes before (u, v) row by row. */
  ghost predicate Before(a: nat, b: nat, u: nat, v: nat) {
    b < v || (b == v && a < u)
  }

  /** First free position of row v from column u on. */
  ghost function ScanRow(placed: set<Rect>, s: Size, atlas: Size, v: nat, u: nat): Option<nat>
    decreases Limit(s.width, atlas.width) - u
  {
    if u >= Limit(s.width, atlas.width) then None
    else if Free(placed, At(s, u, v)) then Some(u)
    else ScanRow(placed, s, atlas, v, u + 1)
  }

  /** First free position from row v on. */
  ghost function Scan(placed: set<Rect>, s: Size, atlas: Size, v: nat): Option<Rect>
    decreases Limit(s.height, atlas.height) - v
  {
    if v >= Limit(s.height, atlas.height) then None
    else
      match ScanRow(placed, s, atlas, v, 0)
      case Some(u) => Some(At(s, u, v))
      case None => Scan(placed, s, atlas, v + 1)
  }

  ghost predicate IsFirstFree(placed: set<Rect>, s: Size, atlas: Size, r: Rect) {
    && r == At(s, r.u, r.v) && Tried(s, atlas, r.u, r.v) && Free(placed, r)
    && forall a: nat, b: nat | Tried(s, atlas, a, b) && Before(a, b, r.u, r.v) :: !Free(placed, At(s, a, b))
  }

  ghost predicate NothingFree(placed: set<Rect>, s: Size, atlas: Size) {
    forall a: nat, b: nat | Tried(s, atlas, a, b) :: !Free(placed, At(s, a, b))
  }

  lemma {:induction false} ScanRowIsFirst(placed: set<Rect>, s: Size, atlas: Size, v: nat, u: nat)
    ensures match ScanRow(placed, s, atlas, v, u)
            case Some(x) =>
              && u <= x < Limit(s.width, atlas.width) && Free(placed, At(s, x, v))
              && forall a | u <= a < x :: !Free(placed, At(s, a, v))
            case None => forall a | u <= a < Limit(s.width, atlas.width) :: !Free(placed, At(s, a, v))
    decreases Limit(s.width, atlas.width) - u
  {
    if u < Limit(s.width, atlas.width) && !Free(placed, At(s, u, v)) {
      ScanRowIsFirst(placed, s, atlas, v, u + 1);
    }
  }

  lemma {:induction false} ScanIsFirst(placed: set<Rect>, s: Size, atlas: Size, v: nat)
    requires forall a: nat, b: nat | Tried(s, atlas, a, b) && b < v :: !Free(placed, At(s, a, b))
    ensures match Scan(placed, s, atlas, v)
            case Some(r) => IsFirstFree(placed, s, atlas, r)
            case None => NothingFree(placed, s, atlas)
    decreases Limit(s.height, atlas.height) - v
  {
    if v < Limit(s.height, atlas.height) {
      ScanRowIsFirst(placed, s, atlas, v, 0);
      if ScanRow(placed, s, atlas, v, 0).None? {
        ScanIsFirst(placed, s, atlas, v + 1);
      }
    }
  }

  /** Rows and columns that cannot be free are skipped without changing what is found. */
  lemma {:induction false} SkipColumns(placed: set<Rect>, s: Size, atlas: Size, v: nat, u: nat, x: nat)
    requires u <= x && forall a | u <= a < x :: !Free(placed, At(s, a, v))
    ensures ScanRow(placed, s, atlas, v, u) == ScanRow(placed, s, atlas, v, x)
    decreases x - u
  {
    if u < x {
      SkipColumns(placed, s, atlas, v, u + 1, x);
    }
  }

  /** Behind a texture it collides with, a texture collides all along. */
  lemma CollidesAlong(s: Size, u: nat, v: nat, o: Rect, x: nat)
    requires Overlaps(At(s, u, v), o) && u <= x < o.u + o.width
    ensures Overlaps(At(s, x, v), o)
  {
  }

  // ---- The reference placement ----

  ghost function Elements(p: seq<Rect>): set<Rect> {
    set r | r in p
  }

  /** The textures from the k-th on, placed from the last one down. */
  ghost function PackFrom(textures: seq<Size>, atlas: Size, k: nat): Option<seq<Rect>>
    requires k <= |textures|
    decreases |textures| - k
  {
    if k == |textures| then Some([])
    else
      match PackFrom(textures, atlas, k + 1)
      case None => None
      case Some(p) =>
        match Scan(Elements(p), textures[k], atlas, 0)
        case None => None
        case Some(r) => Some(p + [r])
  }

  ghost predicate Inside(r: Rect, atlas: Size) {
    r.u + r.width < atlas.width && r.v + r.height < atlas.height
  }

  ghost predicate Disjoint(p: seq<Rect>) {
    forall i, j | 0 <= i < j < |p| :: !Overlaps(p[j], p[i])
  }

  ghost predicate Fits(s: Size, atlas: Size) {
    s.width <= atlas.width && s.height <= atlas.height
  }

  /** Every texture is placed with its own size, over no other one, inside the atlas if it fits there. */
  lemma {:induction false} PackedApart(textures: seq<Size>, atlas: Size, k: nat)
    requires k <= |textures| && PackFrom(textures, atlas, k).Some?
    ensures var p := PackFrom(textures, atlas, k).value;
            && |p| == |textures| - k && Disjoint(p)
            && forall i | 0 <= i < |p| ::
                 var s := textures[|textures| - 1 - i];
                 p[i] == At(s, p[i].u, p[i].v) && (Inside(p[i], atlas) <==> Fits(s, atlas))
    decreases |textures| - k
  {
    if k < |textures| {
      PackedApart(textures, atlas, k + 1);
      var p := PackFrom(textures, atlas, k + 1).value;
      ScanIsFirst(Elements(p), textures[k], atlas, 0);
      var r := Scan(Elements(p), textures[k], atlas, 0).value;
      forall i | 0 <= i < |p|
        ensures !Overlaps(r, p[i])
      {
        assert p[i] in Elements(p);
      }
    }
  }

  /** The placement fails only on a texture for which no tried position is free. */
  lemma {:induction false} PackFailsOnlyIfFull(textures: seq<Size>, atlas: Size, k: nat) returns (j: nat)
    requires k <= |textures| && PackFrom(textures, atlas, k).None?
    ensures k <= j < |textures| && PackFrom(textures, atlas, j + 1).Some?
    ensures NothingFree(Elements(PackFrom(textures, atlas, j + 1).value), textures[j], atlas)
    decreases |textures| - k
  {
    if PackFrom(textures, atlas, k + 1).Some? {
      ScanIsFirst(Elements(PackFrom(textures, atlas, k + 1).value), textures[k], atlas, 0);
      j := k;
    } else {
      j := PackFailsOnlyIfFull(textures, atlas, k + 1);
    }
  }

  /**
   * A single texture is placed if and only if none of its sides is that of the atlas: the flush
   * positions are never tried, and a texture larger than the atlas is placed all the same.
   */
  lemma SingleTexture(s: Size, atlas: Size)
    requires s.width < UINT_LIMIT && s.height < UINT_LIMIT
    ensures PackFrom([s], atlas, 0).Some? <==> s.width != atlas.width && s.height != atlas.height
  {
    assert PackFrom([s], atlas, 1) == Some([]);
    assert Elements([]) == {};
    ScanIsFirst({}, s, atlas, 0);
    if s.width != atlas.width && s.height != atlas.height {
      assert Tried(s, atlas, 0, 0) && Free({}, At(s, 0, 0));
    }
  }

  // ---- The windowed scan ----

  ghost predicate SortedByRow(inserted: seq<Rect>) {
    forall i, j | 0 <= i < j < |inserted| :: inserted[i].v <= inserted[j].v
  }

  ghost predicate NotHigher(inserted: seq<Rect>, maxTexHeight: nat) {
    forall i | 0 <= i < |inserted| :: inserted[i].height <= maxTexHeight
  }

  /** `lower_bound` on the row. */
  method LowerBound(inserted: seq<Rect>, row: int) returns (k: nat)
    requires SortedByRow(inserted)
    ensures k <= |inserted|
    ensures forall i | 0 <= i < k :: inserted[i].v < row
    ensures forall i | k <= i < |inserted| :: inserted[i].v >= row
  {
    k := 0;
    while k < |inserted| && inserted[k].v < row
      invariant k <= |inserted|
      invariant forall i | 0 <= i < k :: inserted[i].v < row
    {
      k := k + 1;
    }
  }

  /** The first placed texture of the window that collides, if any of all the placed ones does. */
  method Collision(inserted: seq<Rect>, maxTexHeight: nat, r: Rect) returns (hit: Option<Rect>)
    requires SortedByRow(inserted) && NotHigher(inserted, maxTexHeight)
    ensures hit.None? ==> Free(Elements(inserted), r)
    ensures hit.Some? ==> hit.value in inserted && Overlaps(r, hit.value)
  {
    var k := LowerBound(inserted, r.v - maxTexHeight);
    while k < |inserted| && r.v + r.height > inserted[k].v
      invariant k <= |inserted|
      invariant forall i | 0 <= i < k :: !Overlaps(r, inserted[i])
    {
      if Overlaps(r, inserted[k]) {
        return Some(inserted[k]);
      }
      k := k + 1;
    }
    return None;
  }

  /** The scan of one texture. */
  method FirstFit(inserted: seq<Rect>, maxTexHeight: nat, s: Size, atlas: Size) returns (r: Option<Rect>)
    requires SortedByRow(inserted) && NotHigher(inserted, maxTexHeight)
    ensures r == Scan(Elements(inserted), s, atlas, 0)
  {
    ghost var placed := Elements(inserted);
    var widthMax: int, heightMax: int := Limit(s.width, atlas.width), Limit(s.height, atlas.height);
    var v := 0;
    while v < heightMax
      invariant Scan(placed, s, atlas, 0) == Scan(placed, s, atlas, v)
    {
      var u := 0;
      while u < widthMax
        invariant ScanRow(placed, s, atlas, v, 0) == ScanRow(placed, s, atlas, v, u)
        decreases widthMax - u
      {
        var hit := Collision(inserted, maxTexHeight, At(s, u, v));
        match hit
        case None =>
          return Some(At(s, u, v));
        case Some(o) =>
          forall a | u <= a < o.u + o.width
            ensures !Free(placed, At(s, a, v))
          {
            CollidesAlong(s, u, v, o, a);
          }
          SkipColumns(placed, s, atlas, v, u, o.u + o.width);
          u := o.u + o.width - 1;
          u := u + 1;
      }
      v := v + 1;
    }
    return None;
  }
}
