/**
 * Budgeted upload of one texture, a few lines of one mipmap at a time
 * (`CAsyncTextureManager::uploadTexturePart`).
 *
 * The driver is foreign code: of `setupTextureEx` and `uploadTexture` only the fact that the driver
 * texture was created, and the rectangle of lines that was sent, are kept.
 */
module TextureUpload {

  datatype Mip = Mip(width: nat, height: nat)

  predicate IsPowerOf2(n: nat) {
    n == 1 || (n > 0 && n % 2 == 0 && IsPowerOf2(n / 2))
  }

  /**
   * What is in memory when an upload starts: the mipmap sizes and the pixel format. A texture file whose
   * sides are not powers of two is replaced when it is loaded (`texture_file.cpp`, lines 200-217), and
   * the HLS manager builds textures of eight bits a pixel (`hls_color_texture.cpp`, line 515).
   */
  datatype Geometry = Geometry(mips: seq<Mip>, bitsPerPixel: nat, dxtc: bool) {
    predicate WellFormed() {
      && (forall m | 0 <= m < |mips| :: mips[m].width >= 1 && mips[m].height >= 1)
      && (dxtc ==> bitsPerPixel == 4 || bitsPerPixel == 8)
      && (bitsPerPixel == 4 ==> forall m | 0 <= m < |mips| :: IsPowerOf2(mips[m].width))
    }

    predicate ValidDXTCMipMap() {
      |mips| > 1 && dxtc
    }

    /** A line of any mipmap, padded to a 4x4 block, is a whole number of bytes. */
    ghost predicate WholeByteLines() {
      forall m | 0 <= m < |mips| :: (Max(mips[m].width, 4) * bitsPerPixel) % 8 == 0
    }

    function Size0(): nat {
      if |mips| == 0 then 0 else mips[0].width * mips[0].height
    }
  }

  /** Next line to upload: `_CurrentUploadTextureMipMap` and `_CurrentUploadTextureLine`. */
  datatype Cursor = Cursor(mip: nat, line: nat)

  /** One `uploadTexture` call: lines [lo, hi) of a mipmap. */
  datatype Range = Range(mip: nat, lo: nat, hi: nat)

  const START := Cursor(0, 0)

  function End(g: Geometry): Cursor {
    Cursor(|g.mips|, 0)
  }

  function Max(a: nat, b: nat): nat {
    if a < b then b else a
  }

  function Min(a: nat, b: nat): nat {
    if a < b then a else b
  }

  ghost predicate CursorOk(g: Geometry, c: Cursor) {
    c == End(g) || (c.mip < |g.mips| && c.line < g.mips[c.mip].height)
  }

  /** Bytes of n lines of width w. */
  function LinesWeight(g: Geometry, w: nat, n: nat): nat {
    n * w * g.bitsPerPixel / 8
  }

  /** Weight of what is left of mipmap `c.mip` at the cursor, as the upload loop counts it. */
  function MipWeight(g: Geometry, c: Cursor): nat
    requires c.mip < |g.mips| && c.line <= g.mips[c.mip].height
  {
    var mip := g.mips[c.mip];
    LinesWeight(g, mip.width, mip.height - c.line)
  }

  /** Weight of one line of mipmap m; DXTC blocks are at least four pixels wide. */
  function LineWeight(g: Geometry, m: nat): nat
    requires m < |g.mips|
  {
    Max(g.mips[m].width, 4) * g.bitsPerPixel / 8
  }

  /** Weight of everything from the cursor to the last mipmap. */
  ghost function RemainingWeight(g: Geometry, c: Cursor): nat
    requires CursorOk(g, c)
    requires g.WellFormed()
    decreases |g.mips| - c.mip
  {
    if c.mip == |g.mips| then 0 else MipWeight(g, c) + RemainingWeight(g, Cursor(c.mip + 1, 0))
  }

  /** Number of lines from the cursor to the last mipmap. */
  ghost function LinesLeft(g: Geometry, c: Cursor): nat
    requires CursorOk(g, c)
    requires g.WellFormed()
    decreases |g.mips| - c.mip
  {
    if c.mip == |g.mips| then 0
    else g.mips[c.mip].height - c.line + LinesLeft(g, Cursor(c.mip + 1, 0))
  }

  /** Nothing is rounded away: the lines of a DXTC texture, padded, are whole bytes. */
  lemma LinesAreWholeBytes(g: Geometry)
    requires g.WellFormed() && g.ValidDXTCMipMap()
    ensures g.WholeByteLines()
  {
    forall m | 0 <= m < |g.mips|
      ensures (Max(g.mips[m].width, 4) * g.bitsPerPixel) % 8 == 0
    {
      var w := g.mips[m].width;
      if g.bitsPerPixel == 4 && w > 4 {
        assert IsPowerOf2(w) && w % 2 == 0;
        assert w * 4 == (w / 2) * 8;
      }
    }
  }

  /** So the weight of n lines is exact: eight bits a byte, and n times that of one line. */
  lemma LinesWeightIs(g: Geometry, m: nat, n: nat)
    requires g.WellFormed() && g.ValidDXTCMipMap() && m < |g.mips| && g.mips[m].width >= 4
    ensures 8 * LinesWeight(g, g.mips[m].width, n) == n * (g.mips[m].width * g.bitsPerPixel)
    ensures LinesWeight(g, g.mips[m].width, n) == n * LineWeight(g, m)
  {
    LinesAreWholeBytes(g);
    var bits := g.mips[m].width * g.bitsPerPixel;
    assert bits % 8 == 0 && bits == 8 * LineWeight(g, m);
    WholeBytes(n, g.mips[m].width, g.bitsPerPixel, LineWeight(g, m));
  }

  lemma WholeBytes(n: nat, w: nat, b: nat, bytes: nat)
    requires w * b == 8 * bytes
    ensures n * w * b / 8 == n * bytes
  {
    assert n * w * b == n * (w * b) == 8 * (n * bytes);
  }

  ghost predicate RangeOk(g: Geometry, r: Range) {
    r.mip < |g.mips| && r.lo < r.hi <= g.mips[r.mip].height
  }

  ghost predicate RangesOk(g: Geometry, ranges: seq<Range>) {
    forall i | 0 <= i < |ranges| :: RangeOk(g, ranges[i])
  }

  function After(g: Geometry, r: Range): Cursor
    requires r.mip < |g.mips|
  {
    if r.hi == g.mips[r.mip].height then Cursor(r.mip + 1, 0) else Cursor(r.mip, r.hi)
  }

  /** The ranges follow each other without gap or overlap and lead from one cursor to another. */
  ghost predicate Chain(g: Geometry, from: Cursor, ranges: seq<Range>, to: Cursor) {
    if ranges == [] then from == to
    else
      var last := ranges[|ranges| - 1];
      && RangeOk(g, last)
      && Chain(g, from, ranges[..|ranges| - 1], Cursor(last.mip, last.lo))
      && to == After(g, last)
  }

  /** Bytes actually sent for a list of ranges. */
  ghost function Bytes(g: Geometry, ranges: seq<Range>): nat
    requires RangesOk(g, ranges)
  {
    if ranges == [] then 0
    else
      var last := ranges[|ranges| - 1];
      Bytes(g, ranges[..|ranges| - 1]) + LinesWeight(g, g.mips[last.mip].width, last.hi - last.lo)
  }

  /** How many of the ranges contain line `line` of mipmap `mip`. */
  ghost function TimesUploaded(ranges: seq<Range>, mip: nat, line: nat): nat {
    if ranges == [] then 0
    else
      var last := ranges[|ranges| - 1];
      TimesUploaded(ranges[..|ranges| - 1], mip, line)
      + (if last.mip == mip && last.lo <= line < last.hi then 1 else 0)
  }

  /**
   * What one call promises. `total` is the upload already done this frame, `resident` the driver's
   * answer that the (shared) texture is already there.
   */
  ghost predicate PartOutcome(
    g: Geometry, c: Cursor, total: nat, budget: nat, resident: bool,
    done: bool, c': Cursor, total': nat, created: bool, ranges: seq<Range>)
    requires g.WellFormed() && CursorOk(g, c)
  {
    if c == START && !g.ValidDXTCMipMap() then
      done && !created && ranges == [] && c' == c && total' == total
    else if c == START && resident then
      done && created && ranges == [] && c' == c && total' == total
    else
      && created == (c == START)
      && CursorOk(g, c')
      && Chain(g, c, ranges, c')
      && (done <==> total + RemainingWeight(g, c) <= budget)
      && (if done then
            && c' == End(g) && RangesOk(g, ranges)
            && total' == total + RemainingWeight(g, c) == total + Bytes(g, ranges)
          else
            total' > budget && LinesLeft(g, c') < LinesLeft(g, c) && CutKeepsBudget(g, total, budget, ranges))
  }

  /**
   * Only the last range of an unfinished frame can pass the budget, and only because fewer than four
   * lines still fitted, and then by at most four lines.
   */
  ghost predicate CutKeepsBudget(g: Geometry, total: nat, budget: nat, ranges: seq<Range>) {
    && ranges != []
    && RangesOk(g, ranges)
    && var before := ranges[..|ranges| - 1];
       var last := ranges[|ranges| - 1];
       && total + Bytes(g, before) <= budget
       && (|| total + Bytes(g, ranges) <= budget
           || (last.hi - last.lo <= 4 && budget - (total + Bytes(g, before)) < 4 * LineWeight(g, last.mip)))
  }

  /**
   * Where a mipmap that does not fit in `size` bytes is cut: at a multiple of four lines, at least
   * four. The cut makes progress, and exceeds `size` only when fewer than four lines fit.
   */
  function CutLine(g: Geometry, c: Cursor, size: nat): (newLine: nat)
    requires g.WellFormed() && g.ValidDXTCMipMap() && CursorOk(g, c) && c.mip < |g.mips|
    ensures c.line < newLine <= g.mips[c.mip].height
    ensures || LinesWeight(g, g.mips[c.mip].width, newLine - c.line) <= size
            || (newLine - c.line <= 4 && size < 4 * LineWeight(g, c.mip))
  {
    var nLineWeight := LineWeight(g, c.mip);
    assert nLineWeight >= 2 by { MulMono(4, Max(g.mips[c.mip].width, 4), g.bitsPerPixel); }
    var nNbLineToUpload := Max(size / nLineWeight / 4, 1) * 4;
    var newLine := Min(c.line + nNbLineToUpload, g.mips[c.mip].height);
    assert || LinesWeight(g, g.mips[c.mip].width, newLine - c.line) <= size
           || (newLine - c.line <= 4 && size < 4 * LineWeight(g, c.mip))
    by {
      LinesAreWholeBytes(g);
      CutWithinBudget(g, c.mip, size, nNbLineToUpload, newLine - c.line);
    }
    newLine
  }

  /**
   * Uploads as much of the texture as the frame budget allows. A mipmap that does not fit is cut at a
   * multiple of four lines, at least four, and ends the frame.
   */
  method UploadTexturePart(g: Geometry, c: Cursor, total: nat, budget: nat, resident: bool)
    returns (done: bool, c': Cursor, total': nat, created: bool, ranges: seq<Range>)
    requires g.WellFormed() && CursorOk(g, c) && total <= budget
    requires c != START ==> g.ValidDXTCMipMap()
    ensures PartOutcome(g, c, total, budget, resident, done, c', total', created, ranges)
  {
    done, c', total', created, ranges := true, c, total, false, [];
    if c'.mip == 0 && c'.line == 0 {
      if !g.ValidDXTCMipMap() {
        return;
      }
      created := true;
      if resident {
        return;
      }
    }

    while c'.mip < |g.mips|
      invariant total' <= budget && Progress(g, c, total, c', total', ranges)
      decreases |g.mips| - c'.mip
    {
      var nWeight := MipWeight(g, c');
      var mip := g.mips[c'.mip];
      if total' + nWeight > budget {
        var nNewLine := CutLine(g, c', budget - total');
        SendCut(g, c, total, budget, resident, c', total', ranges);
        ranges := ranges + [Range(c'.mip, c'.line, nNewLine)];
        if nNewLine == mip.height {
          c' := Cursor(c'.mip + 1, 0);
        } else {
          c' := Cursor(c'.mip, nNewLine);
        }
        total' := total' + nWeight;
        done := false;
        return;
      }
      SendRest(g, c, total, c', total', ranges);
      ranges := ranges + [Range(c'.mip, c'.line, mip.height)];
      total' := total' + nWeight;
      c' := Cursor(c'.mip + 1, 0);
    }
  }

  /** Loop invariant of the upload: `total'` counts exactly the bytes sent, and nothing is skipped. */
  ghost predicate Progress(g: Geometry, c: Cursor, total: nat, c': Cursor, total': nat, ranges: seq<Range>)
    requires g.WellFormed() && CursorOk(g, c)
  {
    && CursorOk(g, c')
    && Chain(g, c, ranges, c')
    && RangesOk(g, ranges)
    && total' + RemainingWeight(g, c') == total + RemainingWeight(g, c)
    && total' == total + Bytes(g, ranges)
    && LinesLeft(g, c') <= LinesLeft(g, c)
  }

  lemma SendRest(g: Geometry, c: Cursor, total: nat, at: Cursor, total': nat, ranges: seq<Range>)
    requires g.WellFormed() && CursorOk(g, c) && at.mip < |g.mips|
    requires Progress(g, c, total, at, total', ranges)
    ensures Progress(g, c, total, Cursor(at.mip + 1, 0), total' + MipWeight(g, at),
                     ranges + [Range(at.mip, at.line, g.mips[at.mip].height)])
  {
    SendRange(g, c, ranges, Range(at.mip, at.line, g.mips[at.mip].height));
  }

  lemma SendCut(g: Geometry, c: Cursor, total: nat, budget: nat, resident: bool,
                at: Cursor, total': nat, ranges: seq<Range>)
    requires g.WellFormed() && CursorOk(g, c) && at.mip < |g.mips| && g.ValidDXTCMipMap()
    requires c == START ==> !resident
    requires Progress(g, c, total, at, total', ranges)
    requires total' <= budget < total' + MipWeight(g, at)
    ensures var r := Range(at.mip, at.line, CutLine(g, at, budget - total'));
            PartOutcome(g, c, total, budget, resident,
                        false, After(g, r), total' + MipWeight(g, at), c == START, ranges + [r])
  {
    var r := Range(at.mip, at.line, CutLine(g, at, budget - total'));
    SendRange(g, c, ranges, r);
    assert (ranges + [r])[..|ranges|] == ranges;
  }

  /** Effect of one `uploadTexture` call on everything that is counted. */
  lemma SendRange(g: Geometry, from: Cursor, sent: seq<Range>, r: Range)
    requires g.WellFormed() && RangeOk(g, r) && RangesOk(g, sent)
    requires Chain(g, from, sent, Cursor(r.mip, r.lo))
    ensures RangesOk(g, sent + [r])
    ensures Chain(g, from, sent + [r], After(g, r)) && CursorOk(g, After(g, r))
    ensures Bytes(g, sent + [r]) == Bytes(g, sent) + LinesWeight(g, g.mips[r.mip].width, r.hi - r.lo)
    ensures LinesLeft(g, After(g, r)) == LinesLeft(g, Cursor(r.mip, r.lo)) - (r.hi - r.lo)
  {
    assert (sent + [r])[..|sent|] == sent;
  }

  /** The arithmetic of a cut: n lines are planned, k of them exist. */
  lemma CutWithinBudget(g: Geometry, m: nat, size: nat, n: nat, k: nat)
    requires m < |g.mips| && LineWeight(g, m) > 0
    requires n == Max(size / LineWeight(g, m) / 4, 1) * 4 && k <= n
    requires g.WholeByteLines()
    ensures LinesWeight(g, g.mips[m].width, k) <= size || (k <= 4 && size < 4 * LineWeight(g, m))
  {
    var w := g.mips[m].width;
    var padded := Max(w, 4);
    var weight := LineWeight(g, m);
    var fit := size / weight;
    if fit >= 4 {
      CutFits(k, n, w, padded, g.bitsPerPixel, weight);
      QuotientMul(size, weight, n);
    } else {
      assert fit / 4 == 0;
      QuotientBelow(size, weight, 4);
    }
  }

  lemma CutFits(k: nat, n: nat, w: nat, padded: nat, bits: nat, weight: nat)
    requires k <= n && w <= padded && padded * bits == 8 * weight
    ensures k * w * bits / 8 <= n * weight
  {
    MulMono(k, n, w);
    MulMono(w, padded, n);
    MulMono(k * w, n * padded, bits);
    assert n * padded * bits == n * (padded * bits) == 8 * (n * weight);
  }

  lemma MulMono(a: nat, b: nat, c: nat)
    requires a <= b
    ensures a * c <= b * c && c * a <= c * b
  {
  }

  lemma QuotientMul(size: nat, weight: nat, n: nat)
    requires weight > 0 && n <= size / weight
    ensures n * weight <= size
  {
    MulMono(n, size / weight, weight);
  }

  lemma QuotientBelow(size: nat, weight: nat, n: nat)
    requires weight > 0 && size / weight < n
    ensures size < n * weight
  {
    MulMono(size / weight + 1, n, weight);
  }

  // ---- Whole runs: the calls made for one texture over successive frames ----

  /** One call of UploadTexturePart, with the budget state of its frame and what it answered. */
  datatype Call = Call(total: nat, budget: nat, resident: bool,
                       done: bool, to: Cursor, total': nat, created: bool, ranges: seq<Range>)

  /** Calls made one after the other for the same texture; only the last one may have finished. */
  ghost predicate Run(g: Geometry, from: Cursor, calls: seq<Call>, to: Cursor)
    requires g.WellFormed() && CursorOk(g, from)
    decreases calls
  {
    if calls == [] then from == to
    else
      var k := calls[0];
      && PartOutcome(g, from, k.total, k.budget, k.resident, k.done, k.to, k.total', k.created, k.ranges)
      && (k.done ==> |calls| == 1)
      && CursorOk(g, k.to)
      && Run(g, k.to, calls[1..], to)
  }

  function AllRanges(calls: seq<Call>): seq<Range> {
    if calls == [] then [] else calls[0].ranges + AllRanges(calls[1..])
  }

  function TimesCreated(calls: seq<Call>): nat {
    if calls == [] then 0 else (if calls[0].created then 1 else 0) + TimesCreated(calls[1..])
  }

  /** A run, extended by one more call. */
  lemma {:induction false} RunAppend(g: Geometry, from: Cursor, calls: seq<Call>, mid: Cursor, k: Call)
    requires g.WellFormed() && CursorOk(g, from) && Run(g, from, calls, mid)
    requires Unfinished(calls) && CursorOk(g, mid) && CursorOk(g, k.to)
    requires PartOutcome(g, mid, k.total, k.budget, k.resident, k.done, k.to, k.total', k.created, k.ranges)
    ensures Run(g, from, calls + [k], k.to)
    decreases calls
  {
    if calls == [] {
      assert (calls + [k])[1..] == [];
    } else {
      RunAppend(g, calls[0].to, calls[1..], mid, k);
      assert (calls + [k])[1..] == calls[1..] + [k];
    }
  }

  ghost predicate Unfinished(calls: seq<Call>) {
    forall k | 0 <= k < |calls| :: !calls[k].done
  }

  lemma {:induction false} ChainConcat(g: Geometry, a: Cursor, r1: seq<Range>, b: Cursor, r2: seq<Range>, c: Cursor)
    requires Chain(g, a, r1, b) && Chain(g, b, r2, c)
    ensures Chain(g, a, r1 + r2, c)
  {
    if r2 == [] {
      assert r1 + r2 == r1;
    } else {
      var last := r2[|r2| - 1];
      ChainConcat(g, a, r1, b, r2[..|r2| - 1], Cursor(last.mip, last.lo));
      assert (r1 + r2)[..|r1 + r2| - 1] == r1 + r2[..|r2| - 1];
    }
  }

  ghost predicate Before(mip: nat, line: nat, c: Cursor) {
    mip < c.mip || (mip == c.mip && line < c.line)
  }

  /** A gapless chain from the start uploads each line before its end once, and no other line. */
  lemma {:induction false} ChainUploadsOnce(g: Geometry, ranges: seq<Range>, to: Cursor, mip: nat, line: nat)
    requires Chain(g, START, ranges, to)
    requires mip < |g.mips| && line < g.mips[mip].height
    ensures TimesUploaded(ranges, mip, line) == if Before(mip, line, to) then 1 else 0
  {
    if ranges != [] {
      var last := ranges[|ranges| - 1];
      ChainUploadsOnce(g, ranges[..|ranges| - 1], Cursor(last.mip, last.lo), mip, line);
    }
  }

  /** The ranges of a run form one chain. */
  lemma {:induction false} RunChains(g: Geometry, from: Cursor, calls: seq<Call>, to: Cursor)
    requires g.WellFormed() && CursorOk(g, from) && Run(g, from, calls, to)
    requires from == START ==> g.ValidDXTCMipMap() && (calls != [] ==> !calls[0].resident)
    ensures CursorOk(g, to)
    ensures Chain(g, from, AllRanges(calls), to)
    ensures calls != [] && calls[|calls| - 1].done ==> to == End(g)
    ensures TimesCreated(calls) == if calls != [] && from == START then 1 else 0
    decreases calls
  {
    if calls != [] {
      var k := calls[0];
      FirstCallChains(g, from, calls, to);
      hide PartOutcome, Chain;
      if k.done {
        assert calls == [k] && calls[1..] == [];
        assert AllRanges(calls) == k.ranges + [] == k.ranges;
      } else {
        RunChains(g, k.to, calls[1..], to);
        ChainConcat(g, from, k.ranges, k.to, AllRanges(calls[1..]), to);
      }
    }
  }

  lemma FirstCallChains(g: Geometry, from: Cursor, calls: seq<Call>, to: Cursor)
    requires g.WellFormed() && CursorOk(g, from) && Run(g, from, calls, to) && calls != []
    requires from == START ==> g.ValidDXTCMipMap() && !calls[0].resident
    ensures var k := calls[0];
            && CursorOk(g, k.to) && Chain(g, from, k.ranges, k.to)
            && (k.created <==> from == START) && (k.done ==> k.to == End(g)) && (!k.done ==> k.to != START)
  {
    var k := calls[0];
    NoReturnToStart(g, from, k.ranges, k.to);
    hide Chain, RemainingWeight, LinesLeft, CutKeepsBudget, Bytes;
  }

  lemma NoReturnToStart(g: Geometry, from: Cursor, ranges: seq<Range>, to: Cursor)
    requires Chain(g, from, ranges, to) && (from == START ==> |g.mips| > 0 && to != from)
    ensures from == START || ranges != [] ==> to != START
  {
  }

  /** Every unfinished call uploads at least one more line. */
  lemma {:induction false} RunProgress(g: Geometry, from: Cursor, calls: seq<Call>, to: Cursor)
    requires g.WellFormed() && CursorOk(g, from) && Run(g, from, calls, to)
    ensures CursorOk(g, to)
    ensures |calls| <= LinesLeft(g, from) + 1
    ensures calls != [] && !calls[|calls| - 1].done ==> |calls| <= LinesLeft(g, from)
    decreases calls
  {
    if calls != [] && |calls| > 1 {
      RunProgress(g, calls[0].to, calls[1..], to);
    }
  }

  /**
   * Main result. However the frame budgets and the other uploads of each frame fall, a finished run
   * created the driver texture once, uploaded every line of every mipmap exactly once, and took at
   * most one call more than the texture has lines.
   */
  lemma UploadIsComplete(g: Geometry, calls: seq<Call>, to: Cursor)
    requires g.WellFormed() && g.ValidDXTCMipMap()
    requires Run(g, START, calls, to)
    requires calls != [] && !calls[0].resident && calls[|calls| - 1].done
    ensures forall mip, line | 0 <= mip < |g.mips| && 0 <= line < g.mips[mip].height ::
              TimesUploaded(AllRanges(calls), mip, line) == 1
    ensures TimesCreated(calls) == 1
    ensures |calls| <= LinesLeft(g, START) + 1
  {
    RunChains(g, START, calls, to);
    RunProgress(g, START, calls, to);
    forall mip, line | 0 <= mip < |g.mips| && 0 <= line < g.mips[mip].height
      ensures TimesUploaded(AllRanges(calls), mip, line) == 1
    {
      ChainUploadsOnce(g, AllRanges(calls), to, mip, line);
    }
  }
}
