/**
 The double-stranded genome grid: a 2 x W array of small integer tags,
 row 0 the top strand and row 1 the bottom strand. Tag 0 means the cell is
 unassigned; the element classes write tags 1 to 4.
 */
module Grids {
  import opened Numbers

  type Grid = seq<seq<int>>

  /** A run of `len` cells starting at column `start` of one strand. */
  datatype Span = Span(strand: nat, start: nat, len: nat)

  /** The grid the placer works on: two strands of equal width. */
  predicate Shaped(g: Grid)
  {
    |g| == 2 && |g[0]| == |g[1]|
  }

  function Width(g: Grid): nat
    requires Shaped(g)
  {
    |g[0]|
  }

  predicate NonNegativeGrid(g: Grid)
  {
    forall s :: 0 <= s < |g| ==> NonNegative(g[s])
  }

  /** Every cell of the grid holds a tag in `[lo, hi]`. */
  predicate TagsWithin(g: Grid, lo: int, hi: int)
  {
    forall s, c :: 0 <= s < |g| && 0 <= c < |g[s]| ==> lo <= g[s][c] <= hi
  }

  /** `initialize_grid`: a `height` x `width` grid of zeros. */
  function InitializeGrid(height: nat, width: nat): (g: Grid)
    ensures |g| == height
    ensures forall s :: 0 <= s < height ==> |g[s]| == width && AllZero(g[s])
    ensures height == 2 ==> Shaped(g) && Width(g) == width && TagsWithin(g, 0, 0)
  {
    seq(height, _ => seq(width, _ => 0))
  }

  predicate InBounds(sp: Span, width: nat)
  {
    sp.strand < 2 && sp.start + sp.len <= width
  }

  /** Cell `c` of strand `s` lies inside the span. */
  predicate Covers(sp: Span, s: int, c: int)
  {
    sp.strand == s && sp.start <= c < sp.start + sp.len
  }

  /** Every cell of the span holds the unassigned tag. */
  predicate Free(g: Grid, sp: Span)
    requires Shaped(g) && InBounds(sp, Width(g))
  {
    forall c :: sp.start <= c < sp.start + sp.len ==> g[sp.strand][c] == 0
  }

  /** The row with the cells `[start, start + len)` overwritten by `tag`. */
  function Fill(row: seq<int>, start: nat, len: nat, tag: int): (r: seq<int>)
    requires start + len <= |row|
    ensures |r| == |row|
    ensures forall c :: 0 <= c < |r| ==> r[c] == if start <= c < start + len then tag else row[c]
  {
    row[..start] + seq(len, _ => tag) + row[start + len..]
  }

  /**
   Writing `tag` into a span (`grid[strand, start:start+len] = tag`): exactly
   the span's cells change, the other strand and every other cell keep their
   value.
   */
  function Commit(g: Grid, sp: Span, tag: int): (h: Grid)
    requires Shaped(g) && InBounds(sp, Width(g))
    ensures Shaped(h) && Width(h) == Width(g)
    ensures forall s, c :: 0 <= s < 2 && 0 <= c < Width(g) ==>
              h[s][c] == if Covers(sp, s, c) then tag else g[s][c]
  {
    g[sp.strand := Fill(g[sp.strand], sp.start, sp.len, tag)]
  }

  /** The number of cells of either strand holding `t`. */
  function CountGrid(g: Grid, t: int): nat
    requires Shaped(g)
  {
    Count(g[0], t) + Count(g[1], t)
  }

  /** Filling a free run moves `len` cells from tag 0 to `tag`; no other tag's count changes. */
  lemma FillCount(row: seq<int>, start: nat, len: nat, tag: int, t: int)
    requires start + len <= |row|
    requires forall c :: start <= c < start + len ==> row[c] == 0
    ensures Count(Fill(row, start, len, tag), t)
            == Count(row, t) - (if t == 0 then len else 0) + (if t == tag then len else 0)
  {
    var pre, mid, post := row[..start], row[start..start + len], row[start + len..];
    assert row == pre + mid + post;
    assert mid == seq(len, _ => 0);
    CountAppend(pre + mid, post, t);
    CountAppend(pre, mid, t);
    CountConstant(len, 0, t);
    var filled := seq(len, _ => tag);
    assert Fill(row, start, len, tag) == pre + filled + post;
    CountAppend(pre + filled, post, t);
    CountAppend(pre, filled, t);
    CountConstant(len, tag, t);
  }

  lemma CommitCount(g: Grid, sp: Span, tag: int, t: int)
    requires Shaped(g) && InBounds(sp, Width(g)) && Free(g, sp)
    ensures CountGrid(Commit(g, sp, tag), t)
            == CountGrid(g, t) - (if t == 0 then sp.len else 0) + (if t == tag then sp.len else 0)
  {
    FillCount(g[sp.strand], sp.start, sp.len, tag, t);
  }

  /** The emptiness test on a span, for a grid with no negative cell, is exactly `Free`. */
  lemma SpanSumZeroIffFree(g: Grid, sp: Span)
    requires Shaped(g) && InBounds(sp, Width(g)) && NonNegativeGrid(g)
    ensures Sum(g[sp.strand][sp.start..sp.start + sp.len]) == 0 <==> Free(g, sp)
  {
    var slice := g[sp.strand][sp.start..sp.start + sp.len];
    assert NonNegative(g[sp.strand]);
    assert NonNegative(slice) by {
      forall i | 0 <= i < |slice| ensures 0 <= slice[i] {
        assert slice[i] == g[sp.strand][sp.start + i];
      }
    }
    SumZeroIffAllZero(slice);
    if AllZero(slice) {
      forall c | sp.start <= c < sp.start + sp.len ensures g[sp.strand][c] == 0 {
        assert g[sp.strand][c] == slice[c - sp.start];
      }
    }
    if Free(g, sp) {
      forall i | 0 <= i < |slice| ensures slice[i] == 0 {
        assert slice[i] == g[sp.strand][sp.start + i];
      }
    }
  }

  /** The zero grid holds no cell of a nonzero tag and `2 * width` cells of tag 0. */
  lemma InitialCounts(width: nat, t: int)
    ensures CountGrid(InitializeGrid(2, width), t) == if t == 0 then 2 * width else 0
  {
    var g := InitializeGrid(2, width);
    assert g[0] == seq(width, _ => 0) && g[1] == seq(width, _ => 0);
    CountConstant(width, 0, t);
  }
}
