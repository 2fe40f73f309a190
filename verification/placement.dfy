/**
 The grid placer `populate_grid`: for every element length it repeatedly
 draws a strand and a start column and claims the span when it is empty.

 The random generator is an explicit stream of raw draws. Each call to
 `randint(lo, hi)` consumes one draw; when the stream runs out the placer
 stops with `Exhausted`, which bounds the otherwise unbounded retry loop.
 */
module Placement {
  import opened Numbers
  import opened Grids

  /** Why a placement could not complete. */
  datatype Failure =
    | EmptyRange  // numpy's randint(low, high) with high <= low raises ValueError
    | Exhausted   // the random stream ran out before a free span was drawn

  datatype Result<T> = Ok(value: T) | Err(failure: Failure)

  /** `numpy.random.randint(lo, hi)`: a value of `[lo, hi)` taken from the stream. */
  function RandInt(lo: int, hi: int, rng: seq<nat>): (r: Result<(int, seq<nat>)>)
    ensures r.Ok? <==> lo < hi && 0 < |rng|
    ensures r.Ok? ==> lo <= r.value.0 < hi && r.value.1 == rng[1..]
    ensures r.Err? ==> (r.failure == EmptyRange <==> hi <= lo)
  {
    if hi <= lo then Err(EmptyRange)
    else if |rng| == 0 then Err(Exhausted)
    else Ok((lo + rng[0] % (hi - lo), rng[1..]))
  }

  /** Every value of the range is drawn by some stream, so the streams cover every run. */
  lemma RandIntCovers(lo: int, hi: int, v: int, rest: seq<nat>)
    requires lo <= v < hi
    ensures RandInt(lo, hi, [v - lo] + rest) == Ok((v, rest))
  {
    assert ([v - lo] + rest)[1..] == rest;
  }

  /** The outcome of one pass of the retry loop. */
  datatype Trial = Trial(span: Span, placed: bool, grid: Grid, rng: seq<nat>)

  /**
   One pass of the retry loop: draw a strand from `{0, 1}`, draw a start from
   `[0, W - len)`, and commit the span when the sum of its cells is zero. A
   rejected pass leaves the grid as it was.
   */
  function Attempt(g: Grid, len: nat, tag: int, rng: seq<nat>): (r: Result<Trial>)
    requires Shaped(g)
    ensures r.Err? <==> |rng| < 2 || Width(g) <= len
    ensures r.Err? ==> (r.failure == EmptyRange <==> 0 < |rng| && Width(g) <= len)
    ensures r.Ok? ==>
              && r.value.span.len == len
              && r.value.span.strand < 2
              && r.value.span.start + len < Width(g)
              && r.value.rng == rng[2..]
              && r.value.grid == (if r.value.placed then Commit(g, r.value.span, tag) else g)
  {
    match RandInt(0, 2, rng)
    case Err(e) => Err(e)
    case Ok((strand, afterStrand)) =>
      match RandInt(0, Width(g) - len, afterStrand)
      case Err(e) => Err(e)
      case Ok((start, afterStart)) =>
        var sp := Span(strand, start, len);
        if Sum(g[strand][start..start + len]) == 0 then
          Ok(Trial(sp, true, Commit(g, sp, tag), afterStart))
        else
          Ok(Trial(sp, false, g, afterStart))
  }

  /** On a grid with no negative cell, a pass commits exactly when its drawn span is free. */
  lemma AttemptCommitsIffFree(g: Grid, len: nat, tag: int, rng: seq<nat>)
    requires Shaped(g) && NonNegativeGrid(g)
    requires Attempt(g, len, tag, rng).Ok?
    ensures var t := Attempt(g, len, tag, rng).value;
            t.placed <==> Free(g, t.span)
  {
    var t := Attempt(g, len, tag, rng).value;
    SpanSumZeroIffFree(g, t.span);
  }

  /** A placed element: its span, the grid after the write, and the rest of the stream. */
  datatype Placed = Placed(span: Span, grid: Grid, rng: seq<nat>)

  /**
   The `while not placed` loop for one element: retry until a pass commits.
   The committed span lies on strand 0 or 1 and ends before column `W - 1`.
   */
  function PlaceOne(g: Grid, len: nat, tag: int, rng: seq<nat>): (r: Result<Placed>)
    requires Shaped(g)
    ensures r.Ok? ==>
              && r.value.span.len == len
              && r.value.span.strand < 2
              && r.value.span.start + len < Width(g)
              && r.value.grid == Commit(g, r.value.span, tag)
              && |r.value.rng| < |rng|
    ensures Width(g) <= len ==> r.Err?
    ensures r.Err? && r.failure == EmptyRange ==> Width(g) <= len
    decreases |rng|
  {
    match Attempt(g, len, tag, rng)
    case Err(e) => Err(e)
    case Ok(t) =>
      if t.placed then Ok(Placed(t.span, t.grid, t.rng))
      else PlaceOne(g, len, tag, t.rng)
  }

  /** A placed element was written only over unassigned cells. */
  lemma {:induction false} PlaceOneFree(g: Grid, len: nat, tag: int, rng: seq<nat>)
    requires Shaped(g) && NonNegativeGrid(g)
    requires PlaceOne(g, len, tag, rng).Ok?
    ensures Free(g, PlaceOne(g, len, tag, rng).value.span)
    decreases |rng|
  {
    var t := Attempt(g, len, tag, rng).value;
    AttemptCommitsIffFree(g, len, tag, rng);
    if !t.placed {
      PlaceOneFree(g, len, tag, t.rng);
    }
  }

  /**
   A rejected pass drew an occupied span, and the loop continues from the
   same grid with the rest of the stream.
   */
  lemma RejectedAttemptRetries(g: Grid, len: nat, tag: int, rng: seq<nat>)
    requires Shaped(g) && NonNegativeGrid(g)
    requires Attempt(g, len, tag, rng).Ok? && !Attempt(g, len, tag, rng).value.placed
    ensures var t := Attempt(g, len, tag, rng).value;
            && !Free(g, t.span)
            && t.grid == g
            && PlaceOne(g, len, tag, rng) == PlaceOne(g, len, tag, t.rng)
  {
    AttemptCommitsIffFree(g, len, tag, rng);
  }

  predicate NonNegativeLengths(lengths: seq<real>)
  {
    forall i :: 0 <= i < |lengths| ==> 0.0 <= lengths[i]
  }

  /** The sum of the truncated lengths, `sum(int(l) for l in lengths)`. */
  function TotalLength(lengths: seq<real>): int
  {
    if |lengths| == 0 then 0 else Trunc(lengths[0]) + TotalLength(lengths[1..])
  }

  /** The grid after one class, the span of every element, and the rest of the stream. */
  datatype Populated = Populated(grid: Grid, spans: seq<Span>, rng: seq<nat>)

  /**
   `populate_grid(grid, lengths, tag)`: place the elements in order, element
   `i` as a span of `int(lengths[i])` cells.
   */
  function Populate(g: Grid, lengths: seq<real>, tag: int, rng: seq<nat>): (r: Result<Populated>)
    requires Shaped(g) && NonNegativeLengths(lengths)
    ensures r.Ok? ==> Shaped(r.value.grid) && Width(r.value.grid) == Width(g)
    ensures r.Ok? ==> |r.value.spans| == |lengths|
    ensures r.Ok? ==> forall i :: 0 <= i < |lengths| ==>
              && r.value.spans[i].len == Trunc(lengths[i])
              && r.value.spans[i].strand < 2
              && r.value.spans[i].start + r.value.spans[i].len < Width(g)
    ensures (exists i :: 0 <= i < |lengths| && Width(g) <= Trunc(lengths[i])) ==> r.Err?
    decreases |lengths|
  {
    if |lengths| == 0 then Ok(Populated(g, [], rng))
    else
      assert NonNegativeLengths(lengths[1..]) by {
        forall i | 0 <= i < |lengths[1..]| ensures 0.0 <= lengths[1..][i] {
          assert lengths[1..][i] == lengths[i + 1];
        }
      }
      match PlaceOne(g, Trunc(lengths[0]), tag, rng)
      case Err(e) => Err(e)
      case Ok(p) =>
        match Populate(p.grid, lengths[1..], tag, p.rng)
        case Err(e) => Err(e)
        case Ok(q) =>
          assert forall i :: 1 <= i < |lengths| ==> lengths[1..][i - 1] == lengths[i];
          Ok(Populated(q.grid, [p.span] + q.spans, q.rng))
  }

  // ---------------------------------------------------------------------------
  // Claimed spans
  // ---------------------------------------------------------------------------

  /** Cell `c` of strand `s` lies inside one of the spans. */
  ghost predicate Covered(spans: seq<Span>, s: int, c: int)
  {
    exists i :: 0 <= i < |spans| && Covers(spans[i], s, c)
  }

  /** No cell lies inside two of the spans. */
  ghost predicate Disjoint(spans: seq<Span>)
  {
    forall i, j, s, c :: 0 <= i < j < |spans| && Covers(spans[i], s, c) ==> !Covers(spans[j], s, c)
  }

  /**
   `h` arises from `g` by claiming `spans`: they lie in the grid and are
   pairwise disjoint, each of their cells was unassigned in `g` and is
   assigned in `h`, and every other cell is unchanged.
   */
  ghost predicate Claims(g: Grid, h: Grid, spans: seq<Span>)
    requires Shaped(g) && Shaped(h) && Width(g) == Width(h)
  {
    && (forall i :: 0 <= i < |spans| ==> InBounds(spans[i], Width(g)))
    && Disjoint(spans)
    && (forall s, c :: 0 <= s < 2 && 0 <= c < Width(g) ==>
          if Covered(spans, s, c) then g[s][c] == 0 && h[s][c] != 0 else h[s][c] == g[s][c])
  }

  /** Every cell inside the spans holds `tag`. */
  ghost predicate Holds(h: Grid, spans: seq<Span>, tag: int)
    requires Shaped(h)
  {
    forall s, c :: 0 <= s < 2 && 0 <= c < Width(h) && Covered(spans, s, c) ==> h[s][c] == tag
  }

  lemma CoveredAppend(a: seq<Span>, b: seq<Span>, s: int, c: int)
    ensures Covered(a + b, s, c) <==> Covered(a, s, c) || Covered(b, s, c)
  {
    if Covered(a + b, s, c) {
      var i :| 0 <= i < |a + b| && Covers((a + b)[i], s, c);
      if i < |a| {
        assert (a + b)[i] == a[i];
      } else {
        assert (a + b)[i] == b[i - |a|];
      }
    }
    if Covered(a, s, c) {
      var i :| 0 <= i < |a| && Covers(a[i], s, c);
      assert (a + b)[i] == a[i];
    }
    if Covered(b, s, c) {
      var i :| 0 <= i < |b| && Covers(b[i], s, c);
      assert (a + b)[|a| + i] == b[i];
    }
  }

  /** Committing one free span with a nonzero tag claims exactly that span. */
  lemma CommitClaims(g: Grid, sp: Span, tag: int)
    requires Shaped(g) && InBounds(sp, Width(g)) && Free(g, sp) && tag != 0
    ensures Claims(g, Commit(g, sp, tag), [sp])
    ensures Holds(Commit(g, sp, tag), [sp], tag)
  {
    var h := Commit(g, sp, tag);
    forall s, c | 0 <= s < 2 && 0 <= c < Width(g)
      ensures Covered([sp], s, c) <==> Covers(sp, s, c)
    {
      if Covers(sp, s, c) {
        assert [sp][0] == sp;
      }
    }
  }

  /** Claims made one after the other compose into one claim of both span lists. */
  lemma ClaimsCompose(g: Grid, g1: Grid, h: Grid, a: seq<Span>, b: seq<Span>)
    requires Shaped(g) && Shaped(g1) && Shaped(h)
    requires Width(g) == Width(g1) == Width(h)
    requires Claims(g, g1, a) && Claims(g1, h, b)
    ensures Claims(g, h, a + b)
  {
    var ab := a + b;
    forall i | 0 <= i < |ab| ensures InBounds(ab[i], Width(g)) {
      if i < |a| {
        assert ab[i] == a[i];
      } else {
        assert ab[i] == b[i - |a|];
      }
    }
    forall i, j, s, c | 0 <= i < j < |ab| && Covers(ab[i], s, c) ensures !Covers(ab[j], s, c) {
      if j < |a| {
        assert ab[i] == a[i] && ab[j] == a[j];
      } else if |a| <= i {
        assert ab[i] == b[i - |a|] && ab[j] == b[j - |a|];
      } else if Covers(ab[j], s, c) {
        assert ab[i] == a[i] && ab[j] == b[j - |a|];
        assert InBounds(a[i], Width(g));
        assert Covered(a, s, c);
        assert Covered(b, s, c);
        assert false;
      }
    }
    forall s, c | 0 <= s < 2 && 0 <= c < Width(g)
      ensures if Covered(ab, s, c) then g[s][c] == 0 && h[s][c] != 0 else h[s][c] == g[s][c]
    {
      CoveredAppend(a, b, s, c);
    }
  }

  /** Cells already claimed for `tag` keep it while a later claim is made. */
  lemma HoldsPreserved(g1: Grid, h: Grid, a: seq<Span>, b: seq<Span>, tag: int)
    requires Shaped(g1) && Shaped(h) && Width(g1) == Width(h)
    requires Holds(g1, a, tag) && tag != 0 && Claims(g1, h, b)
    ensures Holds(h, a, tag)
  {
  }

  lemma HoldsAppend(h: Grid, a: seq<Span>, b: seq<Span>, tag: int)
    requires Shaped(h) && Holds(h, a, tag) && Holds(h, b, tag)
    ensures Holds(h, a + b, tag)
  {
    forall s, c | 0 <= s < 2 && 0 <= c < Width(h) && Covered(a + b, s, c) ensures h[s][c] == tag {
      CoveredAppend(a, b, s, c);
    }
  }

  lemma CommitNonNegative(g: Grid, sp: Span, tag: int)
    requires Shaped(g) && InBounds(sp, Width(g)) && NonNegativeGrid(g) && 0 <= tag
    ensures NonNegativeGrid(Commit(g, sp, tag))
  {
    var h := Commit(g, sp, tag);
    forall s | 0 <= s < 2 ensures NonNegative(h[s]) {
      assert NonNegative(g[s]);
    }
  }

  /**
   No overlap and no overwrite: placing a class with a positive tag claims
   pairwise disjoint spans of unassigned cells, writes the tag into each of
   them, and leaves every other cell as it was.
   */
  lemma {:induction false} PopulateClaims(g: Grid, lengths: seq<real>, tag: int, rng: seq<nat>)
    requires Shaped(g) && NonNegativeLengths(lengths) && NonNegativeGrid(g) && 0 < tag
    requires Populate(g, lengths, tag, rng).Ok?
    ensures var p := Populate(g, lengths, tag, rng).value;
            && Claims(g, p.grid, p.spans)
            && Holds(p.grid, p.spans, tag)
            && NonNegativeGrid(p.grid)
    decreases |lengths|
  {
    var p := Populate(g, lengths, tag, rng).value;
    if |lengths| == 0 {
      assert p.grid == g && p.spans == [];
    } else {
      var one := PlaceOne(g, Trunc(lengths[0]), tag, rng).value;
      PlaceOneFree(g, Trunc(lengths[0]), tag, rng);
      CommitClaims(g, one.span, tag);
      CommitNonNegative(g, one.span, tag);
      assert NonNegativeLengths(lengths[1..]) by {
        forall i | 0 <= i < |lengths[1..]| ensures 0.0 <= lengths[1..][i] {
          assert lengths[1..][i] == lengths[i + 1];
        }
      }
      var rest := Populate(one.grid, lengths[1..], tag, one.rng).value;
      PopulateClaims(one.grid, lengths[1..], tag, one.rng);
      assert p.grid == rest.grid && p.spans == [one.span] + rest.spans;
      ClaimsCompose(g, one.grid, rest.grid, [one.span], rest.spans);
      HoldsPreserved(one.grid, rest.grid, [one.span], rest.spans, tag);
      HoldsAppend(rest.grid, [one.span], rest.spans, tag);
    }
  }

  /**
   Exact counts: after a class is placed, `tag` occupies exactly the sum of
   the truncated lengths more cells than before, and the unassigned cells
   shrink by the same amount; every other tag keeps its count.
   */
  lemma {:induction false} PopulateCount(g: Grid, lengths: seq<real>, tag: int, rng: seq<nat>, t: int)
    requires Shaped(g) && NonNegativeLengths(lengths) && NonNegativeGrid(g) && 0 <= tag
    requires Populate(g, lengths, tag, rng).Ok?
    ensures CountGrid(Populate(g, lengths, tag, rng).value.grid, t)
            == CountGrid(g, t) - (if t == 0 then TotalLength(lengths) else 0)
                               + (if t == tag then TotalLength(lengths) else 0)
    decreases |lengths|
  {
    if |lengths| > 0 {
      var len: nat := Trunc(lengths[0]);
      var one := PlaceOne(g, len, tag, rng).value;
      PlaceOneFree(g, len, tag, rng);
      CommitCount(g, one.span, tag, t);
      CommitNonNegative(g, one.span, tag);
      assert NonNegativeLengths(lengths[1..]) by {
        forall i | 0 <= i < |lengths[1..]| ensures 0.0 <= lengths[1..][i] {
          assert lengths[1..][i] == lengths[i + 1];
        }
      }
      PopulateCount(one.grid, lengths[1..], tag, one.rng, t);
    }
  }

  /** A cell that already held a tag before `populate_grid` keeps it afterwards. */
  lemma PopulateNeverOverwrites(g: Grid, lengths: seq<real>, tag: int, rng: seq<nat>)
    requires Shaped(g) && NonNegativeLengths(lengths) && NonNegativeGrid(g) && 0 < tag
    requires Populate(g, lengths, tag, rng).Ok?
    ensures var h := Populate(g, lengths, tag, rng).value.grid;
            forall s, c :: 0 <= s < 2 && 0 <= c < Width(g) && g[s][c] != 0 ==> h[s][c] == g[s][c]
  {
    PopulateClaims(g, lengths, tag, rng);
  }

  /**
   Two disjoint nonempty spans on the same strand lie one entirely before the
   other.
   */
  lemma DisjointSpansSeparate(spans: seq<Span>, i: nat, j: nat)
    requires Disjoint(spans) && i < j < |spans|
    requires spans[i].strand == spans[j].strand && 0 < spans[i].len && 0 < spans[j].len
    ensures spans[i].start + spans[i].len <= spans[j].start
         || spans[j].start + spans[j].len <= spans[i].start
  {
    var a, b := spans[i], spans[j];
    var c := if a.start < b.start then b.start else a.start;
    if a.start < b.start + b.len && b.start < a.start + a.len {
      assert Covers(a, a.strand, c) && Covers(b, a.strand, c);
      assert false;
    }
  }

  /**
   Three elements of length 100 on an empty 2 x 1000 grid: exactly 300 cells
   end up tagged 1, and no start column exceeds 899.
   */
  lemma ThreeHundredCellsScenario(rng: seq<nat>)
    requires Populate(InitializeGrid(2, 1000), [100.0, 100.0, 100.0], 1, rng).Ok?
    ensures var p := Populate(InitializeGrid(2, 1000), [100.0, 100.0, 100.0], 1, rng).value;
            && CountGrid(p.grid, 1) == 300
            && forall i :: 0 <= i < |p.spans| ==> p.spans[i].start < 900
  {
    var g := InitializeGrid(2, 1000);
    var lengths := [100.0, 100.0, 100.0];
    InitialCounts(1000, 1);
    assert TotalLength(lengths) == 300 by {
      assert lengths[1..] == [100.0, 100.0];
      assert lengths[1..][1..] == [100.0];
      assert lengths[1..][1..][1..] == [];
    }
    PopulateCount(g, lengths, 1, rng, 1);
  }
}
