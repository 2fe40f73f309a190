/**
 `populate_grid` as the script runs it: the two strands are arrays mutated
 in place, the emptiness test sums the slice cell by cell, and the commit
 writes the tag cell by cell. The result is the functional `Populate`.
 */
module InPlace {
  import opened Numbers
  import opened Grids
  import opened Placement
  import opened Genome

  /** `grid[strand, start:start + len].sum()` on one strand. */
  method SliceSum(row: array<int>, start: nat, len: nat) returns (total: int)
    requires start + len <= row.Length
    ensures total == Sum(row[start..start + len])
  {
    total := 0;
    var k := start + len;
    while k > start
      invariant start <= k <= start + len
      invariant total == Sum(row[k..start + len])
    {
      k := k - 1;
      assert row[k..start + len][1..] == row[k + 1..start + len];
      total := row[k] + total;
    }
  }

  /** `grid[strand, start:start + len] = tag` on one strand. */
  method FillRow(row: array<int>, start: nat, len: nat, tag: int)
    requires start + len <= row.Length
    modifies row
    ensures row[..] == Fill(old(row[..]), start, len, tag)
  {
    var k := start;
    while k < start + len
      invariant start <= k <= start + len
      invariant forall c :: 0 <= c < row.Length ==> row[c] == if start <= c < k then tag else old(row[c])
    {
      row[k] := tag;
      k := k + 1;
    }
  }

  /** A result found after `done` was placed, seen from the start of the call. */
  function Prepend(done: seq<Span>, r: Result<Populated>): Result<Populated>
  {
    match r
    case Err(e) => Err(e)
    case Ok(q) => Ok(Populated(q.grid, done + q.spans, q.rng))
  }

  lemma PrependNothing(r: Result<Populated>)
    ensures Prepend([], r) == r
  {
    if r.Ok? {
      assert [] + r.value.spans == r.value.spans;
    }
  }

  lemma PrependTwice(a: seq<Span>, b: seq<Span>, r: Result<Populated>)
    ensures Prepend(a, Prepend(b, r)) == Prepend(a + b, r)
  {
    if r.Ok? {
      assert a + (b + r.value.spans) == (a + b) + r.value.spans;
    }
  }

  /** `Populate` places the first element, then the rest from the grid it leaves. */
  lemma PopulateFirst(g: Grid, lengths: seq<real>, tag: int, rng: seq<nat>)
    requires Shaped(g) && NonNegativeLengths(lengths) && 0 < |lengths|
    ensures NonNegativeLengths(lengths[1..])
    ensures Populate(g, lengths, tag, rng)
            == match PlaceOne(g, Trunc(lengths[0]), tag, rng)
               case Err(e) => Err(e)
               case Ok(p) => Prepend([p.span], Populate(p.grid, lengths[1..], tag, p.rng))
  {
    assert NonNegativeLengths(lengths[1..]) by {
      forall i | 0 <= i < |lengths[1..]| ensures 0.0 <= lengths[1..][i] {
        assert lengths[1..][i] == lengths[i + 1];
      }
    }
  }

  /** The two strands as the grid they make up. */
  function Strands(top: array<int>, bottom: array<int>): Grid
    reads top, bottom
  {
    [top[..], bottom[..]]
  }

  /**
   One pass of the retry loop over array strands: draw a strand and a start,
   sum the drawn slice, and write the tag into it when the sum is zero.
   */
  method TryOnce(top: array<int>, bottom: array<int>, len: nat, tag: int, stream: seq<nat>)
    returns (r: Result<Trial>)
    requires top != bottom && top.Length == bottom.Length
    modifies top, bottom
    ensures r == Attempt(old(Strands(top, bottom)), len, tag, stream)
    ensures r.Ok? ==> Strands(top, bottom) == r.value.grid
    ensures r.Err? ==> Strands(top, bottom) == old(Strands(top, bottom))
  {
    ghost var cur := Strands(top, bottom);
    var strandDraw := RandInt(0, 2, stream);
    if strandDraw.Err? {
      return Err(strandDraw.failure);
    }
    var (strand, afterStrand) := strandDraw.value;
    var startDraw := RandInt(0, top.Length - len, afterStrand);
    if startDraw.Err? {
      return Err(startDraw.failure);
    }
    var (start, afterStart) := startDraw.value;
    var row := if strand == 0 then top else bottom;
    assert row[..] == cur[strand];
    var total := SliceSum(row, start, len);
    var sp := Span(strand, start, len);
    if total == 0 {
      FillRow(row, start, len, tag);
      assert Strands(top, bottom) == Commit(cur, sp, tag);
      return Ok(Trial(sp, true, Strands(top, bottom), afterStart));
    }
    return Ok(Trial(sp, false, Strands(top, bottom), afterStart));
  }

  /** The `while not placed` loop for one element over array strands. */
  method PlaceElement(top: array<int>, bottom: array<int>, len: nat, tag: int, rng: seq<nat>)
    returns (r: Result<Placed>)
    requires top != bottom && top.Length == bottom.Length
    modifies top, bottom
    ensures r == PlaceOne(old(Strands(top, bottom)), len, tag, rng)
    ensures r.Ok? ==> Strands(top, bottom) == r.value.grid
    ensures r.Err? ==> Strands(top, bottom) == old(Strands(top, bottom))
  {
    ghost var cur := Strands(top, bottom);
    var stream := rng;
    while true
      invariant Strands(top, bottom) == cur
      invariant PlaceOne(cur, len, tag, rng) == PlaceOne(cur, len, tag, stream)
      decreases |stream|
    {
      var trial := TryOnce(top, bottom, len, tag, stream);
      if trial.Err? {
        return Err(trial.failure);
      }
      if trial.value.placed {
        return Ok(Placed(trial.value.span, trial.value.grid, trial.value.rng));
      }
      stream := trial.value.rng;
    }
  }

  /**
   The placer over caller-owned array strands: the elements are placed in
   order, each by the retry loop, and the strands are mutated in place; the
   outcome is the functional `Populate` of the grid the strands held, and on
   success the strands hold its grid.
   */
  method PopulateArrays(top: array<int>, bottom: array<int>, lengths: seq<real>, tag: int, rng: seq<nat>)
    returns (r: Result<Populated>)
    requires top != bottom && top.Length == bottom.Length && NonNegativeLengths(lengths)
    modifies top, bottom
    ensures r == Populate(old(Strands(top, bottom)), lengths, tag, rng)
    ensures r.Ok? ==> Strands(top, bottom) == r.value.grid
  {
    ghost var g := Strands(top, bottom);
    var stream := rng;
    var spans: seq<Span> := [];
    var i := 0;
    assert lengths[i..] == lengths;
    PrependNothing(Populate(g, lengths, tag, rng));
    while i < |lengths|
      invariant 0 <= i <= |lengths|
      invariant top.Length == bottom.Length
      invariant NonNegativeLengths(lengths[i..])
      invariant Populate(g, lengths, tag, rng)
                == Prepend(spans, Populate(Strands(top, bottom), lengths[i..], tag, stream))
    {
      ghost var cur := Strands(top, bottom);
      PopulateFirst(cur, lengths[i..], tag, stream);
      assert lengths[i..][0] == lengths[i] && lengths[i..][1..] == lengths[i + 1..];
      var placed := PlaceElement(top, bottom, Trunc(lengths[i]), tag, stream);
      assert placed == PlaceOne(cur, Trunc(lengths[i]), tag, stream);
      if placed.Err? {
        assert Populate(cur, lengths[i..], tag, stream) == Err(placed.failure);
        return Err(placed.failure);
      }
      var p := placed.value;
      assert Strands(top, bottom) == p.grid;
      assert Populate(cur, lengths[i..], tag, stream)
             == Prepend([p.span], Populate(p.grid, lengths[i + 1..], tag, p.rng));
      PrependTwice(spans, [p.span], Populate(p.grid, lengths[i + 1..], tag, p.rng));
      spans := spans + [p.span];
      stream := p.rng;
      i := i + 1;
    }
    assert lengths[i..] == [];
    assert spans + [] == spans;
    r := Ok(Populated(Strands(top, bottom), spans, stream));
  }

  /** `populate_grid` on fresh strands copied from `g`: the outcome is `Populate` of `g`. */
  method PopulateInPlace(g: Grid, lengths: seq<real>, tag: int, rng: seq<nat>) returns (r: Result<Populated>)
    requires Shaped(g) && NonNegativeLengths(lengths)
    ensures r == Populate(g, lengths, tag, rng)
  {
    var width := Width(g);
    var top := new int[width](c requires 0 <= c < width => g[0][c]);
    var bottom := new int[width](c requires 0 <= c < width => g[1][c]);
    assert top[..] == g[0] && bottom[..] == g[1];
    assert Strands(top, bottom) == g;
    r := PopulateArrays(top, bottom, lengths, tag, rng);
  }

  /**
   The script's annotation run: `initialize_grid(2, width)` as two zero
   strands, then the four `populate_grid` calls with tags 1 to 4 mutating
   the same strands in turn. The outcome is the functional `Annotate`.
   */
  method AnnotateInPlace(width: nat, exons: seq<real>, retros: seq<real>, dnas: seq<real>,
                         nonCoding: seq<real>, rng: seq<nat>) returns (r: Result<Annotation>)
    requires NonNegativeLengths(exons) && NonNegativeLengths(retros)
    requires NonNegativeLengths(dnas) && NonNegativeLengths(nonCoding)
    ensures r == Annotate(width, exons, retros, dnas, nonCoding, rng)
  {
    var top := new int[width](_ => 0);
    var bottom := new int[width](_ => 0);
    assert top[..] == seq(width, _ => 0) && bottom[..] == seq(width, _ => 0);
    assert Strands(top, bottom) == InitializeGrid(2, width);
    var r1 := PopulateArrays(top, bottom, exons, ExonTag, rng);
    if r1.Err? {
      return Err(r1.failure);
    }
    var r2 := PopulateArrays(top, bottom, retros, RetrotransposonTag, r1.value.rng);
    if r2.Err? {
      return Err(r2.failure);
    }
    var r3 := PopulateArrays(top, bottom, dnas, DnaTransposonTag, r2.value.rng);
    if r3.Err? {
      return Err(r3.failure);
    }
    var r4 := PopulateArrays(top, bottom, nonCoding, NonCodingTag, r3.value.rng);
    if r4.Err? {
      return Err(r4.failure);
    }
    r := Ok(Annotation(Strands(top, bottom), r1.value.spans, r2.value.spans, r3.value.spans,
                       r4.value.spans, r4.value.rng));
  }
}
