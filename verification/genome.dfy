/**
 The four class-ordered calls of the placer on one shared grid: exons
 (tag 1), retrotransposons (tag 2), DNA transposons (tag 3) and non-coding
 segments (tag 4), starting from the zero grid.
 */
module Genome {
  import opened Numbers
  import opened Grids
  import opened Placement

  const ExonTag := 1
  const RetrotransposonTag := 2
  const DnaTransposonTag := 3
  const NonCodingTag := 4

  /** The filled grid and the spans of every class, in placement order. */
  datatype Annotation = Annotation(
    grid: Grid,
    exons: seq<Span>,
    retrotransposons: seq<Span>,
    dnaTransposons: seq<Span>,
    nonCoding: seq<Span>,
    rng: seq<nat>)

  /** Every cell outside the spans still holds the unassigned tag. */
  ghost predicate ZeroOutside(h: Grid, spans: seq<Span>)
    requires Shaped(h)
  {
    forall s, c :: 0 <= s < 2 && 0 <= c < Width(h) && !Covered(spans, s, c) ==> h[s][c] == 0
  }

  /** Every span of every class, in placement order. */
  function AllSpans(a: Annotation): seq<Span>
  {
    a.exons + a.retrotransposons + a.dnaTransposons + a.nonCoding
  }

  /**
   Initialise a 2 x `width` zero grid and populate it with the four classes
   in order, each call seeing the grid left by the previous one.
   */
  function Annotate(width: nat, exons: seq<real>, retros: seq<real>, dnas: seq<real>,
                    nonCoding: seq<real>, rng: seq<nat>): (r: Result<Annotation>)
    requires NonNegativeLengths(exons) && NonNegativeLengths(retros)
    requires NonNegativeLengths(dnas) && NonNegativeLengths(nonCoding)
    ensures r.Ok? ==> Shaped(r.value.grid) && Width(r.value.grid) == width
    ensures r.Ok? ==>
              && |r.value.exons| == |exons|
              && |r.value.retrotransposons| == |retros|
              && |r.value.dnaTransposons| == |dnas|
              && |r.value.nonCoding| == |nonCoding|
  {
    var g0 := InitializeGrid(2, width);
    match Populate(g0, exons, ExonTag, rng)
    case Err(e) => Err(e)
    case Ok(p1) =>
      match Populate(p1.grid, retros, RetrotransposonTag, p1.rng)
      case Err(e) => Err(e)
      case Ok(p2) =>
        match Populate(p2.grid, dnas, DnaTransposonTag, p2.rng)
        case Err(e) => Err(e)
        case Ok(p3) =>
          match Populate(p3.grid, nonCoding, NonCodingTag, p3.rng)
          case Err(e) => Err(e)
          case Ok(p4) => Ok(Annotation(p4.grid, p1.spans, p2.spans, p3.spans, p4.spans, p4.rng))
  }

  /**
   After the four calls: no two spans of any classes share a cell, every
   cell inside a class's span holds that class's tag, every cell outside
   all spans is still 0, and so every cell holds a tag in `{0, 1, 2, 3, 4}`.
   */
  lemma AnnotateSound(width: nat, exons: seq<real>, retros: seq<real>, dnas: seq<real>,
                      nonCoding: seq<real>, rng: seq<nat>, a: Annotation)
    requires NonNegativeLengths(exons) && NonNegativeLengths(retros)
    requires NonNegativeLengths(dnas) && NonNegativeLengths(nonCoding)
    requires Annotate(width, exons, retros, dnas, nonCoding, rng) == Ok(a)
    ensures Shaped(a.grid) && Width(a.grid) == width
    ensures Disjoint(AllSpans(a))
    ensures Holds(a.grid, a.exons, ExonTag)
    ensures Holds(a.grid, a.retrotransposons, RetrotransposonTag)
    ensures Holds(a.grid, a.dnaTransposons, DnaTransposonTag)
    ensures Holds(a.grid, a.nonCoding, NonCodingTag)
    ensures ZeroOutside(a.grid, AllSpans(a))
    ensures TagsWithin(a.grid, 0, 4)
  {
    var g0 := InitializeGrid(2, width);
    var p1, p2, p3, p4 := AnnotateStages(width, exons, retros, dnas, nonCoding, rng);
    PopulateClaims(g0, exons, ExonTag, rng);
    PopulateClaims(p1.grid, retros, RetrotransposonTag, p1.rng);
    PopulateClaims(p2.grid, dnas, DnaTransposonTag, p2.rng);
    PopulateClaims(p3.grid, nonCoding, NonCodingTag, p3.rng);
    ChainClaims(g0, p1.grid, p2.grid, p3.grid, p4.grid, p1.spans, p2.spans, p3.spans, p4.spans);
  }

  /** The intermediate result of each of the four calls of a successful run. */
  lemma AnnotateStages(width: nat, exons: seq<real>, retros: seq<real>, dnas: seq<real>,
                       nonCoding: seq<real>, rng: seq<nat>)
    returns (p1: Populated, p2: Populated, p3: Populated, p4: Populated)
    requires NonNegativeLengths(exons) && NonNegativeLengths(retros)
    requires NonNegativeLengths(dnas) && NonNegativeLengths(nonCoding)
    requires Annotate(width, exons, retros, dnas, nonCoding, rng).Ok?
    ensures Populate(InitializeGrid(2, width), exons, ExonTag, rng) == Ok(p1)
    ensures Shaped(p1.grid) && Populate(p1.grid, retros, RetrotransposonTag, p1.rng) == Ok(p2)
    ensures Shaped(p2.grid) && Populate(p2.grid, dnas, DnaTransposonTag, p2.rng) == Ok(p3)
    ensures Shaped(p3.grid) && Populate(p3.grid, nonCoding, NonCodingTag, p3.rng) == Ok(p4)
    ensures Annotate(width, exons, retros, dnas, nonCoding, rng).value
            == Annotation(p4.grid, p1.spans, p2.spans, p3.spans, p4.spans, p4.rng)
  {
    var g0 := InitializeGrid(2, width);
    p1 := Populate(g0, exons, ExonTag, rng).value;
    p2 := Populate(p1.grid, retros, RetrotransposonTag, p1.rng).value;
    p3 := Populate(p2.grid, dnas, DnaTransposonTag, p2.rng).value;
    p4 := Populate(p3.grid, nonCoding, NonCodingTag, p3.rng).value;
  }

  /** The four claims of the class-ordered calls compose, and each class keeps its tag. */
  lemma ChainClaims(g0: Grid, g1: Grid, g2: Grid, g3: Grid, g4: Grid,
                    e: seq<Span>, r: seq<Span>, d: seq<Span>, n: seq<Span>)
    requires Shaped(g0) && Shaped(g1) && Shaped(g2) && Shaped(g3) && Shaped(g4)
    requires Width(g0) == Width(g1) == Width(g2) == Width(g3) == Width(g4)
    requires TagsWithin(g0, 0, 0)
    requires Claims(g0, g1, e) && Holds(g1, e, ExonTag)
    requires Claims(g1, g2, r) && Holds(g2, r, RetrotransposonTag)
    requires Claims(g2, g3, d) && Holds(g3, d, DnaTransposonTag)
    requires Claims(g3, g4, n) && Holds(g4, n, NonCodingTag)
    ensures Claims(g0, g4, e + r + d + n)
    ensures Holds(g4, e, ExonTag) && Holds(g4, r, RetrotransposonTag)
    ensures Holds(g4, d, DnaTransposonTag) && Holds(g4, n, NonCodingTag)
    ensures ZeroOutside(g4, e + r + d + n)
    ensures TagsWithin(g4, 0, 4)
  {
    ClaimsCompose(g0, g1, g2, e, r);
    ClaimsCompose(g0, g2, g3, e + r, d);
    ClaimsCompose(g0, g3, g4, e + r + d, n);
    HoldsPreserved(g1, g2, e, r, ExonTag);
    HoldsPreserved(g2, g3, e, d, ExonTag);
    HoldsPreserved(g3, g4, e, n, ExonTag);
    HoldsPreserved(g2, g3, r, d, RetrotransposonTag);
    HoldsPreserved(g3, g4, r, n, RetrotransposonTag);
    HoldsPreserved(g3, g4, d, n, DnaTransposonTag);
    forall s, c | 0 <= s < |g4| && 0 <= c < |g4[s]| ensures 0 <= g4[s][c] <= 4 {
      CoveredAppend(e + r + d, n, s, c);
      CoveredAppend(e + r, d, s, c);
      CoveredAppend(e, r, s, c);
    }
  }

  /**
   Exact counts per class: each tag occupies exactly the sum of its class's
   truncated lengths, and the unassigned cells are what remains of `2 * width`.
   */
  lemma AnnotateCounts(width: nat, exons: seq<real>, retros: seq<real>, dnas: seq<real>,
                       nonCoding: seq<real>, rng: seq<nat>, t: int)
    requires NonNegativeLengths(exons) && NonNegativeLengths(retros)
    requires NonNegativeLengths(dnas) && NonNegativeLengths(nonCoding)
    requires Annotate(width, exons, retros, dnas, nonCoding, rng).Ok?
    ensures CountGrid(Annotate(width, exons, retros, dnas, nonCoding, rng).value.grid, t)
            == if t == 0 then 2 * width - TotalLength(exons) - TotalLength(retros)
                              - TotalLength(dnas) - TotalLength(nonCoding)
               else if t == ExonTag then TotalLength(exons)
               else if t == RetrotransposonTag then TotalLength(retros)
               else if t == DnaTransposonTag then TotalLength(dnas)
               else if t == NonCodingTag then TotalLength(nonCoding)
               else 0
  {
    var a := Annotate(width, exons, retros, dnas, nonCoding, rng).value;
    var g0 := InitializeGrid(2, width);
    var p1 := Populate(g0, exons, ExonTag, rng).value;
    var p2 := Populate(p1.grid, retros, RetrotransposonTag, p1.rng).value;
    var p3 := Populate(p2.grid, dnas, DnaTransposonTag, p2.rng).value;
    var p4 := Populate(p3.grid, nonCoding, NonCodingTag, p3.rng).value;
    assert a.grid == p4.grid;
    PopulateClaims(g0, exons, ExonTag, rng);
    PopulateClaims(p1.grid, retros, RetrotransposonTag, p1.rng);
    PopulateClaims(p2.grid, dnas, DnaTransposonTag, p2.rng);
    InitialCounts(width, t);
    PopulateCount(g0, exons, ExonTag, rng, t);
    PopulateCount(p1.grid, retros, RetrotransposonTag, p1.rng, t);
    PopulateCount(p2.grid, dnas, DnaTransposonTag, p2.rng, t);
    PopulateCount(p3.grid, nonCoding, NonCodingTag, p3.rng, t);
  }
}
