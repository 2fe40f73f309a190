/**
 The non-coding segment lengths: 50,000 lengths drawn uniformly between 100
 and `non_coding_length / 50000`, the whole batch redrawn until its sum does
 not exceed `non_coding_length`.

 The generator is an explicit stream of batches of unit draws `u` in
 `[0, 1)`; `numpy.random.uniform(low, high)` turns `u` into
 `low + (high - low) * u`. A stream that runs out before a batch fits the
 budget ends in `NotConverged`.
 */
module NonCoding {
  import opened Numbers

  const SegmentCount: nat := 50000
  const SegmentMinimum: real := 100.0

  /** `genome_size - total_coding_length`: what the three coding classes leave over. */
  function NonCodingLength(genomeSize: real, exons: seq<real>, retros: seq<real>, dnas: seq<real>): (r: real)
    ensures r + SumR(exons) + SumR(retros) + SumR(dnas) == genomeSize
  {
    genomeSize - (SumR(exons) + SumR(retros) + SumR(dnas))
  }

  /** `numpy.random.uniform(low, high)` for the unit draw `u`. */
  function Uniform(low: real, high: real, u: real): real
  {
    low + (high - low) * u
  }

  /** One batch of lengths from one batch of unit draws. */
  function Batch(low: real, high: real, us: seq<real>): (b: seq<real>)
    ensures |b| == |us|
  {
    if |us| == 0 then [] else [Uniform(low, high, us[0])] + Batch(low, high, us[1..])
  }

  predicate UnitDraws(us: seq<real>)
  {
    forall i :: 0 <= i < |us| ==> 0.0 <= us[i] < 1.0
  }

  /** Every batch of the stream holds `count` unit draws. */
  predicate WellFormedStream(stream: seq<seq<real>>, count: nat)
  {
    forall k :: 0 <= k < |stream| ==> |stream[k]| == count && UnitDraws(stream[k])
  }

  datatype Outcome = Converged(index: nat, segments: seq<real>) | NotConverged

  /**
   The first batch of the stream whose sum is within the budget, with its
   position; `NotConverged` exactly when no batch of the stream fits.
   */
  function FirstWithinBudget(budget: real, low: real, high: real, stream: seq<seq<real>>): (r: Outcome)
    ensures r.Converged? ==>
              && r.index < |stream|
              && r.segments == Batch(low, high, stream[r.index])
              && SumR(r.segments) <= budget
              && forall k :: 0 <= k < r.index ==> budget < SumR(Batch(low, high, stream[k]))
    ensures r.NotConverged? ==>
              forall k :: 0 <= k < |stream| ==> budget < SumR(Batch(low, high, stream[k]))
    decreases |stream|
  {
    if |stream| == 0 then NotConverged
    else
      var b := Batch(low, high, stream[0]);
      if SumR(b) <= budget then Converged(0, b)
      else
        match FirstWithinBudget(budget, low, high, stream[1..])
        case NotConverged =>
          assert forall k :: 1 <= k < |stream| ==> stream[1..][k - 1] == stream[k];
          NotConverged
        case Converged(i, segs) =>
          assert forall k :: 1 <= k <= i ==> stream[1..][k - 1] == stream[k];
          Converged(i + 1, segs)
  }

  /**
   Draw a batch of `SegmentCount` lengths in
   `[SegmentMinimum, non_coding_length / SegmentCount)` and redraw while its
   sum exceeds `non_coding_length`. The result is the first batch of the
   stream that fits, and it has `SegmentCount` lengths summing to at most
   `non_coding_length`.
   */
  method DrawSegments(nonCodingLength: real, stream: seq<seq<real>>) returns (r: Outcome)
    requires WellFormedStream(stream, SegmentCount)
    ensures r == FirstWithinBudget(nonCodingLength, SegmentMinimum, nonCodingLength / SegmentCount as real, stream)
    ensures r.Converged? ==> |r.segments| == SegmentCount && SumR(r.segments) <= nonCodingLength
  {
    var high := nonCodingLength / SegmentCount as real;
    var k := 0;
    while k < |stream|
      invariant 0 <= k <= |stream|
      invariant FirstWithinBudget(nonCodingLength, SegmentMinimum, high, stream)
                == Shift(FirstWithinBudget(nonCodingLength, SegmentMinimum, high, stream[k..]), k)
    {
      var segments := Batch(SegmentMinimum, high, stream[k]);
      if SumR(segments) <= nonCodingLength {
        return Converged(k, segments);
      }
      assert stream[k..][1..] == stream[k + 1..];
      k := k + 1;
    }
    return NotConverged;
  }

  /**
   The non-coding length is what the three coding
   classes leave of the genome, and the batch accepted for it brings the four
   classes together within the genome size.
   */
  method NonCodingSegments(genomeSize: real, exons: seq<real>, retros: seq<real>, dnas: seq<real>,
                           stream: seq<seq<real>>) returns (r: Outcome)
    requires WellFormedStream(stream, SegmentCount)
    ensures r.Converged? ==> |r.segments| == SegmentCount
    ensures r.Converged? ==> SumR(exons) + SumR(retros) + SumR(dnas) + SumR(r.segments) <= genomeSize
  {
    var nonCodingLength := NonCodingLength(genomeSize, exons, retros, dnas);
    r := DrawSegments(nonCodingLength, stream);
    AllClassesFit(genomeSize, exons, retros, dnas, stream);
  }

  /**
   Whatever batch the loop accepts for the non-coding length, the exons,
   retrotransposons, DNA transposons and non-coding segments together fit in
   the genome.
   */
  lemma AllClassesFit(genomeSize: real, exons: seq<real>, retros: seq<real>, dnas: seq<real>,
                      stream: seq<seq<real>>)
    ensures var budget := NonCodingLength(genomeSize, exons, retros, dnas);
            var r := FirstWithinBudget(budget, SegmentMinimum, budget / SegmentCount as real, stream);
            r.Converged? ==> SumR(exons) + SumR(retros) + SumR(dnas) + SumR(r.segments) <= genomeSize
  {
  }

  /** An outcome found `k` batches into the stream, seen from the start of the stream. */
  function Shift(r: Outcome, k: nat): Outcome
  {
    match r
    case NotConverged => NotConverged
    case Converged(i, segs) => Converged(i + k, segs)
  }

  lemma ProductSigns(a: real, b: real)
    requires 0.0 <= a && 0.0 < b
    ensures 0.0 <= a * b
    ensures 0.0 < a ==> 0.0 < a * b
  {
  }

  /** Each length drawn with `low <= high` is at most `high`. */
  lemma {:induction false} BatchAtMostHigh(low: real, high: real, us: seq<real>)
    requires low <= high && UnitDraws(us)
    ensures SumR(Batch(low, high, us)) <= |us| as real * high
  {
    if |us| > 0 {
      assert (high - low) * us[0] <= high - low by {
        ProductSigns(high - low, 1.0 - us[0]);
      }
      BatchAtMostHigh(low, high, us[1..]);
    }
  }

  /** Each length drawn with `high < low` is strictly above `high`. */
  lemma {:induction false} BatchAboveHigh(low: real, high: real, us: seq<real>)
    requires high < low && UnitDraws(us) && 0 < |us|
    ensures |us| as real * high < SumR(Batch(low, high, us))
  {
    assert high < Uniform(low, high, us[0]) by {
      ProductSigns(low - high, 1.0 - us[0]);
    }
    if 1 < |us| {
      BatchAboveHigh(low, high, us[1..]);
    }
  }

  /**
   When the upper bound `non_coding_length / 50000` is at least the lower
   bound 100, the first batch already fits the budget and the loop body never
   runs.
   */
  lemma FirstBatchFits(nonCodingLength: real, stream: seq<seq<real>>)
    requires WellFormedStream(stream, SegmentCount) && 0 < |stream|
    requires SegmentMinimum <= nonCodingLength / SegmentCount as real
    ensures FirstWithinBudget(nonCodingLength, SegmentMinimum, nonCodingLength / SegmentCount as real, stream).Converged?
    ensures FirstWithinBudget(nonCodingLength, SegmentMinimum, nonCodingLength / SegmentCount as real, stream).index == 0
  {
    var high := nonCodingLength / SegmentCount as real;
    BatchAtMostHigh(SegmentMinimum, high, stream[0]);
    assert SegmentCount as real * high == nonCodingLength;
  }

  /**
   When the upper bound falls below 100, every batch overshoots the budget:
   the loop never ends, whatever the generator draws.
   */
  lemma NoBatchEverFits(nonCodingLength: real, stream: seq<seq<real>>)
    requires WellFormedStream(stream, SegmentCount)
    requires nonCodingLength / SegmentCount as real < SegmentMinimum
    ensures FirstWithinBudget(nonCodingLength, SegmentMinimum, nonCodingLength / SegmentCount as real, stream).NotConverged?
  {
    var high := nonCodingLength / SegmentCount as real;
    assert SegmentCount as real * high == nonCodingLength;
    forall k | 0 <= k < |stream| ensures nonCodingLength < SumR(Batch(SegmentMinimum, high, stream[k])) {
      BatchAboveHigh(SegmentMinimum, high, stream[k]);
    }
  }
}
