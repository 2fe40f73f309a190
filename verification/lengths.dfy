/**
 The numeric side of the length sampler: the standardised truncation bounds
 handed to the truncated normal distribution, the mapping of its standard
 draws back to lengths, and the per-class sample counts.
 */
module Lengths {
  import opened Numbers
  import opened NonCoding

  /** `(max - min) / 6`: the standard deviation estimated from a length range. */
  function EstimatedStd(minLen: real, maxLen: real): real
  {
    (maxLen - minLen) / 6.0
  }

  /** The truncation interval in units of standard deviations from the mean. */
  datatype Bounds = Bounds(lower: real, upper: real)

  /**
   `(min_val - mean) / stdv` and `(max_val - mean) / stdv`: mapped back with
   `loc = mean` and `scale = stdv` they give `min_val` and `max_val` again,
   and they bracket 0 when the mean lies strictly inside the range.
   */
  function StandardBounds(mean: real, minVal: real, maxVal: real, stdv: real): (b: Bounds)
    requires stdv != 0.0
    ensures mean + b.lower * stdv == minVal
    ensures mean + b.upper * stdv == maxVal
    ensures 0.0 < stdv && minVal < mean < maxVal ==> b.lower < 0.0 < b.upper
  {
    Bounds((minVal - mean) / stdv, (maxVal - mean) / stdv)
  }

  /**
   With the estimated standard deviation `(max - min) / 6` the truncation
   interval is exactly six deviations wide. For a mean strictly inside the
   range each bound lies strictly between -6 and 0 (lower) or 0 and 6
   (upper), and the interval is the symmetric `[-3, 3]` exactly when the
   mean is the midpoint of the range.
   */
  lemma EstimatedStdSpansSixDeviations(mean: real, minLen: real, maxLen: real)
    requires minLen < maxLen
    ensures var b := StandardBounds(mean, minLen, maxLen, EstimatedStd(minLen, maxLen));
            b.upper - b.lower == 6.0
    ensures var b := StandardBounds(mean, minLen, maxLen, EstimatedStd(minLen, maxLen));
            minLen < mean < maxLen ==>
              && -6.0 < b.lower < 0.0 < b.upper < 6.0
              && (b.lower == -3.0 && b.upper == 3.0 <==> mean == (minLen + maxLen) / 2.0)
  {
    var sd := EstimatedStd(minLen, maxLen);
    var b := StandardBounds(mean, minLen, maxLen, sd);
    SixDeviations(b.lower, b.upper, sd, mean, minLen, maxLen);
  }

  /** The bound facts for standardised bounds `lower` and `upper` with `6 * sd == max - min`. */
  lemma SixDeviations(lower: real, upper: real, sd: real, mean: real, minLen: real, maxLen: real)
    requires 0.0 < sd && 6.0 * sd == maxLen - minLen
    requires lower * sd == minLen - mean && upper * sd == maxLen - mean
    ensures upper - lower == 6.0
    ensures minLen < mean < maxLen ==>
              && -6.0 < lower < 0.0 < upper < 6.0
              && (lower == -3.0 && upper == 3.0 <==> mean == (minLen + maxLen) / 2.0)
  {
    assert (upper - lower) * sd == upper * sd - lower * sd;
    MultiplyCancels(upper - lower, 6.0, sd);
    if minLen < mean < maxLen {
      if 0.0 <= lower {
        MultiplyMonotone(0.0, lower, sd);
      }
      if upper <= 0.0 {
        MultiplyMonotone(upper, 0.0, sd);
      }
      if mean == (minLen + maxLen) / 2.0 {
        assert lower * sd == -3.0 * sd;
        MultiplyCancels(lower, -3.0, sd);
      }
    }
  }

  lemma MultiplyCancels(a: real, b: real, m: real)
    requires a * m == b * m && 0.0 < m
    ensures a == b
  {
    if a < b {
      MultiplyStrictlyMonotone(a, b, m);
    } else if b < a {
      MultiplyStrictlyMonotone(b, a, m);
    }
  }

  /**
   The exon class (mean 462 on `[2, 14544]`, deviation `(14544 - 2) / 6`) is
   far from symmetric: its interval is about `[-0.19, 5.81]` deviations.
   */
  lemma ExonBoundsSkewed()
    ensures var b := StandardBounds(462.0, 2.0, 14544.0, EstimatedStd(2.0, 14544.0));
            -1.0 < b.lower < 0.0 && 5.0 < b.upper < 6.0
  {
    var sd := EstimatedStd(2.0, 14544.0);
    var b := StandardBounds(462.0, 2.0, 14544.0, sd);
    assert b.lower * sd == -460.0;
    assert b.upper * sd == 14082.0;
    if b.lower <= -1.0 {
      MultiplyMonotone(b.lower, -1.0, sd);
    }
    if 0.0 <= b.lower {
      MultiplyMonotone(0.0, b.lower, sd);
    }
    if b.upper <= 5.0 {
      MultiplyMonotone(b.upper, 5.0, sd);
    }
    if 6.0 <= b.upper {
      MultiplyMonotone(6.0, b.upper, sd);
    }
  }

  /** A standard draw inside the bounds. */
  predicate WithinBounds(b: Bounds, zs: seq<real>)
  {
    forall i :: 0 <= i < |zs| ==> b.lower <= zs[i] <= b.upper
  }

  /**
   `truncnorm(lower, upper, loc=mean, scale=stdv).rvs(n)`: each standard draw
   `z` in `[lower, upper]` becomes the length `mean + stdv * z`. Every sample
   lies in `[min_val, max_val]`, and there is one sample per draw.
   */
  function SampleLengths(mean: real, minVal: real, maxVal: real, stdv: real, zs: seq<real>): (samples: seq<real>)
    requires 0.0 < stdv && WithinBounds(StandardBounds(mean, minVal, maxVal, stdv), zs)
    ensures |samples| == |zs|
    ensures forall i :: 0 <= i < |samples| ==> minVal <= samples[i] <= maxVal
  {
    var samples := seq(|zs|, i requires 0 <= i < |zs| => mean + stdv * zs[i]);
    assert forall i :: 0 <= i < |samples| ==> minVal <= samples[i] <= maxVal by {
      forall i | 0 <= i < |samples| ensures minVal <= samples[i] <= maxVal {
        SampleInRange(mean, minVal, maxVal, stdv, zs[i]);
      }
    }
    samples
  }

  /** One standard draw inside the bounds maps to a length inside the range. */
  lemma SampleInRange(mean: real, minVal: real, maxVal: real, stdv: real, z: real)
    requires 0.0 < stdv
    requires var b := StandardBounds(mean, minVal, maxVal, stdv); b.lower <= z <= b.upper
    ensures minVal <= mean + stdv * z <= maxVal
  {
    var b := StandardBounds(mean, minVal, maxVal, stdv);
    ScaleMonotone(b.lower, z, b.upper, stdv);
  }

  lemma ScaleMonotone(lo: real, z: real, hi: real, k: real)
    requires lo <= z <= hi && 0.0 < k
    ensures lo * k <= k * z <= hi * k
  {
    assert (z - lo) * k >= 0.0;
    assert (hi - z) * k >= 0.0;
  }

  /**
   `int(total / mean)` with `total = (genome_size - sum(exon_lengths)) * proportion`:
   for a non-negative total and a positive mean it is the largest count of
   mean-length elements whose combined length stays within the total.
   */
  function ClassCount(genomeSize: real, exonLengths: seq<real>, proportion: real, mean: real): (n: int)
    requires mean != 0.0
    ensures var total := (genomeSize - SumR(exonLengths)) * proportion;
            0.0 <= total && 0.0 < mean ==>
              && 0 <= n
              && n as real * mean <= total
              && total < (n + 1) as real * mean
  {
    var total := (genomeSize - SumR(exonLengths)) * proportion;
    FloorTimesMean(total, mean);
    Trunc(total / mean)
  }

  lemma FloorTimesMean(total: real, mean: real)
    requires mean != 0.0
    ensures var n := Trunc(total / mean);
            0.0 <= total && 0.0 < mean ==> 0 <= n && n as real * mean <= total < (n + 1) as real * mean
  {
    if 0.0 <= total && 0.0 < mean {
      var q := total / mean;
      DivisionCancels(total, mean, q);
      var n := Trunc(q);
      MultiplyMonotone(n as real, q, mean);
      MultiplyStrictlyMonotone(q, (n + 1) as real, mean);
      assert q * mean < (n + 1) as real * mean;
      assert total < (n + 1) as real * mean;
    }
  }

  lemma DivisionCancels(total: real, mean: real, q: real)
    requires 0.0 <= total && 0.0 < mean && q == total / mean
    ensures 0.0 <= q && q * mean == total
  {
  }

  lemma MultiplyMonotone(a: real, b: real, m: real)
    requires a <= b && 0.0 < m
    ensures a * m <= b * m
  {
    assert (b - a) * m >= 0.0;
  }

  lemma MultiplyStrictlyMonotone(a: real, b: real, m: real)
    requires a < b && 0.0 < m
    ensures a * m < b * m
  {
    assert (b - a) * m > 0.0;
  }

  /**
   The four sizes of the composition chart: exons, retrotransposons, DNA
   transposons and the non-coding remainder. They add up to the genome size.
   */
  function CompositionSizes(genomeSize: real, exons: seq<real>, retros: seq<real>, dnas: seq<real>): (sizes: seq<real>)
    ensures |sizes| == 4 && sizes[..3] == [SumR(exons), SumR(retros), SumR(dnas)]
    ensures sizes[3] == NonCodingLength(genomeSize, exons, retros, dnas)
    ensures SumR(sizes) == genomeSize
  {
    var sizes := [SumR(exons), SumR(retros), SumR(dnas), NonCodingLength(genomeSize, exons, retros, dnas)];
    assert SumR(sizes[3..]) == sizes[3] by {
      assert sizes[3..][1..] == [];
    }
    assert sizes[2..][1..] == sizes[3..];
    assert SumR(sizes[2..]) == sizes[2] + sizes[3];
    assert sizes[1..][1..] == sizes[2..];
    assert SumR(sizes[1..]) == sizes[1] + sizes[2] + sizes[3];
    assert SumR(sizes) == sizes[0] + sizes[1] + sizes[2] + sizes[3];
    sizes
  }

  /** Every element multiplied by `k`. */
  function Scale(s: seq<real>, k: real): (r: seq<real>)
    ensures |r| == |s|
    ensures forall i :: 0 <= i < |r| ==> r[i] == s[i] * k
  {
    if |s| == 0 then [] else [s[0] * k] + Scale(s[1..], k)
  }

  lemma {:induction false} SumRScale(s: seq<real>, k: real)
    ensures SumR(Scale(s, k)) == SumR(s) * k
  {
    if |s| > 0 {
      assert Scale(s, k)[1..] == Scale(s[1..], k);
      SumRScale(s[1..], k);
    }
  }

  /** Each size as a percentage of their total, as the chart labels them. */
  function Percentages(sizes: seq<real>): (p: seq<real>)
    requires SumR(sizes) != 0.0
    ensures |p| == |sizes|
    ensures forall i :: 0 <= i < |p| ==> p[i] == sizes[i] * (100.0 / SumR(sizes))
  {
    Scale(sizes, 100.0 / SumR(sizes))
  }

  /** The chart's percentages add up to 100. */
  lemma PercentagesSumTo100(sizes: seq<real>)
    requires SumR(sizes) != 0.0
    ensures SumR(Percentages(sizes)) == 100.0
  {
    SumRScale(sizes, 100.0 / SumR(sizes));
  }
}
