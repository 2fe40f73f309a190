/**
 Arithmetic shared by the rest of the model: Python's `int()` on a float,
 sums of integer and real sequences (numpy's `.sum()` and Python's `sum`),
 and the number of cells of a row that hold a given tag.
 */
module Numbers {

  /** Python's `int(x)` for a float `x`: rounds toward zero. */
  function Trunc(x: real): (n: int)
    ensures 0.0 <= x ==> 0 <= n && n as real <= x < n as real + 1.0
    ensures x < 0.0 ==> n <= 0 && n as real - 1.0 < x <= n as real
  {
    if 0.0 <= x then x.Floor else -((-x).Floor)
  }

  /** Sum of an integer sequence, as numpy's `.sum()` on an integer slice. */
  function Sum(s: seq<int>): int
  {
    if |s| == 0 then 0 else s[0] + Sum(s[1..])
  }

  /** Sum of a real sequence, as Python's built-in `sum` on a float array. */
  function SumR(s: seq<real>): real
  {
    if |s| == 0 then 0.0 else s[0] + SumR(s[1..])
  }

  predicate NonNegative(s: seq<int>)
  {
    forall i :: 0 <= i < |s| ==> 0 <= s[i]
  }

  predicate AllZero(s: seq<int>)
  {
    forall i :: 0 <= i < |s| ==> s[i] == 0
  }

  /** Number of positions of `s` that hold `t`. */
  function Count(s: seq<int>, t: int): (n: nat)
    ensures n <= |s|
  {
    if |s| == 0 then 0 else (if s[0] == t then 1 else 0) + Count(s[1..], t)
  }

  lemma {:induction false} SumNonNegative(s: seq<int>)
    requires NonNegative(s)
    ensures 0 <= Sum(s)
  {
    if |s| > 0 {
      assert NonNegative(s[1..]) by {
        forall i | 0 <= i < |s[1..]| ensures 0 <= s[1..][i] {
          assert s[1..][i] == s[i + 1];
        }
      }
      SumNonNegative(s[1..]);
    }
  }

  /**
   The emptiness test `slice.sum() == 0`: on a slice with no negative cell
   it holds exactly when every cell is zero.
   */
  lemma {:induction false} SumZeroIffAllZero(s: seq<int>)
    requires NonNegative(s)
    ensures Sum(s) == 0 <==> AllZero(s)
  {
    if |s| > 0 {
      var tail := s[1..];
      assert NonNegative(tail) by {
        forall i | 0 <= i < |tail| ensures 0 <= tail[i] {
          assert tail[i] == s[i + 1];
        }
      }
      SumNonNegative(tail);
      SumZeroIffAllZero(tail);
      if Sum(s) == 0 {
        assert s[0] == 0 && Sum(tail) == 0;
        forall i | 0 <= i < |s| ensures s[i] == 0 {
          if i > 0 {
            assert s[i] == tail[i - 1];
          }
        }
      }
      if AllZero(s) {
        forall i | 0 <= i < |tail| ensures tail[i] == 0 {
          assert tail[i] == s[i + 1];
        }
      }
    }
  }

  lemma {:induction false} SumAppend(a: seq<int>, b: seq<int>)
    ensures Sum(a + b) == Sum(a) + Sum(b)
  {
    if |a| == 0 {
      assert a + b == b;
    } else {
      assert (a + b)[1..] == a[1..] + b;
      SumAppend(a[1..], b);
    }
  }

  lemma {:induction false} SumRAppend(a: seq<real>, b: seq<real>)
    ensures SumR(a + b) == SumR(a) + SumR(b)
  {
    if |a| == 0 {
      assert a + b == b;
    } else {
      assert (a + b)[1..] == a[1..] + b;
      SumRAppend(a[1..], b);
    }
  }

  lemma {:induction false} CountAppend(a: seq<int>, b: seq<int>, t: int)
    ensures Count(a + b, t) == Count(a, t) + Count(b, t)
  {
    if |a| == 0 {
      assert a + b == b;
    } else {
      assert (a + b)[1..] == a[1..] + b;
      CountAppend(a[1..], b, t);
    }
  }

  /** A run of `n` copies of `v` holds `t` exactly `n` times if `v == t`, else never. */
  lemma {:induction false} CountConstant(n: nat, v: int, t: int)
    ensures Count(seq(n, _ => v), t) == if v == t then n else 0
  {
    if n > 0 {
      assert seq(n, _ => v)[1..] == seq(n - 1, _ => v);
      CountConstant(n - 1, v, t);
    }
  }
}
