/** Scaling a weight vector to sum to the largest 16-bit number. Casts to 16 bits are written out. */
module Weights {
  import opened Basics

  const U16_MAX: nat := 65535

  /** Also the shape of the input: a neuron's uid with its weight. */
  datatype Weight = Weight(uid: nat, weight: nat)

  function Total(ws: seq<Weight>): nat {
    if ws == [] then 0 else Total(ws[..|ws| - 1]) + ws[|ws| - 1].weight
  }

  function NonZero(ws: seq<Weight>): nat {
    if ws == [] then 0 else NonZero(ws[..|ws| - 1]) + if ws[|ws| - 1].weight > 0 then 1 else 0
  }

  /** The truncating cast. */
  function AsU16(n: nat): (r: nat)
    ensures n <= U16_MAX ==> r == n
  {
    n % (U16_MAX + 1)
  }

  function Part(weight: nat, total: nat): nat
    requires total > 0
  {
    weight * U16_MAX / total
  }

  function Scaled(w: Weight, total: nat): Weight
    requires total > 0
  {
    Weight(w.uid, AsU16(Part(w.weight, total)))
  }

  function Normalize(ws: seq<Weight>): seq<Weight> {
    var total := Total(ws);
    if total == 0 then seq(|ws|, i requires 0 <= i < |ws| => Weight(ws[i].uid, 0))
    else seq(|ws|, i requires 0 <= i < |ws| => Scaled(ws[i], total))
  }

  lemma {:induction false} PartOfTotal(ws: seq<Weight>, i: nat)
    requires i < |ws|
    ensures ws[i].weight <= Total(ws)
  {
    if i < |ws| - 1 {
      PartOfTotal(ws[..|ws| - 1], i);
    }
  }

  lemma QuotientAtMost(w: nat, total: nat)
    requires 0 < total && w <= total
    ensures Part(w, total) <= U16_MAX
  {
    DivBounds(w * U16_MAX, total);
    if w * U16_MAX / total > U16_MAX {
      MulMono(U16_MAX + 1, w * U16_MAX / total, total);
      MulMono(w, total, U16_MAX);
      assert false;
    }
  }

  /** Order and uids are kept, no cast loses anything, and an output is the exact share of the target rounded down. */
  lemma CastsAreLossless(ws: seq<Weight>, i: nat)
    requires i < |ws|
    ensures |Normalize(ws)| == |ws| && Normalize(ws)[i].uid == ws[i].uid
    ensures Total(ws) > 0 ==> Normalize(ws)[i].weight == Part(ws[i].weight, Total(ws)) <= U16_MAX
    ensures Total(ws) == 0 ==> Normalize(ws)[i].weight == 0
    ensures Total(ws) > 0 ==>
              var out := Normalize(ws)[i].weight;
              out * Total(ws) <= ws[i].weight * 65535 < (out + 1) * Total(ws)
  {
    PartOfTotal(ws, i);
    if Total(ws) > 0 {
      QuotientAtMost(ws[i].weight, Total(ws));
      DivBounds(ws[i].weight * U16_MAX, Total(ws));
    }
  }

  // ----- The sum -----

  /** The sum of the first `k` outputs, and of the remainders their divisions leave. */
  function Outputs(ws: seq<Weight>, total: nat, k: nat): nat
    requires total > 0 && k <= |ws|
  {
    if k == 0 then 0 else Outputs(ws, total, k - 1) + Part(ws[k - 1].weight, total)
  }

  function Remainders(ws: seq<Weight>, total: nat, k: nat): nat
    requires total > 0 && k <= |ws|
  {
    if k == 0 then 0 else Remainders(ws, total, k - 1) + ws[k - 1].weight * U16_MAX % total
  }

  lemma Distribute(a: int, b: int, c: int)
    ensures (a + b) * c == a * c + b * c
  {
  }

  lemma {:induction false} NothingIsLost(ws: seq<Weight>, total: nat, k: nat)
    requires total > 0 && k <= |ws|
    ensures Outputs(ws, total, k) * total + Remainders(ws, total, k) == Total(ws[..k]) * U16_MAX
  {
    if k == 0 {
    } else {
      NothingIsLost(ws, total, k - 1);
      var x := ws[k - 1].weight * U16_MAX;
      assert ws[..k][..k - 1] == ws[..k - 1];
      assert x == x / total * total + x % total;
      Distribute(Outputs(ws, total, k - 1), x / total, total);
      Distribute(Total(ws[..k - 1]), ws[k - 1].weight, U16_MAX);
    }
  }

  lemma RemainderBounded(weight: nat, total: nat)
    requires total > 0
    ensures weight * U16_MAX % total <= if weight > 0 then total - 1 else 0
  {
    if weight == 0 {
      assert weight * U16_MAX == 0;
    }
  }

  lemma {:induction false} RemaindersBounded(ws: seq<Weight>, total: nat, k: nat)
    requires total > 0 && k <= |ws|
    ensures Remainders(ws, total, k) <= NonZero(ws[..k]) * (total - 1)
  {
    if k == 0 {
    } else {
      RemaindersBounded(ws, total, k - 1);
      RemainderBounded(ws[k - 1].weight, total);
      assert ws[..k][..k - 1] == ws[..k - 1];
      Distribute(NonZero(ws[..k - 1]), 1, total - 1);
    }
  }

  lemma {:induction false} OutputsAreTheTotal(ws: seq<Weight>, k: nat)
    requires Total(ws) > 0 && k <= |ws|
    ensures |Normalize(ws)| == |ws| && Total(Normalize(ws)[..k]) == Outputs(ws, Total(ws), k)
    decreases k
  {
    if k == 0 {
    } else {
      OutputsAreTheTotal(ws, k - 1);
      CastsAreLossless(ws, k - 1);
      assert Normalize(ws)[..k][..k - 1] == Normalize(ws)[..k - 1];
    }
  }

  lemma SomeNonZero(ws: seq<Weight>)
    requires Total(ws) > 0
    ensures NonZero(ws) >= 1
  {
  }

  lemma SumBounds(sum: nat, rest: nat, total: nat, k: nat)
    requires total > 0 && k >= 1
    requires sum * total + rest == total * U16_MAX && rest <= k * (total - 1)
    ensures U16_MAX - (k - 1) <= sum <= U16_MAX
  {
    if sum > U16_MAX {
      MulMono(U16_MAX + 1, sum, total);
      assert false;
    }
    if sum < U16_MAX - (k - 1) {
      MulMono(sum + k, U16_MAX, total);
      Distribute(sum, k, total);
      assert false;
    }
  }

  /** The outputs sum to the target but for rounding, which costs less than one per non-zero weight. */
  lemma NormalizedSum(ws: seq<Weight>)
    requires Total(ws) > 0
    ensures U16_MAX - (NonZero(ws) - 1) <= Total(Normalize(ws)) <= U16_MAX
  {
    var t, n := Total(ws), |ws|;
    OutputsAreTheTotal(ws, n);
    assert ws[..n] == ws && Normalize(ws)[..n] == Normalize(ws);
    NothingIsLost(ws, t, n);
    RemaindersBounded(ws, t, n);
    SomeNonZero(ws);
    SumBounds(Total(Normalize(ws)), Remainders(ws, t, n), t, NonZero(ws));
  }

  // ----- Order, scale and fixed points -----

  lemma QuotientMono(a: nat, b: nat, d: nat)
    requires d > 0 && a <= b
    ensures a / d <= b / d
  {
    DivBounds(a, d);
    DivBounds(b, d);
    if a / d > b / d {
      MulMono(b / d + 1, a / d, d);
      assert false;
    }
  }

  lemma LargerStaysLarger(ws: seq<Weight>, i: nat, j: nat)
    requires i < |ws| && j < |ws| && ws[i].weight <= ws[j].weight
    ensures |Normalize(ws)| == |ws| && Normalize(ws)[i].weight <= Normalize(ws)[j].weight
  {
    CastsAreLossless(ws, i);
    CastsAreLossless(ws, j);
    if Total(ws) > 0 {
      MulMono(ws[i].weight, ws[j].weight, U16_MAX);
      QuotientMono(ws[i].weight * U16_MAX, ws[j].weight * U16_MAX, Total(ws));
    }
  }

  function Times(ws: seq<Weight>, c: nat): seq<Weight> {
    seq(|ws|, i requires 0 <= i < |ws| => Weight(ws[i].uid, c * ws[i].weight))
  }

  lemma {:induction false} TotalScales(ws: seq<Weight>, c: nat)
    ensures Total(Times(ws, c)) == c * Total(ws)
  {
    if ws == [] {
    } else {
      var n := |ws| - 1;
      TotalScales(ws[..n], c);
      assert Times(ws, c)[..n] == Times(ws[..n], c);
      Distribute(Total(ws[..n]), ws[n].weight, c);
    }
  }

  lemma QuotientScales(x: nat, d: nat, c: nat)
    requires d > 0 && c > 0
    ensures c * d > 0 && c * x / (c * d) == x / d
  {
    var q, r := x / d, x % d;
    DivBounds(x, d);
    MulMono(1, c, d);
    var y := c * x;
    DivBounds(y, c * d);
    assert y == q * (c * d) + c * r by {
      assert x == q * d + r;
      assert c * (q * d + r) == c * (q * d) + c * r;
      assert c * (q * d) == q * (c * d);
    }
    assert c * r < c * d by {
      MulMono(r + 1, d, c);
      Distribute(r, 1, c);
    }
    if y / (c * d) < q {
      MulMono(y / (c * d) + 1, q, c * d);
      assert false;
    } else if y / (c * d) > q {
      MulMono(q + 1, y / (c * d), c * d);
      Distribute(q, 1, c * d);
      assert false;
    }
  }

  /** Multiplying all weights by a constant changes nothing. */
  lemma ScaleInvariant(ws: seq<Weight>, c: nat)
    requires c > 0
    ensures Normalize(Times(ws, c)) == Normalize(ws)
  {
    TotalScales(ws, c);
    var scaled := Times(ws, c);
    if Total(ws) > 0 {
      MulMono(1, c, Total(ws));
      forall i | 0 <= i < |ws|
        ensures Normalize(scaled)[i] == Normalize(ws)[i]
      {
        QuotientScales(ws[i].weight * U16_MAX, Total(ws), c);
        assert c * ws[i].weight * U16_MAX == c * (ws[i].weight * U16_MAX);
      }
    }
  }

  /** A vector that already sums to the target is left as it is. */
  lemma FixedPoint(ws: seq<Weight>)
    requires Total(ws) == U16_MAX
    ensures Normalize(ws) == ws
  {
    forall i | 0 <= i < |ws|
      ensures Normalize(ws)[i] == ws[i]
    {
      CastsAreLossless(ws, i);
    }
  }
}
