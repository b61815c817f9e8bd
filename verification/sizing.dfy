/**
 * Integer sizing of a FANN network: how many neurons each layer holds, where
 * each layer starts in the neuron arena, how many connections a pair of
 * layers gets and how they are split over the receiving neurons, and how
 * buffers are padded to the accelerator's work-item granularity.
 */
module Sizing {
  import opened FannTypes

  /** Number of neurons in the layers before layer L, when layer i holds counts[i]. */
  function Start(counts: seq<nat>, L: nat): nat
    requires L <= |counts|
  {
    if L == 0 then 0 else Start(counts, L - 1) + counts[L - 1]
  }

  function Sum(s: seq<nat>): nat
  {
    Start(s, |s|)
  }

  lemma StartStep(counts: seq<nat>, prev: nat, L: nat)
    requires prev < |counts| && L == prev + 1
    ensures Start(counts, L) == Start(counts, prev) + counts[prev]
  {
  }

  /** Layer a ends no later than layer b starts. */
  lemma {:induction false} StartMonotone(counts: seq<nat>, a: nat, b: nat)
    requires a < b <= |counts|
    ensures Start(counts, a) + counts[a] <= Start(counts, b)
  {
    if b > a + 1 {
      StartMonotone(counts, a, b - 1);
    }
  }

  /** Start depends only on the counts of the layers before L. */
  lemma {:induction false} StartPrefix(c1: seq<nat>, c2: seq<nat>, L: nat)
    requires L <= |c1| && L <= |c2| && c1[..L] == c2[..L]
    ensures Start(c1, L) == Start(c2, L)
  {
    if L > 0 {
      assert c1[..L - 1] == c2[..L - 1] by {
        assert c1[..L - 1] == c1[..L][..L - 1];
        assert c2[..L - 1] == c2[..L][..L - 1];
      }
      assert c1[L - 1] == c1[..L][L - 1] == c2[..L][L - 1] == c2[L - 1];
      StartPrefix(c1, c2, L - 1);
    }
  }

  // ---------------------------------------------------------------------
  // Neuron counts per layer, and what the introspection getters report.
  // ---------------------------------------------------------------------

  /** A layered network gives every layer one extra (bias) neuron. */
  function LayeredCounts(sizes: seq<nat>): seq<nat>
  {
    seq(|sizes|, i requires 0 <= i < |sizes| => sizes[i] + 1)
  }

  /** A shortcut network has one bias neuron only, in the first layer. */
  function ShortcutCounts(sizes: seq<nat>): seq<nat>
  {
    seq(|sizes|, i requires 0 <= i < |sizes| => if i == 0 then sizes[0] + 1 else sizes[i])
  }

  function NeuronCounts(sizes: seq<nat>, t: NetType): seq<nat>
  {
    if t == LayeredNet then LayeredCounts(sizes) else ShortcutCounts(sizes)
  }

  /** An unsigned 32-bit decrement: 0 wraps to 2^32 - 1. */
  function Pred32(x: nat): nat
  {
    if x == 0 then 0xFFFF_FFFF else x - 1
  }

  /** The layer sizes fann_get_layer_array reports for the given neuron counts:
      the bias is removed from every layer (layered) or from the first only (shortcut). */
  function ReportedSizes(counts: seq<nat>, t: NetType): seq<nat>
  {
    seq(|counts|, i requires 0 <= i < |counts| =>
      if t == LayeredNet || i == 0 then Pred32(counts[i]) else counts[i])
  }

  /** The bias counts fann_get_bias_array reports for a network of numLayers layers. */
  function ReportedBiases(numLayers: nat, t: NetType): seq<nat>
  {
    seq(numLayers, i requires 0 <= i < numLayers =>
      if t == LayeredNet then (if i != numLayers - 1 then 1 else 0)
      else (if i == 0 then 1 else 0))
  }

  /** fann_get_total_neurons: a layered network does not count the unused
      bias neuron of its last layer. */
  function TotalNeuronsReported(totalNeurons: nat, t: NetType): nat
  {
    if t == ShortcutNet then totalNeurons else Pred32(totalNeurons)
  }

  /** Building from `sizes` and reading the layer array back gives `sizes`. */
  lemma LayerArrayRoundTrip(sizes: seq<nat>, t: NetType)
    ensures ReportedSizes(NeuronCounts(sizes, t), t) == sizes
  {
  }

  /** Every layer holds the bias neurons its network type gives it: all of
      them in a layered network, the first one in a shortcut network. */
  predicate BiasesPresent(counts: seq<nat>, t: NetType)
  {
    && |counts| >= 1 && counts[0] >= 1
    && (t == LayeredNet ==> forall j :: 0 <= j < |counts| ==> counts[j] >= 1)
  }

  /** Counts that hold their biases are the counts of the sizes read back from them. */
  lemma {:induction false} BiasesPresentSizes(counts: seq<nat>, t: NetType)
    requires BiasesPresent(counts, t)
    ensures NeuronCounts(ReportedSizes(counts, t), t) == counts
  {
  }

  lemma {:induction false} LayeredStart(sizes: seq<nat>, L: nat)
    requires L <= |sizes|
    ensures Start(LayeredCounts(sizes), L) == Start(sizes, L) + L
  {
    if L > 0 {
      LayeredStart(sizes, L - 1);
    }
  }

  lemma {:induction false} ShortcutStart(sizes: seq<nat>, L: nat)
    requires L <= |sizes|
    ensures Start(ShortcutCounts(sizes), L) == Start(sizes, L) + (if L == 0 then 0 else 1)
  {
    if L > 0 {
      ShortcutStart(sizes, L - 1);
    }
  }

  lemma {:induction false} LayeredBiasStart(numLayers: nat, L: nat)
    requires L < numLayers
    ensures Start(ReportedBiases(numLayers, LayeredNet), L) == L
  {
    if L > 0 {
      LayeredBiasStart(numLayers, L - 1);
    }
  }

  lemma {:induction false} ShortcutBiasStart(numLayers: nat, L: nat)
    requires L <= numLayers
    ensures Start(ReportedBiases(numLayers, ShortcutNet), L) == (if L == 0 then 0 else 1)
  {
    if L > 0 {
      ShortcutBiasStart(numLayers, L - 1);
    }
  }

  /** The total neuron count the getter reports is the sum of the reported layer
      sizes plus the reported biases. */
  lemma TotalNeuronsMatchesLayerArray(sizes: seq<nat>, t: NetType)
    requires |sizes| >= 1
    ensures TotalNeuronsReported(Sum(NeuronCounts(sizes, t)), t)
         == Sum(sizes) + Sum(ReportedBiases(|sizes|, t))
  {
    var n := |sizes|;
    if t == LayeredNet {
      LayeredStart(sizes, n);
      LayeredBiasStart(n, n - 1);
      assert Sum(ReportedBiases(n, t)) == n - 1;
    } else {
      ShortcutStart(sizes, n);
      ShortcutBiasStart(n, n);
    }
  }

  // ---------------------------------------------------------------------
  // Connections between two consecutive layers of a layered network.
  // ---------------------------------------------------------------------

  function Max(a: nat, b: nat): nat
  {
    if a < b then b else a
  }

  /** The builder clamps a connection rate above 1 to 1. */
  function EffectiveRate(rate: real): real
  {
    if rate > 1.0 then 1.0 else rate
  }

  /** (unsigned int)(0.5 + x): the cast truncates toward zero, so for x >= 0
      this rounds to the nearest integer, halves up, and a negative x whose
      sum with 0.5 lies in (-1, 0] gives 0. */
  function RoundHalfUp(x: real): nat
  {
    if 0.5 + x <= 0.0 then 0 else (0.5 + x).Floor
  }

  /** Connection slots for a layer of numOut neurons fed by numIn neurons:
      at least one per neuron on either side, at least round(rate * numIn * numOut),
      plus one bias slot per receiving neuron. */
  function Target(numIn: nat, numOut: nat, rate: real): nat
  {
    Max(Max(numIn, numOut), RoundHalfUp(EffectiveRate(rate) * (numIn * numOut) as real)) + numOut
  }

  lemma RoundBelowBound(x: real, m: nat)
    requires x <= m as real
    ensures RoundHalfUp(x) <= m
  {
  }

  lemma RealMulLe(e: real, m: real)
    requires 0.0 <= e <= 1.0 && 0.0 <= m
    ensures e * m <= m
  {
    assert m - e * m == (1.0 - e) * m;
  }

  lemma ScaledBelow(e: real, m: real)
    requires e <= 1.0 && 0.0 <= m
    ensures e * m <= m
  {
    if e >= 0.0 {
      RealMulLe(e, m);
    } else {
      assert e * m == -((-e) * m);
    }
  }

  lemma MulBounds(a: nat, b: nat)
    requires a >= 1 && b >= 1
    ensures Max(a, b) <= a * b
  {
    assert a * b >= a * 1;
    assert a * b >= 1 * b;
  }

  /** Whatever the rate, the slot count lies between one slot per neuron on
      both sides (plus biases) and full connection (plus biases). */
  lemma TargetBounds(numIn: nat, numOut: nat, rate: real)
    requires numIn >= 1 && numOut >= 1
    ensures numIn + numOut <= Target(numIn, numOut, rate) <= (numIn + 1) * numOut
  {
    var m := numIn * numOut;
    var e := EffectiveRate(rate);
    ScaledBelow(e, m as real);
    RoundBelowBound(e * m as real, m);
    MulBounds(numIn, numOut);
    assert (numIn + 1) * numOut == m + numOut;
  }

  /** A rate of zero or below asks for no more than the minimum: one slot per
      neuron on the larger side, plus the biases; the stored negative rate
      builds the same layer as rate 0. */
  lemma TargetNonPositive(numIn: nat, numOut: nat, rate: real)
    requires rate <= 0.0
    ensures Target(numIn, numOut, rate) == Max(numIn, numOut) + numOut == Target(numIn, numOut, 0.0)
  {
    assert rate * (numIn * numOut) as real <= 0.0;
  }

  /** Slots per receiving neuron of a fully connected layer: one per feeding
      neuron plus the bias. An empty feeding layer still gets the builder's
      minimum of one connection per receiving neuron, plus the bias slot. */
  function FullWidth(numIn: nat): nat
  {
    Max(numIn, 1) + 1
  }

  /** A rate of one or more asks for full connection: FullWidth(numIn) slots per neuron. */
  lemma TargetFull(numIn: nat, numOut: nat, rate: real)
    requires numOut >= 1 && rate >= 1.0
    ensures Target(numIn, numOut, rate) == FullWidth(numIn) * numOut
  {
    var m := numIn * numOut;
    assert EffectiveRate(rate) * m as real == m as real;
    assert RoundHalfUp(m as real) == m;
    if numIn >= 1 {
      MulBounds(numIn, numOut);
      assert (numIn + 1) * numOut == m + numOut;
    } else {
      assert m == 0;
    }
  }

  // ---------------------------------------------------------------------
  // Splitting n slots over numOut neurons.
  // ---------------------------------------------------------------------

  /** Slots given to the first i of numOut neurons that share n slots. */
  function Boundary(n: nat, numOut: nat, i: nat): nat
    requires numOut > 0
  {
    n * i / numOut
  }

  /** One more row of c: (a + 1) * c, written b * c, is a * c + c. */
  lemma MulSucc(a: int, b: int, c: int)
    requires b == a + 1
    ensures b * c == a * c + c
  {
  }

  lemma MulLe(a: nat, b: nat, c: nat)
    requires a <= b
    ensures a * c <= b * c
  {
    assert b * c == a * c + (b - a) * c;
  }

  lemma MulMono(a: nat, b: nat, c: nat)
    ensures a <= b ==> a * c <= b * c
  {
    if a <= b {
      MulLe(a, b, c);
    }
  }

  lemma DivUnique(a: nat, d: nat, q: nat)
    requires d > 0 && q * d <= a < q * d + d
    ensures a / d == q
  {
    var r := a / d;
    assert a == r * d + a % d;
    assert (r + 1) * d == r * d + d;
    assert (q + 1) * d == q * d + d;
    MulMono(r + 1, q, d);
    MulMono(q + 1, r, d);
  }

  lemma BoundaryEnds(n: nat, numOut: nat)
    requires numOut > 0
    ensures Boundary(n, numOut, 0) == 0
    ensures Boundary(n, numOut, numOut) == n
  {
    DivUnique(n * numOut, numOut, n);
  }

  /** Consecutive boundaries differ by floor(n / numOut) or by one more. */
  lemma BoundaryStep(n: nat, numOut: nat, i: nat)
    requires numOut > 0
    ensures Boundary(n, numOut, i) + n / numOut <= Boundary(n, numOut, i + 1)
    ensures Boundary(n, numOut, i + 1) <= Boundary(n, numOut, i) + n / numOut + 1
  {
    var q, r := n / numOut, n % numOut;
    var b, s := (n * i) / numOut, (n * i) % numOut;
    assert n * i == b * numOut + s;
    assert n == q * numOut + r;
    assert n * (i + 1) == n * i + n;
    assert (b + q) * numOut == b * numOut + q * numOut;
    assert n * (i + 1) == (b + q) * numOut + (s + r);
    if s + r < numOut {
      DivUnique(n * (i + 1), numOut, b + q);
    } else {
      assert (b + q + 1) * numOut == (b + q) * numOut + numOut;
      DivUnique(n * (i + 1), numOut, b + q + 1);
    }
  }

  /** The builder's running allocation: add floor(n / numOut), and one more
      while behind the proportional share. After neuron i it equals Boundary(i + 1). */
  lemma AllocationStep(n: nat, numOut: nat, i: nat)
    requires numOut > 0
    ensures var a := Boundary(n, numOut, i) + n / numOut;
            (if a < n * (i + 1) / numOut then a + 1 else a) == Boundary(n, numOut, i + 1)
  {
    BoundaryStep(n, numOut, i);
  }

  lemma {:induction false} BoundaryMonotone(n: nat, numOut: nat, i: nat, j: nat)
    requires numOut > 0 && i <= j
    ensures Boundary(n, numOut, i) <= Boundary(n, numOut, j)
  {
    if i < j {
      var k := j - 1;
      BoundaryMonotone(n, numOut, i, k);
      BoundaryStep(n, numOut, k);
      assert k + 1 == j;
    }
  }

  /** Every receiving neuron gets at least one slot when there are at least as
      many slots as neurons, and at most numIn + 1 when n is within full connection. */
  lemma BoundaryStepBounds(n: nat, numOut: nat, numIn: nat, i: nat)
    requires numOut > 0 && numOut <= n <= (numIn + 1) * numOut
    ensures Boundary(n, numOut, i) + 1 <= Boundary(n, numOut, i + 1)
    ensures Boundary(n, numOut, i + 1) <= Boundary(n, numOut, i) + numIn + 1
  {
    BoundaryStep(n, numOut, i);
    var q := n / numOut;
    assert n == q * numOut + n % numOut;
    if q == 0 {
      assert false;
    }
    if n == (numIn + 1) * numOut {
      BoundaryUniform(numIn + 1, numOut, i);
      BoundaryUniform(numIn + 1, numOut, i + 1);
    } else if q > numIn {
      MulLe(numIn + 1, q, numOut);
      assert false;
    }
  }

  /** When every neuron gets the same number w of slots, neuron i's share starts at w * i. */
  lemma BoundaryUniform(w: nat, numOut: nat, i: nat)
    requires numOut > 0
    ensures Boundary(w * numOut, numOut, i) == w * i
  {
    var n := w * numOut;
    assert n * i == (w * i) * numOut;
    DivUnique(n * i, numOut, w * i);
  }

  // ---------------------------------------------------------------------
  // Padding to the accelerator's work-item granularity.
  // ---------------------------------------------------------------------

  function CeilDiv(n: nat, w: nat): nat
    requires w > 0
  {
    (n + w - 1) / w
  }

  /** ceil(n / W) * W: n rounded up to a multiple of W. */
  function Padded(n: nat, w: nat): nat
    requires w > 0
  {
    CeilDiv(n, w) * w
  }

  /** The padded size is the least multiple of w that holds n elements. */
  lemma PaddedBounds(n: nat, w: nat)
    requires w > 0
    ensures n <= Padded(n, w) < n + w
    ensures Padded(n, w) % w == 0
  {
    var c := CeilDiv(n, w);
    assert w * c <= n + w - 1 < w * c + w;
    assert Padded(n, w) == w * c;
    DivUnique(w * c, w, c);
    assert (w * c) % w == 0;
  }

  /** n padded, plus k further blocks of w: a multiple of w holding n and at
      least k spare blocks, with less than one block more. */
  lemma PaddedExtra(n: nat, w: nat, k: nat)
    requires w > 0
    ensures n + k * w <= Padded(n, w) + k * w < n + (k + 1) * w
    ensures (Padded(n, w) + k * w) % w == 0
  {
    PaddedBounds(n, w);
    var c := CeilDiv(n, w);
    assert Padded(n, w) + k * w == (c + k) * w;
    DivUnique((c + k) * w, w, c + k);
    assert (k + 1) * w == k * w + w;
  }

  lemma PaddedLeast(n: nat, w: nat, m: nat)
    requires w > 0 && m % w == 0 && n <= m
    ensures Padded(n, w) <= m
  {
    var c := CeilDiv(n, w);
    var k := m / w;
    assert m == w * k;
    if c > k {
      assert w * c >= w * (k + 1);
      assert w * c <= n + w - 1;
    }
    assert w * c <= w * k;
  }

  /** ceil on a real, as the C library computes it. */
  function CeilReal(x: real): int
  {
    -((-x).Floor)
  }

  lemma RealDivBounds(a: real, lo: real, hi: real, w: real)
    requires w > 0.0 && lo * w <= a < hi * w
    ensures lo <= a / w < hi
  {
    assert a / w * w == a;
  }

  lemma RealDivAbove(a: real, lo: real, hi: real, w: real)
    requires w > 0.0 && lo * w < a <= hi * w
    ensures lo < a / w <= hi
  {
    assert a / w * w == a;
  }

  /** floor(n / (float)W) is the integer quotient, in exact arithmetic. */
  lemma FloorOfRatio(n: nat, w: nat)
    requires w > 0
    ensures (n as real / w as real).Floor == n / w
  {
    var q := n / w;
    assert q * w <= n < q * w + w;
    assert (q * w) as real == q as real * w as real;
    assert ((q + 1) * w) as real == (q + 1) as real * w as real;
    RealDivBounds(n as real, q as real, (q + 1) as real, w as real);
  }

  /** The float expression ceil(n / (float)W) equals the integer ceiling division,
      in exact arithmetic. */
  lemma CeilMatchesFloat(n: nat, w: nat)
    requires w > 0
    ensures CeilReal(n as real / w as real) == CeilDiv(n, w)
  {
    var x := n as real / w as real;
    var c := CeilDiv(n, w);
    assert w * c <= n + w - 1 < w * c + w;
    assert (c - 1) * w < n <= c * w;
    assert ((c - 1) * w) as real == (c - 1) as real * w as real;
    assert (c * w) as real == c as real * w as real;
    RealDivAbove(n as real, (c - 1) as real, c as real, w as real);
    assert (-x).Floor == -c;
  }
}
