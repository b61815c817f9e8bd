/**
 * Where the builders put every neuron's connection range.
 *
 * A network's neurons live back to back in one arena, and every neuron owns
 * the half-open range [firstCon, lastCon) of the flat connection arena. The
 * builders hand out those ranges in neuron order, so they are chained: each
 * range starts where the previous one ended. This module gives the exact
 * layout each builder produces, as a sequence of neuron records, and proves
 * that it is chained, which is what lets the introspection code walk the
 * connection arena with a running counter instead of the ranges themselves.
 */
module Layout {
  import opened FannTypes
  import opened Sizing

  // ---------------------------------------------------------------------
  // Chained connection ranges.
  // ---------------------------------------------------------------------

  /** Number of connection slots a neuron owns. */
  function Span(nr: Neuron): nat
  {
    if nr.firstCon <= nr.lastCon then nr.lastCon - nr.firstCon else 0
  }

  /** Slots owned by the neurons before neuron j: the value of a running
      counter that walks neuron by neuron, slot by slot. */
  function ConsBefore(ns: seq<Neuron>, j: nat): nat
    requires j <= |ns|
  {
    if j == 0 then 0 else ConsBefore(ns, j - 1) + Span(ns[j - 1])
  }

  /** Where the ranges of ns end, when they start at c0. */
  function EndCon(ns: seq<Neuron>, c0: nat): nat
  {
    if |ns| == 0 then c0 else ns[|ns| - 1].lastCon
  }

  /** The ranges of ns are well formed and follow each other without gap or
      overlap, starting at slot c0. */
  ghost predicate ChainedFrom(ns: seq<Neuron>, c0: nat)
  {
    && (|ns| > 0 ==> ns[0].firstCon == c0)
    && (forall j :: 0 <= j < |ns| ==> ns[j].firstCon <= ns[j].lastCon)
    && (forall j :: 0 < j < |ns| ==> ns[j].firstCon == ns[j - 1].lastCon)
  }

  lemma {:induction false} ChainedPrefixSum(ns: seq<Neuron>, c0: nat, j: nat)
    requires ChainedFrom(ns, c0) && 0 < j <= |ns|
    ensures ns[j - 1].lastCon == c0 + ConsBefore(ns, j)
  {
    if j > 1 {
      ChainedPrefixSum(ns, c0, j - 1);
    }
  }

  /** In a chained layout a neuron's first slot is the number of slots before
      it, and the layout ends after all slots. */
  lemma ChainedConsBefore(ns: seq<Neuron>, c0: nat)
    requires ChainedFrom(ns, c0)
    ensures forall j :: 0 <= j < |ns| ==> ns[j].firstCon == c0 + ConsBefore(ns, j)
    ensures EndCon(ns, c0) == c0 + ConsBefore(ns, |ns|)
  {
    forall j | 0 < j <= |ns|
      ensures ns[j - 1].lastCon == c0 + ConsBefore(ns, j)
    {
      ChainedPrefixSum(ns, c0, j);
    }
  }

  lemma {:induction false} ConsBeforeAppend(a: seq<Neuron>, b: seq<Neuron>, j: nat)
    requires j <= |b|
    ensures ConsBefore(a + b, |a| + j) == ConsBefore(a, |a|) + ConsBefore(b, j)
  {
    if j == 0 {
      assert (a + b)[..|a|] == a;
      ConsBeforePrefix(a + b, a, |a|);
    } else {
      ConsBeforeAppend(a, b, j - 1);
      assert (a + b)[|a| + j - 1] == b[j - 1];
    }
  }

  lemma {:induction false} ConsBeforePrefix(ns: seq<Neuron>, pre: seq<Neuron>, j: nat)
    requires j <= |pre| <= |ns| && ns[..|pre|] == pre
    ensures ConsBefore(ns, j) == ConsBefore(pre, j)
  {
    if j > 0 {
      assert ns[j - 1] == ns[..|pre|][j - 1];
      ConsBeforePrefix(ns, pre, j - 1);
    }
  }

  /** Two chained layouts, the second starting where the first ends, make one. */
  lemma ChainedAppend(a: seq<Neuron>, b: seq<Neuron>, c0: nat, ab: seq<Neuron>)
    requires ChainedFrom(a, c0) && ChainedFrom(b, EndCon(a, c0)) && ab == a + b
    ensures ChainedFrom(ab, c0)
    ensures EndCon(ab, c0) == EndCon(b, EndCon(a, c0))
  {
    forall j | 0 < j < |ab|
      ensures ab[j].firstCon == ab[j - 1].lastCon
    {
      if j == |a| {
        assert ab[j] == b[0];
        assert ab[j - 1] == a[|a| - 1];
      } else if j > |a| {
        assert ab[j] == b[j - |a|];
        assert ab[j - 1] == b[j - 1 - |a|];
      }
    }
  }

  // ---------------------------------------------------------------------
  // The layout of a layered network.
  // ---------------------------------------------------------------------

  /** Sizes a layered network can be built from: no hidden or output layer is
      empty (each receiving neuron gets a share of the layer's slots). */
  ghost predicate LayeredSizesOk(sizes: seq<nat>)
  {
    forall L :: 1 <= L < |sizes| ==> sizes[L] >= 1
  }

  /** First connection slot of layer L's neurons: the slots of layers 1 .. L-1. */
  function ConBase(sizes: seq<nat>, rate: real, L: nat): nat
    requires L <= |sizes|
  {
    if L <= 1 then 0 else ConBase(sizes, rate, L - 1) + Target(sizes[L - 2], sizes[L - 1], rate)
  }

  /** The connection slots of a layered network. */
  function LayeredConnections(sizes: seq<nat>, rate: real): nat
  {
    ConBase(sizes, rate, |sizes|)
  }

  /** Everything the wiring of layer L >= 1 of a layered network needs to know. */
  datatype LayerGeom = LayerGeom(
    prev: nat,    // first neuron of the feeding layer
    numIn: nat,   // neurons of the feeding layer, its bias not counted
    start: nat,   // first neuron of this layer
    numOut: nat,  // neurons of this layer, its bias not counted
    base: nat,    // first connection slot of this layer
    n: nat)       // connection slots of this layer

  function Geom(sizes: seq<nat>, rate: real, L: nat): LayerGeom
    requires 1 <= L < |sizes|
  {
    var counts := LayeredCounts(sizes);
    LayerGeom(Start(counts, L - 1), sizes[L - 1], Start(counts, L), sizes[L],
              ConBase(sizes, rate, L), Target(sizes[L - 1], sizes[L], rate))
  }

  /** First slot of neuron i of the layer. */
  function SlotStart(g: LayerGeom, i: nat): nat
    requires g.numOut > 0
  {
    g.base + Boundary(g.n, g.numOut, i)
  }

  /** Neuron i of a layer whose numOut neurons share the n slots from base:
      the share [Boundary(i), Boundary(i + 1)) for a receiving neuron, an empty
      range after all shares for the trailing bias neuron (i == numOut). */
  function RunNeuron(base: nat, n: nat, numOut: nat, i: nat): Neuron
    requires numOut > 0
  {
    if i < numOut then WiredNeuron(base + Boundary(n, numOut, i), base + Boundary(n, numOut, i + 1))
    else BiasNeuron(base + n)
  }

  function LayerRun(base: nat, n: nat, numOut: nat): seq<Neuron>
    requires numOut > 0
  {
    seq(numOut + 1, i requires 0 <= i <= numOut => RunNeuron(base, n, numOut, i))
  }

  /** The neurons of layer L as the layered builder leaves them. Layer 0 keeps
      what calloc gave it; a later layer is the run of its shares. */
  function LayeredBlock(sizes: seq<nat>, rate: real, L: nat): seq<Neuron>
    requires LayeredSizesOk(sizes) && L < |sizes|
  {
    if L == 0 then seq(sizes[0] + 1, _ => ZeroNeuron)
    else
      var g := Geom(sizes, rate, L);
      LayerRun(g.base, g.n, g.numOut)
  }

  function LayeredPrefix(sizes: seq<nat>, rate: real, L: nat): seq<Neuron>
    requires LayeredSizesOk(sizes) && L <= |sizes|
  {
    if L == 0 then [] else LayeredPrefix(sizes, rate, L - 1) + LayeredBlock(sizes, rate, L - 1)
  }

  /** The neuron arena of a layered network built from sizes at the given rate. */
  function LayeredLayout(sizes: seq<nat>, rate: real): seq<Neuron>
    requires LayeredSizesOk(sizes)
  {
    LayeredPrefix(sizes, rate, |sizes|)
  }

  lemma LayeredPrefixUnfold(sizes: seq<nat>, rate: real, prev: nat, L: nat)
    requires LayeredSizesOk(sizes) && prev < |sizes| && L == prev + 1
    ensures LayeredPrefix(sizes, rate, L) == LayeredPrefix(sizes, rate, prev) + LayeredBlock(sizes, rate, prev)
  {
  }

  lemma LayeredBlockLength(sizes: seq<nat>, rate: real, L: nat)
    requires LayeredSizesOk(sizes) && L < |sizes|
    ensures |LayeredBlock(sizes, rate, L)| == LayeredCounts(sizes)[L]
  {
  }

  lemma {:induction false} LayeredPrefixLength(sizes: seq<nat>, rate: real, L: nat)
    requires LayeredSizesOk(sizes) && L <= |sizes|
    ensures |LayeredPrefix(sizes, rate, L)| == Start(LayeredCounts(sizes), L)
  {
    if L > 0 {
      var prev := L - 1;
      LayeredPrefixLength(sizes, rate, prev);
      LayeredPrefixUnfold(sizes, rate, prev, L);
      LayeredBlockLength(sizes, rate, prev);
      StartStep(LayeredCounts(sizes), prev, L);
    }
  }

  lemma LayerRunChained(base: nat, n: nat, numOut: nat)
    requires numOut > 0
    ensures ChainedFrom(LayerRun(base, n, numOut), base)
    ensures EndCon(LayerRun(base, n, numOut), base) == base + n
  {
    var b := LayerRun(base, n, numOut);
    BoundaryEnds(n, numOut);
    assert b[0] == RunNeuron(base, n, numOut, 0);
    forall j | 0 <= j < |b|
      ensures b[j].firstCon <= b[j].lastCon
    {
      assert b[j] == RunNeuron(base, n, numOut, j);
      if j < numOut {
        BoundaryStep(n, numOut, j);
      }
    }
    forall j | 0 < j < |b|
      ensures b[j].firstCon == b[j - 1].lastCon
    {
      assert b[j] == RunNeuron(base, n, numOut, j);
      assert b[j - 1] == RunNeuron(base, n, numOut, j - 1);
    }
    assert b[numOut] == RunNeuron(base, n, numOut, numOut);
  }

  lemma LayeredBlockChained(sizes: seq<nat>, rate: real, L: nat, next: nat)
    requires LayeredSizesOk(sizes) && L < |sizes| && next == L + 1
    ensures ChainedFrom(LayeredBlock(sizes, rate, L), ConBase(sizes, rate, L))
    ensures EndCon(LayeredBlock(sizes, rate, L), ConBase(sizes, rate, L)) == ConBase(sizes, rate, next)
  {
    if L > 0 {
      var g := Geom(sizes, rate, L);
      LayerRunChained(g.base, g.n, g.numOut);
    }
  }

  /** The layered layout is chained from slot 0 and ends after ConBase(L) slots. */
  lemma {:induction false} LayeredPrefixChained(sizes: seq<nat>, rate: real, L: nat)
    requires LayeredSizesOk(sizes) && L <= |sizes|
    ensures ChainedFrom(LayeredPrefix(sizes, rate, L), 0)
    ensures EndCon(LayeredPrefix(sizes, rate, L), 0) == ConBase(sizes, rate, L)
  {
    if L > 0 {
      var prev := L - 1;
      LayeredPrefixChained(sizes, rate, prev);
      LayeredBlockChained(sizes, rate, prev, L);
      LayeredPrefixUnfold(sizes, rate, prev, L);
      ChainedAppend(LayeredPrefix(sizes, rate, prev), LayeredBlock(sizes, rate, prev), 0, LayeredPrefix(sizes, rate, L));
    }
  }

  /** The connection ranges of a layered network are contiguous from slot 0,
      one neuron after the other, and together cover all its connection slots. */
  lemma LayeredLayoutContiguous(sizes: seq<nat>, rate: real)
    requires LayeredSizesOk(sizes)
    ensures var ns := LayeredLayout(sizes, rate);
      && |ns| == Sum(LayeredCounts(sizes))
      && ChainedFrom(ns, 0)
      && (forall j :: 0 <= j < |ns| ==> ns[j].firstCon == ConsBefore(ns, j))
      && ConsBefore(ns, |ns|) == LayeredConnections(sizes, rate)
  {
    LayeredPrefixLength(sizes, rate, |sizes|);
    LayeredPrefixChained(sizes, rate, |sizes|);
    ChainedConsBefore(LayeredLayout(sizes, rate), 0);
  }

  /** In a run of numOut shares of n slots, neuron i owns floor(n / numOut)
      or one more slot, at least one and at most numIn + 1 when n lies
      between numOut and full connection, and the trailing bias owns none. */
  lemma LayerRunShares(base: nat, n: nat, numOut: nat, numIn: nat)
    requires numOut > 0
    ensures var b := LayerRun(base, n, numOut);
      && (forall i :: 0 <= i < numOut ==> n / numOut <= Span(b[i]) <= n / numOut + 1)
      && Span(b[numOut]) == 0
      && ConsBefore(b, |b|) == n
      && (numOut <= n <= (numIn + 1) * numOut ==> forall i :: 0 <= i < numOut ==> 1 <= Span(b[i]) <= numIn + 1)
  {
    var b := LayerRun(base, n, numOut);
    forall i | 0 <= i < numOut
      ensures n / numOut <= Span(b[i]) <= n / numOut + 1
      ensures numOut <= n <= (numIn + 1) * numOut ==> 1 <= Span(b[i]) <= numIn + 1
    {
      assert b[i] == RunNeuron(base, n, numOut, i);
      BoundaryStep(n, numOut, i);
      if numOut <= n <= (numIn + 1) * numOut {
        BoundaryStepBounds(n, numOut, numIn, i);
      }
    }
    assert b[numOut] == RunNeuron(base, n, numOut, numOut);
    LayerRunChained(base, n, numOut);
    ChainedConsBefore(b, base);
  }

  /** Layer L >= 1 of a layered network is the run of its geometry's shares. */
  lemma LayeredBlockRun(sizes: seq<nat>, rate: real, L: nat)
    requires LayeredSizesOk(sizes) && 1 <= L < |sizes|
    ensures Geom(sizes, rate, L).numOut == sizes[L] >= 1
    ensures Geom(sizes, rate, L).numIn == sizes[L - 1]
    ensures Geom(sizes, rate, L).start == Start(LayeredCounts(sizes), L)
    ensures Geom(sizes, rate, L).n == Target(sizes[L - 1], sizes[L], rate)
    ensures LayeredBlock(sizes, rate, L) == LayerRun(Geom(sizes, rate, L).base, Geom(sizes, rate, L).n, sizes[L])
  {
  }

  /** Neuron i of layer L >= 1 owns floor(n / out) or floor(n / out) + 1 slots
      (at least one, at most one per feeding neuron plus the bias), the bias
      neuron owns none, and the layer owns n slots in all. */
  lemma LayeredBlockShares(sizes: seq<nat>, rate: real, L: nat)
    requires LayeredSizesOk(sizes) && 1 <= L < |sizes|
    ensures var g := Geom(sizes, rate, L);
            var b := LayeredBlock(sizes, rate, L);
      && (forall i :: 0 <= i < g.numOut ==>
            g.n / g.numOut <= Span(b[i]) <= g.n / g.numOut + 1)
      && Span(b[g.numOut]) == 0
      && ConsBefore(b, |b|) == g.n
      && (g.numIn >= 1 ==> forall i :: 0 <= i < g.numOut ==> 1 <= Span(b[i]) <= g.numIn + 1)
  {
    var g := Geom(sizes, rate, L);
    LayeredBlockRun(sizes, rate, L);
    if g.numIn >= 1 {
      TargetBounds(g.numIn, g.numOut, rate);
    }
    LayerRunShares(g.base, g.n, g.numOut, g.numIn);
  }

  // ---------------------------------------------------------------------
  // The layout of a shortcut network.
  // ---------------------------------------------------------------------

  /** Inputs of a neuron of layer L >= 1 of a shortcut network: every neuron of
      the layers before it, the single bias included. */
  function ShortcutWidth(sizes: seq<nat>, L: nat): nat
    requires L <= |sizes|
  {
    Start(ShortcutCounts(sizes), L)
  }

  /** First connection slot of layer L's neurons in a shortcut network. */
  function ShortcutBase(sizes: seq<nat>, L: nat): nat
    requires L <= |sizes|
  {
    if L <= 1 then 0 else ShortcutBase(sizes, L - 1) + sizes[L - 1] * ShortcutWidth(sizes, L - 1)
  }

  function ShortcutConnections(sizes: seq<nat>): nat
  {
    ShortcutBase(sizes, |sizes|)
  }

  /** Neuron i of a run of neurons that own w slots each, from base on. */
  function ShortcutNeuron(base: nat, w: nat, i: nat): Neuron
  {
    WiredNeuron(base + i * w, base + (i + 1) * w)
  }

  function ShortcutRun(base: nat, w: nat, count: nat): seq<Neuron>
  {
    seq(count, i requires 0 <= i < count => ShortcutNeuron(base, w, i))
  }

  /** The neurons of layer L as the shortcut builder leaves them: layer 0 (with
      the bias) untouched, neuron i of a later layer owning the i-th run of
      ShortcutWidth(L) slots of the layer. */
  function ShortcutBlock(sizes: seq<nat>, L: nat): seq<Neuron>
    requires L < |sizes|
  {
    if L == 0 then seq(sizes[0] + 1, _ => ZeroNeuron)
    else
      ShortcutRun(ShortcutBase(sizes, L), ShortcutWidth(sizes, L), sizes[L])
  }

  function ShortcutPrefix(sizes: seq<nat>, L: nat): seq<Neuron>
    requires L <= |sizes|
  {
    if L == 0 then [] else ShortcutPrefix(sizes, L - 1) + ShortcutBlock(sizes, L - 1)
  }

  /** The neuron arena of a shortcut network built from sizes. */
  function ShortcutLayout(sizes: seq<nat>): seq<Neuron>
  {
    ShortcutPrefix(sizes, |sizes|)
  }

  lemma ShortcutPrefixUnfold(sizes: seq<nat>, prev: nat, L: nat)
    requires prev < |sizes| && L == prev + 1
    ensures ShortcutPrefix(sizes, L) == ShortcutPrefix(sizes, prev) + ShortcutBlock(sizes, prev)
  {
  }

  lemma ShortcutBlockLength(sizes: seq<nat>, L: nat)
    requires L < |sizes|
    ensures |ShortcutBlock(sizes, L)| == ShortcutCounts(sizes)[L]
  {
  }

  lemma {:induction false} ShortcutPrefixLength(sizes: seq<nat>, L: nat)
    requires L <= |sizes|
    ensures |ShortcutPrefix(sizes, L)| == Start(ShortcutCounts(sizes), L)
  {
    if L > 0 {
      var prev := L - 1;
      ShortcutPrefixLength(sizes, prev);
      ShortcutPrefixUnfold(sizes, prev, L);
      ShortcutBlockLength(sizes, prev);
      StartStep(ShortcutCounts(sizes), prev, L);
    }
  }

  lemma ShortcutRunChained(base: nat, w: nat, count: nat)
    ensures ChainedFrom(ShortcutRun(base, w, count), base)
    ensures EndCon(ShortcutRun(base, w, count), base) == base + count * w
  {
    var b := ShortcutRun(base, w, count);
    forall i | 0 <= i < count
      ensures b[i].firstCon == base + i * w && b[i].lastCon == base + i * w + w
    {
      assert b[i] == ShortcutNeuron(base, w, i);
      assert (i + 1) * w == i * w + w;
    }
    if count > 0 {
      assert (count - 1) * w + w == count * w;
    }
  }

  lemma ShortcutBlockChained(sizes: seq<nat>, L: nat, next: nat)
    requires L < |sizes| && next == L + 1
    ensures ChainedFrom(ShortcutBlock(sizes, L), ShortcutBase(sizes, L))
    ensures EndCon(ShortcutBlock(sizes, L), ShortcutBase(sizes, L)) == ShortcutBase(sizes, next)
  {
    if L > 0 {
      ShortcutRunChained(ShortcutBase(sizes, L), ShortcutWidth(sizes, L), sizes[L]);
    }
  }

  lemma {:induction false} ShortcutPrefixChained(sizes: seq<nat>, L: nat)
    requires L <= |sizes|
    ensures ChainedFrom(ShortcutPrefix(sizes, L), 0)
    ensures EndCon(ShortcutPrefix(sizes, L), 0) == ShortcutBase(sizes, L)
  {
    if L > 0 {
      var prev := L - 1;
      ShortcutPrefixChained(sizes, prev);
      ShortcutBlockChained(sizes, prev, L);
      ShortcutPrefixUnfold(sizes, prev, L);
      ChainedAppend(ShortcutPrefix(sizes, prev), ShortcutBlock(sizes, prev), 0, ShortcutPrefix(sizes, L));
    }
  }

  /** The connection ranges of a shortcut network are contiguous from slot 0
      and cover all its connection slots. */
  lemma ShortcutLayoutContiguous(sizes: seq<nat>)
    ensures var ns := ShortcutLayout(sizes);
      && |ns| == Sum(ShortcutCounts(sizes))
      && ChainedFrom(ns, 0)
      && (forall j :: 0 <= j < |ns| ==> ns[j].firstCon == ConsBefore(ns, j))
      && ConsBefore(ns, |ns|) == ShortcutConnections(sizes)
  {
    ShortcutPrefixLength(sizes, |sizes|);
    ShortcutPrefixChained(sizes, |sizes|);
    ChainedConsBefore(ShortcutLayout(sizes), 0);
  }

  /** A neuron of layer L >= 1 of a shortcut network has exactly as many inputs
      as there are neurons in layers 0 .. L-1. */
  lemma ShortcutBlockWidth(sizes: seq<nat>, L: nat, i: nat)
    requires 1 <= L < |sizes| && i < sizes[L]
    ensures Span(ShortcutBlock(sizes, L)[i]) == Sum(ShortcutCounts(sizes)[..L])
  {
    var w := ShortcutWidth(sizes, L);
    assert ShortcutBlock(sizes, L)[i] == ShortcutNeuron(ShortcutBase(sizes, L), w, i);
    assert (i + 1) * w == i * w + w;
    StartPrefix(ShortcutCounts(sizes), ShortcutCounts(sizes)[..L], L);
  }
}
