/**
 * The network builders: fann_create_sparse_array (and fann_create_standard_array,
 * which is the same at connection rate 1) and fann_create_shortcut_array.
 *
 * Each builder allocates the structure, sizes the layers, allocates the
 * neuron arena, splits the connection slots over the receiving neurons,
 * allocates the connection arenas and then wires every slot. Every step is a
 * method on the network object proved against the layouts of the Layout
 * module and the wiring predicates of the Wiring modules; the builders' own
 * contracts say that the result is a valid network with exactly that layout
 * and wiring, and exactly when the result is NULL.
 */
module Builders {
  import opened FannTypes
  import opened Sizing
  import opened Layout
  import opened Wiring
  import opened SparseWiring
  import opened Fann

  // ---------------------------------------------------------------------
  // Facts about layers and slot bases.
  // ---------------------------------------------------------------------

  /** A layer's first slot and slot count can be read off its first neuron
      and its trailing bias neuron. */
  lemma GeomRead(ns: seq<Neuron>, g: LayerGeom)
    requires NeuronsAt(ns, g)
    ensures ns[g.start].firstCon == g.base && ns[g.start + g.numOut].firstCon == g.base + g.n
  {
    assert ns[g.start + 0] == RunNeuron(g.base, g.n, g.numOut, 0);
    assert ns[g.start + g.numOut] == RunNeuron(g.base, g.n, g.numOut, g.numOut);
    BoundaryEnds(g.n, g.numOut);
  }

  /** Changes confined to [lo, hi) leave a layer that lies before lo as it was. */
  lemma NeuronsAtFrame(c: seq<Neuron>, d: seq<Neuron>, g: LayerGeom, lo: nat, hi: nat)
    requires NeuronsAt(c, g) && SameOutside(d, c, lo, hi) && g.start + g.numOut + 1 <= lo
    ensures NeuronsAt(d, g)
  {
  }

  lemma ConBaseStep(sizes: seq<nat>, r: real, prev: nat, L: nat)
    requires prev < |sizes| && L == prev + 1
    ensures ConBase(sizes, r, prev) <= ConBase(sizes, r, L)
  {
  }

  lemma {:induction false} ConBaseMonotone(sizes: seq<nat>, r: real, a: nat, b: nat)
    requires a <= b <= |sizes|
    ensures ConBase(sizes, r, a) <= ConBase(sizes, r, b)
  {
    if a < b {
      var prev := b - 1;
      ConBaseMonotone(sizes, r, a, prev);
      ConBaseStep(sizes, r, prev, b);
    }
  }

  lemma ShortcutBaseStep(sizes: seq<nat>, prev: nat, L: nat)
    requires prev < |sizes| && L == prev + 1
    ensures ShortcutBase(sizes, prev) <= ShortcutBase(sizes, L)
  {
    if prev >= 1 {
      var w := ShortcutWidth(sizes, prev);
      assert sizes[prev] * w >= 0;
    }
  }

  lemma {:induction false} ShortcutBaseMonotone(sizes: seq<nat>, a: nat, b: nat)
    requires a <= b <= |sizes|
    ensures ShortcutBase(sizes, a) <= ShortcutBase(sizes, b)
  {
    if a < b {
      var prev := b - 1;
      ShortcutBaseMonotone(sizes, a, prev);
      ShortcutBaseStep(sizes, prev, b);
    }
  }

  /** The layer of a layered network that owns slot k. */
  lemma {:induction false} ConBaseOwner(sizes: seq<nat>, r: real, k: nat, m: nat) returns (L: nat)
    requires 2 <= m <= |sizes| && k < ConBase(sizes, r, m)
    ensures 1 <= L < m && ConBase(sizes, r, L) <= k < ConBase(sizes, r, L + 1)
  {
    if m == 2 || k >= ConBase(sizes, r, m - 1) {
      L := m - 1;
    } else {
      L := ConBaseOwner(sizes, r, k, m - 1);
    }
  }

  /** The layer of a shortcut network that owns slot k. */
  lemma {:induction false} ShortcutBaseOwner(sizes: seq<nat>, k: nat, m: nat) returns (L: nat)
    requires 2 <= m <= |sizes| && k < ShortcutBase(sizes, m)
    ensures 1 <= L < m && ShortcutBase(sizes, L) <= k < ShortcutBase(sizes, L + 1)
  {
    if m == 2 || k >= ShortcutBase(sizes, m - 1) {
      L := m - 1;
    } else {
      L := ShortcutBaseOwner(sizes, k, m - 1);
    }
  }

  /** The receiving neuron whose share holds slot x of a layer. */
  lemma {:induction false} ShareOwner(n: nat, numOut: nat, x: nat, m: nat) returns (i: nat)
    requires 1 <= m <= numOut && x < Boundary(n, numOut, m)
    ensures i < m && Boundary(n, numOut, i) <= x < Boundary(n, numOut, i + 1)
  {
    if m == 1 || x >= Boundary(n, numOut, m - 1) {
      BoundaryEnds(n, numOut);
      i := m - 1;
    } else {
      i := ShareOwner(n, numOut, x, m - 1);
    }
  }

  /** A non-empty layer starts before the last neuron. */
  lemma LayerBeforeEnd(counts: seq<nat>, L: nat)
    requires L < |counts| && counts[L] >= 1
    ensures Start(counts, L) < Sum(counts)
  {
    if L + 1 < |counts| {
      StartMonotone(counts, L + 1, |counts|);
    }
  }

  // ---------------------------------------------------------------------
  // Splitting the slots of a layered network over its neurons.
  // ---------------------------------------------------------------------

  /** The first i neurons of a run from start are placed, the rest of the
      run is still as calloc left it. */
  ghost predicate RunUpTo(ns: seq<Neuron>, start: nat, numOut: nat, tc: nat, n: nat, i: nat)
  {
    && 0 < numOut && i <= numOut + 1 && start + numOut + 1 <= |ns|
    && (forall j :: 0 <= j < i ==> ns[start + j] == RunNeuron(tc, n, numOut, j))
    && (forall k :: start + i <= k <= start + numOut ==> ns[k] == ZeroNeuron)
  }

  lemma RunUpToStep(before: seq<Neuron>, after: seq<Neuron>, start: nat, numOut: nat, tc: nat, n: nat, i: nat)
    requires RunUpTo(before, start, numOut, tc, n, i) && i <= numOut
    requires after == before[start + i := RunNeuron(tc, n, numOut, i)]
    ensures RunUpTo(after, start, numOut, tc, n, i + 1)
  {
  }

  /** One layer of the split: the numOut receiving neurons from start share
      Target(numIn, numOut, rate) slots from tc in near-equal consecutive
      shares, each becoming a stepwise-sigmoid neuron, and the trailing bias
      neuron gets an empty range after them. Returns the layer's slot count. */
  method SplitLayer(neurons: array<Neuron>, ghost prev: nat, start: nat, numIn: nat, numOut: nat, rate: real, tc: nat)
    returns (n: nat)
    requires rate <= 1.0 && numOut >= 1 && start + numOut + 1 <= neurons.Length
    requires forall k :: start <= k <= start + numOut ==> neurons[k] == ZeroNeuron
    modifies neurons
    ensures n == Target(numIn, numOut, rate)
    ensures NeuronsAt(neurons[..], LayerGeom(prev, numIn, start, numOut, tc, n))
    ensures SameOutside(neurons[..], old(neurons[..]), start, start + numOut + 1)
  {
    n := Target(numIn, numOut, rate);
    var perNeuron := n / numOut;
    var handedOut := 0;
    var i := 0;
    while i != numOut
      invariant 0 <= i <= numOut && handedOut == Boundary(n, numOut, i)
      invariant RunUpTo(neurons[..], start, numOut, tc, n, i)
      invariant SameOutside(neurons[..], old(neurons[..]), start, start + numOut + 1)
    {
      AllocationStep(n, numOut, i);
      var first := tc + handedOut;
      handedOut := handedOut + perNeuron;
      var last := tc + handedOut;
      if handedOut < n * (i + 1) / numOut {
        last := last + 1;
        handedOut := handedOut + 1;
      }
      ghost var before := neurons[..];
      neurons[start + i] := neurons[start + i].(firstCon := first, lastCon := last,
                                                activation := SigmoidStepwise, steepness := 0.5);
      RunUpToStep(before, neurons[..], start, numOut, tc, n, i);
      i := i + 1;
    }
    BoundaryEnds(n, numOut);
    ghost var before := neurons[..];
    neurons[start + numOut] := neurons[start + numOut].(firstCon := tc + handedOut, lastCon := tc + handedOut);
    RunUpToStep(before, neurons[..], start, numOut, tc, n, numOut);
  }

  /** The layers 1 .. L-1 are split as their geometry says, and layer 0 and
      everything from layer L on is still as calloc left it. */
  ghost predicate SplitLayeredUpTo(ns: seq<Neuron>, sizes: seq<nat>, r: real, L: nat)
  {
    && LayeredSizesOk(sizes) && 1 <= L <= |sizes|
    && Start(LayeredCounts(sizes), L) <= Sum(LayeredCounts(sizes)) <= |ns| && sizes[0] < |ns|
    && (forall k :: 0 <= k <= sizes[0] ==> ns[k] == ZeroNeuron)
    && (forall L' :: 1 <= L' < L ==> NeuronsAt(ns, Geom(sizes, r, L')))
    && (forall k :: Start(LayeredCounts(sizes), L) <= k < |ns| ==> ns[k] == ZeroNeuron)
  }

  lemma SplitLayeredStart(ns: seq<Neuron>, sizes: seq<nat>, r: real)
    requires LayeredSizesOk(sizes) && 1 <= |sizes|
    requires forall k :: 0 <= k < |ns| ==> ns[k] == ZeroNeuron
    requires Sum(LayeredCounts(sizes)) <= |ns|
    ensures SplitLayeredUpTo(ns, sizes, r, 1)
  {
    StartMonotone(LayeredCounts(sizes), 0, |sizes|);
  }

  /** A run of shares placed from start holds LayerRun. */
  lemma NeuronsAtRun(ns: seq<Neuron>, g: LayerGeom)
    requires NeuronsAt(ns, g)
    ensures |LayerRun(g.base, g.n, g.numOut)| == g.numOut + 1
    ensures forall i :: 0 <= i < |LayerRun(g.base, g.n, g.numOut)| ==>
              ns[g.start + i] == LayerRun(g.base, g.n, g.numOut)[i]
  {
  }

  /** A layer placed as its geometry says holds the layer's block. */
  lemma LayeredBlockAt(ns: seq<Neuron>, sizes: seq<nat>, r: real, L: nat, next: nat)
    requires LayeredSizesOk(sizes) && 1 <= L < |sizes| && next == L + 1
    requires NeuronsAt(ns, Geom(sizes, r, L))
    ensures Start(LayeredCounts(sizes), L) + |LayeredBlock(sizes, r, L)| == Start(LayeredCounts(sizes), next)
    ensures forall i :: 0 <= i < |LayeredBlock(sizes, r, L)| ==>
              ns[Start(LayeredCounts(sizes), L) + i] == LayeredBlock(sizes, r, L)[i]
  {
    LayeredBlockRun(sizes, r, L);
    NeuronsAtRun(ns, Geom(sizes, r, L));
    StartStep(LayeredCounts(sizes), L, next);
    assert LayeredCounts(sizes)[L] == sizes[L] + 1;
  }

  /** Cells [s, t) holding b extend a prefix pre of the first s cells to
      the prefix pre + b of the first t cells. */
  lemma PrefixExtend(ns: seq<Neuron>, s: nat, pre: seq<Neuron>, b: seq<Neuron>, t: nat, whole: seq<Neuron>)
    requires s <= t <= |ns| && t == s + |b| && ns[..s] == pre && whole == pre + b
    requires forall i :: 0 <= i < |b| ==> ns[s + i] == b[i]
    ensures ns[..t] == whole
  {
    forall k | 0 <= k < t
      ensures ns[k] == whole[k]
    {
      if k < s {
        assert ns[k] == ns[..s][k];
      } else {
        assert ns[s + (k - s)] == b[k - s];
      }
    }
  }

  /** An arena whose layer 0 is untouched and whose layers 1 .. L-1 are placed
      as their geometry says starts with the first L blocks of the layout. */
  lemma {:induction false} LayeredPrefixFromLayers(ns: seq<Neuron>, sizes: seq<nat>, r: real, L: nat)
    requires LayeredSizesOk(sizes) && 1 <= L <= |sizes|
    requires Start(LayeredCounts(sizes), L) <= |ns| && sizes[0] < |ns|
    requires forall k :: 0 <= k <= sizes[0] ==> ns[k] == ZeroNeuron
    requires forall L' :: 1 <= L' < L ==> NeuronsAt(ns, Geom(sizes, r, L'))
    ensures ns[..Start(LayeredCounts(sizes), L)] == LayeredPrefix(sizes, r, L)
  {
    if L == 1 {
      assert Start(LayeredCounts(sizes), 1) == sizes[0] + 1;
      assert ns[..sizes[0] + 1] == LayeredPrefix(sizes, r, 1);
    } else {
      var prev := L - 1;
      LayeredPrefixFromLayers(ns, sizes, r, prev);
      LayeredBlockAt(ns, sizes, r, prev, L);
      LayeredPrefixUnfold(sizes, r, prev, L);
      PrefixExtend(ns, Start(LayeredCounts(sizes), prev), LayeredPrefix(sizes, r, prev), LayeredBlock(sizes, r, prev),
                   Start(LayeredCounts(sizes), L), LayeredPrefix(sizes, r, L));
    }
  }

  /** Layers placed before s stay placed when only [s, hi) changes. */
  lemma LayeredFrames(before: seq<Neuron>, after: seq<Neuron>, sizes: seq<nat>, r: real, L: nat, hi: nat)
    requires LayeredSizesOk(sizes) && 1 <= L < |sizes|
    requires forall L' :: 1 <= L' < L ==> NeuronsAt(before, Geom(sizes, r, L'))
    requires SameOutside(after, before, Start(LayeredCounts(sizes), L), hi)
    ensures forall L' :: 1 <= L' < L ==> NeuronsAt(after, Geom(sizes, r, L'))
  {
    forall L' | 1 <= L' < L
      ensures NeuronsAt(after, Geom(sizes, r, L'))
    {
      StartMonotone(LayeredCounts(sizes), L', L);
      NeuronsAtFrame(before, after, Geom(sizes, r, L'), Start(LayeredCounts(sizes), L), hi);
    }
  }

  /** Cells below lo and from hi on keep their value when only [lo, hi) changes. */
  lemma ZeroOutside(before: seq<Neuron>, after: seq<Neuron>, m: nat, lo: nat, hi: nat)
    requires m <= lo <= hi && m <= |before| && SameOutside(after, before, lo, hi)
    requires forall k :: 0 <= k < m ==> before[k] == ZeroNeuron
    requires forall k :: lo <= k < |before| ==> before[k] == ZeroNeuron
    ensures forall k :: 0 <= k < m ==> after[k] == ZeroNeuron
    ensures forall k :: hi <= k < |after| ==> after[k] == ZeroNeuron
  {
  }

  lemma SplitLayeredStep(before: seq<Neuron>, after: seq<Neuron>, sizes: seq<nat>, r: real, L: nat, next: nat)
    requires SplitLayeredUpTo(before, sizes, r, L) && L < |sizes| && next == L + 1
    requires SameOutside(after, before, Geom(sizes, r, L).start, Geom(sizes, r, L).start + sizes[L] + 1)
    requires NeuronsAt(after, Geom(sizes, r, L))
    ensures SplitLayeredUpTo(after, sizes, r, next)
    ensures ConBase(sizes, r, next) == ConBase(sizes, r, L) + Geom(sizes, r, L).n
    ensures sizes[next - 1] == sizes[L]
  {
    var counts := LayeredCounts(sizes);
    var s := Start(counts, L);
    assert counts[L] == sizes[L] + 1;
    StartMonotone(counts, 0, L);
    StartMonotone(counts, L, |sizes|);
    LayeredFrames(before, after, sizes, r, L, s + sizes[L] + 1);
    ZeroOutside(before, after, sizes[0] + 1, s, s + sizes[L] + 1);
  }

  /** The split arena of a layered network is its layout. */
  lemma SplitLayeredLayout(ns: seq<Neuron>, sizes: seq<nat>, r: real)
    requires SplitLayeredUpTo(ns, sizes, r, |sizes|)
    ensures ns[..Sum(LayeredCounts(sizes))] == LayeredLayout(sizes, r)
  {
    LayeredPrefixFromLayers(ns, sizes, r, |sizes|);
  }

  /** One round of the split loop: layer L of a layered network whose
      earlier layers are split gets its slots from tc on. Returns the
      layer's size, which feeds the next layer, and the new slot counter. */
  method SplitLayeredAt(neurons: array<Neuron>, layers: array<Layer>, ghost sizes: seq<nat>, r: real,
                        L: nat, numIn: nat, tc: nat)
    returns (numOut: nat, tc': nat, next: nat)
    requires SplitLayeredUpTo(neurons[..], sizes, r, L) && L < |sizes| && r <= 1.0
    requires PlacedAs(layers[..], LayeredCounts(sizes))
    requires numIn == sizes[L - 1] && tc == ConBase(sizes, r, L)
    modifies neurons
    ensures next == L + 1 && numOut == sizes[next - 1] && tc' == ConBase(sizes, r, next)
    ensures SplitLayeredUpTo(neurons[..], sizes, r, next)
  {
    var counts := LayeredCounts(sizes);
    var layer := layers[L];
    PlacedLayerAt(layers[..], counts, L);
    assert counts[L] == sizes[L] + 1;
    numOut := layer.Count() - 1;
    StartMonotone(counts, L, |sizes|);
    ghost var g := Geom(sizes, r, L);
    ghost var before := neurons[..];
    var n := SplitLayer(neurons, g.prev, layer.firstNeuron, numIn, numOut, r, tc);
    assert LayerGeom(g.prev, numIn, layer.firstNeuron, numOut, tc, n) == g;
    next := L + 1;
    SplitLayeredStep(before, neurons[..], sizes, r, L, next);
    tc' := tc + n;
  }

  /** The split loop of fann_create_sparse_array: layer by layer, the slots
      of a layer go to its receiving neurons after those of the layers
      before it. The arena ends up as the layered layout and total_connections
      as the layered slot count. */
  method SplitLayered(ann: Network, ghost sizes: seq<nat>, r: real)
    requires LayeredSizesOk(sizes) && r <= 1.0 && |sizes| >= 2
    requires ann.neurons != null && PlacedAs(ann.layers[..], LayeredCounts(sizes))
    requires ann.numInput == sizes[0] && ann.totalConnections == 0
    requires Sum(LayeredCounts(sizes)) <= ann.neurons.Length
    requires forall k :: 0 <= k < ann.neurons.Length ==> ann.neurons[k] == ZeroNeuron
    modifies ann.neurons, ann`totalConnections
    ensures SplitLayeredUpTo(ann.neurons[..], sizes, r, |sizes|)
    ensures ann.totalConnections == LayeredConnections(sizes, r)
  {
    var neurons := ann.neurons;
    var layers := ann.layers;
    SplitLayeredStart(neurons[..], sizes, r);
    var numIn := ann.numInput;
    var tc := 0;
    var L := 1;
    while L != layers.Length
      invariant 1 <= L <= |sizes| && numIn == sizes[L - 1]
      invariant tc == ConBase(sizes, r, L)
      invariant SplitLayeredUpTo(neurons[..], sizes, r, L)
    {
      numIn, tc, L := SplitLayeredAt(neurons, layers, sizes, r, L, numIn, tc);
    }
    ann.totalConnections := tc;
  }

  // ---------------------------------------------------------------------
  // Splitting the slots of a shortcut network over its neurons.
  // ---------------------------------------------------------------------

  /** The count neurons from start each own w slots, from base on. */
  ghost predicate ShortcutRunAt(ns: seq<Neuron>, start: nat, count: nat, base: nat, w: nat)
  {
    start + count <= |ns| && forall i :: 0 <= i < count ==> ns[start + i] == ShortcutNeuron(base, w, i)
  }

  /** Layer L >= 1 of a shortcut network as its wiring reads it. */
  ghost predicate ShortcutLayerAt(ns: seq<Neuron>, sizes: seq<nat>, L: nat)
    requires 1 <= L < |sizes|
  {
    ShortcutRunAt(ns, Start(ShortcutCounts(sizes), L), sizes[L], ShortcutBase(sizes, L), ShortcutWidth(sizes, L))
  }

  /** One layer of the shortcut split: each of the count neurons from start
      gets the next w slots from tc on and becomes a stepwise-sigmoid neuron.
      Returns the new slot counter. */
  method SplitShortcutLayer(neurons: array<Neuron>, start: nat, count: nat, w: nat, tc: nat)
    returns (tc': nat)
    requires start + count <= neurons.Length
    requires forall k :: start <= k < start + count ==> neurons[k] == ZeroNeuron
    modifies neurons
    ensures tc' == tc + count * w
    ensures ShortcutRunAt(neurons[..], start, count, tc, w)
    ensures SameOutside(neurons[..], old(neurons[..]), start, start + count)
  {
    tc' := tc;
    var i := 0;
    while i != count
      invariant 0 <= i <= count && tc' == tc + i * w
      invariant ShortcutRunAt(neurons[..], start, i, tc, w)
      invariant forall k :: start + i <= k < start + count ==> neurons[k] == ZeroNeuron
      invariant SameOutside(neurons[..], old(neurons[..]), start, start + count)
    {
      var first := tc';
      tc' := tc' + w;
      assert (i + 1) * w == i * w + w;
      neurons[start + i] := neurons[start + i].(firstCon := first, lastCon := tc',
                                                activation := SigmoidStepwise, steepness := 0.5);
      i := i + 1;
    }
  }

  /** The layers 1 .. L-1 of a shortcut network are split, and layer 0 and
      everything from layer L on is still as calloc left it. */
  ghost predicate SplitShortcutUpTo(ns: seq<Neuron>, sizes: seq<nat>, L: nat)
  {
    && 1 <= L <= |sizes|
    && Start(ShortcutCounts(sizes), L) <= Sum(ShortcutCounts(sizes)) <= |ns| && sizes[0] < |ns|
    && (forall k :: 0 <= k <= sizes[0] ==> ns[k] == ZeroNeuron)
    && (forall L' :: 1 <= L' < L ==> ShortcutLayerAt(ns, sizes, L'))
    && (forall k :: Start(ShortcutCounts(sizes), L) <= k < |ns| ==> ns[k] == ZeroNeuron)
  }

  lemma SplitShortcutStart(ns: seq<Neuron>, sizes: seq<nat>)
    requires 1 <= |sizes|
    requires forall k :: 0 <= k < |ns| ==> ns[k] == ZeroNeuron
    requires Sum(ShortcutCounts(sizes)) <= |ns|
    ensures SplitShortcutUpTo(ns, sizes, 1)
  {
    StartMonotone(ShortcutCounts(sizes), 0, |sizes|);
  }

  lemma ShortcutRunBlock(ns: seq<Neuron>, start: nat, count: nat, base: nat, w: nat)
    requires ShortcutRunAt(ns, start, count, base, w)
    ensures |ShortcutRun(base, w, count)| == count
    ensures forall i :: 0 <= i < count ==> ns[start + i] == ShortcutRun(base, w, count)[i]
  {
  }

  lemma ShortcutRunFrame(before: seq<Neuron>, after: seq<Neuron>, start: nat, count: nat, base: nat, w: nat, lo: nat, hi: nat)
    requires ShortcutRunAt(before, start, count, base, w) && start + count <= lo
    requires SameOutside(after, before, lo, hi)
    ensures ShortcutRunAt(after, start, count, base, w)
  {
    forall i | 0 <= i < count
      ensures after[start + i] == ShortcutNeuron(base, w, i)
    {
      assert after[start + i] == before[start + i];
    }
  }

  /** A shortcut layer placed as ShortcutLayerAt says holds the layer's block. */
  lemma ShortcutBlockAt(ns: seq<Neuron>, sizes: seq<nat>, L: nat, next: nat)
    requires 1 <= L < |sizes| && ShortcutLayerAt(ns, sizes, L) && next == L + 1
    ensures Start(ShortcutCounts(sizes), L) + |ShortcutBlock(sizes, L)| == Start(ShortcutCounts(sizes), next)
    ensures forall i :: 0 <= i < |ShortcutBlock(sizes, L)| ==>
              ns[Start(ShortcutCounts(sizes), L) + i] == ShortcutBlock(sizes, L)[i]
  {
    var base, w := ShortcutBase(sizes, L), ShortcutWidth(sizes, L);
    assert ShortcutCounts(sizes)[L] == sizes[L];
    assert ShortcutBlock(sizes, L) == ShortcutRun(base, w, sizes[L]);
    ShortcutRunBlock(ns, Start(ShortcutCounts(sizes), L), sizes[L], base, w);
  }

  /** An arena whose layer 0 is untouched and whose layers 1 .. L-1 are placed
      as ShortcutLayerAt says starts with the first L blocks of the layout. */
  lemma {:induction false} ShortcutPrefixFromLayers(ns: seq<Neuron>, sizes: seq<nat>, L: nat)
    requires 1 <= L <= |sizes|
    requires Start(ShortcutCounts(sizes), L) <= |ns| && sizes[0] < |ns|
    requires forall k :: 0 <= k <= sizes[0] ==> ns[k] == ZeroNeuron
    requires forall L' :: 1 <= L' < L ==> ShortcutLayerAt(ns, sizes, L')
    ensures ns[..Start(ShortcutCounts(sizes), L)] == ShortcutPrefix(sizes, L)
  {
    if L == 1 {
      assert Start(ShortcutCounts(sizes), 1) == sizes[0] + 1;
      assert ns[..sizes[0] + 1] == ShortcutPrefix(sizes, 1);
    } else {
      var prev := L - 1;
      ShortcutPrefixFromLayers(ns, sizes, prev);
      ShortcutBlockAt(ns, sizes, prev, L);
      ShortcutPrefixUnfold(sizes, prev, L);
      PrefixExtend(ns, Start(ShortcutCounts(sizes), prev), ShortcutPrefix(sizes, prev), ShortcutBlock(sizes, prev),
                   Start(ShortcutCounts(sizes), L), ShortcutPrefix(sizes, L));
    }
  }

  /** Shortcut layers placed before s stay placed when only [s, hi) changes. */
  lemma ShortcutFrames(before: seq<Neuron>, after: seq<Neuron>, sizes: seq<nat>, L: nat, hi: nat)
    requires 1 <= L < |sizes|
    requires forall L' :: 1 <= L' < L ==> ShortcutLayerAt(before, sizes, L')
    requires SameOutside(after, before, Start(ShortcutCounts(sizes), L), hi)
    ensures forall L' :: 1 <= L' < L ==> ShortcutLayerAt(after, sizes, L')
  {
    var counts := ShortcutCounts(sizes);
    forall L' | 1 <= L' < L
      ensures ShortcutLayerAt(after, sizes, L')
    {
      StartMonotone(counts, L', L);
      assert counts[L'] == sizes[L'];
      assert ShortcutLayerAt(before, sizes, L');
      assert ShortcutRunAt(before, Start(counts, L'), sizes[L'], ShortcutBase(sizes, L'), ShortcutWidth(sizes, L'));
      assert Start(counts, L') + sizes[L'] <= Start(counts, L);
      ShortcutRunFrame(before, after, Start(counts, L'), sizes[L'], ShortcutBase(sizes, L'), ShortcutWidth(sizes, L'),
                       Start(counts, L), hi);
    }
  }

  lemma SplitShortcutStep(before: seq<Neuron>, after: seq<Neuron>, sizes: seq<nat>, L: nat, next: nat)
    requires SplitShortcutUpTo(before, sizes, L) && L < |sizes| && next == L + 1
    requires SameOutside(after, before, Start(ShortcutCounts(sizes), L), Start(ShortcutCounts(sizes), L) + sizes[L])
    requires ShortcutLayerAt(after, sizes, L)
    ensures SplitShortcutUpTo(after, sizes, next)
    ensures ShortcutWidth(sizes, next) == ShortcutWidth(sizes, L) + sizes[L]
    ensures ShortcutBase(sizes, next) == ShortcutBase(sizes, L) + sizes[L] * ShortcutWidth(sizes, L)
  {
    var counts := ShortcutCounts(sizes);
    var s := Start(counts, L);
    assert counts[L] == sizes[L];
    StartMonotone(counts, 0, L);
    StartMonotone(counts, L, |sizes|);
    ShortcutFrames(before, after, sizes, L, s + sizes[L]);
    ZeroOutside(before, after, sizes[0] + 1, s, s + sizes[L]);
  }

  /** The split arena of a shortcut network is its layout. */
  lemma SplitShortcutLayout(ns: seq<Neuron>, sizes: seq<nat>)
    requires SplitShortcutUpTo(ns, sizes, |sizes|)
    ensures ns[..Sum(ShortcutCounts(sizes))] == ShortcutLayout(sizes)
  {
    ShortcutPrefixFromLayers(ns, sizes, |sizes|);
  }

  /** One round of the shortcut split loop: layer L, whose earlier layers are
      split, gets its slots from tc on. Returns the neurons of layers 0 .. L
      without the bias, which feed the next layer, and the new slot counter. */
  method SplitShortcutAt(neurons: array<Neuron>, layers: array<Layer>, ghost sizes: seq<nat>,
                         L: nat, numIn: nat, tc: nat)
    returns (numIn': nat, tc': nat, next: nat)
    requires SplitShortcutUpTo(neurons[..], sizes, L) && L < |sizes|
    requires PlacedAs(layers[..], ShortcutCounts(sizes))
    requires numIn + 1 == ShortcutWidth(sizes, L) && tc == ShortcutBase(sizes, L)
    modifies neurons
    ensures next == L + 1 && numIn' + 1 == ShortcutWidth(sizes, next) && tc' == ShortcutBase(sizes, next)
    ensures SplitShortcutUpTo(neurons[..], sizes, next)
  {
    var counts := ShortcutCounts(sizes);
    var layer := layers[L];
    PlacedLayerAt(layers[..], counts, L);
    assert counts[L] == sizes[L];
    var numOut := layer.Count();
    StartMonotone(counts, L, |sizes|);
    ghost var before := neurons[..];
    tc' := SplitShortcutLayer(neurons, layer.firstNeuron, numOut, numIn + 1, tc);
    next := L + 1;
    SplitShortcutStep(before, neurons[..], sizes, L, next);
    numIn' := numIn + numOut;
  }

  /** The split loop of fann_create_shortcut_array: every neuron of a later
      layer gets one slot per neuron of all layers before it, in neuron
      order. The arena ends up as the shortcut layout. */
  method SplitShortcut(ann: Network, ghost sizes: seq<nat>)
    requires |sizes| >= 2
    requires ann.neurons != null && PlacedAs(ann.layers[..], ShortcutCounts(sizes))
    requires ann.numInput == sizes[0] && ann.totalConnections == 0
    requires Sum(ShortcutCounts(sizes)) <= ann.neurons.Length
    requires forall k :: 0 <= k < ann.neurons.Length ==> ann.neurons[k] == ZeroNeuron
    modifies ann.neurons, ann`totalConnections
    ensures SplitShortcutUpTo(ann.neurons[..], sizes, |sizes|)
    ensures ann.totalConnections == ShortcutConnections(sizes)
  {
    var neurons := ann.neurons;
    var layers := ann.layers;
    SplitShortcutStart(neurons[..], sizes);
    assert ShortcutWidth(sizes, 1) == Start(ShortcutCounts(sizes), 0) + ShortcutCounts(sizes)[0] == sizes[0] + 1;
    var numIn := ann.numInput;
    var tc := 0;
    var L := 1;
    while L != layers.Length
      invariant 1 <= L <= |sizes| && numIn + 1 == ShortcutWidth(sizes, L)
      invariant tc == ShortcutBase(sizes, L)
      invariant SplitShortcutUpTo(neurons[..], sizes, L)
    {
      numIn, tc, L := SplitShortcutAt(neurons, layers, sizes, L, numIn, tc);
    }
    ann.totalConnections := tc;
  }
}
