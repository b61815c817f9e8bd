/**
 * The public builders: fann_create_sparse_array, fann_create_standard_array
 * (the same at connection rate 1) and fann_create_shortcut_array, with the
 * wiring loops that walk their layers.
 *
 * A builder's contract says exactly when it returns NULL (fewer than two
 * layers, or one of its allocations failing) and, otherwise, that the
 * network is valid, has the requested layer sizes, the exact neuron layout
 * of the Layout module and every layer wired as the Wiring modules say.
 */
module Create {
  import opened FannTypes
  import opened Sizing
  import opened Layout
  import opened Wiring
  import opened SparseWiring
  import opened Fann
  import opened Builders

  // ---------------------------------------------------------------------
  // Wiring of a layered network.
  // ---------------------------------------------------------------------

  /** Sizes and (clamped) rate a layered network can be wired from: every
      later layer is non-empty, and below rate 1 the first layer is too. */
  ghost predicate Wireable(sizes: seq<nat>, r: real)
  {
    LayeredSizesOk(sizes) && r <= 1.0 && |sizes| >= 2 && (r < 1.0 ==> sizes[0] >= 1)
  }

  /** Layer L >= 1 of a layered network built at rate r is wired: at rate 1
      slot j of every receiving neuron reads neuron j of the feeding layer,
      below rate 1 the layer is sparsely wired. */
  ghost predicate LayerWired(c: seq<NeuronRef>, sizes: seq<nat>, r: real, L: nat)
  {
    && LayeredSizesOk(sizes) && 1 <= L < |sizes|
    && var g := Geom(sizes, r, L);
       if r >= 1.0 then RunWired(c, g.base, g.n, FullWidth(g.numIn), g.prev) else SparseLayerWired(c, g)
  }

  /** The layers 1 .. L-1 are wired. */
  ghost predicate WiredUpTo(c: seq<NeuronRef>, sizes: seq<nat>, r: real, L: nat)
  {
    && Wireable(sizes, r) && 1 <= L <= |sizes|
    && forall L' :: 1 <= L' < L ==> LayerWired(c, sizes, r, L')
  }

  /** Below rate 1 every later layer of a wireable network has the geometry
      the sparse wiring needs. */
  lemma GeomSparse(sizes: seq<nat>, r: real, L: nat)
    requires Wireable(sizes, r) && r < 1.0 && 1 <= L < |sizes|
    ensures SparseGeom(Geom(sizes, r, L))
  {
    TargetBounds(sizes[L - 1], sizes[L], r);
  }

  /** A wired layer that ends before lo survives changes confined to [lo, hi). */
  lemma LayerWiredFrame(c: seq<NeuronRef>, d: seq<NeuronRef>, sizes: seq<nat>, r: real, L: nat, next: nat,
                        lo: nat, hi: nat)
    requires Wireable(sizes, r) && LayerWired(c, sizes, r, L) && next == L + 1
    requires SameOutside(d, c, lo, hi) && ConBase(sizes, r, next) <= lo
    ensures LayerWired(d, sizes, r, L)
  {
    var g := Geom(sizes, r, L);
    if r >= 1.0 {
      RunWiredFrame(c, d, g.base, g.n, FullWidth(g.numIn), g.prev, lo, hi);
    } else {
      GeomSparse(sizes, r, L);
      SparseLayerWiredFrame(c, d, g, lo, hi);
    }
  }

  lemma WiredUpToStep(c: seq<NeuronRef>, d: seq<NeuronRef>, sizes: seq<nat>, r: real, L: nat, next: nat, hi: nat)
    requires WiredUpTo(c, sizes, r, L) && L < |sizes| && next == L + 1
    requires LayerWired(d, sizes, r, L) && SameOutside(d, c, ConBase(sizes, r, L), hi)
    ensures WiredUpTo(d, sizes, r, next)
  {
    forall L' | 1 <= L' < next
      ensures LayerWired(d, sizes, r, L')
    {
      if L' < L {
        var n' := L' + 1;
        ConBaseMonotone(sizes, r, n', L);
        LayerWiredFrame(c, d, sizes, r, L', n', ConBase(sizes, r, L), hi);
      }
    }
  }

  /** What a wiring round needs to know about the arrays it works on. */
  ghost predicate WiringFrame(layers: seq<Layer>, neurons: seq<Neuron>, sizes: seq<nat>, r: real,
                              connsLength: nat, weightsLength: nat)
  {
    && Wireable(sizes, r)
    && PlacedAs(layers, LayeredCounts(sizes))
    && SplitLayeredUpTo(neurons, sizes, r, |sizes|)
    && LayeredConnections(sizes, r) <= connsLength && LayeredConnections(sizes, r) <= weightsLength
  }

  /** Layer L of a layered network's layer array holds its size plus the bias. */
  lemma PlacedLayer(layers: seq<Layer>, sizes: seq<nat>, L: nat)
    requires PlacedAs(layers, LayeredCounts(sizes)) && L < |sizes|
    ensures layers[L].firstNeuron == Start(LayeredCounts(sizes), L) && layers[L].Count() == sizes[L] + 1
    ensures layers[L].lastNeuron == Start(LayeredCounts(sizes), L) + sizes[L] + 1
  {
    PlacedLayerAt(layers, LayeredCounts(sizes), L);
  }

  /** The geometry of layer L, read off the layer array and the neuron arena
      as the wiring loops do. */
  method ReadGeom(layers: array<Layer>, neurons: array<Neuron>, ghost sizes: seq<nat>, r: real, L: nat)
    returns (g: LayerGeom, bias: nat)
    requires Wireable(sizes, r) && PlacedAs(layers[..], LayeredCounts(sizes)) && 1 <= L < |sizes|
    requires NeuronsAt(neurons[..], Geom(sizes, r, L))
    ensures g == Geom(sizes, r, L) && NeuronsAt(neurons[..], g) && bias == g.prev + g.numIn
    ensures g.base + g.n == ConBase(sizes, r, L + 1) <= LayeredConnections(sizes, r)
  {
    ghost var geom := Geom(sizes, r, L);
    var prevLayer, layer := layers[L - 1], layers[L];
    PlacedLayer(layers[..], sizes, L - 1);
    PlacedLayer(layers[..], sizes, L);
    GeomRead(neurons[..], geom);
    var numOut := layer.Count() - 1;
    var first := layer.firstNeuron;
    assert first == geom.start && numOut == geom.numOut;
    var base := neurons[first].firstCon;
    var last := neurons[first + numOut].firstCon;
    assert base == geom.base;
    assert last == geom.base + geom.n;
    g := LayerGeom(prevLayer.firstNeuron, prevLayer.Count() - 1, first, numOut, base, last - base);
    bias := prevLayer.lastNeuron - 1;
    ConBaseMonotone(sizes, r, L + 1, |sizes|);
  }

  /** One round of the fully connected wiring loop: layer L. */
  method WireFullAt(layers: array<Layer>, neurons: array<Neuron>, conns: array<NeuronRef>, weights: array<Weight>,
                    ghost sizes: seq<nat>, L: nat)
    returns (next: nat)
    requires Wireable(sizes, 1.0) && PlacedAs(layers[..], LayeredCounts(sizes)) && 1 <= L < |sizes|
    requires NeuronsAt(neurons[..], Geom(sizes, 1.0, L))
    requires LayeredConnections(sizes, 1.0) <= conns.Length && LayeredConnections(sizes, 1.0) <= weights.Length
    modifies conns, weights
    ensures next == L + 1 && LayerWired(conns[..], sizes, 1.0, L)
    ensures ConBase(sizes, 1.0, L) <= ConBase(sizes, 1.0, next)
    ensures SameOutside(conns[..], old(conns[..]), ConBase(sizes, 1.0, L), ConBase(sizes, 1.0, next))
    ensures SameOutside(weights[..], old(weights[..]), ConBase(sizes, 1.0, L), ConBase(sizes, 1.0, next))
  {
    var g, _ := ReadGeom(layers, neurons, sizes, 1.0, L);
    TargetFull(g.numIn, g.numOut, 1.0);
    WireFullLayer(neurons, conns, weights, g, FullWidth(g.numIn));
    next := L + 1;
  }

  /** The wiring loop of fann_create_sparse_array at connection rate 1: slot
      j of every receiving neuron reads neuron j of the layer before. */
  method WireFullLayers(layers: array<Layer>, neurons: array<Neuron>, conns: array<NeuronRef>,
                        weights: array<Weight>, ghost sizes: seq<nat>)
    requires WiringFrame(layers[..], neurons[..], sizes, 1.0, conns.Length, weights.Length)
    modifies conns, weights
    ensures WiredUpTo(conns[..], sizes, 1.0, |sizes|)
    ensures SameOutside(conns[..], old(conns[..]), 0, LayeredConnections(sizes, 1.0))
    ensures SameOutside(weights[..], old(weights[..]), 0, LayeredConnections(sizes, 1.0))
  {
    var L := 1;
    while L != layers.Length
      invariant 1 <= L <= |sizes|
      invariant WiringFrame(layers[..], neurons[..], sizes, 1.0, conns.Length, weights.Length)
      invariant WiredUpTo(conns[..], sizes, 1.0, L)
      invariant SameOutside(conns[..], old(conns[..]), 0, ConBase(sizes, 1.0, L))
      invariant SameOutside(weights[..], old(weights[..]), 0, ConBase(sizes, 1.0, L))
    {
      ghost var before, weightsBefore := conns[..], weights[..];
      assert NeuronsAt(neurons[..], Geom(sizes, 1.0, L));
      var next := WireFullAt(layers, neurons, conns, weights, sizes, L);
      WiredUpToStep(before, conns[..], sizes, 1.0, L, next, ConBase(sizes, 1.0, next));
      SameOutsideGrow(old(conns[..]), before, conns[..], 0, ConBase(sizes, 1.0, L), ConBase(sizes, 1.0, next));
      SameOutsideGrow(old(weights[..]), weightsBefore, weights[..], 0, ConBase(sizes, 1.0, L), ConBase(sizes, 1.0, next));
      L := next;
    }
  }

  /** One round of the sparse wiring loop: layer L, whose slots are still empty. */
  method WireSparseAt(layers: array<Layer>, neurons: array<Neuron>, conns: array<NeuronRef>, weights: array<Weight>,
                      ghost sizes: seq<nat>, r: real, L: nat)
    returns (next: nat)
    requires Wireable(sizes, r) && r < 1.0 && PlacedAs(layers[..], LayeredCounts(sizes)) && 1 <= L < |sizes|
    requires NeuronsAt(neurons[..], Geom(sizes, r, L))
    requires AllNull(conns[..], ConBase(sizes, r, L), conns.Length)
    requires LayeredConnections(sizes, r) <= conns.Length && LayeredConnections(sizes, r) <= weights.Length
    modifies conns, weights
    ensures next == L + 1 && LayerWired(conns[..], sizes, r, L)
    ensures ConBase(sizes, r, L) <= ConBase(sizes, r, next)
    ensures AllNull(conns[..], ConBase(sizes, r, next), conns.Length)
    ensures SameOutside(conns[..], old(conns[..]), ConBase(sizes, r, L), ConBase(sizes, r, next))
    ensures SameOutside(weights[..], old(weights[..]), ConBase(sizes, r, L), ConBase(sizes, r, next))
  {
    var g, biasNeuron := ReadGeom(layers, neurons, sizes, r, L);
    GeomSparse(sizes, r, L);
    WireSparseLayer(neurons, conns, weights, g, biasNeuron);
    next := L + 1;
  }

  /** The wiring loop of fann_create_sparse_array below connection rate 1:
      every layer in turn goes through the three sparse passes. */
  method WireSparseLayers(layers: array<Layer>, neurons: array<Neuron>, conns: array<NeuronRef>,
                          weights: array<Weight>, ghost sizes: seq<nat>, r: real)
    requires WiringFrame(layers[..], neurons[..], sizes, r, conns.Length, weights.Length) && r < 1.0
    requires AllNull(conns[..], 0, conns.Length)
    modifies conns, weights
    ensures WiredUpTo(conns[..], sizes, r, |sizes|)
    ensures SameOutside(conns[..], old(conns[..]), 0, LayeredConnections(sizes, r))
    ensures SameOutside(weights[..], old(weights[..]), 0, LayeredConnections(sizes, r))
  {
    var L := 1;
    while L != layers.Length
      invariant 1 <= L <= |sizes|
      invariant WiringFrame(layers[..], neurons[..], sizes, r, conns.Length, weights.Length)
      invariant WiredUpTo(conns[..], sizes, r, L)
      invariant AllNull(conns[..], ConBase(sizes, r, L), conns.Length)
      invariant SameOutside(conns[..], old(conns[..]), 0, ConBase(sizes, r, L))
      invariant SameOutside(weights[..], old(weights[..]), 0, ConBase(sizes, r, L))
    {
      ghost var before, weightsBefore := conns[..], weights[..];
      assert NeuronsAt(neurons[..], Geom(sizes, r, L));
      var next := WireSparseAt(layers, neurons, conns, weights, sizes, r, L);
      WiredUpToStep(before, conns[..], sizes, r, L, next, ConBase(sizes, r, next));
      SameOutsideGrow(old(conns[..]), before, conns[..], 0, ConBase(sizes, r, L), ConBase(sizes, r, next));
      SameOutsideGrow(old(weights[..]), weightsBefore, weights[..], 0, ConBase(sizes, r, L), ConBase(sizes, r, next));
      L := next;
    }
  }

  // ---------------------------------------------------------------------
  // fann_create_sparse_array and fann_create_standard_array.
  // ---------------------------------------------------------------------

  /** Every wired slot of a layered network reads an existing neuron. */
  lemma LayeredReadsBelow(c: seq<NeuronRef>, sizes: seq<nat>, r: real, k: nat)
    requires WiredUpTo(c, sizes, r, |sizes|) && k < LayeredConnections(sizes, r)
    ensures k < |c| && c[k].Ref? && c[k].index < Sum(LayeredCounts(sizes))
  {
    var L := ConBaseOwner(sizes, r, k, |sizes|);
    assert LayerWired(c, sizes, r, L);
    var g := Geom(sizes, r, L);
    var counts := LayeredCounts(sizes);
    var prevL := L - 1;
    assert counts[L] >= 1 && counts[prevL] == g.numIn + 1;
    LayerBeforeEnd(counts, L);
    StartStep(counts, prevL, L);
    if r >= 1.0 {
      var w := FullWidth(g.numIn);
      assert c[k] == Ref(g.prev + (k - g.base) % w);
      assert g.prev + (k - g.base) % w <= Start(counts, L);
    } else {
      GeomSparse(sizes, r, L);
      BoundaryEnds(g.n, g.numOut);
      var i := ShareOwner(g.n, g.numOut, k - g.base, g.numOut);
      assert NeuronWired(c, SlotStart(g, i), SlotStart(g, i + 1), g.prev, g.numIn);
      assert SlotStart(g, i) <= k < SlotStart(g, i + 1);
    }
  }

  /** A layered network as the builder leaves it before wiring: layers
      placed, arena split, arenas allocated, counters set. */
  ghost predicate LayeredSplit(ann: Network, sizes: seq<nat>, r: real)
    reads ann, ann.layers, ann.neurons
  {
    && Wireable(sizes, r) && ann.layers.Length == |sizes| && ann.maxWItem > 0
    && ann.networkType == LayeredNet && ann.connectionRate == r
    && ann.numInput == sizes[0] && ann.numOutput == sizes[|sizes| - 1]
    && PlacedAs(ann.layers[..], LayeredCounts(sizes)) && ann.totalNeurons == Sum(LayeredCounts(sizes))
    && ann.neurons != null && ann.output != null && ann.connections != null && ann.weights != null
    && ann.totalNeurons <= ann.neurons.Length
    && SplitLayeredUpTo(ann.neurons[..], sizes, r, |sizes|)
    && ann.totalConnections == LayeredConnections(sizes, r)
    && ann.totalConnections <= ann.connections.Length == ann.weights.Length
    && ann.output.Length == sizes[|sizes| - 1] + 1
    && ann.trainSlopes == null && ann.prevSteps == null
    && ann.prevTrainSlopes == null && ann.prevWeightsDeltas == null
  }

  /** What fann_create_sparse_array builds from sizes at the clamped rate r:
      the split network, its arena holding the layered layout, every layer wired. */
  ghost predicate LayeredBuilt(ann: Network, sizes: seq<nat>, r: real)
    reads ann, ann.layers, ann.neurons, ann.connections
  {
    && LayeredSplit(ann, sizes, r)
    && ann.neurons[..ann.totalNeurons] == LayeredLayout(sizes, r)
    && WiredUpTo(ann.connections[..], sizes, r, |sizes|)
  }

  /** A layered network whose arena is split and whose layers are wired is valid. */
  lemma LayeredValid(ann: Network, sizes: seq<nat>, r: real)
    requires LayeredSplit(ann, sizes, r) && WiredUpTo(ann.connections[..], sizes, r, |sizes|)
    ensures ann.Valid() && LayeredBuilt(ann, sizes, r)
  {
    var counts := LayeredCounts(sizes);
    PlacedAsFrom(ann.layers[..], counts);
    SplitLayeredLayout(ann.neurons[..], sizes, r);
    LayeredLayoutContiguous(sizes, r);
    var ns := ann.neurons[..ann.totalNeurons];
    assert ns == LayeredLayout(sizes, r);
    ChainedConsBefore(ns, 0);
    forall k | 0 <= k < ann.totalConnections
      ensures ann.connections[k].Ref? && ann.connections[k].index < ann.totalNeurons
    {
      LayeredReadsBelow(ann.connections[..], sizes, r, k);
    }
    var last := |sizes| - 1;
    PlacedLayerAt(ann.layers[..], counts, last);
    assert PlacedFrom(ann.layers[..], ann.totalNeurons);
    assert ChainedFrom(ann.neurons[..ann.totalNeurons], 0);
    assert EndCon(ann.neurons[..ann.totalNeurons], 0) == ann.totalConnections;
    LayeredOutput(ann, sizes, r);
  }

  /** The output vector of a layered network holds its last layer. */
  lemma LayeredOutput(ann: Network, sizes: seq<nat>, r: real)
    requires LayeredSplit(ann, sizes, r)
    ensures ann.LastLayerCount() == ann.output.Length
  {
    var last := |sizes| - 1;
    PlacedLayerAt(ann.layers[..], LayeredCounts(sizes), last);
    assert ann.layers[last] == ann.layers[..][last];
  }

  /** The start of fann_create_sparse_array after the structure exists:
      the connection rate, the layer-sizing loop (every layer gets its size
      plus a bias neuron) and the input and output counts read back from
      the first and the last layer. */
  method SizeLayered(ann: Network, sizes: seq<nat>, r: real)
    requires ann.layers.Length == |sizes| >= 2 && ann.totalNeurons == 0
    modifies ann`connectionRate, ann`numInput, ann`numOutput, ann`totalNeurons, ann.layers
    ensures ann.connectionRate == r && ann.numInput == sizes[0] && ann.numOutput == sizes[|sizes| - 1]
    ensures Sized(ann.layers[..], LayeredCounts(sizes)) && ann.totalNeurons == Sum(LayeredCounts(sizes))
  {
    ann.connectionRate := r;
    SizeLayers(ann, sizes, LayeredNet);
    var lastLayer := ann.layers[ann.layers.Length - 1];
    ann.numOutput, ann.numInput := lastLayer.Count() - 1, ann.layers[0].Count() - 1;
  }

  /** The builder from setting the connection rate up to the split loop:
      false, after setting CantAllocateMem, exactly when the neuron arena or
      the output vector cannot be allocated. */
  method PrepareLayeredNeurons(ann: Network, sizes: seq<nat>, r: real, failing: set<AllocSite>) returns (ok: bool)
    requires Wireable(sizes, r) && ann.layers.Length == |sizes| && ann.maxWItem > 0
    requires ann.totalNeurons == 0 && ann.totalConnections == 0 && ann.errno == NoError
    modifies ann, ann.layers
    ensures ann.layers == old(ann.layers)
    ensures ann.networkType == old(ann.networkType) && ann.connectionRate == r
    ensures ann.weights == old(ann.weights) && ann.connections == old(ann.connections)
    ensures ann.trainSlopes == old(ann.trainSlopes) && ann.prevSteps == old(ann.prevSteps)
    ensures ann.prevTrainSlopes == old(ann.prevTrainSlopes) && ann.prevWeightsDeltas == old(ann.prevWeightsDeltas)
    ensures ok <==> NeuronArenaAlloc !in failing && OutputAlloc !in failing
    ensures !ok ==> ann.errno == CantAllocateMem
    ensures ok ==>
      && ann.errno == NoError
      && ann.numInput == sizes[0] && ann.numOutput == sizes[|sizes| - 1]
      && PlacedAs(ann.layers[..], LayeredCounts(sizes)) && ann.totalNeurons == Sum(LayeredCounts(sizes))
      && ann.neurons != null && ann.output != null && fresh(ann.neurons) && fresh(ann.output)
      && ann.totalNeurons <= ann.neurons.Length
      && SplitLayeredUpTo(ann.neurons[..], sizes, r, |sizes|)
      && ann.totalConnections == LayeredConnections(sizes, r)
      && ann.output.Length == sizes[|sizes| - 1] + 1
  {
    SizeLayered(ann, sizes, r);
    AllocateNeurons(ann, LayeredCounts(sizes), failing);
    if ann.errno == CantAllocateMem {
      return false;
    }
    PaddedBounds(ann.totalNeurons, ann.maxWItem);
    SplitLayered(ann, sizes, r);
    ok := true;
  }

  /** The builder from setting the connection rate up to fann_allocate_connections:
      false, after setting CantAllocateMem, exactly when one of the arena
      or output allocations fails. */
  method PrepareLayered(ann: Network, sizes: seq<nat>, r: real, failing: set<AllocSite>) returns (ok: bool)
    requires Wireable(sizes, r) && ann.layers.Length == |sizes| && ann.maxWItem > 0
    requires ann.totalNeurons == 0 && ann.totalConnections == 0 && ann.errno == NoError
    requires ann.networkType == LayeredNet
    requires ann.trainSlopes == null && ann.prevSteps == null
    requires ann.prevTrainSlopes == null && ann.prevWeightsDeltas == null
    modifies ann, ann.layers
    ensures ok <==> NeuronArenaAlloc !in failing && OutputAlloc !in failing
                    && WeightArenaAlloc !in failing && ConnectionArenaAlloc !in failing
    ensures ok ==> LayeredSplit(ann, sizes, r) && AllNull(ann.connections[..], 0, ann.connections.Length)
    ensures ok ==> fresh(ann.neurons) && fresh(ann.output) && fresh(ann.connections) && fresh(ann.weights)
  {
    ok := PrepareLayeredNeurons(ann, sizes, r, failing);
    if !ok {
      return;
    }
    AllocateConnections(ann, failing);
    if ann.errno == CantAllocateMem {
      return false;
    }
  }

  /** The wiring part of fann_create_sparse_array: fully connected layers at
      rate 1, the three sparse passes below it. */
  method WireLayered(ann: Network, ghost sizes: seq<nat>, r: real)
    requires LayeredSplit(ann, sizes, r) && AllNull(ann.connections[..], 0, ann.connections.Length)
    modifies ann.connections, ann.weights
    ensures ann.Valid() && LayeredBuilt(ann, sizes, r)
  {
    if r >= 1.0 {
      WireFullLayers(ann.layers, ann.neurons, ann.connections, ann.weights, sizes);
    } else {
      WireSparseLayers(ann.layers, ann.neurons, ann.connections, ann.weights, sizes, r);
    }
    LayeredValid(ann, sizes, r);
  }

  /** fann_create_sparse_array: a layered network where every layer after
      the first feeds from the one before it through Target slots per layer.
      The rate is clamped to 1; at rate 1 the layers are fully connected.
      NULL exactly when fewer than two layers are asked for or an allocation
      fails. The caller must not ask for an empty hidden or output layer
      (the slot split divides by its size), nor for sparse wiring from an
      empty input layer (the random choice of a source would have none). */
  method CreateSparseArray(rate: real, sizes: seq<nat>, w: nat, failing: set<AllocSite>) returns (ann: Network?)
    requires w > 0 && LayeredSizesOk(sizes)
    requires rate < 1.0 && |sizes| >= 1 ==> sizes[0] >= 1
    ensures ann == null <==> |sizes| < 2 || failing * BuildSites != {}
    ensures ann != null ==> fresh(ann) && ann.Valid() && LayeredBuilt(ann, sizes, EffectiveRate(rate))
  {
    var r := rate;
    if r > 1.0 {
      r := 1.0;
    }
    ann := AllocateStructure(|sizes|, w, failing);
    if ann == null {
      return;
    }
    var ok := PrepareLayered(ann, sizes, r, failing);
    if !ok {
      ann := null;
      return;
    }
    assert failing * BuildSites == {} by {
      forall s | s in BuildSites ensures s !in failing { }
    }
    WireLayered(ann, sizes, r);
  }

  /** fann_create_standard_array: a fully connected layered network, i.e.
      fann_create_sparse_array at rate 1. */
  method CreateStandardArray(sizes: seq<nat>, w: nat, failing: set<AllocSite>) returns (ann: Network?)
    requires w > 0 && LayeredSizesOk(sizes)
    ensures ann == null <==> |sizes| < 2 || failing * BuildSites != {}
    ensures ann != null ==> fresh(ann) && ann.Valid() && LayeredBuilt(ann, sizes, 1.0)
  {
    ann := CreateSparseArray(1.0, sizes, w, failing);
  }

  // ---------------------------------------------------------------------
  // fann_create_shortcut_array.
  // ---------------------------------------------------------------------

  /** Layer L >= 1 of a shortcut network is wired: slot j of each of its
      neurons reads neuron j of the arena, i.e. the j-th neuron of the layers
      before it. */
  ghost predicate ShortcutLayerWired(c: seq<NeuronRef>, sizes: seq<nat>, L: nat)
  {
    && 1 <= L < |sizes|
    && RunWired(c, ShortcutBase(sizes, L), sizes[L] * ShortcutWidth(sizes, L), ShortcutWidth(sizes, L), 0)
  }

  /** The layers 1 .. L-1 of a shortcut network are wired. */
  ghost predicate ShortcutWiredUpTo(c: seq<NeuronRef>, sizes: seq<nat>, L: nat)
  {
    && |sizes| >= 2 && 1 <= L <= |sizes|
    && forall L' :: 1 <= L' < L ==> ShortcutLayerWired(c, sizes, L')
  }

  lemma ShortcutWiredUpToStep(c: seq<NeuronRef>, d: seq<NeuronRef>, sizes: seq<nat>, L: nat, next: nat, hi: nat)
    requires ShortcutWiredUpTo(c, sizes, L) && L < |sizes| && next == L + 1
    requires ShortcutLayerWired(d, sizes, L) && SameOutside(d, c, ShortcutBase(sizes, L), hi)
    ensures ShortcutWiredUpTo(d, sizes, next)
  {
    forall L' | 1 <= L' < next
      ensures ShortcutLayerWired(d, sizes, L')
    {
      if L' < L {
        var n' := L' + 1;
        ShortcutBaseMonotone(sizes, n', L);
        var w := ShortcutWidth(sizes, L');
        assert ShortcutLayerWired(c, sizes, L');
        RunWiredFrame(c, d, ShortcutBase(sizes, L'), sizes[L'] * w, w, 0, ShortcutBase(sizes, L), hi);
      }
    }
  }

  /** A shortcut layer after the first reads from at least the input layer
      and its bias. */
  lemma ShortcutWidthPositive(sizes: seq<nat>, L: nat)
    requires 1 <= L <= |sizes|
    ensures ShortcutWidth(sizes, L) >= sizes[0] + 1
  {
    var counts := ShortcutCounts(sizes);
    StartStep(counts, 0, 1);
    if L > 1 {
      StartMonotone(counts, 1, L);
    }
  }

  /** One round of the shortcut wiring loop: layer L. */
  method WireShortcutAt(layers: array<Layer>, neurons: array<Neuron>, conns: array<NeuronRef>,
                        weights: array<Weight>, ghost sizes: seq<nat>, L: nat)
    returns (next: nat)
    requires PlacedAs(layers[..], ShortcutCounts(sizes)) && 1 <= L < |sizes|
    requires ShortcutLayerAt(neurons[..], sizes, L)
    requires ShortcutConnections(sizes) <= conns.Length && ShortcutConnections(sizes) <= weights.Length
    modifies conns, weights
    ensures next == L + 1 && ShortcutLayerWired(conns[..], sizes, L)
    ensures ShortcutBase(sizes, L) <= ShortcutBase(sizes, next)
    ensures SameOutside(conns[..], old(conns[..]), ShortcutBase(sizes, L), ShortcutBase(sizes, next))
    ensures SameOutside(weights[..], old(weights[..]), ShortcutBase(sizes, L), ShortcutBase(sizes, next))
  {
    ghost var counts := ShortcutCounts(sizes);
    forall j | 0 <= j < L
      ensures layers[j] == LayerOf(counts, j)
    {
      PlacedLayerAt(layers[..], counts, j);
    }
    assert LayersBefore(layers, counts, L);
    var layer := layers[L];
    PlacedLayerAt(layers[..], counts, L);
    assert counts[L] == sizes[L];
    ghost var w := ShortcutWidth(sizes, L);
    ShortcutWidthPositive(sizes, L);
    ghost var base := ShortcutBase(sizes, L);
    ghost var n := sizes[L] * w;
    next := L + 1;
    ShortcutBaseMonotone(sizes, next, |sizes|);
    WireShortcutLayer(layers, neurons, conns, weights, counts, L, layer.firstNeuron, sizes[L], base, w, n);
  }

  /** The wiring loop of fann_create_shortcut_array: every neuron of a later
      layer reads every neuron of the layers before it. */
  method WireShortcutLayers(layers: array<Layer>, neurons: array<Neuron>, conns: array<NeuronRef>,
                            weights: array<Weight>, ghost sizes: seq<nat>)
    requires |sizes| >= 2 && PlacedAs(layers[..], ShortcutCounts(sizes))
    requires SplitShortcutUpTo(neurons[..], sizes, |sizes|)
    requires ShortcutConnections(sizes) <= conns.Length && ShortcutConnections(sizes) <= weights.Length
    modifies conns, weights
    ensures ShortcutWiredUpTo(conns[..], sizes, |sizes|)
    ensures SameOutside(conns[..], old(conns[..]), 0, ShortcutConnections(sizes))
    ensures SameOutside(weights[..], old(weights[..]), 0, ShortcutConnections(sizes))
  {
    var L := 1;
    while L != layers.Length
      invariant 1 <= L <= |sizes|
      invariant PlacedAs(layers[..], ShortcutCounts(sizes)) && SplitShortcutUpTo(neurons[..], sizes, |sizes|)
      invariant ShortcutWiredUpTo(conns[..], sizes, L)
      invariant SameOutside(conns[..], old(conns[..]), 0, ShortcutBase(sizes, L))
      invariant SameOutside(weights[..], old(weights[..]), 0, ShortcutBase(sizes, L))
    {
      ghost var before, weightsBefore := conns[..], weights[..];
      assert ShortcutLayerAt(neurons[..], sizes, L);
      var next := WireShortcutAt(layers, neurons, conns, weights, sizes, L);
      ShortcutWiredUpToStep(before, conns[..], sizes, L, next, ShortcutBase(sizes, next));
      SameOutsideGrow(old(conns[..]), before, conns[..], 0, ShortcutBase(sizes, L), ShortcutBase(sizes, next));
      SameOutsideGrow(old(weights[..]), weightsBefore, weights[..], 0, ShortcutBase(sizes, L), ShortcutBase(sizes, next));
      L := next;
    }
  }

  /** Every wired slot of a shortcut network reads an existing neuron. */
  lemma ShortcutReadsBelow(c: seq<NeuronRef>, sizes: seq<nat>, k: nat)
    requires ShortcutWiredUpTo(c, sizes, |sizes|) && k < ShortcutConnections(sizes)
    ensures k < |c| && c[k].Ref? && c[k].index < Sum(ShortcutCounts(sizes))
  {
    var L := ShortcutBaseOwner(sizes, k, |sizes|);
    assert ShortcutLayerWired(c, sizes, L);
    StartMonotone(ShortcutCounts(sizes), L, |sizes|);
  }

  /** A shortcut network as the builder leaves it before wiring. */
  ghost predicate ShortcutSplit(ann: Network, sizes: seq<nat>)
    reads ann, ann.layers, ann.neurons
  {
    && |sizes| >= 2 && ann.layers.Length == |sizes| && ann.maxWItem > 0
    && ann.networkType == ShortcutNet && ann.connectionRate == 1.0
    && ann.numInput == sizes[0] && ann.numOutput == sizes[|sizes| - 1]
    && PlacedAs(ann.layers[..], ShortcutCounts(sizes)) && ann.totalNeurons == Sum(ShortcutCounts(sizes))
    && ann.neurons != null && ann.output != null && ann.connections != null && ann.weights != null
    && ann.totalNeurons <= ann.neurons.Length
    && SplitShortcutUpTo(ann.neurons[..], sizes, |sizes|)
    && ann.totalConnections == ShortcutConnections(sizes)
    && ann.totalConnections <= ann.connections.Length == ann.weights.Length
    && ann.output.Length == sizes[|sizes| - 1]
    && ann.trainSlopes == null && ann.prevSteps == null
    && ann.prevTrainSlopes == null && ann.prevWeightsDeltas == null
  }

  /** What fann_create_shortcut_array builds from sizes: the split network,
      its arena holding the shortcut layout, every layer wired. */
  ghost predicate ShortcutBuilt(ann: Network, sizes: seq<nat>)
    reads ann, ann.layers, ann.neurons, ann.connections
  {
    && ShortcutSplit(ann, sizes)
    && ann.neurons[..ann.totalNeurons] == ShortcutLayout(sizes)
    && ShortcutWiredUpTo(ann.connections[..], sizes, |sizes|)
  }

  /** A shortcut network whose arena is split and whose layers are wired is valid. */
  lemma ShortcutValid(ann: Network, sizes: seq<nat>)
    requires ShortcutSplit(ann, sizes) && ShortcutWiredUpTo(ann.connections[..], sizes, |sizes|)
    ensures ann.Valid() && ShortcutBuilt(ann, sizes)
  {
    var counts := ShortcutCounts(sizes);
    PlacedAsFrom(ann.layers[..], counts);
    SplitShortcutLayout(ann.neurons[..], sizes);
    ShortcutLayoutContiguous(sizes);
    var ns := ann.neurons[..ann.totalNeurons];
    assert ns == ShortcutLayout(sizes);
    ChainedConsBefore(ns, 0);
    forall k | 0 <= k < ann.totalConnections
      ensures ann.connections[k].Ref? && ann.connections[k].index < ann.totalNeurons
    {
      ShortcutReadsBelow(ann.connections[..], sizes, k);
    }
    var last := |sizes| - 1;
    PlacedLayerAt(ann.layers[..], counts, last);
    assert PlacedFrom(ann.layers[..], ann.totalNeurons);
    assert ChainedFrom(ann.neurons[..ann.totalNeurons], 0);
    assert EndCon(ann.neurons[..ann.totalNeurons], 0) == ann.totalConnections;
    ShortcutOutput(ann, sizes);
  }

  /** The output vector of a shortcut network holds its last layer. */
  lemma ShortcutOutput(ann: Network, sizes: seq<nat>)
    requires ShortcutSplit(ann, sizes)
    ensures ann.LastLayerCount() == ann.output.Length
  {
    var last := |sizes| - 1;
    PlacedLayerAt(ann.layers[..], ShortcutCounts(sizes), last);
    assert ann.layers[last] == ann.layers[..][last];
  }

  /** The start of fann_create_shortcut_array after the structure exists:
      rate 1 and the shortcut type, the layer-sizing loop (only the first
      layer gets a bias neuron) and the input and output counts. */
  method SizeShortcut(ann: Network, sizes: seq<nat>)
    requires ann.layers.Length == |sizes| >= 2 && ann.totalNeurons == 0
    modifies ann`connectionRate, ann`networkType, ann`numInput, ann`numOutput, ann`totalNeurons, ann.layers
    ensures ann.connectionRate == 1.0 && ann.networkType == ShortcutNet
    ensures ann.numInput == sizes[0] && ann.numOutput == sizes[|sizes| - 1]
    ensures Sized(ann.layers[..], ShortcutCounts(sizes)) && ann.totalNeurons == Sum(ShortcutCounts(sizes))
  {
    ann.connectionRate, ann.networkType := 1.0, ShortcutNet;
    SizeLayers(ann, sizes, ShortcutNet);
    var lastLayer := ann.layers[ann.layers.Length - 1];
    ann.numOutput, ann.numInput := lastLayer.Count(), ann.layers[0].Count() - 1;
  }

  /** fann_create_shortcut_array up to the split loop: false, after setting
      CantAllocateMem, exactly when the neuron arena or the output vector
      cannot be allocated. */
  method PrepareShortcutNeurons(ann: Network, sizes: seq<nat>, failing: set<AllocSite>) returns (ok: bool)
    requires |sizes| >= 2 && ann.layers.Length == |sizes| && ann.maxWItem > 0
    requires ann.totalNeurons == 0 && ann.totalConnections == 0 && ann.errno == NoError
    modifies ann, ann.layers
    ensures ann.layers == old(ann.layers)
    ensures ann.networkType == ShortcutNet && ann.connectionRate == 1.0
    ensures ann.weights == old(ann.weights) && ann.connections == old(ann.connections)
    ensures ann.trainSlopes == old(ann.trainSlopes) && ann.prevSteps == old(ann.prevSteps)
    ensures ann.prevTrainSlopes == old(ann.prevTrainSlopes) && ann.prevWeightsDeltas == old(ann.prevWeightsDeltas)
    ensures ok <==> NeuronArenaAlloc !in failing && OutputAlloc !in failing
    ensures !ok ==> ann.errno == CantAllocateMem
    ensures ok ==>
      && ann.errno == NoError
      && ann.numInput == sizes[0] && ann.numOutput == sizes[|sizes| - 1]
      && PlacedAs(ann.layers[..], ShortcutCounts(sizes)) && ann.totalNeurons == Sum(ShortcutCounts(sizes))
      && ann.neurons != null && ann.output != null && fresh(ann.neurons) && fresh(ann.output)
      && ann.totalNeurons <= ann.neurons.Length
      && SplitShortcutUpTo(ann.neurons[..], sizes, |sizes|)
      && ann.totalConnections == ShortcutConnections(sizes)
      && ann.output.Length == sizes[|sizes| - 1]
  {
    SizeShortcut(ann, sizes);
    AllocateNeurons(ann, ShortcutCounts(sizes), failing);
    if ann.errno == CantAllocateMem {
      return false;
    }
    PaddedBounds(ann.totalNeurons, ann.maxWItem);
    SplitShortcut(ann, sizes);
    ok := true;
  }

  /** fann_create_shortcut_array up to fann_allocate_connections: false, after
      setting CantAllocateMem, exactly when one of the arena or output
      allocations fails. */
  method PrepareShortcut(ann: Network, sizes: seq<nat>, failing: set<AllocSite>) returns (ok: bool)
    requires |sizes| >= 2 && ann.layers.Length == |sizes| && ann.maxWItem > 0
    requires ann.totalNeurons == 0 && ann.totalConnections == 0 && ann.errno == NoError
    requires ann.trainSlopes == null && ann.prevSteps == null
    requires ann.prevTrainSlopes == null && ann.prevWeightsDeltas == null
    modifies ann, ann.layers
    ensures ok <==> NeuronArenaAlloc !in failing && OutputAlloc !in failing
                    && WeightArenaAlloc !in failing && ConnectionArenaAlloc !in failing
    ensures ok ==> ShortcutSplit(ann, sizes)
    ensures ok ==> fresh(ann.neurons) && fresh(ann.output) && fresh(ann.connections) && fresh(ann.weights)
  {
    ok := PrepareShortcutNeurons(ann, sizes, failing);
    if !ok {
      return;
    }
    AllocateConnections(ann, failing);
    if ann.errno == CantAllocateMem {
      return false;
    }
  }

  /** The wiring part of fann_create_shortcut_array. */
  method WireShortcut(ann: Network, ghost sizes: seq<nat>)
    requires ShortcutSplit(ann, sizes)
    modifies ann.connections, ann.weights
    ensures ann.Valid() && ShortcutBuilt(ann, sizes)
  {
    WireShortcutLayers(ann.layers, ann.neurons, ann.connections, ann.weights, sizes);
    ShortcutValid(ann, sizes);
  }

  /** fann_create_shortcut_array: every neuron of a later layer reads every
      neuron of all layers before it, the single bias of the input layer
      included. NULL exactly when fewer than two layers are asked for or an
      allocation fails. */
  method CreateShortcutArray(sizes: seq<nat>, w: nat, failing: set<AllocSite>) returns (ann: Network?)
    requires w > 0
    ensures ann == null <==> |sizes| < 2 || failing * BuildSites != {}
    ensures ann != null ==> fresh(ann) && ann.Valid() && ShortcutBuilt(ann, sizes)
  {
    ann := AllocateStructure(|sizes|, w, failing);
    if ann == null {
      return;
    }
    var ok := PrepareShortcut(ann, sizes, failing);
    if !ok {
      ann := null;
      return;
    }
    assert failing * BuildSites == {} by {
      forall s | s in BuildSites ensures s !in failing { }
    }
    WireShortcut(ann, sizes);
  }
}
