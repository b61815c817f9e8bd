/**
 * The FANN network object and the internal routines that give it its
 * storage: fann_allocate_structure (the object, its defaults and its layer
 * array), fann_allocate_neurons (one neuron arena for all layers) and
 * fann_allocate_connections (the parallel connection and weight arenas),
 * together with the simple getters.
 *
 * A heap allocation that fails is modelled by the set `failing` of
 * allocation sites that return NULL. The arenas are padded to a multiple of
 * the accelerator's work-item granularity MAXWITEM, which is the network's
 * constant `maxWItem`.
 */
module Fann {
  import opened FannTypes
  import opened Sizing
  import opened Layout

  class Network {
    /** MAXWITEM, the work-item granularity the arenas are padded to. */
    const maxWItem: nat

    var layers: array<Layer>
    var neurons: array?<Neuron>          // the neuron arena all layers point into
    var output: array?<Weight>
    var weights: array?<Weight>
    var connections: array?<NeuronRef>   // source neuron of every connection slot
    var totalNeurons: nat
    var totalNeuronsAllocated: nat
    var totalConnections: nat
    var totalConnectionsAllocated: nat
    var numInput: nat
    var numOutput: nat
    var networkType: NetType
    var connectionRate: real
    var errno: ErrNo
    var errstr: Option<string>
    var params: Params
    var cascadeActivationFunctions: seq<Activation>
    var cascadeActivationSteepnesses: seq<Weight>
    var cascadeCandidateScores: Option<seq<Weight>>
    var trainSlopes: array?<Weight>
    var prevSteps: array?<Weight>
    var prevTrainSlopes: array?<Weight>
    var prevWeightsDeltas: array?<Weight>
    /** tc_in_layers: connection slots counted for the accelerator, one more per neuron than it owns. */
    var tcInLayers: nat

    /** The object as fann_allocate_structure leaves it: numLayers empty
        layers, no arenas, the default parameters. */
    ghost predicate Initial(numLayers: nat)
      reads this, layers
    {
      && layers.Length == numLayers
      && (forall j :: 0 <= j < numLayers ==> layers[j] == Layer(0, 0))
      && neurons == null && output == null && weights == null && connections == null
      && totalNeurons == 0 && totalNeuronsAllocated == 0
      && totalConnections == 0 && totalConnectionsAllocated == 0
      && numInput == 0 && numOutput == 0
      && networkType == LayeredNet && connectionRate == 0.0
      && errno == NoError && errstr == None
      && params == DefaultParams
      && cascadeActivationFunctions == DefaultCascadeActivationFunctions
      && cascadeActivationSteepnesses == DefaultCascadeActivationSteepnesses
      && cascadeCandidateScores == None
      && trainSlopes == null && prevSteps == null && prevTrainSlopes == null && prevWeightsDeltas == null
      && tcInLayers == 0
    }

    constructor (w: nat, numLayers: nat)
      ensures maxWItem == w && Initial(numLayers) && fresh(layers)
    {
      maxWItem := w;
      layers := new Layer[numLayers](_ => Layer(0, 0));
      neurons, output, weights, connections := null, null, null, null;
      totalNeurons, totalNeuronsAllocated := 0, 0;
      totalConnections, totalConnectionsAllocated := 0, 0;
      numInput, numOutput := 0, 0;
      networkType, connectionRate := LayeredNet, 0.0;
      errno, errstr := NoError, None;
      params := DefaultParams;
      cascadeActivationFunctions := DefaultCascadeActivationFunctions;
      cascadeActivationSteepnesses := DefaultCascadeActivationSteepnesses;
      cascadeCandidateScores := None;
      trainSlopes, prevSteps, prevTrainSlopes, prevWeightsDeltas := null, null, null, null;
      tcInLayers := 0;
    }

    /** Neurons of the last layer: the length of the output vector. */
    function LastLayerCount(): nat
      reads this`layers, layers
    {
      if layers.Length == 0 then 0 else layers[layers.Length - 1].Count()
    }

    /** A training buffer, when present, holds a value for every connection. */
    ghost predicate BufferOk(b: array?<Weight>)
      reads this`totalConnections
    {
      b != null ==> totalConnections <= b.Length
    }

    /** A built network: at least two layers lying back to back from neuron 0
        over the first totalNeurons neurons of the arena; connection ranges
        chained from slot 0 up to totalConnections; every used slot reading
        an existing neuron. */
    ghost predicate Valid()
      reads this`layers, this`neurons, this`output, this`connections, this`weights
      reads this`totalNeurons, this`totalConnections
      reads this`trainSlopes, this`prevSteps, this`prevTrainSlopes, this`prevWeightsDeltas
      reads layers, neurons, connections, weights, output
    {
      && layers.Length >= 2 && maxWItem > 0
      && PlacedFrom(layers[..], totalNeurons)
      && neurons != null && output != null && connections != null && weights != null
      && totalNeurons <= neurons.Length
      && ChainedFrom(neurons[..totalNeurons], 0)
      && EndCon(neurons[..totalNeurons], 0) == totalConnections
      && totalConnections <= connections.Length && connections.Length == weights.Length
      && (forall k :: 0 <= k < totalConnections ==> connections[k].Ref? && connections[k].index < totalNeurons)
      && LastLayerCount() <= output.Length
      && BufferOk(trainSlopes) && BufferOk(prevSteps) && BufferOk(prevTrainSlopes) && BufferOk(prevWeightsDeltas)
    }
  }

  // ---------------------------------------------------------------------
  // Layer arrays.
  // ---------------------------------------------------------------------

  /** Layers that only record their sizes, as the builders set them up before
      the neuron arena exists: layer j spans counts[j] neurons from 0. */
  ghost predicate Sized(layers: seq<Layer>, counts: seq<nat>)
  {
    |layers| == |counts| && forall j :: 0 <= j < |layers| ==> layers[j] == Layer(0, counts[j])
  }

  /** Layer j starts after the counts[0 .. j-1] neurons before it and holds counts[j]. */
  ghost predicate LayerPlaced(layers: seq<Layer>, counts: seq<nat>, j: nat)
  {
    j < |layers| && j < |counts| && layers[j] == Layer(Start(counts, j), Start(counts, j) + counts[j])
  }

  /** Layers placed back to back in the arena, layer j holding counts[j] neurons. */
  ghost predicate PlacedAs(layers: seq<Layer>, counts: seq<nat>)
  {
    |layers| == |counts|
    && forall j {:trigger LayerPlaced(layers, counts, j)} :: 0 <= j < |layers| ==> LayerPlaced(layers, counts, j)
  }

  lemma PlacedLayerAt(layers: seq<Layer>, counts: seq<nat>, j: nat)
    requires PlacedAs(layers, counts) && j < |counts|
    ensures layers[j] == Layer(Start(counts, j), Start(counts, j) + counts[j])
    ensures layers[j].Count() == counts[j]
  {
    assert LayerPlaced(layers, counts, j);
  }

  /** Layer j starts where layer j - 1 ends. */
  ghost predicate Follows(layers: seq<Layer>, j: nat)
    requires 0 < j < |layers|
  {
    layers[j].firstNeuron == layers[j - 1].lastNeuron
  }

  /** Layers back to back from neuron 0, the last one ending at neuron total. */
  ghost predicate PlacedFrom(layers: seq<Layer>, total: nat)
  {
    && |layers| >= 1 && layers[0].firstNeuron == 0
    && (forall j :: 0 <= j < |layers| ==> layers[j].firstNeuron <= layers[j].lastNeuron)
    && (forall j {:trigger Follows(layers, j)} :: 0 < j < |layers| ==> Follows(layers, j))
    && layers[|layers| - 1].lastNeuron == total
  }

  /** The neuron counts of a layer array. */
  function LayerCounts(layers: seq<Layer>): seq<nat>
  {
    seq(|layers|, j requires 0 <= j < |layers| => layers[j].Count())
  }

  /** Layers placed as counts say lie back to back over Sum(counts) neurons,
      and their neuron counts are counts. */
  lemma PlacedAsFrom(layers: seq<Layer>, counts: seq<nat>)
    requires PlacedAs(layers, counts) && |counts| >= 1
    ensures PlacedFrom(layers, Sum(counts))
    ensures LayerCounts(layers) == counts
  {
    forall j | 0 <= j < |layers|
      ensures layers[j] == Layer(Start(counts, j), Start(counts, j) + counts[j])
    {
      assert LayerPlaced(layers, counts, j);
    }
    forall j | 0 < j < |layers|
      ensures Follows(layers, j)
    {
      assert LayerPlaced(layers, counts, j) && LayerPlaced(layers, counts, j - 1);
    }
    assert LayerCounts(layers) == counts by {
      forall j | 0 <= j < |layers|
        ensures LayerCounts(layers)[j] == counts[j]
      {
        assert LayerPlaced(layers, counts, j);
      }
    }
  }

  /** Back-to-back layers are placed as their own counts say. */
  lemma {:induction false} PlacedFromAs(layers: seq<Layer>, total: nat, j: nat)
    requires PlacedFrom(layers, total) && j < |layers|
    ensures layers[j].firstNeuron == Start(LayerCounts(layers), j)
  {
    if j > 0 {
      PlacedFromAs(layers, total, j - 1);
      assert Follows(layers, j);
    }
  }

  /** The number of neurons the layers cover. */
  lemma PlacedFromTotal(layers: seq<Layer>, total: nat)
    requires PlacedFrom(layers, total)
    ensures total == Sum(LayerCounts(layers))
    ensures PlacedAs(layers, LayerCounts(layers))
  {
    var counts := LayerCounts(layers);
    forall j | 0 <= j < |layers|
      ensures LayerPlaced(layers, counts, j)
    {
      PlacedFromAs(layers, total, j);
    }
    var last := |layers| - 1;
    assert LayerPlaced(layers, counts, last);
    assert Sum(counts) == Start(counts, last) + counts[last];
  }

  // ---------------------------------------------------------------------
  // fann_allocate_structure.
  // ---------------------------------------------------------------------

  /** Fewer than two layers, or any of the four allocations failing, gives
      NULL; otherwise a fresh object with numLayers empty layers and the
      default parameters. */
  method AllocateStructure(numLayers: nat, w: nat, failing: set<AllocSite>) returns (ann: Network?)
    ensures ann == null <==> numLayers < 2 || failing * StructureSites != {}
    ensures ann != null ==> fresh(ann) && fresh(ann.layers) && ann.maxWItem == w && ann.Initial(numLayers)
  {
    if numLayers < 2 {
      return null;
    }
    if StructAlloc in failing {
      assert StructAlloc in failing * StructureSites;
      return null;
    }
    if CascadeFunctionsAlloc in failing {
      assert CascadeFunctionsAlloc in failing * StructureSites;
      return null;
    }
    if CascadeSteepnessesAlloc in failing {
      assert CascadeSteepnessesAlloc in failing * StructureSites;
      return null;
    }
    if LayerArrayAlloc in failing {
      assert LayerArrayAlloc in failing * StructureSites;
      return null;
    }
    assert failing * StructureSites == {} by {
      forall s | s in StructureSites ensures s !in failing { }
    }
    ann := new Network(w, numLayers);
  }

  /** The layer-sizing loop of the builders: a layered network gives every
      layer its requested size plus a bias neuron, a shortcut network gives
      only the first layer a bias neuron; totalNeurons is their sum. */
  method SizeLayers(ann: Network, sizes: seq<nat>, t: NetType)
    requires ann.layers.Length == |sizes| && ann.totalNeurons == 0
    modifies ann.layers, ann`totalNeurons
    ensures Sized(ann.layers[..], NeuronCounts(sizes, t))
    ensures ann.totalNeurons == Sum(NeuronCounts(sizes, t))
  {
    ghost var counts := NeuronCounts(sizes, t);
    var i := 0;
    while i != ann.layers.Length
      invariant 0 <= i <= ann.layers.Length
      invariant forall j :: 0 <= j < i ==> ann.layers[j] == Layer(0, counts[j])
      invariant ann.totalNeurons == Start(counts, i)
    {
      var last := sizes[i];
      if t == LayeredNet || i == 0 {
        last := last + 1;
      }
      ann.layers[i] := Layer(0, last);
      ann.totalNeurons := ann.totalNeurons + last;
      i := i + 1;
    }
  }

  // ---------------------------------------------------------------------
  // fann_allocate_neurons and fann_allocate_connections.
  // ---------------------------------------------------------------------

  /** M_cns: the connection arenas hold total_connections rounded up to a
      multiple of MAXWITEM, plus ten more blocks of MAXWITEM. */
  function ConnectionArenaSize(n: nat, w: nat): (r: nat)
    requires w > 0
    ensures n + 10 * w <= r < n + 11 * w && r % w == 0
  {
    PaddedExtra(n, w, 10);
    Padded(n, w) + 10 * w
  }

  /** Lays the sized layers out back to back in one zeroed arena of
      ceil(total / MAXWITEM) * MAXWITEM neurons, then allocates an output
      vector as long as the last layer. Either allocation failing records
      the error; the arena failing leaves the layers as they were. */
  method AllocateNeurons(ann: Network, ghost counts: seq<nat>, failing: set<AllocSite>)
    requires Sized(ann.layers[..], counts) && |counts| >= 1
    requires ann.totalNeurons == Sum(counts) && ann.maxWItem > 0
    modifies ann.layers, ann`neurons, ann`output, ann`errno, ann`totalNeuronsAllocated
    ensures ann.totalNeuronsAllocated == ann.totalNeurons
    ensures ann.errno == (if NeuronArenaAlloc in failing || OutputAlloc in failing then CantAllocateMem else old(ann.errno))
    ensures NeuronArenaAlloc in failing ==>
      ann.neurons == old(ann.neurons) && ann.output == old(ann.output) && ann.layers[..] == old(ann.layers[..])
    ensures NeuronArenaAlloc !in failing ==>
      && ann.neurons != null && fresh(ann.neurons)
      && ann.neurons.Length == Padded(ann.totalNeurons, ann.maxWItem)
      && (forall k :: 0 <= k < ann.neurons.Length ==> ann.neurons[k] == ZeroNeuron)
      && PlacedAs(ann.layers[..], counts)
    ensures NeuronArenaAlloc !in failing && OutputAlloc in failing ==> ann.output == old(ann.output)
    ensures NeuronArenaAlloc !in failing && OutputAlloc !in failing ==>
      && ann.output != null && fresh(ann.output) && ann.output.Length == counts[|counts| - 1]
      && (forall k :: 0 <= k < ann.output.Length ==> ann.output[k] == 0.0)
  {
    var size := Padded(ann.totalNeurons, ann.maxWItem);
    ann.totalNeuronsAllocated := ann.totalNeurons;
    if NeuronArenaAlloc in failing {
      ann.errno := CantAllocateMem;
      return;
    }
    var arena := new Neuron[size](_ => ZeroNeuron);
    var num := PlaceLayers(ann.layers, counts);
    ann.neurons := arena;
    if OutputAlloc in failing {
      ann.errno := CantAllocateMem;
      return;
    }
    ann.output := new Weight[num](_ => 0.0);
  }

  /** The first L layers are placed, the others only sized. */
  ghost predicate Placing(layers: seq<Layer>, counts: seq<nat>, L: nat)
  {
    && L <= |layers| == |counts|
    && (forall j :: 0 <= j < L ==> layers[j] == Layer(Start(counts, j), Start(counts, j) + counts[j]))
    && (forall j :: L <= j < |layers| ==> layers[j] == Layer(0, counts[j]))
  }

  lemma PlacingStep(before: seq<Layer>, after: seq<Layer>, counts: seq<nat>, L: nat)
    requires Placing(before, counts, L) && L < |before|
    requires after == before[L := Layer(Start(counts, L), Start(counts, L) + counts[L])]
    ensures Placing(after, counts, L + 1)
  {
  }

  /** The placing loop of fann_allocate_neurons: each layer starts where the
      previous one ended, from neuron 0; returns the last layer's count. */
  method PlaceLayers(layers: array<Layer>, ghost counts: seq<nat>) returns (num: nat)
    requires Sized(layers[..], counts) && |counts| >= 1
    modifies layers
    ensures PlacedAs(layers[..], counts) && num == counts[|counts| - 1]
  {
    var soFar := 0;
    num := 0;
    var L := 0;
    while L != layers.Length
      invariant 0 <= L <= layers.Length
      invariant soFar == Start(counts, L)
      invariant Placing(layers[..], counts, L)
      invariant L > 0 ==> num == counts[L - 1]
    {
      ghost var before := layers[..];
      num := layers[L].Count();
      layers[L] := Layer(soFar, soFar + num);
      PlacingStep(before, layers[..], counts, L);
      soFar := soFar + num;
      L := L + 1;
    }
    forall j | 0 <= j < layers.Length
      ensures LayerPlaced(layers[..], counts, j)
    {
    }
  }

  /** Allocates the weight arena, records total_connections as allocated, then
      allocates the connection arena, both zeroed and ConnectionArenaSize
      long. Either allocation failing records the error and stops there. */
  method AllocateConnections(ann: Network, failing: set<AllocSite>)
    requires ann.maxWItem > 0
    modifies ann`weights, ann`connections, ann`errno, ann`totalConnectionsAllocated
    ensures ann.errno == (if WeightArenaAlloc in failing || ConnectionArenaAlloc in failing then CantAllocateMem else old(ann.errno))
    ensures WeightArenaAlloc in failing ==>
      && ann.weights == old(ann.weights) && ann.connections == old(ann.connections)
      && ann.totalConnectionsAllocated == old(ann.totalConnectionsAllocated)
    ensures WeightArenaAlloc !in failing ==>
      && ann.totalConnectionsAllocated == ann.totalConnections
      && ann.weights != null && fresh(ann.weights)
      && ann.weights.Length == ConnectionArenaSize(ann.totalConnections, ann.maxWItem)
      && (forall k :: 0 <= k < ann.weights.Length ==> ann.weights[k] == 0.0)
    ensures WeightArenaAlloc !in failing && ConnectionArenaAlloc in failing ==> ann.connections == old(ann.connections)
    ensures WeightArenaAlloc !in failing && ConnectionArenaAlloc !in failing ==>
      && ann.connections != null && fresh(ann.connections)
      && ann.connections.Length == ConnectionArenaSize(ann.totalConnections, ann.maxWItem)
      && (forall k :: 0 <= k < ann.connections.Length ==> ann.connections[k] == Null)
  {
    var size := ConnectionArenaSize(ann.totalConnections, ann.maxWItem);
    if WeightArenaAlloc in failing {
      ann.errno := CantAllocateMem;
      return;
    }
    ann.weights := new Weight[size](_ => 0.0);
    ann.totalConnectionsAllocated := ann.totalConnections;
    if ConnectionArenaAlloc in failing {
      ann.errno := CantAllocateMem;
      return;
    }
    ann.connections := new NeuronRef[size](_ => Null);
  }

  // ---------------------------------------------------------------------
  // Getters.
  // ---------------------------------------------------------------------

  /** fann_get_total_neurons. When the arena holds exactly the layers, each
      with its bias, this is the sum of the sizes fann_get_layer_array
      reports and the biases fann_get_bias_array reports: the unused bias of
      a layered network's last layer is not counted. */
  function GetTotalNeurons(ann: Network): (n: nat)
    reads ann, ann.layers
    ensures var t, counts := ann.networkType, LayerCounts(ann.layers[..]);
      ann.totalNeurons == Sum(counts) && BiasesPresent(counts, t)
      ==> n == Sum(ReportedSizes(counts, t)) + Sum(ReportedBiases(|counts|, t))
  {
    var t, counts := ann.networkType, LayerCounts(ann.layers[..]);
    if ann.totalNeurons == Sum(counts) && BiasesPresent(counts, t) then
      BiasesPresentSizes(counts, t);
      TotalNeuronsMatchesLayerArray(ReportedSizes(counts, t), t);
      TotalNeuronsReported(ann.totalNeurons, t)
    else
      TotalNeuronsReported(ann.totalNeurons, t)
  }

  /** fann_get_num_layers: last_layer - first_layer, which is the length of
      the arrays fann_get_layer_array and fann_get_bias_array fill. */
  function GetNumLayers(ann: Network): (n: nat)
    reads ann, ann.layers
    ensures n == |ReportedSizes(LayerCounts(ann.layers[..]), ann.networkType)|
    ensures n == |ReportedBiases(ann.layers.Length, ann.networkType)|
  {
    ann.layers.Length
  }

  /** fann_get_layer_array: every layer's neuron count without its bias. */
  method GetLayerArray(ann: Network) returns (r: seq<nat>)
    ensures r == ReportedSizes(LayerCounts(ann.layers[..]), ann.networkType)
  {
    ghost var expected := ReportedSizes(LayerCounts(ann.layers[..]), ann.networkType);
    r := [];
    var L := 0;
    while L != ann.layers.Length
      invariant 0 <= L <= ann.layers.Length
      invariant r == expected[..L]
    {
      var count := ann.layers[L].Count();
      match ann.networkType {
        case LayeredNet =>
          count := Pred32(count);
        case ShortcutNet =>
          if L == 0 {
            count := Pred32(count);
          }
      }
      assert expected[..L + 1] == expected[..L] + [count];
      r := r + [count];
      L := L + 1;
    }
    assert expected[..L] == expected;
  }

  /** fann_get_bias_array: the number of bias neurons in every layer. */
  method GetBiasArray(ann: Network) returns (r: seq<nat>)
    ensures r == ReportedBiases(ann.layers.Length, ann.networkType)
  {
    ghost var expected := ReportedBiases(ann.layers.Length, ann.networkType);
    r := [];
    var L := 0;
    while L != ann.layers.Length
      invariant 0 <= L <= ann.layers.Length
      invariant r == expected[..L]
    {
      var bias: nat;
      match ann.networkType {
        case LayeredNet =>
          bias := if L != ann.layers.Length - 1 then 1 else 0;
        case ShortcutNet =>
          bias := if L == 0 then 1 else 0;
      }
      assert expected[..L + 1] == expected[..L] + [bias];
      r := r + [bias];
      L := L + 1;
    }
    assert expected[..L] == expected;
  }
}
