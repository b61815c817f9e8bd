/**
 * fann_copy: a deep copy of a built network.
 *
 * The copy gets a structure of its own, the original's error state, error
 * string, parameters and cascade tables, then layer sizes, a neuron arena and
 * output vector, connection and weight arenas, and the optional training
 * buffers. Every connection is rebased: its offset from the original's neuron
 * arena base is added to the copy's base. Any allocation that fails discards
 * the partial copy and gives NULL; most of them also record
 * FANN_E_CANT_ALLOCATE_MEM on the ORIGINAL.
 *
 * Two places where the code as written does not do what a copy should are
 * modelled as written beside the corrected behaviour the copy below uses:
 * the neuron and connection steps test the copy's errno, which was copied
 * from the original, so an original whose errno already says
 * CANT_ALLOCATE_MEM can never be copied; and the scalar parameters the copy
 * leaves out (training algorithm, minimum cascade epochs, SARPROP settings)
 * fall back to their defaults.
 */
module Clone {
  import opened FannTypes
  import opened Sizing
  import opened Layout
  import opened Fann
  import opened Introspect

  // ---------------------------------------------------------------------
  // Where a copy can fail.
  // ---------------------------------------------------------------------

  /** The allocation sites of fann_copy, in the order it reaches them. */
  function CopyOrder(hasErrStr: bool, hasScores: bool, buffers: seq<bool>): seq<AllocSite>
    requires |buffers| == 4
  {
    [StructAlloc, CascadeFunctionsAlloc, CascadeSteepnessesAlloc, LayerArrayAlloc]
    + HeaderOrder(hasErrStr, hasScores)
    + [NeuronArenaAlloc, OutputAlloc, WeightArenaAlloc, ConnectionArenaAlloc]
    + BufferOrder(buffers)
  }

  /** The error string, the cascade tables and the candidate scores. */
  function HeaderOrder(hasErrStr: bool, hasScores: bool): seq<AllocSite>
  {
    (if hasErrStr then [ErrStrAlloc] else [])
    + [CascadeFunctionsRealloc, CascadeSteepnessesRealloc]
    + (if hasScores then [CandidateScoresAlloc] else [])
  }

  /** The training buffers the original has, in the order they are copied. */
  function BufferOrder(present: seq<bool>): seq<AllocSite>
    requires |present| == 4
  {
    (if present[0] then [TrainSlopesAlloc] else [])
    + (if present[1] then [PrevStepsAlloc] else [])
    + (if present[2] then [PrevTrainSlopesAlloc] else [])
    + (if present[3] then [PrevWeightsDeltasAlloc] else [])
  }

  /** Which training buffers a network has. */
  function Buffers(ann: Network): (r: seq<bool>)
    reads ann`trainSlopes, ann`prevSteps, ann`prevTrainSlopes, ann`prevWeightsDeltas
    ensures |r| == 4
  {
    [ann.trainSlopes != null, ann.prevSteps != null, ann.prevTrainSlopes != null, ann.prevWeightsDeltas != null]
  }

  function OrderOf(orig: Network): seq<AllocSite>
    reads orig`errstr, orig`cascadeCandidateScores
    reads orig`trainSlopes, orig`prevSteps, orig`prevTrainSlopes, orig`prevWeightsDeltas
  {
    CopyOrder(orig.errstr.Some?, orig.cascadeCandidateScores.Some?, Buffers(orig))
  }

  /** The first site of `order` that fails, if any. */
  function FirstFailure(order: seq<AllocSite>, failing: set<AllocSite>): (r: Option<AllocSite>)
    ensures r.Some? ==> r.value in failing && r.value in order
    ensures r.None? <==> forall k :: 0 <= k < |order| ==> order[k] !in failing
  {
    if |order| == 0 then None
    else if order[0] in failing then Some(order[0])
    else FirstFailure(order[1..], failing)
  }

  lemma {:induction false} FirstFailureAppend(a: seq<AllocSite>, b: seq<AllocSite>, failing: set<AllocSite>)
    ensures FirstFailure(a + b, failing) == if FirstFailure(a, failing).Some? then FirstFailure(a, failing) else FirstFailure(b, failing)
  {
    if |a| > 0 {
      assert (a + b)[1..] == a[1..] + b;
      FirstFailureAppend(a[1..], b, failing);
    } else {
      assert a + b == b;
    }
  }

  /** Failures fann_copy reports on the original with fann_error: all but the
      error string and the four arenas. */
  predicate Reports(s: AllocSite)
  {
    s !in {ErrStrAlloc, NeuronArenaAlloc, OutputAlloc, WeightArenaAlloc, ConnectionArenaAlloc}
  }

  /** The original's errno after a copy whose first failure is f. */
  function ErrnoAfter(f: Option<AllocSite>, errno: ErrNo): ErrNo
  {
    if f.Some? && Reports(f.value) then CantAllocateMem else errno
  }

  /** A copy fails exactly when one of the sites it reaches for this original
      fails; the structure sites always report on the original. */
  lemma CopyFailsWhen(orig: Network, failing: set<AllocSite>)
    ensures FirstFailure(OrderOf(orig), failing).Some? <==> failing * (set k | 0 <= k < |OrderOf(orig)| :: OrderOf(orig)[k]) != {}
    ensures failing * StructureSites != {} ==>
              FirstFailure(OrderOf(orig), failing).Some? && Reports(FirstFailure(OrderOf(orig), failing).value)
  {
    var order := OrderOf(orig);
    var s := [StructAlloc, CascadeFunctionsAlloc, CascadeSteepnessesAlloc, LayerArrayAlloc];
    var rest := HeaderOrder(orig.errstr.Some?, orig.cascadeCandidateScores.Some?)
                + [NeuronArenaAlloc, OutputAlloc, WeightArenaAlloc, ConnectionArenaAlloc]
                + BufferOrder(Buffers(orig));
    assert order == s + rest;
    FirstFailureAppend(s, rest, failing);
    if failing * StructureSites != {} {
      var x :| x in failing * StructureSites;
      assert x in s;
    }
    if FirstFailure(order, failing).Some? {
      var f := FirstFailure(order, failing).value;
      var k :| 0 <= k < |order| && order[k] == f;
      assert f in failing * (set k | 0 <= k < |order| :: order[k]);
    }
  }

  // ---------------------------------------------------------------------
  // The finding on errno: the arena steps test an inherited error.
  // ---------------------------------------------------------------------

  /** The copy's errno after fann_allocate_neurons, when it started as the
      original's errno `inherited` (see Fann.AllocateNeurons). */
  function ErrnoAfterNeurons(inherited: ErrNo, failing: set<AllocSite>): ErrNo
  {
    if NeuronArenaAlloc in failing || OutputAlloc in failing then CantAllocateMem else inherited
  }

  /** As written, fann_copy gives up after fann_allocate_neurons when the
      copy's errno is CANT_ALLOCATE_MEM. */
  predicate NeuronStepAbortsAsWritten(inherited: ErrNo, failing: set<AllocSite>)
  {
    ErrnoAfterNeurons(inherited, failing) == CantAllocateMem
  }

  /** The step was meant to give up when an allocation failed; as written it
      also gives up, with nothing failing, on an original whose errno already
      records an allocation failure, which is what any earlier failed copy of
      it leaves behind (Clone's ensures). With no failing site the corrected
      copy succeeds for every original (Clone's ensures), while the step as
      written still aborts. */
  lemma InheritedErrorAbortsCopy(hasErrStr: bool, hasScores: bool, p: seq<bool>, failing: set<AllocSite>)
    requires |p| == 4
    ensures NeuronStepAbortsAsWritten(CantAllocateMem, failing)
    ensures NeuronStepAbortsAsWritten(NoError, failing) <==> NeuronArenaAlloc in failing || OutputAlloc in failing
    ensures failing == {} ==> CopySucceeds(hasErrStr, hasScores, p, failing) && NeuronStepAbortsAsWritten(CantAllocateMem, failing)
  {
  }

  // ---------------------------------------------------------------------
  // The finding on parameters: some are not copied.
  // ---------------------------------------------------------------------

  /** The parameters of a copy as written: the fields fann_copy assigns, and
      fann_allocate_structure's defaults for the others. */
  function CopiedParamsAsWritten(p: Params): Params
  {
    DefaultParams.(
      learningRate := p.learningRate,
      learningMomentum := p.learningMomentum,
      numMSE := p.numMSE,
      mseValue := p.mseValue,
      numBitFail := p.numBitFail,
      bitFailLimit := p.bitFailLimit,
      trainErrorFunction := p.trainErrorFunction,
      trainStopFunction := p.trainStopFunction,
      cascadeOutputChangeFraction := p.cascadeOutputChangeFraction,
      cascadeOutputStagnationEpochs := p.cascadeOutputStagnationEpochs,
      cascadeCandidateChangeFraction := p.cascadeCandidateChangeFraction,
      cascadeCandidateStagnationEpochs := p.cascadeCandidateStagnationEpochs,
      cascadeBestCandidate := p.cascadeBestCandidate,
      cascadeCandidateLimit := p.cascadeCandidateLimit,
      cascadeWeightMultiplier := p.cascadeWeightMultiplier,
      cascadeMaxOutEpochs := p.cascadeMaxOutEpochs,
      cascadeMaxCandEpochs := p.cascadeMaxCandEpochs,
      cascadeNumCandidateGroups := p.cascadeNumCandidateGroups,
      quickpropDecay := p.quickpropDecay,
      quickpropMu := p.quickpropMu,
      rpropIncreaseFactor := p.rpropIncreaseFactor,
      rpropDecreaseFactor := p.rpropDecreaseFactor,
      rpropDeltaMin := p.rpropDeltaMin,
      rpropDeltaMax := p.rpropDeltaMax,
      rpropDeltaZero := p.rpropDeltaZero)
  }

  /** The parameters fann_copy does not copy are at their defaults. */
  predicate UncopiedAtDefaults(p: Params)
  {
    && p.trainingAlgorithm == DefaultParams.trainingAlgorithm
    && p.cascadeMinOutEpochs == DefaultParams.cascadeMinOutEpochs
    && p.cascadeMinCandEpochs == DefaultParams.cascadeMinCandEpochs
    && p.sarpropWeightDecayShift == DefaultParams.sarpropWeightDecayShift
    && p.sarpropStepErrorThresholdFactor == DefaultParams.sarpropStepErrorThresholdFactor
    && p.sarpropStepErrorShift == DefaultParams.sarpropStepErrorShift
    && p.sarpropTemperature == DefaultParams.sarpropTemperature
    && p.sarpropEpoch == DefaultParams.sarpropEpoch
  }

  /** As written, a copy keeps the parameters exactly when the ones it leaves
      out are at their defaults: a network trained with Quickprop is copied
      as an RPROP network. */
  lemma CopiedParamsLoseSettings(p: Params)
    ensures CopiedParamsAsWritten(p) == p <==> UncopiedAtDefaults(p)
    ensures CopiedParamsAsWritten(DefaultParams.(trainingAlgorithm := Quickprop)).trainingAlgorithm == Rprop
  {
  }

  // ---------------------------------------------------------------------
  // What a successful copy holds.
  // ---------------------------------------------------------------------

  /** A copy's training buffer: present exactly when the original's is, and
      then a fresh array holding the original's first n values. */
  ghost predicate BufferCopied(orig: array?<Weight>, copy: array?<Weight>, n: nat)
    reads orig, copy
  {
    (orig == null <==> copy == null)
    && (orig != null ==> n <= orig.Length && copy.Length == n && copy[..] == orig[..n])
  }

  /** The error string, parameters and cascade tables of a copy. */
  ghost predicate HeaderCopied(orig: Network, copy: Network, numCandidates: nat)
    reads orig`errstr, orig`params, orig`connectionRate, orig`networkType, orig`cascadeActivationFunctions
    reads orig`cascadeActivationSteepnesses, orig`cascadeCandidateScores
    reads copy`errstr, copy`params, copy`connectionRate, copy`networkType, copy`cascadeActivationFunctions
    reads copy`cascadeActivationSteepnesses, copy`cascadeCandidateScores
  {
    && copy.errstr == orig.errstr
    && copy.params == orig.params
    && copy.connectionRate == orig.connectionRate && copy.networkType == orig.networkType
    && copy.cascadeActivationFunctions == orig.cascadeActivationFunctions
    && copy.cascadeActivationSteepnesses == orig.cascadeActivationSteepnesses
    && copy.cascadeCandidateScores == match orig.cascadeCandidateScores {
         case None => None
         case Some(s) => if numCandidates <= |s| then Some(s[..numCandidates]) else None
       }
  }

  /** The sizes and counters of a copy. */
  ghost predicate SizesCopied(orig: Network, copy: Network)
    reads orig, orig.layers, copy, copy.layers
  {
    && copy.maxWItem == orig.maxWItem
    && copy.layers[..] == orig.layers[..]
    && copy.totalNeurons == orig.totalNeurons && copy.totalNeuronsAllocated == orig.totalNeurons
    && copy.totalConnections == orig.totalConnections && copy.totalConnectionsAllocated == orig.totalConnections
    && copy.numInput == orig.numInput && copy.numOutput == orig.numOutput
  }

  /** The neuron arena and output vector of a copy: as long as allocation
      makes them, holding the original's neurons and outputs. */
  ghost predicate NeuronsCopied(orig: Network, copy: Network)
    reads orig, orig.layers, orig.neurons, orig.output, copy, copy.neurons, copy.output
  {
    && orig.neurons != null && copy.neurons != null && orig.output != null && copy.output != null
    && orig.maxWItem > 0 && orig.totalNeurons <= orig.neurons.Length
    && copy.neurons.Length == Padded(orig.totalNeurons, orig.maxWItem)
    && orig.totalNeurons <= copy.neurons.Length
    && copy.neurons[..orig.totalNeurons] == orig.neurons[..orig.totalNeurons]
    && copy.output.Length == orig.LastLayerCount() <= orig.output.Length
    && copy.output[..] == orig.output[..orig.LastLayerCount()]
  }

  /** The connection and weight arenas of a copy: as long as allocation makes
      them, holding the original's connections and weights. */
  ghost predicate ConnectionsCopied(orig: Network, copy: Network)
    reads orig, orig.connections, orig.weights, copy, copy.connections, copy.weights
  {
    && orig.connections != null && copy.connections != null && orig.weights != null && copy.weights != null
    && orig.maxWItem > 0
    && copy.connections.Length == copy.weights.Length == ConnectionArenaSize(orig.totalConnections, orig.maxWItem)
    && orig.totalConnections <= orig.connections.Length && orig.totalConnections <= orig.weights.Length
    && orig.totalConnections <= copy.connections.Length
    && copy.connections[..orig.totalConnections] == orig.connections[..orig.totalConnections]
    && copy.weights[..orig.totalConnections] == orig.weights[..orig.totalConnections]
  }

  /** The training buffers of a copy. */
  ghost predicate BuffersCopied(orig: Network, copy: Network)
    reads orig, orig.trainSlopes, orig.prevSteps, orig.prevTrainSlopes, orig.prevWeightsDeltas
    reads copy, copy.trainSlopes, copy.prevSteps, copy.prevTrainSlopes, copy.prevWeightsDeltas
  {
    && BufferCopied(orig.trainSlopes, copy.trainSlopes, orig.totalConnections)
    && BufferCopied(orig.prevSteps, copy.prevSteps, orig.totalConnections)
    && BufferCopied(orig.prevTrainSlopes, copy.prevTrainSlopes, orig.totalConnections)
    && BufferCopied(orig.prevWeightsDeltas, copy.prevWeightsDeltas, orig.totalConnections)
  }

  // ---------------------------------------------------------------------
  // fann_copy, step by step.
  // ---------------------------------------------------------------------

  /** The header step succeeds: none of the sites it reaches fails. */
  predicate HeaderOk(hasErrStr: bool, hasScores: bool, failing: set<AllocSite>)
  {
    && (hasErrStr ==> ErrStrAlloc !in failing)
    && CascadeFunctionsRealloc !in failing && CascadeSteepnessesRealloc !in failing
    && (hasScores ==> CandidateScoresAlloc !in failing)
  }

  /** How the header step ends, by the sites it reaches. */
  lemma HeaderFailure(hasErrStr: bool, hasScores: bool, failing: set<AllocSite>)
    ensures var f := FirstFailure(HeaderOrder(hasErrStr, hasScores), failing);
            && (f.None? <==> HeaderOk(hasErrStr, hasScores, failing))
            && (f.Some? ==> (Reports(f.value) <==> !(hasErrStr && ErrStrAlloc in failing)))
  {
    var e: seq<AllocSite> := if hasErrStr then [ErrStrAlloc] else [];
    var m := [CascadeFunctionsRealloc, CascadeSteepnessesRealloc];
    var c: seq<AllocSite> := if hasScores then [CandidateScoresAlloc] else [];
    assert HeaderOrder(hasErrStr, hasScores) == e + (m + c);
    FirstFailureAppend(e, m + c, failing);
    FirstFailureAppend(m, c, failing);
    assert m[1..] == [CascadeSteepnessesRealloc];
  }

  /** The error state, error string, parameters and cascade tables. The
      parameters are copied whole (see CopiedParamsAsWritten). */
  method CopyHeader(orig: Network, copy: Network, numCandidates: nat, failing: set<AllocSite>) returns (ok: bool)
    requires copy != orig && copy.errstr == None && copy.cascadeCandidateScores == None
    requires orig.cascadeCandidateScores.Some? ==> numCandidates <= |orig.cascadeCandidateScores.value|
    modifies orig`errno, copy`errno, copy`errstr, copy`params, copy`connectionRate, copy`networkType
    modifies copy`cascadeActivationFunctions, copy`cascadeActivationSteepnesses, copy`cascadeCandidateScores
    ensures ok <==> HeaderOk(orig.errstr.Some?, orig.cascadeCandidateScores.Some?, failing)
    ensures orig.errno == if ok || (orig.errstr.Some? && ErrStrAlloc in failing) then old(orig.errno) else CantAllocateMem
    ensures ok ==> copy.errno == orig.errno && HeaderCopied(orig, copy, numCandidates)
  {
    copy.errno := orig.errno;
    if orig.errstr.Some? {
      if ErrStrAlloc in failing {
        return false;
      }
      copy.errstr := orig.errstr;
    }
    copy.params := orig.params;
    copy.connectionRate := orig.connectionRate;
    copy.networkType := orig.networkType;
    if CascadeFunctionsRealloc in failing {
      orig.errno := CantAllocateMem;
      return false;
    }
    copy.cascadeActivationFunctions := orig.cascadeActivationFunctions;
    if CascadeSteepnessesRealloc in failing {
      orig.errno := CantAllocateMem;
      return false;
    }
    copy.cascadeActivationSteepnesses := orig.cascadeActivationSteepnesses;
    match orig.cascadeCandidateScores {
      case None =>
      case Some(s) =>
        if CandidateScoresAlloc in failing {
          orig.errno := CantAllocateMem;
          return false;
        }
        copy.cascadeCandidateScores := Some(s[..numCandidates]);
    }
    ok := true;
  }

  /** The layer-size loop: every copied layer records the original's neuron
      count, ready for fann_allocate_neurons. */
  method CopyLayerSizes(orig: Network, copy: Network)
    requires copy.layers != orig.layers && copy.layers.Length == orig.layers.Length && copy.totalNeurons == 0
    modifies copy.layers, copy`totalNeurons, copy`numInput, copy`numOutput
    ensures Sized(copy.layers[..], LayerCounts(orig.layers[..]))
    ensures copy.totalNeurons == Sum(LayerCounts(orig.layers[..]))
    ensures copy.numInput == orig.numInput && copy.numOutput == orig.numOutput
  {
    ghost var counts := LayerCounts(orig.layers[..]);
    var i := 0;
    while i != orig.layers.Length
      invariant 0 <= i <= orig.layers.Length
      invariant forall j :: 0 <= j < i ==> copy.layers[j] == Layer(0, counts[j])
      invariant copy.totalNeurons == Start(counts, i)
    {
      var layerSize := orig.layers[i].Count();
      copy.layers[i] := Layer(0, layerSize);
      copy.totalNeurons := copy.totalNeurons + layerSize;
      i := i + 1;
    }
    copy.numInput := orig.numInput;
    copy.numOutput := orig.numOutput;
  }

  /** Two layer arrays placed from the same counts are the same. */
  lemma PlacedAsUnique(a: seq<Layer>, b: seq<Layer>, counts: seq<nat>)
    requires PlacedAs(a, counts) && PlacedAs(b, counts)
    ensures a == b
  {
    forall j | 0 <= j < |a|
      ensures a[j] == b[j]
    {
      PlacedLayerAt(a, counts, j);
      PlacedLayerAt(b, counts, j);
    }
  }

  /** The neuron loop of fann_copy: records [first, last) of the original's
      arena into the same places of the copy's. */
  method CopyNeuronRecords(src: array<Neuron>, dst: array<Neuron>, first: nat, last: nat)
    requires first <= last <= src.Length && last <= dst.Length && src != dst
    requires dst[..first] == src[..first]
    modifies dst
    ensures dst[..last] == src[..last]
  {
    var i := first;
    while i != last
      invariant first <= i <= last
      invariant dst[..i] == src[..i]
    {
      dst[i] := src[i];
      assert dst[..i + 1] == dst[..i] + [src[i]];
      i := i + 1;
    }
  }

  /** memcpy of the first n values of src into dst. */
  method CopyValues(src: array<Weight>, dst: array<Weight>, n: nat)
    requires n <= src.Length && n <= dst.Length && src != dst
    modifies dst
    ensures dst[..n] == src[..n] && dst[n..] == old(dst[n..])
  {
    forall k | 0 <= k < n {
      dst[k] := src[k];
    }
  }

  /** The facts about the original the neuron step relies on. */
  ghost predicate NeuronSource(orig: Network)
    reads orig`layers, orig`totalNeurons, orig`neurons, orig`output
    reads orig.layers, orig.neurons, orig.output
  {
    && orig.layers.Length >= 1 && orig.maxWItem > 0
    && PlacedFrom(orig.layers[..], orig.totalNeurons)
    && orig.neurons != null && orig.totalNeurons <= orig.neurons.Length
    && orig.output != null && orig.LastLayerCount() <= orig.output.Length
  }

  /** fann_allocate_neurons for the copy, then the output vector and the
      neuron records. Fails exactly when one of the two allocations fails. */
  method CopyNeurons(orig: Network, copy: Network, failing: set<AllocSite>) returns (ok: bool)
    requires NeuronSource(orig) && copy != orig && copy.maxWItem == orig.maxWItem
    requires copy.layers != orig.layers && copy.neurons == null && copy.output == null
    requires Sized(copy.layers[..], LayerCounts(orig.layers[..])) && copy.totalNeurons == orig.totalNeurons
    modifies copy.layers, copy`neurons, copy`output, copy`errno, copy`totalNeuronsAllocated
    ensures ok <==> NeuronArenaAlloc !in failing && OutputAlloc !in failing
    ensures ok ==>
      && copy.errno == old(copy.errno) && copy.totalNeuronsAllocated == orig.totalNeurons
      && copy.layers[..] == orig.layers[..]
      && fresh(copy.neurons) && fresh(copy.output) && NeuronsCopied(orig, copy)
  {
    ghost var counts := LayerCounts(orig.layers[..]);
    PlacedFromTotal(orig.layers[..], orig.totalNeurons);
    AllocateNeurons(copy, counts, failing);
    if copy.neurons == null || copy.output == null {
      return false;
    }
    PlacedAsUnique(copy.layers[..], orig.layers[..], counts);
    PaddedBounds(orig.totalNeurons, orig.maxWItem);
    var lastLayer := orig.layers[orig.layers.Length - 1];
    CopyValues(orig.output, copy.output, lastLayer.Count());
    CopyNeuronRecords(orig.neurons, copy.neurons, orig.layers[0].firstNeuron, lastLayer.lastNeuron);
    ok := true;
  }

  /** The connection loop of fann_copy: weights copied, and each connection
      moved to the same offset from the copy's neuron arena base as from the
      original's. Both bases are neuron 0 in this model, so the connection
      keeps its index. */
  method CopyArcs(srcW: array<Weight>, srcC: array<NeuronRef>, dstW: array<Weight>, dstC: array<NeuronRef>, n: nat)
    requires n <= srcW.Length && n <= srcC.Length && n <= dstW.Length && n <= dstC.Length
    requires srcW != dstW && srcC != dstC
    modifies dstW, dstC
    ensures dstW[..n] == srcW[..n] && dstC[..n] == srcC[..n]
  {
    var i := 0;
    while i < n
      invariant 0 <= i <= n
      invariant dstW[..i] == srcW[..i] && dstC[..i] == srcC[..i]
    {
      dstW[i] := srcW[i];
      dstC[i] := srcC[i];
      assert dstW[..i + 1] == dstW[..i] + [srcW[i]];
      assert dstC[..i + 1] == dstC[..i] + [srcC[i]];
      i := i + 1;
    }
  }

  /** fann_allocate_connections for the copy, then the weights and the rebased
      connections. Fails exactly when one of the two arenas cannot be
      allocated. */
  method CopyConnections(orig: Network, copy: Network, failing: set<AllocSite>) returns (ok: bool)
    requires copy != orig && copy.maxWItem == orig.maxWItem > 0
    requires orig.layers.Length >= 1 && copy.layers.Length >= 1
    requires orig.layers[0].firstNeuron == 0 == copy.layers[0].firstNeuron
    requires orig.connections != null && orig.weights != null
    requires orig.totalConnections <= orig.connections.Length && orig.totalConnections <= orig.weights.Length
    requires copy.weights == null && copy.connections == null
    modifies copy`totalConnections, copy`weights, copy`connections, copy`errno, copy`totalConnectionsAllocated
    ensures ok <==> WeightArenaAlloc !in failing && ConnectionArenaAlloc !in failing
    ensures ok ==>
      && copy.errno == old(copy.errno)
      && copy.totalConnections == orig.totalConnections && copy.totalConnectionsAllocated == orig.totalConnections
      && fresh(copy.connections) && fresh(copy.weights) && ConnectionsCopied(orig, copy)
  {
    copy.totalConnections := orig.totalConnections;
    AllocateConnections(copy, failing);
    if copy.weights == null || copy.connections == null {
      return false;
    }
    PaddedExtra(orig.totalConnections, orig.maxWItem, 10);
    CopyArcs(orig.weights, orig.connections, copy.weights, copy.connections, orig.totalConnections);
    ok := true;
  }

  /** One optional training buffer: nothing when the original has none,
      otherwise calloc and memcpy of n values, unless the site fails. */
  method CopyBuffer(src: array?<Weight>, n: nat, site: AllocSite, failing: set<AllocSite>)
    returns (ok: bool, dst: array?<Weight>)
    requires src != null ==> n <= src.Length
    ensures ok <==> src == null || site !in failing
    ensures ok ==> BufferCopied(src, dst, n) && (dst != null ==> fresh(dst))
  {
    if src == null {
      return true, null;
    }
    if site in failing {
      return false, null;
    }
    dst := Duplicate(src, n);
    ok := true;
  }

  /** calloc(n) followed by a copy of the first n values of src. */
  method Duplicate(src: array<Weight>, n: nat) returns (a: array<Weight>)
    requires n <= src.Length
    ensures fresh(a) && a.Length == n && a[..] == src[..n]
  {
    a := new Weight[n](_ => 0.0);
    forall k | 0 <= k < n {
      a[k] := src[k];
    }
  }

  /** The buffer step succeeds: no buffer the original has fails to copy. */
  predicate BuffersOk(p: seq<bool>, failing: set<AllocSite>)
    requires |p| == 4
  {
    && (p[0] ==> TrainSlopesAlloc !in failing) && (p[1] ==> PrevStepsAlloc !in failing)
    && (p[2] ==> PrevTrainSlopesAlloc !in failing) && (p[3] ==> PrevWeightsDeltasAlloc !in failing)
  }

  /** How the buffer step ends: every buffer failure is reported. */
  lemma BufferFailure(p: seq<bool>, failing: set<AllocSite>)
    requires |p| == 4
    ensures var f := FirstFailure(BufferOrder(p), failing);
            && (f.None? <==> BuffersOk(p, failing))
            && (f.Some? ==> Reports(f.value))
  {
    var order := BufferOrder(p);
    var sites := {TrainSlopesAlloc, PrevStepsAlloc, PrevTrainSlopesAlloc, PrevWeightsDeltasAlloc};
    assert forall k :: 0 <= k < |order| ==> order[k] in sites;
    assert p[0] ==> TrainSlopesAlloc in order;
    assert p[1] ==> PrevStepsAlloc in order;
    assert p[2] ==> PrevTrainSlopesAlloc in order;
    assert p[3] ==> PrevWeightsDeltasAlloc in order;
  }

  /** The four optional training buffers, each copied when the original has
      it; a failed allocation is reported on the original. */
  method CopyBuffers(orig: Network, copy: Network, failing: set<AllocSite>) returns (ok: bool)
    requires copy != orig
    requires orig.BufferOk(orig.trainSlopes) && orig.BufferOk(orig.prevSteps)
    requires orig.BufferOk(orig.prevTrainSlopes) && orig.BufferOk(orig.prevWeightsDeltas)
    modifies orig`errno, copy`trainSlopes, copy`prevSteps, copy`prevTrainSlopes, copy`prevWeightsDeltas
    ensures ok <==> BuffersOk(Buffers(orig), failing)
    ensures orig.errno == if ok then old(orig.errno) else CantAllocateMem
    ensures ok ==>
      && BuffersCopied(orig, copy)
      && (copy.trainSlopes != null ==> fresh(copy.trainSlopes)) && (copy.prevSteps != null ==> fresh(copy.prevSteps))
      && (copy.prevTrainSlopes != null ==> fresh(copy.prevTrainSlopes))
      && (copy.prevWeightsDeltas != null ==> fresh(copy.prevWeightsDeltas))
  {
    var n := orig.totalConnections;
    ok, copy.trainSlopes := CopyBuffer(orig.trainSlopes, n, TrainSlopesAlloc, failing);
    if !ok {
      orig.errno := CantAllocateMem;
      return;
    }
    ok, copy.prevSteps := CopyBuffer(orig.prevSteps, n, PrevStepsAlloc, failing);
    if !ok {
      orig.errno := CantAllocateMem;
      return;
    }
    ok, copy.prevTrainSlopes := CopyBuffer(orig.prevTrainSlopes, n, PrevTrainSlopesAlloc, failing);
    if !ok {
      orig.errno := CantAllocateMem;
      return;
    }
    ok, copy.prevWeightsDeltas := CopyBuffer(orig.prevWeightsDeltas, n, PrevWeightsDeltasAlloc, failing);
    if !ok {
      orig.errno := CantAllocateMem;
      return;
    }
  }

  // ---------------------------------------------------------------------
  // fann_copy.
  // ---------------------------------------------------------------------

  /** A copy made of the original's sizes, neurons and connections is a
      built network. */
  lemma CopyIsValid(orig: Network, copy: Network)
    requires orig.Valid() && SizesCopied(orig, copy) && NeuronsCopied(orig, copy) && ConnectionsCopied(orig, copy) && BuffersCopied(orig, copy)
    ensures copy.Valid()
  {
    assert copy.neurons[..copy.totalNeurons] == orig.neurons[..orig.totalNeurons];
    forall k | 0 <= k < copy.totalConnections
      ensures copy.connections[k].Ref? && copy.connections[k].index < copy.totalNeurons
    {
      assert copy.connections[k] == copy.connections[..orig.totalConnections][k];
    }
    assert copy.LastLayerCount() == orig.LastLayerCount();
  }

  /** fann_copy (corrected): a deep copy of a built network, or NULL when an
      allocation fails. The copy fails exactly when one of the sites it
      reaches fails; the original's errno then records the failure unless it
      was the error string or an arena. A successful copy is a built network
      holding the original's state in storage of its own. */
  method Clone(orig: Network, numCandidates: nat, failing: set<AllocSite>) returns (copy: Network?)
    requires orig.Valid()
    requires orig.cascadeCandidateScores.Some? ==> numCandidates <= |orig.cascadeCandidateScores.value|
    modifies orig`errno
    ensures copy == null <==> !CopySucceeds(orig.errstr.Some?, orig.cascadeCandidateScores.Some?, Buffers(orig), failing)
    ensures orig.errno == if CopyReports(orig.errstr.Some?, orig.cascadeCandidateScores.Some?, Buffers(orig), failing)
                          then CantAllocateMem else old(orig.errno)
    ensures copy != null ==>
      && fresh(copy) && fresh(copy.layers) && fresh(copy.neurons) && fresh(copy.output)
      && fresh(copy.connections) && fresh(copy.weights)
      && copy.Valid() && copy.errno == orig.errno && HeaderCopied(orig, copy, numCandidates) && SizesCopied(orig, copy) && NeuronsCopied(orig, copy) && ConnectionsCopied(orig, copy) && BuffersCopied(orig, copy)
  {
    copy := AllocateStructure(orig.layers.Length, orig.maxWItem, failing);
    if copy == null {
      orig.errno := CantAllocateMem;
      return;
    }
    var ok := CopyInto(orig, copy, numCandidates, failing);
    if !ok {
      return null;
    }
    CopyIsValid(orig, copy);
  }

  /** Everything fann_copy does once the copy's structure exists. */
  method CopyInto(orig: Network, copy: Network, numCandidates: nat, failing: set<AllocSite>) returns (ok: bool)
    requires NeuronSource(orig) && orig.layers[0].firstNeuron == 0
    requires orig.cascadeCandidateScores.Some? ==> numCandidates <= |orig.cascadeCandidateScores.value|
    requires StorageSource(orig)
    requires copy != orig && copy.maxWItem == orig.maxWItem
    requires copy.layers != orig.layers && copy.layers.Length == orig.layers.Length
    requires copy.totalNeurons == 0 && copy.neurons == null && copy.output == null
    requires copy.weights == null && copy.connections == null
    requires copy.errstr == None && copy.cascadeCandidateScores == None
    modifies orig`errno, copy, copy.layers
    ensures ok <==> HeaderOk(orig.errstr.Some?, orig.cascadeCandidateScores.Some?, failing)
                    && ArenasOk(failing) && BuffersOk(Buffers(orig), failing)
    ensures orig.errno == if ok || (orig.errstr.Some? && ErrStrAlloc in failing)
                             || (HeaderOk(orig.errstr.Some?, orig.cascadeCandidateScores.Some?, failing) && !ArenasOk(failing))
                          then old(orig.errno) else CantAllocateMem
    ensures copy.layers == old(copy.layers)
    ensures ok ==>
      && fresh(copy.neurons) && fresh(copy.output) && fresh(copy.connections) && fresh(copy.weights)
      && copy.errno == orig.errno && HeaderCopied(orig, copy, numCandidates) && SizesCopied(orig, copy) && NeuronsCopied(orig, copy) && ConnectionsCopied(orig, copy) && BuffersCopied(orig, copy)
  {
    ok := CopyHeader(orig, copy, numCandidates, failing);
    if !ok {
      return;
    }
    ok := CopyArenas(orig, copy, failing);
  }

  /** The layer sizes, the neurons, the connections and the buffers. */
  method CopyArenas(orig: Network, copy: Network, failing: set<AllocSite>) returns (ok: bool)
    requires NeuronSource(orig) && orig.layers[0].firstNeuron == 0 && StorageSource(orig)
    requires copy != orig && copy.maxWItem == orig.maxWItem
    requires copy.layers != orig.layers && copy.layers.Length == orig.layers.Length
    requires copy.totalNeurons == 0 && copy.neurons == null && copy.output == null
    requires copy.weights == null && copy.connections == null
    modifies orig`errno, copy.layers, copy`totalNeurons, copy`numInput, copy`numOutput
    modifies copy`neurons, copy`output, copy`totalNeuronsAllocated, copy`errno
    modifies copy`totalConnections, copy`weights, copy`connections, copy`totalConnectionsAllocated
    modifies copy`trainSlopes, copy`prevSteps, copy`prevTrainSlopes, copy`prevWeightsDeltas
    ensures ok <==> ArenasOk(failing) && BuffersOk(Buffers(orig), failing)
    ensures orig.errno == if ok || !ArenasOk(failing) then old(orig.errno) else CantAllocateMem
    ensures ok ==>
      && fresh(copy.neurons) && fresh(copy.output) && fresh(copy.connections) && fresh(copy.weights)
      && copy.errno == old(copy.errno) && SizesCopied(orig, copy) && NeuronsCopied(orig, copy) && ConnectionsCopied(orig, copy) && BuffersCopied(orig, copy)
    ensures unchanged(copy`errstr, copy`params, copy`connectionRate, copy`networkType, copy`cascadeActivationFunctions)
    ensures unchanged(copy`cascadeActivationSteepnesses, copy`cascadeCandidateScores)
    ensures unchanged(orig`errstr, orig`params, orig`connectionRate, orig`networkType, orig`cascadeActivationFunctions)
    ensures unchanged(orig`cascadeActivationSteepnesses, orig`cascadeCandidateScores)
  {
    ok := CopyLayout(orig, copy, failing);
    if !ok {
      return;
    }
    ok := CopyStorage(orig, copy, failing);
  }

  /** The layer sizes and the neurons. */
  method CopyLayout(orig: Network, copy: Network, failing: set<AllocSite>) returns (ok: bool)
    requires NeuronSource(orig) && copy != orig && copy.maxWItem == orig.maxWItem
    requires copy.layers != orig.layers && copy.layers.Length == orig.layers.Length
    requires copy.totalNeurons == 0 && copy.neurons == null && copy.output == null
    modifies copy.layers, copy`totalNeurons, copy`numInput, copy`numOutput
    modifies copy`neurons, copy`output, copy`totalNeuronsAllocated, copy`errno
    ensures ok <==> NeuronArenaAlloc !in failing && OutputAlloc !in failing
    ensures ok ==>
      && copy.errno == old(copy.errno) && copy.layers[..] == orig.layers[..]
      && copy.totalNeurons == orig.totalNeurons && copy.totalNeuronsAllocated == orig.totalNeurons
      && copy.numInput == orig.numInput && copy.numOutput == orig.numOutput
      && fresh(copy.neurons) && fresh(copy.output) && NeuronsCopied(orig, copy)
  {
    CopyLayerSizes(orig, copy);
    PlacedFromTotal(orig.layers[..], orig.totalNeurons);
    ok := CopyNeurons(orig, copy, failing);
  }

  /** The facts about the original the connection and buffer steps rely on. */
  ghost predicate StorageSource(orig: Network)
    reads orig`connections, orig`weights, orig`totalConnections
    reads orig`trainSlopes, orig`prevSteps, orig`prevTrainSlopes, orig`prevWeightsDeltas
  {
    && orig.maxWItem > 0 && orig.connections != null && orig.weights != null
    && orig.totalConnections <= orig.connections.Length && orig.totalConnections <= orig.weights.Length
    && orig.BufferOk(orig.trainSlopes) && orig.BufferOk(orig.prevSteps)
    && orig.BufferOk(orig.prevTrainSlopes) && orig.BufferOk(orig.prevWeightsDeltas)
  }

  /** The connections and the training buffers. */
  method CopyStorage(orig: Network, copy: Network, failing: set<AllocSite>) returns (ok: bool)
    requires StorageSource(orig) && copy != orig && copy.maxWItem == orig.maxWItem
    requires orig.layers.Length >= 1 && copy.layers.Length >= 1
    requires orig.layers[0].firstNeuron == 0 == copy.layers[0].firstNeuron
    requires copy.weights == null && copy.connections == null
    modifies orig`errno, copy`totalConnections, copy`weights, copy`connections, copy`errno, copy`totalConnectionsAllocated
    modifies copy`trainSlopes, copy`prevSteps, copy`prevTrainSlopes, copy`prevWeightsDeltas
    ensures ok <==> WeightArenaAlloc !in failing && ConnectionArenaAlloc !in failing && BuffersOk(Buffers(orig), failing)
    ensures orig.errno == if ok || WeightArenaAlloc in failing || ConnectionArenaAlloc in failing
                          then old(orig.errno) else CantAllocateMem
    ensures ok ==>
      && copy.errno == old(copy.errno)
      && copy.totalConnections == orig.totalConnections && copy.totalConnectionsAllocated == orig.totalConnections
      && fresh(copy.connections) && fresh(copy.weights) && ConnectionsCopied(orig, copy) && BuffersCopied(orig, copy)
  {
    ok := CopyConnections(orig, copy, failing);
    if !ok {
      return;
    }
    ok := CopyBuffers(orig, copy, failing);
  }

  /** The sites of fann_allocate_structure, in order. */
  const StructureOrder: seq<AllocSite> := [StructAlloc, CascadeFunctionsAlloc, CascadeSteepnessesAlloc, LayerArrayAlloc]

  lemma StructureFailure(failing: set<AllocSite>)
    ensures var f := FirstFailure(StructureOrder, failing);
            && (f.None? <==> failing * StructureSites == {})
            && (f.Some? ==> Reports(f.value))
  {
    var f := FirstFailure(StructureOrder, failing);
    assert forall k :: 0 <= k < |StructureOrder| ==> StructureOrder[k] in StructureSites && Reports(StructureOrder[k]);
    if failing * StructureSites != {} {
      var s :| s in failing * StructureSites;
      assert s == StructureOrder[0] || s == StructureOrder[1] || s == StructureOrder[2] || s == StructureOrder[3];
    } else {
      forall k | 0 <= k < |StructureOrder|
        ensures StructureOrder[k] !in failing
      {
        assert StructureOrder[k] !in failing * StructureSites;
      }
    }
  }

  const ArenaOrder: seq<AllocSite> := [NeuronArenaAlloc, OutputAlloc, WeightArenaAlloc, ConnectionArenaAlloc]

  /** The arena steps succeed: neither fann_allocate_neurons nor
      fann_allocate_connections meets a failing site. */
  predicate ArenasOk(failing: set<AllocSite>)
  {
    NeuronArenaAlloc !in failing && OutputAlloc !in failing && WeightArenaAlloc !in failing && ConnectionArenaAlloc !in failing
  }

  lemma ArenaFailure(failing: set<AllocSite>)
    ensures var f := FirstFailure(ArenaOrder, failing);
            && (f.None? <==> ArenasOk(failing))
            && (f.Some? ==> !Reports(f.value))
  {
    assert forall k :: 0 <= k < |ArenaOrder| ==> !Reports(ArenaOrder[k]);
    assert ArenaOrder[0] == NeuronArenaAlloc && ArenaOrder[1] == OutputAlloc;
    assert ArenaOrder[2] == WeightArenaAlloc && ArenaOrder[3] == ConnectionArenaAlloc;
  }

  /** fann_copy gets to the end: no site it reaches fails. */
  predicate CopySucceeds(hasErrStr: bool, hasScores: bool, p: seq<bool>, failing: set<AllocSite>)
    requires |p| == 4
  {
    failing * StructureSites == {} && HeaderOk(hasErrStr, hasScores, failing) && ArenasOk(failing) && BuffersOk(p, failing)
  }

  /** fann_copy gives up with fann_error on the original: a structure,
      cascade table, candidate score or buffer allocation fails, but not the
      error string or an arena. */
  predicate CopyReports(hasErrStr: bool, hasScores: bool, p: seq<bool>, failing: set<AllocSite>)
    requires |p| == 4
  {
    if failing * StructureSites != {} then true
    else if !HeaderOk(hasErrStr, hasScores, failing) then !(hasErrStr && ErrStrAlloc in failing)
    else if !ArenasOk(failing) then false
    else !BuffersOk(p, failing)
  }

  /** How fann_copy ends, step by step, is decided by the first site of
      CopyOrder that fails: the copy succeeds exactly when there is none,
      and the original's errno is set exactly when that site is reported. */
  lemma {:induction false} CopyOutcome(hasErrStr: bool, hasScores: bool, p: seq<bool>, failing: set<AllocSite>)
    requires |p| == 4
    ensures var f := FirstFailure(CopyOrder(hasErrStr, hasScores, p), failing);
            && (f.None? <==> CopySucceeds(hasErrStr, hasScores, p, failing))
            && (f.Some? && Reports(f.value) <==> CopyReports(hasErrStr, hasScores, p, failing))
  {
    var header := HeaderOrder(hasErrStr, hasScores);
    var buffers := BufferOrder(p);
    assert CopyOrder(hasErrStr, hasScores, p) == StructureOrder + header + ArenaOrder + buffers;
    FirstFailureAppend(StructureOrder + header + ArenaOrder, buffers, failing);
    FirstFailureAppend(StructureOrder + header, ArenaOrder, failing);
    FirstFailureAppend(StructureOrder, header, failing);
    StructureFailure(failing);
    HeaderFailure(hasErrStr, hasScores, failing);
    ArenaFailure(failing);
    BufferFailure(p, failing);
  }

  lemma ListingPrefix(cs: seq<NeuronRef>, ws: seq<Weight>, cs': seq<NeuronRef>, ws': seq<Weight>, t: seq<nat>)
    requires |t| <= |cs| && |t| <= |ws| && |t| <= |cs'| && |t| <= |ws'|
    requires cs[..|t|] == cs'[..|t|] && ws[..|t|] == ws'[..|t|]
    ensures Listing(cs, ws, t) == Listing(cs', ws', t)
  {
    forall k | 0 <= k < |t|
      ensures cs[k] == cs'[k] && ws[k] == ws'[k]
    {
      assert cs[k] == cs[..|t|][k] && cs'[k] == cs'[..|t|][k];
      assert ws[k] == ws[..|t|][k] && ws'[k] == ws'[..|t|][k];
    }
  }

  /** A copy lists the same connections as its original:
      fann_get_connection_array cannot tell them apart. */
  lemma CloneSameConnections(orig: Network, copy: Network)
    requires orig.Valid() && copy.Valid() && SizesCopied(orig, copy) && NeuronsCopied(orig, copy) && ConnectionsCopied(orig, copy) && BuffersCopied(orig, copy)
    ensures NetworkConnections(copy) == NetworkConnections(orig)
  {
    var ns := orig.neurons[..orig.totalNeurons];
    assert copy.neurons[..copy.totalNeurons] == ns;
    ValidWalkLength(orig);
    ListingPrefix(copy.connections[..], copy.weights[..], orig.connections[..], orig.weights[..], Targets(ns, |ns|));
  }
}
