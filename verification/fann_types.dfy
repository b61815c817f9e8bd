/**
 * The records of the FANN network structure: neurons, layers, connection
 * slots, the scalar training parameters and the allocation sites whose
 * failure the builders and the clone must survive.
 *
 * Pointers into the neuron arena are modelled as indices (the arena base is
 * index 0), so a pointer difference `p - first_neuron` is the index itself.
 */
module FannTypes {

  datatype Option<T> = None | Some(value: T)

  /** Connection weights. Their values are carried around and never inspected. */
  type Weight = real

  /** A connection slot's source neuron: an index into the neuron arena, or a
      slot that calloc left NULL and that the wiring has not filled yet. */
  datatype NeuronRef = Null | Ref(index: nat)

  /** The activation functions named by the core; `Linear` is the enumeration's
      zero value, which is what calloc leaves in a neuron. */
  datatype Activation =
    | Linear
    | Sigmoid
    | SigmoidStepwise
    | SigmoidSymmetric
    | Gaussian
    | GaussianSymmetric
    | Elliot
    | ElliotSymmetric
    | SinSymmetric
    | CosSymmetric
    | Sin
    | Cos

  /** One neuron record: the half-open range [firstCon, lastCon) of connection
      slots that feed it, and its run-time values. */
  datatype Neuron = Neuron(
    firstCon: nat,
    lastCon: nat,
    sum: Weight,
    value: Weight,
    activation: Activation,
    steepness: Weight)

  /** A neuron as calloc leaves it. */
  const ZeroNeuron := Neuron(0, 0, 0.0, 0.0, Linear, 0.0)

  /** A neuron the builders give inputs: range, stepwise sigmoid, steepness 0.5. */
  function WiredNeuron(first: nat, last: nat): Neuron
  {
    ZeroNeuron.(firstCon := first, lastCon := last, activation := SigmoidStepwise, steepness := 0.5)
  }

  /** The trailing bias neuron of a layer: an empty range at `at`, otherwise untouched. */
  function BiasNeuron(at: nat): Neuron
  {
    ZeroNeuron.(firstCon := at, lastCon := at)
  }

  /** A layer: the half-open range [firstNeuron, lastNeuron) of the neuron arena.
      Before the arena exists, firstNeuron is 0 and lastNeuron is the layer's size. */
  datatype Layer = Layer(firstNeuron: nat, lastNeuron: nat)
  {
    /** last_neuron - first_neuron: the number of neurons in the layer. */
    function Count(): nat { if firstNeuron <= lastNeuron then lastNeuron - firstNeuron else 0 }
  }

  datatype NetType = LayeredNet | ShortcutNet

  datatype ErrNo = NoError | CantAllocateMem

  /** One entry of the connection list: source neuron, destination neuron, weight. */
  datatype Connection = Connection(fromNeuron: nat, toNeuron: nat, weight: Weight)

  datatype TrainingAlgorithm = Incremental | Batch | Rprop | Quickprop | Sarprop
  datatype ErrorFunction = ErrorLinear | ErrorTanh
  datatype StopFunction = StopMse | StopBit

  /** The scalar training and cascade parameters of a network. */
  datatype Params = Params(
    learningRate: real,
    learningMomentum: real,
    trainingAlgorithm: TrainingAlgorithm,
    numMSE: nat,
    mseValue: real,
    numBitFail: nat,
    bitFailLimit: real,
    trainErrorFunction: ErrorFunction,
    trainStopFunction: StopFunction,
    cascadeOutputChangeFraction: real,
    cascadeOutputStagnationEpochs: nat,
    cascadeCandidateChangeFraction: real,
    cascadeCandidateStagnationEpochs: nat,
    cascadeBestCandidate: nat,
    cascadeCandidateLimit: real,
    cascadeWeightMultiplier: real,
    cascadeMaxOutEpochs: nat,
    cascadeMaxCandEpochs: nat,
    cascadeMinOutEpochs: nat,
    cascadeMinCandEpochs: nat,
    cascadeNumCandidateGroups: nat,
    quickpropDecay: real,
    quickpropMu: real,
    rpropIncreaseFactor: real,
    rpropDecreaseFactor: real,
    rpropDeltaMin: real,
    rpropDeltaMax: real,
    rpropDeltaZero: real,
    sarpropWeightDecayShift: real,
    sarpropStepErrorThresholdFactor: real,
    sarpropStepErrorShift: real,
    sarpropTemperature: real,
    sarpropEpoch: nat)

  /** The defaults a freshly allocated network starts with. */
  const DefaultParams := Params(
    learningRate := 0.7,
    learningMomentum := 0.0,
    trainingAlgorithm := Rprop,
    numMSE := 0,
    mseValue := 0.0,
    numBitFail := 0,
    bitFailLimit := 0.35,
    trainErrorFunction := ErrorTanh,
    trainStopFunction := StopMse,
    cascadeOutputChangeFraction := 0.01,
    cascadeOutputStagnationEpochs := 12,
    cascadeCandidateChangeFraction := 0.01,
    cascadeCandidateStagnationEpochs := 12,
    cascadeBestCandidate := 0,
    cascadeCandidateLimit := 1000.0,
    cascadeWeightMultiplier := 0.4,
    cascadeMaxOutEpochs := 150,
    cascadeMaxCandEpochs := 150,
    cascadeMinOutEpochs := 50,
    cascadeMinCandEpochs := 50,
    cascadeNumCandidateGroups := 2,
    quickpropDecay := -0.0001,
    quickpropMu := 1.75,
    rpropIncreaseFactor := 1.2,
    rpropDecreaseFactor := 0.5,
    rpropDeltaMin := 0.0,
    rpropDeltaMax := 50.0,
    rpropDeltaZero := 0.1,
    sarpropWeightDecayShift := -6.644,
    sarpropStepErrorThresholdFactor := 0.1,
    sarpropStepErrorShift := 1.385,
    sarpropTemperature := 0.015,
    sarpropEpoch := 0)

  const DefaultCascadeActivationFunctions: seq<Activation> :=
    [Sigmoid, SigmoidSymmetric, Gaussian, GaussianSymmetric, Elliot,
     ElliotSymmetric, SinSymmetric, CosSymmetric, Sin, Cos]

  const DefaultCascadeActivationSteepnesses: seq<Weight> := [0.25, 0.5, 0.75, 1.0]

  /** Every heap allocation the core performs, by call site. */
  datatype AllocSite =
    | StructAlloc               // the struct fann itself
    | CascadeFunctionsAlloc     // default cascade activation functions
    | CascadeSteepnessesAlloc   // default cascade steepnesses
    | LayerArrayAlloc           // the layer array
    | ErrStrAlloc               // the clone's error string
    | CascadeFunctionsRealloc   // the clone's cascade activation functions
    | CascadeSteepnessesRealloc // the clone's cascade steepnesses
    | CandidateScoresAlloc      // the clone's cascade candidate scores
    | NeuronArenaAlloc          // the neuron arena
    | OutputAlloc               // the output vector
    | WeightArenaAlloc          // the weight arena
    | ConnectionArenaAlloc      // the connection arena
    | TrainSlopesAlloc
    | PrevStepsAlloc
    | PrevTrainSlopesAlloc
    | PrevWeightsDeltasAlloc

  /** The allocations fann_allocate_structure performs. */
  const StructureSites: set<AllocSite> :=
    {StructAlloc, CascadeFunctionsAlloc, CascadeSteepnessesAlloc, LayerArrayAlloc}

  /** The allocations a builder performs: the structure, then the neuron
      arena and output vector, then the weight and connection arenas. */
  const BuildSites: set<AllocSite> :=
    StructureSites + {NeuronArenaAlloc, OutputAlloc, WeightArenaAlloc, ConnectionArenaAlloc}
}
