# FANN network structure, modelled in Dafny

This project models the structural core of the FANN (Fast Artificial Neural
Network) library, as extended with an OpenCL accelerator path in
`fanncl1/fann.c`. It covers the following:

- how a network's memory is laid out:
  - `fann_allocate_structure`;
  - `fann_allocate_neurons`;
  - `fann_allocate_connections`;
- how the three builders size, split and wire it:
  - `fann_create_standard_array`;
  - `fann_create_sparse_array`;
  - `fann_create_shortcut_array`;
- how `fann_copy` clones it;
- how the introspection API reads and writes it:
  - `fann_get_total_neurons`, `fann_get_num_layers`;
  - `fann_get_layer_array`, `fann_get_bias_array`;
  - `fann_get_connection_array`;
  - `fann_set_weight`, `fann_set_weight_array`;
- the host-side metadata the OpenCL path derives from it:
  - the layer loops and `tc_in_layers` count of `fptsclalloc`;
  - the `ncl`/`snpl` tables of `fptscwrite`;
  - `setclsizes`.

The network is a class `Fann.Network`:

- **Layers and arenas.** Its layer array and its neuron, connection, weight
  and output arenas are Dafny arrays that the builders fill in place.
- **Pointers become indices.** A neuron pointer is an index into the neuron
  arena, whose base is neuron 0. An empty connection slot (a `NULL`
  `struct fann_neuron *`) is `NeuronRef.Null`.
- **Weights are opaque.** Weights are `real` values that the model never
  inspects.
- **Allocation failure.** Every `calloc` site has a name (`AllocSite`), and
  the set `failing` of sites whose allocation fails is a parameter. So every
  contract says exactly when an operation returns `NULL` and which error it
  records.
- **Randomness.** The random choices of the sparse builder are
  nondeterministic choices (`:|`) among the candidates the source's
  rejection loops accept. A lemma proves that such a candidate exists.
- **`MAXWITEM`.** The accelerator's work-item granularity `MAXWITEM` is the
  constant `maxWItem` of each network.

The main results:

- **Builders.** Each builder returns `NULL` exactly when fewer than two
  layers are asked for or an allocation fails. Otherwise it returns a
  `Valid` network:
  - its layers lie back to back from neuron 0;
  - its connection ranges are contiguous from slot 0;
  - every slot reads a neuron of the network;
  - the layer sizes read back through `fann_get_layer_array` are the ones it
    was built from.
- **Full wiring.** In a fully connected layer, slot `j` of every neuron reads
  neuron `j` of the previous layer.
- **Shortcut wiring.** In a shortcut layer, slot `j` reads neuron `j` of the
  whole network.
- **Sparse wiring.** In a sparse layer:
  - every neuron's first slot reads the previous layer's bias;
  - no neuron reads the same input twice;
  - every input neuron feeds some receiving neuron.
- **Copying.** `fann_copy` yields a valid network that lists the same
  connections as its original, or `NULL` exactly when one of the sites it
  reaches fails.
- **Reading connections.** `fann_get_connection_array` lists every slot with
  the neuron that owns it.
- **Setting weights.** `fann_set_weight` writes exactly the slots that list
  the given pair. Setting back a list that was read restores the weights
  when no two connections join the same pair of neurons, and no builder
  ever joins a pair twice (`Links.BuiltRestoreWeights`).

The project is split into these modules:

- `FannTypes` (`fann_types.dfy`): layers, neurons, parameters, error codes, allocation sites.
- `Sizing` (`sizing.dfy`): neuron counts per layer, the builder's rounding and share arithmetic, `MAXWITEM` padding.
- `Fann` (`network.dfy`): the `Network` class, allocation, layer placement, layer and bias getters.
- `Layout` (`layout.dfy`): reference definitions of the neuron arena each builder produces.
- `Builders` (`builders.dfy`): the split loops of the layered and shortcut builders.
- `Wiring`, `SparseWiring` (`wiring.dfy`, `sparse.dfy`): the connection wiring loops.
- `Create` (`create.dfy`): the three builders end to end.
- `Clone` (`clone.dfy`): `fann_copy`.
- `Introspect` (`introspect.dfy`): the connection walk, `fann_get_connection_array` and `fann_set_weight(_array)`.
- `Links` (`links.dfy`): no builder joins a pair of neurons twice, so the weight round trip holds for every network they return.
- `Accel` (`accel.dfy`): the accelerator metadata.

The model follows the code where it differs from a natural reading of the
library's design. In particular, a layered network's output layer also gets
a bias neuron in the arena. `fann_get_bias_array` reports no bias for the
last layer (fann.c:1304-1333), yet the code allocates one, never connects
it, and `fann_get_total_neurons` subtracts it again
(`Sizing.TotalNeuronsMatchesLayerArray`, `Fann.GetTotalNeurons`).

## Model

| member | source | states |
|---|---|---|
| Fann.Network.constructor | fanncl1/fann.c:1490-1624 | a new network has all counters zero, no arenas, no error, the default parameters and `numLayers` empty layers |
| Fann.AllocateStructure | fanncl1/fann.c:1478-1627 | the result is NULL exactly when fewer than two layers are asked for or one of the four structure allocations fails; otherwise it is a fresh network in its initial state with `numLayers` layers |
| Fann.SizeLayers | fanncl1/fann.c:143-152 | every layer records the neuron count of the corresponding size (plus a bias where the network type puts one), and `total_neurons` is their sum |
| Fann.ConnectionArenaSize | fanncl1/fann.c:2269 | the connection arenas hold `n` padded to a multiple of `MAXWITEM` plus ten further blocks: at least `n + 10W`, less than `n + 11W`, a multiple of `W` |
| Fann.AllocateNeurons | fanncl1/fann.c:2230-2262 | `total_neurons_allocated` is recorded even when allocation fails; on success the arena is zeroed, padded to `MAXWITEM`, and the layers lie back to back in it; the output vector has one entry per neuron of the last layer; a failure sets `CantAllocateMem`: a neuron-arena failure leaves the arrays and layers as they were; an output failure still installs the arena and places the layers and leaves only `output` as it was |
| Fann.PlaceLayers | fanncl1/fann.c:2248-2254 | after the placing loop each layer starts where the previous one ends, keeps its count, and the returned count is the last layer's |
| Fann.PlacingStep | fanncl1/fann.c:2248-2254 | one round of the placing loop keeps the first L layers placed and places layer L |
| Fann.PlacedLayerAt | fanncl1/fann.c:2248-2254 | a placed layer starts after the neurons of all earlier layers and holds its own count |
| Fann.PlacedAsFrom | fanncl1/fann.c:2248-2254 | layers placed from counts lie back to back from neuron 0 over the sum of the counts, and their counts are read back unchanged |
| Fann.PlacedFromAs | fanncl1/fann.c:2248-2254 | conversely, back-to-back layers start at the running sum of their own counts |
| Fann.PlacedFromTotal | fanncl1/fann.c:2248-2254 | back-to-back layers cover exactly the sum of their counts |
| Fann.AllocateConnections | fanncl1/fann.c:2267-2287 | on success both arenas are zeroed (weights 0, slots empty) with `ConnectionArenaSize` entries and `total_connections_allocated` equals `total_connections`; a weight failure leaves the allocated count unchanged; either failure sets `CantAllocateMem` |
| Fann.GetLayerArray | fanncl1/fann.c:1277-1302 | the reported sizes are the layer counts without the bias neuron (layered: every layer; shortcut: the first layer only) |
| Fann.GetBiasArray | fanncl1/fann.c:1304-1333 | the reported bias counts are 1 for every layer but the last of a layered network, and 1 for the first layer only of a shortcut network |
| Fann.GetTotalNeurons | fanncl1/fann.c:1245-1256 | when the arena holds exactly the layers, each with its bias, the count is the sum of the reported layer sizes and the reported biases, so the layered output bias is not counted |
| Fann.GetNumLayers | fanncl1/fann.c:1272-1275 | the layer count is the length of the arrays `fann_get_layer_array` and `fann_get_bias_array` fill |
| Sizing.BiasesPresentSizes | fanncl1/fann.c:1277-1302 | counts that hold their biases are recovered from the sizes read back from them |
| Sizing.LayerArrayRoundTrip | fanncl1/fann.c:1277-1302 | building from `sizes` and reading the layer array back gives `sizes` for both network types |
| Sizing.TotalNeuronsMatchesLayerArray | fanncl1/fann.c:1245-1256 | `fann_get_total_neurons` equals the sum of the reported layer sizes plus the reported biases (the layered output bias is not counted) |
| Sizing.LayeredStart | fanncl1/fann.c:145-152 | in a layered network layer L starts after the sizes of the earlier layers plus one bias each |
| Sizing.ShortcutStart | fanncl1/fann.c:438-451 | in a shortcut network layer L starts after the sizes of the earlier layers plus the single bias of layer 0 |
| Sizing.LayeredBiasStart | fanncl1/fann.c:1304-1333 | the bias counts of a layered network add up to L before layer L |
| Sizing.ShortcutBiasStart | fanncl1/fann.c:1304-1333 | the bias counts of a shortcut network add up to 1 after layer 0 |
| Sizing.StartMonotone | fanncl1/fann.c:2248-2254 | a layer ends no later than any later layer starts |
| Sizing.StartPrefix | fanncl1/fann.c:2248-2254 | where a layer starts depends only on the counts of the layers before it |
| Sizing.RoundBelowBound | fanncl1/fann.c:183 | rounding half up never exceeds an integer upper bound of its argument |
| Sizing.TargetBounds | fanncl1/fann.c:180-184 | whatever the rate, a layer's connection count is at least one per feeding and per receiving neuron and at most a full connection (`(numIn + 1) * numOut`) |
| Sizing.TargetNonPositive | fanncl1/fann.c:180-184 | a rate of zero or below yields the minimum count `max(in, out) + out`, the same layer as rate 0, because the cast truncates toward zero |
| Sizing.TargetFull | fanncl1/fann.c:226-260 | at rate 1 the connection count is exactly a full connection, which is what the fully connected wiring uses |
| Sizing.BoundaryEnds | fanncl1/fann.c:186-207 | the share boundaries start at 0 and end at the layer's connection count |
| Sizing.BoundaryStep | fanncl1/fann.c:186-207 | consecutive boundaries differ by `n / numOut` or one more |
| Sizing.AllocationStep | fanncl1/fann.c:195-206 | the builder's running allocation (add `n / numOut`, then one more if behind `n * (i + 1) / numOut`) lands exactly on the next boundary |
| Sizing.BoundaryMonotone | fanncl1/fann.c:186-207 | the boundaries never decrease |
| Sizing.BoundaryStepBounds | fanncl1/fann.c:186-207 | with at least one slot per neuron and at most a full connection, every receiving neuron gets between 1 and `numIn + 1` slots |
| Sizing.BoundaryUniform | fanncl1/fann.c:233-250 | with `w` slots per neuron, neuron i's share starts at `w * i` |
| Sizing.PaddedBounds | fanncl1/fann.c:2238 | the padded neuron arena size is the least multiple of `MAXWITEM` holding `n` entries: `n <= size < n + W` |
| Sizing.PaddedExtra | fanncl1/fann.c:2269 | the padded size plus `k` further blocks is a multiple of `W` between `n + kW` and `n + (k+1)W` |
| Sizing.PaddedLeast | fanncl1/fann.c:2238 | no multiple of `W` that holds `n` is smaller than the padded size |
| Sizing.FloorOfRatio | fanncl1/fann.c:2238 | `floor(n / (float)W)` is the integer quotient (in exact arithmetic) |
| Sizing.CeilMatchesFloat | fanncl1/fann.c:2238 | `ceil(n / (float)W)` equals the integer ceiling division (in exact arithmetic) |
| Layout.ChainedPrefixSum | fanncl1/fann.c:186-213 | in a chained layout a neuron's last slot is the number of slots owned by it and all earlier neurons |
| Layout.ChainedConsBefore | fanncl1/fann.c:1352-1364 | in a chained layout each neuron's first slot equals the slots owned before it: this is why a running counter finds it |
| Layout.ConsBeforeAppend | fanncl1/fann.c:1352-1364 | slot counts before a neuron add up across consecutive parts of the arena |
| Layout.ConsBeforePrefix | fanncl1/fann.c:1352-1364 | slot counts before a neuron depend only on the neurons before it |
| Layout.ChainedAppend | fanncl1/fann.c:172-217 | two chained runs, the second starting where the first ends, form one chained run |
| Layout.LayeredPrefixUnfold | fanncl1/fann.c:172-217 | the layered layout is built layer by layer |
| Layout.LayeredBlockLength | fanncl1/fann.c:145-152 | each layer's block in the layered layout has the layer's neuron count |
| Layout.LayeredPrefixLength | fanncl1/fann.c:145-152 | the first L blocks cover exactly the neurons before layer L |
| Layout.LayerRunChained | fanncl1/fann.c:186-213 | the shares handed out for one layer are chained from its base and end at base plus its connection count |
| Layout.LayeredBlockChained | fanncl1/fann.c:172-217 | every layer of the layered layout is chained from its connection base to the next layer's |
| Layout.LayeredPrefixChained | fanncl1/fann.c:172-217 | the first L layers are chained from slot 0 and end at layer L's connection base |
| Layout.LayeredLayoutContiguous | fanncl1/fann.c:172-217 | the layered arena has `total_neurons` neurons whose connection ranges are contiguous from slot 0 and total exactly the builder's connection count |
| Layout.LayerRunShares | fanncl1/fann.c:186-213 | in one layer every receiving neuron owns `n / numOut` or one more slots (between 1 and `numIn + 1` when the count is in range), and the bias neuron owns none |
| Layout.LayeredBlockRun | fanncl1/fann.c:173-213 | layer L of the layered layout is the run of its shares, with the layer's own sizes, start and connection count |
| Layout.LayeredBlockShares | fanncl1/fann.c:186-213 | the same share bounds, stated for layer L of a layered network |
| Layout.ShortcutPrefixUnfold | fanncl1/fann.c:471-497 | the shortcut layout is built layer by layer |
| Layout.ShortcutBlockLength | fanncl1/fann.c:438-451 | each layer's block in the shortcut layout has the layer's neuron count |
| Layout.ShortcutPrefixLength | fanncl1/fann.c:438-451 | the first L blocks cover exactly the neurons before layer L |
| Layout.ShortcutRunChained | fanncl1/fann.c:478-490 | a run of neurons owning `w` slots each is chained and ends `count * w` slots on |
| Layout.ShortcutBlockChained | fanncl1/fann.c:471-497 | every shortcut layer is chained from its connection base to the next layer's |
| Layout.ShortcutPrefixChained | fanncl1/fann.c:471-497 | the first L shortcut layers are chained from slot 0 |
| Layout.ShortcutLayoutContiguous | fanncl1/fann.c:471-497 | the shortcut arena has `total_neurons` neurons whose connection ranges are contiguous from slot 0 and total the builder's connection count |
| Layout.ShortcutBlockWidth | fanncl1/fann.c:478-490 | a neuron of shortcut layer L owns exactly as many slots as there are neurons (bias included) in layers 0 to L-1 |
| Builders.SplitLayer | fanncl1/fann.c:180-211 | splitting a layer gives it the target connection count, places each receiving neuron's share as the boundaries say, and changes no other neuron |
| Builders.SplitLayeredAt | fanncl1/fann.c:173-217 | one round of the split loop places layer L and advances the connection counter to the next layer's base |
| Builders.SplitLayered | fanncl1/fann.c:172-217 | after the split loop every layer is placed and `total_connections` is the layered connection count |
| Builders.SplitLayeredLayout | fanncl1/fann.c:172-217 | the split arena is exactly the layered layout |
| Builders.LayeredPrefixFromLayers | fanncl1/fann.c:172-217 | an arena with layers 1 to L-1 placed and layer 0 untouched begins with the first L blocks of the layout |
| Builders.SplitLayeredStep | fanncl1/fann.c:173-217 | placing layer L keeps the earlier layers placed and adds the layer's count to the connection base |
| Builders.ConBaseOwner | fanncl1/fann.c:173-217 | every slot below a layer's base belongs to exactly one earlier layer |
| Builders.ShortcutBaseOwner | fanncl1/fann.c:473-497 | every slot below a shortcut layer's base belongs to exactly one earlier layer |
| Builders.ShareOwner | fanncl1/fann.c:186-207 | every slot of a layer belongs to exactly one receiving neuron's share |
| Builders.SplitShortcutLayer | fanncl1/fann.c:478-490 | each neuron of the layer gets `w` consecutive slots from the counter on, and the counter grows by `count * w` |
| Builders.SplitShortcutAt | fanncl1/fann.c:473-497 | one round places shortcut layer L and advances the width by the layer's size |
| Builders.SplitShortcut | fanncl1/fann.c:471-497 | after the shortcut split loop every layer is placed and `total_connections` is the shortcut connection count |
| Builders.SplitShortcutLayout | fanncl1/fann.c:471-497 | the split arena is exactly the shortcut layout |
| Builders.ShortcutPrefixFromLayers | fanncl1/fann.c:471-497 | an arena with shortcut layers 1 to L-1 placed begins with the first L blocks of the layout |
| Builders.SplitShortcutStep | fanncl1/fann.c:473-497 | placing shortcut layer L keeps earlier layers placed and widens the next layer by this layer's size |
| Wiring.WireFullNeuron | fanncl1/fann.c:236-250 | slot j of the neuron reads the j-th neuron of the previous layer; no slot or weight outside the neuron's range changes |
| Wiring.WireFullRound | fanncl1/fann.c:236-250 | one neuron more of the layer is wired, nothing outside the layer's slots changes |
| Wiring.WireFullLayer | fanncl1/fann.c:233-259 | every neuron of the layer reads the previous layer in order, nothing outside the layer's slots changes |
| Wiring.FullLayerSlots | fanncl1/fann.c:236-250 | in a fully wired layer slot j of receiving neuron i reads neuron j of the previous layer |
| Wiring.LayerOf | fanncl1/fann.c:515-520 | layer j holds its count and ends where layer j+1 starts |
| Wiring.WireSourceLayer | fanncl1/fann.c:515-523 | one feeding layer is appended to the neuron's slots, each slot reading the neuron of the same index |
| Wiring.WireShortcutNeuron | fanncl1/fann.c:511-525 | a shortcut neuron's slot j reads neuron j of the network, over all earlier layers, nothing else changes |
| Wiring.WireShortcutRound | fanncl1/fann.c:511-525 | one neuron more of the shortcut layer is wired |
| Wiring.WireShortcutLayer | fanncl1/fann.c:509-528 | every neuron of the shortcut layer is wired, nothing outside its slots changes |
| Wiring.ShortcutSlots | fanncl1/fann.c:514-523 | in a wired shortcut layer slot j of every neuron reads neuron j of the network |
| SparseWiring.SlotStartsShares | fanncl1/fann.c:186-207 | the share boundaries of a sparse layer give each neuron between 1 and `numIn + 1` slots |
| SparseWiring.NeuronsAtSlots | fanncl1/fann.c:186-207 | the neuron records of a split layer hold exactly those share boundaries |
| SparseWiring.SegmentBounds | fanncl1/fann.c:276-354 | each receiving neuron's slots lie within the layer's slots |
| SparseWiring.SegmentsApart | fanncl1/fann.c:276-354 | the slots of different receiving neurons do not overlap |
| SparseWiring.SharesWired | fanncl1/fann.c:276-354 | a layer whose every share is wired and which uses every input is sparsely wired |
| SparseWiring.SparseBias | fanncl1/fann.c:282-290 | pass 1 puts the previous layer's bias into the first slot of every receiving neuron and changes nothing outside the layer |
| SparseWiring.PlaceInput | fanncl1/fann.c:307-316 | the feeding neuron goes into the first empty slot of the chosen neuron, and only that slot changes |
| SparseWiring.RoomSomewhere | fanncl1/fann.c:299-305 | pigeonhole: with fewer slots filled than the layer owns, some neuron still has room |
| SparseWiring.RoomExists | fanncl1/fann.c:299-305 | while input neurons are left, some receiving neuron's last slot is empty, so the rejection loop can end |
| SparseWiring.RoomNeuron | fanncl1/fann.c:299-305 | that neuron can be found through its neuron record, as the loop does |
| SparseWiring.PlaceFeeding | fanncl1/fann.c:294-317 | one round of pass 2 places input neuron v and keeps pass 2's progress invariant |
| SparseWiring.SparseSpread | fanncl1/fann.c:292-317 | after pass 2 every input neuron feeds some slot of the layer and each neuron's slots are filled from the front |
| SparseWiring.SpreadCovers | fanncl1/fann.c:292-317 | when pass 2 ends, every input neuron is covered |
| SparseWiring.Without | fanncl1/fann.c:330-347 | removing a value keeps every other value and shortens a sequence that held it |
| SparseWiring.MissingInput | fanncl1/fann.c:330-347 | pigeonhole: fewer than m slots cannot read all m input neurons, so the rejection loop can end |
| SparseWiring.FillRoom | fanncl1/fann.c:330-347 | an empty slot always has an input neuron that no earlier slot of the neuron reads |
| SparseWiring.FillNeuron | fanncl1/fann.c:321-353 | pass 3 fills every empty slot of a neuron with an input no earlier slot reads, keeps the filled slots, and changes nothing else |
| SparseWiring.SparseFill | fanncl1/fann.c:319-354 | after pass 3 every receiving neuron is wired and every input is still covered |
| SparseWiring.WireSparseLayer | fanncl1/fann.c:276-359 | the three passes wire a sparse layer: bias first, all slots filled with distinct inputs of the previous layer, every input used, nothing outside the layer changed |
| Create.ReadGeom | fanncl1/fann.c:226-235 | the geometry read off the layer array and neuron records is the layer's reference geometry |
| Create.WireFullAt | fanncl1/fann.c:233-259 | one round of the full wiring loop wires layer L within its slot range |
| Create.WireFullLayers | fanncl1/fann.c:226-260 | at rate 1 every layer is fully wired and nothing beyond the connection count changes |
| Create.WireSparseAt | fanncl1/fann.c:276-359 | one round of the sparse wiring loop wires layer L and leaves later slots empty |
| Create.WireSparseLayers | fanncl1/fann.c:261-364 | below rate 1 every layer is sparsely wired |
| Create.GeomSparse | fanncl1/fann.c:180-211 | below rate 1 every later layer meets the sparse wiring's bounds (at least one and at most `numIn + 1` slots per neuron) |
| Create.LayeredReadsBelow | fanncl1/fann.c:226-359 | every wired slot of a layered network reads an existing neuron |
| Create.LayeredValid | fanncl1/fann.c:99-371 | a layered network that is split and wired is valid and is what the builder promises |
| Create.LayeredOutput | fanncl1/fann.c:2256 | the output vector has one entry per neuron of the last layer |
| Create.SizeLayered | fanncl1/fann.c:136-155 | the builder records the rate, the input and output counts, and sizes every layer with its bias |
| Create.PrepareLayeredNeurons | fanncl1/fann.c:136-217 | the builder up to the split: success exactly when the neuron arena and the output vector are allocated, then the arena is split as the layout says |
| Create.PrepareLayered | fanncl1/fann.c:136-224 | the builder up to the wiring: success exactly when all four arenas are allocated |
| Create.WireLayered | fanncl1/fann.c:226-364 | the wiring leaves a valid, fully or sparsely wired network |
| Create.CreateSparseArray | fanncl1/fann.c:99-371 | for any rate, NULL exactly when fewer than two layers are asked for or an allocation fails; otherwise a fresh valid network wired at the rate clamped above at 1 (a negative rate builds the rate-0 network) |
| Create.CreateStandardArray | fanncl1/fann.c:65-69 | the sparse builder at rate 1: NULL on the same conditions, otherwise a fully connected network |
| Create.ShortcutWidthPositive | fanncl1/fann.c:473-497 | every later shortcut layer reads at least the input layer and its bias |
| Create.WireShortcutAt | fanncl1/fann.c:509-528 | one round of the shortcut wiring loop wires layer L within its slot range |
| Create.WireShortcutLayers | fanncl1/fann.c:508-528 | every shortcut layer is wired and nothing beyond the connection count changes |
| Create.ShortcutReadsBelow | fanncl1/fann.c:508-528 | every wired slot of a shortcut network reads an existing neuron |
| Create.ShortcutValid | fanncl1/fann.c:402-535 | a shortcut network that is split and wired is valid and is what the builder promises |
| Create.ShortcutOutput | fanncl1/fann.c:2256 | the output vector has one entry per neuron of the last layer |
| Create.SizeShortcut | fanncl1/fann.c:428-454 | the builder records rate 1, the shortcut type, and sizes the layers with a single bias in layer 0 |
| Create.PrepareShortcutNeurons | fanncl1/fann.c:428-497 | success exactly when the neuron arena and the output vector are allocated, then the arena is split as the shortcut layout says |
| Create.PrepareShortcut | fanncl1/fann.c:428-504 | success exactly when all four arenas are allocated |
| Create.WireShortcut | fanncl1/fann.c:508-528 | the wiring leaves a valid shortcut network |
| Create.CreateShortcutArray | fanncl1/fann.c:402-535 | NULL exactly when fewer than two layers are asked for or an allocation fails; otherwise a fresh valid shortcut network |
| Clone.FirstFailure | fanncl1/fann.c:805-1023 | the site a copy stops at is a failing site it reaches, and there is none exactly when no reached site fails |
| Clone.FirstFailureAppend | fanncl1/fann.c:805-1023 | the first failure of two steps in sequence is the first step's, if any |
| Clone.CopyFailsWhen | fanncl1/fann.c:805-1023 | a copy fails exactly when a site it reaches fails; a structure failure is always reported on the original |
| Clone.InheritedErrorAbortsCopy | fanncl1/fann.c:944-949 | as written, an original whose errno records an earlier allocation failure aborts every copy; with no failing site the copy is meant to succeed (`CopySucceeds`) yet the neuron step still aborts |
| Clone.CopiedParamsLoseSettings | fanncl1/fann.c:823-898 | as written, a copy keeps the parameters exactly when the uncopied ones are at their defaults; a Quickprop network is copied as RPROP |
| Clone.HeaderFailure | fanncl1/fann.c:810-887 | the header step succeeds exactly when none of its sites fails; every failure but the error string's is reported on the original |
| Clone.CopyHeader | fanncl1/fann.c:805-898 | on success the copy has the original's errno, error string, all parameters, rate, type and cascade tables; a reported failure sets the original's errno |
| Clone.CopyLayerSizes | fanncl1/fann.c:910-920 | every copied layer records the original's neuron count; `total_neurons`, `num_input` and `num_output` are copied |
| Clone.PlacedAsUnique | fanncl1/fann.c:943-958 | two layer arrays placed from the same counts are equal, so the copy's layers match the original's |
| Clone.CopyNeuronRecords | fanncl1/fann.c:953-958 | the neuron loop copies every neuron record |
| Clone.CopyValues | fanncl1/fann.c:950-951 | the first n values are copied and the rest are untouched |
| Clone.CopyNeurons | fanncl1/fann.c:943-958 | success exactly when the copy's neuron arena and output vector are allocated; then the layers, neurons and outputs equal the original's |
| Clone.CopyArcs | fanncl1/fann.c:968-975 | the connection loop copies every weight and every connection; both arena bases are neuron 0, so the offset arithmetic keeps each index |
| Clone.CopyConnections | fanncl1/fann.c:959-975 | success exactly when both connection arenas are allocated; then the counts, weights and connections equal the original's |
| Clone.CopyBuffer | fanncl1/fann.c:977-987 | a training buffer is copied exactly when the original has one, and the copy fails only when that allocation fails |
| Clone.Duplicate | fanncl1/fann.c:979-986 | a fresh array of n entries equal to the first n of the source |
| Clone.BufferFailure | fanncl1/fann.c:977-1023 | the buffer step succeeds exactly when no present buffer fails, and every failure is reported |
| Clone.CopyBuffers | fanncl1/fann.c:977-1023 | on success each of the four buffers is present in the copy exactly when in the original, with the same contents; on failure the original's errno is `CantAllocateMem` |
| Clone.StructureFailure | fanncl1/fann.c:805-808 | the structure step fails exactly when one of its sites fails, and reports it |
| Clone.ArenaFailure | fanncl1/fann.c:943-966 | the arena steps fail exactly when an arena allocation fails, and such failures are not reported on the original |
| Clone.CopyOutcome | fanncl1/fann.c:805-1023 | the outcome of a copy is decided by the first failing site in the order the copy reaches them |
| Clone.CopyLayout | fanncl1/fann.c:910-958 | the layer sizes and neurons step: success exactly when its two allocations succeed, with layers, counts, neurons and outputs copied |
| Clone.CopyStorage | fanncl1/fann.c:959-1023 | the connection and buffer step: success exactly when its allocations succeed, with connections, weights and buffers copied |
| Clone.CopyArenas | fanncl1/fann.c:910-1023 | all steps after the header, with the header fields untouched |
| Clone.CopyInto | fanncl1/fann.c:810-1023 | everything after the structure: success exactly when the header, arena and buffer steps succeed |
| Clone.CopyIsValid | fanncl1/fann.c:794-1026 | a copy of a valid network's sizes, neurons, connections and buffers is valid |
| Clone.Clone | fanncl1/fann.c:794-1026 | NULL exactly when a reached allocation fails, the original's errno set exactly when that failure is reported; otherwise a fresh valid deep copy with the same header, sizes, neurons, connections and buffers |
| Clone.CloneSameConnections | fanncl1/fann.c:968-975 | a copy lists the same connections as its original |
| Introspect.Targets | fanncl1/fann.c:1352-1364 | the walk's destination counter takes one value per slot and is below the number of neurons walked |
| Introspect.TargetsOwn | fanncl1/fann.c:1352-1364 | on a chained layout the destination the walk reports for slot k is exactly the neuron that owns slot k |
| Introspect.ConnectionListSlots | fanncl1/fann.c:1335-1368 | on a chained layout the list has one entry per slot, with the slot's source, its weight and its owner as destination |
| Introspect.RunningIndexNeedsChain | fanncl1/fann.c:1358 | the running index is only right on a chained layout: one neuron whose range starts at slot 1 is reported as the owner of slot 0 |
| Introspect.ValidWalkLength | fanncl1/fann.c:1346-1367 | in a valid network the walk visits exactly `total_connections` slots |
| Introspect.ValidConnectionList | fanncl1/fann.c:1335-1368 | in a valid network the list has `total_connections` entries; entry k names slot k's source neuron, its weight and its owner |
| Introspect.ListNeuron | fanncl1/fann.c:1356-1364 | one neuron's slots are appended to the list with that neuron as destination |
| Introspect.ListLayer | fanncl1/fann.c:1352-1366 | one layer's neurons are walked in order and the counter follows the slots |
| Introspect.GetConnectionArray | fanncl1/fann.c:1335-1368 | the result is the network's connection list |
| Introspect.PlacedBelow | fanncl1/fann.c:1352-1354 | every layer lies within the neurons and starts where the earlier layers end, so walking layers visits neurons in order |
| Introspect.Reweighted | fanncl1/fann.c:1401-1416 | a reweighted weight vector keeps its length |
| Introspect.SetNeuron | fanncl1/fann.c:1405-1413 | one neuron's slots of `fann_set_weight` are reweighted at the running counter |
| Introspect.SetLayer | fanncl1/fann.c:1401-1416 | one layer of `fann_set_weight` |
| Introspect.SetWeight | fanncl1/fann.c:1381-1417 | the network stays valid and its weights are written wherever the walk reports the pair (from, to) |
| Introspect.SetWeightTargets | fanncl1/fann.c:1381-1417 | `fann_set_weight` writes w exactly into the slots that `to` owns and that read `from`; when there is none, nothing changes |
| Introspect.ReweightedOwners | fanncl1/fann.c:1401-1416 | on a chained layout, the walk writes exactly where the owner is `to` and the source is `from` |
| Introspect.GetAfterSet | fanncl1/fann.c:1335-1417 | after `fann_set_weight`, the connection array is the same except that the entries with that pair carry the new weight |
| Introspect.ApplyAll | fanncl1/fann.c:1375-1378 | setting a list of triples keeps the weight vector's length |
| Introspect.SetWeightArray | fanncl1/fann.c:1370-1379 | the network stays valid and the weights are those after setting the first `num` triples in turn |
| Introspect.ApplyListPrefix | fanncl1/fann.c:1370-1379 | when no two connections join the same pair of neurons, setting the first n entries of a network's own connection list restores exactly the first n weights |
| Introspect.RestoreWeights | fanncl1/fann.c:1335-1379 | when no two connections join the same pair of neurons, `fann_set_weight_array` with the list `fann_get_connection_array` returned restores the weights it was read from |
| Introspect.SlotsBelowEnd | fanncl1/fann.c:1352-1364 | on a chained layout every neuron's range ends within the slots the walk visits |
| Introspect.OwnerUnique | fanncl1/fann.c:1352-1364 | on a chained layout a slot has one owner only |
| Introspect.LinksApartSources | fanncl1/fann.c:1335-1368 | if the connection list joins no pair twice, no neuron reads the same neuron in two of its slots |
| Introspect.SourcesApartLinks | fanncl1/fann.c:1335-1368 | if the list joins some pair twice, some neuron reads the same neuron in two of its slots |
| Introspect.DistinctLinksFromSources | fanncl1/fann.c:1335-1368 | on a chained layout the list joins no pair twice exactly when no neuron reads a neuron twice |
| Links.NeuronLayer | fanncl1/fann.c:1352-1354 | every neuron lies in exactly the layer whose range holds it |
| Links.RunApart | fanncl1/fann.c:236-250 | a neuron of a run wired `w` slots apart reads `w` different neurons |
| Links.FullNeuronApart | fanncl1/fann.c:233-259 | a neuron of a fully connected layer reads every neuron of the previous layer once |
| Links.SparseNeuronApart | fanncl1/fann.c:276-359 | a neuron of a sparse layer never reads the same input twice |
| Links.LayeredArenaApart | fanncl1/fann.c:186-359 | in a layered network as the builder wires it, no neuron reads a neuron twice (input neurons and biases read nothing) |
| Links.ShortcutArenaApart | fanncl1/fann.c:478-525 | in a shortcut network as the builder wires it, no neuron reads a neuron twice |
| Links.LayeredDistinctLinks | fanncl1/fann.c:99-371 | `fann_create_standard_array` and `fann_create_sparse_array` return a valid network that joins no pair of neurons twice |
| Links.ShortcutDistinctLinks | fanncl1/fann.c:402-531 | `fann_create_shortcut_array` returns a valid network that joins no pair of neurons twice |
| Links.BuiltRestoreWeights | fanncl1/fann.c:1335-1379 | on any network a builder returns, setting the list read by `fann_get_connection_array` onto a network of the same structure gives it the original's weights slot for slot, and setting it back onto the original changes nothing |
| Accel.OffsetsArePrefixSums | fanncl1/fann.c:1661-1670 | the layer offsets are the running sums of the layer sizes, and the corrected end entry is `total_neurons` |
| Accel.LayeredEndOffset | fanncl1/fann.c:1670 | for a layered network the end offset as written equals `total_neurons` |
| Accel.ShortcutEndOffsetOvershoots | fanncl1/fann.c:1670 | for a shortcut network the end offset as written is `total_neurons + 1` |
| Accel.ShortcutEndOffsetExample | fanncl1/fann.c:1670 | a shortcut network with layers of 2 and 2 neurons has 5 neurons, but the end offset as written is 6 |
| Accel.LayerMetadata | fanncl1/fann.c:1651-1670 | `lc` is the number of layers, `gss` holds the layer sizes, `offsets` the layer starts and then `total_neurons`, and `mn` is the largest layer size |
| Accel.FillLayerMetadata | fanncl1/fann.c:1661-1669 | the second layer loop writes every layer's size and start and finds the largest size |
| Accel.MaxAdjacentProduct | fanncl1/fann.c:1678-1681 | `mc` is the largest product of two adjacent layer sizes (0 with fewer than two layers) |
| Accel.CountNeuronSlots | fanncl1/fann.c:1673-1674 | the inner loop counts one more than a neuron's slot count (`i <= last_con`) |
| Accel.CountLayerSlots | fanncl1/fann.c:1672-1674 | one layer adds its neurons' slots plus one per neuron |
| Accel.CountInLayers | fanncl1/fann.c:1671-1674 | `tc_in_layers` grows by `total_connections + total_neurons` |
| Accel.DeviceSize | fanncl1/fann.c:1696 | `M_nrns` is `total_neurons` padded to a multiple of `MAXWITEM` |
| Accel.LayerFrom | fanncl1/fann.c:1967-1971 | the layer search returns a layer index no earlier than where it starts |
| Accel.LayersOrdered | fanncl1/fann.c:1967-1971 | an earlier layer ends before a later one starts |
| Accel.LayerFromFinds | fanncl1/fann.c:1967-1971 | the search finds the layer a neuron lies in |
| Accel.LayerFromBeyond | fanncl1/fann.c:1964-1971 | no layer holds a neuron past the last one |
| Accel.NeuronTablesMeaning | fanncl1/fann.c:1967-1971 | for every neuron of layer L, `ncl` holds the layer's size and `snpl` the previous layer's start |
| Accel.NeuronTablesBeyond | fanncl1/fann.c:1964-1965 | past the last neuron both tables hold 0 |
| Accel.FillLayerTables | fanncl1/fann.c:1967-1971 | the inner loop writes layer L's entries of both tables |
| Accel.NeuronTables | fanncl1/fann.c:1964-1972 | both tables have `M_nrns` entries holding, per neuron, its layer's size and the previous layer's start, and 0 past the last neuron |
| Accel.CeilDivOfNonMultiple | fanncl1/fann.c:2015-2017 | when W does not divide n, rounding `n / W` up is one more than rounding it down |
| Accel.SetClSizes | fanncl1/fann.c:2005-2018 | the global size is the item count below `MAXWITEM` and the count padded to a multiple of `MAXWITEM` otherwise: it covers every item with less than one group to spare, is a multiple of the local size, and the local size is at most `MAXWITEM` (0 only for zero items, as in the source); the second dimension is left as it was in the last case |
| Accel.PaddedRound | fanncl1/fann.c:2015 | `round(0.5 + n / (float)W) * W` pads n up to the next multiple of W when W does not divide it |

## Left out

- The OpenCL plumbing is not modelled. This covers device and context setup, kernels, buffer transfers, `fptspush`, `fptscread`, `clearclarray` and the `testcl*` helpers. They are calls into a library that is not part of this model.
- `fann_run`, training and all floating-point neuron arithmetic are not modelled; weights are opaque values.
- Weight initialisation is not modelled:
  - the wiring methods only state which slots may change, not the values `fann_random_weight` and `fann_random_bias_weight` give them;
  - `fann_randomize_weights` and `fann_init_weights` are left out;
  - seeding the random generator is left out.
- The variadic wrappers `fann_create_standard`, `fann_create_sparse` and `fann_create_shortcut` are not modelled. They only collect their arguments into an array and call the array builders, which are modelled.
- Printing, timing, file I/O and `fann_print_*` are not modelled. The debug `printf` in `fann_allocate_neurons` reads `neurons[512]`, beyond the arena of a small network; that read is not modelled.
- Freeing is not modelled (`fann_destroy` and the frees on error paths). Memory is garbage collected in Dafny. A consequence is that the model does not show that `fann_allocate_structure` leaks the two cascade arrays when the layer array allocation fails.
- 32-bit unsigned arithmetic is not modelled; counts are unbounded naturals. This covers:
  - the `unsigned int` counters and `(int)` casts;
  - the products in the `mc` loop.
  
  The one wrap-around that matters, the empty-layer decrement in `fann_get_layer_array`, is modelled (`Pred32`).
- Float rounding in `ceil`, `round` and the `(float)` divisions is not modelled; they are computed on exact reals (`CeilMatchesFloat`, `FloorOfRatio`).
- The error callback, `user_data`, the error log stream and the text of error messages are not modelled; `errstr` is an optional string.
- The scale arrays (`fann_allocate_scale` and the copy at fann.c:923-941) and the `FIXEDFANN` build are not modelled.
- `fann_get_cascade_num_candidates` is not part of this model. Its value is the parameter `numCandidates` of `Clone.Clone`.
- `Clone.CopyBuffers`: the buffers are copied with `total_connections_allocated` entries. The model uses `total_connections`, which equals it in every network the builders produce.
- The first layer loop of `fptsclalloc` (fann.c:1651-1654) is left out. It reads the layer one past the end to compute a sum `nc` that is never used. Only its layer count `lc` is kept.
- `Accel.NeuronTables`: for neurons of the input layer, the source computes `snpl` from the layer before the first one, which is out of bounds. The model stores 0 there.
- The fields `consub1stcon`, `alllconns` and `tmp_errors` and the work size `gs` of the accelerator path are not modelled.
- `Create.CreateSparseArray`: the model requires every hidden and output layer to have at least one neuron, and below rate 1 a non-empty input layer. With such a layer the source divides by zero or indexes garbage.
- `Sizing.RoundHalfUp`: a rate so negative that `0.5 + rate * in * out <= -1` makes the source's float-to-unsigned cast undefined behaviour in C; the model gives such a rate the value 0, as for rates in (-1.5/(in * out), 0), where the cast truncates to 0.
- `Create.CreateStandardArray`: the model requires every hidden and output layer to have at least one neuron, for the same reason.
- The random choices in the sparse wiring are nondeterministic. The model proves the properties for every choice the rejection loops can accept, not for the generator's distribution.
- `Clone.Clone`: the model requires a valid original network, as the builders produce. Copying a partly built network is not modelled.

## Findings

| source | as written | input that shows it | evidently intended | confidence | as-written member | corrected member |
|---|---|---|---|---|---|---|
| fanncl1/fann.c:810 | `fann_copy` copies the original's `errno_f` into the copy, then at 944-949 tests `copy->errno_f == FANN_E_CANT_ALLOCATE_MEM` after `fann_allocate_neurons` to detect a failed allocation | an original whose errno is `FANN_E_CANT_ALLOCATE_MEM` (for example after an earlier failed operation): the copy returns NULL although no allocation fails | give up only when the neuron or output allocation failed | not executed | Clone.InheritedErrorAbortsCopy | Clone.CopyNeurons |
| fanncl1/fann.c:823-898 | `fann_copy` copies some training parameters but leaves others at the defaults of `fann_allocate_structure`, among them the training algorithm | an original trained with Quickprop: the copy uses RPROP | copy every parameter | not executed | Clone.CopiedParamsLoseSettings | Clone.CopyHeader |
| fanncl1/fann.c:1670 | `offsets[lc] = offsets[lc-1] + num_output + 1`, which assumes the last layer holds a bias neuron | a shortcut network with layers of 2 and 2 neurons: 5 neurons, end offset 6 | the end entry is where the last layer ends, `total_neurons` | not executed | Accel.ShortcutEndOffsetExample | Accel.LayerMetadata |
