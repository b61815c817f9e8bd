/**
 * The integer metadata the OpenCL offload derives from a built network
 * before it uploads it: the size and start of every layer (gss, offsets),
 * the largest layer (mn), the largest product of two adjacent layer sizes
 * (mc), the slot count tc_in_layers, the per-neuron tables ncl and snpl,
 * the device buffer sizes M_nrns and M_cns, and the work sizes setclsizes
 * picks for a kernel launch. The device calls are not modelled, and every
 * float expression is computed exactly.
 */
module Accel {
  import opened FannTypes
  import opened Sizing
  import opened Layout
  import opened Fann
  import opened Introspect

  // ---------------------------------------------------------------------
  // Layer sizes and offsets (fptsclalloc).
  // ---------------------------------------------------------------------

  /** Where each layer starts in the neuron arena. */
  function LayerOffsets(layers: seq<Layer>): seq<nat>
  {
    seq(|layers|, l requires 0 <= l < |layers| => layers[l].firstNeuron)
  }

  /** The entry after the offsets, as written: the last layer's start plus
      num_output + 1. */
  function EndOffsetAsWritten(layers: seq<Layer>, numOutput: nat): nat
    requires |layers| >= 1
  {
    layers[|layers| - 1].firstNeuron + numOutput + 1
  }

  /** The entry after the offsets, corrected: where the last layer ends. */
  function EndOffset(layers: seq<Layer>): nat
    requires |layers| >= 1
  {
    layers[|layers| - 1].lastNeuron
  }

  /** The offsets are the running sums of the layer sizes, and the entry after
      them is the number of neurons. */
  lemma OffsetsArePrefixSums(layers: seq<Layer>, total: nat)
    requires PlacedFrom(layers, total)
    ensures |LayerOffsets(layers)| == |LayerCounts(layers)| == |layers|
    ensures forall l :: 0 <= l < |layers| ==> LayerOffsets(layers)[l] == Start(LayerCounts(layers), l)
    ensures EndOffset(layers) == total == Sum(LayerCounts(layers))
  {
    forall l | 0 <= l < |layers|
      ensures LayerOffsets(layers)[l] == Start(LayerCounts(layers), l)
    {
      PlacedFromAs(layers, total, l);
    }
    PlacedFromTotal(layers, total);
  }

  /** A layered network's last layer holds num_output neurons and a bias
      neuron: there the entry as written is the number of neurons. */
  lemma LayeredEndOffset(layers: seq<Layer>, total: nat, numOutput: nat)
    requires PlacedFrom(layers, total) && layers[|layers| - 1].Count() == numOutput + 1
    ensures EndOffsetAsWritten(layers, numOutput) == EndOffset(layers) == total
  {
  }

  /** A shortcut network's last layer has no bias neuron: there the entry as
      written points one past the neuron arena. */
  lemma ShortcutEndOffsetOvershoots(layers: seq<Layer>, total: nat, numOutput: nat)
    requires PlacedFrom(layers, total) && layers[|layers| - 1].Count() == numOutput
    ensures EndOffsetAsWritten(layers, numOutput) == total + 1 == EndOffset(layers) + 1
  {
  }

  /** fann_create_shortcut with layers of 2 and 2 neurons: the layers are
      [0, 3) and [3, 5), and the entry as written is 6. */
  lemma ShortcutEndOffsetExample()
    ensures PlacedAs([Layer(0, 3), Layer(3, 5)], ShortcutCounts([2, 2]))
    ensures EndOffsetAsWritten([Layer(0, 3), Layer(3, 5)], 2) == 6 != EndOffset([Layer(0, 3), Layer(3, 5)])
  {
    var layers := [Layer(0, 3), Layer(3, 5)];
    var counts := ShortcutCounts([2, 2]);
    assert counts == [3, 2];
    assert LayerPlaced(layers, counts, 0);
    assert Start(counts, 1) == 3;
    assert LayerPlaced(layers, counts, 1);
  }

  /** The two layer loops of fptsclalloc: lc counts the layers, gss and
      offsets get lc + 2 zeroed entries with the size and the start of every
      layer in front and the end of the arena after them, and mn is the
      largest layer. */
  method LayerMetadata(ann: Network) returns (lc: nat, gss: array<nat>, offsets: array<nat>, mn: nat)
    requires ann.Valid()
    ensures lc == ann.layers.Length
    ensures fresh(gss) && fresh(offsets)
    ensures gss[..] == LayerCounts(ann.layers[..]) + [0, 0]
    ensures offsets[..] == LayerOffsets(ann.layers[..]) + [ann.totalNeurons, 0]
    ensures forall l :: 0 <= l < lc ==> gss[l] <= mn
    ensures exists l :: 0 <= l < lc && gss[l] == mn
  {
    lc := 0;
    var it: nat := ann.layers.Length;
    while it != 0
      invariant it <= ann.layers.Length && lc == ann.layers.Length - it
      decreases it
    {
      it := it - 1;
      lc := lc + 1;
    }
    gss := new nat[lc + 2](_ => 0);
    offsets := new nat[lc + 2](_ => 0);
    mn := FillLayerMetadata(ann, gss, offsets);
    offsets[lc] := offsets[lc - 1] + gss[lc - 1];
    assert gss[..] == LayerCounts(ann.layers[..]) + [0, 0];
    assert offsets[..] == LayerOffsets(ann.layers[..]) + [ann.totalNeurons, 0] by {
      assert offsets[lc] == ann.layers[lc - 1].lastNeuron;
    }
  }

  /** The second layer loop: the size and the start of every layer, and the
      largest size. */
  method FillLayerMetadata(ann: Network, gss: array<nat>, offsets: array<nat>) returns (mn: nat)
    requires ann.Valid() && gss.Length == offsets.Length == ann.layers.Length + 2 && gss != offsets
    requires forall k :: 0 <= k < gss.Length ==> gss[k] == 0 && offsets[k] == 0
    modifies gss, offsets
    ensures gss[..] == LayerCounts(ann.layers[..]) + [0, 0]
    ensures forall k :: 0 <= k < ann.layers.Length ==> offsets[k] == ann.layers[k].firstNeuron
    ensures offsets[ann.layers.Length] == 0 && offsets[ann.layers.Length + 1] == 0
    ensures forall k :: 0 <= k < ann.layers.Length ==> gss[k] <= mn
    ensures exists k :: 0 <= k < ann.layers.Length && gss[k] == mn
  {
    ghost var counts := LayerCounts(ann.layers[..]);
    mn := 0;
    var l := 0;
    while l < ann.layers.Length
      invariant l <= ann.layers.Length
      invariant forall k :: 0 <= k < l ==> gss[k] == counts[k] && offsets[k] == ann.layers[k].firstNeuron
      invariant forall k :: l <= k < gss.Length ==> gss[k] == 0 && offsets[k] == 0
      invariant forall k :: 0 <= k < l ==> gss[k] <= mn
      invariant l == 0 ==> mn == 0
      invariant l > 0 ==> exists k :: 0 <= k < l && gss[k] == mn
    {
      var layer := ann.layers[l];
      var size := layer.Count();
      if mn < size {
        mn := size;
      }
      gss[l] := size;
      offsets[l] := layer.firstNeuron;
      l := l + 1;
    }
    assert gss[..] == counts + [0, 0];
  }

  /** The product of the sizes of layers i - 1 and i. */
  function AdjacentProduct(sizes: seq<nat>, i: nat): nat
    requires 0 < i < |sizes|
  {
    sizes[i - 1] * sizes[i]
  }

  /** The mc loop of fptsclalloc: the largest product of two adjacent layer
      sizes among the first lc entries of gss, 0 when there is none. */
  method MaxAdjacentProduct(gss: array<nat>, lc: nat) returns (mc: nat)
    requires lc <= gss.Length
    ensures forall i :: 0 < i < lc ==> AdjacentProduct(gss[..], i) <= mc
    ensures mc == 0 || exists i :: 0 < i < lc && AdjacentProduct(gss[..], i) == mc
  {
    mc := 0;
    var i := 1;
    while i < lc
      invariant 1 <= i && (lc >= 1 ==> i <= lc)
      invariant forall k :: 0 < k < i && k < lc ==> AdjacentProduct(gss[..], k) <= mc
      invariant mc == 0 || exists k :: 0 < k < i && k < lc && AdjacentProduct(gss[..], k) == mc
    {
      assert AdjacentProduct(gss[..], i) == gss[i] * gss[i - 1];
      if mc < gss[i] * gss[i - 1] {
        mc := gss[i] * gss[i - 1];
      }
      i := i + 1;
    }
  }

  // ---------------------------------------------------------------------
  // tc_in_layers (fptsclalloc).
  // ---------------------------------------------------------------------

  /** The innermost loop: one count for every slot from first_con up to and
      including last_con. */
  method CountNeuronSlots(ann: Network, u: nat)
    requires ann.neurons != null && u < ann.neurons.Length
    modifies ann`tcInLayers
    ensures ann.tcInLayers == old(ann.tcInLayers) + (if ann.neurons[u].firstCon <= ann.neurons[u].lastCon
                                                     then Span(ann.neurons[u]) + 1 else 0)
  {
    var nr := ann.neurons[u];
    var i := nr.firstCon;
    while i <= nr.lastCon
      invariant i == nr.firstCon || nr.firstCon <= i <= nr.lastCon + 1
      invariant ann.tcInLayers == old(ann.tcInLayers) + (i - nr.firstCon)
      decreases nr.lastCon + 1 - i
    {
      ann.tcInLayers := ann.tcInLayers + 1;
      i := i + 1;
    }
    assert nr == ann.neurons[u];
  }

  /** The middle loop: the neurons of layer L in order. It adds the slots of
      the layer's neurons and one more per neuron. */
  method CountLayerSlots(ann: Network, L: nat, ghost ns: seq<Neuron>)
    requires ann.Valid() && L < ann.layers.Length && ns == ann.neurons[..ann.totalNeurons]
    modifies ann`tcInLayers
    ensures ann.layers[L].lastNeuron <= ann.totalNeurons
    ensures ann.tcInLayers + ConsBefore(ns, ann.layers[L].firstNeuron) + ann.layers[L].firstNeuron
            == old(ann.tcInLayers) + ConsBefore(ns, ann.layers[L].lastNeuron) + ann.layers[L].lastNeuron
  {
    var layer := ann.layers[L];
    PlacedBelow(ann.layers[..], ann.totalNeurons, L);
    var u := layer.firstNeuron;
    while u != layer.lastNeuron
      invariant layer.firstNeuron <= u <= layer.lastNeuron
      invariant ann.tcInLayers + ConsBefore(ns, layer.firstNeuron) + layer.firstNeuron
                == old(ann.tcInLayers) + ConsBefore(ns, u) + u
      decreases layer.lastNeuron - u
    {
      assert ns[u] == ann.neurons[u];
      CountNeuronSlots(ann, u);
      u := u + 1;
    }
  }

  /** The tc_in_layers loop of fptsclalloc: it walks every layer from the
      last to the first and counts one more slot per neuron than the neuron
      owns, so it adds the number of connections plus the number of neurons. */
  method CountInLayers(ann: Network)
    requires ann.Valid()
    modifies ann`tcInLayers
    ensures ann.tcInLayers == old(ann.tcInLayers) + ann.totalConnections + ann.totalNeurons
  {
    ghost var ns := ann.neurons[..ann.totalNeurons];
    var L: nat := ann.layers.Length;
    ghost var covered: nat := ann.totalNeurons;
    while L != 0
      invariant L <= ann.layers.Length && covered <= ann.totalNeurons
      invariant covered == if L == ann.layers.Length then ann.totalNeurons else ann.layers[L].firstNeuron
      invariant ann.tcInLayers + ConsBefore(ns, covered) + covered
                == old(ann.tcInLayers) + ConsBefore(ns, ann.totalNeurons) + ann.totalNeurons
    {
      L := L - 1;
      if L + 1 < ann.layers.Length {
        assert Follows(ann.layers[..], L + 1);
      }
      assert ann.layers[L].lastNeuron == covered;
      CountLayerSlots(ann, L, ns);
      covered := ann.layers[L].firstNeuron;
    }
    ChainedConsBefore(ns, 0);
  }

  // ---------------------------------------------------------------------
  // Device buffer sizes.
  // ---------------------------------------------------------------------

  /** ceil(n / (float)W) * W, the size of the device buffers M_nrns (for the
      neurons) and M_cns (for the slots tc_in_layers counts): the least
      multiple of W that holds n items. */
  function DeviceSize(n: nat, w: nat): (r: nat)
    requires w > 0
    ensures r == Padded(n, w)
    ensures n <= r < n + w && r % w == 0
  {
    CeilMatchesFloat(n, w);
    PaddedBounds(n, w);
    CeilReal(n as real / w as real) * w
  }

  // ---------------------------------------------------------------------
  // The per-neuron tables ncl and snpl (fptscwrite).
  // ---------------------------------------------------------------------

  /** The layer that holds neuron u, searching from layer l on; |layers|
      when none does. */
  function LayerFrom(layers: seq<Layer>, u: nat, l: nat): (r: nat)
    requires l <= |layers|
    ensures l <= r <= |layers|
    decreases |layers| - l
  {
    if l == |layers| then l
    else if layers[l].firstNeuron <= u < layers[l].lastNeuron then l
    else LayerFrom(layers, u, l + 1)
  }

  /** ncl: for each of the n entries, the number of neurons in that neuron's
      layer; 0 past the last neuron. */
  function NeuronsInLayerTable(layers: seq<Layer>, n: nat): seq<nat>
  {
    seq(n, u requires 0 <= u < n =>
      var l := LayerFrom(layers, u, 0); if l < |layers| then layers[l].Count() else 0)
  }

  /** snpl: for each of the n entries, where the layer before that neuron's
      layer starts; 0 for the input layer and past the last neuron. */
  function PrevLayerStartTable(layers: seq<Layer>, n: nat): seq<nat>
  {
    seq(n, u requires 0 <= u < n =>
      var l := LayerFrom(layers, u, 0); if 0 < l < |layers| then layers[l - 1].firstNeuron else 0)
  }

  /** Layer l ends no later than a later layer L starts. */
  lemma {:induction false} LayersOrdered(layers: seq<Layer>, total: nat, l: nat, L: nat)
    requires PlacedFrom(layers, total) && l < L < |layers|
    ensures layers[l].lastNeuron <= layers[L].firstNeuron
    decreases L - l
  {
    assert Follows(layers, L);
    if l + 1 < L {
      LayersOrdered(layers, total, l, L - 1);
    }
  }

  /** The search finds the layer a neuron lies in. */
  lemma {:induction false} LayerFromFinds(layers: seq<Layer>, total: nat, L: nat, u: nat, l: nat)
    requires PlacedFrom(layers, total) && l <= L < |layers|
    requires layers[L].firstNeuron <= u < layers[L].lastNeuron
    ensures LayerFrom(layers, u, l) == L
    decreases L - l
  {
    if l < L {
      LayersOrdered(layers, total, l, L);
      LayerFromFinds(layers, total, L, u, l + 1);
    }
  }

  /** No layer holds a neuron past the last one. */
  lemma {:induction false} LayerFromBeyond(layers: seq<Layer>, total: nat, u: nat, l: nat)
    requires PlacedFrom(layers, total) && total <= u && l <= |layers|
    ensures LayerFrom(layers, u, l) == |layers|
    decreases |layers| - l
  {
    if l < |layers| {
      PlacedBelow(layers, total, l);
      LayerFromBeyond(layers, total, u, l + 1);
    }
  }

  /** What the tables say about the neurons of layer L: the size of their
      layer and, past the input layer, where the layer feeding them starts. */
  lemma NeuronTablesMeaning(layers: seq<Layer>, total: nat, n: nat, L: nat)
    requires PlacedFrom(layers, total) && total <= n && L < |layers|
    ensures layers[L].lastNeuron <= total
    ensures forall u :: layers[L].firstNeuron <= u < layers[L].lastNeuron ==>
      && NeuronsInLayerTable(layers, n)[u] == layers[L].Count()
      && PrevLayerStartTable(layers, n)[u] == (if L > 0 then layers[L - 1].firstNeuron else 0)
    ensures L > 0 ==> layers[L - 1].firstNeuron == Start(LayerCounts(layers), L - 1)
  {
    PlacedBelow(layers, total, L);
    if L > 0 {
      PlacedFromAs(layers, total, L - 1);
    }
    forall u | layers[L].firstNeuron <= u < layers[L].lastNeuron
      ensures LayerFrom(layers, u, 0) == L
    {
      LayerFromFinds(layers, total, L, u, 0);
    }
  }

  /** Past the last neuron both tables hold 0. */
  lemma NeuronTablesBeyond(layers: seq<Layer>, total: nat, n: nat)
    requires PlacedFrom(layers, total)
    ensures forall u :: total <= u < n ==> NeuronsInLayerTable(layers, n)[u] == 0 == PrevLayerStartTable(layers, n)[u]
  {
    forall u | total <= u < n
      ensures LayerFrom(layers, u, 0) == |layers|
    {
      LayerFromBeyond(layers, total, u, 0);
    }
  }

  /** The tables hold their final entries for the neurons from `from` up to
      total, and calloc's zeros everywhere else. */
  ghost predicate FilledFrom(ncl: array<nat>, snpl: array<nat>, nclTable: seq<nat>, snplTable: seq<nat>, from: nat, total: nat)
    reads ncl, snpl
  {
    && ncl.Length == |nclTable| && snpl.Length == |snplTable|
    && (forall u :: 0 <= u < ncl.Length ==> ncl[u] == if from <= u < total then nclTable[u] else 0)
    && (forall u :: 0 <= u < snpl.Length ==> snpl[u] == if from <= u < total then snplTable[u] else 0)
  }

  /** The inner loop for layer L: every neuron of the layer gets its layer's
      size in ncl and, past the input layer, the previous layer's start in
      snpl, which are the tables' entries for it. */
  method FillLayerTables(ann: Network, ncl: array<nat>, snpl: array<nat>, L: nat,
                         ghost nclTable: seq<nat>, ghost snplTable: seq<nat>)
    requires ann.Valid() && L < ann.layers.Length && ncl != snpl
    requires ann.layers[L].lastNeuron <= ann.totalNeurons <= |nclTable| && ann.totalNeurons <= |snplTable|
    requires forall u :: ann.layers[L].firstNeuron <= u < ann.layers[L].lastNeuron ==>
      nclTable[u] == ann.layers[L].Count() && snplTable[u] == if L > 0 then ann.layers[L - 1].firstNeuron else 0
    requires FilledFrom(ncl, snpl, nclTable, snplTable, ann.layers[L].lastNeuron, ann.totalNeurons)
    modifies ncl, snpl
    ensures FilledFrom(ncl, snpl, nclTable, snplTable, ann.layers[L].firstNeuron, ann.totalNeurons)
  {
    var layer := ann.layers[L];
    var u := layer.firstNeuron;
    while u != layer.lastNeuron
      invariant layer.firstNeuron <= u <= layer.lastNeuron
      invariant forall v :: 0 <= v < ncl.Length ==>
        ncl[v] == if layer.firstNeuron <= v < u || layer.lastNeuron <= v < ann.totalNeurons then nclTable[v] else 0
      invariant forall v :: 0 <= v < snpl.Length ==>
        snpl[v] == if layer.firstNeuron <= v < u || layer.lastNeuron <= v < ann.totalNeurons then snplTable[v] else 0
      decreases layer.lastNeuron - u
    {
      ncl[u] := layer.lastNeuron - layer.firstNeuron;
      if L > 0 {
        snpl[u] := ann.layers[L - 1].firstNeuron;
      }
      u := u + 1;
    }
  }

  /** The ncl/snpl loop of fptscwrite: two zeroed tables of M_nrns entries,
      filled layer by layer from the last to the first. */
  method NeuronTables(ann: Network) returns (ncl: array<nat>, snpl: array<nat>)
    requires ann.Valid()
    ensures fresh(ncl) && fresh(snpl)
    ensures ncl[..] == NeuronsInLayerTable(ann.layers[..], Padded(ann.totalNeurons, ann.maxWItem))
    ensures snpl[..] == PrevLayerStartTable(ann.layers[..], Padded(ann.totalNeurons, ann.maxWItem))
  {
    var mNrns := DeviceSize(ann.totalNeurons, ann.maxWItem);
    ncl := new nat[mNrns](_ => 0);
    snpl := new nat[mNrns](_ => 0);
    ghost var layers := ann.layers[..];
    ghost var total := ann.totalNeurons;
    ghost var nclTable := NeuronsInLayerTable(layers, mNrns);
    ghost var snplTable := PrevLayerStartTable(layers, mNrns);
    var L: nat := ann.layers.Length;
    ghost var covered: nat := total;
    while L != 0
      invariant L <= ann.layers.Length && covered <= total
      invariant covered == if L == ann.layers.Length then total else ann.layers[L].firstNeuron
      invariant FilledFrom(ncl, snpl, nclTable, snplTable, covered, total)
    {
      L := L - 1;
      assert ann.layers[L] == layers[L];
      assert layers[L].lastNeuron == covered by {
        if L + 1 < |layers| {
          assert Follows(layers, L + 1);
        }
      }
      NeuronTablesMeaning(layers, total, mNrns, L);
      if L > 0 {
        assert ann.layers[L - 1] == layers[L - 1];
      }
      FillLayerTables(ann, ncl, snpl, L, nclTable, snplTable);
      covered := ann.layers[L].firstNeuron;
    }
    NeuronTablesBeyond(layers, total, mNrns);
  }

  // ---------------------------------------------------------------------
  // Kernel work sizes (setclsizes).
  // ---------------------------------------------------------------------

  /** The first two dimensions of a launch's global and local work sizes. */
  datatype WorkSizes = WorkSizes(global0: nat, global1: nat, local0: nat, local1: nat)

  /** setclsizes: fewer items than MAXWITEM run as one group of that many; a
      multiple of MAXWITEM runs in groups of MAXWITEM; otherwise the global
      size becomes round(0.5 + n / W) * W with groups of W, and the second
      dimension is left as the caller had it. */
  function SetClSizes(prev: WorkSizes, iterations: nat, w: nat): (r: WorkSizes)
    requires w > 0
    ensures r.global0 == (if iterations < w then iterations else Padded(iterations, w))
    ensures iterations <= r.global0 < iterations + w
    ensures r.local0 <= w && (iterations > 0 ==> r.local0 > 0)
    ensures r.local0 > 0 ==> r.global0 % r.local0 == 0
    ensures iterations >= w && iterations % w != 0 ==> r.global1 == prev.global1 && r.local1 == prev.local1
  {
    PaddedBounds(iterations, w);
    if w > iterations then
      assert iterations > 0 ==> iterations % iterations == 0;
      WorkSizes(iterations, 1, iterations, 1)
    else if iterations % w == 0 then
      PaddedLeast(iterations, w, iterations);
      WorkSizes(iterations, 1, w, 1)
    else
      PaddedRound(iterations, w);
      prev.(global0 := RoundHalfUp(0.5 + iterations as real / w as real) * w, local0 := w)
  }

  /** n / W rounded up is one more than n / W rounded down when W does not divide n. */
  lemma CeilDivOfNonMultiple(n: nat, w: nat)
    requires w > 0 && n % w != 0
    ensures CeilDiv(n, w) == n / w + 1
  {
    var q, r := n / w, n % w;
    assert n == q * w + r;
    assert (q + 1) * w == q * w + w;
    DivUnique(n + w - 1, w, q + 1);
  }

  /** When W does not divide n, the source's round(0.5 + n / (float)W) * W is
      n padded up to the next multiple of W. */
  lemma PaddedRound(n: nat, w: nat)
    requires w > 0 && n % w != 0
    ensures RoundHalfUp(0.5 + n as real / w as real) * w == Padded(n, w)
  {
    var x := n as real / w as real;
    FloorOfRatio(n, w);
    assert (0.5 + (0.5 + x)).Floor == x.Floor + 1;
    CeilDivOfNonMultiple(n, w);
  }
}
