/**
 * The connections of a network the builders return join every pair of
 * neurons at most once: no neuron reads the same neuron in two of its slots.
 * This is what makes fann_set_weight_array of the list fann_get_connection_array
 * reports give every slot its own weight back.
 */
module Links {
  import opened FannTypes
  import opened Sizing
  import opened Layout
  import opened Wiring
  import opened Fann
  import opened Builders
  import opened Create
  import opened Introspect

  /** The layer that holds neuron m, among the first hi layers. */
  lemma {:induction false} NeuronLayer(counts: seq<nat>, m: nat, hi: nat) returns (L: nat)
    requires hi <= |counts| && m < Start(counts, hi)
    ensures L < hi && Start(counts, L) <= m < Start(counts, L + 1)
  {
    var prev := hi - 1;
    if m >= Start(counts, prev) {
      L := prev;
    } else {
      L := NeuronLayer(counts, m, prev);
    }
  }

  /** In a run wired with w slots per neuron, where slot j of every run reads
      p + j, the i-th run reads no neuron twice. */
  lemma {:induction false} RunApart(c: seq<NeuronRef>, base: nat, count: nat, w: nat, p: nat, i: nat)
    requires RunWired(c, base, count * w, w, p) && i < count
    ensures base + i * w + w <= |c|
    ensures forall a, b :: base + i * w <= a < b < base + i * w + w ==> From(c[a]) != From(c[b])
  {
    MulSucc(i, i + 1, w);
    MulLe(i + 1, count, w);
    forall a, b | base + i * w <= a < b < base + i * w + w
      ensures From(c[a]) != From(c[b])
    {
      UniformOffset(base, w, i, a);
      UniformOffset(base, w, i, b);
    }
  }

  /** Receiving neuron i of a fully wired layer reads no neuron twice. */
  lemma {:induction false} FullNeuronApart(c: seq<NeuronRef>, g: LayerGeom, w: nat, i: nat)
    requires g.numOut > 0 && g.n == w * g.numOut && RunWired(c, g.base, g.n, w, g.prev) && i < g.numOut
    ensures SlotStart(g, i + 1) <= |c|
    ensures forall a, b :: SlotStart(g, i) <= a < b < SlotStart(g, i + 1) ==> From(c[a]) != From(c[b])
  {
    BoundaryUniform(w, g.numOut, i);
    BoundaryUniform(w, g.numOut, i + 1);
    MulSucc(i, i + 1, w);
    assert g.n == g.numOut * w;
    RunApart(c, g.base, g.numOut, w, g.prev, i);
  }

  /** Receiving neuron i of a sparsely wired layer reads no neuron twice. */
  lemma {:induction false} SparseNeuronApart(c: seq<NeuronRef>, g: LayerGeom, i: nat)
    requires SparseLayerWired(c, g) && i < g.numOut
    ensures SlotStart(g, i + 1) <= |c|
    ensures forall a, b :: SlotStart(g, i) <= a < b < SlotStart(g, i + 1) ==> From(c[a]) != From(c[b])
  {
    var lo, hi := SlotStart(g, i), SlotStart(g, i + 1);
    assert NeuronWired(c, lo, hi, g.prev, g.numIn);
    forall a, b | lo <= a < b < hi
      ensures From(c[a]) != From(c[b])
    {
      assert Apart(c, a, b);
    }
  }

  /** In the neuron arena ns of a layered network as the builder leaves it,
      wired as c, neuron m reads no neuron twice. */
  lemma {:induction false} LayeredArenaApart(ns: seq<Neuron>, c: seq<NeuronRef>, sizes: seq<nat>, r: real, m: nat)
    requires SplitLayeredUpTo(ns, sizes, r, |sizes|) && WiredUpTo(c, sizes, r, |sizes|)
    requires m < Sum(LayeredCounts(sizes))
    ensures SourcesApart(ns, c, m)
  {
    var counts := LayeredCounts(sizes);
    var L := NeuronLayer(counts, m, |counts|);
    if L == 0 {
      assert ns[m] == ZeroNeuron;
    } else {
      var g := Geom(sizes, r, L);
      var i := m - g.start;
      assert NeuronsAt(ns, g);
      assert ns[m] == RunNeuron(g.base, g.n, g.numOut, i);
      assert LayerWired(c, sizes, r, L);
      if r >= 1.0 {
        TargetFull(g.numIn, g.numOut, r);
        if i < g.numOut {
          FullNeuronApart(c, g, FullWidth(g.numIn), i);
        } else {
          BoundaryEnds(g.n, g.numOut);
        }
      } else if i < g.numOut {
        SparseNeuronApart(c, g, i);
      } else {
        BoundaryEnds(g.n, g.numOut);
      }
    }
  }

  /** In the neuron arena ns of a shortcut network as the builder leaves it,
      wired as c, neuron m reads no neuron twice. */
  lemma {:induction false} ShortcutArenaApart(ns: seq<Neuron>, c: seq<NeuronRef>, sizes: seq<nat>, m: nat)
    requires SplitShortcutUpTo(ns, sizes, |sizes|) && ShortcutWiredUpTo(c, sizes, |sizes|)
    requires m < Sum(ShortcutCounts(sizes))
    ensures SourcesApart(ns, c, m)
  {
    var counts := ShortcutCounts(sizes);
    var L := NeuronLayer(counts, m, |counts|);
    if L == 0 {
      assert ns[m] == ZeroNeuron;
    } else {
      var base, w := ShortcutBase(sizes, L), ShortcutWidth(sizes, L);
      var i := m - Start(counts, L);
      assert ShortcutLayerAt(ns, sizes, L);
      assert ns[m] == ShortcutNeuron(base, w, i);
      assert ShortcutLayerWired(c, sizes, L);
      RunApart(c, base, sizes[L], w, 0, i);
      MulSucc(i, i + 1, w);
    }
  }

  /** fann_create_standard_array and fann_create_sparse_array never join a
      pair of neurons twice. */
  lemma {:induction false} LayeredDistinctLinks(ann: Network, sizes: seq<nat>, r: real)
    requires LayeredBuilt(ann, sizes, r)
    ensures ann.Valid() && DistinctLinks(NetworkConnections(ann))
  {
    LayeredValid(ann, sizes, r);
    var ns := ann.neurons[..ann.totalNeurons];
    ValidWalkLength(ann);
    forall m | 0 <= m < |ns|
      ensures SourcesApart(ns, ann.connections[..], m)
    {
      LayeredArenaApart(ann.neurons[..], ann.connections[..], sizes, r, m);
      assert ns[m] == ann.neurons[..][m];
    }
    DistinctLinksFromSources(ns, ann.connections[..], ann.weights[..]);
  }

  /** fann_create_shortcut_array never joins a pair of neurons twice. */
  lemma {:induction false} ShortcutDistinctLinks(ann: Network, sizes: seq<nat>)
    requires ShortcutBuilt(ann, sizes)
    ensures ann.Valid() && DistinctLinks(NetworkConnections(ann))
  {
    ShortcutValid(ann, sizes);
    var ns := ann.neurons[..ann.totalNeurons];
    ValidWalkLength(ann);
    forall m | 0 <= m < |ns|
      ensures SourcesApart(ns, ann.connections[..], m)
    {
      ShortcutArenaApart(ann.neurons[..], ann.connections[..], sizes, m);
      assert ns[m] == ann.neurons[..][m];
    }
    DistinctLinksFromSources(ns, ann.connections[..], ann.weights[..]);
  }

  /** On a network any builder returns, fann_set_weight_array with the list
      fann_get_connection_array reports copies that network's weights into
      any network of the same structure (weights ws'), slot for slot, and
      changes nothing on the network itself. */
  lemma {:induction false} BuiltRestoreWeights(ann: Network, sizes: seq<nat>, r: real, ws': seq<Weight>)
    requires LayeredBuilt(ann, sizes, r) || ShortcutBuilt(ann, sizes)
    requires |ws'| == ann.weights.Length
    ensures ann.Valid()
    ensures var ns := ann.neurons[..ann.totalNeurons];
            var l := NetworkConnections(ann);
            && ConsBefore(ns, |ns|) == ann.totalConnections
            && ApplyAll(ws', ann.connections[..], Targets(ns, |ns|), l)
               == ann.weights[..ann.totalConnections] + ws'[ann.totalConnections..]
            && ApplyAll(ann.weights[..], ann.connections[..], Targets(ns, |ns|), l) == ann.weights[..]
  {
    if LayeredBuilt(ann, sizes, r) {
      LayeredDistinctLinks(ann, sizes, r);
    } else {
      ShortcutDistinctLinks(ann, sizes);
    }
    var ns := ann.neurons[..ann.totalNeurons];
    var l := NetworkConnections(ann);
    ValidWalkLength(ann);
    RestoreWeights(ns, ann.connections[..], ann.weights[..], ws');
    assert l[..|l|] == l;
  }
}
