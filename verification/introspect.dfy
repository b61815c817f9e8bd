/**
 * Reading and writing a network's connections from outside:
 * fann_get_connection_array lists every connection as (source, destination,
 * weight), fann_set_weight changes the weight of every connection between
 * two neurons and fann_set_weight_array does so for a list of triples.
 *
 * All three walk the network the same way: layer by layer, neuron by
 * neuron, and for every slot of a neuron's range they advance a running
 * counter `source_index` that starts at 0, and they read slot
 * `source_index` rather than the range's own slot. The destination they
 * report is a second counter that advances once per neuron. The model keeps
 * that walk as written: `Targets` is the destination counter of every slot
 * the walk visits, and the walk reads slot k at its k-th step. The lemmas
 * show that this reports each slot with the neuron that owns it exactly when
 * the connection ranges are chained from slot 0, which every builder
 * guarantees.
 */
module Introspect {
  import opened FannTypes
  import opened Layout
  import opened Fann

  // ---------------------------------------------------------------------
  // The walk.
  // ---------------------------------------------------------------------

  /** The source a slot names, as an index from the arena base. An unfilled
      slot has no source; the walk never meets one in a built network. */
  function From(c: NeuronRef): nat
  {
    if c.Ref? then c.index else 0
  }

  /** n copies of the destination counter d. */
  function Repeat(d: nat, n: nat): (r: seq<nat>)
    ensures |r| == n && forall k :: 0 <= k < n ==> r[k] == d
  {
    seq(n, _ => d)
  }

  /** The destination counter at every step of the walk over the first j
      neurons: neuron i contributes one step per slot of its range. */
  function Targets(ns: seq<Neuron>, j: nat): (r: seq<nat>)
    requires j <= |ns|
    ensures |r| == ConsBefore(ns, j)
    ensures forall k :: 0 <= k < |r| ==> r[k] < j
  {
    if j == 0 then [] else Targets(ns, j - 1) + Repeat(j - 1, Span(ns[j - 1]))
  }

  /** The entries reported by a walk whose k-th step had destination t[k]:
      step k reads slot k of the connection and weight arenas. */
  function Listing(cs: seq<NeuronRef>, ws: seq<Weight>, t: seq<nat>): (r: seq<Connection>)
    requires |t| <= |cs| && |t| <= |ws|
    ensures |r| == |t|
  {
    seq(|t|, k requires 0 <= k < |t| => Connection(From(cs[k]), t[k], ws[k]))
  }

  /** What fann_get_connection_array writes for neurons ns, connection arena
      cs and weight arena ws. */
  function ConnectionList(ns: seq<Neuron>, cs: seq<NeuronRef>, ws: seq<Weight>): seq<Connection>
    requires ConsBefore(ns, |ns|) <= |cs| && ConsBefore(ns, |ns|) <= |ws|
  {
    Listing(cs, ws, Targets(ns, |ns|))
  }

  lemma ListingSnoc(cs: seq<NeuronRef>, ws: seq<Weight>, t: seq<nat>, d: nat)
    requires |t| < |cs| && |t| < |ws|
    ensures Listing(cs, ws, t + [d]) == Listing(cs, ws, t) + [Connection(From(cs[|t|]), d, ws[|t|])]
  {
  }

  lemma RepeatSnoc(t: seq<nat>, d: nat, n: nat)
    ensures t + Repeat(d, n + 1) == (t + Repeat(d, n)) + [d]
  {
  }

  lemma {:induction false} ConsBeforeMonotone(ns: seq<Neuron>, a: nat, b: nat)
    requires a <= b <= |ns|
    ensures ConsBefore(ns, a) <= ConsBefore(ns, b)
  {
    if a < b {
      ConsBeforeMonotone(ns, a, b - 1);
    }
  }

  // ---------------------------------------------------------------------
  // What the walk means.
  // ---------------------------------------------------------------------

  /** Neuron m owns slot k. */
  ghost predicate Owns(ns: seq<Neuron>, m: nat, k: nat)
  {
    m < |ns| && ns[m].firstCon <= k < ns[m].lastCon
  }

  /** Over the first j neurons of a layout chained from slot 0, the walk
      reports slot k with neuron m exactly when m owns slot k. */
  lemma {:induction false} TargetsOwn(ns: seq<Neuron>, j: nat)
    requires ChainedFrom(ns, 0) && j <= |ns|
    ensures forall k, m :: 0 <= k < ConsBefore(ns, j) && 0 <= m < j ==> (Targets(ns, j)[k] == m <==> Owns(ns, m, k))
  {
    ChainedConsBefore(ns, 0);
    if j > 0 {
      var prev := j - 1;
      TargetsOwn(ns, prev);
      var t := Targets(ns, j);
      assert t == Targets(ns, prev) + Repeat(prev, Span(ns[prev]));
      ChainedPrefixSum(ns, 0, j);
      forall k, m | 0 <= k < ConsBefore(ns, j) && 0 <= m < j
        ensures t[k] == m <==> Owns(ns, m, k)
      {
        if m < prev {
          ChainedPrefixSum(ns, 0, m + 1);
          ConsBeforeMonotone(ns, m + 1, prev);
        }
        if k < ConsBefore(ns, prev) {
          assert t[k] == Targets(ns, prev)[k];
        } else {
          assert t[k] == prev;
        }
      }
    }
  }

  /** fann_get_connection_array on a layout chained from slot 0: one entry per
      slot in slot order, each naming the slot's source, the neuron that owns
      the slot, and the slot's weight. */
  lemma ConnectionListSlots(ns: seq<Neuron>, cs: seq<NeuronRef>, ws: seq<Weight>)
    requires ChainedFrom(ns, 0) && EndCon(ns, 0) <= |cs| && EndCon(ns, 0) <= |ws|
    ensures ConsBefore(ns, |ns|) == EndCon(ns, 0)
    ensures |ConnectionList(ns, cs, ws)| == EndCon(ns, 0)
    ensures forall k :: 0 <= k < EndCon(ns, 0) ==>
              var e := ConnectionList(ns, cs, ws)[k];
              e.fromNeuron == From(cs[k]) && e.weight == ws[k] && Owns(ns, e.toNeuron, k)
  {
    ChainedConsBefore(ns, 0);
    TargetsOwn(ns, |ns|);
  }

  /** The running counter is only right because the layout is chained: with
      one neuron owning slot 1 alone, the walk reports slot 0 for it. */
  lemma RunningIndexNeedsChain()
    ensures var ns := [ZeroNeuron.(firstCon := 1, lastCon := 2)];
            Targets(ns, 1) == [0] && !Owns(ns, 0, 0)
  {
    var ns := [ZeroNeuron.(firstCon := 1, lastCon := 2)];
    assert Targets(ns, 1) == Targets(ns, 0) + Repeat(0, 1);
  }

  /** In a valid network the walk visits exactly totalConnections slots. */
  lemma ValidWalkLength(ann: Network)
    requires ann.Valid()
    ensures ConsBefore(ann.neurons[..ann.totalNeurons], ann.totalNeurons) == ann.totalConnections
  {
    var ns := ann.neurons[..ann.totalNeurons];
    assert |ns| == ann.totalNeurons;
    ChainedConsBefore(ns, 0);
  }

  /** The connection list of a valid network. */
  ghost function NetworkConnections(ann: Network): seq<Connection>
    requires ann.Valid()
    reads ann, ann.layers, ann.neurons, ann.connections, ann.weights, ann.output
  {
    ValidWalkLength(ann);
    ConnectionList(ann.neurons[..ann.totalNeurons], ann.connections[..], ann.weights[..])
  }

  /** In a valid network the list has totalConnections entries, one per slot
      in slot order, each naming a neuron of the network as its source, the
      neuron that owns the slot as its destination, and the slot's weight. */
  lemma ValidConnectionList(ann: Network)
    requires ann.Valid()
    ensures var l := NetworkConnections(ann);
            && |l| == ann.totalConnections
            && forall k :: 0 <= k < |l| ==>
                 && l[k].fromNeuron == ann.connections[k].index < ann.totalNeurons
                 && l[k].weight == ann.weights[k]
                 && Owns(ann.neurons[..ann.totalNeurons], l[k].toNeuron, k)
  {
    var ns := ann.neurons[..ann.totalNeurons];
    assert |ns| == ann.totalNeurons;
    ConnectionListSlots(ns, ann.connections[..], ann.weights[..]);
  }

  // ---------------------------------------------------------------------
  // fann_get_connection_array.
  // ---------------------------------------------------------------------

  /** The frame a walk over a valid network works in. */
  ghost predicate Walkable(ns: seq<Neuron>, cs: array<NeuronRef>, ws: array<Weight>)
    reads cs, ws
  {
    ConsBefore(ns, |ns|) <= cs.Length == ws.Length
  }

  /** One neuron: its slots [first, last) are reported with destination d,
      reading the arenas at the running counter src. */
  method ListNeuron(cs: array<NeuronRef>, ws: array<Weight>, nr: Neuron, d: nat,
                    src: nat, r: seq<Connection>, ghost t: seq<nat>)
    returns (src': nat, r': seq<Connection>)
    requires src == |t| && src + Span(nr) <= cs.Length == ws.Length
    requires r == Listing(cs[..], ws[..], t)
    ensures src' == src + Span(nr)
    ensures r' == Listing(cs[..], ws[..], t + Repeat(d, Span(nr)))
  {
    src', r' := src, r;
    var index := nr.firstCon;
    while index < nr.lastCon
      invariant nr.firstCon <= index && index - nr.firstCon <= Span(nr)
      invariant src' == src + (index - nr.firstCon)
      invariant r' == Listing(cs[..], ws[..], t + Repeat(d, index - nr.firstCon))
    {
      RepeatSnoc(t, d, index - nr.firstCon);
      ListingSnoc(cs[..], ws[..], t + Repeat(d, index - nr.firstCon), d);
      r' := r' + [Connection(From(cs[src']), d, ws[src'])];
      src' := src' + 1;
      index := index + 1;
    }
  }

  /** One step of the neuron walk, stated on the neuron sequence. */
  lemma TargetsStep(ns: seq<Neuron>, n: nat, next: nat)
    requires n < |ns| && next == n + 1
    ensures Targets(ns, next) == Targets(ns, n) + Repeat(n, Span(ns[n]))
    ensures ConsBefore(ns, next) == ConsBefore(ns, n) + Span(ns[n])
  {
  }

  /** One layer: neurons [first, last) in turn, the destination counter
      advancing with the neuron. */
  method ListLayer(neurons: array<Neuron>, total: nat, cs: array<NeuronRef>, ws: array<Weight>,
                   first: nat, last: nat, src: nat, r: seq<Connection>)
    returns (src': nat, r': seq<Connection>)
    requires total <= neurons.Length && first <= last <= total
    requires Walkable(neurons[..total], cs, ws)
    requires src == ConsBefore(neurons[..total], first) <= cs.Length
    requires r == Listing(cs[..], ws[..], Targets(neurons[..total], first))
    ensures src' == ConsBefore(neurons[..total], last) <= cs.Length
    ensures r' == Listing(cs[..], ws[..], Targets(neurons[..total], last))
  {
    ghost var ns := neurons[..total];
    src', r' := src, r;
    var n := first;
    while n != last
      invariant first <= n <= last
      invariant src' == ConsBefore(ns, n) <= cs.Length
      invariant r' == Listing(cs[..], ws[..], Targets(ns, n))
    {
      var nr := neurons[n];
      assert nr == ns[n];
      TargetsStep(ns, n, n + 1);
      ConsBeforeMonotone(ns, n + 1, |ns|);
      src', r' := ListNeuron(cs, ws, nr, n, src', r', Targets(ns, n));
      n := n + 1;
    }
  }

  /** fann_get_connection_array: the connection list of a valid network. */
  method GetConnectionArray(ann: Network) returns (r: seq<Connection>)
    requires ann.Valid()
    ensures r == NetworkConnections(ann)
  {
    ghost var ns := ann.neurons[..ann.totalNeurons];
    ValidWalkLength(ann);
    ghost var layers := ann.layers[..];
    var src := 0;
    r := [];
    var numLayers := ann.layers.Length;
    var L := 0;
    while L != numLayers
      invariant numLayers == |layers| && 0 <= L <= numLayers && LayerEnd(layers, L) <= |ns|
      invariant src == ConsBefore(ns, LayerEnd(layers, L)) <= ann.connections.Length
      invariant r == Listing(ann.connections[..], ann.weights[..], Targets(ns, LayerEnd(layers, L)))
    {
      var layer := ann.layers[L];
      PlacedBelow(layers, ann.totalNeurons, L);
      assert layer.firstNeuron == LayerEnd(layers, L);
      assert layer.lastNeuron == LayerEnd(layers, L + 1);
      src, r := ListLayer(ann.neurons, ann.totalNeurons, ann.connections, ann.weights,
                          layer.firstNeuron, layer.lastNeuron, src, r);
      L := L + 1;
    }
    assert LayerEnd(layers, L) == ann.totalNeurons == |ns|;
  }

  lemma {:induction false} PlacedBelow(layers: seq<Layer>, total: nat, L: nat)
    requires PlacedFrom(layers, total) && L < |layers|
    ensures layers[L].lastNeuron <= total
    ensures layers[L].firstNeuron == LayerEnd(layers, L)
    decreases |layers| - L
  {
    if L + 1 < |layers| {
      PlacedBelow(layers, total, L + 1);
      assert Follows(layers, L + 1);
    }
    if L > 0 {
      assert Follows(layers, L);
    }
  }

  /** Where the first L layers end: the neuron the walk of layer L starts at. */
  function LayerEnd(layers: seq<Layer>, L: nat): nat
    requires L <= |layers|
  {
    if L == 0 then 0 else layers[L - 1].lastNeuron
  }

  // ---------------------------------------------------------------------
  // fann_set_weight and fann_set_weight_array.
  // ---------------------------------------------------------------------

  /** The destination counter at every step of the walk over a valid network. */
  ghost function WalkTargets(ann: Network): (r: seq<nat>)
    requires ann.Valid()
    reads ann, ann.layers, ann.neurons, ann.connections, ann.weights, ann.output
    ensures |r| == ann.totalConnections
  {
    ValidWalkLength(ann);
    Targets(ann.neurons[..ann.totalNeurons], ann.totalNeurons)
  }

  /** The weights after a walk that writes w at every step whose slot names
      source `from` and whose destination counter is `to`. */
  function Reweighted(ws: seq<Weight>, cs: seq<NeuronRef>, t: seq<nat>, from: nat, to: nat, w: Weight): (r: seq<Weight>)
    requires |t| <= |cs| && |t| <= |ws|
    ensures |r| == |ws|
  {
    seq(|ws|, k requires 0 <= k < |ws| => if k < |t| && From(cs[k]) == from && t[k] == to then w else ws[k])
  }

  lemma ReweightedSnoc(ws: seq<Weight>, cs: seq<NeuronRef>, t: seq<nat>, d: nat, from: nat, to: nat, w: Weight)
    requires |t| < |cs| && |t| < |ws|
    ensures Reweighted(ws, cs, t + [d], from, to, w)
         == Reweighted(ws, cs, t, from, to, w)[|t| := if From(cs[|t|]) == from && d == to then w else ws[|t|]]
  {
  }

  /** One neuron of fann_set_weight: its slots, read at the running counter. */
  method SetNeuron(cs: array<NeuronRef>, ws: array<Weight>, nr: Neuron, d: nat, src: nat,
                   from: nat, to: nat, w: Weight, ghost ws0: seq<Weight>, ghost t: seq<nat>)
    returns (src': nat)
    requires src == |t| && src + Span(nr) <= cs.Length == ws.Length == |ws0|
    requires ws[..] == Reweighted(ws0, cs[..], t, from, to, w)
    modifies ws
    ensures src' == src + Span(nr)
    ensures ws[..] == Reweighted(ws0, cs[..], t + Repeat(d, Span(nr)), from, to, w)
  {
    src' := src;
    var index := nr.firstCon;
    while index < nr.lastCon
      invariant nr.firstCon <= index && index - nr.firstCon <= Span(nr)
      invariant src' == src + (index - nr.firstCon)
      invariant ws[..] == Reweighted(ws0, cs[..], t + Repeat(d, index - nr.firstCon), from, to, w)
    {
      RepeatSnoc(t, d, index - nr.firstCon);
      ReweightedSnoc(ws0, cs[..], t + Repeat(d, index - nr.firstCon), d, from, to, w);
      if From(cs[src']) == from && d == to {
        ws[src'] := w;
      }
      src' := src' + 1;
      index := index + 1;
    }
  }

  /** One layer of fann_set_weight: neurons [first, last) in turn. */
  method SetLayer(neurons: array<Neuron>, total: nat, cs: array<NeuronRef>, ws: array<Weight>,
                  first: nat, last: nat, src: nat, from: nat, to: nat, w: Weight, ghost ws0: seq<Weight>)
    returns (src': nat)
    requires total <= neurons.Length && first <= last <= total && |ws0| == ws.Length
    requires Walkable(neurons[..total], cs, ws)
    requires src == ConsBefore(neurons[..total], first) <= cs.Length
    requires ws[..] == Reweighted(ws0, cs[..], Targets(neurons[..total], first), from, to, w)
    modifies ws
    ensures src' == ConsBefore(neurons[..total], last) <= cs.Length
    ensures ws[..] == Reweighted(ws0, cs[..], Targets(neurons[..total], last), from, to, w)
  {
    ghost var ns := neurons[..total];
    src' := src;
    var n := first;
    while n != last
      invariant first <= n <= last
      invariant src' == ConsBefore(ns, n) <= cs.Length
      invariant ws[..] == Reweighted(ws0, cs[..], Targets(ns, n), from, to, w)
    {
      var nr := neurons[n];
      assert nr == ns[n];
      TargetsStep(ns, n, n + 1);
      ConsBeforeMonotone(ns, n + 1, |ns|);
      src' := SetNeuron(cs, ws, nr, n, src', from, to, w, ws0, Targets(ns, n));
      n := n + 1;
    }
  }

  /** fann_set_weight: every connection the walk reports from `from` to `to`
      gets weight w; nothing else changes. */
  method SetWeight(ann: Network, from: nat, to: nat, w: Weight)
    requires ann.Valid()
    modifies ann.weights
    ensures ann.Valid() && WalkTargets(ann) == old(WalkTargets(ann))
    ensures ann.weights[..] == Reweighted(old(ann.weights[..]), ann.connections[..], WalkTargets(ann), from, to, w)
  {
    ghost var ns := ann.neurons[..ann.totalNeurons];
    ghost var ws0 := ann.weights[..];
    ValidWalkLength(ann);
    ghost var layers := ann.layers[..];
    var src := 0;
    var numLayers := ann.layers.Length;
    var L := 0;
    while L != numLayers
      invariant numLayers == |layers| && 0 <= L <= numLayers && LayerEnd(layers, L) <= |ns|
      invariant src == ConsBefore(ns, LayerEnd(layers, L)) <= ann.connections.Length
      invariant ann.weights[..] == Reweighted(ws0, ann.connections[..], Targets(ns, LayerEnd(layers, L)), from, to, w)
    {
      var layer := ann.layers[L];
      PlacedBelow(layers, ann.totalNeurons, L);
      assert layer.firstNeuron == LayerEnd(layers, L);
      assert layer.lastNeuron == LayerEnd(layers, L + 1);
      src := SetLayer(ann.neurons, ann.totalNeurons, ann.connections, ann.weights,
                      layer.firstNeuron, layer.lastNeuron, src, from, to, w, ws0);
      L := L + 1;
    }
    assert LayerEnd(layers, L) == ann.totalNeurons == |ns|;
  }

  /** The weights after setting every triple of `list` in turn. */
  function ApplyAll(ws: seq<Weight>, cs: seq<NeuronRef>, t: seq<nat>, list: seq<Connection>): (r: seq<Weight>)
    requires |t| <= |cs| && |t| <= |ws|
    ensures |r| == |ws|
  {
    if |list| == 0 then ws
    else
      var c := list[|list| - 1];
      Reweighted(ApplyAll(ws, cs, t, list[..|list| - 1]), cs, t, c.fromNeuron, c.toNeuron, c.weight)
  }

  /** fann_set_weight_array: fann_set_weight for the first num triples, in order. */
  method SetWeightArray(ann: Network, list: seq<Connection>, num: nat)
    requires ann.Valid() && num <= |list|
    modifies ann.weights
    ensures ann.Valid() && WalkTargets(ann) == old(WalkTargets(ann))
    ensures ann.weights[..] == ApplyAll(old(ann.weights[..]), ann.connections[..], WalkTargets(ann), list[..num])
  {
    ValidWalkLength(ann);
    var index := 0;
    while index < num
      invariant index <= num && ann.Valid()
      invariant WalkTargets(ann) == old(WalkTargets(ann))
      invariant ann.weights[..] == ApplyAll(old(ann.weights[..]), ann.connections[..], WalkTargets(ann), list[..index])
    {
      var c := list[index];
      assert list[..index + 1][..index] == list[..index];
      SetWeight(ann, c.fromNeuron, c.toNeuron, c.weight);
      index := index + 1;
    }
  }

  // ---------------------------------------------------------------------
  // What setting a weight means.
  // ---------------------------------------------------------------------

  /** On a layout chained from slot 0, the walk of fann_set_weight(from, to, w)
      writes w into exactly the slots that neuron `to` owns and whose source
      is `from`. */
  lemma ReweightedOwners(ns: seq<Neuron>, cs: seq<NeuronRef>, ws: seq<Weight>, from: nat, to: nat, w: Weight)
    requires ChainedFrom(ns, 0) && EndCon(ns, 0) <= |cs| == |ws|
    ensures ConsBefore(ns, |ns|) == EndCon(ns, 0)
    ensures forall k :: 0 <= k < |ws| ==>
              Reweighted(ws, cs, Targets(ns, |ns|), from, to, w)[k]
                == if Owns(ns, to, k) && From(cs[k]) == from then w else ws[k]
  {
    ChainedConsBefore(ns, 0);
    var t := Targets(ns, |ns|);
    var r := Reweighted(ws, cs, t, from, to, w);
    forall k | 0 <= k < |ws|
      ensures r[k] == if Owns(ns, to, k) && From(cs[k]) == from then w else ws[k]
    {
      assert r[k] == if k < |t| && From(cs[k]) == from && t[k] == to then w else ws[k];
      if k < |t| {
        if to < |ns| {
          TargetOwner(ns, k, to);
        }
      } else if to < |ns| {
        ChainedPrefixSum(ns, 0, to + 1);
        ConsBeforeMonotone(ns, to + 1, |ns|);
      }
    }
  }

  /** One instance of TargetsOwn over the whole layout. */
  lemma TargetOwner(ns: seq<Neuron>, k: nat, m: nat)
    requires ChainedFrom(ns, 0) && k < ConsBefore(ns, |ns|) && m < |ns|
    ensures Targets(ns, |ns|)[k] == m <==> Owns(ns, m, k)
  {
    TargetsOwn(ns, |ns|);
  }

  /** In a valid network fann_set_weight(from, to, w) writes w into exactly the
      slots that neuron `to` owns and that read neuron `from`, and is a no-op
      when there is no such slot. */
  lemma SetWeightTargets(ann: Network, from: nat, to: nat, w: Weight)
    requires ann.Valid()
    ensures var ns := ann.neurons[..ann.totalNeurons];
            var r := Reweighted(ann.weights[..], ann.connections[..], WalkTargets(ann), from, to, w);
            && (forall k :: 0 <= k < |r| ==>
                  r[k] == if Owns(ns, to, k) && ann.connections[k] == Ref(from) then w else ann.weights[k])
            && ((forall k :: 0 <= k < |r| ==> !(Owns(ns, to, k) && ann.connections[k] == Ref(from))) ==> r == ann.weights[..])
  {
    var ns := ann.neurons[..ann.totalNeurons];
    assert |ns| == ann.totalNeurons;
    var cs, ws := ann.connections[..], ann.weights[..];
    ReweightedOwners(ns, cs, ws, from, to, w);
    var r := Reweighted(ws, cs, WalkTargets(ann), from, to, w);
    forall k | 0 <= k < |r|
      ensures r[k] == if Owns(ns, to, k) && cs[k] == Ref(from) then w else ws[k]
    {
      if Owns(ns, to, k) {
        ChainedPrefixSum(ns, 0, to + 1);
        ConsBeforeMonotone(ns, to + 1, |ns|);
        assert k < ann.totalConnections;
      }
    }
  }

  /** fann_get_connection_array after fann_set_weight: the same connections,
      with weight w on those from `from` to `to` and the old weight elsewhere. */
  lemma GetAfterSet(ns: seq<Neuron>, cs: seq<NeuronRef>, ws: seq<Weight>, from: nat, to: nat, w: Weight)
    requires ConsBefore(ns, |ns|) <= |cs| && ConsBefore(ns, |ns|) <= |ws|
    ensures var before := ConnectionList(ns, cs, ws);
            var after := ConnectionList(ns, cs, Reweighted(ws, cs, Targets(ns, |ns|), from, to, w));
            && |after| == |before|
            && forall k :: 0 <= k < |before| ==>
                 after[k] == if before[k].fromNeuron == from && before[k].toNeuron == to
                             then before[k].(weight := w) else before[k]
  {
  }

  /** No two entries of a connection list join the same pair of neurons. */
  ghost predicate DistinctLinks(list: seq<Connection>)
  {
    forall i, j :: 0 <= i < j < |list| ==>
      list[i].fromNeuron != list[j].fromNeuron || list[i].toNeuron != list[j].toNeuron
  }

  /** The slots of neuron m read pairwise different neurons. */
  ghost predicate SourcesApart(ns: seq<Neuron>, cs: seq<NeuronRef>, m: nat)
  {
    && m < |ns| && ns[m].lastCon <= |cs|
    && forall a, b :: ns[m].firstCon <= a < b < ns[m].lastCon ==> From(cs[a]) != From(cs[b])
  }

  lemma {:induction false} SlotsBelowEnd(ns: seq<Neuron>, m: nat)
    requires ChainedFrom(ns, 0) && m < |ns|
    ensures ns[m].lastCon <= ConsBefore(ns, |ns|)
  {
    ChainedPrefixSum(ns, 0, m + 1);
    ConsBeforeMonotone(ns, m + 1, |ns|);
  }

  /** On a layout chained from slot 0, a connection list joins no pair of
      neurons twice exactly when no neuron reads the same neuron in two of
      its slots: entries with the same destination come from slots of the
      same owner. */
  lemma {:induction false} DistinctLinksFromSources(ns: seq<Neuron>, cs: seq<NeuronRef>, ws: seq<Weight>)
    requires ChainedFrom(ns, 0) && ConsBefore(ns, |ns|) <= |cs| && ConsBefore(ns, |ns|) <= |ws|
    ensures DistinctLinks(ConnectionList(ns, cs, ws)) <==> forall m :: 0 <= m < |ns| ==> SourcesApart(ns, cs, m)
  {
    if DistinctLinks(ConnectionList(ns, cs, ws)) {
      forall m | 0 <= m < |ns|
        ensures SourcesApart(ns, cs, m)
      {
        LinksApartSources(ns, cs, ws, m);
      }
    } else {
      SourcesApartLinks(ns, cs, ws);
    }
  }

  lemma {:induction false} LinksApartSources(ns: seq<Neuron>, cs: seq<NeuronRef>, ws: seq<Weight>, m: nat)
    requires ChainedFrom(ns, 0) && ConsBefore(ns, |ns|) <= |cs| && ConsBefore(ns, |ns|) <= |ws|
    requires DistinctLinks(ConnectionList(ns, cs, ws)) && m < |ns|
    ensures SourcesApart(ns, cs, m)
  {
    ChainedConsBefore(ns, 0);
    ConnectionListSlots(ns, cs, ws);
    var l := ConnectionList(ns, cs, ws);
    SlotsBelowEnd(ns, m);
    forall a, b | ns[m].firstCon <= a < b < ns[m].lastCon
      ensures From(cs[a]) != From(cs[b])
    {
      OwnerUnique(ns, a, m, l[a].toNeuron);
      OwnerUnique(ns, b, m, l[b].toNeuron);
    }
  }

  lemma {:induction false} SourcesApartLinks(ns: seq<Neuron>, cs: seq<NeuronRef>, ws: seq<Weight>)
    requires ChainedFrom(ns, 0) && ConsBefore(ns, |ns|) <= |cs| && ConsBefore(ns, |ns|) <= |ws|
    requires !DistinctLinks(ConnectionList(ns, cs, ws))
    ensures exists m :: 0 <= m < |ns| && !SourcesApart(ns, cs, m)
  {
    ChainedConsBefore(ns, 0);
    ConnectionListSlots(ns, cs, ws);
    var l := ConnectionList(ns, cs, ws);
    var i, j :| 0 <= i < j < |l| && l[i].fromNeuron == l[j].fromNeuron && l[i].toNeuron == l[j].toNeuron;
    var m := l[i].toNeuron;
    assert Owns(ns, m, i) && Owns(ns, m, j);
    assert !SourcesApart(ns, cs, m);
  }

  /** In a chained layout at most one neuron owns a slot. */
  lemma {:induction false} OwnerUnique(ns: seq<Neuron>, k: nat, m: nat, m': nat)
    requires ChainedFrom(ns, 0) && Owns(ns, m, k) && Owns(ns, m', k)
    ensures m == m'
  {
    if m < m' {
      ChainedPrefixSum(ns, 0, m + 1);
      ChainedConsBefore(ns, 0);
      ConsBeforeMonotone(ns, m + 1, m');
    } else if m' < m {
      ChainedPrefixSum(ns, 0, m' + 1);
      ChainedConsBefore(ns, 0);
      ConsBeforeMonotone(ns, m' + 1, m);
    }
  }

  /** Setting the first n entries of a network's own connection list, taken
      from weights ws, onto any weights ws' restores ws on the first n slots. */
  lemma {:induction false} ApplyListPrefix(ns: seq<Neuron>, cs: seq<NeuronRef>, ws: seq<Weight>, ws': seq<Weight>, n: nat)
    requires ConsBefore(ns, |ns|) <= |cs| && ConsBefore(ns, |ns|) <= |ws| == |ws'|
    requires DistinctLinks(ConnectionList(ns, cs, ws)) && n <= ConsBefore(ns, |ns|)
    ensures ApplyAll(ws', cs, Targets(ns, |ns|), ConnectionList(ns, cs, ws)[..n])
         == seq(|ws'|, k requires 0 <= k < |ws'| => if k < n then ws[k] else ws'[k])
  {
    var t := Targets(ns, |ns|);
    var l := ConnectionList(ns, cs, ws);
    if n > 0 {
      var prev := n - 1;
      ApplyListPrefix(ns, cs, ws, ws', prev);
      assert l[..n][..prev] == l[..prev];
      var c := l[..n][prev];
      assert c == Connection(From(cs[prev]), t[prev], ws[prev]);
      forall k | 0 <= k < |t| && k != prev
        ensures From(cs[k]) != c.fromNeuron || t[k] != c.toNeuron
      {
        assert l[k] == Connection(From(cs[k]), t[k], ws[k]);
        if k < prev {
          assert l[k].fromNeuron != l[prev].fromNeuron || l[k].toNeuron != l[prev].toNeuron;
        } else {
          assert l[prev].fromNeuron != l[k].fromNeuron || l[prev].toNeuron != l[k].toNeuron;
        }
      }
    }
  }

  /** fann_set_weight_array with the whole list fann_get_connection_array
      reported for weights ws copies those weights into any network of the
      same structure, provided no two connections join the same neurons; on
      the network itself it changes nothing. */
  lemma RestoreWeights(ns: seq<Neuron>, cs: seq<NeuronRef>, ws: seq<Weight>, ws': seq<Weight>)
    requires ConsBefore(ns, |ns|) <= |cs| && ConsBefore(ns, |ns|) <= |ws| == |ws'|
    requires DistinctLinks(ConnectionList(ns, cs, ws))
    ensures var l := ConnectionList(ns, cs, ws);
            var c := ConsBefore(ns, |ns|);
            ApplyAll(ws', cs, Targets(ns, |ns|), l[..|l|]) == ws[..c] + ws'[c..]
    ensures ApplyAll(ws, cs, Targets(ns, |ns|), ConnectionList(ns, cs, ws)) == ws
  {
    var c := ConsBefore(ns, |ns|);
    var l := ConnectionList(ns, cs, ws);
    ApplyListPrefix(ns, cs, ws, ws', c);
    ApplyListPrefix(ns, cs, ws, ws, c);
    assert l[..|l|] == l;
  }
}
