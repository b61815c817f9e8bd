/**
 * Filling the connection arena: which neuron every connection slot of a layer
 * reads from. Each method here is one wiring loop of a builder, working in
 * place on the connection and weight arenas; the neuron records it reads tell
 * it where each receiving neuron's slots are.
 *
 * Random choices are nondeterministic: a random weight is any weight, and a
 * random neuron drawn until it passes a test is any neuron that passes it,
 * once it is proved that one exists.
 */
module Wiring {
  import opened FannTypes
  import opened Sizing
  import opened Layout

  // ---------------------------------------------------------------------
  // Properties of connection slots.
  // ---------------------------------------------------------------------

  /** Slots a and b of c hold different sources. */
  ghost predicate Apart(c: seq<NeuronRef>, a: nat, b: nat)
  {
    a < |c| && b < |c| && c[a] != c[b]
  }

  /** The slots [lo, hi) of c hold pairwise different sources. */
  ghost predicate Distinct(c: seq<NeuronRef>, lo: nat, hi: nat)
  {
    hi <= |c| && forall a, b {:trigger Apart(c, a, b)} :: lo <= a < b < hi ==> Apart(c, a, b)
  }

  /** Every slot of [lo, hi) reads from a neuron of the feeding layer that
      starts at p and has numIn neurons plus its bias at p + numIn. */
  ghost predicate FromLayer(c: seq<NeuronRef>, lo: nat, hi: nat, p: nat, numIn: nat)
  {
    hi <= |c| && forall k :: lo <= k < hi ==> c[k].Ref? && p <= c[k].index <= p + numIn
  }

  /** Every non-bias neuron of the feeding layer feeds some slot of [lo, hi). */
  ghost predicate Covered(c: seq<NeuronRef>, lo: nat, hi: nat, p: nat, numIn: nat)
  {
    lo <= hi <= |c| && forall v :: p <= v < p + numIn ==> Ref(v) in c[lo..hi]
  }

  /** A sparsely wired neuron with slots [lo, hi): its first slot reads the
      feeding layer's bias, every slot reads from the feeding layer and no
      source appears twice. */
  ghost predicate NeuronWired(c: seq<NeuronRef>, lo: nat, hi: nat, p: nat, numIn: nat)
  {
    && lo < hi <= |c|
    && c[lo] == Ref(p + numIn)
    && FromLayer(c, lo, hi, p, numIn)
    && Distinct(c, lo, hi)
  }

  /** A sparsely wired layer: every receiving neuron is wired and every
      neuron of the feeding layer feeds one of them. */
  ghost predicate SparseLayerWired(c: seq<NeuronRef>, g: LayerGeom)
  {
    && g.numOut > 0
    && (forall i :: 0 <= i < g.numOut ==>
          NeuronWired(c, SlotStart(g, i), SlotStart(g, i + 1), g.prev, g.numIn))
    && Covered(c, g.base, g.base + g.n, g.prev, g.numIn)
  }

  /** The len slots from base form runs of w slots, and slot j of every run
      reads neuron p + j. */
  ghost predicate RunWired(c: seq<NeuronRef>, base: nat, len: nat, w: nat, p: nat)
  {
    base + len <= |c| && w > 0 && forall k :: base <= k < base + len ==> c[k] == Ref(p + (k - base) % w)
  }

  /** c and d differ at most in the slots [lo, hi). */
  ghost predicate SameOutside<T>(c: seq<T>, d: seq<T>, lo: nat, hi: nat)
  {
    |c| == |d| && forall k :: 0 <= k < |c| && !(lo <= k < hi) ==> c[k] == d[k]
  }

  /** Changes confined to [lo, mid) followed by changes confined to [mid, hi)
      are confined to [lo, hi). */
  lemma SameOutsideGrow<T>(c: seq<T>, d: seq<T>, e: seq<T>, lo: nat, mid: nat, hi: nat)
    requires lo <= mid <= hi && SameOutside(d, c, lo, mid) && SameOutside(e, d, mid, hi)
    ensures SameOutside(e, c, lo, hi)
  {
  }

  /** Wired runs lying before lo survive changes confined to [lo, hi). */
  lemma RunWiredFrame(c: seq<NeuronRef>, d: seq<NeuronRef>, base: nat, len: nat, w: nat, p: nat, lo: nat, hi: nat)
    requires RunWired(c, base, len, w, p) && SameOutside(d, c, lo, hi) && base + len <= lo
    ensures RunWired(d, base, len, w, p)
  {
  }

  lemma UniformOffset(base: nat, w: nat, i: nat, k: nat)
    requires w > 0 && base + i * w <= k < base + i * w + w
    ensures (k - base) % w == k - (base + i * w)
  {
    var a := k - base;
    DivUnique(a, w, i);
    assert a == (a / w) * w + a % w;
  }

  /** The neurons of a layer of a layered network, as its wiring reads them. */
  ghost predicate NeuronsAt(neurons: seq<Neuron>, g: LayerGeom)
  {
    && g.numOut > 0
    && g.start + g.numOut + 1 <= |neurons|
    && forall i {:trigger RunNeuron(g.base, g.n, g.numOut, i)} :: 0 <= i <= g.numOut ==>
         neurons[g.start + i] == RunNeuron(g.base, g.n, g.numOut, i)
  }

  // ---------------------------------------------------------------------
  // Fully connected layers.
  // ---------------------------------------------------------------------

  /** Wires one receiving neuron of a fully connected layer with slots
      [first, last): slot first + j reads neuron prev + j, so the last slot
      reads the feeding layer's bias. */
  method WireFullNeuron(conns: array<NeuronRef>, weights: array<Weight>, first: nat, last: nat, prev: nat)
    requires first < last <= conns.Length && last <= weights.Length
    modifies conns, weights
    ensures forall j :: first <= j < last ==> conns[j] == Ref(prev + (j - first))
    ensures SameOutside(conns[..], old(conns[..]), first, last)
    ensures SameOutside(weights[..], old(weights[..]), first, last)
  {
    var tmpCon := last - 1;
    var k := first;
    while k != tmpCon
      invariant first <= k <= tmpCon
      invariant forall j :: first <= j < k ==> conns[j] == Ref(prev + (j - first))
      invariant SameOutside(conns[..], old(conns[..]), first, k)
      invariant SameOutside(weights[..], old(weights[..]), first, k)
    {
      var weight: Weight :| true;
      weights[k] := weight;
      conns[k] := Ref(prev + (k - first));
      k := k + 1;
    }
    var biasWeight: Weight :| true;
    weights[tmpCon] := biasWeight;
    conns[tmpCon] := Ref(prev + (tmpCon - first));
  }

  /** One more wired neuron extends the wired runs by one run. */
  lemma RunWiredExtend(c: seq<NeuronRef>, d: seq<NeuronRef>, base: nat, i: nat, w: nat, p: nat, done: nat)
    requires done == i * w && RunWired(c, base, done, w, p) && base + done + w <= |c|
    requires SameOutside(d, c, base + done, base + done + w)
    requires forall j :: base + done <= j < base + done + w ==> d[j] == Ref(p + (j - (base + done)))
    ensures RunWired(d, base, done + w, w, p)
  {
    forall j | base + done <= j < base + done + w
      ensures d[j] == Ref(p + (j - base) % w)
    {
      UniformOffset(base, w, i, j);
    }
  }

  /** Receiving neuron i of a fully connected layer owns the w slots from
      base + i * w. */
  lemma FullNeuronAt(ns: seq<Neuron>, g: LayerGeom, w: nat, i: nat)
    requires NeuronsAt(ns, g) && w > 0 && g.n == w * g.numOut && i < g.numOut
    ensures ns[g.start + i].firstCon == g.base + i * w && ns[g.start + i].lastCon == g.base + i * w + w
    ensures i * w + w <= g.n && (i + 1) * w == i * w + w
  {
    assert ns[g.start + i] == RunNeuron(g.base, g.n, g.numOut, i);
    BoundaryUniform(w, g.numOut, i);
    BoundaryUniform(w, g.numOut, i + 1);
    assert (i + 1) * w == i * w + w;
    MulLe(i + 1, g.numOut, w);
  }

  /** One round of WireFullLayer: receiving neuron i, whose w slots follow
      the done = i * w slots already wired, gets wired. */
  method WireFullRound(neurons: array<Neuron>, conns: array<NeuronRef>, weights: array<Weight>,
                       g: LayerGeom, ghost w: nat, ghost c0: seq<NeuronRef>, ghost w0: seq<Weight>,
                       i: nat, ghost done: nat)
    returns (next: nat, ghost done': nat)
    requires NeuronsAt(neurons[..], g) && w > 0 && g.n == w * g.numOut && i < g.numOut && done == i * w
    requires g.base + g.n <= conns.Length && g.base + g.n <= weights.Length
    requires RunWired(conns[..], g.base, done, w, g.prev)
    requires SameOutside(conns[..], c0, g.base, g.base + done)
    requires SameOutside(weights[..], w0, g.base, g.base + done)
    modifies conns, weights
    ensures next == i + 1 && done' == next * w && done' <= g.n
    ensures RunWired(conns[..], g.base, done', w, g.prev)
    ensures SameOutside(conns[..], c0, g.base, g.base + done')
    ensures SameOutside(weights[..], w0, g.base, g.base + done')
  {
    FullNeuronAt(neurons[..], g, w, i);
    var neuron := neurons[g.start + i];
    ghost var before, weightsBefore := conns[..], weights[..];
    WireFullNeuron(conns, weights, neuron.firstCon, neuron.lastCon, g.prev);
    RunWiredExtend(before, conns[..], g.base, i, w, g.prev, done);
    SameOutsideGrow(c0, before, conns[..], g.base, g.base + done, g.base + done + w);
    SameOutsideGrow(w0, weightsBefore, weights[..], g.base, g.base + done, g.base + done + w);
    next, done' := i + 1, done + w;
    MulSucc(i, next, w);
  }

  /** Wires one layer of a fully connected layered network: every receiving
      neuron owns w slots, and its slot j reads neuron j of the feeding layer
      (the last slot the feeding layer's bias). */
  method WireFullLayer(neurons: array<Neuron>, conns: array<NeuronRef>, weights: array<Weight>,
                       g: LayerGeom, ghost w: nat)
    requires NeuronsAt(neurons[..], g) && w > 0 && g.n == w * g.numOut
    requires g.base + g.n <= conns.Length && g.base + g.n <= weights.Length
    modifies conns, weights
    ensures RunWired(conns[..], g.base, g.n, w, g.prev)
    ensures SameOutside(conns[..], old(conns[..]), g.base, g.base + g.n)
    ensures SameOutside(weights[..], old(weights[..]), g.base, g.base + g.n)
  {
    var i := 0;
    ghost var done := 0;
    while i != g.numOut
      invariant 0 <= i <= g.numOut && done == i * w && done <= g.n
      invariant RunWired(conns[..], g.base, done, w, g.prev)
      invariant SameOutside(conns[..], old(conns[..]), g.base, g.base + done)
      invariant SameOutside(weights[..], old(weights[..]), g.base, g.base + done)
    {
      i, done := WireFullRound(neurons, conns, weights, g, w, old(conns[..]), old(weights[..]), i, done);
    }
    assert done == g.n;
  }

  /** In a fully wired layer, slot j of receiving neuron i reads neuron j of
      the feeding layer; with a non-empty feeding layer the last slot reads its bias. */
  lemma FullLayerSlots(c: seq<NeuronRef>, g: LayerGeom, w: nat, i: nat, j: nat)
    requires RunWired(c, g.base, g.n, w, g.prev) && g.n == w * g.numOut && i < g.numOut && j < w
    ensures g.base + i * w + j < g.base + g.n
    ensures c[g.base + i * w + j] == Ref(g.prev + j)
  {
    MulLe(i + 1, g.numOut, w);
    assert (i + 1) * w == i * w + w;
    UniformOffset(g.base, w, i, g.base + i * w + j);
  }

  // ---------------------------------------------------------------------
  // Shortcut layers.
  // ---------------------------------------------------------------------

  /** Layer j when layer i holds counts[i] neurons, back to back from neuron 0. */
  function LayerOf(counts: seq<nat>, j: nat): (l: Layer)
    requires j < |counts|
    ensures l.Count() == counts[j] && l.lastNeuron == Start(counts, j + 1)
  {
    Layer(Start(counts, j), Start(counts, j) + counts[j])
  }

  /** The layers before layer L lie back to back from neuron 0, as counts says. */
  ghost predicate LayersBefore(layers: array<Layer>, counts: seq<nat>, L: nat)
    reads layers
  {
    L < layers.Length && L <= |counts|
    && forall j {:trigger LayerOf(counts, j)} :: 0 <= j < L ==> layers[j] == LayerOf(counts, j)
  }

  /** One round of WireShortcutNeuron: the counts[L2] neurons of layer L2,
      which follow the Start(counts, L2) neurons already copied, are copied
      to the next slots. */
  method WireSourceLayer(layers: array<Layer>, conns: array<NeuronRef>, weights: array<Weight>,
                         ghost counts: seq<nat>, ghost c0: seq<NeuronRef>, ghost w0: seq<Weight>,
                         first: nat, L2: nat, slot: nat)
    returns (next: nat, slot': nat)
    requires L2 < |counts| && L2 < layers.Length
    requires layers[L2] == LayerOf(counts, L2)
    requires slot == first + Start(counts, L2)
    requires slot + counts[L2] <= conns.Length && slot + counts[L2] <= weights.Length
    requires forall j :: first <= j < slot ==> conns[j] == Ref(j - first)
    requires SameOutside(conns[..], c0, first, slot)
    requires SameOutside(weights[..], w0, first, slot)
    modifies conns, weights
    ensures next == L2 + 1 && slot' == first + Start(counts, next)
    ensures forall j :: first <= j < slot' ==> conns[j] == Ref(j - first)
    ensures SameOutside(conns[..], c0, first, slot')
    ensures SameOutside(weights[..], w0, first, slot')
  {
    next := L2 + 1;
    StartStep(counts, L2, next);
    slot' := slot;
    var u := layers[L2].firstNeuron;
    var hi := layers[L2].lastNeuron;
    while u != hi
      invariant Start(counts, L2) <= u <= hi
      invariant slot' == first + u
      invariant forall j :: first <= j < slot' ==> conns[j] == Ref(j - first)
      invariant SameOutside(conns[..], c0, first, slot')
      invariant SameOutside(weights[..], w0, first, slot')
    {
      var weight: Weight :| true;
      weights[slot'] := weight;
      conns[slot'] := Ref(u);
      slot' := slot' + 1;
      u := u + 1;
    }
  }

  /** Wires one neuron of layer L of a shortcut network whose slots start at
      first: walking the layers before L and their neurons in order, slot
      first + j reads the j-th neuron met. */
  method WireShortcutNeuron(layers: array<Layer>, conns: array<NeuronRef>, weights: array<Weight>,
                            ghost counts: seq<nat>, L: nat, first: nat)
    requires LayersBefore(layers, counts, L)
    requires first + Start(counts, L) <= conns.Length && first + Start(counts, L) <= weights.Length
    modifies conns, weights
    ensures forall j :: first <= j < first + Start(counts, L) ==> conns[j] == Ref(j - first)
    ensures SameOutside(conns[..], old(conns[..]), first, first + Start(counts, L))
    ensures SameOutside(weights[..], old(weights[..]), first, first + Start(counts, L))
  {
    var slot := first;
    var L2 := 0;
    while L2 != L
      invariant 0 <= L2 <= L && LayersBefore(layers, counts, L)
      invariant slot == first + Start(counts, L2) && Start(counts, L2) <= Start(counts, L)
      invariant forall j :: first <= j < slot ==> conns[j] == Ref(j - first)
      invariant SameOutside(conns[..], old(conns[..]), first, slot)
      invariant SameOutside(weights[..], old(weights[..]), first, slot)
    {
      assert layers[L2] == LayerOf(counts, L2);
      StartMonotone(counts, L2, L);
      L2, slot := WireSourceLayer(layers, conns, weights, counts, old(conns[..]), old(weights[..]), first, L2, slot);
    }
  }

  /** One round of WireShortcutLayer: neuron v = s + i of the layer, whose
      w slots follow the done = i * w slots already wired, gets wired. */
  method WireShortcutRound(layers: array<Layer>, neurons: array<Neuron>, conns: array<NeuronRef>,
                           weights: array<Weight>, ghost counts: seq<nat>, L: nat,
                           s: nat, ghost count: nat, ghost base: nat, ghost w: nat, ghost n: nat,
                           ghost c0: seq<NeuronRef>, ghost w0: seq<Weight>, v: nat, ghost done: nat)
    returns (next: nat, ghost done': nat)
    requires LayersBefore(layers, counts, L) && w == Start(counts, L) && w > 0 && n == count * w
    requires s <= v < s + count <= neurons.Length && done == (v - s) * w
    requires forall i :: 0 <= i < count ==> neurons[s + i] == ShortcutNeuron(base, w, i)
    requires base + n <= conns.Length && base + n <= weights.Length
    requires RunWired(conns[..], base, done, w, 0)
    requires SameOutside(conns[..], c0, base, base + done)
    requires SameOutside(weights[..], w0, base, base + done)
    modifies conns, weights
    ensures next == v + 1 && done' == done + w && done' == (next - s) * w && done' <= n
    ensures RunWired(conns[..], base, done', w, 0)
    ensures SameOutside(conns[..], c0, base, base + done')
    ensures SameOutside(weights[..], w0, base, base + done')
  {
    ghost var i := v - s;
    assert s + i == v;
    assert neurons[s + i] == ShortcutNeuron(base, w, i);
    MulSucc(i, i + 1, w);
    MulLe(i + 1, count, w);
    var first := neurons[v].firstCon;
    assert first == base + done;
    ghost var before, weightsBefore := conns[..], weights[..];
    WireShortcutNeuron(layers, conns, weights, counts, L, first);
    RunWiredExtend(before, conns[..], base, i, w, 0, done);
    SameOutsideGrow(c0, before, conns[..], base, base + done, base + done + w);
    SameOutsideGrow(w0, weightsBefore, weights[..], base, base + done, base + done + w);
    next, done' := v + 1, done + w;
    MulSucc(i, next - s, w);
  }

  /** Wires layer L of a shortcut network: each of its count neurons (from
      neuron s on, each owning w slots from base on) reads, slot by slot, every
      neuron of the layers before it in arena order; n = count * w slots in all. */
  method WireShortcutLayer(layers: array<Layer>, neurons: array<Neuron>, conns: array<NeuronRef>,
                           weights: array<Weight>, ghost counts: seq<nat>, L: nat,
                           s: nat, ghost count: nat, ghost base: nat, ghost w: nat, ghost n: nat)
    requires LayersBefore(layers, counts, L) && w == Start(counts, L) && w > 0 && n == count * w
    requires layers[L] == Layer(s, s + count)
    requires s + count <= neurons.Length
    requires forall i :: 0 <= i < count ==> neurons[s + i] == ShortcutNeuron(base, w, i)
    requires base + n <= conns.Length && base + n <= weights.Length
    modifies conns, weights
    ensures RunWired(conns[..], base, n, w, 0)
    ensures SameOutside(conns[..], old(conns[..]), base, base + n)
    ensures SameOutside(weights[..], old(weights[..]), base, base + n)
  {
    var v := s;
    ghost var done: nat := 0;
    while v != layers[L].lastNeuron
      invariant s <= v <= s + count && done == (v - s) * w && done <= n
      invariant LayersBefore(layers, counts, L) && layers[L] == Layer(s, s + count)
      invariant forall i :: 0 <= i < count ==> neurons[s + i] == ShortcutNeuron(base, w, i)
      invariant RunWired(conns[..], base, done, w, 0)
      invariant SameOutside(conns[..], old(conns[..]), base, base + done)
      invariant SameOutside(weights[..], old(weights[..]), base, base + done)
    {
      v, done := WireShortcutRound(layers, neurons, conns, weights, counts, L, s, count, base, w, n,
                                   old(conns[..]), old(weights[..]), v, done);
    }
    assert v - s == count;
  }

  /** In a shortcut layer, slot j of neuron i reads neuron j of the arena, i.e.
      the j-th neuron of the layers before it. */
  lemma ShortcutSlots(c: seq<NeuronRef>, base: nat, count: nat, w: nat, i: nat, j: nat)
    requires RunWired(c, base, count * w, w, 0) && i < count && j < w
    ensures base + i * w + j < base + count * w
    ensures c[base + i * w + j] == Ref(j)
  {
    MulLe(i + 1, count, w);
    assert (i + 1) * w == i * w + w;
    UniformOffset(base, w, i, base + i * w + j);
  }
}
