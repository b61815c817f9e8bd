/**
 * The three wiring passes of a sparsely connected layer (connection rate
 * below 1). Pass 1 gives every receiving neuron the feeding layer's bias as
 * its first input; pass 2 hands every other feeding neuron to a receiving
 * neuron that still has an empty slot, so that every feeding neuron is used;
 * pass 3 fills the remaining empty slots with feeding neurons the receiving
 * neuron does not read yet.
 *
 * Each pass is a loop over receiving (or feeding) neurons; the step from one
 * iteration to the next is a lemma over the slot sequence, so that the loops
 * themselves only carry one progress predicate. The passes see the slot
 * shares of the receiving neurons through a sequence st of boundaries
 * (receiving neuron j owns the slots [st[j], st[j + 1])); SlotStartsShares
 * proves that the shares the builder hands out form such a sequence.
 */
module SparseWiring {
  import opened FannTypes
  import opened Sizing
  import opened Layout
  import opened Wiring

  /** A layer the sparse wiring can fill: both layers non-empty, and between
      one slot per neuron on either side (plus the biases) and full connection. */
  ghost predicate SparseGeom(g: LayerGeom)
  {
    g.numIn >= 1 && g.numOut >= 1 && g.numIn + g.numOut <= g.n <= (g.numIn + 1) * g.numOut
  }

  /** Share j of st holds between 1 and numIn + 1 slots. */
  ghost predicate ShareStep(st: seq<nat>, j: nat, numIn: nat)
  {
    j + 1 < |st| && st[j] < st[j + 1] <= st[j] + numIn + 1
  }

  /** st cuts the n slots of the layer, at least one per neuron on either
      side, into numOut consecutive shares of between 1 and numIn + 1 slots. */
  ghost predicate Shares(g: LayerGeom, st: seq<nat>)
  {
    && g.numOut >= 1 && g.numIn + g.numOut <= g.n
    && |st| == g.numOut + 1 && st[0] == g.base && st[g.numOut] == g.base + g.n
    && forall j {:trigger ShareStep(st, j, g.numIn)} :: 0 <= j < g.numOut ==> ShareStep(st, j, g.numIn)
  }

  /** Boundaries only grow. */
  lemma {:induction false} SharesMonotone(g: LayerGeom, st: seq<nat>, i: nat, j: nat)
    requires Shares(g, st) && i < j <= g.numOut
    ensures st[i] < st[j]
    decreases j - i
  {
    assert ShareStep(st, i, g.numIn);
    if i + 1 < j {
      SharesMonotone(g, st, i + 1, j);
    }
  }

  /** The share boundaries the builder hands out. */
  function SlotStarts(g: LayerGeom): (st: seq<nat>)
    requires g.numOut > 0
    ensures |st| == g.numOut + 1
  {
    seq(g.numOut + 1, j requires 0 <= j <= g.numOut => SlotStart(g, j))
  }

  lemma SlotStartsShares(g: LayerGeom)
    requires SparseGeom(g)
    ensures Shares(g, SlotStarts(g))
  {
    var st := SlotStarts(g);
    BoundaryEnds(g.n, g.numOut);
    forall j | 0 <= j < g.numOut
      ensures ShareStep(st, j, g.numIn)
    {
      BoundaryStepBounds(g.n, g.numOut, g.numIn, j);
    }
  }

  /** Receiving neuron u of the layer owns the share [st[u - start], st[u - start + 1]). */
  ghost predicate NeuronSlots(ns: seq<Neuron>, g: LayerGeom, st: seq<nat>)
  {
    && |st| == g.numOut + 1 && g.start + g.numOut <= |ns|
    && forall u :: g.start <= u < g.start + g.numOut ==>
         ns[u].firstCon == st[u - g.start] && ns[u].lastCon == st[u - g.start + 1]
  }

  lemma NeuronsAtSlots(ns: seq<Neuron>, g: LayerGeom)
    requires NeuronsAt(ns, g)
    ensures NeuronSlots(ns, g, SlotStarts(g))
  {
    forall u | g.start <= u < g.start + g.numOut
      ensures ns[u].firstCon == SlotStarts(g)[u - g.start] && ns[u].lastCon == SlotStarts(g)[u - g.start + 1]
    {
      var i := u - g.start;
      assert ns[g.start + i] == RunNeuron(g.base, g.n, g.numOut, i);
    }
  }

  lemma NeuronAt(ns: seq<Neuron>, g: LayerGeom, st: seq<nat>, i: nat)
    requires NeuronSlots(ns, g, st) && i < g.numOut
    ensures ns[g.start + i].firstCon == st[i] && ns[g.start + i].lastCon == st[i + 1]
  {
    var u := g.start + i;
    assert u - g.start == i;
  }

  /** A layer whose every share is wired, and which uses every feeding neuron,
      is a sparsely wired layer. */
  lemma SharesWired(c: seq<NeuronRef>, g: LayerGeom, st: seq<nat>)
    requires WiredBefore(c, g, st, g.numOut) && st == SlotStarts(g)
    requires Covered(c, g.base, g.base + g.n, g.prev, g.numIn)
    ensures SparseLayerWired(c, g)
  {
    forall i | 0 <= i < g.numOut
      ensures NeuronWired(c, SlotStart(g, i), SlotStart(g, i + 1), g.prev, g.numIn)
    {
      assert WiredAt(c, g, st, i);
      assert st[i] == SlotStart(g, i) && st[i + 1] == SlotStart(g, i + 1);
    }
  }

  /** A sparsely wired layer lying before lo survives changes confined to [lo, hi). */
  lemma SparseLayerWiredFrame(c: seq<NeuronRef>, d: seq<NeuronRef>, g: LayerGeom, lo: nat, hi: nat)
    requires SparseGeom(g) && SparseLayerWired(c, g) && SameOutside(d, c, lo, hi) && g.base + g.n <= lo
    ensures SparseLayerWired(d, g)
  {
    var st := SlotStarts(g);
    SlotStartsShares(g);
    forall i | 0 <= i < g.numOut
      ensures NeuronWired(d, SlotStart(g, i), SlotStart(g, i + 1), g.prev, g.numIn)
    {
      SegmentBounds(g, st, i);
      assert st[i] == SlotStart(g, i) && st[i + 1] == SlotStart(g, i + 1);
      WiredFrame(c, d, SlotStart(g, i), SlotStart(g, i + 1), g.prev, g.numIn);
    }
    assert d[g.base..g.base + g.n] == c[g.base..g.base + g.n];
  }

  /** Every receiving neuron owns between 1 and numIn + 1 slots inside the layer's slots. */
  lemma SegmentBounds(g: LayerGeom, st: seq<nat>, i: nat)
    requires Shares(g, st) && i < g.numOut
    ensures g.base <= st[i] < st[i + 1] <= g.base + g.n
    ensures st[i + 1] <= st[i] + g.numIn + 1
  {
    if i > 0 {
      SharesMonotone(g, st, 0, i);
    }
    if i + 1 < g.numOut {
      SharesMonotone(g, st, i + 1, g.numOut);
    }
    assert ShareStep(st, i, g.numIn);
  }

  /** The slots of different receiving neurons do not overlap. */
  lemma SegmentsApart(g: LayerGeom, st: seq<nat>, i: nat, j: nat)
    requires Shares(g, st) && i < j < g.numOut
    ensures st[i + 1] <= st[j]
  {
    if i + 1 < j {
      SharesMonotone(g, st, i + 1, j);
    }
  }

  /** The slots [lo, hi) of c are all empty. */
  ghost predicate AllNull(c: seq<NeuronRef>, lo: nat, hi: nat)
  {
    hi <= |c| && forall k :: lo <= k < hi ==> c[k] == Null
  }

  /** A receiving neuron part way through the wiring: its first slot reads the
      feeding layer's bias p + numIn, the next f - 1 slots read distinct
      neurons from [p, top), and the rest are still empty. */
  ghost predicate Partial(c: seq<NeuronRef>, lo: nat, hi: nat, f: nat, p: nat, numIn: nat, top: nat)
  {
    && lo < hi <= |c| && 1 <= f <= hi - lo && top <= p + numIn
    && c[lo] == Ref(p + numIn)
    && (forall k :: lo < k < lo + f ==> c[k].Ref? && p <= c[k].index < top)
    && (forall k :: lo + f <= k < hi ==> c[k] == Null)
    && Distinct(c, lo, lo + f)
  }

  /** Receiving neuron j, with slots [st[j], st[j + 1]), is still empty. */
  ghost predicate EmptyAt(c: seq<NeuronRef>, st: seq<nat>, j: nat)
  {
    j + 1 < |st| && AllNull(c, st[j], st[j + 1])
  }

  /** Receiving neuron j reads the feeding layer's bias and nothing else yet. */
  ghost predicate BiasAt(c: seq<NeuronRef>, g: LayerGeom, st: seq<nat>, j: nat)
  {
    j + 1 < |st| && Partial(c, st[j], st[j + 1], 1, g.prev, g.numIn, g.prev)
  }

  /** Receiving neuron j has fill[j] filled slots, reading neurons below top. */
  ghost predicate PartialAt(c: seq<NeuronRef>, g: LayerGeom, st: seq<nat>, fill: seq<nat>, j: nat, top: nat)
  {
    j + 1 < |st| && j < |fill| && Partial(c, st[j], st[j + 1], fill[j], g.prev, g.numIn, top)
  }

  /** Receiving neuron j as pass 2 leaves it. */
  ghost predicate SpreadAt(c: seq<NeuronRef>, g: LayerGeom, st: seq<nat>, fill: seq<nat>, j: nat)
  {
    PartialAt(c, g, st, fill, j, g.prev + g.numIn)
  }

  /** Receiving neuron j is wired. */
  ghost predicate WiredAt(c: seq<NeuronRef>, g: LayerGeom, st: seq<nat>, j: nat)
  {
    j + 1 < |st| && NeuronWired(c, st[j], st[j + 1], g.prev, g.numIn)
  }

  lemma PartialFrame(c: seq<NeuronRef>, d: seq<NeuronRef>, lo: nat, hi: nat, f: nat, p: nat, numIn: nat,
                     top: nat, top': nat)
    requires Partial(c, lo, hi, f, p, numIn, top) && |d| == |c| && top <= top' <= p + numIn
    requires forall k :: lo <= k < hi ==> d[k] == c[k]
    ensures Partial(d, lo, hi, f, p, numIn, top')
  {
    forall a, b | lo <= a < b < lo + f
      ensures Apart(d, a, b)
    {
      assert Apart(c, a, b);
    }
  }

  lemma WiredFrame(c: seq<NeuronRef>, d: seq<NeuronRef>, lo: nat, hi: nat, p: nat, numIn: nat)
    requires NeuronWired(c, lo, hi, p, numIn) && |d| == |c|
    requires forall k :: lo <= k < hi ==> d[k] == c[k]
    ensures NeuronWired(d, lo, hi, p, numIn)
  {
    forall a, b | lo <= a < b < hi
      ensures Apart(d, a, b)
    {
      assert Apart(c, a, b);
    }
  }

  /** d keeps every filled slot of c in [lo, hi). */
  ghost predicate KeepsFilled(c: seq<NeuronRef>, d: seq<NeuronRef>, lo: nat, hi: nat)
  {
    hi <= |c| && |d| == |c| && forall k :: lo <= k < hi && c[k] != Null ==> d[k] == c[k]
  }

  /** Coverage survives any change that keeps every filled slot. */
  lemma CoveredKeep(c: seq<NeuronRef>, d: seq<NeuronRef>, lo: nat, hi: nat, p: nat, numIn: nat)
    requires Covered(c, lo, hi, p, numIn) && KeepsFilled(c, d, lo, hi)
    ensures Covered(d, lo, hi, p, numIn)
  {
    forall v | p <= v < p + numIn
      ensures Ref(v) in d[lo..hi]
    {
      assert Ref(v) in c[lo..hi];
      var k :| lo <= k < hi && c[k] == Ref(v);
      assert d[lo..hi][k - lo] == Ref(v);
    }
  }

  // ---------------------------------------------------------------------
  // Pass 1: the bias input.
  // ---------------------------------------------------------------------

  /** The first i receiving neurons have their bias input, the others are untouched. */
  ghost predicate BiasProgress(c: seq<NeuronRef>, g: LayerGeom, st: seq<nat>, i: nat)
  {
    && Shares(g, st) && i <= g.numOut && g.base + g.n <= |c|
    && (forall j :: 0 <= j < i ==> BiasAt(c, g, st, j))
    && (forall j :: i <= j < g.numOut ==> EmptyAt(c, st, j))
  }

  lemma BiasStart(c: seq<NeuronRef>, g: LayerGeom, st: seq<nat>)
    requires Shares(g, st) && AllNull(c, g.base, g.base + g.n)
    ensures BiasProgress(c, g, st, 0)
  {
    forall j | 0 <= j < g.numOut
      ensures EmptyAt(c, st, j)
    {
      SegmentBounds(g, st, j);
    }
  }

  lemma BiasAdvance(c: seq<NeuronRef>, g: LayerGeom, st: seq<nat>, i: nat, d: seq<NeuronRef>)
    requires BiasProgress(c, g, st, i) && i < g.numOut
    requires st[i] < |c| && d == c[st[i] := Ref(g.prev + g.numIn)]
    ensures BiasProgress(d, g, st, i + 1)
  {
    SegmentBounds(g, st, i);
    assert EmptyAt(c, st, i);
    assert BiasAt(d, g, st, i);
    forall j | 0 <= j < i
      ensures BiasAt(d, g, st, j)
    {
      SegmentsApart(g, st, j, i);
      assert BiasAt(c, g, st, j);
      PartialFrame(c, d, st[j], st[j + 1], 1, g.prev, g.numIn, g.prev, g.prev);
    }
    forall j | i < j < g.numOut
      ensures EmptyAt(d, st, j)
    {
      SegmentsApart(g, st, i, j);
      SegmentBounds(g, st, j);
      assert EmptyAt(c, st, j);
    }
  }

  /** Pass 1: the first slot of every receiving neuron reads the feeding
      layer's bias neuron. */
  method SparseBias(neurons: array<Neuron>, conns: array<NeuronRef>, weights: array<Weight>,
                    g: LayerGeom, ghost st: seq<nat>, biasNeuron: nat)
    requires NeuronSlots(neurons[..], g, st) && Shares(g, st) && biasNeuron == g.prev + g.numIn
    requires AllNull(conns[..], g.base, g.base + g.n) && g.base + g.n <= weights.Length
    modifies conns, weights
    ensures BiasProgress(conns[..], g, st, g.numOut)
    ensures SameOutside(conns[..], old(conns[..]), g.base, g.base + g.n)
    ensures SameOutside(weights[..], old(weights[..]), g.base, g.base + g.n)
  {
    BiasStart(conns[..], g, st);
    var i := 0;
    while i != g.numOut
      invariant 0 <= i <= g.numOut && NeuronSlots(neurons[..], g, st)
      invariant BiasProgress(conns[..], g, st, i)
      invariant SameOutside(conns[..], old(conns[..]), g.base, g.base + g.n)
      invariant SameOutside(weights[..], old(weights[..]), g.base, g.base + g.n)
    {
      NeuronAt(neurons[..], g, st, i);
      SegmentBounds(g, st, i);
      var first := neurons[g.start + i].firstCon;
      BiasAdvance(conns[..], g, st, i, conns[..][first := Ref(biasNeuron)]);
      conns[first] := Ref(biasNeuron);
      var weight: Weight :| true;
      weights[first] := weight;
      i := i + 1;
    }
  }

  // ---------------------------------------------------------------------
  // Pass 2: every feeding neuron gets a receiving neuron.
  // ---------------------------------------------------------------------

  /** The slots [lo, hi) of c are all filled. */
  ghost predicate Filled(c: seq<NeuronRef>, lo: nat, hi: nat)
  {
    hi <= |c| && forall k :: lo <= k < hi ==> c[k] != Null
  }

  /** Pass 2, inner loop: put src into the first empty slot of [lo, hi), which
      is the slot after the f filled ones. */
  method PlaceInput(conns: array<NeuronRef>, weights: array<Weight>, lo: nat, hi: nat,
                    src: NeuronRef, ghost f: nat)
    requires lo + f < hi <= conns.Length && hi <= weights.Length
    requires Filled(conns[..], lo, lo + f) && conns[..][lo + f] == Null
    modifies conns, weights
    ensures conns[..] == old(conns[..])[lo + f := src]
    ensures SameOutside(weights[..], old(weights[..]), lo + f, lo + f + 1)
  {
    var k := lo;
    while conns[k] != Null
      invariant lo <= k <= lo + f
      decreases lo + f - k
    {
      k := k + 1;
    }
    conns[k] := src;
    var weight: Weight :| true;
    weights[k] := weight;
  }

  /** The fill vector after receiving neuron r gets one more input. */
  function Bump(fill: seq<nat>, r: nat): seq<nat>
    requires r < |fill|
  {
    fill[r := fill[r] + 1]
  }

  /** The total of a fill vector grows by one when one entry does. */
  lemma {:induction false} StartBump(fill: seq<nat>, r: nat, m: nat)
    requires r < |fill| && m <= |fill|
    ensures Start(Bump(fill, r), m) == Start(fill, m) + (if r < m then 1 else 0)
  {
    if m > 0 {
      StartBump(fill, r, m - 1);
    }
  }

  lemma {:induction false} StartOnes(k: nat, m: nat)
    requires m <= k
    ensures Start(seq(k, _ => 1), m) == m
  {
    if m > 0 {
      StartOnes(k, m - 1);
    }
  }

  /** If each of the first m neurons' fill reached its share, their fills add
      up to at least the shares. */
  lemma {:induction false} FillCovers(fill: seq<nat>, st: seq<nat>, m: nat)
    requires |st| == |fill| + 1 && m <= |fill|
    requires forall i :: 0 <= i < m ==> fill[i] + st[i] >= st[i + 1]
    ensures Start(fill, m) + st[0] >= st[m]
  {
    if m > 0 {
      FillCovers(fill, st, m - 1);
    }
  }

  /** Pigeonhole for pass 2: with fewer slots filled than the layer owns, some
      receiving neuron still has an empty slot. */
  lemma RoomSomewhere(fill: seq<nat>, st: seq<nat>)
    requires |st| == |fill| + 1 && Sum(fill) + st[0] < st[|fill|]
    ensures exists i :: 0 <= i < |fill| && fill[i] + st[i] < st[i + 1]
  {
    if forall i :: 0 <= i < |fill| ==> fill[i] + st[i] >= st[i + 1] {
      FillCovers(fill, st, |fill|);
      assert false;
    }
  }

  /** Receiving neuron j has fill[j] filled slots, all reading neurons from [p, top). */
  ghost predicate AllPartial(c: seq<NeuronRef>, g: LayerGeom, st: seq<nat>, fill: seq<nat>, top: nat)
  {
    && Shares(g, st) && |fill| == g.numOut
    && forall j :: 0 <= j < g.numOut ==> PartialAt(c, g, st, fill, j, top)
  }

  /** slotOf[x] is a slot of the layer that reads feeding neuron p + x. */
  ghost predicate SlotsRecorded(c: seq<NeuronRef>, g: LayerGeom, slotOf: seq<nat>)
  {
    forall x :: 0 <= x < |slotOf| ==>
      g.base <= slotOf[x] < g.base + g.n && slotOf[x] < |c| && c[slotOf[x]] == Ref(g.prev + x)
  }

  /** Pass 2 after the feeding neurons before v are placed. */
  ghost predicate SpreadProgress(c: seq<NeuronRef>, g: LayerGeom, st: seq<nat>, v: nat, fill: seq<nat>,
                                 slotOf: seq<nat>)
  {
    && Shares(g, st) && g.base + g.n <= |c|
    && g.prev <= v <= g.prev + g.numIn
    && |fill| == g.numOut && Sum(fill) == g.numOut + (v - g.prev)
    && AllPartial(c, g, st, fill, v)
    && |slotOf| == v - g.prev
    && SlotsRecorded(c, g, slotOf)
  }

  /** The receiving neuron that gets v stays partially wired, one slot further. */
  lemma PlaceOwn(c: seq<NeuronRef>, lo: nat, hi: nat, f: nat, p: nat, numIn: nat, v: nat)
    requires Partial(c, lo, hi, f, p, numIn, v) && lo + f < hi && p <= v < p + numIn
    ensures Partial(c[lo + f := Ref(v)], lo, hi, f + 1, p, numIn, v + 1)
  {
    var d := c[lo + f := Ref(v)];
    forall a, b | lo <= a < b < lo + f + 1
      ensures Apart(d, a, b)
    {
      if b < lo + f {
        assert Apart(c, a, b);
      }
    }
  }

  /** Placing v after the fill[r] filled slots of receiving neuron r keeps
      every receiving neuron partially wired. */
  lemma PlaceAll(c: seq<NeuronRef>, g: LayerGeom, st: seq<nat>, v: nat, fill: seq<nat>, r: nat, k: nat)
    requires AllPartial(c, g, st, fill, v) && g.prev <= v < g.prev + g.numIn
    requires r < g.numOut && k == st[r] + fill[r] && k < st[r + 1] <= |c|
    ensures AllPartial(c[k := Ref(v)], g, st, Bump(fill, r), v + 1)
  {
    var d := c[k := Ref(v)];
    var fill' := Bump(fill, r);
    var top := v + 1;
    forall j | 0 <= j < g.numOut
      ensures PartialAt(d, g, st, fill', j, top)
    {
      assert PartialAt(c, g, st, fill, j, v);
      if j == r {
        PlaceOwn(c, st[r], st[r + 1], fill[r], g.prev, g.numIn, v);
      } else {
        if j < r {
          SegmentsApart(g, st, j, r);
        } else {
          SegmentsApart(g, st, r, j);
        }
        PartialFrame(c, d, st[j], st[j + 1], fill[j], g.prev, g.numIn, v, v + 1);
      }
    }
  }

  /** Writing v into an empty slot k keeps the record of where earlier feeding
      neurons went, and adds k as v's slot. */
  lemma RecordSlot(c: seq<NeuronRef>, g: LayerGeom, slotOf: seq<nat>, k: nat, v: nat)
    requires SlotsRecorded(c, g, slotOf) && g.base <= k < g.base + g.n && k < |c| && c[k] == Null
    requires v == g.prev + |slotOf|
    ensures SlotsRecorded(c[k := Ref(v)], g, slotOf + [k])
  {
    var slotOf' := slotOf + [k];
    forall x | 0 <= x < |slotOf'|
      ensures g.base <= slotOf'[x] < g.base + g.n && slotOf'[x] < |c| && c[k := Ref(v)][slotOf'[x]] == Ref(g.prev + x)
    {
      if x < |slotOf| {
        assert c[slotOf[x]] == Ref(g.prev + x);
      }
    }
  }

  /** Placing v in the first empty slot k of receiving neuron r keeps pass 2 on track. */
  lemma SpreadAdvance(c: seq<NeuronRef>, g: LayerGeom, st: seq<nat>, v: nat, fill: seq<nat>, slotOf: seq<nat>,
                      r: nat, k: nat)
    requires SpreadProgress(c, g, st, v, fill, slotOf) && v < g.prev + g.numIn
    requires r < g.numOut && k == st[r] + fill[r] && k < st[r + 1]
    ensures k < |c|
    ensures SpreadProgress(c[k := Ref(v)], g, st, v + 1, Bump(fill, r), slotOf + [k])
  {
    SegmentBounds(g, st, r);
    StartBump(fill, r, g.numOut);
    assert PartialAt(c, g, st, fill, r, v);
    PlaceAll(c, g, st, v, fill, r, k);
    RecordSlot(c, g, slotOf, k, v);
  }

  /** The last slot of receiving neuron i is still empty. */
  ghost predicate RoomLeft(c: seq<NeuronRef>, st: seq<nat>, i: nat)
  {
    i + 1 < |st| && 1 <= st[i + 1] <= |c| && c[st[i + 1] - 1] == Null
  }

  /** While feeding neurons are left, some receiving neuron's last slot is empty. */
  lemma RoomExists(c: seq<NeuronRef>, g: LayerGeom, st: seq<nat>, v: nat, fill: seq<nat>, slotOf: seq<nat>)
    requires SpreadProgress(c, g, st, v, fill, slotOf) && v < g.prev + g.numIn
    ensures exists i :: 0 <= i < g.numOut && RoomLeft(c, st, i)
  {
    RoomSomewhere(fill, st);
    var i :| 0 <= i < g.numOut && fill[i] + st[i] < st[i + 1];
    SegmentBounds(g, st, i);
    assert PartialAt(c, g, st, fill, i, v);
    assert RoomLeft(c, st, i);
  }

  /** The receiving neuron with room, found through its neuron record. */
  lemma RoomNeuron(ns: seq<Neuron>, c: seq<NeuronRef>, g: LayerGeom, st: seq<nat>, i: nat)
    requires NeuronSlots(ns, g, st) && i < g.numOut && RoomLeft(c, st, i)
    ensures exists u :: g.start <= u < g.start + g.numOut && 1 <= ns[u].lastCon <= |c|
                          && c[ns[u].lastCon - 1] == Null
  {
    NeuronAt(ns, g, st, i);
  }

  /** When pass 2 is over, every feeding neuron feeds some slot. */
  lemma SpreadCovers(c: seq<NeuronRef>, g: LayerGeom, st: seq<nat>, fill: seq<nat>, slotOf: seq<nat>)
    requires SpreadProgress(c, g, st, g.prev + g.numIn, fill, slotOf)
    ensures Covered(c, g.base, g.base + g.n, g.prev, g.numIn)
  {
    forall u | g.prev <= u < g.prev + g.numIn
      ensures Ref(u) in c[g.base..g.base + g.n]
    {
      var k := slotOf[u - g.prev];
      assert c[g.base..g.base + g.n][k - g.base] == Ref(u);
    }
  }

  /** What pass 2 knows about the receiving neuron u = start + r it drew,
      whose slots are [lo, hi): its first empty slot k follows its f = fill[r]
      filled ones, and putting v there keeps pass 2 on track. */
  lemma DrawnNeuron(ns: seq<Neuron>, c: seq<NeuronRef>, g: LayerGeom, st: seq<nat>, v: nat, fill: seq<nat>,
                    slotOf: seq<nat>, u: nat, r: nat, lo: nat, hi: nat, f: nat, k: nat,
                    fill': seq<nat>, slotOf': seq<nat>)
    requires NeuronSlots(ns, g, st) && SpreadProgress(c, g, st, v, fill, slotOf) && v < g.prev + g.numIn
    requires g.start <= u < g.start + g.numOut && r == u - g.start
    requires lo == ns[u].firstCon && hi == ns[u].lastCon && 1 <= hi <= |c| && c[hi - 1] == Null
    requires f == fill[r] && k == lo + f && fill' == Bump(fill, r) && slotOf' == slotOf + [k]
    ensures g.base <= lo && k < hi <= g.base + g.n
    ensures Filled(c, lo, k) && c[k] == Null
    ensures SpreadProgress(c[k := Ref(v)], g, st, v + 1, fill', slotOf')
  {
    assert lo == st[r] && hi == st[r + 1];
    SegmentBounds(g, st, r);
    assert PartialAt(c, g, st, fill, r, v);
    SpreadAdvance(c, g, st, v, fill, slotOf, r, k);
  }

  /** Pass 2 starts from pass 1's result, every receiving neuron with one filled slot. */
  lemma SpreadStart(c: seq<NeuronRef>, g: LayerGeom, st: seq<nat>, fill: seq<nat>)
    requires BiasProgress(c, g, st, g.numOut) && fill == seq(g.numOut, _ => 1)
    ensures SpreadProgress(c, g, st, g.prev, fill, [])
  {
    StartOnes(g.numOut, g.numOut);
    forall j | 0 <= j < g.numOut
      ensures PartialAt(c, g, st, fill, j, g.prev)
    {
      assert BiasAt(c, g, st, j);
    }
  }

  /** One round of pass 2: feeding neuron v goes into the first empty slot of
      a receiving neuron that still has room, drawn until one has. */
  method PlaceFeeding(neurons: array<Neuron>, conns: array<NeuronRef>, weights: array<Weight>,
                      g: LayerGeom, ghost st: seq<nat>, v: nat, ghost fill: seq<nat>, ghost slotOf: seq<nat>)
      returns (ghost fill': seq<nat>, ghost slotOf': seq<nat>)
    requires NeuronSlots(neurons[..], g, st) && g.base + g.n <= weights.Length
    requires SpreadProgress(conns[..], g, st, v, fill, slotOf) && v < g.prev + g.numIn
    modifies conns, weights
    ensures SpreadProgress(conns[..], g, st, v + 1, fill', slotOf')
    ensures SameOutside(conns[..], old(conns[..]), g.base, g.base + g.n)
    ensures SameOutside(weights[..], old(weights[..]), g.base, g.base + g.n)
  {
    // a receiving neuron whose last slot is still empty exists ...
    RoomExists(conns[..], g, st, v, fill, slotOf);
    ghost var i0 :| 0 <= i0 < g.numOut && RoomLeft(conns[..], st, i0);
    RoomNeuron(neurons[..], conns[..], g, st, i0);
    // ... so drawing receiving neurons until one has room ends with such a neuron
    var u :| g.start <= u < g.start + g.numOut && 1 <= neurons[u].lastCon <= conns.Length
              && conns[neurons[u].lastCon - 1] == Null;
    var lo, hi := neurons[u].firstCon, neurons[u].lastCon;
    ghost var r := u - g.start;
    ghost var f := fill[r];
    ghost var k := lo + f;
    fill', slotOf' := Bump(fill, r), slotOf + [k];
    ghost var c0 := conns[..];
    DrawnNeuron(neurons[..], c0, g, st, v, fill, slotOf, u, r, lo, hi, f, k, fill', slotOf');
    assert conns[lo..k] == c0[lo..k];
    PlaceInput(conns, weights, lo, hi, Ref(v), f);
    assert conns[..] == c0[k := Ref(v)];
  }

  /** Pass 2: every non-bias neuron of the feeding layer is put into the first
      empty slot of a receiving neuron that still has room. */
  method SparseSpread(neurons: array<Neuron>, conns: array<NeuronRef>, weights: array<Weight>,
                      g: LayerGeom, ghost st: seq<nat>)
      returns (ghost fill: seq<nat>)
    requires NeuronSlots(neurons[..], g, st) && Shares(g, st)
    requires g.base + g.n <= conns.Length && g.base + g.n <= weights.Length
    requires BiasProgress(conns[..], g, st, g.numOut)
    modifies conns, weights
    ensures AllPartial(conns[..], g, st, fill, g.prev + g.numIn)
    ensures Covered(conns[..], g.base, g.base + g.n, g.prev, g.numIn)
    ensures SameOutside(conns[..], old(conns[..]), g.base, g.base + g.n)
    ensures SameOutside(weights[..], old(weights[..]), g.base, g.base + g.n)
  {
    fill := seq(g.numOut, _ => 1);
    ghost var slotOf: seq<nat> := [];
    SpreadStart(conns[..], g, st, fill);
    var v := g.prev;
    while v != g.prev + g.numIn
      invariant NeuronSlots(neurons[..], g, st) && SpreadProgress(conns[..], g, st, v, fill, slotOf)
      invariant SameOutside(conns[..], old(conns[..]), g.base, g.base + g.n)
      invariant SameOutside(weights[..], old(weights[..]), g.base, g.base + g.n)
    {
      fill, slotOf := PlaceFeeding(neurons, conns, weights, g, st, v, fill, slotOf);
      v := v + 1;
    }
    SpreadCovers(conns[..], g, st, fill, slotOf);
  }

  // ---------------------------------------------------------------------
  // Pass 3: the remaining slots.
  // ---------------------------------------------------------------------

  /** The sequence s with every occurrence of x removed. */
  function Without(s: seq<NeuronRef>, x: NeuronRef): (r: seq<NeuronRef>)
    ensures |r| <= |s| && (x in s ==> |r| < |s|)
    ensures forall y :: y in s && y != x ==> y in r
  {
    if |s| == 0 then []
    else if s[0] == x then Without(s[1..], x)
    else [s[0]] + Without(s[1..], x)
  }

  /** Pigeonhole for pass 3: fewer than m slots cannot hold all of the m
      neurons p, ..., p + m - 1. */
  lemma {:induction false} MissingInput(s: seq<NeuronRef>, p: nat, m: nat)
    requires |s| < m
    ensures exists v :: p <= v < p + m && Ref(v) !in s
    decreases m
  {
    if Ref(p + m - 1) in s {
      var rest := Without(s, Ref(p + m - 1));
      MissingInput(rest, p, m - 1);
      var v :| p <= v < p + m - 1 && Ref(v) !in rest;
      assert Ref(v) !in s;
    } else {
      assert Ref(p + m - 1) !in s;
    }
  }

  /** Pass 3 inside one receiving neuron with slots [lo, hi), before slot k:
      c0 is the neuron as pass 2 left it. */
  ghost predicate FillProgress(c: seq<NeuronRef>, c0: seq<NeuronRef>, lo: nat, hi: nat, k: nat,
                               f: nat, p: nat, numIn: nat)
  {
    && Partial(c0, lo, hi, f, p, numIn, p + numIn) && hi - lo <= numIn + 1
    && |c| == |c0| && lo <= k <= hi
    && (forall j :: lo <= j < k ==> c[j] != Null)
    && (forall j :: lo <= j < hi && c0[j] != Null ==> c[j] == c0[j])
    && (forall j :: lo < j < hi && c[j] != Null ==> c[j].Ref? && p <= c[j].index < p + numIn)
    && (forall j :: k <= j < hi && lo + f <= j ==> c[j] == Null)
    && (forall a, b :: lo <= a < b < hi && c[a] != Null ==> c[a] != c[b])
    && (forall j :: 0 <= j < |c| && !(lo <= j < hi) ==> c[j] == c0[j])
  }

  lemma FillStart(c: seq<NeuronRef>, lo: nat, hi: nat, f: nat, p: nat, numIn: nat)
    requires Partial(c, lo, hi, f, p, numIn, p + numIn) && hi - lo <= numIn + 1
    ensures FillProgress(c, c, lo, hi, lo, f, p, numIn)
  {
    forall a, b | lo <= a < b < hi && c[a] != Null
      ensures c[a] != c[b]
    {
      if b < lo + f {
        assert Apart(c, a, b);
      }
    }
  }

  /** An empty slot k has a feeding neuron that no earlier slot reads. */
  lemma FillRoom(c: seq<NeuronRef>, c0: seq<NeuronRef>, lo: nat, hi: nat, k: nat, f: nat, p: nat, numIn: nat)
    requires FillProgress(c, c0, lo, hi, k, f, p, numIn) && k < hi && c[k] == Null
    ensures lo + f <= k
    ensures exists v :: p <= v < p + numIn && Ref(v) !in c[lo..k]
  {
    MissingInput(c[lo + 1..k], p, numIn);
    var v :| p <= v < p + numIn && Ref(v) !in c[lo + 1..k];
    assert c[lo] == c0[lo];
    assert c[lo..k] == [c[lo]] + c[lo + 1..k];
    assert Ref(v) !in c[lo..k];
  }

  lemma FillAdvance(c: seq<NeuronRef>, c0: seq<NeuronRef>, lo: nat, hi: nat, k: nat, f: nat, p: nat, numIn: nat,
                    src: NeuronRef)
    requires FillProgress(c, c0, lo, hi, k, f, p, numIn) && k < hi
    requires c[k] == Null ==> lo + f <= k && src.Ref? && p <= src.index < p + numIn && src !in c[lo..k]
    ensures c[k] == Null ==> FillProgress(c[k := src], c0, lo, hi, k + 1, f, p, numIn)
    ensures c[k] != Null ==> FillProgress(c, c0, lo, hi, k + 1, f, p, numIn)
  {
    if c[k] == Null {
      var d := c[k := src];
      assert lo < k by {
        assert c0[lo] != Null;
      }
      forall a, b | lo <= a < b < hi && d[a] != Null
        ensures Apart(d, a, b)
      {
        if b == k {
          assert c[a] == c[lo..k][a - lo];
        } else if a != k {
          assert Apart(c, a, b);
        }
      }
    }
  }

  lemma FillDone(c: seq<NeuronRef>, c0: seq<NeuronRef>, lo: nat, hi: nat, f: nat, p: nat, numIn: nat)
    requires FillProgress(c, c0, lo, hi, hi, f, p, numIn)
    ensures NeuronWired(c, lo, hi, p, numIn)
  {
    assert c[lo] == c0[lo];
  }

  /** Pass 3 for one receiving neuron: every empty slot gets a non-bias neuron
      of the feeding layer that no earlier slot of the neuron reads. */
  method FillNeuron(conns: array<NeuronRef>, weights: array<Weight>, lo: nat, hi: nat,
                    p: nat, numIn: nat, ghost f: nat)
    requires Partial(conns[..], lo, hi, f, p, numIn, p + numIn) && hi - lo <= numIn + 1
    requires hi <= weights.Length
    modifies conns, weights
    ensures NeuronWired(conns[..], lo, hi, p, numIn)
    ensures KeepsFilled(old(conns[..]), conns[..], lo, hi)
    ensures SameOutside(conns[..], old(conns[..]), lo, hi)
    ensures SameOutside(weights[..], old(weights[..]), lo, hi)
  {
    ghost var c0 := conns[..];
    FillStart(c0, lo, hi, f, p, numIn);
    var k := lo;
    while k < hi
      invariant FillProgress(conns[..], c0, lo, hi, k, f, p, numIn)
      invariant SameOutside(weights[..], old(weights[..]), lo, hi)
    {
      if conns[k] == Null {
        FillRoom(conns[..], c0, lo, hi, k, f, p, numIn);
        var v :| p <= v < p + numIn && Ref(v) !in conns[lo..k];
        FillAdvance(conns[..], c0, lo, hi, k, f, p, numIn, Ref(v));
        conns[k] := Ref(v);
        var weight: Weight :| true;
        weights[k] := weight;
      } else {
        FillAdvance(conns[..], c0, lo, hi, k, f, p, numIn, Null);
      }
      k := k + 1;
    }
    FillDone(conns[..], c0, lo, hi, f, p, numIn);
  }

  /** The first i receiving neurons are wired. */
  ghost predicate WiredBefore(c: seq<NeuronRef>, g: LayerGeom, st: seq<nat>, i: nat)
  {
    && Shares(g, st) && i <= g.numOut
    && forall j :: 0 <= j < i ==> WiredAt(c, g, st, j)
  }

  /** Receiving neurons i and later are as pass 2 left them. */
  ghost predicate PartialFrom(c: seq<NeuronRef>, g: LayerGeom, st: seq<nat>, fill: seq<nat>, i: nat)
  {
    && Shares(g, st) && |fill| == g.numOut
    && forall j :: i <= j < g.numOut ==> SpreadAt(c, g, st, fill, j)
  }

  /** Pass 3 after the first i receiving neurons: those are wired, the others
      are as pass 2 left them, and every feeding neuron is still used. */
  ghost predicate LayerFillProgress(c: seq<NeuronRef>, g: LayerGeom, st: seq<nat>, fill: seq<nat>, i: nat)
  {
    && Shares(g, st) && i <= g.numOut && |fill| == g.numOut && g.base + g.n <= |c|
    && WiredBefore(c, g, st, i)
    && PartialFrom(c, g, st, fill, i)
    && Covered(c, g.base, g.base + g.n, g.prev, g.numIn)
  }

  lemma KeepWired(c: seq<NeuronRef>, d: seq<NeuronRef>, g: LayerGeom, st: seq<nat>, i: nat)
    requires WiredBefore(c, g, st, i) && i < g.numOut
    requires NeuronWired(d, st[i], st[i + 1], g.prev, g.numIn)
    requires SameOutside(d, c, st[i], st[i + 1])
    ensures WiredBefore(d, g, st, i + 1)
  {
    assert WiredAt(d, g, st, i);
    forall j | 0 <= j < i
      ensures WiredAt(d, g, st, j)
    {
      SegmentsApart(g, st, j, i);
      assert WiredAt(c, g, st, j);
      WiredFrame(c, d, st[j], st[j + 1], g.prev, g.numIn);
    }
  }

  lemma KeepPartial(c: seq<NeuronRef>, d: seq<NeuronRef>, g: LayerGeom, st: seq<nat>, fill: seq<nat>, i: nat)
    requires PartialFrom(c, g, st, fill, i) && i < g.numOut
    requires SameOutside(d, c, st[i], st[i + 1])
    ensures PartialFrom(d, g, st, fill, i + 1)
  {
    forall j | i < j < g.numOut
      ensures SpreadAt(d, g, st, fill, j)
    {
      SegmentsApart(g, st, i, j);
      assert SpreadAt(c, g, st, fill, j);
      PartialFrame(c, d, st[j], st[j + 1], fill[j], g.prev, g.numIn, g.prev + g.numIn, g.prev + g.numIn);
    }
  }

  lemma LayerFillAdvance(c: seq<NeuronRef>, d: seq<NeuronRef>, g: LayerGeom, st: seq<nat>, fill: seq<nat>,
                         i: nat, lo: nat, hi: nat)
    requires LayerFillProgress(c, g, st, fill, i) && i < g.numOut
    requires lo == st[i] && hi == st[i + 1]
    requires NeuronWired(d, lo, hi, g.prev, g.numIn) && KeepsFilled(c, d, lo, hi) && SameOutside(d, c, lo, hi)
    ensures LayerFillProgress(d, g, st, fill, i + 1)
  {
    SegmentBounds(g, st, i);
    KeepWired(c, d, g, st, i);
    KeepPartial(c, d, g, st, fill, i);
    CoveredKeep(c, d, g.base, g.base + g.n, g.prev, g.numIn);
  }

  /** Pass 3 starts from pass 2's result. */
  lemma FillBegin(c: seq<NeuronRef>, g: LayerGeom, st: seq<nat>, fill: seq<nat>)
    requires AllPartial(c, g, st, fill, g.prev + g.numIn) && g.base + g.n <= |c|
    requires Covered(c, g.base, g.base + g.n, g.prev, g.numIn)
    ensures LayerFillProgress(c, g, st, fill, 0)
  {
    forall j | 0 <= j < g.numOut
      ensures SpreadAt(c, g, st, fill, j)
    {
      assert PartialAt(c, g, st, fill, j, g.prev + g.numIn);
    }
  }

  /** The slots pass 3 fills for receiving neuron i, found through its neuron record. */
  lemma FillTarget(ns: seq<Neuron>, c: seq<NeuronRef>, g: LayerGeom, st: seq<nat>, fill: seq<nat>, i: nat)
    requires NeuronSlots(ns, g, st) && LayerFillProgress(c, g, st, fill, i) && i < g.numOut
    ensures ns[g.start + i].firstCon == st[i] && ns[g.start + i].lastCon == st[i + 1]
    ensures g.base <= st[i] && st[i + 1] <= g.base + g.n && st[i + 1] <= st[i] + g.numIn + 1
    ensures Partial(c, st[i], st[i + 1], fill[i], g.prev, g.numIn, g.prev + g.numIn)
  {
    NeuronAt(ns, g, st, i);
    SegmentBounds(g, st, i);
    assert SpreadAt(c, g, st, fill, i);
  }

  /** Pass 3: fill the empty slots of every receiving neuron. */
  method SparseFill(neurons: array<Neuron>, conns: array<NeuronRef>, weights: array<Weight>,
                    g: LayerGeom, ghost st: seq<nat>, ghost fill: seq<nat>)
    requires NeuronSlots(neurons[..], g, st) && g.base + g.n <= weights.Length
    requires LayerFillProgress(conns[..], g, st, fill, 0)
    modifies conns, weights
    ensures WiredBefore(conns[..], g, st, g.numOut)
    ensures Covered(conns[..], g.base, g.base + g.n, g.prev, g.numIn)
    ensures SameOutside(conns[..], old(conns[..]), g.base, g.base + g.n)
    ensures SameOutside(weights[..], old(weights[..]), g.base, g.base + g.n)
  {
    var i := 0;
    while i != g.numOut
      invariant 0 <= i <= g.numOut && NeuronSlots(neurons[..], g, st)
      invariant LayerFillProgress(conns[..], g, st, fill, i)
      invariant SameOutside(conns[..], old(conns[..]), g.base, g.base + g.n)
      invariant SameOutside(weights[..], old(weights[..]), g.base, g.base + g.n)
    {
      FillTarget(neurons[..], conns[..], g, st, fill, i);
      var lo, hi := neurons[g.start + i].firstCon, neurons[g.start + i].lastCon;
      ghost var before := conns[..];
      FillNeuron(conns, weights, lo, hi, g.prev, g.numIn, fill[i]);
      LayerFillAdvance(before, conns[..], g, st, fill, i, lo, hi);
      i := i + 1;
    }
  }

  /** The three passes together wire a sparse layer whose slots start empty. */
  method WireSparseLayer(neurons: array<Neuron>, conns: array<NeuronRef>, weights: array<Weight>,
                         g: LayerGeom, biasNeuron: nat)
    requires NeuronsAt(neurons[..], g) && SparseGeom(g) && biasNeuron == g.prev + g.numIn
    requires AllNull(conns[..], g.base, g.base + g.n) && g.base + g.n <= weights.Length
    modifies conns, weights
    ensures SparseLayerWired(conns[..], g)
    ensures SameOutside(conns[..], old(conns[..]), g.base, g.base + g.n)
    ensures SameOutside(weights[..], old(weights[..]), g.base, g.base + g.n)
  {
    ghost var st := SlotStarts(g);
    SlotStartsShares(g);
    NeuronsAtSlots(neurons[..], g);
    SparseBias(neurons, conns, weights, g, st, biasNeuron);
    ghost var fill := SparseSpread(neurons, conns, weights, g, st);
    FillBegin(conns[..], g, st, fill);
    SparseFill(neurons, conns, weights, g, st, fill);
    SharesWired(conns[..], g, st);
  }
}
