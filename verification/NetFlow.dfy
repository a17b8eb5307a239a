/** Conservation and per-flow order over whole runs of the interconnect. */
module NetFlow {
  import opened NetSpec
  import opened NetSystem

  /** The requests of flow (i, j) in a queue, in queue order. */
  ghost function Flow(q: Queue, i: nat, j: nat): seq<Mem> {
    if q == [] then []
    else Flow(q[..|q| - 1], i, j) + Kept(q[|q| - 1].mem, i, j)
  }

  ghost function Kept(m: Mem, i: nat, j: nat): seq<Mem> {
    if m.source == i && m.dest == j then [m] else []
  }

  lemma {:induction false} FlowConcat(p: Queue, q: Queue, i: nat, j: nat)
    ensures Flow(p + q, i, j) == Flow(p, i, j) + Flow(q, i, j)
    decreases |q|
  {
    if q == [] {
      assert p + q == p;
    } else {
      assert (p + q)[..|p + q| - 1] == p + q[..|q| - 1];
      FlowConcat(p, q[..|q| - 1], i, j);
    }
  }

  lemma {:induction false} FlowSameMems(p: Queue, q: Queue, i: nat, j: nat)
    requires |p| == |q| && forall k :: 0 <= k < |p| ==> p[k].mem == q[k].mem
    ensures Flow(p, i, j) == Flow(q, i, j)
    decreases |q|
  {
    if q != [] {
      FlowSameMems(p[..|p| - 1], q[..|q| - 1], i, j);
    }
  }

  lemma FlowHead(q: Queue, i: nat, j: nat)
    requires q != []
    ensures Flow(q, i, j) == Kept(q[0].mem, i, j) + Flow(q[1..], i, j)
  {
    assert q == [q[0]] + q[1..];
    FlowConcat([q[0]], q[1..], i, j);
    assert Flow([q[0]], i, j) == Flow([], i, j) + Kept(q[0].mem, i, j) by { assert [q[0]][..0] == []; }
  }

  lemma FlowPush(q: Queue, p: Packet, i: nat, j: nat)
    ensures Flow(q + [p], i, j) == Flow(q, i, j) + Kept(p.mem, i, j)
  {
    assert (q + [p])[..|q|] == q;
  }

  /** One packet leaves the head of `from` and joins the tail of `to`, or nothing moves; either way the
      two queues together still hold the same requests in the same order. */
  ghost predicate Forwards(to: Queue, from: Queue, to': Queue, from': Queue) {
    || (&& |to'| == |to| && |from'| == |from|
        && (forall k :: 0 <= k < |to| ==> to'[k].mem == to[k].mem)
        && (forall k :: 0 <= k < |from| ==> from'[k].mem == from[k].mem))
    || (&& |to'| == |to| + 1 && |from'| + 1 == |from|
        && (forall k :: 0 <= k < |to| ==> to'[k].mem == to[k].mem)
        && to'[|to|].mem == from[0].mem
        && (forall k :: 0 <= k < |from'| ==> from'[k].mem == from[k + 1].mem))
  }

  lemma MovedFlow(to: Queue, from: Queue, p: Packet, i: nat, j: nat)
    requires from != [] && p.mem == from[0].mem
    ensures Flow(to + [p], i, j) + Flow(from[1..], i, j) == Flow(to, i, j) + Flow(from, i, j)
  {
    hide Flow, Kept;
    FlowPush(to, p, i, j);
    FlowHead(from, i, j);
    assert (Flow(to, i, j) + Kept(p.mem, i, j)) + Flow(from[1..], i, j)
           == Flow(to, i, j) + (Kept(p.mem, i, j) + Flow(from[1..], i, j));
  }

  lemma ForwardsKeepFlow(to: Queue, from: Queue, to': Queue, from': Queue, i: nat, j: nat)
    requires Forwards(to, from, to', from')
    ensures Flow(to', i, j) + Flow(from', i, j) == Flow(to, i, j) + Flow(from, i, j)
  {
    hide Flow, Kept;
    if |to'| == |to| {
      FlowSameMems(to', to, i, j);
      FlowSameMems(from', from, i, j);
    } else {
      FlowSameMems(to', to + [from[0]], i, j);
      FlowSameMems(from', from[1..], i, j);
      MovedFlow(to, from, from[0], i, j);
    }
  }

  // ---------- The stages ----------

  lemma SourceForwards(c: Config, clock: int, q: Queue, nic: Queue)
    ensures var (q', nic') := SourceStep(c, clock, q, nic); Forwards(nic, q, nic', q')
  {
  }

  lemma OutputForwards(c: Config, clock: int, out: Queue, nic: Queue)
    requires c.Valid()
    ensures var (out', nic') := OutputStep(c, clock, out, nic); Forwards(nic, out, nic', out')
  {
  }

  lemma DestForwards(c: Config, clock: int, nic: Queue, collector: Queue)
    ensures var (nic', collector') := DestStep(c, clock, nic, collector); Forwards(collector, nic, collector', nic')
  {
  }

  lemma NotOfFlow(q: Queue, p: Packet, i: nat, j: nat)
    requires p.mem.source != i || p.mem.dest != j
    ensures Flow(q + [p], i, j) == Flow(q, i, j)
    ensures q != [] && q[0].mem == p.mem ==> Flow(q[1..], i, j) == Flow(q, i, j)
  {
    hide Flow;
    FlowPush(q, p, i, j);
    if q != [] {
      FlowHead(q, i, j);
    }
  }

  /** A NIC feeds one virtual queue of its port; the other flows see nothing. */
  lemma NicKeepsFlow(c: Config, clock: int, nic: Queue, row: seq<Queue>, i: nat, j: nat)
    requires c.Valid() && AllFrom(c, nic, i) && RowOK(c, row, i) && j < c.dests
    ensures var (nic', row') := NicStep(c, clock, nic, row);
            && |row'| == |row|
            && Flow(row'[j], i, j) + Flow(nic', i, j) == Flow(row[j], i, j) + Flow(nic, i, j)
  {
    hide Flow, Kept, RowBytes, Bytes, Size;
    var (nic1, row1) := Transmit(c, clock, nic, row);
    var (nic2, row2) := NicStep(c, clock, nic, row);
    FlowSameMems(nic2, nic1, i, j);
    if |nic1| == |nic| {
      FlowSameMems(nic1, nic, i, j);
    } else {
      var d := nic[0].mem.dest;
      FlowSameMems(nic1, nic[1..], i, j);
      if d == j {
        MovedFlow(row[j], nic, Departed(c, nic[0]), i, j);
      } else {
        NotOfFlow(nic, nic[0], i, j);
      }
    }
  }

  /** The two queues of the switch that carry flow (i, j). */
  ghost function Crossing(c: Config, x: Crossbar, i: nat, j: nat): seq<Mem>
    requires CrossbarOK(c, x) && i < c.sources && j < c.dests
  {
    Flow(x.out[j], i, j) + Flow(x.virt[i][j], i, j)
  }

  lemma TransferKeepsFlow(c: Config, x: Crossbar, i: nat, j: nat)
    requires CrossbarRouted(c, x) && x.virt[x.arb][x.vq[x.arb]] != [] && i < c.sources && j < c.dests
    ensures Crossing(c, Transfer(c, x), i, j) == Crossing(c, x, i, j)
  {
    hide Flow, Kept;
    var a, b := x.arb, x.vq[x.arb];
    var q := x.virt[a][b];
    assert RowOK(c, x.virt[a], a) && AllFrom(c, q, a);
    if b == j {
      if a == i {
        MovedFlow(x.out[b], q, Crossed(c, q[0]), i, j);
      } else {
        NotOfFlow(x.out[b], Crossed(c, q[0]), i, j);
      }
    }
  }

  lemma {:induction false} TryPortKeepsFlow(c: Config, clock: int, x: Crossbar, k: nat, i: nat, j: nat)
    requires CrossbarRouted(c, x) && k <= c.dests && i < c.sources && j < c.dests
    ensures Crossing(c, TryPort(c, clock, x, k), i, j) == Crossing(c, x, i, j)
    decreases c.dests - k
  {
    hide Flow, Kept;
    if k < c.dests {
      var b := x.vq[x.arb];
      var q := x.virt[x.arb][b];
      if Due(q, clock) && x.status[b] != 0 {
        if TooLarge(c, x.status[b], Size(c, q[0].mem)) {
          TryPortKeepsFlow(c, clock, SkipQueue(c, x.(ready := x.ready - 1)), k + 1, i, j);
        } else {
          TransferKeepsFlow(c, x, i, j);
        }
      } else {
        TryPortKeepsFlow(c, clock, SkipQueue(c, x), k + 1, i, j);
      }
    }
  }

  lemma {:induction false} ArbitrateKeepsFlow(c: Config, clock: int, x: Crossbar, i: nat, j: nat)
    requires CrossbarRouted(c, x) && i < c.sources && j < c.dests
    ensures Crossing(c, Arbitrate(c, clock, x), i, j) == Crossing(c, x, i, j)
    decreases c.sources - x.tried
  {
    hide Flow;
    if Arbitrating(c, x) {
      TriedGrows(c, clock, x, 0);
      TryPortRoutes(c, clock, x, 0);
      TryPortKeepsFlow(c, clock, x, 0, i, j);
      ArbitrateKeepsFlow(c, clock, NextPort(c, TryPort(c, clock, x, 0)), i, j);
    }
  }

  // ---------- The whole network ----------

  /** Everything of flow (i, j) that has entered the network, delivered or not, oldest first. */
  ghost function Transit(c: Config, s: Net, i: nat, j: nat): seq<Mem>
    requires Routed(c, s) && i < c.sources && j < c.dests
  {
    Flow(s.delivered[j], i, j) + Flow(s.collector[j], i, j) + Flow(s.dstNic[j], i, j) + Flow(s.out[j], i, j)
    + Flow(VirtAt(c, s, i, j), i, j) + Flow(s.srcNic[i], i, j) + Flow(s.srcQ[i], i, j)
  }

  ghost function VirtAt(c: Config, s: Net, i: nat, j: nat): Queue
    requires Routed(c, s) && i < c.sources && j < c.dests
  {
    assert RowOK(c, s.virt[i], i);
    s.virt[i][j]
  }

  lemma Regroup(a: seq<Mem>, b: seq<Mem>, x: seq<Mem>, y: seq<Mem>, x': seq<Mem>, y': seq<Mem>)
    requires x' + y' == x + y
    ensures a + x' + y' + b == a + x + y + b
  {
    assert a + x' + y' + b == a + (x' + y') + b;
    assert a + x + y + b == a + (x + y) + b;
  }

  lemma SimulateKeepsTransit(c: Config, clock: int, s: Net, i: nat, j: nat)
    requires Routed(c, s) && i < c.sources && j < c.dests
    ensures Transit(c, Simulate(c, clock, s), i, j) == Transit(c, s, i, j)
  {
    var s1 := Sources(c, clock, s);
    var s2 := Nics(c, clock, s1);
    var s3 := Switch(c, clock, s2);
    var s4 := Outputs(c, clock, s3);
    var s5 := Dests(c, clock, s4);
    SourcesKeepTransit(c, clock, s, i, j);
    NicsKeepTransit(c, clock, s1, i, j);
    SwitchKeepsTransit(c, clock, s2, i, j);
    OutputsKeepTransit(c, clock, s3, i, j);
    DestsKeepTransit(c, clock, s4, i, j);
    DeliveriesKeepTransit(c, clock, s5, i, j);
  }

  lemma SourcesKeepTransit(c: Config, clock: int, s: Net, i: nat, j: nat)
    requires Routed(c, s) && i < c.sources && j < c.dests
    ensures Transit(c, Sources(c, clock, s), i, j) == Transit(c, s, i, j)
  {
    var s' := Sources(c, clock, s);
    SourceForwards(c, clock, s.srcQ[i], s.srcNic[i]);
    ForwardsKeepFlow(s.srcNic[i], s.srcQ[i], s'.srcNic[i], s'.srcQ[i], i, j);
    var a := Flow(s.delivered[j], i, j) + Flow(s.collector[j], i, j) + Flow(s.dstNic[j], i, j) + Flow(s.out[j], i, j)
             + Flow(VirtAt(c, s, i, j), i, j);
    Regroup(a, [], Flow(s.srcNic[i], i, j), Flow(s.srcQ[i], i, j), Flow(s'.srcNic[i], i, j), Flow(s'.srcQ[i], i, j));
    assert Transit(c, s', i, j) == a + Flow(s'.srcNic[i], i, j) + Flow(s'.srcQ[i], i, j) + [];
    assert Transit(c, s, i, j) == a + Flow(s.srcNic[i], i, j) + Flow(s.srcQ[i], i, j) + [];
  }

  lemma NicsKeepTransit(c: Config, clock: int, s: Net, i: nat, j: nat)
    requires Routed(c, s) && i < c.sources && j < c.dests
    ensures Transit(c, Nics(c, clock, s), i, j) == Transit(c, s, i, j)
  {
    var s' := Nics(c, clock, s);
    assert AllFrom(c, s.srcNic[i], i) && RowOK(c, s.virt[i], i);
    NicKeepsFlow(c, clock, s.srcNic[i], s.virt[i], i, j);
    var a := Flow(s.delivered[j], i, j) + Flow(s.collector[j], i, j) + Flow(s.dstNic[j], i, j) + Flow(s.out[j], i, j);
    Regroup(a, Flow(s.srcQ[i], i, j), Flow(VirtAt(c, s, i, j), i, j), Flow(s.srcNic[i], i, j),
            Flow(VirtAt(c, s', i, j), i, j), Flow(s'.srcNic[i], i, j));
  }

  lemma SwitchKeepsTransit(c: Config, clock: int, s: Net, i: nat, j: nat)
    requires Routed(c, s) && i < c.sources && j < c.dests
    ensures Transit(c, Switch(c, clock, s), i, j) == Transit(c, s, i, j)
  {
    var s' := Switch(c, clock, s);
    var x := Arbitrate(c, clock, StartOf(c, clock, s));
    ArbitrateKeepsFlow(c, clock, StartOf(c, clock, s), i, j);
    ArbitrateRoutes(c, clock, StartOf(c, clock, s));
    assert RowOK(c, x.virt[i], i);
    FlowSameMems(VirtAt(c, s', i, j), x.virt[i][j], i, j);
    var a := Flow(s.delivered[j], i, j) + Flow(s.collector[j], i, j) + Flow(s.dstNic[j], i, j);
    Regroup(a, Flow(s.srcNic[i], i, j) + Flow(s.srcQ[i], i, j), Flow(s.out[j], i, j), Flow(VirtAt(c, s, i, j), i, j),
            Flow(s'.out[j], i, j), Flow(VirtAt(c, s', i, j), i, j));
    TailTwo(a + Flow(s.out[j], i, j) + Flow(VirtAt(c, s, i, j), i, j), Flow(s.srcNic[i], i, j), Flow(s.srcQ[i], i, j));
    TailTwo(a + Flow(s'.out[j], i, j) + Flow(VirtAt(c, s', i, j), i, j),
            Flow(s.srcNic[i], i, j), Flow(s.srcQ[i], i, j));
  }

  lemma TailTwo(a: seq<Mem>, b: seq<Mem>, d: seq<Mem>)
    ensures a + b + d == a + (b + d)
  {
  }

  lemma OutputsKeepTransit(c: Config, clock: int, s: Net, i: nat, j: nat)
    requires Routed(c, s) && i < c.sources && j < c.dests
    ensures Transit(c, Outputs(c, clock, s), i, j) == Transit(c, s, i, j)
  {
    var s' := Outputs(c, clock, s);
    OutputForwards(c, clock, s.out[j], s.dstNic[j]);
    ForwardsKeepFlow(s.dstNic[j], s.out[j], s'.dstNic[j], s'.out[j], i, j);
    var a := Flow(s.delivered[j], i, j) + Flow(s.collector[j], i, j);
    assert a + Flow(s'.dstNic[j], i, j) + Flow(s'.out[j], i, j)
           == a + Flow(s.dstNic[j], i, j) + Flow(s.out[j], i, j) by {
      Regroup(a, [], Flow(s.dstNic[j], i, j), Flow(s.out[j], i, j), Flow(s'.dstNic[j], i, j), Flow(s'.out[j], i, j));
      assert a + Flow(s'.dstNic[j], i, j) + Flow(s'.out[j], i, j) + []
             == a + Flow(s'.dstNic[j], i, j) + Flow(s'.out[j], i, j);
      assert a + Flow(s.dstNic[j], i, j) + Flow(s.out[j], i, j) + []
             == a + Flow(s.dstNic[j], i, j) + Flow(s.out[j], i, j);
    }
  }

  lemma DestsKeepTransit(c: Config, clock: int, s: Net, i: nat, j: nat)
    requires Routed(c, s) && i < c.sources && j < c.dests
    ensures Transit(c, Dests(c, clock, s), i, j) == Transit(c, s, i, j)
  {
    var s' := Dests(c, clock, s);
    DestForwards(c, clock, s.dstNic[j], s.collector[j]);
    ForwardsKeepFlow(s.collector[j], s.dstNic[j], s'.collector[j], s'.dstNic[j], i, j);
    var a := Flow(s.delivered[j], i, j);
    assert a + Flow(s'.collector[j], i, j) + Flow(s'.dstNic[j], i, j)
           == a + Flow(s.collector[j], i, j) + Flow(s.dstNic[j], i, j) by {
      Regroup(a, [], Flow(s.collector[j], i, j), Flow(s.dstNic[j], i, j),
              Flow(s'.collector[j], i, j), Flow(s'.dstNic[j], i, j));
      assert a + Flow(s'.collector[j], i, j) + Flow(s'.dstNic[j], i, j) + []
             == a + Flow(s'.collector[j], i, j) + Flow(s'.dstNic[j], i, j);
      assert a + Flow(s.collector[j], i, j) + Flow(s.dstNic[j], i, j) + []
             == a + Flow(s.collector[j], i, j) + Flow(s.dstNic[j], i, j);
    }
  }

  lemma DeliveriesKeepTransit(c: Config, clock: int, s: Net, i: nat, j: nat)
    requires Routed(c, s) && i < c.sources && j < c.dests
    ensures Transit(c, Deliveries(c, clock, s), i, j) == Transit(c, s, i, j)
  {
    var s' := Deliveries(c, clock, s);
    DeliverSplits(clock, s.collector[j], s.delivered[j]);
    FlowConcat(s'.delivered[j], s'.collector[j], i, j);
    FlowConcat(s.delivered[j], s.collector[j], i, j);
  }

  // ---------- Requests ----------

  ghost function FlowOf(ms: seq<Mem>, i: nat, j: nat): seq<Mem> {
    if ms == [] then [] else FlowOf(ms[..|ms| - 1], i, j) + Kept(ms[|ms| - 1], i, j)
  }

  /** The requests of flow (i, j) made in a run, in order. */
  ghost function Requests(batches: seq<seq<Mem>>, i: nat, j: nat): seq<Mem> {
    if batches == [] then [] else Requests(batches[..|batches| - 1], i, j) + FlowOf(batches[|batches| - 1], i, j)
  }

  lemma {:induction false} InjectionAppends(c: Config, srcQ: seq<Queue>, ms: seq<Mem>, i: nat, j: nat)
    requires EachFrom(c, srcQ) && BatchOK(c, ms) && i < c.sources
    ensures Flow(InjectAll(c, srcQ, ms)[i], i, j) == Flow(srcQ[i], i, j) + FlowOf(ms, i, j)
    decreases |ms|
  {
    assert i < |srcQ|;
    hide Flow, EachFrom, AllFrom;
    if ms != [] {
      var front, m := ms[..|ms| - 1], ms[|ms| - 1];
      InjectionAppends(c, srcQ, front, i, j);
      var before := InjectAll(c, srcQ, front);
      FlowPush(before[i], Packetised(c, m), i, j);
    }
  }

  lemma InjectExtendsTransit(c: Config, s: Net, ms: seq<Mem>, i: nat, j: nat)
    requires Routed(c, s) && BatchOK(c, ms) && i < c.sources && j < c.dests
    ensures Transit(c, Inject(c, s, ms), i, j) == Transit(c, s, i, j) + FlowOf(ms, i, j)
  {
    hide Flow, FlowOf, InjectAll;
    InjectionAppends(c, s.srcQ, ms, i, j);
    var a := Flow(s.delivered[j], i, j) + Flow(s.collector[j], i, j) + Flow(s.dstNic[j], i, j) + Flow(s.out[j], i, j)
             + Flow(VirtAt(c, s, i, j), i, j) + Flow(s.srcNic[i], i, j);
    TailTwo(a, Flow(s.srcQ[i], i, j), FlowOf(ms, i, j));
  }

  /** Conservation and order, over every run: for each flow, what has been delivered followed by what
      is still on its way, stage by stage, is exactly what was requested, in the order of the requests. */
  lemma {:induction false} Conservation(c: Config, batches: seq<seq<Mem>>, i: nat, j: nat)
    requires c.Valid() && i < c.sources && j < c.dests
    requires forall t :: 0 <= t < |batches| ==> BatchOK(c, batches[t])
    ensures Transit(c, Run(c, batches), i, j) == Requests(batches, i, j)
    decreases |batches|
  {
    if batches == [] {
      assert VirtAt(c, Empty(c), i, j) == [];
    } else {
      var t := |batches| - 1;
      Conservation(c, batches[..t], i, j);
      InjectExtendsTransit(c, Run(c, batches[..t]), batches[t], i, j);
      SimulateKeepsTransit(c, t, Inject(c, Run(c, batches[..t]), batches[t]), i, j);
    }
  }

  /** First in, first out per flow: the delivered requests of a flow are a prefix of those made. */
  lemma DeliveredInOrder(c: Config, batches: seq<seq<Mem>>, i: nat, j: nat)
    requires c.Valid() && i < c.sources && j < c.dests
    requires forall t :: 0 <= t < |batches| ==> BatchOK(c, batches[t])
    ensures Flow(Run(c, batches).delivered[j], i, j) <= Requests(batches, i, j)
  {
    Conservation(c, batches, i, j);
    assert Flow(Run(c, batches).delivered[j], i, j) <= Transit(c, Run(c, batches), i, j);
  }
}
