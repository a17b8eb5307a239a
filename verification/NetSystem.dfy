/** The whole interconnect and one simulated cycle of it. */
module NetSystem {
  import opened NetSpec

  /** A packet leaving a source NIC: when, and how many bytes. */
  datatype Sent = Sent(at: int, bytes: nat)

  /** `delivered` and `sent` are history: nothing reads them. */
  datatype Net = Net(srcQ: seq<Queue>, srcNic: seq<Queue>, virt: seq<seq<Queue>>, out: seq<Queue>,
                     dstNic: seq<Queue>, collector: seq<Queue>, delivered: seq<Queue>,
                     arb: nat, vq: seq<nat>, sent: seq<seq<Sent>>)

  ghost predicate MemOK(c: Config, m: Mem) {
    m.source < c.sources && m.dest < c.dests
  }

  ghost predicate AllFrom(c: Config, q: Queue, i: nat) {
    forall k :: 0 <= k < |q| ==> q[k].mem.source == i && MemOK(c, q[k].mem)
  }

  ghost predicate AllTo(c: Config, q: Queue, j: nat) {
    forall k :: 0 <= k < |q| ==> q[k].mem.dest == j && MemOK(c, q[k].mem)
  }

  ghost predicate EachFrom(c: Config, qs: seq<Queue>) {
    |qs| == c.sources && forall i :: 0 <= i < |qs| ==> AllFrom(c, qs[i], i)
  }

  ghost predicate EachTo(c: Config, qs: seq<Queue>) {
    |qs| == c.dests && forall j :: 0 <= j < |qs| ==> AllTo(c, qs[j], j)
  }

  ghost predicate RowOK(c: Config, row: seq<Queue>, i: nat) {
    |row| == c.dests && forall j :: 0 <= j < |row| ==> AllFrom(c, row[j], i) && AllTo(c, row[j], j)
  }

  ghost predicate VirtOK(c: Config, virt: seq<seq<Queue>>) {
    |virt| == c.sources && forall i :: 0 <= i < |virt| ==> RowOK(c, virt[i], i)
  }

  /** Every packet is in a queue of its own source and destination: nothing is misrouted. */
  ghost predicate Routed(c: Config, s: Net) {
    && c.Valid()
    && EachFrom(c, s.srcQ) && EachFrom(c, s.srcNic) && VirtOK(c, s.virt)
    && EachTo(c, s.out) && EachTo(c, s.dstNic) && EachTo(c, s.collector) && EachTo(c, s.delivered)
    && s.arb < c.sources && |s.vq| == c.sources && |s.sent| == c.sources
    && (forall i :: 0 <= i < |s.vq| ==> s.vq[i] < c.dests)
  }

  function Empty(c: Config): (s: Net)
    requires c.Valid()
    ensures Routed(c, s)
  {
    var none: Queue := [];
    Net(seq(c.sources, _ => none), seq(c.sources, _ => none), seq(c.sources, _ => seq(c.dests, _ => none)),
        seq(c.dests, _ => none), seq(c.dests, _ => none), seq(c.dests, _ => none), seq(c.dests, _ => none),
        0, seq(c.sources, _ => 0), seq(c.sources, _ => []))
  }

  // ---------- Injection ----------

  ghost predicate BatchOK(c: Config, ms: seq<Mem>) {
    forall k :: 0 <= k < |ms| ==> MemOK(c, ms[k])
  }

  function InjectOne(c: Config, srcQ: seq<Queue>, m: Mem): seq<Queue>
    requires m.source < |srcQ|
  {
    srcQ[m.source := srcQ[m.source] + [Packetised(c, m)]]
  }

  function InjectAll(c: Config, srcQ: seq<Queue>, ms: seq<Mem>): (r: seq<Queue>)
    requires EachFrom(c, srcQ) && BatchOK(c, ms)
    ensures EachFrom(c, r) && |r| == |srcQ|
  {
    if ms == [] then srcQ
    else
      var before := InjectAll(c, srcQ, ms[..|ms| - 1]);
      InjectOne(c, before, ms[|ms| - 1])
  }

  // ---------- The stages, all ports at once ----------

  lemma SourceStepRoutes(c: Config, clock: int, q: Queue, nic: Queue, i: nat)
    requires AllFrom(c, q, i) && AllFrom(c, nic, i)
    ensures AllFrom(c, SourceStep(c, clock, q, nic).0, i) && AllFrom(c, SourceStep(c, clock, q, nic).1, i)
  {
  }

  function Sources(c: Config, clock: int, s: Net): (s': Net)
    requires Routed(c, s)
    ensures Routed(c, s')
  {
    var s' := s.(srcQ := seq(c.sources, i requires 0 <= i < c.sources =>
                   SourceStep(c, clock, s.srcQ[i], s.srcNic[i]).0),
                 srcNic := seq(c.sources, i requires 0 <= i < c.sources =>
                   SourceStep(c, clock, s.srcQ[i], s.srcNic[i]).1));
    assert forall i :: 0 <= i < c.sources ==> AllFrom(c, s'.srcQ[i], i) && AllFrom(c, s'.srcNic[i], i) by {
      forall i | 0 <= i < c.sources ensures AllFrom(c, s'.srcQ[i], i) && AllFrom(c, s'.srcNic[i], i) {
        SourceStepRoutes(c, clock, s.srcQ[i], s.srcNic[i], i);
      }
    }
    s'
  }

  lemma NicStepRoutes(c: Config, clock: int, nic: Queue, row: seq<Queue>, i: nat)
    requires c.Valid() && AllFrom(c, nic, i) && RowOK(c, row, i)
    ensures AllFrom(c, NicStep(c, clock, nic, row).0, i) && RowOK(c, NicStep(c, clock, nic, row).1, i)
  {
    var t := Transmit(c, clock, nic, row);
    assert AllFrom(c, t.0, i) && RowOK(c, t.1, i);
  }

  /** Whether the head of the NIC completes its transmission in this step. */
  predicate Departs(c: Config, clock: int, nic: Queue, row: seq<Queue>)
    requires c.Valid()
  {
    && nic != [] && nic[0].cycle == clock
    && RowBytes(c, row) + Size(c, nic[0].mem) <= c.inputCapacity
    && nic[0].transmitting > 0 && nic[0].transmitting == NicDelay(c, nic[0].mem)
  }

  function Record(c: Config, clock: int, nic: Queue, row: seq<Queue>, sent: seq<Sent>): seq<Sent>
    requires c.Valid()
  {
    if Departs(c, clock, nic, row) then sent + [Sent(clock, Size(c, nic[0].mem))] else sent
  }

  function Nics(c: Config, clock: int, s: Net): (s': Net)
    requires Routed(c, s)
    ensures Routed(c, s')
  {
    assert forall i :: 0 <= i < c.sources ==> AllFrom(c, s.srcNic[i], i) && RowOK(c, s.virt[i], i);
    var s' := s.(srcNic := seq(c.sources, i requires 0 <= i < c.sources => NicStep(c, clock, s.srcNic[i], s.virt[i]).0),
                 virt := seq(c.sources, i requires 0 <= i < c.sources => NicStep(c, clock, s.srcNic[i], s.virt[i]).1),
                 sent := seq(c.sources, i requires 0 <= i < c.sources =>
                   Record(c, clock, s.srcNic[i], s.virt[i], s.sent[i])));
    assert forall i :: 0 <= i < c.sources ==> AllFrom(c, s'.srcNic[i], i) && RowOK(c, s'.virt[i], i) by {
      forall i | 0 <= i < c.sources ensures AllFrom(c, s'.srcNic[i], i) && RowOK(c, s'.virt[i], i) {
        NicStepRoutes(c, clock, s.srcNic[i], s.virt[i], i);
      }
    }
    s'
  }

  ghost predicate CrossbarRouted(c: Config, x: Crossbar) {
    CrossbarOK(c, x) && VirtOK(c, x.virt) && EachTo(c, x.out)
  }

  lemma TransferRoutes(c: Config, x: Crossbar)
    requires CrossbarRouted(c, x) && x.virt[x.arb][x.vq[x.arb]] != []
    ensures CrossbarRouted(c, Transfer(c, x))
  {
    var i, j := x.arb, x.vq[x.arb];
    var x' := Transfer(c, x);
    assert RowOK(c, x.virt[i], i) && AllTo(c, x.virt[i][j], j);
    assert AllTo(c, x'.out[j], j) by { assert AllTo(c, x.out[j], j); }
    assert RowOK(c, x'.virt[i], i);
  }

  lemma {:induction false} TryPortRoutes(c: Config, clock: int, x: Crossbar, k: nat)
    requires CrossbarRouted(c, x) && k <= c.dests
    ensures CrossbarRouted(c, TryPort(c, clock, x, k))
    decreases c.dests - k
  {
    if k < c.dests {
      var j := x.vq[x.arb];
      var q := x.virt[x.arb][j];
      if Due(q, clock) && x.status[j] != 0 {
        if TooLarge(c, x.status[j], Size(c, q[0].mem)) {
          TryPortRoutes(c, clock, SkipQueue(c, x.(ready := x.ready - 1)), k + 1);
        } else {
          TransferRoutes(c, x);
        }
      } else {
        TryPortRoutes(c, clock, SkipQueue(c, x), k + 1);
      }
    }
  }

  lemma {:induction false} ArbitrateRoutes(c: Config, clock: int, x: Crossbar)
    requires CrossbarRouted(c, x)
    ensures CrossbarRouted(c, Arbitrate(c, clock, x))
    decreases c.sources - x.tried
  {
    if Arbitrating(c, x) {
      TriedGrows(c, clock, x, 0);
      TryPortRoutes(c, clock, x, 0);
      ArbitrateRoutes(c, clock, NextPort(c, TryPort(c, clock, x, 0)));
    }
  }

  function StartOf(c: Config, clock: int, s: Net): (x: Crossbar)
    requires Routed(c, s)
    ensures CrossbarRouted(c, x)
  {
    var x := StartCrossbar(c, clock, s.virt, s.out, s.arb, s.vq);
    assert forall i :: 0 <= i < c.sources ==> RowOK(c, s.virt[i], i);
    x
  }

  function Switch(c: Config, clock: int, s: Net): (s': Net)
    requires Routed(c, s)
    ensures Routed(c, s')
  {
    ArbitrateRoutes(c, clock, StartOf(c, clock, s));
    var x := Arbitrate(c, clock, StartOf(c, clock, s));
    var virt := BumpAll(x.virt, clock);
    assert forall i :: 0 <= i < c.sources ==> RowOK(c, virt[i], i) by {
      forall i | 0 <= i < c.sources ensures RowOK(c, virt[i], i) {
        assert RowOK(c, x.virt[i], i);
      }
    }
    s.(virt := virt, out := x.out, arb := x.arb, vq := x.vq)
  }

  lemma OutputStepRoutes(c: Config, clock: int, out: Queue, nic: Queue, j: nat)
    requires c.Valid() && AllTo(c, out, j) && AllTo(c, nic, j)
    ensures AllTo(c, OutputStep(c, clock, out, nic).0, j) && AllTo(c, OutputStep(c, clock, out, nic).1, j)
  {
  }

  function Outputs(c: Config, clock: int, s: Net): (s': Net)
    requires Routed(c, s)
    ensures Routed(c, s')
  {
    var s' := s.(out := seq(c.dests, j requires 0 <= j < c.dests => OutputStep(c, clock, s.out[j], s.dstNic[j]).0),
                 dstNic := seq(c.dests, j requires 0 <= j < c.dests => OutputStep(c, clock, s.out[j], s.dstNic[j]).1));
    assert forall j :: 0 <= j < c.dests ==> AllTo(c, s'.out[j], j) && AllTo(c, s'.dstNic[j], j) by {
      forall j | 0 <= j < c.dests ensures AllTo(c, s'.out[j], j) && AllTo(c, s'.dstNic[j], j) {
        OutputStepRoutes(c, clock, s.out[j], s.dstNic[j], j);
      }
    }
    s'
  }

  lemma DestStepRoutes(c: Config, clock: int, nic: Queue, collector: Queue, j: nat)
    requires AllTo(c, nic, j) && AllTo(c, collector, j)
    ensures AllTo(c, DestStep(c, clock, nic, collector).0, j) && AllTo(c, DestStep(c, clock, nic, collector).1, j)
  {
  }

  function Dests(c: Config, clock: int, s: Net): (s': Net)
    requires Routed(c, s)
    ensures Routed(c, s')
  {
    var s' := s.(dstNic := seq(c.dests, j requires 0 <= j < c.dests =>
                   DestStep(c, clock, s.dstNic[j], s.collector[j]).0),
                 collector := seq(c.dests, j requires 0 <= j < c.dests =>
                   DestStep(c, clock, s.dstNic[j], s.collector[j]).1));
    assert forall j :: 0 <= j < c.dests ==> AllTo(c, s'.dstNic[j], j) && AllTo(c, s'.collector[j], j) by {
      forall j | 0 <= j < c.dests ensures AllTo(c, s'.dstNic[j], j) && AllTo(c, s'.collector[j], j) {
        DestStepRoutes(c, clock, s.dstNic[j], s.collector[j], j);
      }
    }
    s'
  }

  lemma {:induction false} DeliverSplits(clock: int, collector: Queue, delivered: Queue)
    ensures var (rest, done) := Deliver(clock, collector, delivered);
            done + rest == delivered + collector && delivered <= done
    decreases |collector|
  {
    if Due(collector, clock) {
      DeliverSplits(clock, collector[1..], delivered + [collector[0]]);
    }
  }

  function Deliveries(c: Config, clock: int, s: Net): (s': Net)
    requires Routed(c, s)
    ensures Routed(c, s')
  {
    var s' := s.(collector := seq(c.dests, j requires 0 <= j < c.dests =>
                   Deliver(clock, s.collector[j], s.delivered[j]).0),
                 delivered := seq(c.dests, j requires 0 <= j < c.dests =>
                   Deliver(clock, s.collector[j], s.delivered[j]).1));
    assert forall j :: 0 <= j < c.dests ==> AllTo(c, s'.collector[j], j) && AllTo(c, s'.delivered[j], j) by {
      forall j | 0 <= j < c.dests ensures AllTo(c, s'.collector[j], j) && AllTo(c, s'.delivered[j], j) {
        DeliverRoutes(c, clock, s.collector[j], s.delivered[j], j);
      }
    }
    s'
  }

  lemma {:induction false} DeliverRoutes(c: Config, clock: int, collector: Queue, delivered: Queue, j: nat)
    requires AllTo(c, collector, j) && AllTo(c, delivered, j)
    ensures AllTo(c, Deliver(clock, collector, delivered).0, j) && AllTo(c, Deliver(clock, collector, delivered).1, j)
    decreases |collector|
  {
    if Due(collector, clock) {
      DeliverRoutes(c, clock, collector[1..], delivered + [collector[0]], j);
    }
  }

  // ---------- Cycles and runs ----------

  function Inject(c: Config, s: Net, ms: seq<Mem>): (s': Net)
    requires Routed(c, s) && BatchOK(c, ms)
    ensures Routed(c, s')
  {
    s.(srcQ := InjectAll(c, s.srcQ, ms))
  }

  /** `simulate_network`. */
  function Simulate(c: Config, clock: int, s: Net): (s': Net)
    requires Routed(c, s)
    ensures Routed(c, s')
  {
    Deliveries(c, clock, Dests(c, clock, Outputs(c, clock, Switch(c, clock, Nics(c, clock, Sources(c, clock, s))))))
  }

  /** The network after the cycles 0, 1, ..., |batches| - 1, with the requests made in each. */
  function Run(c: Config, batches: seq<seq<Mem>>): (s: Net)
    requires c.Valid() && forall t :: 0 <= t < |batches| ==> BatchOK(c, batches[t])
    ensures Routed(c, s)
  {
    if batches == [] then Empty(c)
    else
      var t := |batches| - 1;
      Simulate(c, t, Inject(c, Run(c, batches[..t]), batches[t]))
  }
}
