/** How long a packet takes and how fast a NIC sends, over whole runs. */
module NetTiming {
  import opened NetSpec
  import opened NetSystem

  // ---------- The recorded stage times ----------

  ghost predicate TimedSource(c: Config, p: Packet) {
    p.transmitting == 0 && p.cycle >= p.mem.requestCycle + PrepareDelay(c) + p.processing
  }

  ghost predicate TimedNic(c: Config, p: Packet) {
    && p.inNicSource >= p.mem.requestCycle + PrepareDelay(c) + c.nicProcDelay
    && p.processing == 0 && p.cycle >= p.inNicSource + p.transmitting
  }

  ghost predicate SentOn(c: Config, p: Packet)
    requires c.Valid()
  {
    && p.inNicSource >= p.mem.requestCycle + PrepareDelay(c) + c.nicProcDelay
    && p.outNicSource >= p.inNicSource + NicDelay(c, p.mem)
    && p.inSwitchInput == p.outNicSource + c.propDelay
  }

  ghost predicate TimedVirtual(c: Config, p: Packet)
    requires c.Valid()
  {
    SentOn(c, p) && p.transmitting == 0 && p.processing == 0 && p.cycle >= p.inSwitchInput + c.switchProcDelay
  }

  ghost predicate SwitchedOn(c: Config, p: Packet)
    requires c.Valid()
  {
    && SentOn(c, p)
    && p.outSwitchInput >= p.inSwitchInput + c.switchProcDelay
    && p.inSwitchOutput == p.outSwitchInput + c.switchingDelay
  }

  ghost predicate TimedOutput(c: Config, p: Packet)
    requires c.Valid()
  {
    SwitchedOn(c, p) && p.processing == 0 && p.cycle >= p.inSwitchOutput + p.transmitting
  }

  ghost predicate LeftSwitch(c: Config, p: Packet)
    requires c.Valid()
  {
    && SwitchedOn(c, p)
    && p.outSwitchOutput >= p.inSwitchOutput + SwitchDelay(c, p.mem)
    && p.inNicDest == p.outSwitchOutput + c.propDelay
  }

  ghost predicate TimedDest(c: Config, p: Packet)
    requires c.Valid()
  {
    LeftSwitch(c, p) && p.cycle >= p.inNicDest + p.processing
  }

  /** All stage times recorded: each is at least the previous one plus that stage's delay. */
  ghost predicate Arrived(c: Config, p: Packet)
    requires c.Valid()
  {
    && LeftSwitch(c, p)
    && p.outNicDest >= p.inNicDest + c.nicProcDelay
    && p.cycle == p.outNicDest + c.packetisation
  }

  datatype Stage = AtSource | AtNic | AtVirtual | AtOutput | AtDest | AtCollector

  ghost predicate Timed(c: Config, p: Packet, stage: Stage)
    requires c.Valid()
  {
    match stage
    case AtSource => TimedSource(c, p)
    case AtNic => TimedNic(c, p)
    case AtVirtual => TimedVirtual(c, p)
    case AtOutput => TimedOutput(c, p)
    case AtDest => TimedDest(c, p)
    case AtCollector => Arrived(c, p)
  }

  ghost predicate AllTimed(c: Config, q: Queue, stage: Stage)
    requires c.Valid()
  {
    forall k :: 0 <= k < |q| ==> Timed(c, q[k], stage)
  }

  /** Waiting only makes a packet later; in the collector nothing waits. */
  lemma BumpTimed(c: Config, q: Queue, clock: int, stage: Stage)
    requires c.Valid() && AllTimed(c, q, stage) && stage != AtCollector
    ensures AllTimed(c, Bump(q, clock), stage)
  {
    var r := Bump(q, clock);
    forall k | 0 <= k < |r| ensures Timed(c, r[k], stage) {
      assert Timed(c, q[k], stage);
    }
  }

  lemma RestTimed(c: Config, q: Queue, clock: int, stage: Stage)
    requires c.Valid() && AllTimed(c, q, stage) && stage != AtCollector && q != []
    ensures AllTimed(c, Bump(q[1..], clock), stage)
  {
    BumpTimed(c, q[1..], clock, stage);
  }

  /** Whoever makes progress at its head also waits a cycle. */
  lemma WorkTimed(c: Config, q: Queue, p: Packet, clock: int, stage: Stage)
    requires c.Valid() && AllTimed(c, q, stage) && stage != AtCollector && q != []
    requires p.cycle == clock && Timed(c, p.(cycle := clock + 1), stage)
    ensures AllTimed(c, Bump(q[0 := p], clock), stage)
  {
    var r := Bump(q[0 := p], clock);
    assert r[0] == p.(cycle := clock + 1);
    forall k | 0 <= k < |r| ensures Timed(c, r[k], stage) {
      if k > 0 {
        assert Timed(c, q[k], stage);
      }
    }
  }

  lemma PushTimed(c: Config, q: Queue, p: Packet, stage: Stage)
    requires c.Valid() && AllTimed(c, q, stage) && Timed(c, p, stage)
    ensures AllTimed(c, q + [p], stage)
  {
  }

  // ---------- The stages ----------

  lemma SourceTimed(c: Config, clock: int, q: Queue, nic: Queue)
    requires c.Valid() && AllTimed(c, q, AtSource) && AllTimed(c, nic, AtNic)
    ensures var (q', nic') := SourceStep(c, clock, q, nic);
            AllTimed(c, q', AtSource) && AllTimed(c, nic', AtNic)
  {
    hide Bytes, Size, NicDelay, SwitchDelay;
    if q != [] {
      var head := q[0];
      assert Timed(c, head, AtSource);
      hide AllTimed;
      BumpTimed(c, q, clock, AtSource);
      RestTimed(c, q, clock, AtSource);
      if head.cycle == clock {
        WorkTimed(c, q, head.(processing := head.processing + 1), clock, AtSource);
        if head.processing == c.nicProcDelay {
          PushTimed(c, nic, head.(inNicSource := head.cycle, processing := 0), AtNic);
        }
      }
    }
  }

  lemma NicTimed(c: Config, clock: int, nic: Queue, row: seq<Queue>)
    requires c.Valid() && AllTimed(c, nic, AtNic)
    requires forall k :: 0 <= k < |nic| ==> nic[k].mem.dest < |row|
    ensures AllTimed(c, NicStep(c, clock, nic, row).0, AtNic)
  {
    hide RowBytes, Size, NicDelay, SwitchDelay, Bump;
    var nic1 := Transmit(c, clock, nic, row).0;
    if nic != [] {
      var head := nic[0];
      assert Timed(c, head, AtNic);
      hide AllTimed;
      RestTimed(c, nic, clock, AtNic);
      if head.cycle == clock {
        WorkTimed(c, nic, head.(transmitting := head.transmitting + 1), clock, AtNic);
      }
    }
    BumpTimed(c, nic1, clock, AtNic);
  }

  lemma VirtualTimed(c: Config, clock: int, nic: Queue, row: seq<Queue>, j: nat)
    requires c.Valid() && AllTimed(c, nic, AtNic) && j < |row| && AllTimed(c, row[j], AtVirtual)
    requires forall k :: 0 <= k < |nic| ==> nic[k].mem.dest < |row|
    ensures j < |NicStep(c, clock, nic, row).1| && AllTimed(c, NicStep(c, clock, nic, row).1[j], AtVirtual)
  {
    hide RowBytes, Size, NicDelay, SwitchDelay, Bump;
    if nic != [] {
      var head := nic[0];
      assert Timed(c, head, AtNic);
      hide AllTimed;
      if head.transmitting == NicDelay(c, head.mem) {
        PushTimed(c, row[j], Departed(c, head), AtVirtual);
      }
    }
  }

  ghost predicate CrossbarTimed(c: Config, x: Crossbar)
    requires c.Valid()
  {
    && (forall i, j :: 0 <= i < |x.virt| && 0 <= j < |x.virt[i]| ==> AllTimed(c, x.virt[i][j], AtVirtual))
    && (forall j :: 0 <= j < |x.out| ==> AllTimed(c, x.out[j], AtOutput))
  }

  lemma TransferTimed(c: Config, x: Crossbar)
    requires c.Valid() && CrossbarOK(c, x) && CrossbarTimed(c, x) && x.virt[x.arb][x.vq[x.arb]] != []
    ensures CrossbarTimed(c, Transfer(c, x))
  {
    var q, out := x.virt[x.arb][x.vq[x.arb]], x.out[x.vq[x.arb]];
    assert Timed(c, q[0], AtVirtual);
    PushTimed(c, out, Crossed(c, q[0]), AtOutput);
    assert AllTimed(c, q[1..], AtVirtual);
    hide AllTimed, Timed;
  }

  lemma {:induction false} TryPortTimed(c: Config, clock: int, x: Crossbar, k: nat)
    requires c.Valid() && CrossbarOK(c, x) && CrossbarTimed(c, x) && k <= c.dests
    ensures CrossbarTimed(c, TryPort(c, clock, x, k))
    decreases c.dests - k
  {
    hide AllTimed;
    if k < c.dests {
      var j := x.vq[x.arb];
      var q := x.virt[x.arb][j];
      if Due(q, clock) && x.status[j] != 0 {
        if TooLarge(c, x.status[j], Size(c, q[0].mem)) {
          TryPortTimed(c, clock, SkipQueue(c, x.(ready := x.ready - 1)), k + 1);
        } else {
          TransferTimed(c, x);
        }
      } else {
        TryPortTimed(c, clock, SkipQueue(c, x), k + 1);
      }
    }
  }

  lemma {:induction false} ArbitrateTimed(c: Config, clock: int, x: Crossbar)
    requires c.Valid() && CrossbarOK(c, x) && CrossbarTimed(c, x)
    ensures CrossbarTimed(c, Arbitrate(c, clock, x))
    decreases c.sources - x.tried
  {
    hide AllTimed;
    if Arbitrating(c, x) {
      TriedGrows(c, clock, x, 0);
      TryPortTimed(c, clock, x, 0);
      ArbitrateTimed(c, clock, NextPort(c, TryPort(c, clock, x, 0)));
    }
  }

  lemma OutputTimed(c: Config, clock: int, out: Queue, nic: Queue)
    requires c.Valid() && AllTimed(c, out, AtOutput) && AllTimed(c, nic, AtDest)
    ensures var (out', nic') := OutputStep(c, clock, out, nic);
            AllTimed(c, out', AtOutput) && AllTimed(c, nic', AtDest)
  {
    hide Bytes, Size, NicDelay, SwitchDelay;
    if out != [] {
      var head := out[0];
      assert Timed(c, head, AtOutput);
      hide AllTimed;
      BumpTimed(c, out, clock, AtOutput);
      RestTimed(c, out, clock, AtOutput);
      if head.cycle == clock {
        WorkTimed(c, out, head.(transmitting := head.transmitting + 1), clock, AtOutput);
        if head.transmitting == SwitchDelay(c, head.mem) {
          PushTimed(c, nic, SwitchedOut(c, head), AtDest);
        }
      }
    }
  }

  lemma DestTimed(c: Config, clock: int, nic: Queue, collector: Queue)
    requires c.Valid() && AllTimed(c, nic, AtDest) && AllTimed(c, collector, AtCollector)
    ensures var (nic', collector') := DestStep(c, clock, nic, collector);
            AllTimed(c, nic', AtDest) && AllTimed(c, collector', AtCollector)
  {
    hide Size, NicDelay, SwitchDelay;
    if nic != [] {
      var head := nic[0];
      assert Timed(c, head, AtDest);
      hide AllTimed;
      RestTimed(c, nic, clock, AtDest);
      if head.cycle == clock {
        WorkTimed(c, nic, head.(processing := head.processing + 1), clock, AtDest);
        if head.processing == c.nicProcDelay {
          PushTimed(c, collector, Collected(c, head), AtCollector);
        }
      }
    }
  }

  // ---------- Whole runs ----------

  /** Every packet's recorded times are consistent with the stage it is in; a delivered packet's last
      stamp is the cycle in which memory got it. */
  ghost predicate NetTimed(c: Config, s: Net)
    requires c.Valid()
  {
    && EachTimed(c, s.srcQ, AtSource) && EachTimed(c, s.srcNic, AtNic) && VirtTimed(c, s.virt)
    && EachTimed(c, s.out, AtOutput) && EachTimed(c, s.dstNic, AtDest)
    && EachTimed(c, s.collector, AtCollector) && EachTimed(c, s.delivered, AtCollector)
  }

  ghost predicate EachTimed(c: Config, qs: seq<Queue>, stage: Stage)
    requires c.Valid()
  {
    forall i :: 0 <= i < |qs| ==> AllTimed(c, qs[i], stage)
  }

  ghost predicate VirtTimed(c: Config, virt: seq<seq<Queue>>)
    requires c.Valid()
  {
    forall i, j :: 0 <= i < |virt| && 0 <= j < |virt[i]| ==> AllTimed(c, virt[i][j], AtVirtual)
  }

  lemma SourcesTimed(c: Config, clock: int, s: Net)
    requires Routed(c, s) && NetTimed(c, s)
    ensures NetTimed(c, Sources(c, clock, s))
  {
    hide AllTimed, SourceStep;
    forall i | 0 <= i < c.sources
      ensures AllTimed(c, SourceStep(c, clock, s.srcQ[i], s.srcNic[i]).0, AtSource)
      ensures AllTimed(c, SourceStep(c, clock, s.srcQ[i], s.srcNic[i]).1, AtNic)
    {
      SourceTimed(c, clock, s.srcQ[i], s.srcNic[i]);
    }
  }

  lemma NicsTimed(c: Config, clock: int, s: Net)
    requires Routed(c, s) && NetTimed(c, s)
    ensures NetTimed(c, Nics(c, clock, s))
  {
    var s' := Nics(c, clock, s);
    hide AllTimed, NicStep;
    forall i | 0 <= i < c.sources
      ensures AllTimed(c, s'.srcNic[i], AtNic)
      ensures forall j :: 0 <= j < |s'.virt[i]| ==> AllTimed(c, s'.virt[i][j], AtVirtual)
    {
      assert AllFrom(c, s.srcNic[i], i) && RowOK(c, s.virt[i], i) && RowOK(c, s'.virt[i], i);
      NicTimed(c, clock, s.srcNic[i], s.virt[i]);
      forall j | 0 <= j < |s'.virt[i]| ensures AllTimed(c, s'.virt[i][j], AtVirtual) {
        VirtualTimed(c, clock, s.srcNic[i], s.virt[i], j);
      }
    }
  }

  lemma SwitchTimed(c: Config, clock: int, s: Net)
    requires Routed(c, s) && NetTimed(c, s)
    ensures NetTimed(c, Switch(c, clock, s))
  {
    var x0 := StartOf(c, clock, s);
    hide AllTimed;
    ArbitrateTimed(c, clock, x0);
    var x := Arbitrate(c, clock, x0);
    var s' := Switch(c, clock, s);
    hide Arbitrate;
    forall i, j | 0 <= i < |s'.virt| && 0 <= j < |s'.virt[i]| ensures AllTimed(c, s'.virt[i][j], AtVirtual) {
      BumpTimed(c, x.virt[i][j], clock, AtVirtual);
    }
  }

  lemma OutputsTimed(c: Config, clock: int, s: Net)
    requires Routed(c, s) && NetTimed(c, s)
    ensures NetTimed(c, Outputs(c, clock, s))
  {
    hide AllTimed, OutputStep;
    forall j | 0 <= j < c.dests
      ensures AllTimed(c, OutputStep(c, clock, s.out[j], s.dstNic[j]).0, AtOutput)
      ensures AllTimed(c, OutputStep(c, clock, s.out[j], s.dstNic[j]).1, AtDest)
    {
      OutputTimed(c, clock, s.out[j], s.dstNic[j]);
    }
  }

  lemma DestsTimed(c: Config, clock: int, s: Net)
    requires Routed(c, s) && NetTimed(c, s)
    ensures NetTimed(c, Dests(c, clock, s))
  {
    hide AllTimed, DestStep;
    forall j | 0 <= j < c.dests
      ensures AllTimed(c, DestStep(c, clock, s.dstNic[j], s.collector[j]).0, AtDest)
      ensures AllTimed(c, DestStep(c, clock, s.dstNic[j], s.collector[j]).1, AtCollector)
    {
      DestTimed(c, clock, s.dstNic[j], s.collector[j]);
    }
  }

  lemma {:induction false} DeliverTimed(c: Config, clock: int, collector: Queue, delivered: Queue)
    requires c.Valid() && AllTimed(c, collector, AtCollector) && AllTimed(c, delivered, AtCollector)
    requires forall k :: 0 <= k < |delivered| ==> delivered[k].cycle <= clock
    ensures var (rest, done) := Deliver(clock, collector, delivered);
            && AllTimed(c, rest, AtCollector) && AllTimed(c, done, AtCollector)
            && (forall k :: 0 <= k < |done| ==> done[k].cycle <= clock)
    decreases |collector|
  {
    if Due(collector, clock) {
      PushTimed(c, delivered, collector[0], AtCollector);
      DeliverTimed(c, clock, collector[1..], delivered + [collector[0]]);
    }
  }

  ghost predicate DeliveredBy(s: Net, clock: int) {
    forall j, k :: 0 <= j < |s.delivered| && 0 <= k < |s.delivered[j]| ==> s.delivered[j][k].cycle <= clock
  }

  lemma DeliveriesTimed(c: Config, clock: int, s: Net)
    requires Routed(c, s) && NetTimed(c, s) && DeliveredBy(s, clock)
    ensures NetTimed(c, Deliveries(c, clock, s)) && DeliveredBy(Deliveries(c, clock, s), clock)
  {
    var s' := Deliveries(c, clock, s);
    hide AllTimed, Deliver;
    forall j | 0 <= j < c.dests
      ensures AllTimed(c, s'.collector[j], AtCollector) && AllTimed(c, s'.delivered[j], AtCollector)
      ensures forall k :: 0 <= k < |s'.delivered[j]| ==> s'.delivered[j][k].cycle <= clock
    {
      DeliverTimed(c, clock, s.collector[j], s.delivered[j]);
    }
  }

  lemma SimulateTimed(c: Config, clock: int, s: Net)
    requires Routed(c, s) && NetTimed(c, s) && DeliveredBy(s, clock)
    ensures NetTimed(c, Simulate(c, clock, s)) && DeliveredBy(Simulate(c, clock, s), clock)
  {
    hide NetTimed;
    var s1 := Sources(c, clock, s);
    var s2 := Nics(c, clock, s1);
    var s3 := Switch(c, clock, s2);
    var s4 := Outputs(c, clock, s3);
    var s5 := Dests(c, clock, s4);
    SourcesTimed(c, clock, s);
    NicsTimed(c, clock, s1);
    SwitchTimed(c, clock, s2);
    OutputsTimed(c, clock, s3);
    DestsTimed(c, clock, s4);
    DeliveriesTimed(c, clock, s5);
  }

  lemma {:induction false} InjectTimed(c: Config, srcQ: seq<Queue>, ms: seq<Mem>)
    requires c.Valid() && EachFrom(c, srcQ) && BatchOK(c, ms)
    requires EachTimed(c, srcQ, AtSource)
    ensures EachTimed(c, InjectAll(c, srcQ, ms), AtSource)
    decreases |ms|
  {
    if ms != [] {
      var front, m := ms[..|ms| - 1], ms[|ms| - 1];
      InjectTimed(c, srcQ, front);
      var before := InjectAll(c, srcQ, front);
      assert AllTimed(c, before[m.source], AtSource);
      PushTimed(c, before[m.source], Packetised(c, m), AtSource);
    }
  }

  lemma {:induction false} RunTimed(c: Config, batches: seq<seq<Mem>>)
    requires c.Valid() && forall t :: 0 <= t < |batches| ==> BatchOK(c, batches[t])
    ensures NetTimed(c, Run(c, batches)) && DeliveredBy(Run(c, batches), |batches| - 1)
    decreases |batches|
  {
    hide Simulate, AllTimed;
    if batches != [] {
      var t := |batches| - 1;
      RunTimed(c, batches[..t]);
      var s := Run(c, batches[..t]);
      InjectTimed(c, s.srcQ, batches[t]);
      SimulateTimed(c, t, Inject(c, s, batches[t]));
    } else {
      EmptyTimed(c);
    }
  }

  lemma EmptyTimed(c: Config)
    requires c.Valid()
    ensures NetTimed(c, Empty(c)) && DeliveredBy(Empty(c), -1)
  {
  }

  // ---------- The latency floor ----------

  /** Packetisation at both ends, two NIC processing delays, both transmissions, two propagations,
      the switch's processing and the switching delay. */
  function LatencyFloor(c: Config, m: Mem): nat
    requires c.Valid()
  {
    PrepareDelay(c) + c.nicProcDelay + NicDelay(c, m) + c.propDelay + c.switchProcDelay + c.switchingDelay
    + SwitchDelay(c, m) + c.propDelay + c.nicProcDelay + c.packetisation
  }

  /** A transmission takes the whole cycles in which the link can carry the packet's bits, packetisation as
      many cycles as it lasts, but for a half. */
  lemma DelaysAreWhole(c: Config, m: Mem)
    requires c.Valid()
    ensures NicDelay(c, m) * c.nicBandwidth <= 8 * Size(c, m) < (NicDelay(c, m) + 1) * c.nicBandwidth
    ensures SwitchDelay(c, m) * c.switchBandwidth <= 8 * Size(c, m) < (SwitchDelay(c, m) + 1) * c.switchBandwidth
    ensures PrepareDelay(c) % 2 == 0 && PrepareDelay(c) <= c.packetisation <= PrepareDelay(c) + 1
  {
    hide Size;
  }

  /** A request and its answer are a packet of 64 bytes and one that has the data with it: 128 bytes, or a
      whole RDMA packet. Only accesses numbered 0 send the data there, all others get it back. */
  lemma DataTravelsOnce(c: Config, m: Mem)
    ensures var there, back := Size(c.(reverse := false), m), Size(c.(reverse := true), m);
            && there + back == 64 + (if m.transId != 0 && m.transId > c.rdmaFrom then c.rdmaSize else 128)
            && (if m.transId == 0 then back == 64 else there == 64)
  {
  }

  /** The stage times in the order in which a packet passes the stages. */
  ghost predicate TimesInOrder(p: Packet) {
    p.mem.requestCycle <= p.inNicSource <= p.outNicSource <= p.inSwitchInput <= p.outSwitchInput
    <= p.inSwitchOutput <= p.outSwitchOutput <= p.inNicDest <= p.outNicDest <= p.cycle
  }

  /** In every run, memory gets a request no earlier than the latency floor after it was made, in a cycle
      of the run, and the stage times recorded on the way never decrease. */
  lemma LatencyBound(c: Config, batches: seq<seq<Mem>>, j: nat, k: nat)
    requires c.Valid() && j < c.dests
    requires forall t :: 0 <= t < |batches| ==> BatchOK(c, batches[t])
    requires k < |Run(c, batches).delivered[j]|
    ensures var p := Run(c, batches).delivered[j][k];
            p.mem.requestCycle + LatencyFloor(c, p.mem) <= p.cycle < |batches| && TimesInOrder(p)
  {
    RunTimed(c, batches);
    ArrivedInTime(c, Run(c, batches), j, k, |batches| - 1);
    hide Run, NetTimed, DeliveredBy, LatencyFloor, TimesInOrder;
  }

  lemma ArrivedInTime(c: Config, s: Net, j: nat, k: nat, clock: int)
    requires c.Valid() && NetTimed(c, s) && DeliveredBy(s, clock) && j < |s.delivered| && k < |s.delivered[j]|
    ensures var p := s.delivered[j][k];
            p.mem.requestCycle + LatencyFloor(c, p.mem) <= p.cycle <= clock && TimesInOrder(p)
  {
    assert AllTimed(c, s.delivered[j], AtCollector);
    assert Timed(c, s.delivered[j][k], AtCollector);
  }
}
