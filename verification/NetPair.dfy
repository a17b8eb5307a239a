/** Two senders and one receiver, each sender with one request made in cycle 0: the requests' way to the
    output, cycle by cycle. `NetBlocked` and `NetOverfill` use it for runs in which something goes wrong. */
module NetPair {
  import opened NetSpec
  import opened NetSystem
  import opened NetClock

  /** No delays but a cycle in the NIC and one in the switch, and buffers that admit the requests. */
  ghost predicate Pair(c: Config, m: Mem) {
    && c.Valid() && c.sources == 2 && c.dests == 1
    && c.packetisation == 0 && c.nicProcDelay == 1 && c.propDelay == 0
    && c.switchProcDelay == 0 && c.switchingDelay == 1
    && m.dest == 0 && m.requestCycle == 0 && NicDelay(c, m) >= 1 && SwitchDelay(c, m) >= 1
    && Size(c, m) <= c.nicCapacity && 2 * Size(c, m) <= c.inputCapacity
    && Size(c, m) + c.rdmaSize <= c.outputCapacity
  }

  function Ask(m: Mem, i: nat): Mem {
    m.(source := i)
  }

  ghost predicate Is(p: Packet, m: Mem, i: nat, cycle: int, processing: nat, transmitting: nat) {
    p.mem == Ask(m, i) && p.cycle == cycle && p.processing == processing && p.transmitting == transmitting
  }

  ghost predicate Just(q: Queue, m: Mem, i: nat, cycle: int, processing: nat, transmitting: nat) {
    |q| == 1 && Is(q[0], m, i, cycle, processing, transmitting)
  }

  lemma Sizes(c: Config, m: Mem, p: Packet, i: nat)
    requires Pair(c, m) && p.mem == Ask(m, i)
    ensures Size(c, p.mem) == Size(c, m) && NicDelay(c, p.mem) == NicDelay(c, m)
            && SwitchDelay(c, p.mem) == SwitchDelay(c, m)
    ensures Bytes(c, []) == 0 && Bytes(c, [p]) == Size(c, m)
  {
    assert [p][..0] == [];
  }

  // ---------- Stages with nothing to do ----------

  lemma IdleSources(c: Config, t: int, s: Net)
    requires Routed(c, s) && forall i :: 0 <= i < c.sources ==> s.srcQ[i] == []
    ensures Sources(c, t, s) == s
  {
    assert Sources(c, t, s).srcQ == s.srcQ && Sources(c, t, s).srcNic == s.srcNic;
  }

  lemma IdleNics(c: Config, t: int, s: Net)
    requires Routed(c, s) && forall i :: 0 <= i < c.sources ==> s.srcNic[i] == []
    ensures Nics(c, t, s) == s
  {
    var s' := Nics(c, t, s);
    hide RowBytes, Size;
    assert s'.srcNic == s.srcNic && s'.virt == s.virt && s'.sent == s.sent;
  }

  lemma {:induction false} NoRowReady(row: seq<Queue>, t: int)
    requires forall j :: 0 <= j < |row| ==> row[j] == []
    ensures RowReady(row, t) == 0
    decreases |row|
  {
    if row != [] {
      NoRowReady(row[..|row| - 1], t);
    }
  }

  lemma {:induction false} NoneReady(virt: seq<seq<Queue>>, t: int)
    requires forall i, j :: 0 <= i < |virt| && 0 <= j < |virt[i]| ==> virt[i][j] == []
    ensures ReadyPackets(virt, t) == 0
    decreases |virt|
  {
    if virt != [] {
      NoneReady(virt[..|virt| - 1], t);
      NoRowReady(virt[|virt| - 1], t);
    }
  }

  lemma IdleSwitch(c: Config, t: int, s: Net)
    requires Routed(c, s) && forall i, j :: 0 <= i < |s.virt| && 0 <= j < |s.virt[i]| ==> s.virt[i][j] == []
    ensures Switch(c, t, s) == s
  {
    NoneReady(s.virt, t);
    assert forall i :: 0 <= i < |s.virt| ==> BumpRow(s.virt[i], t) == s.virt[i];
    assert BumpAll(s.virt, t) == s.virt;
  }

  lemma IdleOutputs(c: Config, t: int, s: Net)
    requires Routed(c, s) && forall j :: 0 <= j < c.dests ==> s.out[j] == []
    ensures Outputs(c, t, s) == s
  {
    assert Outputs(c, t, s).out == s.out && Outputs(c, t, s).dstNic == s.dstNic;
  }

  lemma IdleDests(c: Config, t: int, s: Net)
    requires Routed(c, s) && forall j :: 0 <= j < c.dests ==> s.dstNic[j] == []
    ensures Dests(c, t, s) == s
  {
    assert Dests(c, t, s).dstNic == s.dstNic && Dests(c, t, s).collector == s.collector;
  }

  lemma IdleDeliveries(c: Config, t: int, s: Net)
    requires Routed(c, s) && forall j :: 0 <= j < c.dests ==> s.collector[j] == []
    ensures Deliveries(c, t, s) == s
  {
    assert Deliveries(c, t, s).collector == s.collector && Deliveries(c, t, s).delivered == s.delivered;
  }

  // ---------- One packet, stage by stage ----------

  lemma SourceStarts(c: Config, m: Mem, t: int, q: Queue, i: nat)
    requires Pair(c, m) && Just(q, m, i, t, 0, 0)
    ensures var (q', nic') := SourceStep(c, t, q, []); Just(q', m, i, t + 1, 1, 0) && nic' == []
  {
    Sizes(c, m, q[0], i);
    hide Size, NicDelay, SwitchDelay, Bytes;
    assert q[0 := q[0].(processing := 1)][1..] == [];
  }

  lemma SourceFinishes(c: Config, m: Mem, t: int, q: Queue, i: nat)
    requires Pair(c, m) && Just(q, m, i, t, 1, 0)
    ensures var (q', nic') := SourceStep(c, t, q, []); q' == [] && Just(nic', m, i, t, 0, 0)
  {
    Sizes(c, m, q[0], i);
    hide Size, NicDelay, SwitchDelay, Bytes;
    assert q[1..] == [];
  }

  lemma EmptyRowBytes(c: Config)
    ensures RowBytes(c, [[]]) == 0
  {
    var row: seq<Queue> := [[]];
    assert row[..0] == [];
  }

  lemma OneRowBytes(c: Config, m: Mem, p: Packet, i: nat)
    requires Pair(c, m) && p.mem == Ask(m, i)
    ensures RowBytes(c, [[p]]) == Size(c, m)
  {
    Sizes(c, m, p, i);
    assert [[p]][..0] == [];
  }

  /** A transmission that is not yet complete takes another cycle. */
  lemma NicSends(c: Config, m: Mem, t: int, nic: Queue, i: nat, sent: nat)
    requires Pair(c, m) && Just(nic, m, i, t, 0, sent) && sent < NicDelay(c, m)
    ensures var (nic', row') := NicStep(c, t, nic, [[]]); Just(nic', m, i, t + 1, 0, sent + 1) && row' == [[]]
  {
    Sizes(c, m, nic[0], i);
    EmptyRowBytes(c);
    hide Size, NicDelay, SwitchDelay, Bytes, RowBytes;
    assert nic[0 := nic[0].(transmitting := sent + 1)][1..] == [];
  }

  lemma NicFinishes(c: Config, m: Mem, t: int, nic: Queue, i: nat)
    requires Pair(c, m) && Just(nic, m, i, t, 0, NicDelay(c, m))
    ensures var (nic', row') := NicStep(c, t, nic, [[]]); nic' == [] && |row'| == 1 && Just(row'[0], m, i, t, 0, 0)
  {
    var p := Departed(c, nic[0]);
    Sizes(c, m, nic[0], i);
    EmptyRowBytes(c);
    OneRowBytes(c, m, p, i);
    hide Size, NicDelay, SwitchDelay, Bytes, RowBytes;
    var none: Queue := [];
    assert nic[1..] == [] && none + [p] == [p] && [none][0 := none + [p]] == [[p]];
  }

  /** Two due heads for one output: the first port's crosses. */
  lemma FirstCrosses(c: Config, m: Mem, t: int, x: Crossbar)
    requires Pair(c, m)
    requires CrossbarOK(c, x) && x.arb == 0 && x.free == 1 && x.ready == 2 && x.tried == 0 && x.status == [3]
    requires Just(x.virt[0][0], m, 0, t, 0, 0) && Just(x.virt[1][0], m, 1, t, 0, 0) && x.out == [[]]
    ensures var x' := Arbitrate(c, t, x);
            && x'.virt[0][0] == [] && x'.virt[1][0] == x.virt[1][0]
            && Just(x'.out[0], m, 0, t + 1, 0, 0) && x'.arb == 0
  {
    hide Size;
    var x1 := NextPort(c, TryPort(c, t, x, 0));
    assert TryPort(c, t, x, 0) == Transfer(c, x);
    assert x1.tried == 2;
    assert Arbitrate(c, t, x) == Arbitrate(c, t, x1) == x1;
  }

  /** The first port has nothing left; the second's head crosses. */
  lemma SecondCrosses(c: Config, m: Mem, t: int, x: Crossbar)
    requires Pair(c, m)
    requires CrossbarOK(c, x) && x.arb == 0 && x.free == 1 && x.ready == 1 && x.tried == 0 && x.status == [3]
    requires x.virt[0][0] == [] && Just(x.virt[1][0], m, 1, t, 0, 0) && |x.out[0]| == 1
    ensures var x' := Arbitrate(c, t, x);
            && x'.virt[0][0] == [] && x'.virt[1][0] == []
            && |x'.out[0]| == 2 && x'.out[0][0] == x.out[0][0] && Is(x'.out[0][1], m, 1, t + 1, 0, 0)
  {
    hide Size;
    var y := TryPort(c, t, x, 0);
    assert y == TryPort(c, t, SkipQueue(c, x), 1) == SkipQueue(c, x);
    var z := NextPort(c, y);
    assert z.arb == 1 && z.tried == 1 && z.vq[1] == 0 && z.virt == x.virt && z.status == [3];
    assert TryPort(c, t, z, 0) == Transfer(c, z);
    var w := NextPort(c, Transfer(c, z));
    assert w.tried == 3;
    assert Arbitrate(c, t, x) == Arbitrate(c, t, z) == Arbitrate(c, t, w) == w;
  }

  // ---------- The run, cycle by cycle ----------

  ghost predicate NoneIn(qs: seq<Queue>) {
    forall k :: 0 <= k < |qs| ==> qs[k] == []
  }

  ghost predicate NoneVirtual(s: Net) {
    forall i, j :: 0 <= i < |s.virt| && 0 <= j < |s.virt[i]| ==> s.virt[i][j] == []
  }

  ghost predicate NoneOut(s: Net) {
    NoneIn(s.out) && NoneIn(s.dstNic) && NoneIn(s.collector)
  }

  /** Both requests are at the head of their source queues. */
  ghost predicate Asking(c: Config, m: Mem, t: int, processing: nat, s: Net) {
    && Pair(c, m) && Routed(c, s) && s.arb == 0
    && Just(s.srcQ[0], m, 0, t, processing, 0) && Just(s.srcQ[1], m, 1, t, processing, 0)
    && NoneIn(s.srcNic) && NoneVirtual(s) && NoneOut(s)
  }

  /** Both packets are in their NICs, `sent` cycles of their transmission done. */
  ghost predicate Sending(c: Config, m: Mem, t: int, sent: nat, s: Net) {
    && Pair(c, m) && Routed(c, s) && s.arb == 0
    && NoneIn(s.srcQ) && Just(s.srcNic[0], m, 0, t, 0, sent) && Just(s.srcNic[1], m, 1, t, 0, sent)
    && NoneVirtual(s) && NoneOut(s)
  }

  /** Both packets are at the switch. */
  ghost predicate AtSwitch(c: Config, m: Mem, t: int, s: Net) {
    && Pair(c, m) && Routed(c, s) && s.arb == 0 && NoneIn(s.srcQ) && NoneIn(s.srcNic)
    && |s.virt| == 2 && |s.virt[0]| == 1 && |s.virt[1]| == 1
    && Just(s.virt[0][0], m, 0, t, 0, 0) && Just(s.virt[1][0], m, 1, t, 0, 0)
    && NoneOut(s)
  }

  /** The first packet has crossed. */
  ghost predicate HalfCrossed(c: Config, m: Mem, t: int, s: Net) {
    && Pair(c, m) && Routed(c, s) && s.arb == 0 && NoneIn(s.srcQ) && NoneIn(s.srcNic)
    && |s.virt| == 2 && |s.virt[0]| == 1 && |s.virt[1]| == 1
    && s.virt[0][0] == [] && Just(s.virt[1][0], m, 1, t, 0, 0)
    && Just(s.out[0], m, 0, t, 0, 0) && NoneIn(s.dstNic) && NoneIn(s.collector)
  }

  /** Both packets are at the output, in cycle t. */
  ghost predicate BothCrossed(c: Config, m: Mem, t: int, s: Net) {
    && Pair(c, m) && Routed(c, s) && NoneIn(s.srcQ) && NoneIn(s.srcNic) && NoneVirtual(s)
    && |s.out[0]| == 2 && Is(s.out[0][0], m, 0, t, 0, 0) && Is(s.out[0][1], m, 1, t + 1, 0, 0)
    && NoneIn(s.dstNic) && NoneIn(s.collector)
  }

  lemma RowsAreSingle(c: Config, m: Mem, s: Net)
    requires Pair(c, m) && Routed(c, s)
    ensures |s.virt| == 2 && |s.virt[0]| == 1 && |s.virt[1]| == 1
  {
    assert RowOK(c, s.virt[0], 0) && RowOK(c, s.virt[1], 1);
  }

  lemma RestIdle(c: Config, t: int, s: Net)
    requires Routed(c, s) && NoneOut(s)
    ensures Deliveries(c, t, Dests(c, t, Outputs(c, t, s))) == s
  {
    IdleOutputs(c, t, s);
    IdleDests(c, t, s);
    IdleDeliveries(c, t, s);
  }

  lemma Prepare(c: Config, m: Mem, s: Net)
    requires Asking(c, m, 0, 0, s)
    ensures Asking(c, m, 1, 1, Sources(c, 0, s))
  {
    SourceStarts(c, m, 0, s.srcQ[0], 0);
    SourceStarts(c, m, 0, s.srcQ[1], 1);
    hide SourceStep, Routed, Pair;
  }

  lemma StartAsking(c: Config, m: Mem, s: Net)
    requires Asking(c, m, 0, 0, s)
    ensures Asking(c, m, 1, 1, Simulate(c, 0, s))
  {
    hide Sources;
    Prepare(c, m, s);
    var s1 := Sources(c, 0, s);
    IdleNics(c, 0, s1);
    IdleSwitch(c, 0, s1);
    RestIdle(c, 0, s1);
  }

  lemma Load(c: Config, m: Mem, s: Net)
    requires Asking(c, m, 1, 1, s)
    ensures Sending(c, m, 1, 0, Sources(c, 1, s))
  {
    SourceFinishes(c, m, 1, s.srcQ[0], 0);
    SourceFinishes(c, m, 1, s.srcQ[1], 1);
    hide SourceStep, Routed;
  }

  lemma Send(c: Config, m: Mem, t: int, sent: nat, s: Net)
    requires Sending(c, m, t, sent, s) && sent < NicDelay(c, m)
    ensures Sending(c, m, t + 1, sent + 1, Nics(c, t, s))
  {
    RowsAreSingle(c, m, s);
    NicSends(c, m, t, s.srcNic[0], 0, sent);
    NicSends(c, m, t, s.srcNic[1], 1, sent);
    assert s.virt[0] == [[]] && s.virt[1] == [[]];
    hide NicStep, Routed, Record, NicDelay, Pair;
  }

  lemma FinishAsking(c: Config, m: Mem, s: Net)
    requires Asking(c, m, 1, 1, s)
    ensures Sending(c, m, 2, 1, Simulate(c, 1, s))
  {
    hide Sources, Nics, Routed;
    Load(c, m, s);
    var s1 := Sources(c, 1, s);
    Send(c, m, 1, 0, s1);
    var s2 := Nics(c, 1, s1);
    IdleSwitch(c, 1, s2);
    RestIdle(c, 1, s2);
  }

  lemma KeepSending(c: Config, m: Mem, t: int, sent: nat, s: Net)
    requires Sending(c, m, t, sent, s) && sent < NicDelay(c, m)
    ensures Sending(c, m, t + 1, sent + 1, Simulate(c, t, s))
  {
    hide Nics;
    IdleSources(c, t, s);
    Send(c, m, t, sent, s);
    var s2 := Nics(c, t, s);
    IdleSwitch(c, t, s2);
    RestIdle(c, t, s2);
  }

  lemma Starts(c: Config, m: Mem, t: int, s: Net)
    requires Pair(c, m) && Routed(c, s) && Bytes(c, s.out[0]) <= Size(c, m)
    ensures var x := StartOf(c, t, s); x.status == [3] && x.free == 1
  {
    var status := Statuses(c, s.out);
    assert status == [3];
    assert CountFree(status) == CountFree(status[..0]) + 1;
    assert status[..0] == [];
  }

  lemma OneReady(row: seq<Queue>, t: int)
    requires |row| == 1
    ensures RowReady(row, t) == if Due(row[0], t) then 1 else 0
  {
    assert row[..0] == [];
  }

  lemma TwoRows(virt: seq<seq<Queue>>, t: int)
    requires |virt| == 2 && |virt[0]| == 1 && |virt[1]| == 1
    ensures ReadyPackets(virt, t) == (if Due(virt[0][0], t) then 1 else 0) + (if Due(virt[1][0], t) then 1 else 0)
  {
    OneReady(virt[0], t);
    OneReady(virt[1], t);
    assert ReadyPackets(virt, t) == ReadyPackets(virt[..1], t) + RowReady(virt[1], t);
    assert virt[..1][..0] == [] && virt[..1][0] == virt[0];
  }

  lemma Arrive(c: Config, m: Mem, t: int, s: Net)
    requires Pair(c, m) && Sending(c, m, t, NicDelay(c, m), s)
    ensures AtSwitch(c, m, t, Nics(c, t, s))
  {
    RowsAreSingle(c, m, s);
    NicFinishes(c, m, t, s.srcNic[0], 0);
    NicFinishes(c, m, t, s.srcNic[1], 1);
    assert s.virt[0] == [[]] && s.virt[1] == [[]];
    hide NicStep, Routed, Record, Pair;
  }

  lemma CrossFirst(c: Config, m: Mem, t: int, s: Net)
    requires AtSwitch(c, m, t, s)
    ensures HalfCrossed(c, m, t + 1, Switch(c, t, s))
  {
    var x := StartOf(c, t, s);
    Starts(c, m, t, s);
    TwoRows(s.virt, t);
    FirstCrosses(c, m, t, x);
    assert s.virt[1][0][1..] == [];
    hide Arbitrate, Routed;
  }

  lemma CrossSecond(c: Config, m: Mem, t: int, s: Net)
    requires HalfCrossed(c, m, t, s)
    ensures BothCrossed(c, m, t, Switch(c, t, s))
  {
    var x := StartOf(c, t, s);
    Sizes(c, m, s.out[0][0], 0);
    assert s.out[0] == [s.out[0][0]];
    Starts(c, m, t, s);
    TwoRows(s.virt, t);
    SecondCrosses(c, m, t, x);
    hide Arbitrate, Routed;
  }

  /** Nothing is due at the outputs, and nothing is beyond them. */
  lemma OutputAhead(c: Config, t: int, s: Net)
    requires Routed(c, s) && c.dests == 1 && s.out[0] != [] && s.out[0][0].cycle > t
    requires NoneIn(s.dstNic) && NoneIn(s.collector)
    ensures Deliveries(c, t, Dests(c, t, Outputs(c, t, s))) == s
  {
    assert Outputs(c, t, s).out == s.out && Outputs(c, t, s).dstNic == s.dstNic;
    IdleDests(c, t, s);
    IdleDeliveries(c, t, s);
  }

  lemma FinishSending(c: Config, m: Mem, t: int, s: Net)
    requires Pair(c, m) && Sending(c, m, t, NicDelay(c, m), s)
    ensures HalfCrossed(c, m, t + 1, Simulate(c, t, s))
  {
    hide Nics, Switch;
    IdleSources(c, t, s);
    Arrive(c, m, t, s);
    var s2 := Nics(c, t, s);
    CrossFirst(c, m, t, s2);
    OutputAhead(c, t, Switch(c, t, s2));
  }

  lemma ReachOutput(c: Config, m: Mem, t: int, s: Net)
    requires HalfCrossed(c, m, t, s)
    ensures BothCrossed(c, m, t, AtOutputs(c, t, s))
  {
    IdleSources(c, t, s);
    IdleNics(c, t, s);
    hide Switch;
    CrossSecond(c, m, t, s);
  }

  // ---------- The requests ----------

  lemma InjectTwo(c: Config, srcQ: seq<Queue>, m: Mem, m': Mem)
    requires EachFrom(c, srcQ) && MemOK(c, m) && MemOK(c, m')
    ensures BatchOK(c, [m, m']) && InjectAll(c, srcQ, [m, m']) == InjectOne(c, InjectOne(c, srcQ, m), m')
  {
    var ms := [m, m'];
    assert ms[..1] == [m] && [m][..0] == [];
    assert InjectAll(c, srcQ, [m]) == InjectOne(c, srcQ, m);
  }

  lemma InjectOneAt(c: Config, srcQ: seq<Queue>, m: Mem)
    requires m.source < |srcQ| && srcQ[m.source] == [] && c.packetisation == 0
    ensures var q := InjectOne(c, srcQ, m);
            && |q| == |srcQ| && (forall k :: 0 <= k < |q| && k != m.source ==> q[k] == srcQ[k])
            && |q[m.source]| == 1 && q[m.source][0].mem == m && q[m.source][0].cycle == m.requestCycle
            && q[m.source][0].processing == 0 && q[m.source][0].transmitting == 0
  {
  }

  lemma QueuesAfterRequests(c: Config, m: Mem, srcQ: seq<Queue>)
    requires Pair(c, m) && |srcQ| == 2 && srcQ[0] == [] && srcQ[1] == []
    ensures |InjectOne(c, srcQ, Ask(m, 0))| == 2
    ensures var q := InjectOne(c, InjectOne(c, srcQ, Ask(m, 0)), Ask(m, 1));
            |q| == 2 && Just(q[0], m, 0, 0, 0, 0) && Just(q[1], m, 1, 0, 0, 0)
  {
    InjectOneAt(c, srcQ, Ask(m, 0));
    InjectOneAt(c, InjectOne(c, srcQ, Ask(m, 0)), Ask(m, 1));
    hide InjectOne;
  }

  lemma EmptyQueues(c: Config)
    requires c.Valid()
    ensures var s := Empty(c);
            && |s.srcQ| == c.sources && s.arb == 0
            && NoneIn(s.srcQ) && NoneIn(s.srcNic) && NoneVirtual(s) && NoneOut(s)
  {
    hide Routed;
  }

  lemma EmptyRouted(c: Config)
    requires c.Valid()
    ensures EachFrom(c, Empty(c).srcQ)
  {
  }

  lemma StartsAsking(c: Config, m: Mem)
    requires Pair(c, m)
    ensures BatchOK(c, [Ask(m, 0), Ask(m, 1)])
    ensures Asking(c, m, 0, 0, Inject(c, Empty(c), [Ask(m, 0), Ask(m, 1)]))
  {
    EmptyQueues(c);
    EmptyRouted(c);
    hide InjectAll, Routed, Empty, EachFrom, Just, InjectOne;
    InjectTwo(c, Empty(c).srcQ, Ask(m, 0), Ask(m, 1));
    QueuesAfterRequests(c, m, Empty(c).srcQ);
  }

  /** Both senders ask in cycle 0, and nobody asks again. */
  ghost predicate PairRun(c: Config, m: Mem, b: seq<seq<Mem>>) {
    && Pair(c, m) && RunOK(c, b) && b != [] && b[0] == [Ask(m, 0), Ask(m, 1)]
    && forall t :: 1 <= t < |b| ==> b[t] == []
  }

  lemma FirstCycle(c: Config, m: Mem, b: seq<seq<Mem>>)
    requires PairRun(c, m, b)
    ensures Asking(c, m, 0, 0, Before(c, b, 0))
  {
    hide Asking, InjectAll, Routed, Empty, Inject;
    assert b[..0] == [];
    StartsAsking(c, m);
    assert Before(c, b, 0) == Inject(c, Empty(c), b[0]);
  }

  /** Without new requests, a cycle begins as the one before ended. */
  lemma Quietly(c: Config, b: seq<seq<Mem>>, t: nat)
    requires RunOK(c, b) && 1 <= t < |b| && b[t] == []
    ensures Before(c, b, t) == Simulate(c, t - 1, Before(c, b, t - 1))
  {
    PrefixBefore(c, b, t, t - 1);
    RunUnfolds(c, b[..t]);
    hide Run, Simulate;
    var s := Run(c, b[..t]);
    assert Inject(c, s, []) == s;
  }

  /** The packets are on the links for as long as their transmission takes. */
  lemma {:induction false} OnTheLinks(c: Config, m: Mem, b: seq<seq<Mem>>, t: nat)
    requires PairRun(c, m, b) && 2 <= t < |b| && t - 1 <= NicDelay(c, m)
    ensures Sending(c, m, t, t - 1, Before(c, b, t))
    decreases t
  {
    hide Simulate, Before, Asking, Sending, NicDelay;
    Quietly(c, b, t);
    if t == 2 {
      Quietly(c, b, 1);
      FirstCycle(c, m, b);
      StartAsking(c, m, Before(c, b, 0));
      FinishAsking(c, m, Before(c, b, 1));
    } else {
      OnTheLinks(c, m, b, t - 1);
      KeepSending(c, m, t - 1, t - 2, Before(c, b, t - 1));
    }
  }

  /** Two cycles after the transmission both packets are at the output, neither having left it. */
  lemma BothAtOutput(c: Config, m: Mem, b: seq<seq<Mem>>, t: nat)
    requires PairRun(c, m, b) && t < |b| && t == NicDelay(c, m) + 2
    ensures BothCrossed(c, m, t, AtOutputs(c, t, Before(c, b, t)))
  {
    hide Simulate, Before, Asking, Sending, NicDelay, HalfCrossed, BothCrossed;
    OnTheLinks(c, m, b, t - 1);
    Quietly(c, b, t);
    FinishSending(c, m, t - 1, Before(c, b, t - 1));
    ReachOutput(c, m, t, Before(c, b, t));
  }
}
