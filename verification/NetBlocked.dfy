/** Runs in which a packet is left behind the clock: two senders, one receiver whose NIC has room for a
    single packet. The second packet's output head falls due when the first still occupies the NIC. */
module NetBlocked {
  import opened NetSpec
  import opened NetSystem
  import opened NetStamps
  import opened NetClock
  import opened NetPair

  /** The receiver's NIC has room for one of the requests, and the output needs a cycle to transmit it. */
  ghost predicate Tight(c: Config, m: Mem) {
    Pair(c, m) && c.nicCapacity < 2 * Size(c, m) && SwitchDelay(c, m) == 1
  }

  lemma OutputStarts(c: Config, m: Mem, t: int, out: Queue)
    requires Tight(c, m) && |out| == 2 && Is(out[0], m, 0, t, 0, 0) && Is(out[1], m, 1, t + 1, 0, 0)
    ensures var (out', nic') := OutputStep(c, t, out, []);
            && |out'| == 2 && Is(out'[0], m, 0, t + 1, 0, 1) && Is(out'[1], m, 1, t + 1, 0, 0)
            && nic' == []
  {
    Sizes(c, m, out[0], 0);
    hide Size, NicDelay, SwitchDelay, Bytes;
    var q := out[0 := out[0].(transmitting := 1)];
    assert q[1..] == [out[1]] && Bump([out[1]], t) == [out[1]];
    assert Bump(q, t) == [q[0].(cycle := t + 1)] + [out[1]];
  }

  lemma OutputFinishes(c: Config, m: Mem, t: int, out: Queue)
    requires Tight(c, m) && |out| == 2 && Is(out[0], m, 0, t, 0, 1) && Is(out[1], m, 1, t, 0, 0)
    ensures var (out', nic') := OutputStep(c, t, out, []);
            Just(out', m, 1, t + 1, 0, 0) && Just(nic', m, 0, t, 0, 0)
  {
    Sizes(c, m, out[0], 0);
    hide Size, NicDelay, SwitchDelay, Bytes;
    assert out[1..] == [out[1]] && out[1..][1..] == [];
  }

  lemma DestStarts(c: Config, m: Mem, t: int, nic: Queue)
    requires Pair(c, m) && Just(nic, m, 0, t, 0, 0)
    ensures var (nic', collector') := DestStep(c, t, nic, []);
            Just(nic', m, 0, t + 1, 1, 0) && collector' == []
  {
    assert nic[0 := nic[0].(processing := 1)][1..] == [];
  }

  /** Both packets at the output, the first one's transmission begun. */
  ghost predicate Waiting(c: Config, m: Mem, t: int, s: Net) {
    && Tight(c, m) && Routed(c, s) && NoneIn(s.srcQ) && NoneIn(s.srcNic) && NoneVirtual(s)
    && |s.out[0]| == 2 && Is(s.out[0][0], m, 0, t, 0, 1) && Is(s.out[0][1], m, 1, t, 0, 0)
    && NoneIn(s.dstNic) && NoneIn(s.collector)
  }

  /** The first packet occupies the receiver's NIC. */
  ghost predicate Occupied(c: Config, m: Mem, t: int, s: Net) {
    && Tight(c, m) && Routed(c, s) && NoneIn(s.srcQ) && NoneIn(s.srcNic) && NoneVirtual(s)
    && Just(s.out[0], m, 1, t, 0, 0) && Just(s.dstNic[0], m, 0, t, 1, 0)
  }

  lemma FirstStarts(c: Config, m: Mem, t: int, s: Net)
    requires Tight(c, m) && BothCrossed(c, m, t, s)
    ensures Waiting(c, m, t + 1, Deliveries(c, t, Dests(c, t, Outputs(c, t, s))))
  {
    OutputStarts(c, m, t, s.out[0]);
    var s4 := Outputs(c, t, s);
    hide OutputStep;
    IdleDests(c, t, s4);
    IdleDeliveries(c, t, s4);
  }

  lemma FirstLeaves(c: Config, m: Mem, t: int, s: Net)
    requires Waiting(c, m, t, s)
    ensures Occupied(c, m, t + 1, Simulate(c, t, s))
  {
    hide Outputs, Dests, Deliveries, Sources, Nics, Switch;
    IdleSources(c, t, s);
    IdleNics(c, t, s);
    IdleSwitch(c, t, s);
    FirstMovesOn(c, m, t, s);
    IdleDeliveries(c, t, Dests(c, t, Outputs(c, t, s)));
  }

  lemma FirstMovesOn(c: Config, m: Mem, t: int, s: Net)
    requires Waiting(c, m, t, s)
    ensures var s' := Dests(c, t, Outputs(c, t, s)); Occupied(c, m, t + 1, s') && NoneIn(s'.collector)
  {
    hide OutputStep, DestStep;
    OutputFinishes(c, m, t, s.out[0]);
    DestStarts(c, m, t, Outputs(c, t, s).dstNic[0]);
  }

  lemma SecondIsBlocked(c: Config, m: Mem, t: int, s: Net)
    requires Occupied(c, m, t, s)
    ensures AnyBlocked(c, t, AtOutputs(c, t, s))
  {
    IdleSources(c, t, s);
    IdleNics(c, t, s);
    IdleSwitch(c, t, s);
    Sizes(c, m, s.dstNic[0][0], 0);
    Sizes(c, m, s.out[0][0], 1);
    assert s.dstNic[0] == [s.dstNic[0][0]];
    hide Bytes, Size, Routed;
    assert Blocked(c, t, s.out[0], s.dstNic[0]);
  }

  lemma CycleFromOutputs(c: Config, b: seq<seq<Mem>>, t: nat)
    requires RunOK(c, b) && t + 1 < |b| && b[t + 1] == []
    ensures Before(c, b, t + 1) == Deliveries(c, t, Dests(c, t, Outputs(c, t, AtOutputs(c, t, Before(c, b, t)))))
  {
    Quietly(c, b, t + 1);
    hide Before;
  }

  lemma SecondIsBlockedInRun(c: Config, m: Mem, b: seq<seq<Mem>>, t: nat)
    requires Tight(c, m) && PairRun(c, m, b) && t == NicDelay(c, m) + 2 && t + 2 < |b|
    ensures AnyBlocked(c, t + 2, AtOutputs(c, t + 2, Before(c, b, t + 2)))
  {
    hide Before, Run, Simulate, AtOutputs, Waiting, Occupied, BothCrossed, Pair, NicDelay, Tight, AnyBlocked;
    BothAtOutput(c, m, b, t);
    FirstStarts(c, m, t, AtOutputs(c, t, Before(c, b, t)));
    CycleFromOutputs(c, b, t);
    FirstLeaves(c, m, t + 1, Before(c, b, t + 1));
    Quietly(c, b, t + 2);
    SecondIsBlocked(c, m, t + 2, Before(c, b, t + 2));
  }

  /** Whatever the NICs' bandwidth: once the two packets are at the output, the second is blocked two
      cycles later, and in every longer run its stamp is left in the past. */
  lemma PairFallsBehind(c: Config, m: Mem, b: seq<seq<Mem>>)
    requires Tight(c, m) && PairRun(c, m, b) && |b| >= NicDelay(c, m) + 5
    ensures !NeverBlocked(c, b) && !UpToDate(Run(c, b), |b|)
  {
    hide Run, AtOutputs, UpToDate, Pair, NicDelay, Tight, AnyBlocked;
    var t := NicDelay(c, m) + 2;
    SecondIsBlockedInRun(c, m, b, t);
    assert !NeverBlocked(c, b);
    UpToDateIffNeverBlocked(c, b);
  }

  /** Such a network: a NIC of 64 bytes at the receiver. */
  function Narrow(): (c: Config)
    ensures c.Valid()
  {
    Config(2, 1, false, 1024, 100_000_000, 64, 4096, 4096, 512, 512, 0, 1, 0, 0, 1)
  }

  /** A read request. */
  function Read(): Mem {
    Mem(0, 0, 0, 0, 1, false, false)
  }

  function Requests(): seq<seq<Mem>> {
    [[Ask(Read(), 0), Ask(Read(), 1)], [], [], [], [], []]
  }

  lemma RequestsOK()
    ensures Tight(Narrow(), Read()) && NicDelay(Narrow(), Read()) == 1
  {
  }

  /** Six cycles suffice. */
  lemma PacketFallsBehind()
    ensures RunOK(Narrow(), Requests()) && |Requests()| == 6
    ensures !NeverBlocked(Narrow(), Requests()) && !UpToDate(Run(Narrow(), Requests()), 6)
  {
    RequestsOK();
    assert RunOK(Narrow(), Requests());
    hide NicDelay, SwitchDelay, Run, UpToDate, NeverBlocked, Tight;
    PairFallsBehind(Narrow(), Read(), Requests());
  }
}
