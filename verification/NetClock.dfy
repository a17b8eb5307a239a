/** The clock discipline over whole runs: no packet is left behind the clock, exactly unless some output
    head falls due while its destination NIC is full; and such a head is stuck for good. */
module NetClock {
  import opened NetSpec
  import opened NetSystem
  import opened NetStamps

  ghost predicate All(c: Config, qs: seq<Queue>, lo: int, hi: int, processing: nat, link: Link)
    requires c.Valid()
  {
    forall k :: 0 <= k < |qs| ==> OnTime(c, qs[k], lo, hi, processing, link)
  }

  ghost predicate AllRows(c: Config, virt: seq<seq<Queue>>, lo: int, hi: int)
    requires c.Valid()
  {
    forall i :: 0 <= i < |virt| ==> All(c, virt[i], lo, hi, 0, NoLink)
  }

  function WireDelay(c: Config): nat {
    c.propDelay + c.switchProcDelay
  }

  /** Before cycle t: every stamp is t or a stage's delay later, at most; `lead` bounds the source queues. */
  ghost predicate Punctual(c: Config, t: int, s: Net, lead: int)
    requires c.Valid()
  {
    && All(c, s.srcQ, t, lead, c.nicProcDelay, NoLink)
    && All(c, s.srcNic, t, t, 0, FromNic)
    && AllRows(c, s.virt, t, Max(t, t - 1 + WireDelay(c)))
    && All(c, s.out, t, Max(t, t - 1 + c.switchingDelay), 0, FromPort)
    && All(c, s.dstNic, t, Max(t, t - 1 + c.propDelay), c.nicProcDelay, NoLink)
    && All(c, s.collector, t, Max(t, t - 1 + c.packetisation), 0, NoLink)
  }

  // ---------- The stages ----------

  lemma SourcesOnTime(c: Config, t: int, s: Net, lead: int)
    requires Routed(c, s) && All(c, s.srcQ, t, lead, c.nicProcDelay, NoLink) && All(c, s.srcNic, t, t, 0, FromNic)
    ensures var s' := Sources(c, t, s);
            && All(c, s'.srcQ, t + 1, Max(lead, t + 1), c.nicProcDelay, NoLink) && All(c, s'.srcNic, t, t, 0, FromNic)
            && s' == s.(srcQ := s'.srcQ, srcNic := s'.srcNic)
  {
    hide OnTime, SourceStep, AllFrom, AllTo;
    forall i | 0 <= i < c.sources
      ensures OnTime(c, SourceStep(c, t, s.srcQ[i], s.srcNic[i]).0, t + 1, Max(lead, t + 1), c.nicProcDelay, NoLink)
      ensures OnTime(c, SourceStep(c, t, s.srcQ[i], s.srcNic[i]).1, t, t, 0, FromNic)
    {
      SourceOnTime(c, t, s.srcQ[i], s.srcNic[i], lead);
    }
  }

  lemma NicsOnTime(c: Config, t: int, s: Net)
    requires Routed(c, s) && All(c, s.srcNic, t, t, 0, FromNic) && AllRows(c, s.virt, t, Max(t, t - 1 + WireDelay(c)))
    ensures var s' := Nics(c, t, s);
            && All(c, s'.srcNic, t + 1, t + 1, 0, FromNic) && AllRows(c, s'.virt, t, t + WireDelay(c))
            && s' == s.(srcNic := s'.srcNic, virt := s'.virt, sent := s'.sent)
  {
    var s' := Nics(c, t, s);
    forall i | 0 <= i < c.sources
      ensures OnTime(c, s'.srcNic[i], t + 1, t + 1, 0, FromNic) && All(c, s'.virt[i], t, t + WireDelay(c), 0, NoLink)
    {
      PortOnTime(c, t, s.srcNic[i], s.virt[i], i);
    }
    hide All, OnTime;
  }

  lemma PortOnTime(c: Config, t: int, nic: Queue, row: seq<Queue>, i: nat)
    requires c.Valid() && AllFrom(c, nic, i) && RowOK(c, row, i)
    requires OnTime(c, nic, t, t, 0, FromNic) && All(c, row, t, Max(t, t - 1 + WireDelay(c)), 0, NoLink)
    ensures OnTime(c, NicStep(c, t, nic, row).0, t + 1, t + 1, 0, FromNic)
    ensures All(c, NicStep(c, t, nic, row).1, t, t + WireDelay(c), 0, NoLink)
  {
    NicStepRoutes(c, t, nic, row, i);
    NicOnTime(c, t, nic, row);
    var row' := NicStep(c, t, nic, row).1;
    assert |row'| == |row|;
    hide OnTime, NicStep, AllTo;
    forall j | 0 <= j < |row'| ensures OnTime(c, row'[j], t, t + WireDelay(c), 0, NoLink) {
      VirtualOnTime(c, t, nic, row, j, Max(t, t - 1 + WireDelay(c)));
    }
  }

  lemma SwitchOnTime(c: Config, t: int, s: Net)
    requires Routed(c, s) && AllRows(c, s.virt, t, t + WireDelay(c))
    requires All(c, s.out, t, Max(t, t - 1 + c.switchingDelay), 0, FromPort)
    ensures var s' := Switch(c, t, s);
            && AllRows(c, s'.virt, t + 1, Max(t + 1, t + WireDelay(c)))
            && All(c, s'.out, t, t + c.switchingDelay, 0, FromPort)
            && s' == s.(virt := s'.virt, out := s'.out, arb := s'.arb, vq := s'.vq)
  {
    var x0 := StartOf(c, t, s);
    StartOnTime(c, t, s);
    ArbitrateOnTime(c, t, x0);
    ArbitrateRoutes(c, t, x0);
    var x := Arbitrate(c, t, x0);
    var s' := Switch(c, t, s);
    assert forall j :: 0 <= j < |x.out| ==> InOutput(c, t, x.out[j]);
    hide OnTime, Arbitrate, RowOK;
    forall i | 0 <= i < |s'.virt| ensures All(c, s'.virt[i], t + 1, Max(t + 1, t + WireDelay(c)), 0, NoLink) {
      forall j | 0 <= j < |s'.virt[i]|
        ensures OnTime(c, s'.virt[i][j], t + 1, Max(t + 1, t + WireDelay(c)), 0, NoLink)
      {
        assert InVirtual(c, t, x.virt[i][j]);
        Bumped(c, x.virt[i][j], t, t + WireDelay(c), 0, NoLink);
      }
    }
  }

  lemma StartOnTime(c: Config, t: int, s: Net)
    requires Routed(c, s) && AllRows(c, s.virt, t, t + WireDelay(c))
    requires All(c, s.out, t, Max(t, t - 1 + c.switchingDelay), 0, FromPort)
    ensures CrossbarOnTime(c, t, StartOf(c, t, s))
  {
    hide OnTime;
    forall i, j | 0 <= i < |s.virt| && 0 <= j < |s.virt[i]| ensures InVirtual(c, t, s.virt[i][j]) {
      assert All(c, s.virt[i], t, t + WireDelay(c), 0, NoLink);
    }
    forall j | 0 <= j < |s.out| ensures InOutput(c, t, s.out[j]) {
      Widen(c, s.out[j], t, Max(t, t - 1 + c.switchingDelay), t + c.switchingDelay, 0, FromPort);
    }
  }

  /** Some output head is due and finds its destination NIC full. */
  ghost predicate AnyBlocked(c: Config, t: int, s: Net)
    requires Routed(c, s)
  {
    exists j :: 0 <= j < c.dests && Blocked(c, t, s.out[j], s.dstNic[j])
  }

  lemma OutputsOnTime(c: Config, t: int, s: Net)
    requires Routed(c, s) && !AnyBlocked(c, t, s)
    requires All(c, s.out, t, t + c.switchingDelay, 0, FromPort)
    requires All(c, s.dstNic, t, Max(t, t - 1 + c.propDelay), c.nicProcDelay, NoLink)
    ensures var s' := Outputs(c, t, s);
            && All(c, s'.out, t + 1, t + c.switchingDelay, 0, FromPort)
            && All(c, s'.dstNic, t, t + c.propDelay, c.nicProcDelay, NoLink)
  {
    hide OnTime, OutputStep, Blocked;
    forall j | 0 <= j < c.dests
      ensures OnTime(c, OutputStep(c, t, s.out[j], s.dstNic[j]).0, t + 1, t + c.switchingDelay, 0, FromPort)
      ensures OnTime(c, OutputStep(c, t, s.out[j], s.dstNic[j]).1, t, t + c.propDelay, c.nicProcDelay, NoLink)
    {
      assert InOutput(c, t, s.out[j]);
      OutputOnTime(c, t, s.out[j], s.dstNic[j]);
      ArrivalsOnTime(c, t, s.out[j], s.dstNic[j], Max(t, t - 1 + c.propDelay));
    }
  }

  lemma DestsOnTime(c: Config, t: int, s: Net)
    requires Routed(c, s) && All(c, s.dstNic, t, t + c.propDelay, c.nicProcDelay, NoLink)
    requires All(c, s.collector, t, Max(t, t - 1 + c.packetisation), 0, NoLink)
    ensures var s' := Deliveries(c, t, Dests(c, t, s));
            && All(c, s'.dstNic, t + 1, Max(t + 1, t + c.propDelay), c.nicProcDelay, NoLink)
            && All(c, s'.collector, t + 1, Max(t + 1, t + c.packetisation), 0, NoLink)
  {
    hide OnTime, DestStep, Deliver, AllTo, AllFrom, RowOK, VirtOK;
    forall j | 0 <= j < c.dests
      ensures ReceiverOnTime(c, t, DestStep(c, t, s.dstNic[j], s.collector[j]).0,
                             Deliver(t, DestStep(c, t, s.dstNic[j], s.collector[j]).1, s.delivered[j]).0)
    {
      OneDestOnTime(c, t, s.dstNic[j], s.collector[j], s.delivered[j]);
    }
  }

  ghost predicate ReceiverOnTime(c: Config, t: int, nic: Queue, collector: Queue)
    requires c.Valid()
  {
    && OnTime(c, nic, t + 1, Max(t + 1, t + c.propDelay), c.nicProcDelay, NoLink)
    && OnTime(c, collector, t + 1, Max(t + 1, t + c.packetisation), 0, NoLink)
  }

  lemma OneDestOnTime(c: Config, t: int, nic: Queue, collector: Queue, delivered: Queue)
    requires c.Valid() && OnTime(c, nic, t, t + c.propDelay, c.nicProcDelay, NoLink)
    requires OnTime(c, collector, t, Max(t, t - 1 + c.packetisation), 0, NoLink)
    ensures var (nic', collector') := DestStep(c, t, nic, collector);
            ReceiverOnTime(c, t, nic', Deliver(t, collector', delivered).0)
  {
    hide OnTime, DestStep, Deliver;
    var (nic', collector') := DestStep(c, t, nic, collector);
    DestOnTime(c, t, nic, collector, t + c.propDelay, Max(t, t - 1 + c.packetisation));
    DeliverOnTime(c, t, collector', delivered, t + c.packetisation);
    Widen(c, Deliver(t, collector', delivered).0, t + 1, t + c.packetisation, Max(t + 1, t + c.packetisation),
          0, NoLink);
  }

  // ---------- One cycle ----------

  /** The network when the output ports start to work in cycle t. */
  function AtOutputs(c: Config, t: int, s: Net): (s': Net)
    requires Routed(c, s)
    ensures Routed(c, s')
  {
    Switch(c, t, Nics(c, t, Sources(c, t, s)))
  }

  lemma SimulateFromOutputs(c: Config, t: int, s: Net)
    requires Routed(c, s)
    ensures Simulate(c, t, s) == Deliveries(c, t, Dests(c, t, Outputs(c, t, AtOutputs(c, t, s))))
  {
  }

  lemma WidenAll(c: Config, qs: seq<Queue>, lo: int, hi: int, hi': int, processing: nat, link: Link)
    requires c.Valid() && All(c, qs, lo, hi, processing, link) && hi <= hi'
    ensures All(c, qs, lo, hi', processing, link)
  {
    forall k | 0 <= k < |qs| ensures OnTime(c, qs[k], lo, hi', processing, link) {
      Widen(c, qs[k], lo, hi, hi', processing, link);
    }
  }

  lemma UpstreamOnTime(c: Config, t: int, s: Net, lead: int)
    requires Routed(c, s) && Punctual(c, t, s, lead)
    ensures Midway(c, t, AtOutputs(c, t, s), lead)
  {
    hide All, AllRows, Sources, Nics, Switch;
    var s1 := Sources(c, t, s);
    var s2 := Nics(c, t, s1);
    SourcesOnTime(c, t, s, lead);
    NicsOnTime(c, t, s1);
    SwitchOnTime(c, t, s2);
  }

  /** When the output ports start to work, everything before them has passed the clock. */
  ghost predicate Midway(c: Config, t: int, s: Net, lead: int)
    requires c.Valid()
  {
    && All(c, s.srcQ, t + 1, Max(lead, t + 1), c.nicProcDelay, NoLink)
    && All(c, s.srcNic, t + 1, t + 1, 0, FromNic)
    && AllRows(c, s.virt, t + 1, Max(t + 1, t + WireDelay(c)))
    && All(c, s.out, t, t + c.switchingDelay, 0, FromPort)
    && All(c, s.dstNic, t, Max(t, t - 1 + c.propDelay), c.nicProcDelay, NoLink)
    && All(c, s.collector, t, Max(t, t - 1 + c.packetisation), 0, NoLink)
  }

  lemma DownstreamOnTime(c: Config, t: int, s: Net, lead: int)
    requires Routed(c, s) && Midway(c, t, s, lead) && !AnyBlocked(c, t, s)
    ensures Punctual(c, t + 1, Deliveries(c, t, Dests(c, t, Outputs(c, t, s))), Max(lead, t + 1))
  {
    hide All, AllRows, AnyBlocked;
    var s4 := Outputs(c, t, s);
    OutputsOnTime(c, t, s);
    DestsOnTime(c, t, s4);
    WidenAll(c, s4.out, t + 1, t + c.switchingDelay, Max(t + 1, t + c.switchingDelay), 0, FromPort);
  }

  lemma SimulateOnTime(c: Config, t: int, s: Net, lead: int)
    requires Routed(c, s) && Punctual(c, t, s, lead) && !AnyBlocked(c, t, AtOutputs(c, t, s))
    ensures Punctual(c, t + 1, Simulate(c, t, s), Max(lead, t + 1))
  {
    hide Punctual, Midway, AnyBlocked;
    UpstreamOnTime(c, t, s, lead);
    DownstreamOnTime(c, t, AtOutputs(c, t, s), lead);
  }

  ghost predicate MadeAt(ms: seq<Mem>, t: int) {
    forall k :: 0 <= k < |ms| ==> ms[k].requestCycle == t
  }

  lemma {:induction false} InjectOnTime(c: Config, t: int, srcQ: seq<Queue>, ms: seq<Mem>)
    requires c.Valid() && EachFrom(c, srcQ) && BatchOK(c, ms) && MadeAt(ms, t)
    requires All(c, srcQ, t, t + PrepareDelay(c), c.nicProcDelay, NoLink)
    ensures All(c, InjectAll(c, srcQ, ms), t, t + PrepareDelay(c), c.nicProcDelay, NoLink)
    decreases |ms|
  {
    if ms != [] {
      var front, m := ms[..|ms| - 1], ms[|ms| - 1];
      InjectOnTime(c, t, srcQ, front);
      var before := InjectAll(c, srcQ, front);
      Pushed(c, before[m.source], Packetised(c, m), t, t + PrepareDelay(c), c.nicProcDelay, NoLink);
      hide OnTime, EachFrom;
    }
  }

  lemma InjectPunctual(c: Config, t: int, s: Net, ms: seq<Mem>)
    requires Routed(c, s) && BatchOK(c, ms) && MadeAt(ms, t)
    requires Punctual(c, t, s, Max(t, t - 1 + PrepareDelay(c)))
    ensures Punctual(c, t, Inject(c, s, ms), t + PrepareDelay(c))
  {
    hide OnTime;
    WidenAll(c, s.srcQ, t, Max(t, t - 1 + PrepareDelay(c)), t + PrepareDelay(c), c.nicProcDelay, NoLink);
    InjectOnTime(c, t, s.srcQ, ms);
  }

  // ---------- Behind the clock ----------

  /** Output j's head carries a stamp of the past. */
  predicate Behind(s: Net, j: nat, t: int) {
    j < |s.out| && s.out[j] != [] && s.out[j][0].cycle < t
  }

  ghost predicate Grown(out: seq<Queue>, out': seq<Queue>) {
    |out'| == |out| && forall j :: 0 <= j < |out| ==> out[j] <= out'[j]
  }

  lemma {:induction false} TryPortGrows(c: Config, t: int, x: Crossbar, k: nat)
    requires CrossbarOK(c, x) && k <= c.dests
    ensures Grown(x.out, TryPort(c, t, x, k).out)
    decreases c.dests - k
  {
    if k < c.dests {
      var j := x.vq[x.arb];
      var q := x.virt[x.arb][j];
      if Due(q, t) && x.status[j] != 0 {
        if TooLarge(c, x.status[j], Size(c, q[0].mem)) {
          TryPortGrows(c, t, SkipQueue(c, x.(ready := x.ready - 1)), k + 1);
        }
      } else {
        TryPortGrows(c, t, SkipQueue(c, x), k + 1);
      }
    }
  }

  lemma GrownTransitive(a: seq<Queue>, b: seq<Queue>, d: seq<Queue>)
    requires Grown(a, b) && Grown(b, d)
    ensures Grown(a, d)
  {
    forall j | 0 <= j < |a| ensures a[j] <= d[j] {
      assert a[j] <= b[j] <= d[j];
    }
  }

  lemma {:induction false} ArbitrateGrows(c: Config, t: int, x: Crossbar)
    requires CrossbarOK(c, x)
    ensures Grown(x.out, Arbitrate(c, t, x).out)
    decreases c.sources - x.tried
  {
    hide Grown;
    if Arbitrating(c, x) {
      TriedGrows(c, t, x, 0);
      TryPortGrows(c, t, x, 0);
      var x1 := NextPort(c, TryPort(c, t, x, 0));
      ArbitrateGrows(c, t, x1);
      GrownTransitive(x.out, x1.out, Arbitrate(c, t, x1).out);
    } else {
      GrownReflexive(x.out);
    }
  }

  lemma GrownReflexive(a: seq<Queue>)
    ensures Grown(a, a)
  {
  }

  lemma OutputsGrow(c: Config, t: int, s: Net, j: nat)
    requires Routed(c, s) && j < c.dests
    ensures s.out[j] <= AtOutputs(c, t, s).out[j] && AtOutputs(c, t, s).dstNic == s.dstNic
    ensures AtOutputs(c, t, s).collector == s.collector && AtOutputs(c, t, s).delivered == s.delivered
  {
    var s2 := Nics(c, t, Sources(c, t, s));
    ArbitrateGrows(c, t, StartOf(c, t, s2));
  }

  /** How many packets have reached destination j's NIC so far. */
  ghost function Received(s: Net, j: nat): nat
    requires j < |s.dstNic| && j < |s.collector| && j < |s.delivered|
  {
    |s.dstNic[j]| + |s.collector[j]| + |s.delivered[j]|
  }

  lemma DownstreamKeepsReceived(c: Config, t: int, s: Net, j: nat)
    requires Routed(c, s) && j < c.dests
    ensures var s' := Deliveries(c, t, Dests(c, t, s)); s'.out == s.out && Received(s', j) == Received(s, j)
  {
    var s1 := Dests(c, t, s);
    DeliverSplits(t, s1.collector[j], s1.delivered[j]);
    var s' := Deliveries(c, t, s1);
    assert |s'.delivered[j] + s'.collector[j]| == |s1.delivered[j] + s1.collector[j]|;
  }

  /** An output that does not move in this cycle: its head stays, and nothing arrives at its destination. */
  lemma IdleOutput(c: Config, t: int, s: Net, j: nat)
    requires Routed(c, s) && j < c.dests
    requires var s3 := AtOutputs(c, t, s); OutputStep(c, t, s3.out[j], s3.dstNic[j]) == (s3.out[j], s3.dstNic[j])
    ensures Simulate(c, t, s).out[j] == AtOutputs(c, t, s).out[j] && Received(Simulate(c, t, s), j) == Received(s, j)
  {
    var s3 := AtOutputs(c, t, s);
    var s4 := Outputs(c, t, s3);
    OutputsGrow(c, t, s, j);
    DownstreamKeepsReceived(c, t, s4, j);
    assert s4.out[j] == s3.out[j] && s4.dstNic[j] == s3.dstNic[j];
  }

  lemma BlockedFallsBehind(c: Config, t: int, s: Net, j: nat)
    requires Routed(c, s) && j < c.dests && Blocked(c, t, AtOutputs(c, t, s).out[j], AtOutputs(c, t, s).dstNic[j])
    ensures Behind(Simulate(c, t, s), j, t + 1)
  {
    IdleOutput(c, t, s, j);
  }

  lemma BehindStaysBehind(c: Config, t: int, s: Net, j: nat)
    requires Routed(c, s) && j < c.dests && Behind(s, j, t)
    ensures Behind(Simulate(c, t, s), j, t) && Simulate(c, t, s).out[j][0] == s.out[j][0]
    ensures Received(Simulate(c, t, s), j) == Received(s, j)
  {
    OutputsGrow(c, t, s, j);
    var s3 := AtOutputs(c, t, s);
    assert s3.out[j][0] == s.out[j][0];
    StaleHead(c, t, s3.out[j], s3.dstNic[j]);
    IdleOutput(c, t, s, j);
  }

  lemma StaleHead(c: Config, t: int, out: Queue, nic: Queue)
    requires c.Valid() && out != [] && out[0].cycle < t
    ensures OutputStep(c, t, out, nic) == (out, nic)
  {
  }

  // ---------- Whole runs ----------

  ghost predicate RunOK(c: Config, batches: seq<seq<Mem>>) {
    c.Valid() && forall t :: 0 <= t < |batches| ==> BatchOK(c, batches[t]) && MadeAt(batches[t], t)
  }

  /** The state in which cycle t of the run begins, requests included. */
  function Before(c: Config, batches: seq<seq<Mem>>, t: nat): (s: Net)
    requires RunOK(c, batches) && t < |batches|
    ensures Routed(c, s)
  {
    Inject(c, Run(c, batches[..t]), batches[t])
  }

  ghost predicate NeverBlocked(c: Config, batches: seq<seq<Mem>>)
    requires RunOK(c, batches)
  {
    forall t {:trigger Before(c, batches, t)} :: 0 <= t < |batches| ==>
      !AnyBlocked(c, t, AtOutputs(c, t, Before(c, batches, t)))
  }

  lemma RunUnfolds(c: Config, batches: seq<seq<Mem>>)
    requires RunOK(c, batches) && batches != []
    ensures var t := |batches| - 1; Run(c, batches) == Simulate(c, t, Before(c, batches, t))
  {
  }

  lemma PrefixBefore(c: Config, batches: seq<seq<Mem>>, n: nat, t: nat)
    requires RunOK(c, batches) && t < n <= |batches|
    ensures RunOK(c, batches[..n]) && Before(c, batches[..n], t) == Before(c, batches, t)
  {
    assert batches[..n][..t] == batches[..t];
  }

  lemma EmptyPunctual(c: Config)
    requires c.Valid()
    ensures Run(c, []) == Empty(c) && Punctual(c, 0, Empty(c), Max(0, PrepareDelay(c) - 1))
  {
  }

  /** If the destination NICs always have room in time, every queue stays in stamp order and no packet
      falls behind: before cycle n, every stamp is at least n. */
  lemma {:induction false} NoPacketFallsBehind(c: Config, batches: seq<seq<Mem>>)
    requires RunOK(c, batches) && NeverBlocked(c, batches)
    ensures var n := |batches|; Punctual(c, n, Run(c, batches), Max(n, n - 1 + PrepareDelay(c)))
    decreases |batches|
  {
    hide Punctual, AnyBlocked, Simulate, AtOutputs, Run;
    if batches == [] {
      EmptyPunctual(c);
    } else {
      var t := |batches| - 1;
      forall u | 0 <= u < t ensures !AnyBlocked(c, u, AtOutputs(c, u, Before(c, batches[..t], u))) {
        PrefixBefore(c, batches, t, u);
      }
      NoPacketFallsBehind(c, batches[..t]);
      InjectPunctual(c, t, Run(c, batches[..t]), batches[t]);
      SimulateOnTime(c, t, Before(c, batches, t), t + PrepareDelay(c));
      RunUnfolds(c, batches);
    }
  }

  /** Once an output head is behind the clock it stays, through any further cycles and requests, and its
      destination never receives another packet. */
  lemma {:induction false} StuckForGood(c: Config, batches: seq<seq<Mem>>, n: nat, j: nat)
    requires RunOK(c, batches) && n <= |batches| && j < c.dests && RunOK(c, batches[..n])
    requires Behind(Run(c, batches[..n]), j, n)
    ensures Behind(Run(c, batches), j, n) && Run(c, batches).out[j][0] == Run(c, batches[..n]).out[j][0]
    ensures Received(Run(c, batches), j) == Received(Run(c, batches[..n]), j)
    decreases |batches|
  {
    hide Simulate, Run;
    if n == |batches| {
      assert batches[..n] == batches;
    } else {
      var t := |batches| - 1;
      assert batches[..t][..n] == batches[..n];
      StuckForGood(c, batches[..t], n, j);
      BehindStaysBehind(c, t, Before(c, batches, t), j);
      RunUnfolds(c, batches);
    }
  }

  /** Every stamp in the network is at least t. */
  ghost predicate UpToDate(s: Net, t: int) {
    && (forall i, k :: 0 <= i < |s.srcQ| && 0 <= k < |s.srcQ[i]| ==> s.srcQ[i][k].cycle >= t)
    && (forall i, k :: 0 <= i < |s.srcNic| && 0 <= k < |s.srcNic[i]| ==> s.srcNic[i][k].cycle >= t)
    && (forall i, j, k :: 0 <= i < |s.virt| && 0 <= j < |s.virt[i]| && 0 <= k < |s.virt[i][j]| ==>
          s.virt[i][j][k].cycle >= t)
    && (forall j, k :: 0 <= j < |s.out| && 0 <= k < |s.out[j]| ==> s.out[j][k].cycle >= t)
    && (forall j, k :: 0 <= j < |s.dstNic| && 0 <= k < |s.dstNic[j]| ==> s.dstNic[j][k].cycle >= t)
    && (forall j, k :: 0 <= j < |s.collector| && 0 <= k < |s.collector[j]| ==> s.collector[j][k].cycle >= t)
  }

  lemma PunctualUpToDate(c: Config, t: int, s: Net, lead: int)
    requires c.Valid() && Punctual(c, t, s, lead)
    ensures UpToDate(s, t)
  {
    assert forall i, j :: 0 <= i < |s.virt| && 0 <= j < |s.virt[i]| ==>
                            OnTime(c, s.virt[i][j], t, Max(t, t - 1 + WireDelay(c)), 0, NoLink);
  }

  /** Exactly when: all packets of a run are up to date iff no output was ever blocked. */
  lemma UpToDateIffNeverBlocked(c: Config, batches: seq<seq<Mem>>)
    requires RunOK(c, batches)
    ensures UpToDate(Run(c, batches), |batches|) <==> NeverBlocked(c, batches)
  {
    if NeverBlocked(c, batches) {
      NoPacketFallsBehind(c, batches);
      PunctualUpToDate(c, |batches|, Run(c, batches), Max(|batches|, |batches| - 1 + PrepareDelay(c)));
    } else {
      var t :| 0 <= t < |batches| && AnyBlocked(c, t, AtOutputs(c, t, Before(c, batches, t)));
      BlockedLeavesBehind(c, batches, t);
    }
  }

  lemma BlockedLeavesBehind(c: Config, batches: seq<seq<Mem>>, t: nat)
    requires RunOK(c, batches) && t < |batches| && AnyBlocked(c, t, AtOutputs(c, t, Before(c, batches, t)))
    ensures !UpToDate(Run(c, batches), |batches|)
  {
    hide Simulate, Run;
    var s := Before(c, batches, t);
    var j :| 0 <= j < c.dests && Blocked(c, t, AtOutputs(c, t, s).out[j], AtOutputs(c, t, s).dstNic[j]);
    BlockedFallsBehind(c, t, s, j);
    PrefixBefore(c, batches, t + 1, t);
    RunUnfolds(c, batches[..t + 1]);
    StuckForGood(c, batches, t + 1, j);
    assert Run(c, batches).out[j][0].cycle < |batches|;
  }
}
