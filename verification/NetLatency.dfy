/** How long delivery takes at most. While no output is ever blocked, a packet that has reached its output
    queue is delivered within the transmissions and the NIC turns of the packets before it and its own. */
module NetLatency {
  import opened NetSpec
  import opened NetSystem
  import opened NetFlow
  import opened NetStamps
  import opened NetClock

  // ---------- A queue served head first ----------

  /** The servers on the way: a source NIC's link, an output port's link, and a NIC at either end. */
  datatype Server = Link | Port | Nic

  /** The cycles in which the server still has to work on the packet, the one in which it leaves included. */
  function Left(c: Config, p: Packet, server: Server): int
    requires c.Valid()
  {
    match server
    case Link => NicDelay(c, p.mem) + 1 - p.transmitting
    case Port => SwitchDelay(c, p.mem) + 1 - p.transmitting
    case Nic => c.nicProcDelay + 1 - p.processing
  }

  function Work(c: Config, q: Queue, server: Server): int
    requires c.Valid()
  {
    if q == [] then 0 else Work(c, q[..|q| - 1], server) + Left(c, q[|q| - 1], server)
  }

  /** The cycle before which the packet in place p leaves the queue, at the latest. */
  function Done(c: Config, t: int, q: Queue, p: nat, server: Server): int
    requires c.Valid() && p < |q|
  {
    Max(t, q[p].cycle) + Work(c, q[..p + 1], server)
  }

  /** One cycle of a server: idle if the head is not due, else one step of work on it, the last one of
      which takes it off the queue. What stays in the queue passes the clock. */
  ghost predicate Serves(c: Config, t: int, q: Queue, q': Queue, server: Server)
    requires c.Valid()
  {
    if q == [] || q[0].cycle != t then q' == q
    else
      || (Left(c, q[0], server) == 1 && q' == Bump(q[1..], t))
      || (&& |q'| == |q|
          && exists head: Packet :: WorkedOn(c, q[0], head, server) && q' == Bump(q[0 := head], t))
  }

  ghost predicate WorkedOn(c: Config, p: Packet, p': Packet, server: Server)
    requires c.Valid()
  {
    p'.mem == p.mem && p'.cycle == p.cycle && Left(c, p', server) == Left(c, p, server) - 1
  }

  lemma {:induction false} WorkSame(c: Config, p: Queue, q: Queue, server: Server)
    requires c.Valid() && |p| == |q|
    requires forall k :: 0 <= k < |p| ==> p[k] == q[k].(cycle := p[k].cycle)
    ensures Work(c, p, server) == Work(c, q, server)
    decreases |p|
  {
    if p != [] {
      WorkSame(c, p[..|p| - 1], q[..|q| - 1], server);
    }
  }

  lemma {:induction false} WorkJoin(c: Config, p: Queue, q: Queue, server: Server)
    requires c.Valid()
    ensures Work(c, p + q, server) == Work(c, p, server) + Work(c, q, server)
    decreases |q|
  {
    hide Left;
    if q == [] {
      assert p + q == p;
    } else {
      WorkJoin(c, p, q[..|q| - 1], server);
      assert (p + q)[..|p + q| - 1] == p + q[..|q| - 1];
    }
  }

  lemma WorkOne(c: Config, p: Packet, server: Server)
    requires c.Valid()
    ensures Work(c, [p], server) == Left(c, p, server)
  {
    hide Left;
    assert [p][..0] == [];
  }

  lemma WorkHead(c: Config, q: Queue, server: Server)
    requires c.Valid() && q != []
    ensures Work(c, q, server) == Left(c, q[0], server) + Work(c, q[1..], server)
  {
    hide Left, Work;
    assert q == [q[0]] + q[1..];
    WorkJoin(c, [q[0]], q[1..], server);
    WorkOne(c, q[0], server);
  }

  /** Bumping changes stamps only. */
  lemma BumpWork(c: Config, q: Queue, t: int, hi: int, p: nat, server: Server)
    requires c.Valid() && Ordered(q, t, hi) && p < |q|
    ensures Work(c, Bump(q, t)[..p + 1], server) == Work(c, q[..p + 1], server)
    ensures Bump(q, t)[p].cycle == Max(q[p].cycle, t + 1)
  {
    BumpPasses(q, t, hi);
    WorkSame(c, Bump(q, t)[..p + 1], q[..p + 1], server);
  }

  lemma WorksOn(c: Config, t: int, q: Queue, head: Packet, hi: int, p: nat, server: Server)
    requires c.Valid() && Ordered(q, t, hi) && p < |q| && q[0].cycle == t && WorkedOn(c, q[0], head, server)
    ensures Done(c, t + 1, Bump(q[0 := head], t), p, server) <= Done(c, t, q, p, server)
  {
    hide Work, Bump, Left;
    var q1 := q[0 := head];
    BumpWork(c, q1, t, hi, p, server);
    WorkHead(c, q[..p + 1], server);
    WorkHead(c, q1[..p + 1], server);
    assert q1[..p + 1][1..] == q[..p + 1][1..];
  }

  lemma MovesUp(c: Config, t: int, q: Queue, hi: int, p: nat, server: Server)
    requires c.Valid() && Ordered(q, t, hi) && 1 <= p < |q| && q[0].cycle == t && Left(c, q[0], server) == 1
    ensures Done(c, t + 1, Bump(q[1..], t), p - 1, server) <= Done(c, t, q, p, server)
  {
    hide Work, Bump, Left;
    BumpWork(c, q[1..], t, hi, p - 1, server);
    WorkHead(c, q[..p + 1], server);
    assert q[1..][..p] == q[..p + 1][1..];
  }

  /** No packet's time of leaving moves back, and the head leaves in time. */
  lemma ServesInTime(c: Config, t: int, q: Queue, q': Queue, hi: int, p: nat, server: Server)
    requires c.Valid() && Ordered(q, t, hi) && Serves(c, t, q, q', server) && p < |q|
    ensures |q'| == |q| ==> Done(c, t + 1, q', p, server) <= Done(c, t, q, p, server)
    ensures |q'| != |q| ==> |q'| + 1 == |q|
    ensures |q'| != |q| && p > 0 ==> Done(c, t + 1, q', p - 1, server) <= Done(c, t, q, p, server)
    ensures |q'| != |q| && p == 0 ==> Done(c, t, q, p, server) == t + 1
  {
    hide Work, Bump, Left;
    if q[0].cycle == t {
      if |q'| == |q| {
        var head: Packet :| WorkedOn(c, q[0], head, server) && q' == Bump(q[0 := head], t);
        WorksOn(c, t, q, head, hi, p, server);
      } else if p > 0 {
        MovesUp(c, t, q, hi, p, server);
      } else {
        WorkOne(c, q[0], server);
        assert q[..1] == [q[0]];
      }
    }
  }

  // ---------- One destination ----------

  /** The queues at one destination's end. */
  datatype Line = Line(out: Queue, nic: Queue, collector: Queue, delivered: Queue)

  /** All its packets in the order of their arrival at the output, the oldest first. */
  function InOrder(l: Line): Queue {
    l.delivered + l.collector + l.nic + l.out
  }

  function OutTime(c: Config, t: int, l: Line, p: nat): int
    requires c.Valid() && p < |l.out|
  {
    Done(c, t, l.out, p, Port) + c.propDelay + Work(c, l.nic, Nic) + (p + 1) * (c.nicProcDelay + 1)
    + c.packetisation + 1
  }

  function NicTime(c: Config, t: int, l: Line, p: nat): int
    requires c.Valid() && p < |l.nic|
  {
    Done(c, t, l.nic, p, Nic) + c.packetisation + 1
  }

  function CollectorTime(t: int, l: Line, p: nat): int
    requires p < |l.collector|
  {
    Max(t, l.collector[p].cycle) + 1
  }

  /** The a-th packet to arrive is delivered before cycle `deadline`, judged from where it is. The three clocks
      are those of the three stages: which have had their turn in this cycle, and which have not. */
  ghost predicate Expected(c: Config, outClock: int, nicClock: int, clock: int, l: Line, a: nat, deadline: int)
    requires c.Valid()
  {
    var inCollector := a - |l.delivered|;
    var inNic := inCollector - |l.collector|;
    var inOut := inNic - |l.nic|;
    && inOut < |l.out|
    && (0 <= inCollector < |l.collector| ==> CollectorTime(clock, l, inCollector) <= deadline)
    && (0 <= inNic < |l.nic| ==> NicTime(c, nicClock, l, inNic) <= deadline)
    && (0 <= inOut ==> OutTime(c, outClock, l, inOut) <= deadline)
  }

  function AfterOutput(c: Config, t: int, l: Line): Line
    requires c.Valid()
  {
    var (out, nic) := OutputStep(c, t, l.out, l.nic);
    l.(out := out, nic := nic)
  }

  function AfterDest(c: Config, t: int, l: Line): Line {
    var (nic, collector) := DestStep(c, t, l.nic, l.collector);
    l.(nic := nic, collector := collector)
  }

  function AfterDelivery(t: int, l: Line): Line {
    var (collector, delivered) := Deliver(t, l.collector, l.delivered);
    l.(collector := collector, delivered := delivered)
  }

  /** An unblocked output port is such a server. */
  lemma PortServes(c: Config, t: int, out: Queue, nic: Queue, hi: int)
    requires c.Valid() && OnTime(c, out, t, hi, 0, FromPort) && !Blocked(c, t, out, nic)
    ensures var (out', nic') := OutputStep(c, t, out, nic);
            && Serves(c, t, out, out', Port)
            && (|out'| == |out| ==> nic' == nic)
            && (|out'| != |out| ==> out != [] && out[0].cycle == t && nic' == nic + [SwitchedOut(c, out[0])])
  {
    hide Bytes, Size, Bump, Ordered;
    if out != [] && out[0].cycle == t {
      var head := out[0];
      assert Counted(c, head, 0, FromPort);
      DelaysPositive(c, head.mem);
      if head.transmitting != SwitchDelay(c, head.mem) {
        assert WorkedOn(c, head, head.(transmitting := head.transmitting + 1), Port);
      }
    }
  }

  lemma NicServes(c: Config, t: int, nic: Queue, collector: Queue, hi: int)
    requires c.Valid() && OnTime(c, nic, t, hi, c.nicProcDelay, NoLink)
    ensures var (nic', collector') := DestStep(c, t, nic, collector);
            && Serves(c, t, nic, nic', Nic)
            && (|nic'| == |nic| ==> collector' == collector)
            && (|nic'| != |nic| ==> nic != [] && nic[0].cycle == t && collector' == collector + [Collected(c, nic[0])])
  {
    hide Bump, Ordered;
    if nic != [] && nic[0].cycle == t {
      var head := nic[0];
      assert Counted(c, head, c.nicProcDelay, NoLink);
      if head.processing != c.nicProcDelay {
        assert WorkedOn(c, head, head.(processing := head.processing + 1), Nic);
      }
    }
  }

  lemma OneTurnMore(p: nat, x: nat)
    ensures (p + 1) * x == p * x + x
  {
  }

  lemma WorkPush(c: Config, q: Queue, p: Packet, server: Server)
    requires c.Valid()
    ensures Work(c, q + [p], server) == Work(c, q, server) + Left(c, p, server)
  {
    hide Work, Left;
    WorkJoin(c, q, [p], server);
    WorkOne(c, p, server);
  }

  /** The packet reaches the NIC in time. */
  lemma ArrivesInTime(c: Config, t: int, l: Line, x: Packet)
    requires c.Valid() && l.out != [] && x.cycle == t + c.propDelay && Done(c, t, l.out, 0, Port) == t + 1
    ensures NicTime(c, t, l.(nic := l.nic + [x]), |l.nic|) <= OutTime(c, t, l, 0)
  {
    hide Work, Done;
    var nic := l.nic + [x];
    WorkPush(c, l.nic, x, Nic);
    assert nic[..|l.nic| + 1] == nic;
    DoneIs(c, t, nic, |l.nic|, Nic);
  }

  lemma DoneIs(c: Config, t: int, q: Queue, p: nat, server: Server)
    requires c.Valid() && p < |q|
    ensures Done(c, t, q, p, server) == Max(t, q[p].cycle) + Work(c, q[..p + 1], server)
  {
  }

  /** The packets behind it lose a place at the output and gain one in the NIC. */
  lemma FollowsInTime(c: Config, t: int, l: Line, out: Queue, x: Packet, p: nat)
    requires c.Valid() && 1 <= p < |l.out| == |out| + 1
    requires Done(c, t + 1, out, p - 1, Port) <= Done(c, t, l.out, p, Port)
    ensures OutTime(c, t + 1, l.(out := out, nic := l.nic + [x]), p - 1) <= OutTime(c, t, l, p)
  {
    hide Work, Done;
    WorkPush(c, l.nic, x, Nic);
    OneTurnMore(p, c.nicProcDelay + 1);
  }

  lemma SamePrefix(c: Config, t: int, q: Queue, x: Packet, p: nat, server: Server)
    requires c.Valid() && p < |q|
    ensures Done(c, t, q + [x], p, server) == Done(c, t, q, p, server)
  {
    assert (q + [x])[..p + 1] == q[..p + 1];
  }

  lemma OutputExpects(c: Config, t: int, l: Line, hi: int, a: nat, deadline: int)
    requires c.Valid() && OnTime(c, l.out, t, hi, 0, FromPort) && !Blocked(c, t, l.out, l.nic)
    requires Expected(c, t, t, t, l, a, deadline)
    ensures Expected(c, t + 1, t, t, AfterOutput(c, t, l), a, deadline)
  {
    hide Work, Done, Serves, Blocked, OutputStep;
    PortServes(c, t, l.out, l.nic, hi);
    var l' := AfterOutput(c, t, l);
    var inNic := a - |l.delivered| - |l.collector|;
    var p := inNic - |l.nic|;
    if p >= 0 {
      ServesInTime(c, t, l.out, l'.out, hi, p, Port);
      if |l'.out| != |l.out| && p == 0 {
        ArrivesInTime(c, t, l, SwitchedOut(c, l.out[0]));
        assert l'.nic == l.(nic := l.nic + [SwitchedOut(c, l.out[0])]).nic;
      } else if |l'.out| != |l.out| {
        FollowsInTime(c, t, l, l'.out, SwitchedOut(c, l.out[0]), p);
      }
    } else if inNic >= 0 && |l'.out| != |l.out| {
      SamePrefix(c, t, l.nic, SwitchedOut(c, l.out[0]), inNic, Nic);
    }
    if |l'.out| != |l.out| && l.out != [] {
      ServesInTime(c, t, l.out, l'.out, hi, 0, Port);
    }
  }

  /** Serving never adds work. */
  lemma ServesLess(c: Config, t: int, q: Queue, q': Queue, hi: int, server: Server)
    requires c.Valid() && Ordered(q, t, hi) && Serves(c, t, q, q', server)
    ensures Work(c, q', server) <= Work(c, q, server)
  {
    hide Work, Left, Bump, WorkedOn, Ordered;
    if q != [] && q[0].cycle == t {
      if |q'| == |q| {
        var head: Packet :| WorkedOn(c, q[0], head, server) && q' == Bump(q[0 := head], t);
        LessWork(c, t, q, head, hi, server);
      } else {
        RestOrdered(q, t, hi);
        WorkHead(c, q, server);
        BumpKeepsWork(c, q[1..], t, hi, server);
      }
    }
  }

  lemma LessWork(c: Config, t: int, q: Queue, head: Packet, hi: int, server: Server)
    requires c.Valid() && q != [] && Ordered(q, t, hi) && WorkedOn(c, q[0], head, server)
    ensures Work(c, Bump(q[0 := head], t), server) == Work(c, q, server) - 1
  {
    hide Work, Left, Bump;
    var q1 := q[0 := head];
    BumpKeepsWork(c, q1, t, hi, server);
    WorkHead(c, q, server);
    WorkHead(c, q1, server);
    assert q1[1..] == q[1..];
  }

  lemma RestOrdered(q: Queue, lo: int, hi: int)
    requires q != [] && Ordered(q, lo, hi)
    ensures Ordered(q[1..], lo, hi)
  {
  }

  lemma BumpKeepsWork(c: Config, q: Queue, t: int, hi: int, server: Server)
    requires c.Valid() && Ordered(q, t, hi)
    ensures Work(c, Bump(q, t), server) == Work(c, q, server)
  {
    BumpPasses(q, t, hi);
    WorkSame(c, Bump(q, t), q, server);
  }

  lemma DestExpects(c: Config, t: int, l: Line, hi: int, a: nat, deadline: int)
    requires c.Valid() && OnTime(c, l.nic, t, hi, c.nicProcDelay, NoLink)
    requires Expected(c, t + 1, t, t, l, a, deadline)
    ensures Expected(c, t + 1, t + 1, t, AfterDest(c, t, l), a, deadline)
  {
    hide Work, Done, Serves, DestStep;
    NicServes(c, t, l.nic, l.collector, hi);
    var l' := AfterDest(c, t, l);
    var inNic := a - |l.delivered| - |l.collector|;
    ServesLess(c, t, l.nic, l'.nic, hi, Nic);
    if 0 <= inNic < |l.nic| {
      ServesInTime(c, t, l.nic, l'.nic, hi, inNic, Nic);
    } else if l.nic != [] {
      ServesInTime(c, t, l.nic, l'.nic, hi, 0, Nic);
    }
  }

  lemma DeliveryExpects(c: Config, t: int, l: Line, hi: int, a: nat, deadline: int)
    requires c.Valid() && OnTime(c, l.collector, t, hi, 0, NoLink)
    requires Expected(c, t + 1, t + 1, t, l, a, deadline)
    ensures Expected(c, t + 1, t + 1, t + 1, AfterDelivery(t, l), a, deadline)
  {
    var (rest, done) := Deliver(t, l.collector, l.delivered);
    DeliverSplits(t, l.collector, l.delivered);
    DeliverOnTime(c, t, l.collector, l.delivered, hi);
    hide Work, Done, Deliver, Counted;
    assert |done + rest| == |l.delivered + l.collector|;
    var k := a - |done|;
    if 0 <= k < |rest| {
      assert rest[k] == (done + rest)[a] == (l.delivered + l.collector)[a] == l.collector[a - |l.delivered|];
    }
  }

  // ---------- The order of arrival ----------

  /** The packets that had arrived are still there, in their places, with their requests. */
  ghost predicate Keeps(q: Queue, q': Queue) {
    |q| <= |q'| && forall k :: 0 <= k < |q| ==> q'[k].mem == q[k].mem
  }

  lemma KeepsBetween(a: Queue, q: Queue, q': Queue, b: Queue)
    requires Keeps(q, q') && |q| == |q'|
    ensures Keeps(a + q + b, a + q' + b) && |a + q + b| == |a + q' + b|
  {
  }

  lemma KeepsJoins(p: Queue, q: Queue, r: Queue)
    requires Keeps(p, q) && Keeps(q, r)
    ensures Keeps(p, r)
  {
  }

  lemma ForwardsKeeps(to: Queue, from: Queue, to': Queue, from': Queue)
    requires Forwards(to, from, to', from')
    ensures Keeps(to + from, to' + from') && |to + from| == |to' + from'|
  {
  }

  lemma OutputKeepsOrder(c: Config, t: int, l: Line)
    requires c.Valid()
    ensures Keeps(InOrder(l), InOrder(AfterOutput(c, t, l)))
  {
    var l' := AfterOutput(c, t, l);
    OutputForwards(c, t, l.out, l.nic);
    ForwardsKeeps(l.nic, l.out, l'.nic, l'.out);
    hide Keeps, OutputStep, Forwards;
    KeepsBetween(l.delivered + l.collector, l.nic + l.out, l'.nic + l'.out, []);
    Regrouped(l.delivered + l.collector, l.nic, l.out, []);
    Regrouped(l.delivered + l.collector, l'.nic, l'.out, []);
    assert InOrder(l) + [] == InOrder(l) && InOrder(l') + [] == InOrder(l');
  }

  lemma Regrouped(a: Queue, p: Queue, q: Queue, b: Queue)
    ensures a + (p + q) + b == a + p + q + b
  {
  }

  lemma DestKeepsOrder(c: Config, t: int, l: Line)
    ensures Keeps(InOrder(l), InOrder(AfterDest(c, t, l)))
  {
    var l' := AfterDest(c, t, l);
    DestForwards(c, t, l.nic, l.collector);
    ForwardsKeeps(l.collector, l.nic, l'.collector, l'.nic);
    hide Keeps, DestStep, Forwards;
    KeepsBetween(l.delivered, l.collector + l.nic, l'.collector + l'.nic, l.out);
    Regrouped(l.delivered, l.collector, l.nic, l.out);
    Regrouped(l.delivered, l'.collector, l'.nic, l.out);
  }

  lemma DeliveryKeepsOrder(t: int, l: Line)
    ensures InOrder(AfterDelivery(t, l)) == InOrder(l)
  {
    DeliverSplits(t, l.collector, l.delivered);
  }

  // ---------- Cycles and runs ----------

  function LineOf(c: Config, s: Net, j: nat): Line
    requires Routed(c, s) && j < c.dests
  {
    Line(s.out[j], s.dstNic[j], s.collector[j], s.delivered[j])
  }

  lemma LineAfter(c: Config, t: int, s: Net, j: nat)
    requires Routed(c, s) && j < c.dests
    ensures LineOf(c, Deliveries(c, t, Dests(c, t, Outputs(c, t, s))), j)
            == AfterDelivery(t, AfterDest(c, t, AfterOutput(c, t, LineOf(c, s, j))))
  {
  }

  /** What the crossbar adds to an output queue concerns nobody before it. */
  lemma GrowthExpects(c: Config, t: int, l: Line, l': Line, a: nat, deadline: int)
    requires c.Valid() && l' == l.(out := l'.out) && l.out <= l'.out && Expected(c, t, t, t, l, a, deadline)
    ensures Expected(c, t, t, t, l', a, deadline) && Keeps(InOrder(l), InOrder(l'))
  {
    hide Work;
    var p := a - |l.delivered| - |l.collector| - |l.nic|;
    if p >= 0 {
      assert l'.out[..p + 1] == l.out[..p + 1];
    }
  }

  /** A cycle keeps every packet's deadline, and its place in the order of arrival. */
  lemma CycleExpects(c: Config, t: int, s: Net, lead: int, j: nat, a: nat, deadline: int)
    requires Routed(c, s) && Punctual(c, t, s, lead) && !AnyBlocked(c, t, AtOutputs(c, t, s)) && j < c.dests
    requires Expected(c, t, t, t, LineOf(c, s, j), a, deadline)
    ensures var l, l' := LineOf(c, s, j), LineOf(c, Simulate(c, t, s), j);
            Expected(c, t + 1, t + 1, t + 1, l', a, deadline) && Keeps(InOrder(l), InOrder(l'))
  {
    var s3 := AtOutputs(c, t, s);
    UpstreamOnTime(c, t, s, lead);
    OutputsGrow(c, t, s, j);
    MidwayAt(c, t, s3, lead, j);
    hide Punctual, Midway, AnyBlocked, AtOutputs, Expected, Keeps, OnTime, AfterOutput, AfterDest, AfterDelivery,
         Blocked;
    var l, l0 := LineOf(c, s, j), LineOf(c, s3, j);
    GrowthExpects(c, t, l, l0, a, deadline);
    LineCycle(c, t, l0, a, deadline);
    var l1 := AfterOutput(c, t, l0);
    LineAfter(c, t, s3, j);
    SimulateFromOutputs(c, t, s);
    KeepsJoins(InOrder(l), InOrder(l0), InOrder(AfterDelivery(t, AfterDest(c, t, l1))));
  }

  ghost predicate LineOnTime(c: Config, t: int, l: Line)
    requires c.Valid()
  {
    && OnTime(c, l.out, t, t + c.switchingDelay, 0, FromPort)
    && OnTime(c, l.nic, t, Max(t, t - 1 + c.propDelay), c.nicProcDelay, NoLink)
    && OnTime(c, l.collector, t, Max(t, t - 1 + c.packetisation), 0, NoLink)
    && !Blocked(c, t, l.out, l.nic)
  }

  lemma MidwayAt(c: Config, t: int, s: Net, lead: int, j: nat)
    requires Routed(c, s) && Midway(c, t, s, lead) && !AnyBlocked(c, t, s) && j < c.dests
    ensures LineOnTime(c, t, LineOf(c, s, j))
  {
    hide OnTime, Blocked;
  }

  lemma LineCycle(c: Config, t: int, l: Line, a: nat, deadline: int)
    requires c.Valid() && LineOnTime(c, t, l) && Expected(c, t, t, t, l, a, deadline)
    ensures var l' := AfterDelivery(t, AfterDest(c, t, AfterOutput(c, t, l)));
            Expected(c, t + 1, t + 1, t + 1, l', a, deadline) && Keeps(InOrder(l), InOrder(l'))
  {
    hide Expected, Keeps, OnTime, Blocked, OutputStep, DestStep, Deliver, InOrder;
    var l1 := AfterOutput(c, t, l);
    var l2 := AfterDest(c, t, l1);
    OutputExpects(c, t, l, t + c.switchingDelay, a, deadline);
    ArrivalsOnTime(c, t, l.out, l.nic, Max(t, t - 1 + c.propDelay));
    DestExpects(c, t, l1, t + c.propDelay, a, deadline);
    DestOnTime(c, t, l1.nic, l.collector, t + c.propDelay, Max(t, t - 1 + c.packetisation));
    DeliveryExpects(c, t, l2, t + c.packetisation, a, deadline);
    OutputKeepsOrder(c, t, l);
    DestKeepsOrder(c, t, l1);
    DeliveryKeepsOrder(t, l2);
    KeepsJoins(InOrder(l), InOrder(l1), InOrder(l2));
  }

  lemma {:induction false} RunExpects(c: Config, b: seq<seq<Mem>>, t: nat, j: nat, a: nat, deadline: int)
    requires RunOK(c, b) && NeverBlocked(c, b) && t <= |b| && j < c.dests
    requires Expected(c, t, t, t, LineOf(c, Run(c, b[..t]), j), a, deadline)
    ensures var l, l' := LineOf(c, Run(c, b[..t]), j), LineOf(c, Run(c, b), j);
            Expected(c, |b|, |b|, |b|, l', a, deadline) && Keeps(InOrder(l), InOrder(l'))
    decreases |b|
  {
    hide Run, Expected, Simulate, Punctual, AnyBlocked, AtOutputs, Keeps, InOrder;
    if t == |b| {
      assert b[..t] == b;
      KeepsItself(InOrder(LineOf(c, Run(c, b), j)));
    } else {
      var n := |b| - 1;
      assert b[..n][..t] == b[..t];
      NeverBlockedBefore(c, b, n);
      RunExpects(c, b[..n], t, j, a, deadline);
      NoPacketFallsBehind(c, b[..n]);
      InjectPunctual(c, n, Run(c, b[..n]), b[n]);
      var s := Before(c, b, n);
      assert LineOf(c, s, j) == LineOf(c, Run(c, b[..n]), j);
      CycleExpects(c, n, s, n + PrepareDelay(c), j, a, deadline);
      RunUnfolds(c, b);
      KeepsJoins(InOrder(LineOf(c, Run(c, b[..t]), j)), InOrder(LineOf(c, s, j)), InOrder(LineOf(c, Run(c, b), j)));
    }
  }

  lemma KeepsItself(q: Queue)
    ensures Keeps(q, q)
  {
  }

  lemma NeverBlockedBefore(c: Config, b: seq<seq<Mem>>, n: nat)
    requires RunOK(c, b) && NeverBlocked(c, b) && n <= |b|
    ensures RunOK(c, b[..n]) && NeverBlocked(c, b[..n])
  {
    hide AnyBlocked, AtOutputs, Before;
    forall u | 0 <= u < n ensures !AnyBlocked(c, u, AtOutputs(c, u, Before(c, b[..n], u))) {
      PrefixBefore(c, b, n, u);
    }
  }

  // ---------- The bound ----------

  /** The transmission times of these packets at the output, and a cycle for each. */
  function TransmitTime(c: Config, q: Queue): nat
    requires c.Valid()
  {
    if q == [] then 0 else TransmitTime(c, q[..|q| - 1]) + SwitchDelay(c, q[|q| - 1].mem) + 1
  }

  lemma {:induction false} PortWorkAtMost(c: Config, q: Queue)
    requires c.Valid()
    ensures Work(c, q, Port) <= TransmitTime(c, q)
    decreases |q|
  {
    hide SwitchDelay;
    if q != [] {
      PortWorkAtMost(c, q[..|q| - 1]);
    }
  }

  lemma {:induction false} NicWorkAtMost(c: Config, q: Queue)
    requires c.Valid()
    ensures Work(c, q, Nic) <= |q| * (c.nicProcDelay + 1)
    decreases |q|
  {
    if q != [] {
      NicWorkAtMost(c, q[..|q| - 1]);
      OneTurnMore(|q| - 1, c.nicProcDelay + 1);
    }
  }

  function ServerLink(server: Server): NetStamps.Link {
    match server
    case Link => FromNic
    case Port => FromPort
    case Nic => NoLink
  }

  lemma {:induction false} WorkPositive(c: Config, q: Queue, lo: int, hi: int, server: Server)
    requires c.Valid()
    requires OnTime(c, q, lo, hi, if server.Nic? then c.nicProcDelay else 0, ServerLink(server))
    ensures Work(c, q, server) >= |q|
    decreases |q|
  {
    if q != [] {
      WorkPositive(c, q[..|q| - 1], lo, hi, server);
    }
  }

  lemma Split(n: nat, m: nat, x: nat)
    ensures n * x + m * x == (n + m) * x
  {
  }

  lemma ExpectedAtOutput(c: Config, t: int, l: Line, p: nat)
    requires c.Valid() && p < |l.out| && l.out[p].cycle <= t + c.switchingDelay
    ensures Expected(c, t, t, t, l, |l.delivered| + |l.collector| + |l.nic| + p, DeliveryTime(c, t, l, p))
  {
    hide Work, TransmitTime, Done;
    DoneIs(c, t, l.out, p, Port);
    PortWorkAtMost(c, l.out[..p + 1]);
    NicWorkAtMost(c, l.nic);
    Split(|l.nic|, p + 1, c.nicProcDelay + 1);
  }

  /** The cycle by which the p-th packet of the output queue has been delivered, whatever arrives behind it. */
  function DeliveryTime(c: Config, t: int, l: Line, p: nat): int
    requires c.Valid() && p < |l.out|
  {
    t + c.switchingDelay + TransmitTime(c, l.out[..p + 1]) + c.propDelay
    + (|l.nic| + (p + 1)) * (c.nicProcDelay + 1) + c.packetisation + 1
  }

  /** Past its deadline a packet has been delivered. */
  lemma DeadlineMet(c: Config, t: int, l: Line, hi: int, hi': int, a: nat, deadline: int)
    requires c.Valid() && deadline <= t && Expected(c, t, t, t, l, a, deadline)
    requires OnTime(c, l.out, t, hi, 0, FromPort) && OnTime(c, l.nic, t, hi', c.nicProcDelay, NoLink)
    ensures a < |l.delivered|
  {
    hide Work, OnTime;
    var inNic := a - |l.delivered| - |l.collector|;
    var p := inNic - |l.nic|;
    WorkPositive(c, l.nic, t, hi', Nic);
    if p >= 0 {
      FrontOnTime(c, l.out, t, hi, p + 1, 0, FromPort);
      WorkPositive(c, l.out[..p + 1], t, hi, Port);
      Positive(p + 1, c.nicProcDelay + 1);
    } else if inNic >= 0 {
      FrontOnTime(c, l.nic, t, hi', inNic + 1, c.nicProcDelay, NoLink);
      WorkPositive(c, l.nic[..inNic + 1], t, hi', Nic);
    }
  }

  lemma Positive(n: nat, x: nat)
    ensures n * x >= 0
  {
  }

  lemma FrontOnTime(c: Config, q: Queue, lo: int, hi: int, n: nat, processing: nat, link: Link)
    requires c.Valid() && OnTime(c, q, lo, hi, processing, link) && n <= |q|
    ensures OnTime(c, q[..n], lo, hi, processing, link)
  {
  }

  lemma QueuesOnTime(c: Config, t: int, s: Net, lead: int, j: nat)
    requires Routed(c, s) && Punctual(c, t, s, lead) && j < c.dests
    ensures OnTime(c, s.out[j], t, Max(t, t - 1 + c.switchingDelay), 0, FromPort)
    ensures OnTime(c, s.dstNic[j], t, Max(t, t - 1 + c.propDelay), c.nicProcDelay, NoLink)
  {
    hide OnTime;
  }

  lemma DeliveredFrom(c: Config, t: nat, l: Line, l': Line, p: nat)
    requires p < |l.out| && Keeps(InOrder(l), InOrder(l'))
    requires |l.delivered| + |l.collector| + |l.nic| + p < |l'.delivered|
    ensures l'.delivered[|l.delivered| + |l.collector| + |l.nic| + p].mem == l.out[p].mem
  {
    var a := |l.delivered| + |l.collector| + |l.nic| + p;
    assert InOrder(l)[a] == l.out[p];
    assert InOrder(l')[a] == l'.delivered[a];
  }

  /** Latency at the receiving end: in a run that is never blocked, the p-th packet of an output queue is
      delivered, in the order of arrival, before the transmissions of the p + 1 packets, the NIC turns of
      these and of those in the NIC, and the fixed delays are over. */
  lemma DeliveredWithin(c: Config, b: seq<seq<Mem>>, t: nat, j: nat, p: nat)
    requires RunOK(c, b) && NeverBlocked(c, b) && t <= |b| && j < c.dests && p < |Run(c, b[..t]).out[j]|
    requires |b| >= DeliveryTime(c, t, LineOf(c, Run(c, b[..t]), j), p)
    ensures var s, s' := Run(c, b[..t]), Run(c, b);
            var a := |s.delivered[j]| + |s.collector[j]| + |s.dstNic[j]| + p;
            a < |s'.delivered[j]| && s'.delivered[j][a].mem == s.out[j][p].mem
  {
    hide Run, Expected, Punctual, Keeps, InOrder, OnTime, DeliveryTime, NeverBlocked;
    var s, s', n := Run(c, b[..t]), Run(c, b), |b|;
    var l, l' := LineOf(c, s, j), LineOf(c, s', j);
    var a := |l.delivered| + |l.collector| + |l.nic| + p;
    NeverBlockedBefore(c, b, t);
    NoPacketFallsBehind(c, b[..t]);
    QueuesOnTime(c, t, s, Max(t, t - 1 + PrepareDelay(c)), j);
    StampAtMost(c, s.out[j], t, Max(t, t - 1 + c.switchingDelay), p);
    ExpectedAtOutput(c, t, l, p);
    RunExpects(c, b, t, j, a, DeliveryTime(c, t, l, p));
    NoPacketFallsBehind(c, b);
    QueuesOnTime(c, n, s', Max(n, n - 1 + PrepareDelay(c)), j);
    DeadlineMet(c, n, l', Max(n, n - 1 + c.switchingDelay), Max(n, n - 1 + c.propDelay), a, DeliveryTime(c, t, l, p));
    DeliveredFrom(c, t, l, l', p);
  }

  lemma StampAtMost(c: Config, q: Queue, lo: int, hi: int, p: nat)
    requires c.Valid() && OnTime(c, q, lo, hi, 0, FromPort) && p < |q|
    ensures q[p].cycle <= hi
  {
  }
}
