/** How long it takes at most to get from a source queue into the switch. While the sender's NIC and its
    input port have room, a request has entered its virtual queue when the NIC turns and the
    transmissions of the requests before it and its own are over. */
module NetEntry {
  import opened NetSpec
  import opened NetSystem
  import opened NetFlow
  import opened NetStamps
  import opened NetClock
  import opened NetLatency
  import opened NetCredit

  // ---------- One sender ----------

  /** Room in the NIC for the head of the source queue, and in the input port for the head of the NIC. */
  predicate SourceRoom(c: Config, q: Queue, nic: Queue) {
    q != [] ==> Bytes(c, nic) + Size(c, q[0].mem) <= c.nicCapacity
  }

  predicate PortRoom(c: Config, nic: Queue, row: seq<Queue>) {
    nic != [] ==> RowBytes(c, row) + Size(c, nic[0].mem) <= c.inputCapacity
  }

  /** While there is room in the NIC, the source queue is served one request at a time. */
  lemma SourceServes(c: Config, t: int, q: Queue, nic: Queue, hi: int)
    requires c.Valid() && OnTime(c, q, t, hi, c.nicProcDelay, NoLink) && SourceRoom(c, q, nic)
    ensures var (q', nic') := SourceStep(c, t, q, nic);
            && Serves(c, t, q, q', Nic)
            && (|q'| == |q| ==> nic' == nic)
            && (|q'| != |q| ==> q != [] && q[0].cycle == t
                                && nic' == nic + [q[0].(inNicSource := q[0].cycle, processing := 0)])
  {
    hide Bytes, Size, Bump, Ordered;
    if q != [] && q[0].cycle == t {
      var head := q[0];
      assert Counted(c, head, c.nicProcDelay, NoLink);
      if head.processing != c.nicProcDelay {
        assert WorkedOn(c, head, head.(processing := head.processing + 1), Nic);
      }
    }
  }

  /** While there is room in the input port, the NIC's link transmits one packet at a time. */
  lemma LinkServes(c: Config, t: int, nic: Queue, row: seq<Queue>)
    requires c.Valid() && OnTime(c, nic, t, t, 0, FromNic) && PortRoom(c, nic, row)
    requires forall k :: 0 <= k < |nic| ==> nic[k].mem.dest < |row|
    ensures Serves(c, t, nic, NicStep(c, t, nic, row).0, NetLatency.Link)
  {
    if nic != [] {
      var head := nic[0];
      assert Counted(c, head, 0, FromNic);
      DelaysPositive(c, head.mem);
      var nic1 := Transmit(c, t, nic, row).0;
      TransmitOnTime(c, t, nic, row);
      BumpAgain(c, t, nic1);
      if head.transmitting != NicDelay(c, head.mem) {
        assert WorkedOn(c, head, head.(transmitting := head.transmitting + 1), NetLatency.Link);
      }
    }
    hide RowBytes, Size, Bump, Bytes, NicDelay, OnTime;
  }

  lemma BumpAgain(c: Config, t: int, nic: Queue)
    requires c.Valid()
    ensures OnTime(c, nic, t + 1, t + 1, 0, FromNic) ==> Bump(nic, t) == nic
  {
    if OnTime(c, nic, t + 1, t + 1, 0, FromNic) {
      BumpLeaves(nic, t, t + 1);
    }
  }

  // ---------- Deadlines ----------

  /** The transmission times of these packets on the NIC's link, and a cycle for each. */
  function LinkTime(c: Config, q: Queue): nat
    requires c.Valid()
  {
    if q == [] then 0 else LinkTime(c, q[..|q| - 1]) + NicDelay(c, q[|q| - 1].mem) + 1
  }

  function NicEntry(c: Config, t: int, nic: Queue, p: nat): int
    requires c.Valid() && p < |nic|
  {
    Done(c, t, nic, p, NetLatency.Link)
  }

  function SourceEntry(c: Config, t: int, q: Queue, nic: Queue, p: nat): int
    requires c.Valid() && p < |q|
  {
    Done(c, t, q, p, Nic) + Work(c, nic, NetLatency.Link) + LinkTime(c, q[..p + 1])
  }

  /** The packet in place `at`, counted from the head of the NIC on through the source queue, enters the
      switch before the deadline; a negative place is one that has entered. The clocks are those of the
      two stages: which has had its turn in this cycle, and which has not. */
  ghost predicate Enters(c: Config, sourceClock: int, nicClock: int, q: Queue, nic: Queue, at: int, deadline: int)
    requires c.Valid()
  {
    && at < |nic| + |q|
    && (0 <= at < |nic| ==> NicEntry(c, nicClock, nic, at) <= deadline)
    && (|nic| <= at ==> SourceEntry(c, sourceClock, q, nic, at - |nic|) <= deadline)
  }

  lemma LinkTimeHead(c: Config, q: Queue)
    requires c.Valid() && q != []
    ensures LinkTime(c, q) == NicDelay(c, q[0].mem) + 1 + LinkTime(c, q[1..])
  {
    hide NicDelay;
    if |q| == 1 {
      assert q[..0] == [] && q[1..] == [];
    } else {
      LinkTimeHead(c, q[..|q| - 1]);
      assert q[..|q| - 1][1..] == q[1..][..|q| - 2];
    }
  }

  lemma {:induction false} LinkTimeSame(c: Config, p: Queue, q: Queue)
    requires c.Valid() && |p| == |q| && forall k :: 0 <= k < |p| ==> p[k].mem == q[k].mem
    ensures LinkTime(c, p) == LinkTime(c, q)
    decreases |p|
  {
    hide NicDelay;
    if p != [] {
      LinkTimeSame(c, p[..|p| - 1], q[..|q| - 1]);
    }
  }

  /** Serving changes stamps and counters, and possibly takes the head off. */
  lemma ServesMems(c: Config, t: int, q: Queue, q': Queue, server: Server)
    requires c.Valid() && Serves(c, t, q, q', server)
    ensures |q'| == |q| ==> forall k :: 0 <= k < |q| ==> q'[k].mem == q[k].mem
    ensures |q'| != |q| ==> |q'| + 1 == |q| && forall k :: 0 <= k < |q'| ==> q'[k].mem == q[k + 1].mem
  {
    hide Left;
  }

  lemma SourceKeepsDeadline(c: Config, t: int, q: Queue, nic: Queue, hi: int, at: int, deadline: int)
    requires c.Valid() && OnTime(c, q, t, hi, c.nicProcDelay, NoLink) && SourceRoom(c, q, nic)
    requires Enters(c, t, t, q, nic, at, deadline)
    ensures var (q', nic') := SourceStep(c, t, q, nic); Enters(c, t + 1, t, q', nic', at, deadline)
  {
    SourceServes(c, t, q, nic, hi);
    var (q', nic') := SourceStep(c, t, q, nic);
    hide Work, Done, Serves, SourceStep, SourceRoom, LinkTime, NicDelay;
    ServesMems(c, t, q, q', Nic);
    var p := at - |nic|;
    if p >= 0 {
      ServesInTime(c, t, q, q', hi, p, Nic);
      if |q'| == |q| {
        LinkTimeSame(c, q'[..p + 1], q[..p + 1]);
      } else {
        var x := q[0].(inNicSource := q[0].cycle, processing := 0);
        assert nic' == nic + [x];
        WorkPush(c, nic, x, NetLatency.Link);
        LinkTimeHead(c, q[..p + 1]);
        if p == 0 {
          JoinsNic(c, t, q, nic, x);
        } else {
          LinkTimeSame(c, q'[..p], q[..p + 1][1..]);
        }
      }
    } else if at >= 0 && |q'| != |q| {
      SamePrefix(c, t, nic, q[0].(inNicSource := q[0].cycle, processing := 0), at, NetLatency.Link);
    }
  }

  lemma JoinsNic(c: Config, t: int, q: Queue, nic: Queue, x: Packet)
    requires c.Valid() && q != [] && x.cycle == t && x.mem == q[0].mem && Done(c, t, q, 0, Nic) == t + 1
    ensures NicEntry(c, t, nic + [x], |nic|) <= SourceEntry(c, t, q, nic, 0)
  {
    hide Work, Done, NicDelay;
    WorkPush(c, nic, x, NetLatency.Link);
    assert (nic + [x])[..|nic| + 1] == nic + [x];
    DoneIs(c, t, nic + [x], |nic|, NetLatency.Link);
    assert q[..1][..0] == [];
    assert LinkTime(c, q[..1]) == NicDelay(c, q[0].mem) + 1;
  }

  lemma NicKeepsDeadline(c: Config, t: int, q: Queue, nic: Queue, nic': Queue, at: int, deadline: int)
    requires c.Valid() && OnTime(c, nic, t, t, 0, FromNic) && Serves(c, t, nic, nic', NetLatency.Link)
    requires Enters(c, t + 1, t, q, nic, at, deadline)
    ensures Enters(c, t + 1, t + 1, q, nic', at - (|nic| - |nic'|), deadline)
  {
    hide Work, Done, Serves, LinkTime, NicDelay;
    ServesLess(c, t, nic, nic', t, NetLatency.Link);
    if nic != [] {
      ServesInTime(c, t, nic, nic', t, if 0 <= at < |nic| then at else 0, NetLatency.Link);
    }
    ServesMems(c, t, nic, nic', NetLatency.Link);
  }

  // ---------- The sender in a run ----------

  /** What is at the sender's end, oldest first: its NIC and its source queue. */
  function SenderLine(c: Config, s: Net, i: nat): Queue
    requires Routed(c, s) && i < c.sources
  {
    s.srcNic[i] + s.srcQ[i]
  }

  /** The requests of source i among these. */
  ghost function FromSource(ms: seq<Mem>, i: nat): seq<Mem> {
    if ms == [] then []
    else FromSource(ms[..|ms| - 1], i) + (if ms[|ms| - 1].source == i then [ms[|ms| - 1]] else [])
  }

  lemma {:induction false} InjectsOwn(c: Config, srcQ: seq<Queue>, ms: seq<Mem>, i: nat)
    requires EachFrom(c, srcQ) && BatchOK(c, ms) && i < c.sources
    ensures srcQ[i] <= InjectAll(c, srcQ, ms)[i]
    ensures Mems(InjectAll(c, srcQ, ms)[i]) == Mems(srcQ[i]) + FromSource(ms, i)
    decreases |ms|
  {
    assert i < |srcQ|;
    hide EachFrom, AllFrom;
    if ms == [] {
      assert Mems(srcQ[i]) + [] == Mems(srcQ[i]);
    } else {
      var front, m := ms[..|ms| - 1], ms[|ms| - 1];
      InjectsOwn(c, srcQ, front, i);
      var before := InjectAll(c, srcQ, front);
      if m.source == i {
        assert Mems(before[i] + [Packetised(c, m)]) == Mems(before[i]) + [m];
      }
    }
  }

  /** The sender's two stages of a cycle. */
  lemma SenderCycle(c: Config, t: int, s: Net, i: nat)
    requires Routed(c, s) && i < c.sources
    ensures RowOK(c, s.virt[i], i) && AllFrom(c, s.srcNic[i], i) && AllFrom(c, s.srcQ[i], i)
    ensures var (q, nic) := SourceStep(c, t, s.srcQ[i], s.srcNic[i]);
            && AllFrom(c, nic, i)
            && Simulate(c, t, s).srcQ[i] == q && Simulate(c, t, s).srcNic[i] == NicStep(c, t, nic, s.virt[i]).0
  {
    SourceStepRoutes(c, t, s.srcQ[i], s.srcNic[i], i);
    var s1 := Sources(c, t, s);
    assert s1.srcNic[i] == SourceStep(c, t, s.srcQ[i], s.srcNic[i]).1;
    hide Switch, Outputs, Dests, Deliveries, SourceStep, NicStep;
    LaterStages(c, t, Nics(c, t, s1));
  }

  lemma LaterStages(c: Config, t: int, s: Net)
    requires Routed(c, s)
    ensures var s' := Deliveries(c, t, Dests(c, t, Outputs(c, t, Switch(c, t, s))));
            s'.srcQ == s.srcQ && s'.srcNic == s.srcNic
  {
    hide Arbitrate, OutputStep, DestStep, Deliver, Routed;
  }

  /** The sender keeps up with the clock whatever happens beyond the switch. */
  ghost predicate SenderOnTime(c: Config, t: int, q: Queue, nic: Queue, lead: int)
    requires c.Valid()
  {
    OnTime(c, q, t, lead, c.nicProcDelay, NoLink) && OnTime(c, nic, t, t, 0, FromNic)
  }

  lemma {:induction false} InjectsOnTime(c: Config, t: int, srcQ: seq<Queue>, ms: seq<Mem>, i: nat)
    requires c.Valid() && EachFrom(c, srcQ) && BatchOK(c, ms) && MadeAt(ms, t) && i < c.sources
    requires OnTime(c, srcQ[i], t, t + PrepareDelay(c), c.nicProcDelay, NoLink)
    ensures OnTime(c, InjectAll(c, srcQ, ms)[i], t, t + PrepareDelay(c), c.nicProcDelay, NoLink)
    decreases |ms|
  {
    assert i < |srcQ|;
    hide EachFrom, AllFrom, OnTime;
    if ms != [] {
      var front, m := ms[..|ms| - 1], ms[|ms| - 1];
      InjectsOnTime(c, t, srcQ, front, i);
      Pushed(c, InjectAll(c, srcQ, front)[i], Packetised(c, m), t, t + PrepareDelay(c), c.nicProcDelay, NoLink);
    }
  }

  lemma SenderOnTimeInCycle(c: Config, t: int, s: Net, i: nat, lead: int)
    requires Routed(c, s) && i < c.sources && SenderOnTime(c, t, s.srcQ[i], s.srcNic[i], lead)
    ensures SenderOnTime(c, t + 1, Simulate(c, t, s).srcQ[i], Simulate(c, t, s).srcNic[i], Max(lead, t + 1))
  {
    hide OnTime, Simulate, SourceStep, NicStep;
    SenderCycle(c, t, s, i);
    SourceOnTime(c, t, s.srcQ[i], s.srcNic[i], lead);
    NicOnTime(c, t, SourceStep(c, t, s.srcQ[i], s.srcNic[i]).1, s.virt[i]);
  }

  lemma {:induction false} SenderOnTimeInRun(c: Config, b: seq<seq<Mem>>, i: nat)
    requires RunOK(c, b) && i < c.sources
    ensures var n := |b|; SenderOnTime(c, n, Run(c, b).srcQ[i], Run(c, b).srcNic[i], Max(n, n - 1 + PrepareDelay(c)))
    decreases |b|
  {
    hide OnTime, Simulate, Run;
    if b == [] {
      EmptySender(c, i);
    } else {
      var t := |b| - 1;
      SenderOnTimeInRun(c, b[..t], i);
      var s := Run(c, b[..t]);
      Widen(c, s.srcQ[i], t, Max(t, t - 1 + PrepareDelay(c)), t + PrepareDelay(c), c.nicProcDelay, NoLink);
      InjectsOnTime(c, t, s.srcQ, b[t], i);
      SenderOnTimeInCycle(c, t, Before(c, b, t), i, t + PrepareDelay(c));
      RunUnfolds(c, b);
    }
  }

  lemma EmptySender(c: Config, i: nat)
    requires c.Valid() && i < c.sources
    ensures Run(c, []).srcQ[i] == [] && Run(c, []).srcNic[i] == []
    ensures SenderOnTime(c, 0, [], [], Max(0, PrepareDelay(c) - 1))
  {
  }

  /** In cycle t the sender finds room: in its NIC for the head of its source queue, and then in its input
      port for the head of its NIC. */
  ghost predicate Rooms(c: Config, b: seq<seq<Mem>>, t: nat, i: nat)
    requires RunOK(c, b) && t < |b| && i < c.sources
  {
    var s := Before(c, b, t);
    SourceRoom(c, s.srcQ[i], s.srcNic[i]) && PortRoom(c, SourceStep(c, t, s.srcQ[i], s.srcNic[i]).1, s.virt[i])
  }

  /** The sender's packets have been joined by the new requests, and `gone` of them have left. */
  ghost predicate Moved(line: Queue, line': Queue, asked: seq<Mem>, gone: nat) {
    gone <= |line| + |asked| && Mems(line') == (Mems(line) + asked)[gone..]
  }

  lemma MemsJoin(p: Queue, q: Queue)
    ensures Mems(p + q) == Mems(p) + Mems(q)
  {
  }

  /** A cycle of a sender with room. */
  lemma SenderMoves(c: Config, t: int, s: Net, i: nat, lead: int, at: int, deadline: int) returns (gone: nat)
    requires Routed(c, s) && i < c.sources && SenderOnTime(c, t, s.srcQ[i], s.srcNic[i], lead)
    requires SourceRoom(c, s.srcQ[i], s.srcNic[i])
    requires PortRoom(c, SourceStep(c, t, s.srcQ[i], s.srcNic[i]).1, s.virt[i])
    requires Enters(c, t, t, s.srcQ[i], s.srcNic[i], at, deadline)
    ensures var s' := Simulate(c, t, s);
            && Enters(c, t + 1, t + 1, s'.srcQ[i], s'.srcNic[i], at - gone, deadline)
            && Moved(SenderLine(c, s, i), SenderLine(c, s', i), [], gone)
  {
    hide OnTime, Simulate, SourceStep, NicStep, Enters, Serves, SourceRoom, PortRoom, Mems, RowOK, Routed, Forwards,
         Moved, AllFrom;
    SenderShape(c, s);
    SenderCycle(c, t, s, i);
    var (q, nic) := SourceStep(c, t, s.srcQ[i], s.srcNic[i]);
    RowWide(c, s.virt[i], nic, i);
    var nic' := NicStep(c, t, nic, s.virt[i]).0;
    SourceKeepsDeadline(c, t, s.srcQ[i], s.srcNic[i], lead, at, deadline);
    SourceOnTime(c, t, s.srcQ[i], s.srcNic[i], lead);
    LinkServes(c, t, nic, s.virt[i]);
    NicKeepsDeadline(c, t, q, nic, nic', at, deadline);
    ServesMems(c, t, nic, nic', NetLatency.Link);
    gone := |nic| - |nic'|;
    SourceForwards(c, t, s.srcQ[i], s.srcNic[i]);
    LineMoves(s.srcQ[i], s.srcNic[i], q, nic, nic', gone);
  }

  lemma SenderShape(c: Config, s: Net)
    requires Routed(c, s)
    ensures c.Valid() && |s.srcQ| == |s.srcNic| == |s.virt| == c.sources
  {
  }

  lemma RowWide(c: Config, row: seq<Queue>, nic: Queue, i: nat)
    requires RowOK(c, row, i) && AllFrom(c, nic, i)
    ensures forall k :: 0 <= k < |nic| ==> nic[k].mem.dest < |row|
  {
  }

  lemma LineMoves(q0: Queue, nic0: Queue, q: Queue, nic: Queue, nic': Queue, gone: nat)
    requires Forwards(nic0, q0, nic, q) && gone <= 1 && |nic'| + gone == |nic|
    requires forall k :: 0 <= k < |nic'| ==> nic'[k].mem == nic[k + gone].mem
    ensures Moved(nic0 + q0, nic' + q, [], gone)
  {
    var a, b := Mems(nic0 + q0), Mems(nic' + q);
    assert |nic| + |q| == |nic0| + |q0|;
    assert a + [] == a;
    forall k | 0 <= k < |b| ensures b[k] == a[k + gone] {
      assert (nic' + q)[k].mem == (nic + q)[k + gone].mem;
      assert (nic + q)[k + gone].mem == (nic0 + q0)[k + gone].mem;
    }
  }

  // ---------- Over runs ----------

  /** The requests of source i made in the cycles from t on. */
  ghost function AskedSince(b: seq<seq<Mem>>, t: nat, i: nat): seq<Mem>
    decreases |b|
  {
    if |b| <= t then [] else AskedSince(b[..|b| - 1], t, i) + FromSource(b[|b| - 1], i)
  }

  lemma MovedTwice(line: Queue, line1: Queue, line2: Queue, asked: seq<Mem>, more: seq<Mem>, gone: nat, left: nat)
    requires Moved(line, line1, asked, gone) && gone <= |line| + |asked|
    requires left <= |line1| + |more| && Mems(line2) == (Mems(line1) + more)[left..]
    ensures Moved(line, line2, asked + more, gone + left)
  {
    var all := Mems(line) + (asked + more);
    assert all == (Mems(line) + asked) + more;
    assert Mems(line1) + more == all[gone..];
    assert all[gone..][left..] == all[gone + left..];
  }

  lemma MovedGrown(line1: Queue, grown: Queue, line2: Queue, more: seq<Mem>, left: nat)
    requires Mems(grown) == Mems(line1) + more && Moved(grown, line2, [], left)
    ensures left <= |line1| + |more| && Mems(line2) == (Mems(line1) + more)[left..]
  {
    assert Mems(grown) + [] == Mems(grown);
  }

  lemma MoreBehind(c: Config, sourceClock: int, nicClock: int, q: Queue, q': Queue, nic: Queue, at: int, deadline: int)
    requires c.Valid() && q <= q' && Enters(c, sourceClock, nicClock, q, nic, at, deadline)
    ensures Enters(c, sourceClock, nicClock, q', nic, at, deadline)
  {
    hide Work;
    if at >= |nic| {
      assert q'[..at - |nic| + 1] == q[..at - |nic| + 1];
    }
  }

  lemma GrownLine(c: Config, b: seq<seq<Mem>>, t: nat, i: nat)
    requires RunOK(c, b) && t < |b| && i < c.sources
    ensures var s0, s := Run(c, b[..t]), Before(c, b, t);
            && s0.srcQ[i] <= s.srcQ[i] && s.srcNic == s0.srcNic
            && Mems(SenderLine(c, s, i)) == Mems(SenderLine(c, s0, i)) + FromSource(b[t], i)
  {
    hide Run, FromSource, InjectAll;
    var s0, s := Run(c, b[..t]), Before(c, b, t);
    InjectsOwn(c, s0.srcQ, b[t], i);
    MemsJoin(s0.srcNic[i], s0.srcQ[i]);
    MemsJoin(s.srcNic[i], s.srcQ[i]);
    assert Mems(s0.srcNic[i]) + Mems(s0.srcQ[i]) + FromSource(b[t], i)
        == Mems(s0.srcNic[i]) + (Mems(s0.srcQ[i]) + FromSource(b[t], i));
  }

  /** The packet keeps its deadline and its place among those that have left and those that have not. */
  lemma {:induction false} EntersInRun(c: Config, b: seq<seq<Mem>>, t: nat, i: nat, at: int,
                                       deadline: int) returns (gone: nat)
    requires RunOK(c, b) && t <= |b| && i < c.sources && forall u :: t <= u < |b| ==> Rooms(c, b, u, i)
    requires var s := Run(c, b[..t]); Enters(c, t, t, s.srcQ[i], s.srcNic[i], at, deadline)
    ensures var s, s' := Run(c, b[..t]), Run(c, b);
            && Enters(c, |b|, |b|, s'.srcQ[i], s'.srcNic[i], at - gone, deadline)
            && Moved(SenderLine(c, s, i), SenderLine(c, s', i), AskedSince(b, t, i), gone)
    decreases |b|
  {
    hide Run, Simulate, Enters, Moved, OnTime, SourceRoom, PortRoom, Mems, FromSource, SenderOnTime;
    if t == |b| {
      assert b[..t] == b;
      gone := 0;
      MovedNot(SenderLine(c, Run(c, b), i));
    } else {
      var n := |b| - 1;
      assert b[..n][..t] == b[..t];
      RoomsBefore(c, b, t, i);
      gone := EntersInRun(c, b[..n], t, i, at, deadline);
      SenderOnTimeInRun(c, b[..n], i);
      GrownLine(c, b, n, i);
      var s0, s, s' := Run(c, b[..n]), Before(c, b, n), Run(c, b);
      assert Rooms(c, b, n, i);
      BeforeOnTime(c, b, n, i);
      MoreBehind(c, n, n, s0.srcQ[i], s.srcQ[i], s0.srcNic[i], at - gone, deadline);
      var left := SenderMoves(c, n, s, i, n + PrepareDelay(c), at - gone, deadline);
      RunUnfolds(c, b);
      MovedGrown(SenderLine(c, s0, i), SenderLine(c, s, i), SenderLine(c, s', i), FromSource(b[n], i), left);
      MovedBound(SenderLine(c, Run(c, b[..t]), i), SenderLine(c, s0, i), AskedSince(b[..n], t, i), gone);
      MovedTwice(SenderLine(c, Run(c, b[..t]), i), SenderLine(c, s0, i), SenderLine(c, s', i), AskedSince(b[..n], t, i),
                 FromSource(b[n], i), gone, left);
      gone := gone + left;
    }
  }

  lemma MovedNot(line: Queue)
    ensures Moved(line, line, [], 0)
  {
    assert (Mems(line) + [])[0..] == Mems(line);
  }

  lemma MovedBound(line: Queue, line': Queue, asked: seq<Mem>, gone: nat)
    requires Moved(line, line', asked, gone)
    ensures gone <= |line| + |asked|
  {
  }

  lemma RoomsBefore(c: Config, b: seq<seq<Mem>>, t: nat, i: nat)
    requires RunOK(c, b) && b != [] && i < c.sources && forall u :: t <= u < |b| ==> Rooms(c, b, u, i)
    ensures var n := |b| - 1; RunOK(c, b[..n]) && forall u :: t <= u < n ==> Rooms(c, b[..n], u, i)
  {
    hide Before, SourceRoom, PortRoom, SourceStep;
    var n := |b| - 1;
    forall u | t <= u < n ensures Rooms(c, b[..n], u, i) {
      assert Rooms(c, b, u, i);
      PrefixBefore(c, b, n, u);
    }
  }

  lemma BeforeOnTime(c: Config, b: seq<seq<Mem>>, t: nat, i: nat)
    requires RunOK(c, b) && t < |b| && i < c.sources
    ensures var s := Before(c, b, t); SenderOnTime(c, t, s.srcQ[i], s.srcNic[i], t + PrepareDelay(c))
  {
    hide Run, OnTime;
    SenderOnTimeInRun(c, b[..t], i);
    var s := Run(c, b[..t]);
    Widen(c, s.srcQ[i], t, Max(t, t - 1 + PrepareDelay(c)), t + PrepareDelay(c), c.nicProcDelay, NoLink);
    InjectsOnTime(c, t, s.srcQ, b[t], i);
  }

  // ---------- The bound ----------

  /** The cycle by which the p-th request of the source queue has entered the switch, given room. */
  function EntryTime(c: Config, t: int, s: Net, i: nat, p: nat): int
    requires Routed(c, s) && i < c.sources && p < |s.srcQ[i]|
  {
    t + PrepareDelay(c) + (p + 1) * (c.nicProcDelay + 1) + LinkTime(c, s.srcNic[i]) + LinkTime(c, s.srcQ[i][..p + 1])
  }

  lemma {:induction false} LinkWorkAtMost(c: Config, q: Queue)
    requires c.Valid()
    ensures Work(c, q, NetLatency.Link) <= LinkTime(c, q)
    decreases |q|
  {
    hide NicDelay;
    if q != [] {
      LinkWorkAtMost(c, q[..|q| - 1]);
    }
  }

  lemma EntersAtFirst(c: Config, t: int, s: Net, i: nat, p: nat)
    requires Routed(c, s) && i < c.sources && p < |s.srcQ[i]| && s.srcQ[i][p].cycle <= t + PrepareDelay(c)
    ensures Enters(c, t, t, s.srcQ[i], s.srcNic[i], |s.srcNic[i]| + p, EntryTime(c, t, s, i, p))
  {
    hide Work, LinkTime, Done;
    DoneIs(c, t, s.srcQ[i], p, Nic);
    NicWorkAtMost(c, s.srcQ[i][..p + 1]);
    LinkWorkAtMost(c, s.srcNic[i]);
  }

  /** Past its deadline a packet has left the sender. */
  lemma HasEntered(c: Config, t: int, q: Queue, nic: Queue, lead: int, at: int, deadline: int)
    requires c.Valid() && deadline <= t && SenderOnTime(c, t, q, nic, lead) && Enters(c, t, t, q, nic, at, deadline)
    ensures at < 0
  {
    hide Work, OnTime, LinkTime;
    WorkPositive(c, nic, t, t, NetLatency.Link);
    if at >= |nic| {
      FrontOnTime(c, q, t, lead, at - |nic| + 1, c.nicProcDelay, NoLink);
      WorkPositive(c, q[..at - |nic| + 1], t, lead, Nic);
    } else if at >= 0 {
      FrontOnTime(c, nic, t, t, at + 1, 0, FromNic);
      WorkPositive(c, nic[..at + 1], t, t, NetLatency.Link);
    }
  }

  lemma LeadAtMost(c: Config, q: Queue, lo: int, hi: int, p: nat)
    requires c.Valid() && OnTime(c, q, lo, hi, c.nicProcDelay, NoLink) && p < |q|
    ensures q[p].cycle <= hi
  {
  }

  /** Latency at the sending end: while the sender finds room, the p-th request of its source queue has
      left it before the NIC turns of the p + 1 requests and the transmissions of these and of what is in
      the NIC are over. What is left are the later requests, in order. */
  lemma LeavesWithin(c: Config, b: seq<seq<Mem>>, t: nat, i: nat, p: nat) returns (gone: nat)
    requires RunOK(c, b) && t <= |b| && i < c.sources && p < |Run(c, b[..t]).srcQ[i]|
    requires (forall u :: t <= u < |b| ==> Rooms(c, b, u, i)) && |b| >= EntryTime(c, t, Run(c, b[..t]), i, p)
    ensures var s, s' := Run(c, b[..t]), Run(c, b);
            && gone > |s.srcNic[i]| + p
            && Moved(SenderLine(c, s, i), SenderLine(c, s', i), AskedSince(b, t, i), gone)
  {
    hide Run, Enters, Moved, Rooms, OnTime, EntryTime;
    var s := Run(c, b[..t]);
    var at := |s.srcNic[i]| + p;
    var deadline := EntryTime(c, t, s, i, p);
    SenderOnTimeInRun(c, b[..t], i);
    LeadAtMost(c, s.srcQ[i], t, Max(t, t - 1 + PrepareDelay(c)), p);
    EntersAtFirst(c, t, s, i, p);
    gone := EntersInRun(c, b, t, i, at, deadline);
    SenderOnTimeInRun(c, b, i);
    var n := |b|;
    HasEntered(c, n, Run(c, b).srcQ[i], Run(c, b).srcNic[i], Max(n, n - 1 + PrepareDelay(c)), at - gone, deadline);
  }

  // ---------- Into the virtual queue ----------

  /** The requests of flow (i, j) that have left the sender, oldest first: delivered, on the way to the
      destination, and in the virtual queue. */
  ghost function PastSender(c: Config, s: Net, i: nat, j: nat): seq<Mem>
    requires Routed(c, s) && i < c.sources && j < c.dests
  {
    Flow(s.delivered[j], i, j) + Flow(s.collector[j], i, j) + Flow(s.dstNic[j], i, j) + Flow(s.out[j], i, j)
    + Flow(VirtAt(c, s, i, j), i, j)
  }

  lemma TransitSplits(c: Config, s: Net, i: nat, j: nat)
    requires Routed(c, s) && i < c.sources && j < c.dests
    ensures Transit(c, s, i, j) == PastSender(c, s, i, j) + FlowOf(Mems(SenderLine(c, s, i)), i, j)
  {
    FlowOfMems(SenderLine(c, s, i), i, j);
    FlowConcat(s.srcNic[i], s.srcQ[i], i, j);
    hide Flow, FlowOf;
    TailTwo(PastSender(c, s, i, j), Flow(s.srcNic[i], i, j), Flow(s.srcQ[i], i, j));
  }

  lemma {:induction false} OwnFlow(ms: seq<Mem>, i: nat, j: nat)
    ensures FlowOf(FromSource(ms, i), i, j) == FlowOf(ms, i, j)
    decreases |ms|
  {
    if ms != [] {
      var front, m := ms[..|ms| - 1], ms[|ms| - 1];
      OwnFlow(front, i, j);
      if m.source == i {
        assert FromSource(ms, i) == FromSource(front, i) + [m];
        FlowOfConcat(FromSource(front, i), [m], i, j);
        assert [m][..0] == [] && FlowOf([m], i, j) == [] + Kept(m, i, j) == Kept(m, i, j);
      } else {
        assert FromSource(ms, i) == FromSource(front, i) + [] == FromSource(front, i);
        assert FlowOf(ms, i, j) == FlowOf(front, i, j) + [] == FlowOf(front, i, j);
      }
    }
  }

  lemma {:induction false} AskedFlows(b: seq<seq<Mem>>, t: nat, i: nat, j: nat)
    requires t <= |b|
    ensures Requests(b, i, j) == Requests(b[..t], i, j) + FlowOf(AskedSince(b, t, i), i, j)
    decreases |b|
  {
    hide FlowOf, FromSource;
    if t == |b| {
      assert b[..t] == b;
      NoFlow(i, j);
    } else {
      var n := |b| - 1;
      AskedFlows(b[..n], t, i, j);
      assert b[..n][..t] == b[..t];
      OwnFlow(b[n], i, j);
      FlowOfConcat(AskedSince(b[..n], t, i), FromSource(b[n], i), i, j);
    }
  }

  lemma NoFlow(i: nat, j: nat)
    ensures FlowOf([], i, j) == []
  {
  }

  lemma SameTail(a: seq<Mem>, b: seq<Mem>, tail: seq<Mem>)
    requires a + tail == b + tail
    ensures a == b
  {
    assert |a| == |b|;
    assert (a + tail)[..|a|] == a && (b + tail)[..|b|] == b;
  }

  /** The requests that have left are those that had left and the flow's share of those gone since. */
  lemma PastGrows(c: Config, b: seq<seq<Mem>>, t: nat, i: nat, j: nat, gone: nat)
    requires RunOK(c, b) && t <= |b| && i < c.sources && j < c.dests
    requires Moved(SenderLine(c, Run(c, b[..t]), i), SenderLine(c, Run(c, b), i), AskedSince(b, t, i), gone)
    ensures var all := Mems(SenderLine(c, Run(c, b[..t]), i)) + AskedSince(b, t, i);
            && gone <= |all|
            && PastSender(c, Run(c, b), i, j) == PastSender(c, Run(c, b[..t]), i, j) + FlowOf(all[..gone], i, j)
  {
    hide Run, Transit, PastSender, FlowOf, Flow, AskedSince;
    var s, s' := Run(c, b[..t]), Run(c, b);
    var asked := AskedSince(b, t, i);
    var all := Mems(SenderLine(c, s, i)) + asked;
    Conservation(c, b[..t], i, j);
    Conservation(c, b, i, j);
    TransitSplits(c, s, i, j);
    TransitSplits(c, s', i, j);
    AskedFlows(b, t, i, j);
    FlowOfConcat(Mems(SenderLine(c, s, i)), asked, i, j);
    assert all == all[..gone] + all[gone..];
    FlowOfConcat(all[..gone], all[gone..], i, j);
    var past, flow, rest := PastSender(c, s, i, j), FlowOf(all[..gone], i, j), FlowOf(all[gone..], i, j);
    assert past + (FlowOf(Mems(SenderLine(c, s, i)), i, j) + FlowOf(asked, i, j))
        == past + FlowOf(Mems(SenderLine(c, s, i)), i, j) + FlowOf(asked, i, j);
    assert past + (flow + rest) == (past + flow) + rest;
    SameTail(PastSender(c, s', i, j), past + flow, rest);
  }

  lemma {:induction false} FlowReaches(ms: seq<Mem>, k: nat, gone: nat, i: nat, j: nat)
    requires k < gone <= |ms| && ms[k].source == i && ms[k].dest == j
    ensures var f := |FlowOf(ms[..k], i, j)|;
            f < |FlowOf(ms[..gone], i, j)| && FlowOf(ms[..gone], i, j)[f] == ms[k]
    decreases gone
  {
    assert ms[..gone][..gone - 1] == ms[..gone - 1];
    if k < gone - 1 {
      FlowReaches(ms, k, gone - 1, i, j);
    }
  }

  /** The p-th request of source queue i in state s is, in s', in its virtual queue or further: of its flow
      it is the next after those that had left the sender and those before it in the sender's queues. */
  ghost predicate InSwitch(c: Config, s: Net, s': Net, i: nat, p: nat)
    requires Routed(c, s) && Routed(c, s') && i < c.sources && p < |s.srcQ[i]|
  {
    var m := s.srcQ[i][p].mem;
    && m.source == i && m.dest < c.dests
    && InFlow(PastSender(c, s', i, m.dest),
              |PastSender(c, s, i, m.dest)| + |FlowOf(Mems(SenderLine(c, s, i))[..|s.srcNic[i]| + p], i, m.dest)|, m)
  }

  ghost predicate InFlow(flow: seq<Mem>, f: nat, m: Mem) {
    f < |flow| && flow[f] == m
  }

  /** In every run, while the sender finds room, a request has entered its virtual queue by its entry time. */
  lemma EntersWithin(c: Config, b: seq<seq<Mem>>, t: nat, i: nat, p: nat)
    requires RunOK(c, b) && t <= |b| && i < c.sources && p < |Run(c, b[..t]).srcQ[i]|
    requires (forall u :: t <= u < |b| ==> Rooms(c, b, u, i)) && |b| >= EntryTime(c, t, Run(c, b[..t]), i, p)
    ensures InSwitch(c, Run(c, b[..t]), Run(c, b), i, p)
  {
    hide Run, PastSender, FlowOf, AskedSince, Rooms, EntryTime, Moved, Mems;
    var s := Run(c, b[..t]);
    var m, k := s.srcQ[i][p].mem, |s.srcNic[i]| + p;
    assert AllFrom(c, s.srcQ[i], i);
    var gone := LeavesWithin(c, b, t, i, p);
    PastGrows(c, b, t, i, m.dest, gone);
    var line, asked := Mems(SenderLine(c, s, i)), AskedSince(b, t, i);
    assert (line + asked)[k] == line[k] == m && (line + asked)[..k] == line[..k];
    FlowReaches(line + asked, k, gone, i, m.dest);
  }
}
