/** A request that is alone in the network: it takes exactly as long as the latency floor says, so no floor
    is higher. */
module NetLone {
  import opened NetSpec
  import opened NetSystem
  import opened NetClock
  import opened NetCrossbar
  import opened NetProgress
  import opened NetTiming
  import opened NetPair

  /** Room for the packet in the NICs and the input port, and for a packet of any kind at the output. */
  ghost predicate Roomy(c: Config, m: Mem) {
    && c.Valid() && MemOK(c, m)
    && Size(c, m) <= c.nicCapacity && Size(c, m) <= c.inputCapacity && c.rdmaSize <= c.outputCapacity
  }

  ghost predicate OneIn(qs: seq<Queue>, k: nat, p: Packet) {
    k < |qs| && qs[k] == [p] && forall i :: 0 <= i < |qs| && i != k ==> qs[i] == []
  }

  ghost predicate OneVirtual(virt: seq<seq<Queue>>, i: nat, j: nat, p: Packet) {
    && i < |virt| && j < |virt[i]| && virt[i][j] == [p]
    && forall k, l :: 0 <= k < |virt| && 0 <= l < |virt[k]| && (k, l) != (i, j) ==> virt[k][l] == []
  }

  /** The packet is at this stage, and nothing is anywhere else. */
  ghost predicate Only(c: Config, s: Net, place: Stage, p: Packet) {
    && Routed(c, s) && NoneIn(s.delivered) && MemOK(c, p.mem)
    && (if place == AtSource then OneIn(s.srcQ, p.mem.source, p) else NoneIn(s.srcQ))
    && (if place == AtNic then OneIn(s.srcNic, p.mem.source, p) else NoneIn(s.srcNic))
    && (if place == AtVirtual then OneVirtual(s.virt, p.mem.source, p.mem.dest, p) else NoneVirtual(s))
    && (if place == AtOutput then OneIn(s.out, p.mem.dest, p) else NoneIn(s.out))
    && (if place == AtDest then OneIn(s.dstNic, p.mem.dest, p) else NoneIn(s.dstNic))
    && (if place == AtCollector then OneIn(s.collector, p.mem.dest, p) else NoneIn(s.collector))
  }

  /** What is still to come before memory gets the packet. */
  function ToGo(c: Config, place: Stage, p: Packet): int
    requires c.Valid()
  {
    var atDest := c.nicProcDelay + c.packetisation;
    var atOutput := SwitchDelay(c, p.mem) + c.propDelay + atDest;
    var atNic := NicDelay(c, p.mem) + c.propDelay + c.switchProcDelay + c.switchingDelay + atOutput;
    match place
    case AtSource => c.nicProcDelay - p.processing + atNic
    case AtNic => atNic - p.transmitting
    case AtVirtual => c.switchingDelay + atOutput
    case AtOutput => atOutput - p.transmitting
    case AtDest => atDest - p.processing
    case AtCollector => 0
  }

  function Rank(place: Stage): nat {
    match place
    case AtSource => 0
    case AtNic => 1
    case AtVirtual => 2
    case AtOutput => 3
    case AtDest => 4
    case AtCollector => 5
  }

  /** In cycle t, with the first n stages done, the packet is on its way to be delivered in cycle `eta`. */
  ghost predicate OnItsWay(c: Config, m: Mem, eta: int, t: int, n: nat, place: Stage, p: Packet) {
    && c.Valid() && p.mem == m && p.cycle + ToGo(c, place, p) == eta
    && t <= p.cycle && (Rank(place) < n ==> t < p.cycle)
    && p.processing <= (if place == AtSource || place == AtDest then c.nicProcDelay else 0)
    && p.transmitting <= (if place == AtNic then NicDelay(c, m) else if place == AtOutput then SwitchDelay(c, m) else 0)
  }

  // ---------- One queue ----------

  lemma Alone(c: Config, p: Packet)
    requires c.Valid()
    ensures Bytes(c, []) == 0 && Bytes(c, [p]) == Size(c, p.mem)
    ensures NicDelay(c, p.mem) >= 1 && SwitchDelay(c, p.mem) >= 1
  {
    assert [p][..0] == [];
  }

  lemma SourceAlone(c: Config, m: Mem, eta: int, t: int, p: Packet)
    requires Roomy(c, m) && OnItsWay(c, m, eta, t, 0, AtSource, p)
    ensures var (q', nic') := SourceStep(c, t, [p], []);
            || (|q'| == 1 && nic' == [] && OnItsWay(c, m, eta, t, 1, AtSource, q'[0]))
            || (q' == [] && |nic'| == 1 && OnItsWay(c, m, eta, t, 1, AtNic, nic'[0]))
  {
    Alone(c, p);
    hide Size, NicDelay, SwitchDelay, Bytes;
    var q := [p];
    assert q[1..] == [] && q[0 := p.(processing := p.processing + 1)] == [p.(processing := p.processing + 1)];
    assert q[0 := p.(processing := 1)] == [p.(processing := 1)];
  }

  lemma NicAlone(c: Config, m: Mem, eta: int, t: int, p: Packet, row: seq<Queue>)
    requires Roomy(c, m) && OnItsWay(c, m, eta, t, 1, AtNic, p) && |row| == c.dests && NoneIn(row)
    ensures var (nic', row') := NicStep(c, t, [p], row);
            || (|nic'| == 1 && row' == row && OnItsWay(c, m, eta, t, 2, AtNic, nic'[0]))
            || (nic' == [] && |row'| == c.dests && |row'[m.dest]| == 1
                && row' == row[m.dest := row'[m.dest]] && OnItsWay(c, m, eta, t, 2, AtVirtual, row'[m.dest][0]))
  {
    Alone(c, p);
    NoRowBytes(c, row);
    OneRowBytes(c, row, m.dest, Departed(c, p));
    hide Size, NicDelay, SwitchDelay, Bytes, RowBytes;
    var nic := [p];
    assert nic[1..] == [] && nic[0 := p.(transmitting := p.transmitting + 1)]
           == [p.(transmitting := p.transmitting + 1)];
    assert nic[0 := p.(transmitting := 1)] == [p.(transmitting := 1)];
    assert row[m.dest] + [Departed(c, p)] == [Departed(c, p)];
  }

  lemma {:induction false} NoRowBytes(c: Config, row: seq<Queue>)
    requires NoneIn(row)
    ensures RowBytes(c, row) == 0
    decreases |row|
  {
    if row != [] {
      NoRowBytes(c, row[..|row| - 1]);
    }
  }

  lemma {:induction false} OneRowBytes(c: Config, row: seq<Queue>, j: nat, p: Packet)
    requires c.Valid() && NoneIn(row) && j < |row|
    ensures RowBytes(c, row[j := [p]]) == Size(c, p.mem)
    decreases |row|
  {
    Alone(c, p);
    var n := |row| - 1;
    var row' := row[j := [p]];
    if j < n {
      OneRowBytes(c, row[..n], j, p);
      assert row'[..n] == row[..n][j := [p]];
    } else {
      NoRowBytes(c, row[..n]);
      assert row'[..n] == row[..n];
    }
  }

  lemma OutputAlone(c: Config, m: Mem, eta: int, t: int, p: Packet)
    requires Roomy(c, m) && OnItsWay(c, m, eta, t, 3, AtOutput, p)
    ensures var (out', nic') := OutputStep(c, t, [p], []);
            || (|out'| == 1 && nic' == [] && OnItsWay(c, m, eta, t, 4, AtOutput, out'[0]))
            || (out' == [] && |nic'| == 1 && OnItsWay(c, m, eta, t, 4, AtDest, nic'[0]))
  {
    Alone(c, p);
    hide Size, NicDelay, SwitchDelay, Bytes;
    var q := [p];
    assert q[1..] == [] && q[0 := p.(transmitting := p.transmitting + 1)] == [p.(transmitting := p.transmitting + 1)];
    assert q[0 := p.(transmitting := 1)] == [p.(transmitting := 1)];
  }

  lemma DestAlone(c: Config, m: Mem, eta: int, t: int, p: Packet)
    requires Roomy(c, m) && OnItsWay(c, m, eta, t, 4, AtDest, p)
    ensures var (nic', col') := DestStep(c, t, [p], []);
            || (|nic'| == 1 && col' == [] && OnItsWay(c, m, eta, t, 5, AtDest, nic'[0]))
            || (nic' == [] && |col'| == 1 && OnItsWay(c, m, eta, t, 5, AtCollector, col'[0]))
  {
    hide Size, NicDelay, SwitchDelay, Bytes;
    var q := [p];
    assert q[1..] == [] && q[0 := p.(processing := p.processing + 1)] == [p.(processing := p.processing + 1)];
    assert q[0 := p.(processing := 1)] == [p.(processing := 1)];
  }

  // ---------- One stage of the network ----------

  lemma SourcesAlone(c: Config, m: Mem, eta: int, t: int, s: Net, place: Stage, p: Packet)
    returns (place': Stage, p': Packet)
    requires Roomy(c, m) && Only(c, s, place, p) && OnItsWay(c, m, eta, t, 0, place, p)
    ensures Only(c, Sources(c, t, s), place', p') && OnItsWay(c, m, eta, t, 1, place', p')
  {
    place', p' := place, p;
    if place == AtSource {
      SourceAlone(c, m, eta, t, p);
      var (q, nic) := SourceStep(c, t, [p], []);
      if q == [] {
        place', p' := AtNic, nic[0];
      } else {
        p' := q[0];
      }
      hide ToGo, Routed, SourceStep;
      var s' := Sources(c, t, s);
      NothingAtSource(c, t);
      assert s' == s.(srcQ := s'.srcQ, srcNic := s'.srcNic);
    } else {
      IdleSources(c, t, s);
      hide Sources;
    }
  }

  lemma NothingAtSource(c: Config, t: int)
    ensures SourceStep(c, t, [], []) == ([], [])
  {
  }

  lemma NicsAlone(c: Config, m: Mem, eta: int, t: int, s: Net, place: Stage, p: Packet)
    returns (place': Stage, p': Packet)
    requires Roomy(c, m) && Only(c, s, place, p) && OnItsWay(c, m, eta, t, 1, place, p)
    ensures Only(c, Nics(c, t, s), place', p') && OnItsWay(c, m, eta, t, 2, place', p')
  {
    hide Routed, NicStep, Record, OnItsWay;
    RowShapes(c, s);
    place', p' := place, p;
    if place == AtNic {
      var i := m.source;
      IsMine(c, m, eta, t, 1, place, p);
      NicAlone(c, m, eta, t, p, s.virt[i]);
      var (nic, row) := NicStep(c, t, [p], s.virt[i]);
      if nic == [] {
        place', p' := AtVirtual, row[m.dest][0];
        IsMine(c, m, eta, t, 2, place', p');
        assert row[m.dest] == [p'];
      } else {
        p' := nic[0];
        IsMine(c, m, eta, t, 2, place', p');
        assert nic == [p'];
      }
      NothingAtNic(c, t);
    } else {
      IdleNics(c, t, s);
      NotItsTurn(c, m, eta, t, 1, place, p);
      hide Nics;
    }
  }

  lemma IsMine(c: Config, m: Mem, eta: int, t: int, n: nat, place: Stage, p: Packet)
    requires OnItsWay(c, m, eta, t, n, place, p)
    ensures p.mem == m
  {
  }

  lemma NotItsTurn(c: Config, m: Mem, eta: int, t: int, n: nat, place: Stage, p: Packet)
    requires OnItsWay(c, m, eta, t, n, place, p) && Rank(place) != n
    ensures OnItsWay(c, m, eta, t, n + 1, place, p)
  {
  }

  lemma RowShapes(c: Config, s: Net)
    requires Routed(c, s)
    ensures |s.srcNic| == c.sources && |s.virt| == c.sources
    ensures forall i :: 0 <= i < c.sources ==> |s.virt[i]| == c.dests
  {
    assert forall i :: 0 <= i < c.sources ==> RowOK(c, s.virt[i], i);
  }

  lemma NothingAtNic(c: Config, t: int)
    requires c.Valid()
    ensures forall row: seq<Queue> :: NicStep(c, t, [], row) == ([], row)
  {
  }

  lemma OutputsAlone(c: Config, m: Mem, eta: int, t: int, s: Net, place: Stage, p: Packet)
    returns (place': Stage, p': Packet)
    requires Roomy(c, m) && Only(c, s, place, p) && OnItsWay(c, m, eta, t, 3, place, p)
    ensures Only(c, Outputs(c, t, s), place', p') && OnItsWay(c, m, eta, t, 4, place', p')
  {
    place', p' := place, p;
    if place == AtOutput {
      OutputAlone(c, m, eta, t, p);
      var (out, nic) := OutputStep(c, t, [p], []);
      if out == [] {
        place', p' := AtDest, nic[0];
      } else {
        p' := out[0];
      }
      hide ToGo, Routed, OutputStep;
      var s' := Outputs(c, t, s);
      NothingAtOutput(c, t);
      assert s' == s.(out := s'.out, dstNic := s'.dstNic);
    } else {
      IdleOutputs(c, t, s);
      hide Outputs;
    }
  }

  lemma NothingAtOutput(c: Config, t: int)
    requires c.Valid()
    ensures OutputStep(c, t, [], []) == ([], [])
  {
  }

  lemma DestsAlone(c: Config, m: Mem, eta: int, t: int, s: Net, place: Stage, p: Packet)
    returns (place': Stage, p': Packet)
    requires Roomy(c, m) && Only(c, s, place, p) && OnItsWay(c, m, eta, t, 4, place, p)
    ensures Only(c, Dests(c, t, s), place', p') && OnItsWay(c, m, eta, t, 5, place', p')
  {
    place', p' := place, p;
    if place == AtDest {
      DestAlone(c, m, eta, t, p);
      var (nic, col) := DestStep(c, t, [p], []);
      if nic == [] {
        place', p' := AtCollector, col[0];
      } else {
        p' := nic[0];
      }
      hide ToGo, Routed, DestStep;
      var s' := Dests(c, t, s);
      NothingAtDest(c, t);
      assert s' == s.(dstNic := s'.dstNic, collector := s'.collector);
    } else {
      IdleDests(c, t, s);
      hide Dests;
    }
  }

  lemma NothingAtDest(c: Config, t: int)
    ensures DestStep(c, t, [], []) == ([], [])
  {
  }

  // ---------- The crossbar ----------

  lemma BumpLater(q: Queue, t: int)
    requires q == [] || q[0].cycle > t
    ensures Bump(q, t) == q
  {
  }

  /** The packet does not cross before it is due. */
  lemma TooEarly(c: Config, m: Mem, eta: int, t: int, s: Net, p: Packet)
    requires Only(c, s, AtVirtual, p) && OnItsWay(c, m, eta, t, 2, AtVirtual, p) && p.cycle > t
    ensures Arbitrate(c, t, StartOf(c, t, s)).moved == []
  {
    hide ToGo, Routed;
    var x := StartOf(c, t, s);
    CrossesIffSomethingFits(c, t, s);
    hide Arbitrate;
    assert forall i, j :: 0 <= i < c.sources && 0 <= j < c.dests ==> !Fits(c, t, x.virt[i][j], x.status[j]);
  }

  lemma EmptyOutput(c: Config, m: Mem)
    requires Roomy(c, m)
    ensures Status(c, []) == 3
  {
  }

  lemma OneMatched(moved: seq<(nat, nat)>, i: nat, j: nat)
    requires Matching(moved) && forall a :: 0 <= a < |moved| ==> moved[a] == (i, j)
    ensures |moved| <= 1
  {
    TwoDiffer(moved);
  }

  lemma TwoDiffer(moved: seq<(nat, nat)>)
    requires Matching(moved)
    ensures |moved| > 1 ==> moved[0].0 != moved[1].0
  {
  }

  /** When it is due, it crosses: it is the only one, and there is room. */
  lemma CrossesAlone(c: Config, m: Mem, eta: int, t: int, s: Net, p: Packet)
    requires Roomy(c, m) && Only(c, s, AtVirtual, p) && OnItsWay(c, m, eta, t, 2, AtVirtual, p) && p.cycle == t
    ensures Arbitrate(c, t, StartOf(c, t, s)).moved == [(m.source, m.dest)]
  {
    hide ToGo, Routed, Arbitrate, Fits, Matching, MovedFits, VirtApplied, OutApplied;
    var x := StartOf(c, t, s);
    CrossesIffSomethingFits(c, t, s);
    CrossbarIsAMatching(c, t, s);
    OnlyItFits(c, m, eta, t, s, p);
    assert Fits(c, t, x.virt[m.source][m.dest], x.status[m.dest]);
    MovesOnlyIt(c, m, t, x, Arbitrate(c, t, x).moved);
  }

  lemma OnlyItFits(c: Config, m: Mem, eta: int, t: int, s: Net, p: Packet)
    requires Roomy(c, m) && Only(c, s, AtVirtual, p) && OnItsWay(c, m, eta, t, 2, AtVirtual, p) && p.cycle == t
    ensures var x := StartOf(c, t, s);
            forall i, j :: 0 <= i < c.sources && 0 <= j < c.dests ==>
              (Fits(c, t, x.virt[i][j], x.status[j]) <==> (i, j) == (m.source, m.dest))
  {
    EmptyOutput(c, m);
    hide ToGo, Routed, Status;
  }

  lemma MovesOnlyIt(c: Config, m: Mem, t: int, x: Crossbar, moved: seq<(nat, nat)>)
    requires CrossbarOK(c, x) && Matching(moved) && MovedFits(c, t, x, moved) && moved != []
    requires forall i, j :: 0 <= i < c.sources && 0 <= j < c.dests && Fits(c, t, x.virt[i][j], x.status[j]) ==>
               (i, j) == (m.source, m.dest)
    ensures moved == [(m.source, m.dest)]
  {
    hide Fits;
    forall a | 0 <= a < |moved| ensures moved[a] == (m.source, m.dest) {
      assert Fits(c, t, x.virt[moved[a].0][moved[a].1], x.status[moved[a].1]);
    }
    OneMatched(moved, m.source, m.dest);
  }

  lemma NoneWaits(virt: seq<seq<Queue>>, t: int)
    requires forall i, j :: 0 <= i < |virt| && 0 <= j < |virt[i]| ==> virt[i][j] == [] || virt[i][j][0].cycle > t
    ensures BumpAll(virt, t) == virt
  {
    forall i | 0 <= i < |virt| ensures BumpRow(virt[i], t) == virt[i] {
      forall j | 0 <= j < |virt[i]| ensures Bump(virt[i][j], t) == virt[i][j] {
        BumpLater(virt[i][j], t);
      }
    }
  }

  lemma StaysAtSwitch(c: Config, m: Mem, eta: int, t: int, s: Net, p: Packet)
    requires Only(c, s, AtVirtual, p) && OnItsWay(c, m, eta, t, 2, AtVirtual, p) && p.cycle > t
    ensures Only(c, Switch(c, t, s), AtVirtual, p) && OnItsWay(c, m, eta, t, 3, AtVirtual, p)
  {
    TooEarly(c, m, eta, t, s, p);
    CrossbarIsAMatching(c, t, s);
    hide ToGo, Arbitrate;
    var x := Arbitrate(c, t, StartOf(c, t, s));
    SameQueues(c, StartOf(c, t, s), x);
    NoneWaits(s.virt, t);
    hide Routed;
  }

  lemma SameQueues(c: Config, x0: Crossbar, x: Crossbar)
    requires CrossbarOK(c, x0) && CrossbarOK(c, x) && x.moved == []
    requires VirtApplied(c, x0, x) && OutApplied(c, x0, x)
    ensures x.virt == x0.virt && x.out == x0.out
  {
    forall i | 0 <= i < c.sources ensures x.virt[i] == x0.virt[i] {
      assert forall j :: 0 <= j < c.dests ==> x.virt[i][j] == x0.virt[i][j];
    }
  }

  lemma LeavesSwitch(c: Config, m: Mem, eta: int, t: int, s: Net, p: Packet)
    requires Roomy(c, m) && Only(c, s, AtVirtual, p) && OnItsWay(c, m, eta, t, 2, AtVirtual, p) && p.cycle == t
    ensures Only(c, Switch(c, t, s), AtOutput, Crossed(c, p)) && OnItsWay(c, m, eta, t, 3, AtOutput, Crossed(c, p))
  {
    hide Arbitrate, ToGo, Matching, MovedFits, VirtApplied, OutApplied, OneIn, OneVirtual, NoneIn, EachFrom, EachTo,
         VirtOK;
    CrossesAlone(c, m, eta, t, s, p);
    CrossbarIsAMatching(c, t, s);
    var x0 := StartOf(c, t, s);
    var x := Arbitrate(c, t, x0);
    LoneTransfer(c, m, p, x0, x);
    NoneWaits(x.virt, t);
    CrossedOnItsWay(c, m, eta, t, p);
  }

  lemma CrossedOnItsWay(c: Config, m: Mem, eta: int, t: int, p: Packet)
    requires OnItsWay(c, m, eta, t, 2, AtVirtual, p)
    ensures OnItsWay(c, m, eta, t, 3, AtOutput, Crossed(c, p))
  {
    hide NicDelay, SwitchDelay;
  }

  ghost predicate NoneAt(virt: seq<seq<Queue>>) {
    forall i, j :: 0 <= i < |virt| && 0 <= j < |virt[i]| ==> virt[i][j] == []
  }

  lemma LoneTransfer(c: Config, m: Mem, p: Packet, x0: Crossbar, x: Crossbar)
    requires CrossbarOK(c, x0) && CrossbarOK(c, x) && x.moved == [(m.source, m.dest)]
    requires OneVirtual(x0.virt, m.source, m.dest, p) && NoneIn(x0.out)
    requires VirtApplied(c, x0, x) && OutApplied(c, x0, x)
    ensures NoneAt(x.virt)
    ensures OneIn(x.out, m.dest, Crossed(c, p))
  {
    assert x.moved[0] == (m.source, m.dest);
    forall i, j | 0 <= i < |x.virt| && 0 <= j < |x.virt[i]| ensures x.virt[i][j] == [] {
      assert (i, j) in x.moved <==> (i, j) == (m.source, m.dest);
    }
    forall j | 0 <= j < |x.out| && j != m.dest ensures x.out[j] == [] {
      assert x.out[j] == x0.out[j];
    }
  }

  lemma SwitchAlone(c: Config, m: Mem, eta: int, t: int, s: Net, place: Stage, p: Packet)
    returns (place': Stage, p': Packet)
    requires Roomy(c, m) && Only(c, s, place, p) && OnItsWay(c, m, eta, t, 2, place, p)
    ensures Only(c, Switch(c, t, s), place', p') && OnItsWay(c, m, eta, t, 3, place', p')
  {
    place', p' := place, p;
    if place != AtVirtual {
      IdleSwitch(c, t, s);
    } else if p.cycle > t {
      StaysAtSwitch(c, m, eta, t, s, p);
    } else {
      LeavesSwitch(c, m, eta, t, s, p);
      place', p' := AtOutput, Crossed(c, p);
    }
    hide Switch, ToGo, Routed;
  }

  // ---------- Delivery, and a whole cycle ----------

  /** Memory has the packet, and nothing is left in the network. */
  ghost predicate Done(c: Config, s: Net, m: Mem, eta: int) {
    && Routed(c, s) && MemOK(c, m)
    && NoneIn(s.srcQ) && NoneIn(s.srcNic) && NoneVirtual(s) && NoneOut(s)
    && exists p :: OneIn(s.delivered, m.dest, p) && p.mem == m && p.cycle == eta
  }

  lemma DeliversOne(t: int, p: Packet)
    ensures Deliver(t, [p], []) == if p.cycle == t then ([], [p]) else ([p], [])
    ensures Deliver(t, [], []) == ([], [])
  {
    var q := [p];
    assert q[1..] == [];
    assert [] + [p] == q && Deliver(t, [], q) == ([], q);
  }

  lemma DeliveriesAlone(c: Config, m: Mem, eta: int, t: int, s: Net, place: Stage, p: Packet)
    requires Roomy(c, m) && Only(c, s, place, p) && OnItsWay(c, m, eta, t, 5, place, p)
    ensures if place == AtCollector && p.cycle == t then Done(c, Deliveries(c, t, s), m, eta) && eta == t
            else Only(c, Deliveries(c, t, s), place, p) && OnItsWay(c, m, eta, t + 1, 0, place, p)
  {
    if place == AtCollector {
      DeliversOne(t, p);
      hide Deliver, Routed;
      var s' := Deliveries(c, t, s);
      assert s' == s.(collector := s'.collector, delivered := s'.delivered);
      if p.cycle == t {
        assert OneIn(s'.delivered, m.dest, p);
      }
    } else {
      IdleDeliveries(c, t, s);
      hide Deliveries;
    }
  }

  /** Before cycle t: on its way if it is due in cycle t or later, done otherwise. */
  ghost predicate Underway(c: Config, m: Mem, eta: int, t: int, s: Net) {
    exists place, p :: Only(c, s, place, p) && OnItsWay(c, m, eta, t, 0, place, p)
  }

  lemma NotBefore(c: Config, m: Mem, eta: int, t: int, n: nat, place: Stage, p: Packet)
    requires OnItsWay(c, m, eta, t, n, place, p)
    ensures eta >= p.cycle >= t
  {
  }

  lemma CycleAlone(c: Config, m: Mem, eta: int, t: int, s: Net)
    requires Roomy(c, m) && Routed(c, s) && Underway(c, m, eta, t, s)
    ensures if eta == t then Done(c, Simulate(c, t, s), m, eta) else Underway(c, m, eta, t + 1, Simulate(c, t, s))
  {
    hide Only, OnItsWay, Sources, Nics, Switch, Outputs, Dests, Deliveries, Done;
    var place, p :| Only(c, s, place, p) && OnItsWay(c, m, eta, t, 0, place, p);
    place, p := SourcesAlone(c, m, eta, t, s, place, p);
    var s1 := Sources(c, t, s);
    place, p := NicsAlone(c, m, eta, t, s1, place, p);
    var s2 := Nics(c, t, s1);
    place, p := SwitchAlone(c, m, eta, t, s2, place, p);
    var s3 := Switch(c, t, s2);
    place, p := OutputsAlone(c, m, eta, t, s3, place, p);
    var s4 := Outputs(c, t, s3);
    place, p := DestsAlone(c, m, eta, t, s4, place, p);
    var s5 := Dests(c, t, s4);
    DeliveriesAlone(c, m, eta, t, s5, place, p);
    assert Simulate(c, t, s) == Deliveries(c, t, s5);
    if !(place == AtCollector && p.cycle == t) {
      NotBefore(c, m, eta, t + 1, 0, place, p);
    }
  }

  lemma NothingHappens(c: Config, t: int, s: Net)
    requires Routed(c, s) && NoneIn(s.srcQ) && NoneIn(s.srcNic) && NoneVirtual(s) && NoneOut(s)
    ensures Simulate(c, t, s) == s
  {
    IdleSources(c, t, s);
    IdleNics(c, t, s);
    IdleSwitch(c, t, s);
    RestIdle(c, t, s);
  }

  // ---------- Whole runs ----------

  /** The only request of the run is m, made in the cycle it says. */
  ghost predicate LoneRun(c: Config, m: Mem, b: seq<seq<Mem>>) {
    && Roomy(c, m) && RunOK(c, b) && m.requestCycle >= 0
    && forall t :: 0 <= t < |b| ==> b[t] == if t == m.requestCycle then [m] else []
  }

  lemma Shorter(c: Config, m: Mem, b: seq<seq<Mem>>)
    requires LoneRun(c, m, b) && b != []
    ensures LoneRun(c, m, b[..|b| - 1])
  {
    var front := b[..|b| - 1];
    assert forall t :: 0 <= t < |front| ==> front[t] == b[t];
  }

  lemma EmptyBefore(c: Config, m: Mem, s: Net)
    requires Roomy(c, m) && s == Empty(c)
    ensures InjectAll(c, s.srcQ, [m]) == InjectOne(c, s.srcQ, m)
    ensures Only(c, Inject(c, s, [m]), AtSource, Packetised(c, m))
  {
    var ms := [m];
    assert ms[..0] == [];
    assert InjectAll(c, s.srcQ, ms[..0]) == s.srcQ;
  }

  lemma EtaAtStart(c: Config, m: Mem)
    requires c.Valid()
    ensures OnItsWay(c, m, m.requestCycle + LatencyFloor(c, m), m.requestCycle, 0, AtSource, Packetised(c, m))
  {
    hide NicDelay, SwitchDelay;
  }

  /** What the network holds after the run. */
  ghost predicate AfterCycles(c: Config, m: Mem, n: nat, s: Net)
    requires c.Valid()
  {
    var eta := m.requestCycle + LatencyFloor(c, m);
    if n <= m.requestCycle then s == Empty(c)
    else if n <= eta then Underway(c, m, eta, n, s)
    else Done(c, s, m, eta)
  }

  lemma EmptyStays(c: Config, t: int)
    requires c.Valid()
    ensures Simulate(c, t, Empty(c)) == Empty(c)
  {
    EmptyQueues(c);
    NothingHappens(c, t, Empty(c));
  }

  lemma NoRequests(c: Config, s: Net)
    requires Routed(c, s)
    ensures Inject(c, s, []) == s
  {
  }

  lemma {:induction false} RunAlone(c: Config, m: Mem, b: seq<seq<Mem>>)
    requires LoneRun(c, m, b)
    ensures AfterCycles(c, m, |b|, Run(c, b))
    decreases |b|
  {
    hide Simulate, Empty, Routed, Underway, Done, LatencyFloor, Inject;
    if b != [] {
      var t := |b| - 1;
      Shorter(c, m, b);
      RunAlone(c, m, b[..t]);
      RunUnfolds(c, b);
      var s, eta := Run(c, b[..t]), m.requestCycle + LatencyFloor(c, m);
      NoRequests(c, s);
      if t == m.requestCycle {
        EmptyBefore(c, m, s);
        EtaAtStart(c, m);
        StartsUnderway(c, m, eta, t, Inject(c, s, [m]), Packetised(c, m));
        CycleAlone(c, m, eta, t, Inject(c, s, [m]));
      } else if t < m.requestCycle {
        EmptyStays(c, t);
      } else if t <= eta {
        CycleAlone(c, m, eta, t, s);
      } else {
        DoneStays(c, m, eta, t, s);
      }
    }
  }

  lemma StartsUnderway(c: Config, m: Mem, eta: int, t: int, s: Net, p: Packet)
    requires Only(c, s, AtSource, p) && OnItsWay(c, m, eta, t, 0, AtSource, p)
    ensures Underway(c, m, eta, t, s)
  {
  }

  lemma DoneStays(c: Config, m: Mem, eta: int, t: int, s: Net)
    requires Routed(c, s) && Done(c, s, m, eta)
    ensures Simulate(c, t, s) == s
  {
    NothingHappens(c, t, s);
  }

  /** The floor is met. In every configuration that has room for one packet, a request that is the only one of
      a run reaches memory exactly in the cycle its latency floor after it was made: after that cycle memory
      has it, stamped with that cycle, and before that memory has nothing. */
  lemma FloorIsMet(c: Config, m: Mem, b: seq<seq<Mem>>)
    requires LoneRun(c, m, b)
    ensures var s, eta := Run(c, b), m.requestCycle + LatencyFloor(c, m);
            if |b| > eta then exists p :: OneIn(s.delivered, m.dest, p) && p.mem == m && p.cycle == eta
            else NoneIn(s.delivered)
  {
    RunAlone(c, m, b);
    EmptyDelivers(c);
    hide Run, Routed, LatencyFloor, Empty;
  }

  lemma EmptyDelivers(c: Config)
    requires c.Valid()
    ensures NoneIn(Empty(c).delivered)
  {
  }
}
