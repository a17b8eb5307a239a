/** The interconnect as the source keeps it: arrays of queues updated in place, one stage after another.
    Each method is proved to do what the stage of the same name in `NetSpec` and `NetSystem` says. */
module NetMachine {
  import opened NetSpec
  import opened NetSystem

  // ---------- Work on one queue ----------

  function Passed(p: Packet, clock: int): Packet {
    if p.cycle == clock then p.(cycle := clock + 1) else p
  }

  /** What the scan does, place by place: the first `j` packets are not after the clock, and packet j,
      if there is one, is where it stops. */
  lemma {:induction false} BumpByPlace(q: Queue, clock: int, j: nat)
    requires j <= |q| && (forall k :: 0 <= k < j ==> q[k].cycle <= clock) && (j < |q| ==> q[j].cycle > clock)
    ensures forall k :: 0 <= k < |q| ==> Bump(q, clock)[k] == if k < j then Passed(q[k], clock) else q[k]
    decreases |q|
  {
    hide Bump, Passed;
    if j == 0 {
      BumpStops(q, clock);
    } else {
      var rest := q[1..];
      BumpByPlace(rest, clock, j - 1);
      BumpHead(q, clock);
      forall k | 1 <= k < |q| ensures Bump(q, clock)[k] == if k < j then Passed(q[k], clock) else q[k] {
        assert Bump(q, clock)[k] == Bump(rest, clock)[k - 1] && q[k] == rest[k - 1];
      }
    }
  }

  lemma BumpHead(q: Queue, clock: int)
    requires q != [] && q[0].cycle <= clock
    ensures Bump(q, clock) == [Passed(q[0], clock)] + Bump(q[1..], clock)
  {
  }

  lemma BumpStops(q: Queue, clock: int)
    requires q == [] || q[0].cycle > clock
    ensures Bump(q, clock) == q
  {
  }

  method BumpQueue(q: Queue, clock: int) returns (r: Queue)
    ensures r == Bump(q, clock)
  {
    r := q;
    var j := 0;
    while j < |r|
      invariant 0 <= j <= |r| == |q|
      invariant forall k :: 0 <= k < j ==> q[k].cycle <= clock && r[k] == Passed(q[k], clock)
      invariant forall k :: j <= k < |q| ==> r[k] == q[k]
    {
      if r[j].cycle == clock {
        r := r[j := r[j].(cycle := r[j].cycle + 1)];
      } else if r[j].cycle > clock {
        break;
      }
      j := j + 1;
    }
    BumpByPlace(q, clock, j);
  }

  method QueueBytes(c: Config, q: Queue) returns (bytes: nat)
    ensures bytes == Bytes(c, q)
  {
    bytes := 0;
    for i := 0 to |q|
      invariant bytes == Bytes(c, q[..i])
    {
      assert q[..i + 1][..i] == q[..i];
      bytes := bytes + Size(c, q[i].mem);
    }
    assert q[..|q|] == q;
  }

  /** `virtual_queue_has_space`. */
  method RowHasSpace(c: Config, row: seq<Queue>, bytes: nat) returns (room: bool)
    ensures room == (RowBytes(c, row) + bytes <= c.inputCapacity)
  {
    var total := 0;
    for j := 0 to |row|
      invariant total == RowBytes(c, row[..j])
    {
      assert row[..j + 1][..j] == row[..j];
      var more := QueueBytes(c, row[j]);
      total := total + more;
    }
    assert row[..|row|] == row;
    room := total + bytes <= c.inputCapacity;
  }

  /** `has_queue_size`. */
  method QueueHasSize(c: Config, q: Queue, bytes: nat) returns (room: bool)
    ensures room == (Bytes(c, q) + bytes <= c.nicCapacity)
  {
    var total := QueueBytes(c, q);
    room := total + bytes <= c.nicCapacity;
  }

  // ---------- Work on one port ----------

  method SourcePort(c: Config, clock: int, queue: Queue, nicQueue: Queue) returns (q: Queue, nic: Queue)
    ensures (q, nic) == SourceStep(c, clock, queue, nicQueue)
  {
    q, nic := queue, nicQueue;
    if q != [] {
      var room := QueueHasSize(c, nic, Size(c, q[0].mem));
      if q[0].cycle == clock && room {
        if q[0].processing > 0 {
          if q[0].processing == c.nicProcDelay {
            nic := nic + [q[0].(inNicSource := q[0].cycle, processing := 0)];
            q := BumpQueue(q[1..], clock);
          } else if q[0].processing < c.nicProcDelay {
            q := BumpQueue(q[0 := q[0].(processing := q[0].processing + 1)], clock);
          }
        } else {
          q := BumpQueue(q[0 := q[0].(processing := q[0].processing + 1)], clock);
        }
      } else if !room {
        q := BumpQueue(q, clock);
      }
    }
  }

  method InputPort(c: Config, clock: int, nicQueue: Queue, rowQueues: seq<Queue>) returns (nic: Queue, row: seq<Queue>)
    requires c.Valid() && forall k :: 0 <= k < |nicQueue| ==> nicQueue[k].mem.dest < |rowQueues|
    ensures (nic, row) == NicStep(c, clock, nicQueue, rowQueues)
  {
    nic, row := nicQueue, rowQueues;
    var bytes := 0;
    if nic != [] {
      var head := nic[0];
      bytes := Size(c, head.mem);
      var space := RowHasSpace(c, row, bytes);
      if head.cycle == clock && space {
        var delay := bytes * 8 / c.nicBandwidth;
        if head.transmitting > 0 {
          if head.transmitting == delay {
            row := row[head.mem.dest := row[head.mem.dest] + [Departed(c, head)]];
            nic := BumpQueue(nic[1..], clock);
          } else if head.transmitting < delay {
            nic := BumpQueue(nic[0 := head.(transmitting := head.transmitting + 1)], clock);
          }
        } else {
          nic := BumpQueue(nic[0 := head.(transmitting := 1)], clock);
        }
      }
    }
    assert (nic, row) == Transmit(c, clock, nicQueue, rowQueues);
    hide Bump, Transmit, RowBytes, Size;
    var space := RowHasSpace(c, row, bytes);
    if !space {
      nic := BumpQueue(nic, clock);
    }
  }

  method OutputPort(c: Config, clock: int, outQueue: Queue, nicQueue: Queue) returns (out: Queue, nic: Queue)
    requires c.Valid()
    ensures (out, nic) == OutputStep(c, clock, outQueue, nicQueue)
  {
    out, nic := outQueue, nicQueue;
    if out != [] {
      var head := out[0];
      var room := QueueHasSize(c, nic, Size(c, head.mem));
      if room && head.cycle == clock {
        if head.transmitting > 0 {
          var delay := Size(c, head.mem) * 8 / c.switchBandwidth;
          if head.transmitting == delay {
            nic := nic + [SwitchedOut(c, head)];
            out := BumpQueue(out[1..], clock);
          } else if head.transmitting < delay {
            out := BumpQueue(out[0 := head.(transmitting := head.transmitting + 1)], clock);
          }
        } else {
          out := BumpQueue(out[0 := head.(transmitting := head.transmitting + 1)], clock);
        }
      }
    } else {
      out := BumpQueue(out, clock);
    }
  }

  method DestPort(c: Config, clock: int, nicQueue: Queue, collected: Queue) returns (nic: Queue, collector: Queue)
    ensures (nic, collector) == DestStep(c, clock, nicQueue, collected)
  {
    nic, collector := nicQueue, collected;
    if nic != [] && nic[0].cycle == clock {
      var head := nic[0];
      if head.processing > 0 {
        if head.processing == c.nicProcDelay {
          collector := collector + [Collected(c, head)];
          nic := BumpQueue(nic[1..], clock);
        } else if head.processing < c.nicProcDelay {
          nic := BumpQueue(nic[0 := head.(processing := head.processing + 1)], clock);
        }
      } else {
        nic := BumpQueue(nic[0 := head.(processing := head.processing + 1)], clock);
      }
    }
  }

  method DeliverPort(clock: int, collected: Queue, done: Queue) returns (collector: Queue, delivered: Queue)
    ensures (collector, delivered) == Deliver(clock, collected, done)
  {
    collector, delivered := collected, done;
    while collector != [] && collector[0].cycle == clock
      invariant Deliver(clock, collector, delivered) == Deliver(clock, collected, done)
      decreases |collector|
    {
      collector, delivered := collector[1..], delivered + [collector[0]];
    }
  }

  method BumpPort(rowQueues: seq<Queue>, clock: int) returns (row: seq<Queue>)
    ensures row == BumpRow(rowQueues, clock)
  {
    row := rowQueues;
    for j := 0 to |row|
      invariant |row| == |rowQueues|
      invariant forall k :: 0 <= k < j ==> row[k] == Bump(rowQueues[k], clock)
      invariant forall k :: j <= k < |row| ==> row[k] == rowQueues[k]
    {
      var q := BumpQueue(row[j], clock);
      row := row[j := q];
    }
  }

  /** How much an output queue can take. */
  method OutputStatus(c: Config, out: Queue) returns (code: nat)
    ensures code == Status(c, out)
  {
    var bytes := QueueBytes(c, out);
    code := 0;
    if bytes + c.rdmaSize <= c.outputCapacity {
      code := 3;
    } else if bytes + 128 <= c.outputCapacity {
      code := 2;
    } else if bytes + 64 <= c.outputCapacity {
      code := 1;
    }
  }

  lemma NoOutputs(c: Config)
    ensures Statuses(c, []) == [] && CountFree([]) == 0
  {
  }

  lemma OneOutputMore(c: Config, outs: seq<Queue>, out: Queue)
    ensures var status := Statuses(c, outs);
            && Statuses(c, outs + [out]) == status + [Status(c, out)]
            && CountFree(status + [Status(c, out)]) == CountFree(status) + (if Status(c, out) != 0 then 1 else 0)
  {
    hide Status;
    var status := Statuses(c, outs);
    assert (status + [Status(c, out)])[..|status|] == status;
  }

  method NoQueues(n: nat) returns (a: array<Queue>)
    ensures fresh(a) && a[..] == seq(n, _ => [])
  {
    a := new Queue[n](_ => []);
  }

  method NoRows(n: nat, m: nat) returns (a: array<seq<Queue>>)
    ensures fresh(a) && a[..] == seq(n, _ => seq(m, _ => []))
  {
    a := new seq<Queue>[n](_ => seq(m, _ => []));
  }

  method NoTurns(n: nat) returns (a: array<nat>)
    ensures fresh(a) && a[..] == seq(n, _ => 0)
  {
    a := new nat[n](_ => 0);
  }

  lemma EmptyParts(c: Config)
    requires c.Valid()
    ensures var s := Empty(c);
            && s.srcQ == s.srcNic == seq(c.sources, _ => [])
            && s.virt == seq(c.sources, _ => seq(c.dests, _ => []))
            && s.out == s.dstNic == s.collector == s.delivered == seq(c.dests, _ => [])
            && s.vq == seq(c.sources, _ => 0) && s.arb == 0
  {
    hide Routed;
  }

  class Network {
    const c: Config
    const srcQ: array<Queue>
    const srcNic: array<Queue>
    const virt: array<seq<Queue>>
    const out: array<Queue>
    const dstNic: array<Queue>
    const collector: array<Queue>
    const delivered: array<Queue>
    const vq: array<nat>
    var arb: nat
    ghost var sent: seq<seq<Sent>>

    ghost function Abs(): Net
      reads this, srcQ, srcNic, virt, out, dstNic, collector, delivered, vq
    {
      Net(srcQ[..], srcNic[..], virt[..], out[..], dstNic[..], collector[..], delivered[..], arb, vq[..], sent)
    }

    /** The six arrays of packet queues are separate; `virt` and `vq` hold other types. */
    ghost predicate Apart() {
      && srcQ != srcNic && srcQ != out && srcQ != dstNic && srcQ != collector && srcQ != delivered
      && srcNic != out && srcNic != dstNic && srcNic != collector && srcNic != delivered
      && out != dstNic && out != collector && out != delivered
      && dstNic != collector && dstNic != delivered && collector != delivered
    }

    ghost predicate Valid()
      reads this, srcQ, srcNic, virt, out, dstNic, collector, delivered, vq
    {
      Apart() && Routed(c, Abs())
    }

    constructor (config: Config)
      requires config.Valid()
      ensures c == config && Valid() && Abs() == Empty(config)
      ensures fresh(srcQ) && fresh(srcNic) && fresh(virt) && fresh(out) && fresh(dstNic)
      ensures fresh(collector) && fresh(delivered) && fresh(vq)
    {
      hide Routed, Empty;
      var sourceQueues := NoQueues(config.sources);
      var sourceNics := NoQueues(config.sources);
      var virtuals := NoRows(config.sources, config.dests);
      var outputs := NoQueues(config.dests);
      var destNics := NoQueues(config.dests);
      var collectors := NoQueues(config.dests);
      var deliveries := NoQueues(config.dests);
      var turns := NoTurns(config.sources);
      c, arb := config, 0;
      srcQ, srcNic, virt, out := sourceQueues, sourceNics, virtuals, outputs;
      dstNic, collector, delivered, vq := destNics, collectors, deliveries, turns;
      sent := Empty(config).sent;
      new;
      EmptyParts(config);
    }

    /** A request enters at its source: `to_trans_layer`, `to_network_layer`, `to_link_layer`. */
    method Request(m: Mem)
      requires Valid() && MemOK(c, m)
      modifies srcQ
      ensures Valid() && Abs() == old(Abs()).(srcQ := InjectOne(c, old(srcQ[..]), m))
    {
      var half := c.packetisation / 2;
      var prepared := Packet(m, m.requestCycle + half, 0, 0, -1, -1, -1, -1, -1, -1, -1, -1);
      prepared := prepared.(cycle := prepared.cycle + half);
      srcQ[m.source] := srcQ[m.source] + [prepared];
      assert srcQ[..] == InjectOne(c, old(srcQ[..]), m);
      assert EachFrom(c, srcQ[..]) by {
        assert AllFrom(c, old(srcQ[..])[m.source], m.source);
      }
    }

    method SourceToNic(clock: int)
      requires Valid()
      modifies srcQ, srcNic
      ensures Valid() && Abs() == Sources(c, clock, old(Abs()))
    {
      ghost var s := Abs();
      for i := 0 to c.sources
        invariant forall k :: 0 <= k < i ==> (srcQ[k], srcNic[k]) == SourceStep(c, clock, s.srcQ[k], s.srcNic[k])
        invariant forall k :: i <= k < c.sources ==> srcQ[k] == s.srcQ[k] && srcNic[k] == s.srcNic[k]
      {
        var q, nic := SourcePort(c, clock, srcQ[i], srcNic[i]);
        srcQ[i], srcNic[i] := q, nic;
      }
      assert srcQ[..] == Sources(c, clock, s).srcQ && srcNic[..] == Sources(c, clock, s).srcNic;
    }

    method SourceToSwitch(clock: int)
      requires Valid()
      modifies srcNic, virt, this`sent
      ensures Valid() && Abs() == Nics(c, clock, old(Abs()))
    {
      hide NicStep, SourceStep, Record;
      ghost var s := Abs();
      for i := 0 to c.sources
        invariant forall k :: 0 <= k < i ==> (srcNic[k], virt[k]) == NicStep(c, clock, s.srcNic[k], s.virt[k])
        invariant forall k :: i <= k < c.sources ==> srcNic[k] == s.srcNic[k] && virt[k] == s.virt[k]
      {
        assert AllFrom(c, s.srcNic[i], i) && RowOK(c, s.virt[i], i);
        var nic, row := InputPort(c, clock, srcNic[i], virt[i]);
        srcNic[i], virt[i] := nic, row;
      }
      sent := Nics(c, clock, s).sent;
      assert srcNic[..] == Nics(c, clock, s).srcNic && virt[..] == Nics(c, clock, s).virt;
    }

    method SwitchToDest(clock: int)
      requires Valid()
      modifies out, dstNic
      ensures Valid() && Abs() == Outputs(c, clock, old(Abs()))
    {
      ghost var s := Abs();
      for j := 0 to c.dests
        invariant forall k :: 0 <= k < j ==> (out[k], dstNic[k]) == OutputStep(c, clock, s.out[k], s.dstNic[k])
        invariant forall k :: j <= k < c.dests ==> out[k] == s.out[k] && dstNic[k] == s.dstNic[k]
      {
        var q, nic := OutputPort(c, clock, out[j], dstNic[j]);
        out[j], dstNic[j] := q, nic;
      }
      assert out[..] == Outputs(c, clock, s).out && dstNic[..] == Outputs(c, clock, s).dstNic;
    }

    method DestToCollector(clock: int)
      requires Valid()
      modifies dstNic, collector
      ensures Valid() && Abs() == Dests(c, clock, old(Abs()))
    {
      ghost var s := Abs();
      for j := 0 to c.dests
        invariant forall k :: 0 <= k < j ==>
                  (dstNic[k], collector[k]) == DestStep(c, clock, s.dstNic[k], s.collector[k])
        invariant forall k :: j <= k < c.dests ==> dstNic[k] == s.dstNic[k] && collector[k] == s.collector[k]
      {
        var nic, q := DestPort(c, clock, dstNic[j], collector[j]);
        dstNic[j], collector[j] := nic, q;
      }
      assert dstNic[..] == Dests(c, clock, s).dstNic && collector[..] == Dests(c, clock, s).collector;
    }

    method RemoteMemoryAdd(clock: int)
      requires Valid()
      modifies collector, delivered
      ensures Valid() && Abs() == Deliveries(c, clock, old(Abs()))
    {
      ghost var s := Abs();
      for j := 0 to c.dests
        invariant forall k :: 0 <= k < j ==>
                  (collector[k], delivered[k]) == Deliver(clock, s.collector[k], s.delivered[k])
        invariant forall k :: j <= k < c.dests ==> collector[k] == s.collector[k] && delivered[k] == s.delivered[k]
      {
        var q, done := DeliverPort(clock, collector[j], delivered[j]);
        collector[j], delivered[j] := q, done;
      }
      assert collector[..] == Deliveries(c, clock, s).collector && delivered[..] == Deliveries(c, clock, s).delivered;
    }

    // ---------- The crossbar ----------

    /** `total_ready_packets`. */
    method TotalReady(clock: int) returns (ready: nat)
      requires Valid()
      ensures ready == ReadyPackets(virt[..], clock)
    {
      ready := 0;
      for i := 0 to virt.Length
        invariant ready == ReadyPackets(virt[..i], clock)
      {
        var row := virt[i];
        var due := 0;
        for j := 0 to |row|
          invariant due == RowReady(row[..j], clock)
        {
          assert row[..j + 1][..j] == row[..j];
          if row[j] != [] && row[j][0].cycle == clock {
            due := due + 1;
          }
        }
        assert row[..|row|] == row;
        assert virt[..i + 1][..i] == virt[..i];
        ready := ready + due;
      }
      assert virt[..virt.Length] == virt[..];
    }

    /** `find_free_buffers_at_output_ports`. */
    method FindFree() returns (status: seq<nat>, free: nat)
      requires Valid()
      ensures status == Statuses(c, out[..]) && free == CountFree(status)
    {
      hide Routed, Status, Statuses, CountFree;
      status, free := [], 0;
      NoOutputs(c);
      for j := 0 to out.Length
        invariant status == Statuses(c, out[..j]) && free == CountFree(status)
      {
        var code := OutputStatus(c, out[j]);
        if code != 0 {
          free := free + 1;
        }
        OneOutputMore(c, out[..j], out[j]);
        status := status + [code];
        assert out[..j + 1] == out[..j] + [out[j]];
      }
      assert out[..out.Length] == out[..];
    }

    ghost function Arbiter(status: seq<nat>, free: int, ready: int, tried: nat, moved: seq<(nat, nat)>): Crossbar
      reads this, virt, out, vq
    {
      Crossbar(virt[..], out[..], arb, vq[..], status, free, ready, tried, moved)
    }

    /** The turn of one input port: its virtual queues in order, until one of them sends. */
    method PortTurn(clock: int, statusBefore: seq<nat>, freeBefore: int, readyBefore: int, triedBefore: nat,
                    ghost movedBefore: seq<(nat, nat)>)
      returns (status: seq<nat>, free: int, ready: int, tried: nat, ghost moved: seq<(nat, nat)>)
      requires CrossbarOK(c, Arbiter(statusBefore, freeBefore, readyBefore, triedBefore, movedBefore))
      modifies virt, out, vq, this`arb
      ensures Arbiter(status, free, ready, tried, moved)
              == TryPort(c, clock, old(Arbiter(statusBefore, freeBefore, readyBefore, triedBefore, movedBefore)), 0)
    {
      hide Size, TooLarge, Transfer;
      status, free, ready, tried, moved := statusBefore, freeBefore, readyBefore, triedBefore, movedBefore;
      ghost var x0 := Arbiter(status, free, ready, tried, moved);
      for k := 0 to c.dests
        invariant CrossbarOK(c, Arbiter(status, free, ready, tried, moved))
        invariant TryPort(c, clock, Arbiter(status, free, ready, tried, moved), k) == TryPort(c, clock, x0, 0)
      {
        ghost var x := Arbiter(status, free, ready, tried, moved);
        var j := vq[arb];
        var q := virt[arb][j];
        if q != [] && q[0].cycle == clock {
          if status[j] != 0 {
            if TooLarge(c, status[j], Size(c, q[0].mem)) {
              ready := ready - 1;
              SkipVirtual();
              assert Arbiter(status, free, ready, tried, moved) == SkipQueue(c, x.(ready := x.ready - 1));
              continue;
            }
            status, free, ready, tried, moved := CrossHead(status, free, ready, tried, moved);
            return;
          } else {
            SkipVirtual();
            assert Arbiter(status, free, ready, tried, moved) == SkipQueue(c, x);
          }
        } else {
          SkipVirtual();
          assert Arbiter(status, free, ready, tried, moved) == SkipQueue(c, x);
        }
      }
    }

    /** The head of the port's current virtual queue crosses, and the next port has its turn. */
    method CrossHead(statusBefore: seq<nat>, freeBefore: int, readyBefore: int, triedBefore: nat,
                     ghost movedBefore: seq<(nat, nat)>)
      returns (status: seq<nat>, free: int, ready: int, tried: nat, ghost moved: seq<(nat, nat)>)
      requires CrossbarOK(c, Arbiter(statusBefore, freeBefore, readyBefore, triedBefore, movedBefore))
      requires virt[arb][vq[arb]] != []
      modifies virt, out, this`arb
      ensures Arbiter(status, free, ready, tried, moved)
              == Transfer(c, old(Arbiter(statusBefore, freeBefore, readyBefore, triedBefore, movedBefore)))
    {
      hide Crossed;
      ghost var x := Arbiter(statusBefore, freeBefore, readyBefore, triedBefore, movedBefore);
      var j := vq[arb];
      var q := virt[arb][j];
      out[j] := out[j] + [Crossed(c, q[0])];
      virt[arb] := virt[arb][j := q[1..]];
      moved := movedBefore + [(arb, j)];
      arb := Next(arb, c.sources);
      tried, free, ready, status := triedBefore + 1, freeBefore - 1, readyBefore - 1, statusBefore[j := 0];
      assert Arbiter(status, free, ready, tried, moved) == Transfer(c, x);
    }

    /** The port's turn passes to its next virtual queue. */
    method SkipVirtual()
      requires arb < c.sources == vq.Length && vq[arb] < c.dests
      modifies vq
      ensures vq[..] == old(vq[..])[arb := Next(old(vq[arb]), c.dests)]
    {
      vq[arb] := vq[arb] + 1;
      if vq[arb] == c.dests {
        vq[arb] := 0;
      }
    }

    /** The next port has its turn. */
    method PassTurn(status: seq<nat>, free: int, ready: int, triedBefore: nat, ghost moved: seq<(nat, nat)>)
      returns (tried: nat)
      requires CrossbarOK(c, Arbiter(status, free, ready, triedBefore, moved))
      modifies this`arb
      ensures Arbiter(status, free, ready, tried, moved)
              == NextPort(c, old(Arbiter(status, free, ready, triedBefore, moved)))
      ensures tried == triedBefore + 1
    {
      arb := arb + 1;
      if arb == c.sources {
        arb := 0;
      }
      tried := triedBefore + 1;
    }

    /** The arbitration loop. */
    method ArbitratePorts(clock: int, statusBefore: seq<nat>, freeBefore: int, readyBefore: int)
      returns (status: seq<nat>, free: int, ready: int, tried: nat, ghost moved: seq<(nat, nat)>)
      requires CrossbarOK(c, Arbiter(statusBefore, freeBefore, readyBefore, 0, []))
      modifies virt, out, vq, this`arb
      ensures Arbiter(status, free, ready, tried, moved)
              == Arbitrate(c, clock, old(Arbiter(statusBefore, freeBefore, readyBefore, 0, [])))
    {
      hide TryPort, NextPort;
      status, free, ready, tried, moved := statusBefore, freeBefore, readyBefore, 0, [];
      ghost var x0 := Arbiter(status, free, ready, tried, moved);
      while free > 0 && ready > 0 && tried < c.sources
        invariant CrossbarOK(c, Arbiter(status, free, ready, tried, moved))
        invariant Arbitrate(c, clock, Arbiter(status, free, ready, tried, moved)) == Arbitrate(c, clock, x0)
        decreases c.sources - tried
      {
        ghost var x := Arbiter(status, free, ready, tried, moved);
        TriedGrows(c, clock, x, 0);
        status, free, ready, tried, moved := PortTurn(clock, status, free, ready, tried, moved);
        tried := PassTurn(status, free, ready, tried, moved);
      }
    }

    method SwitchInputToOutput(clock: int)
      requires Valid()
      modifies virt, out, vq, this`arb
      ensures Valid() && Abs() == Switch(c, clock, old(Abs()))
    {
      hide Arbitrate, Bump, EachFrom, EachTo;
      ghost var s := Abs();
      var ready: int := TotalReady(clock);
      var status, freeOutputs := FindFree();
      var free, tried := freeOutputs as int, 0;
      ghost var moved: seq<(nat, nat)>;
      assert Arbiter(status, free, ready, 0, []) == StartOf(c, clock, s);
      status, free, ready, tried, moved := ArbitratePorts(clock, status, free, ready);
      BumpVirtuals(clock);
      assert Abs() == Switch(c, clock, s);
    }

    /** Every virtual queue, every packet that is still due: wait one more cycle. */
    method BumpVirtuals(clock: int)
      requires virt.Length == c.sources && forall i :: 0 <= i < c.sources ==> |virt[i]| == c.dests
      modifies virt
      ensures virt[..] == BumpAll(old(virt[..]), clock)
    {
      ghost var before := virt[..];
      for i := 0 to c.sources
        invariant forall k :: 0 <= k < i ==> virt[k] == BumpRow(before[k], clock)
        invariant forall k :: i <= k < c.sources ==> virt[k] == before[k]
      {
        var row := BumpPort(virt[i], clock);
        virt[i] := row;
      }
      assert virt[..] == BumpAll(before, clock);
    }

    /** `simulate_network`: one cycle. */
    method SimulateNetwork(clock: int)
      requires Valid()
      modifies srcQ, srcNic, virt, out, dstNic, collector, delivered, vq, this`arb, this`sent
      ensures Valid() && Abs() == Simulate(c, clock, old(Abs()))
    {
      SourceToNic(clock);
      SourceToSwitch(clock);
      SwitchInputToOutput(clock);
      SwitchToDest(clock);
      DestToCollector(clock);
      RemoteMemoryAdd(clock);
    }
  }
}
