/** The rack interconnect, one direction: packets go from `sources` senders through their NICs, a
    crossbar switch with virtual queues, and `dests` receiving NICs. Every queue stage is a function
    on the queues it touches; `Network` holds the machine that updates its queues in place. */
module NetSpec {

  /** What a request carries end to end. `requestCycle` is the cycle the request was made. */
  datatype Mem = Mem(source: nat, dest: nat, addr: nat, requestCycle: int, transId: nat, isWrite: bool, isRDMA: bool)

  /** A packet: its request, its clock stamp, its progress counters and the stage times it recorded. */
  datatype Packet = Packet(mem: Mem, cycle: int, transmitting: nat, processing: nat,
                           inNicSource: int, outNicSource: int, inSwitchInput: int, outSwitchInput: int,
                           inSwitchOutput: int, outSwitchOutput: int, inNicDest: int, outNicDest: int)

  type Queue = seq<Packet>

  /** `reverse` is the direction (`network_flow`); sizes and capacities are in bytes, bandwidths in
      bits per cycle, delays in cycles. */
  datatype Config = Config(sources: nat, dests: nat, reverse: bool, rdmaSize: nat, rdmaFrom: nat,
                           nicCapacity: nat, inputCapacity: nat, outputCapacity: nat,
                           nicBandwidth: nat, switchBandwidth: nat, packetisation: nat,
                           nicProcDelay: nat, switchProcDelay: nat, propDelay: nat, switchingDelay: nat)
  {
    /** Every transmission takes at least a cycle: 64 bytes do not fit through a link in one. */
    ghost predicate Valid() {
      && sources >= 1 && dests >= 1 && nicProcDelay >= 1 && switchingDelay >= 1
      && 1 <= nicBandwidth <= 512 && 1 <= switchBandwidth <= 512 && rdmaSize >= 64
    }
  }

  function Size(c: Config, m: Mem): (bytes: nat)
    ensures c.Valid() ==> bytes >= 64
  {
    if m.transId == 0 then (if c.reverse then 64 else 128)
    else if m.transId > c.rdmaFrom then (if c.reverse then c.rdmaSize else 64)
    else if c.reverse then 128 else 64
  }

  function Bytes(c: Config, q: Queue): nat {
    if q == [] then 0 else Bytes(c, q[..|q| - 1]) + Size(c, q[|q| - 1].mem)
  }

  function RowBytes(c: Config, row: seq<Queue>): nat {
    if row == [] then 0 else RowBytes(c, row[..|row| - 1]) + Bytes(c, row[|row| - 1])
  }

  function NicDelay(c: Config, m: Mem): nat
    requires c.Valid()
  {
    Size(c, m) * 8 / c.nicBandwidth
  }

  function SwitchDelay(c: Config, m: Mem): nat
    requires c.Valid()
  {
    Size(c, m) * 8 / c.switchBandwidth
  }

  /** Whatever still carries the current clock waits one more cycle; the scan stops at the first later stamp. */
  function Bump(q: Queue, clock: int): (r: Queue)
    ensures |r| == |q|
    ensures forall i :: 0 <= i < |q| ==>
              r[i] == q[i].(cycle := r[i].cycle) && q[i].cycle <= r[i].cycle <= q[i].cycle + 1
  {
    if q == [] || q[0].cycle > clock then q
    else if q[0].cycle == clock then [q[0].(cycle := clock + 1)] + Bump(q[1..], clock)
    else [q[0]] + Bump(q[1..], clock)
  }

  // ---------- Packetisation ----------

  /** `to_trans_layer` and `to_network_layer`: half the packetisation time each, in whole cycles. */
  function PrepareDelay(c: Config): nat {
    c.packetisation / 2 + c.packetisation / 2
  }

  function Packetised(c: Config, m: Mem): Packet {
    Packet(m, m.requestCycle + PrepareDelay(c), 0, 0, -1, -1, -1, -1, -1, -1, -1, -1)
  }

  // ---------- Source queue to source NIC ----------

  function SourceStep(c: Config, clock: int, q: Queue, nic: Queue): (Queue, Queue) {
    if q == [] then (q, nic)
    else
      var head := q[0];
      var room := Bytes(c, nic) + Size(c, head.mem) <= c.nicCapacity;
      if head.cycle == clock && room then
        if head.processing > 0 then
          if head.processing == c.nicProcDelay then
            (Bump(q[1..], clock), nic + [head.(inNicSource := head.cycle, processing := 0)])
          else if head.processing < c.nicProcDelay then
            (Bump(q[0 := head.(processing := head.processing + 1)], clock), nic)
          else (q, nic)
        else (Bump(q[0 := head.(processing := 1)], clock), nic)
      else if !room then (Bump(q, clock), nic)
      else (q, nic)
  }

  // ---------- Source NIC to the switch's virtual queues ----------

  function Departed(c: Config, p: Packet): Packet {
    p.(outNicSource := p.cycle, cycle := p.cycle + c.propDelay + c.switchProcDelay,
       inSwitchInput := p.cycle + c.propDelay, transmitting := 0)
  }

  /** The head is transmitted bit by bit; `row` are the virtual queues of this input port. */
  function Transmit(c: Config, clock: int, nic: Queue, row: seq<Queue>): (Queue, seq<Queue>)
    requires c.Valid() && forall k :: 0 <= k < |nic| ==> nic[k].mem.dest < |row|
  {
    if nic == [] then (nic, row)
    else
      var head := nic[0];
      if head.cycle == clock && RowBytes(c, row) + Size(c, head.mem) <= c.inputCapacity then
        if head.transmitting > 0 then
          if head.transmitting == NicDelay(c, head.mem) then
            (Bump(nic[1..], clock), row[head.mem.dest := row[head.mem.dest] + [Departed(c, head)]])
          else if head.transmitting < NicDelay(c, head.mem) then
            (Bump(nic[0 := head.(transmitting := head.transmitting + 1)], clock), row)
          else (nic, row)
        else (Bump(nic[0 := head.(transmitting := 1)], clock), row)
      else (nic, row)
  }

  /** Whoever finds the input port full waits. */
  function NicStep(c: Config, clock: int, nic: Queue, row: seq<Queue>): (Queue, seq<Queue>)
    requires c.Valid() && forall k :: 0 <= k < |nic| ==> nic[k].mem.dest < |row|
  {
    var bytes := if nic == [] then 0 else Size(c, nic[0].mem);
    var (nic', row') := Transmit(c, clock, nic, row);
    if RowBytes(c, row') + bytes > c.inputCapacity then (Bump(nic', clock), row') else (nic', row')
  }

  // ---------- Crossbar ----------

  /** How much an output queue can take: 3 any packet, 2 up to 128 bytes, 1 up to 64, 0 nothing. */
  function Status(c: Config, out: Queue): nat {
    if Bytes(c, out) + c.rdmaSize <= c.outputCapacity then 3
    else if Bytes(c, out) + 128 <= c.outputCapacity then 2
    else if Bytes(c, out) + 64 <= c.outputCapacity then 1
    else 0
  }

  predicate TooLarge(c: Config, status: nat, bytes: nat) {
    (status == 1 && bytes == 128) || (status != 3 && bytes == c.rdmaSize)
  }

  predicate Due(q: Queue, clock: int) {
    q != [] && q[0].cycle == clock
  }

  function Crossed(c: Config, p: Packet): Packet {
    p.(outSwitchInput := p.cycle, cycle := p.cycle + c.switchingDelay, inSwitchOutput := p.cycle + c.switchingDelay)
  }

  /** The arbiter at work: `arb` is the input port whose turn it is, `vq` each port's next virtual
      queue, `tried` how far round the ports it has gone, `moved` the transfers so far (a history). */
  datatype Crossbar = Crossbar(virt: seq<seq<Queue>>, out: seq<Queue>, arb: nat, vq: seq<nat>,
                               status: seq<nat>, free: int, ready: int, tried: nat, moved: seq<(nat, nat)>)

  function Next(i: nat, n: nat): nat {
    if i + 1 == n then 0 else i + 1
  }

  ghost predicate CrossbarOK(c: Config, x: Crossbar) {
    && |x.virt| == c.sources && |x.vq| == c.sources && |x.out| == c.dests && |x.status| == c.dests
    && x.arb < c.sources
    && (forall i :: 0 <= i < |x.virt| ==> |x.virt[i]| == c.dests)
    && (forall i :: 0 <= i < |x.vq| ==> x.vq[i] < c.dests)
  }

  /** This port's virtual queue loses its turn. */
  function SkipQueue(c: Config, x: Crossbar): (x': Crossbar)
    requires CrossbarOK(c, x)
    ensures CrossbarOK(c, x')
  {
    x.(vq := x.vq[x.arb := Next(x.vq[x.arb], c.dests)])
  }

  /** The head of virtual queue (arb, j) crosses to output j, and the turn passes to the next port. */
  function Transfer(c: Config, x: Crossbar): (x': Crossbar)
    requires CrossbarOK(c, x) && x.virt[x.arb][x.vq[x.arb]] != []
    ensures CrossbarOK(c, x')
  {
    var i, j := x.arb, x.vq[x.arb];
    x.(out := x.out[j := x.out[j] + [Crossed(c, x.virt[i][j][0])]],
       virt := x.virt[i := x.virt[i][j := x.virt[i][j][1..]]],
       arb := Next(i, c.sources), tried := x.tried + 1,
       free := x.free - 1, ready := x.ready - 1, status := x.status[j := 0],
       moved := x.moved + [(i, j)])
  }

  /** One port's virtual queues, from the k-th on, until one of them sends. */
  function TryPort(c: Config, clock: int, x: Crossbar, k: nat): (x': Crossbar)
    requires CrossbarOK(c, x) && k <= c.dests
    ensures CrossbarOK(c, x')
    decreases c.dests - k
  {
    if k == c.dests then x
    else
      var j := x.vq[x.arb];
      var q := x.virt[x.arb][j];
      if Due(q, clock) && x.status[j] != 0 then
        if TooLarge(c, x.status[j], Size(c, q[0].mem)) then
          TryPort(c, clock, SkipQueue(c, x.(ready := x.ready - 1)), k + 1)
        else Transfer(c, x)
      else TryPort(c, clock, SkipQueue(c, x), k + 1)
  }

  function NextPort(c: Config, x: Crossbar): (x': Crossbar)
    requires CrossbarOK(c, x)
    ensures CrossbarOK(c, x')
  {
    x.(arb := Next(x.arb, c.sources), tried := x.tried + 1)
  }

  lemma {:induction false} TriedGrows(c: Config, clock: int, x: Crossbar, k: nat)
    requires CrossbarOK(c, x) && k <= c.dests
    ensures TryPort(c, clock, x, k).tried >= x.tried
    decreases c.dests - k
  {
    if k < c.dests {
      var j := x.vq[x.arb];
      var q := x.virt[x.arb][j];
      if Due(q, clock) && x.status[j] != 0 {
        if TooLarge(c, x.status[j], Size(c, q[0].mem)) {
          TriedGrows(c, clock, SkipQueue(c, x.(ready := x.ready - 1)), k + 1);
        }
      } else {
        TriedGrows(c, clock, SkipQueue(c, x), k + 1);
      }
    }
  }

  predicate Arbitrating(c: Config, x: Crossbar) {
    x.free > 0 && x.ready > 0 && x.tried < c.sources
  }

  /** The arbitration loop. After a transfer the turn moves on twice, so one port is passed over. */
  function Arbitrate(c: Config, clock: int, x: Crossbar): (x': Crossbar)
    requires CrossbarOK(c, x)
    ensures CrossbarOK(c, x')
    decreases c.sources - x.tried
  {
    if Arbitrating(c, x) then
      TriedGrows(c, clock, x, 0);
      Arbitrate(c, clock, NextPort(c, TryPort(c, clock, x, 0)))
    else x
  }

  function Statuses(c: Config, out: seq<Queue>): (r: seq<nat>)
    ensures |r| == |out| && forall j :: 0 <= j < |out| ==> r[j] == Status(c, out[j])
  {
    seq(|out|, j requires 0 <= j < |out| => Status(c, out[j]))
  }

  function CountFree(status: seq<nat>): nat {
    if status == [] then 0 else CountFree(status[..|status| - 1]) + (if status[|status| - 1] != 0 then 1 else 0)
  }

  function RowReady(row: seq<Queue>, clock: int): nat {
    if row == [] then 0 else RowReady(row[..|row| - 1], clock) + (if Due(row[|row| - 1], clock) then 1 else 0)
  }

  /** `total_ready_packets`: the virtual queues whose head is due. */
  function ReadyPackets(virt: seq<seq<Queue>>, clock: int): nat {
    if virt == [] then 0 else ReadyPackets(virt[..|virt| - 1], clock) + RowReady(virt[|virt| - 1], clock)
  }

  function StartCrossbar(c: Config, clock: int, virt: seq<seq<Queue>>, out: seq<Queue>,
                         arb: nat, vq: seq<nat>): Crossbar {
    Crossbar(virt, out, arb, vq, Statuses(c, out), CountFree(Statuses(c, out)), ReadyPackets(virt, clock), 0, [])
  }

  function BumpRow(row: seq<Queue>, clock: int): seq<Queue> {
    seq(|row|, j requires 0 <= j < |row| => Bump(row[j], clock))
  }

  function BumpAll(virt: seq<seq<Queue>>, clock: int): seq<seq<Queue>> {
    seq(|virt|, i requires 0 <= i < |virt| => BumpRow(virt[i], clock))
  }

  // ---------- Output queue to destination NIC ----------

  function SwitchedOut(c: Config, p: Packet): Packet {
    p.(outSwitchOutput := p.cycle, cycle := p.cycle + c.propDelay, inNicDest := p.cycle + c.propDelay,
       transmitting := 0)
  }

  predicate NicHasRoom(c: Config, nic: Queue, p: Packet) {
    Bytes(c, nic) + Size(c, p.mem) <= c.nicCapacity
  }

  /** As the source has it: a head that is due but finds the destination NIC full is left alone, stamp and all. */
  function OutputStep(c: Config, clock: int, out: Queue, nic: Queue): (Queue, Queue)
    requires c.Valid()
  {
    if out == [] then (Bump(out, clock), nic)
    else
      var head := out[0];
      if NicHasRoom(c, nic, head) && head.cycle == clock then
        if head.transmitting > 0 then
          if head.transmitting == SwitchDelay(c, head.mem) then
            (Bump(out[1..], clock), nic + [SwitchedOut(c, head)])
          else if head.transmitting < SwitchDelay(c, head.mem) then
            (Bump(out[0 := head.(transmitting := head.transmitting + 1)], clock), nic)
          else (out, nic)
        else (Bump(out[0 := head.(transmitting := 1)], clock), nic)
      else (out, nic)
  }

  // ---------- Destination NIC to collector, and delivery ----------

  function Collected(c: Config, p: Packet): Packet {
    p.(outNicDest := p.cycle, processing := 0, cycle := p.cycle + c.packetisation)
  }

  function DestStep(c: Config, clock: int, nic: Queue, collector: Queue): (Queue, Queue) {
    if nic == [] || nic[0].cycle != clock then (nic, collector)
    else
      var head := nic[0];
      if head.processing > 0 then
        if head.processing == c.nicProcDelay then
          (Bump(nic[1..], clock), collector + [Collected(c, head)])
        else if head.processing < c.nicProcDelay then
          (Bump(nic[0 := head.(processing := head.processing + 1)], clock), collector)
        else (nic, collector)
      else (Bump(nic[0 := head.(processing := 1)], clock), collector)
  }

  /** `remote_memory_add`: hand every packet that is due to the memory. */
  function Deliver(clock: int, collector: Queue, delivered: Queue): (Queue, Queue)
    decreases |collector|
  {
    if Due(collector, clock) then Deliver(clock, collector[1..], delivered + [collector[0]])
    else (collector, delivered)
  }
}
