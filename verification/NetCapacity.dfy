/** Buffer capacities over whole runs. Every buffer stays within its size when an RDMA packet is at least
    128 bytes, as in the trace simulator; with 64-byte RDMA packets an output can be overfilled. */
module NetCapacity {
  import opened NetSpec
  import opened NetSystem
  import opened NetCrossbar
  import opened NetProgress

  // ---------- Bytes ----------

  lemma BytesPush(c: Config, q: Queue, p: Packet)
    ensures Bytes(c, q + [p]) == Bytes(c, q) + Size(c, p.mem)
  {
    assert (q + [p])[..|q|] == q;
  }

  lemma {:induction false} BytesSameMems(c: Config, p: Queue, q: Queue)
    requires |p| == |q| && forall k :: 0 <= k < |p| ==> p[k].mem == q[k].mem
    ensures Bytes(c, p) == Bytes(c, q)
    decreases |p|
  {
    if p != [] {
      BytesSameMems(c, p[..|p| - 1], q[..|q| - 1]);
    }
  }

  lemma {:induction false} BytesHead(c: Config, q: Queue)
    requires q != []
    ensures Bytes(c, q) == Size(c, q[0].mem) + Bytes(c, q[1..])
    decreases |q|
  {
    if |q| == 1 {
      assert q[..0] == [] && q[1..] == [];
    } else {
      BytesHead(c, q[..|q| - 1]);
      assert q[..|q| - 1][1..] == q[1..][..|q| - 2];
    }
  }

  lemma {:induction false} RowBytesUpdate(c: Config, row: seq<Queue>, j: nat, q: Queue)
    requires j < |row|
    ensures RowBytes(c, row[j := q]) == RowBytes(c, row) - Bytes(c, row[j]) + Bytes(c, q)
    decreases |row|
  {
    var n := |row| - 1;
    if j < n {
      RowBytesUpdate(c, row[..n], j, q);
      assert row[j := q][..n] == row[..n][j := q];
    } else {
      assert row[j := q][..n] == row[..n];
    }
  }

  lemma {:induction false} RowBytesShrink(c: Config, row: seq<Queue>, row': seq<Queue>)
    requires |row| == |row'| && forall j :: 0 <= j < |row| ==> Bytes(c, row'[j]) <= Bytes(c, row[j])
    ensures RowBytes(c, row') <= RowBytes(c, row)
    decreases |row|
  {
    if row != [] {
      RowBytesShrink(c, row[..|row| - 1], row'[..|row| - 1]);
    }
  }

  // ---------- Admission to an output ----------

  /** Exactly when the crossbar's check lets a packet into an output that has no room for it: an RDMA
      packet of fewer than 128 bytes would fit, and a 128-byte packet takes its place. */
  lemma OverfilledIff(c: Config, clock: int, q: Queue, out: Queue)
    requires c.Valid() && Fits(c, clock, q, Status(c, out))
    ensures Bytes(c, out) + Size(c, q[0].mem) > c.outputCapacity
            <==> (Size(c, q[0].mem) == 128 && Bytes(c, out) + c.rdmaSize <= c.outputCapacity < Bytes(c, out) + 128)
  {
    hide Bytes;
  }

  /** With RDMA packets of at least 128 bytes, a due head is admitted exactly when it has room. */
  lemma AdmittedHasRoom(c: Config, clock: int, q: Queue, out: Queue)
    requires c.Valid() && c.rdmaSize >= 128 && Due(q, clock)
    ensures Fits(c, clock, q, Status(c, out)) <==> Bytes(c, out) + Size(c, q[0].mem) <= c.outputCapacity
  {
    hide Bytes;
  }

  lemma {:induction false} FilledWith64(c: Config, p: Packet, n: nat)
    requires Size(c, p.mem) == 64
    ensures Bytes(c, seq(n, _ => p)) == 64 * n
    decreases n
  {
    if n > 0 {
      FilledWith64(c, p, n - 1);
      assert seq(n, _ => p)[..n - 1] == seq(n - 1, _ => p);
    }
  }

  /** With the detailed simulator's 64-byte RDMA packets, whatever the output's size: it can be filled with
      ordinary packets so that a 128-byte write request is still admitted and overfills it. */
  lemma SmallRdmaOverfills(c: Config, clock: int)
    requires c.Valid() && c.rdmaSize == 64 && !c.reverse && c.outputCapacity >= 64 && c.rdmaFrom >= 1
    ensures exists q, out ::
              && Bytes(c, out) <= c.outputCapacity && Fits(c, clock, q, Status(c, out))
              && Bytes(c, out + [Crossed(c, q[0])]) > c.outputCapacity
  {
    var n := (c.outputCapacity - 64) / 64;
    var request := Packetised(c, Mem(0, 0, 0, 0, 1, false, false));
    var out := seq(n, _ => request);
    FilledWith64(c, request, n);
    var write := Packetised(c, Mem(0, 0, 0, 0, 0, true, false)).(cycle := clock);
    BytesPush(c, out, Crossed(c, write));
    assert Bytes(c, out) == 64 * n && 64 * n <= c.outputCapacity - 64 < 64 * n + 64;
    assert Status(c, out) == 3;
    assert Fits(c, clock, [write], Status(c, out)) && [write][0] == write;
  }

  // ---------- The stages ----------

  /** No buffer holds more than its size. */
  ghost predicate WithinCapacity(c: Config, s: Net) {
    && (forall i :: 0 <= i < |s.srcNic| ==> Bytes(c, s.srcNic[i]) <= c.nicCapacity)
    && (forall i :: 0 <= i < |s.virt| ==> RowBytes(c, s.virt[i]) <= c.inputCapacity)
    && (forall j :: 0 <= j < |s.out| ==> Bytes(c, s.out[j]) <= c.outputCapacity)
    && (forall j :: 0 <= j < |s.dstNic| ==> Bytes(c, s.dstNic[j]) <= c.nicCapacity)
  }

  lemma SourceWithin(c: Config, clock: int, q: Queue, nic: Queue)
    requires Bytes(c, nic) <= c.nicCapacity
    ensures Bytes(c, SourceStep(c, clock, q, nic).1) <= c.nicCapacity
  {
    hide Bytes, Size;
    if q != [] {
      BytesPush(c, nic, q[0].(inNicSource := q[0].cycle, processing := 0));
    }
  }

  lemma PortWithin(c: Config, clock: int, nic: Queue, row: seq<Queue>)
    requires c.Valid() && forall k :: 0 <= k < |nic| ==> nic[k].mem.dest < |row|
    requires Bytes(c, nic) <= c.nicCapacity && RowBytes(c, row) <= c.inputCapacity
    ensures var (nic', row') := NicStep(c, clock, nic, row);
            Bytes(c, nic') <= c.nicCapacity && RowBytes(c, row') <= c.inputCapacity
  {
    hide Bytes, Size, RowBytes, NicDelay;
    var (nic1, row1) := Transmit(c, clock, nic, row);
    var nic2 := NicStep(c, clock, nic, row).0;
    BytesSameMems(c, nic2, nic1);
    if |nic1| == |nic| {
      BytesSameMems(c, nic1, nic);
    } else {
      BytesSameMems(c, nic1, nic[1..]);
      BytesHead(c, nic);
      var d := nic[0].mem.dest;
      BytesPush(c, row[d], Departed(c, nic[0]));
      RowBytesUpdate(c, row, d, row[d] + [Departed(c, nic[0])]);
    }
  }

  lemma OutputWithin(c: Config, clock: int, out: Queue, nic: Queue)
    requires c.Valid() && Bytes(c, out) <= c.outputCapacity && Bytes(c, nic) <= c.nicCapacity
    ensures var (out', nic') := OutputStep(c, clock, out, nic);
            Bytes(c, out') <= c.outputCapacity && Bytes(c, nic') <= c.nicCapacity
  {
    hide Bytes, Size, SwitchDelay;
    var (out', nic') := OutputStep(c, clock, out, nic);
    if |out'| == |out| {
      BytesSameMems(c, out', out);
    } else {
      BytesSameMems(c, out', out[1..]);
      BytesHead(c, out);
      BytesPush(c, nic, SwitchedOut(c, out[0]));
    }
  }

  lemma DestWithin(c: Config, clock: int, nic: Queue, collector: Queue)
    requires Bytes(c, nic) <= c.nicCapacity
    ensures Bytes(c, DestStep(c, clock, nic, collector).0) <= c.nicCapacity
  {
    hide Bytes, Size;
    var nic' := DestStep(c, clock, nic, collector).0;
    if |nic'| == |nic| {
      BytesSameMems(c, nic', nic);
    } else {
      BytesSameMems(c, nic', nic[1..]);
      BytesHead(c, nic);
    }
  }

  /** The crossbar lets the 128-byte head of virtual queue (i, j) into an output that has room for an RDMA
      packet but not for it. */
  ghost predicate SlipsIn(c: Config, x: Crossbar, i: nat, j: nat) {
    && i < |x.virt| && j < |x.virt[i]| && j < |x.out| && x.virt[i][j] != []
    && Size(c, x.virt[i][j][0].mem) == 128
    && Bytes(c, x.out[j]) + c.rdmaSize <= c.outputCapacity < Bytes(c, x.out[j]) + 128
  }

  /** Such a head crosses in this cycle. */
  ghost predicate Overfills(c: Config, clock: int, s: Net)
    requires Routed(c, s)
  {
    var x0 := StartOf(c, clock, s);
    var moved := Arbitrate(c, clock, x0).moved;
    exists m :: 0 <= m < |moved| && SlipsIn(c, x0, moved[m].0, moved[m].1)
  }

  /** Exactly when the crossbar keeps every buffer within its size, whatever the RDMA packets' size. */
  lemma CrossbarWithinIff(c: Config, clock: int, s: Net)
    requires Routed(c, s) && WithinCapacity(c, s)
    ensures WithinCapacity(c, Switch(c, clock, s)) <==> !Overfills(c, clock, s)
  {
    var x0 := StartOf(c, clock, s);
    CrossbarIsAMatching(c, clock, s);
    ArbitrateRoutes(c, clock, x0);
    var x := Arbitrate(c, clock, x0);
    var s' := Switch(c, clock, s);
    hide Arbitrate, SlipsIn, Bytes, RowBytes, Matching, MovedFits, VirtApplied, OutApplied, VirtOK, EachTo, EachFrom;
    OutputsWithinIff(c, clock, x0, x);
    forall i | 0 <= i < c.sources ensures RowBytes(c, s'.virt[i]) <= c.inputCapacity {
      RowShrinks(c, clock, x0, x, i);
    }
  }

  lemma OutputsWithinIff(c: Config, clock: int, x0: Crossbar, x: Crossbar)
    requires c.Valid() && CrossbarOK(c, x0) && CrossbarOK(c, x)
    requires MovedFits(c, clock, x0, x.moved) && OutApplied(c, x0, x)
    requires forall j :: 0 <= j < c.dests ==> x0.status[j] == Status(c, x0.out[j])
    requires forall j :: 0 <= j < c.dests ==> Bytes(c, x0.out[j]) <= c.outputCapacity
    ensures (forall j :: 0 <= j < c.dests ==> Bytes(c, x.out[j]) <= c.outputCapacity)
            <==> !(exists m :: 0 <= m < |x.moved| && SlipsIn(c, x0, x.moved[m].0, x.moved[m].1))
  {
    if m :| 0 <= m < |x.moved| && SlipsIn(c, x0, x.moved[m].0, x.moved[m].1) {
      OutputOverfilled(c, clock, x0, x, m);
      assert x.moved[m].1 < c.dests;
    } else {
      forall j | 0 <= j < c.dests ensures Bytes(c, x.out[j]) <= c.outputCapacity {
        OutputStaysWithin(c, clock, x0, x, j);
      }
    }
    hide Bytes, Status, SlipsIn, MovedFits, OutApplied;
  }

  lemma OutputStaysWithin(c: Config, clock: int, x0: Crossbar, x: Crossbar, j: nat)
    requires c.Valid() && CrossbarOK(c, x0) && CrossbarOK(c, x) && j < c.dests
    requires MovedFits(c, clock, x0, x.moved) && OutApplied(c, x0, x)
    requires x0.status[j] == Status(c, x0.out[j]) && Bytes(c, x0.out[j]) <= c.outputCapacity
    requires forall m :: 0 <= m < |x.moved| ==> !SlipsIn(c, x0, x.moved[m].0, x.moved[m].1)
    ensures Bytes(c, x.out[j]) <= c.outputCapacity
  {
    hide Bytes, Size, Due;
    if m :| 0 <= m < |x.moved| && x.moved[m].1 == j {
      var i := x.moved[m].0;
      assert Gained(c, x0, x, i, j);
      assert Fits(c, clock, x0.virt[i][j], x0.status[j]);
      OverfilledIff(c, clock, x0.virt[i][j], x0.out[j]);
      BytesPush(c, x0.out[j], Crossed(c, x0.virt[i][j][0]));
    }
  }

  lemma OutputOverfilled(c: Config, clock: int, x0: Crossbar, x: Crossbar, m: nat)
    requires c.Valid() && CrossbarOK(c, x0) && CrossbarOK(c, x) && m < |x.moved| && OutApplied(c, x0, x)
    requires SlipsIn(c, x0, x.moved[m].0, x.moved[m].1)
    ensures Bytes(c, x.out[x.moved[m].1]) > c.outputCapacity
  {
    hide Bytes, Size;
    var (i, j) := x.moved[m];
    assert Gained(c, x0, x, i, j);
    BytesPush(c, x0.out[j], Crossed(c, x0.virt[i][j][0]));
  }

  lemma CrossbarWithin(c: Config, clock: int, s: Net)
    requires Routed(c, s) && WithinCapacity(c, s) && c.rdmaSize >= 128
    ensures WithinCapacity(c, Switch(c, clock, s))
  {
    CrossbarWithinIff(c, clock, s);
    hide Bytes, RowBytes, Switch, Arbitrate;
  }

  lemma RowShrinks(c: Config, clock: int, x0: Crossbar, x: Crossbar, i: nat)
    requires CrossbarOK(c, x0) && CrossbarOK(c, x) && VirtApplied(c, x0, x) && i < c.sources
    ensures RowBytes(c, BumpRow(x.virt[i], clock)) <= RowBytes(c, x0.virt[i])
  {
    var row := BumpRow(x.virt[i], clock);
    forall j | 0 <= j < c.dests ensures Bytes(c, row[j]) <= Bytes(c, x0.virt[i][j]) {
      BytesSameMems(c, row[j], x.virt[i][j]);
      if (i, j) in x.moved {
        BytesHead(c, x0.virt[i][j]);
      }
      assert x.virt[i][j] == x0.virt[i][j] || (x0.virt[i][j] != [] && x.virt[i][j] == x0.virt[i][j][1..]);
    }
    RowBytesShrink(c, x0.virt[i], row);
  }

  lemma SimulateWithin(c: Config, clock: int, s: Net)
    requires Routed(c, s) && WithinCapacity(c, s) && c.rdmaSize >= 128
    ensures WithinCapacity(c, Simulate(c, clock, s))
  {
    var s1 := Sources(c, clock, s);
    var s2 := Nics(c, clock, s1);
    var s3 := Switch(c, clock, s2);
    var s4 := Outputs(c, clock, s3);
    SourcesWithin(c, clock, s);
    NicsWithin(c, clock, s1);
    CrossbarWithin(c, clock, s2);
    OutputsWithin(c, clock, s3);
    DestsWithin(c, clock, s4);
    hide Sources, Nics, Switch, Outputs;
  }

  lemma SourcesWithin(c: Config, clock: int, s: Net)
    requires Routed(c, s) && WithinCapacity(c, s)
    ensures WithinCapacity(c, Sources(c, clock, s))
  {
    hide Bytes, RowBytes, SourceStep;
    forall i | 0 <= i < c.sources ensures Bytes(c, SourceStep(c, clock, s.srcQ[i], s.srcNic[i]).1) <= c.nicCapacity {
      SourceWithin(c, clock, s.srcQ[i], s.srcNic[i]);
    }
  }

  lemma NicsWithin(c: Config, clock: int, s: Net)
    requires Routed(c, s) && WithinCapacity(c, s)
    ensures WithinCapacity(c, Nics(c, clock, s))
  {
    var s' := Nics(c, clock, s);
    hide Bytes, RowBytes, NicStep;
    forall i | 0 <= i < c.sources
      ensures Bytes(c, s'.srcNic[i]) <= c.nicCapacity && RowBytes(c, s'.virt[i]) <= c.inputCapacity
    {
      assert AllFrom(c, s.srcNic[i], i) && RowOK(c, s.virt[i], i);
      PortWithin(c, clock, s.srcNic[i], s.virt[i]);
    }
  }

  lemma OutputsWithin(c: Config, clock: int, s: Net)
    requires Routed(c, s) && WithinCapacity(c, s)
    ensures WithinCapacity(c, Outputs(c, clock, s))
  {
    var s' := Outputs(c, clock, s);
    hide Bytes, RowBytes, OutputStep;
    forall j | 0 <= j < c.dests
      ensures Bytes(c, s'.out[j]) <= c.outputCapacity && Bytes(c, s'.dstNic[j]) <= c.nicCapacity
    {
      OutputWithin(c, clock, s.out[j], s.dstNic[j]);
    }
  }

  lemma DestsWithin(c: Config, clock: int, s: Net)
    requires Routed(c, s) && WithinCapacity(c, s)
    ensures WithinCapacity(c, Deliveries(c, clock, Dests(c, clock, s)))
  {
    var s' := Dests(c, clock, s);
    hide Bytes, RowBytes, DestStep;
    forall j | 0 <= j < c.dests ensures Bytes(c, s'.dstNic[j]) <= c.nicCapacity {
      DestWithin(c, clock, s.dstNic[j], s.collector[j]);
    }
  }

  lemma {:induction false} EmptyRow(c: Config, n: nat)
    ensures RowBytes(c, seq(n, _ => [])) == 0
    decreases n
  {
    var none: Queue := [];
    if n > 0 {
      EmptyRow(c, n - 1);
      assert seq(n, _ => none)[..n - 1] == seq(n - 1, _ => none);
    }
  }

  lemma EmptyWithin(c: Config)
    requires c.Valid()
    ensures WithinCapacity(c, Empty(c))
  {
    EmptyRow(c, c.dests);
    var none: Queue := [];
    assert forall i :: 0 <= i < c.sources ==> Empty(c).virt[i] == seq(c.dests, _ => none);
  }

  /** Over every run: no NIC, input port or output port ever holds more bytes than it has room for. */
  lemma {:induction false} BuffersNeverOverflow(c: Config, batches: seq<seq<Mem>>)
    requires c.Valid() && c.rdmaSize >= 128
    requires forall t :: 0 <= t < |batches| ==> BatchOK(c, batches[t])
    ensures WithinCapacity(c, Run(c, batches))
    decreases |batches|
  {
    hide Simulate;
    if batches == [] {
      EmptyWithin(c);
    } else {
      var t := |batches| - 1;
      BuffersNeverOverflow(c, batches[..t]);
      assert WithinCapacity(c, Inject(c, Run(c, batches[..t]), batches[t]));
      SimulateWithin(c, t, Inject(c, Run(c, batches[..t]), batches[t]));
    }
  }
}
