/** How fast a source NIC sends, over whole runs: never faster than its bandwidth, one packet aside. */
module NetBandwidth {
  import opened NetSpec
  import opened NetSystem
  import opened NetCapacity

  /** Only the head of a NIC's queue is ever being transmitted. */
  ghost predicate HeadOnly(nic: Queue) {
    forall k :: 1 <= k < |nic| ==> nic[k].transmitting == 0
  }

  /** Between two successive departures the second packet's bits fit through the link. */
  ghost predicate Paced(c: Config, sent: seq<Sent>) {
    forall a :: 1 <= a < |sent| ==>
      sent[a].at > sent[a - 1].at && sent[a].bytes * 8 < c.nicBandwidth * (sent[a].at - sent[a - 1].at)
  }

  /** The transmission under way began after the last departure. */
  ghost predicate SinceLast(nic: Queue, sent: seq<Sent>, t: int) {
    sent != [] ==> sent[|sent| - 1].at + (if nic == [] then 0 else nic[0].transmitting) + 1 <= t
  }

  ghost predicate PortPaced(c: Config, nic: Queue, sent: seq<Sent>, t: int) {
    HeadOnly(nic) && Paced(c, sent) && SinceLast(nic, sent, t)
  }

  lemma BitsFit(bits: nat, bandwidth: nat, gap: int)
    requires bandwidth >= 1 && bits / bandwidth + 1 <= gap
    ensures bits < bandwidth * gap
  {
    assert bits == bandwidth * (bits / bandwidth) + bits % bandwidth;
    Grows(bandwidth, bits / bandwidth + 1, gap);
  }

  lemma Grows(b: nat, x: int, y: int)
    requires x <= y
    ensures b * x <= b * y
  {
  }

  lemma PortKeepsPace(c: Config, t: int, nic: Queue, row: seq<Queue>, sent: seq<Sent>)
    requires c.Valid() && PortPaced(c, nic, sent, t)
    requires forall k :: 0 <= k < |nic| ==> nic[k].mem.dest < |row|
    ensures PortPaced(c, NicStep(c, t, nic, row).0, Record(c, t, nic, row, sent), t + 1)
  {
    hide RowBytes, Size, Paced;
    RecordKeepsPace(c, t, nic, row, sent);
  }

  lemma RecordKeepsPace(c: Config, t: int, nic: Queue, row: seq<Queue>, sent: seq<Sent>)
    requires c.Valid() && Paced(c, sent) && SinceLast(nic, sent, t)
    ensures Paced(c, Record(c, t, nic, row, sent))
  {
    hide RowBytes, Size;
    if Departs(c, t, nic, row) && sent != [] {
      BitsFit(Size(c, nic[0].mem) * 8, c.nicBandwidth, t - sent[|sent| - 1].at);
    }
  }

  /** What is recorded as sent is what went into the input port. */
  lemma RecordedIsSent(c: Config, t: int, nic: Queue, row: seq<Queue>)
    requires c.Valid() && forall k :: 0 <= k < |nic| ==> nic[k].mem.dest < |row|
    ensures var (nic', row') := NicStep(c, t, nic, row);
            if Departs(c, t, nic, row) then
              |nic'| + 1 == |nic| && RowBytes(c, row') == RowBytes(c, row) + Size(c, nic[0].mem)
            else |nic'| == |nic| && row' == row
  {
    hide RowBytes, Bytes, Size, NicDelay;
    if Departs(c, t, nic, row) {
      var d := nic[0].mem.dest;
      BytesPush(c, row[d], Departed(c, nic[0]));
      RowBytesUpdate(c, row, d, row[d] + [Departed(c, nic[0])]);
    }
  }

  ghost predicate AllPaced(c: Config, s: Net, t: int)
    requires Routed(c, s)
  {
    forall i :: 0 <= i < c.sources ==> PortPaced(c, s.srcNic[i], s.sent[i], t)
  }

  lemma SourceKeepsPace(c: Config, t: int, q: Queue, nic: Queue, sent: seq<Sent>)
    requires PortPaced(c, nic, sent, t) && Waiting(q)
    ensures PortPaced(c, SourceStep(c, t, q, nic).1, sent, t) && Waiting(SourceStep(c, t, q, nic).0)
  {
    hide Bytes, Size, Paced;
  }

  /** Nothing in a source queue is being transmitted. */
  ghost predicate Waiting(q: Queue) {
    forall k :: 0 <= k < |q| ==> q[k].transmitting == 0
  }

  ghost predicate AllWaiting(c: Config, qs: seq<Queue>) {
    forall i :: 0 <= i < |qs| ==> Waiting(qs[i])
  }

  lemma SourcesKeepPace(c: Config, t: int, s: Net)
    requires Routed(c, s) && AllPaced(c, s, t) && AllWaiting(c, s.srcQ)
    ensures AllPaced(c, Sources(c, t, s), t) && AllWaiting(c, Sources(c, t, s).srcQ)
  {
    hide PortPaced, Waiting, SourceStep;
    forall i | 0 <= i < c.sources
      ensures PortPaced(c, SourceStep(c, t, s.srcQ[i], s.srcNic[i]).1, s.sent[i], t)
      ensures Waiting(SourceStep(c, t, s.srcQ[i], s.srcNic[i]).0)
    {
      SourceKeepsPace(c, t, s.srcQ[i], s.srcNic[i], s.sent[i]);
    }
  }

  lemma NicsKeepPace(c: Config, t: int, s: Net)
    requires Routed(c, s) && AllPaced(c, s, t)
    ensures AllPaced(c, Nics(c, t, s), t + 1) && Nics(c, t, s).srcQ == s.srcQ
  {
    var s' := Nics(c, t, s);
    hide PortPaced, NicStep, Record;
    forall i | 0 <= i < c.sources ensures PortPaced(c, s'.srcNic[i], s'.sent[i], t + 1) {
      assert AllFrom(c, s.srcNic[i], i) && RowOK(c, s.virt[i], i);
      PortKeepsPace(c, t, s.srcNic[i], s.virt[i], s.sent[i]);
    }
  }

  lemma SimulateKeepsPace(c: Config, t: int, s: Net)
    requires Routed(c, s) && AllPaced(c, s, t) && AllWaiting(c, s.srcQ)
    ensures AllPaced(c, Simulate(c, t, s), t + 1) && AllWaiting(c, Simulate(c, t, s).srcQ)
  {
    hide PortPaced, Waiting, Arbitrate;
    SourcesKeepPace(c, t, s);
    NicsKeepPace(c, t, Sources(c, t, s));
  }

  lemma {:induction false} InjectWaits(c: Config, srcQ: seq<Queue>, ms: seq<Mem>)
    requires EachFrom(c, srcQ) && BatchOK(c, ms) && AllWaiting(c, srcQ)
    ensures AllWaiting(c, InjectAll(c, srcQ, ms))
    decreases |ms|
  {
    if ms != [] {
      var front, m := ms[..|ms| - 1], ms[|ms| - 1];
      InjectWaits(c, srcQ, front);
      var before := InjectAll(c, srcQ, front);
      assert Waiting(before[m.source]);
      assert Waiting(before[m.source] + [Packetised(c, m)]);
    }
  }

  lemma {:induction false} RunPaced(c: Config, batches: seq<seq<Mem>>)
    requires c.Valid() && forall t :: 0 <= t < |batches| ==> BatchOK(c, batches[t])
    ensures AllPaced(c, Run(c, batches), |batches|) && AllWaiting(c, Run(c, batches).srcQ)
    decreases |batches|
  {
    hide Simulate;
    if batches != [] {
      var t := |batches| - 1;
      RunPaced(c, batches[..t]);
      var s := Run(c, batches[..t]);
      InjectWaits(c, s.srcQ, batches[t]);
      hide PortPaced, Waiting;
      SimulateKeepsPace(c, t, Inject(c, s, batches[t]));
    }
  }

  function BitsSent(sent: seq<Sent>): nat {
    if sent == [] then 0 else BitsSent(sent[..|sent| - 1]) + sent[|sent| - 1].bytes * 8
  }

  lemma {:induction false} PacedBits(c: Config, sent: seq<Sent>)
    requires sent != [] && Paced(c, sent)
    ensures sent[0].at <= sent[|sent| - 1].at
    ensures BitsSent(sent) <= sent[0].bytes * 8 + c.nicBandwidth * (sent[|sent| - 1].at - sent[0].at)
    decreases |sent|
  {
    var n := |sent| - 1;
    if n == 0 {
      assert sent[..0] == [];
    } else {
      PacedFront(c, sent);
      PacedBits(c, sent[..n]);
      hide Paced;
      OneMoreSent(c.nicBandwidth, sent[0].bytes * 8, sent[n].bytes * 8, BitsSent(sent[..n]),
                  sent[0].at, sent[n - 1].at, sent[n].at);
    }
  }

  lemma PacedFront(c: Config, sent: seq<Sent>)
    requires |sent| >= 2 && Paced(c, sent)
    ensures var n := |sent| - 1;
            && Paced(c, sent[..n]) && sent[n - 1].at <= sent[n].at
            && sent[n].bytes * 8 <= c.nicBandwidth * (sent[n].at - sent[n - 1].at)
  {
  }

  lemma OneMoreSent(bandwidth: nat, first: nat, last: nat, bits: nat, a: int, b: int, d: int)
    requires bits <= first + bandwidth * (b - a) && last <= bandwidth * (d - b)
    ensures bits + last <= first + bandwidth * (d - a)
  {
    Distributes(bandwidth, a, b, d);
  }

  lemma Distributes(b: nat, x: int, y: int, z: int)
    ensures b * (z - x) == b * (y - x) + b * (z - y)
  {
  }

  lemma WindowBits(c: Config, sent: seq<Sent>, a: nat, b: nat, window: nat)
    requires c.Valid() && Paced(c, sent) && a < b <= |sent| && sent[b - 1].at < sent[a].at + window
    ensures BitsSent(sent[a..b]) < c.nicBandwidth * window + sent[a].bytes * 8
  {
    var w := sent[a..b];
    assert Paced(c, w);
    PacedBits(c, w);
    hide Paced, BitsSent;
    Grows(c.nicBandwidth, w[|w| - 1].at - w[0].at, window - 1);
    Distributes(c.nicBandwidth, 0, window - 1, window);
  }

  /** In every run, whatever a source NIC sends in a window of W cycles is less than its bandwidth allows
      in W cycles, plus one packet (the window's first). `sent[i]` is the record of NIC i's departures. */
  lemma BandwidthBound(c: Config, batches: seq<seq<Mem>>, i: nat, a: nat, b: nat, window: nat)
    requires c.Valid() && i < c.sources && forall t :: 0 <= t < |batches| ==> BatchOK(c, batches[t])
    requires a < b <= |Run(c, batches).sent[i]|
    requires var sent := Run(c, batches).sent[i]; sent[b - 1].at < sent[a].at + window
    ensures var sent := Run(c, batches).sent[i];
            BitsSent(sent[a..b]) < c.nicBandwidth * window + sent[a].bytes * 8
  {
    RunPaced(c, batches);
    assert PortPaced(c, Run(c, batches).srcNic[i], Run(c, batches).sent[i], |batches|);
    hide Run;
    WindowBits(c, Run(c, batches).sent[i], a, b, window);
  }
}
