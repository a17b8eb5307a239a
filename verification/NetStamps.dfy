/** The clock discipline: work is done only on a packet whose stamp equals the clock, so a packet left
    behind the clock is never touched again. Queue by queue: what each stage keeps. */
module NetStamps {
  import opened NetSpec

  function Max(a: int, b: int): int {
    if a < b then b else a
  }

  /** How long a packet's transmission may have run: on the link of a source NIC, of an output port, or none. */
  datatype Link = FromNic | FromPort | NoLink

  function LinkDelay(c: Config, link: Link, m: Mem): nat
    requires c.Valid()
  {
    match link
    case FromNic => NicDelay(c, m)
    case FromPort => SwitchDelay(c, m)
    case NoLink => 0
  }

  /** The progress counters never overshoot: the tests for equality with a delay cannot be skipped over. */
  ghost predicate Counted(c: Config, p: Packet, processing: nat, link: Link)
    requires c.Valid()
  {
    p.processing <= processing && p.transmitting <= LinkDelay(c, link, p.mem)
  }

  ghost predicate Ordered(q: Queue, lo: int, hi: int) {
    && (forall k :: 0 <= k < |q| ==> lo <= q[k].cycle <= hi)
    && (forall a, b :: 0 <= a <= b < |q| ==> q[a].cycle <= q[b].cycle)
  }

  /** In stamp order, every stamp between `lo` and `hi`, every counter within its delay. */
  ghost predicate OnTime(c: Config, q: Queue, lo: int, hi: int, processing: nat, link: Link)
    requires c.Valid()
  {
    Ordered(q, lo, hi) && forall k :: 0 <= k < |q| ==> Counted(c, q[k], processing, link)
  }

  /** On an ordered queue the early stop of the scan misses nothing: every stamp ends above the clock. */
  lemma {:induction false} BumpPasses(q: Queue, t: int, hi: int)
    requires Ordered(q, t, hi)
    ensures forall k :: 0 <= k < |q| ==> Bump(q, t)[k] == q[k].(cycle := Max(q[k].cycle, t + 1))
    decreases |q|
  {
    if q != [] && q[0].cycle <= t {
      BumpPasses(q[1..], t, hi);
      forall k | 0 <= k < |q| ensures Bump(q, t)[k] == q[k].(cycle := Max(q[k].cycle, t + 1)) {
        if k > 0 {
          assert q[k] == q[1..][k - 1];
        }
      }
    }
  }

  lemma Bumped(c: Config, q: Queue, t: int, hi: int, processing: nat, link: Link)
    requires c.Valid() && OnTime(c, q, t, hi, processing, link)
    ensures OnTime(c, Bump(q, t), t + 1, Max(hi, t + 1), processing, link)
  {
    BumpPasses(q, t, hi);
  }

  lemma HeadBumped(c: Config, q: Queue, p: Packet, t: int, hi: int, processing: nat, link: Link)
    requires c.Valid() && q != [] && OnTime(c, q, t, hi, processing, link)
    requires p.cycle == q[0].cycle && Counted(c, p, processing, link)
    ensures OnTime(c, Bump(q[0 := p], t), t + 1, Max(hi, t + 1), processing, link)
  {
    Bumped(c, q[0 := p], t, hi, processing, link);
  }

  lemma RestBumped(c: Config, q: Queue, t: int, hi: int, processing: nat, link: Link)
    requires c.Valid() && q != [] && OnTime(c, q, t, hi, processing, link)
    ensures OnTime(c, q[1..], t, hi, processing, link)
    ensures OnTime(c, Bump(q[1..], t), t + 1, Max(hi, t + 1), processing, link)
  {
    Bumped(c, q[1..], t, hi, processing, link);
  }

  /** Nothing due: the whole queue is already ahead of the clock. */
  lemma Ahead(c: Config, q: Queue, t: int, hi: int, processing: nat, link: Link)
    requires c.Valid() && OnTime(c, q, t, hi, processing, link) && (q == [] || q[0].cycle != t)
    ensures OnTime(c, q, t + 1, hi, processing, link)
  {
  }

  lemma BumpLeaves(q: Queue, t: int, hi: int)
    requires Ordered(q, t + 1, hi)
    ensures Bump(q, t) == q
  {
  }

  lemma Pushed(c: Config, q: Queue, p: Packet, lo: int, hi: int, processing: nat, link: Link)
    requires c.Valid() && OnTime(c, q, lo, hi, processing, link)
    requires lo <= p.cycle && hi <= p.cycle && Counted(c, p, processing, link)
    ensures OnTime(c, q + [p], lo, p.cycle, processing, link)
  {
  }

  lemma Widen(c: Config, q: Queue, lo: int, hi: int, hi': int, processing: nat, link: Link)
    requires c.Valid() && OnTime(c, q, lo, hi, processing, link) && hi <= hi'
    ensures OnTime(c, q, lo, hi', processing, link)
  {
  }

  lemma HeadCounted(c: Config, q: Queue, lo: int, hi: int, processing: nat, link: Link)
    requires c.Valid() && q != [] && OnTime(c, q, lo, hi, processing, link)
    ensures Counted(c, q[0], processing, link) && lo <= q[0].cycle <= hi
  {
  }

  lemma DivPositive(a: nat, b: nat)
    requires 1 <= b <= a
    ensures a / b >= 1
  {
  }

  lemma DelaysPositive(c: Config, m: Mem)
    requires c.Valid()
    ensures NicDelay(c, m) >= 1 && SwitchDelay(c, m) >= 1
  {
    DivPositive(Size(c, m) * 8, c.nicBandwidth);
    DivPositive(Size(c, m) * 8, c.switchBandwidth);
  }

  // ---------- The stages, queue by queue ----------

  lemma SourceOnTime(c: Config, t: int, q: Queue, nic: Queue, hi: int)
    requires c.Valid() && OnTime(c, q, t, hi, c.nicProcDelay, NoLink) && OnTime(c, nic, t, t, 0, FromNic)
    ensures var (q', nic') := SourceStep(c, t, q, nic);
            OnTime(c, q', t + 1, Max(hi, t + 1), c.nicProcDelay, NoLink) && OnTime(c, nic', t, t, 0, FromNic)
  {
    hide OnTime, Bump, Bytes, Size, NicDelay;
    if q != [] {
      var head := q[0];
      HeadCounted(c, q, t, hi, c.nicProcDelay, NoLink);
      if head.cycle == t && Bytes(c, nic) + Size(c, head.mem) <= c.nicCapacity {
        if head.processing == c.nicProcDelay {
          RestBumped(c, q, t, hi, c.nicProcDelay, NoLink);
          Pushed(c, nic, head.(inNicSource := head.cycle, processing := 0), t, t, 0, FromNic);
        } else {
          HeadBumped(c, q, head.(processing := head.processing + 1), t, hi, c.nicProcDelay, NoLink);
        }
      } else {
        Bumped(c, q, t, hi, c.nicProcDelay, NoLink);
        if head.cycle != t {
          Ahead(c, q, t, hi, c.nicProcDelay, NoLink);
          Widen(c, q, t + 1, hi, Max(hi, t + 1), c.nicProcDelay, NoLink);
        }
      }
    } else {
      Ahead(c, q, t, hi, c.nicProcDelay, NoLink);
      Widen(c, q, t + 1, hi, Max(hi, t + 1), c.nicProcDelay, NoLink);
    }
  }

  /** Either the NIC's queue has passed the clock, or the input port was full and nothing was touched. */
  lemma TransmitOnTime(c: Config, t: int, nic: Queue, row: seq<Queue>)
    requires c.Valid() && OnTime(c, nic, t, t, 0, FromNic) && nic != []
    requires forall k :: 0 <= k < |nic| ==> nic[k].mem.dest < |row|
    ensures var (nic', row') := Transmit(c, t, nic, row);
            || OnTime(c, nic', t + 1, t + 1, 0, FromNic)
            || (nic' == nic && row' == row && RowBytes(c, row) + Size(c, nic[0].mem) > c.inputCapacity)
  {
    hide OnTime, Bump, RowBytes, Size, NicDelay;
    var head := nic[0];
    HeadCounted(c, nic, t, t, 0, FromNic);
    DelaysPositive(c, head.mem);
    if RowBytes(c, row) + Size(c, head.mem) <= c.inputCapacity {
      if head.transmitting > 0 && head.transmitting == NicDelay(c, head.mem) {
        RestBumped(c, nic, t, t, 0, FromNic);
      } else {
        HeadBumped(c, nic, head.(transmitting := head.transmitting + 1), t, t, 0, FromNic);
      }
    }
  }

  /** A source NIC works in step with the clock: everything in it carries the current stamp. */
  lemma NicOnTime(c: Config, t: int, nic: Queue, row: seq<Queue>)
    requires c.Valid() && OnTime(c, nic, t, t, 0, FromNic)
    requires forall k :: 0 <= k < |nic| ==> nic[k].mem.dest < |row|
    ensures OnTime(c, NicStep(c, t, nic, row).0, t + 1, t + 1, 0, FromNic)
  {
    if nic != [] {
      TransmitOnTime(c, t, nic, row);
      var nic1 := Transmit(c, t, nic, row).0;
      if OnTime(c, nic1, t + 1, t + 1, 0, FromNic) {
        BumpLeaves(nic1, t, t + 1);
      } else {
        Bumped(c, nic, t, t, 0, FromNic);
      }
      hide OnTime, Bump, RowBytes, Size, NicDelay, Transmit;
    }
  }

  ghost predicate InVirtual(c: Config, t: int, q: Queue)
    requires c.Valid()
  {
    OnTime(c, q, t, t + c.propDelay + c.switchProcDelay, 0, NoLink)
  }

  ghost predicate InOutput(c: Config, t: int, q: Queue)
    requires c.Valid()
  {
    OnTime(c, q, t, t + c.switchingDelay, 0, FromPort)
  }

  lemma VirtualOnTime(c: Config, t: int, nic: Queue, row: seq<Queue>, j: nat, hi: int)
    requires c.Valid() && (forall k :: 0 <= k < |nic| ==> nic[k].mem.dest < |row|) && j < |row|
    requires OnTime(c, nic, t, t, 0, FromNic)
    requires OnTime(c, row[j], t, hi, 0, NoLink) && hi <= t + c.propDelay + c.switchProcDelay
    ensures var row' := NicStep(c, t, nic, row).1; j < |row'| && InVirtual(c, t, row'[j])
  {
    hide OnTime, Bump, RowBytes, Size, NicDelay;
    Widen(c, row[j], t, hi, t + c.propDelay + c.switchProcDelay, 0, NoLink);
    if nic != [] {
      HeadCounted(c, nic, t, t, 0, FromNic);
      Pushed(c, row[j], Departed(c, nic[0]), t, hi, 0, NoLink);
    }
  }

  ghost predicate CrossbarOnTime(c: Config, t: int, x: Crossbar)
    requires c.Valid()
  {
    && (forall i, j :: 0 <= i < |x.virt| && 0 <= j < |x.virt[i]| ==> InVirtual(c, t, x.virt[i][j]))
    && (forall j :: 0 <= j < |x.out| ==> InOutput(c, t, x.out[j]))
  }

  lemma TransferOnTime(c: Config, t: int, x: Crossbar)
    requires c.Valid() && CrossbarOK(c, x) && CrossbarOnTime(c, t, x) && Due(x.virt[x.arb][x.vq[x.arb]], t)
    ensures CrossbarOnTime(c, t, Transfer(c, x))
  {
    hide OnTime;
    var q, out := x.virt[x.arb][x.vq[x.arb]], x.out[x.vq[x.arb]];
    RestBumped(c, q, t, t + c.propDelay + c.switchProcDelay, 0, NoLink);
    HeadCounted(c, q, t, t + c.propDelay + c.switchProcDelay, 0, NoLink);
    Pushed(c, out, Crossed(c, q[0]), t, t + c.switchingDelay, 0, FromPort);
    assert InVirtual(c, t, q[1..]) && InOutput(c, t, out + [Crossed(c, q[0])]);
    hide InVirtual, InOutput, Due;
  }

  lemma {:induction false} TryPortOnTime(c: Config, t: int, x: Crossbar, k: nat)
    requires c.Valid() && CrossbarOK(c, x) && CrossbarOnTime(c, t, x) && k <= c.dests
    ensures CrossbarOnTime(c, t, TryPort(c, t, x, k))
    decreases c.dests - k
  {
    hide InVirtual, InOutput;
    if k < c.dests {
      var j := x.vq[x.arb];
      var q := x.virt[x.arb][j];
      if Due(q, t) && x.status[j] != 0 {
        if TooLarge(c, x.status[j], Size(c, q[0].mem)) {
          TryPortOnTime(c, t, SkipQueue(c, x.(ready := x.ready - 1)), k + 1);
        } else {
          TransferOnTime(c, t, x);
        }
      } else {
        TryPortOnTime(c, t, SkipQueue(c, x), k + 1);
      }
    }
  }

  lemma {:induction false} ArbitrateOnTime(c: Config, t: int, x: Crossbar)
    requires c.Valid() && CrossbarOK(c, x) && CrossbarOnTime(c, t, x)
    ensures CrossbarOnTime(c, t, Arbitrate(c, t, x))
    decreases c.sources - x.tried
  {
    hide InVirtual, InOutput;
    if Arbitrating(c, x) {
      TriedGrows(c, t, x, 0);
      TryPortOnTime(c, t, x, 0);
      ArbitrateOnTime(c, t, NextPort(c, TryPort(c, t, x, 0)));
    }
  }

  /** The head is due, and the destination NIC has no room for it. */
  predicate Blocked(c: Config, t: int, out: Queue, nic: Queue) {
    Due(out, t) && !NicHasRoom(c, nic, out[0])
  }

  lemma OutputOnTime(c: Config, t: int, out: Queue, nic: Queue)
    requires c.Valid() && InOutput(c, t, out) && !Blocked(c, t, out, nic)
    ensures OnTime(c, OutputStep(c, t, out, nic).0, t + 1, t + c.switchingDelay, 0, FromPort)
  {
    var hi := t + c.switchingDelay;
    hide OnTime, Bump, Bytes, Size, SwitchDelay;
    if Due(out, t) {
      var head := out[0];
      HeadCounted(c, out, t, hi, 0, FromPort);
      DelaysPositive(c, head.mem);
      if head.transmitting > 0 && head.transmitting == SwitchDelay(c, head.mem) {
        RestBumped(c, out, t, hi, 0, FromPort);
      } else {
        HeadBumped(c, out, head.(transmitting := head.transmitting + 1), t, hi, 0, FromPort);
      }
    } else {
      Ahead(c, out, t, hi, 0, FromPort);
      Bumped(c, out, t, hi, 0, FromPort);
    }
  }

  lemma ArrivalsOnTime(c: Config, t: int, out: Queue, nic: Queue, hi: int)
    requires c.Valid() && InOutput(c, t, out)
    requires OnTime(c, nic, t, hi, c.nicProcDelay, NoLink) && hi <= t + c.propDelay
    ensures OnTime(c, OutputStep(c, t, out, nic).1, t, t + c.propDelay, c.nicProcDelay, NoLink)
  {
    hide OnTime, Bump, Bytes, Size, SwitchDelay;
    Widen(c, nic, t, hi, t + c.propDelay, c.nicProcDelay, NoLink);
    if Due(out, t) {
      HeadCounted(c, out, t, t + c.switchingDelay, 0, FromPort);
      Pushed(c, nic, SwitchedOut(c, out[0]), t, hi, c.nicProcDelay, NoLink);
    }
  }

  lemma DestOnTime(c: Config, t: int, nic: Queue, collector: Queue, hi: int, hi': int)
    requires c.Valid() && OnTime(c, nic, t, hi, c.nicProcDelay, NoLink)
    requires OnTime(c, collector, t, hi', 0, NoLink) && hi' <= t + c.packetisation
    ensures var (nic', collector') := DestStep(c, t, nic, collector);
            && OnTime(c, nic', t + 1, Max(hi, t + 1), c.nicProcDelay, NoLink)
            && OnTime(c, collector', t, t + c.packetisation, 0, NoLink)
  {
    hide OnTime, Bump;
    Widen(c, collector, t, hi', t + c.packetisation, 0, NoLink);
    if Due(nic, t) {
      var head := nic[0];
      HeadCounted(c, nic, t, hi, c.nicProcDelay, NoLink);
      if head.processing == c.nicProcDelay {
        RestBumped(c, nic, t, hi, c.nicProcDelay, NoLink);
        Pushed(c, collector, Collected(c, head), t, hi', 0, NoLink);
      } else {
        HeadBumped(c, nic, head.(processing := head.processing + 1), t, hi, c.nicProcDelay, NoLink);
      }
    } else {
      Ahead(c, nic, t, hi, c.nicProcDelay, NoLink);
      Widen(c, nic, t + 1, hi, Max(hi, t + 1), c.nicProcDelay, NoLink);
    }
  }

  lemma {:induction false} DeliverOnTime(c: Config, t: int, collector: Queue, delivered: Queue, hi: int)
    requires c.Valid() && OnTime(c, collector, t, hi, 0, NoLink)
    ensures OnTime(c, Deliver(t, collector, delivered).0, t + 1, hi, 0, NoLink)
    decreases |collector|
  {
    hide OnTime;
    if Due(collector, t) {
      RestBumped(c, collector, t, hi, 0, NoLink);
      DeliverOnTime(c, t, collector[1..], delivered + [collector[0]], hi);
    } else {
      Ahead(c, collector, t, hi, 0, NoLink);
    }
  }
}
