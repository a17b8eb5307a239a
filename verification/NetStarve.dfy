/** A switch of two ports passes the same port over as long as the other has something to send. */
module NetStarve {
  import opened NetSpec
  import opened NetSystem
  import opened NetClock
  import opened NetCrossbar
  import opened NetProgress
  import opened NetArbiter

  /** The state in which the crossbar of cycle t starts. */
  ghost function AtCrossbar(c: Config, b: seq<seq<Mem>>, t: nat): (s: Net)
    requires RunOK(c, b) && t < |b|
    ensures Routed(c, s)
  {
    Nics(c, t, Sources(c, t, Before(c, b, t)))
  }

  /** Some head of port a is due then and fits its output. */
  ghost predicate CanSend(c: Config, clock: int, s: Net, a: nat)
    requires Routed(c, s) && a < c.sources
  {
    exists j :: 0 <= j < c.dests && Fits(c, clock, s.virt[a][j], Status(c, s.out[j]))
  }

  /** All that was in the queue still is, in order, perhaps with later arrivals behind. */
  ghost predicate Waits(q: Queue, q': Queue) {
    |q| <= |q'| && forall k :: 0 <= k < |q| ==> q'[k].mem == q[k].mem
  }

  ghost predicate RowWaits(row: seq<Queue>, row': seq<Queue>) {
    |row| == |row'| && forall j :: 0 <= j < |row| ==> Waits(row[j], row'[j])
  }

  /** With two ports, the one whose turn it is sends if it can, and then has the next turn again. */
  lemma KeepsItsTurn(c: Config, clock: int, s: Net)
    requires Routed(c, s) && c.sources == 2 && CanSend(c, clock, s, s.arb)
    ensures var x := Arbitrate(c, clock, StartOf(c, clock, s));
            x.arb == s.arb && forall m :: 0 <= m < |x.moved| ==> x.moved[m].0 == s.arb
  {
    hide Arbitrate, Fits, FirstChoices, Rotations, Advance;
    var x0, a := StartOf(c, clock, s), s.arb;
    ArbiterIsAlmostMaximal(c, clock, s);
    ArbiterRotates(c, clock, s);
    var x := Arbitrate(c, clock, x0);
    var j :| 0 <= j < c.dests && Fits(c, clock, s.virt[a][j], Status(c, s.out[j]));
    assert Excused(c, a, x.moved, a, j);
    var m :| 0 <= m < |x.moved| && x.moved[m].0 == a;
    OnlyOne(c, a, x.moved);
    AdvanceIs(a, 2, 2);
  }

  lemma FarApart(c: Config, a: nat, moved: seq<(nat, nat)>)
    requires a < c.sources && InRange(c, moved)
    requires forall k, l :: 0 <= k < l < |moved| ==>
               Off(a, moved[k].0, c.sources) + 2 <= Off(a, moved[l].0, c.sources)
    ensures |moved| > 1 ==> Off(a, moved[0].0, c.sources) + 2 <= Off(a, moved[1].0, c.sources)
  {
  }

  lemma OnlyOne(c: Config, a: nat, moved: seq<(nat, nat)>)
    requires c.sources == 2 && a < 2 && InRange(c, moved)
    requires forall k, l :: 0 <= k < l < |moved| ==>
               Off(a, moved[k].0, c.sources) + 2 <= Off(a, moved[l].0, c.sources)
    ensures |moved| <= 1
  {
    FarApart(c, a, moved);
  }

  lemma SwitchWaits(c: Config, clock: int, s: Net)
    requires Routed(c, s) && c.sources == 2 && CanSend(c, clock, s, s.arb)
    ensures var s' := Switch(c, clock, s);
            s'.arb == s.arb && |s.virt| == |s'.virt| == 2 && RowWaits(s.virt[1 - s.arb], s'.virt[1 - s.arb])
  {
    hide Arbitrate, CanSend, Matching, MovedFits, OutApplied, VirtApplied, Fits, RowWaits, EachFrom, EachTo, VirtOK;
    KeepsItsTurn(c, clock, s);
    CrossbarIsAMatching(c, clock, s);
    var x0, other := StartOf(c, clock, s), 1 - s.arb;
    var x := Arbitrate(c, clock, x0);
    OtherRowStays(c, x0, x, other);
    BumpWaits(s.virt[other], clock);
  }

  lemma OtherRowStays(c: Config, x0: Crossbar, x: Crossbar, i: nat)
    requires CrossbarOK(c, x0) && CrossbarOK(c, x) && VirtApplied(c, x0, x) && i < c.sources
    requires forall m :: 0 <= m < |x.moved| ==> x.moved[m].0 != i
    ensures x.virt[i] == x0.virt[i]
  {
    forall j | 0 <= j < c.dests ensures x.virt[i][j] == x0.virt[i][j] {
      assert (i, j) !in x.moved;
    }
  }

  lemma BumpWaits(row: seq<Queue>, clock: int)
    ensures RowWaits(row, BumpRow(row, clock))
  {
  }

  lemma NicWaits(c: Config, clock: int, nic: Queue, row: seq<Queue>)
    requires c.Valid() && forall k :: 0 <= k < |nic| ==> nic[k].mem.dest < |row|
    ensures RowWaits(row, NicStep(c, clock, nic, row).1)
  {
    hide RowBytes, Size, NicDelay, SwitchDelay, Bytes;
  }

  lemma NicsWait(c: Config, clock: int, s: Net, i: nat)
    requires Routed(c, s) && i < c.sources
    ensures |s.virt| == |Nics(c, clock, s).virt| == c.sources && RowWaits(s.virt[i], Nics(c, clock, s).virt[i])
    ensures Nics(c, clock, s).arb == s.arb
  {
    assert AllFrom(c, s.srcNic[i], i) && RowOK(c, s.virt[i], i);
    NicWaits(c, clock, s.srcNic[i], s.virt[i]);
    hide NicStep, RowWaits, Record;
  }

  lemma RowWaitsOn(a: seq<Queue>, b: seq<Queue>, d: seq<Queue>)
    requires RowWaits(a, b) && RowWaits(b, d)
    ensures RowWaits(a, d)
  {
    forall j | 0 <= j < |a| ensures Waits(a[j], d[j]) {
      assert Waits(a[j], b[j]) && Waits(b[j], d[j]);
    }
  }

  lemma CycleWaits(c: Config, clock: int, s: Net)
    requires Routed(c, s) && c.sources == 2 && CanSend(c, clock, Nics(c, clock, Sources(c, clock, s)), s.arb)
    ensures var s' := Simulate(c, clock, s);
            s'.arb == s.arb && |s.virt| == |s'.virt| == 2 && RowWaits(s.virt[1 - s.arb], s'.virt[1 - s.arb])
  {
    hide CanSend, RowWaits, SourceStep, NicStep, OutputStep, DestStep, Deliver, EachFrom, EachTo, VirtOK;
    var s1 := Sources(c, clock, s);
    assert s.arb < 2;
    NicsWait(c, clock, s1, 1 - s.arb);
    var s2 := Nics(c, clock, s1);
    hide Nics, Switch;
    SwitchWaits(c, clock, s2);
    RowWaitsOn(s.virt[1 - s.arb], s2.virt[1 - s.arb], Switch(c, clock, s2).virt[1 - s.arb]);
  }

  lemma Sits(row: seq<Queue>)
    ensures RowWaits(row, row)
  {
  }

  /** Two ports, any run: as long as the port that has the turn in cycle t has in every cycle a due head that
      fits its output, the other port sends nothing at all, to no output. Its virtual queues keep everything
      and only grow, and the turn is never its own. */
  lemma {:induction false} OtherPortStarves(c: Config, b: seq<seq<Mem>>, t: nat)
    requires RunOK(c, b) && c.sources == 2 && t <= |b|
    requires forall u {:trigger AtCrossbar(c, b, u)} :: t <= u < |b| ==>
               CanSend(c, u, AtCrossbar(c, b, u), Run(c, b[..t]).arb)
    ensures var s, s' := Run(c, b[..t]), Run(c, b);
            s'.arb == s.arb && |s.virt| == |s'.virt| == 2 && RowWaits(s.virt[1 - s.arb], s'.virt[1 - s.arb])
    decreases |b|
  {
    hide CanSend, RowWaits, Simulate, Run, Sources, Nics;
    if t == |b| {
      assert b[..t] == b;
      Sits(Run(c, b).virt[1 - Run(c, b).arb]);
    } else {
      var n := |b| - 1;
      var front := b[..n];
      assert front[..t] == b[..t];
      var s := Run(c, b[..t]);
      forall u | t <= u < n ensures CanSend(c, u, AtCrossbar(c, front, u), s.arb) {
        PrefixBefore(c, b, n, u);
        assert AtCrossbar(c, b, u) == AtCrossbar(c, front, u);
      }
      OtherPortStarves(c, front, t);
      RunUnfolds(c, b);
      assert CanSend(c, n, AtCrossbar(c, b, n), s.arb);
      CycleWaits(c, n, Before(c, b, n));
      RowWaitsOn(s.virt[1 - s.arb], Run(c, front).virt[1 - s.arb], Run(c, b).virt[1 - s.arb]);
    }
  }

  // ---------- Turns over runs ----------

  /** Each sender's rotation stands at the queue it sent from, any other's where it stood. */
  ghost predicate Rotated(vq: seq<nat>, vq': seq<nat>, moved: seq<(nat, nat)>) {
    && |vq'| == |vq|
    && (forall m :: 0 <= m < |moved| ==> moved[m].0 < |vq| && vq'[moved[m].0] == moved[m].1)
    && (forall i :: 0 <= i < |vq| && !NetArbiter.Sent(moved, i) ==> vq'[i] == vq[i])
  }

  lemma SwitchRotates(c: Config, clock: int, s: Net)
    requires Routed(c, s)
    ensures var x := Arbitrate(c, clock, StartOf(c, clock, s));
            && Switch(c, clock, s).arb == Advance(s.arb, x.tried, c.sources)
            && Rotated(s.vq, Switch(c, clock, s).vq, x.moved)
  {
    ArbiterRotates(c, clock, s);
    hide Arbitrate, Advance, FirstChoices, NetArbiter.Sent;
  }

  lemma SendersKeepTurns(c: Config, clock: int, s: Net)
    requires Routed(c, s)
    ensures var s' := Nics(c, clock, Sources(c, clock, s)); s'.arb == s.arb && s'.vq == s.vq
  {
    hide SourceStep, NicStep, Record;
  }

  lemma CycleRotates(c: Config, clock: int, s: Net)
    requires Routed(c, s)
    ensures var s2 := Nics(c, clock, Sources(c, clock, s));
            var x, s' := Arbitrate(c, clock, StartOf(c, clock, s2)), Simulate(c, clock, s);
            s'.arb == Advance(s2.arb, x.tried, c.sources) && Rotated(s2.vq, s'.vq, x.moved)
  {
    hide OutputStep, DestStep, Deliver, EachFrom, EachTo, VirtOK, Rotated, Advance, Arbitrate;
    var s2 := Nics(c, clock, Sources(c, clock, s));
    SwitchRotates(c, clock, s2);
    hide Sources, Nics, Switch;
  }

  /** Turns and rotations carry over from cycle to cycle, in every run: the first cycle starts with port 0 and
      every port's queue 0; the turn of the next cycle is as many turns on as this one had, and each port's
      rotation stands at the queue it sent from, or where it stood. */
  lemma TurnsCarryOver(c: Config, b: seq<seq<Mem>>, t: nat)
    requires RunOK(c, b) && t < |b|
    ensures t == 0 ==> var s := AtCrossbar(c, b, 0); s.arb == 0 && forall i :: 0 <= i < |s.vq| ==> s.vq[i] == 0
    ensures t > 0 ==>
              var s, s' := AtCrossbar(c, b, t - 1), AtCrossbar(c, b, t);
              var x := Arbitrate(c, t - 1, StartOf(c, t - 1, s));
              s'.arb == Advance(s.arb, x.tried, c.sources) && Rotated(s.vq, s'.vq, x.moved)
  {
    hide Simulate, Sources, Nics, Rotated, Advance, Arbitrate;
    SendersKeepTurns(c, t, Before(c, b, t));
    if t == 0 {
      assert b[..0] == [];
    } else {
      PrefixBefore(c, b, t, t - 1);
      RunUnfolds(c, b[..t]);
      CycleRotates(c, t - 1, Before(c, b, t - 1));
      hide Run;
    }
  }
}
