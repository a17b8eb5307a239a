/** The crossbar is not lazy: some packet crosses exactly when some due head fits its output. */
module NetProgress {
  import opened NetSpec
  import opened NetSystem
  import opened NetCrossbar
  import opened Sums

  // ---------- Going once round a ring of counts ----------

  /** The sum of m consecutive entries of the ring, from v on. */
  function Around(f: seq<nat>, v: nat, m: nat): nat
    requires v < |f|
    decreases m
  {
    if m == 0 then 0 else f[v] + Around(f, Next(v, |f|), m - 1)
  }

  lemma {:induction false} AroundRuns(f: seq<nat>, v: nat, m: nat)
    requires v < |f| && v + m <= |f|
    ensures Around(f, v, m) == Sum(f[v..v + m])
    decreases m
  {
    if m == 0 {
      assert f[v..v] == [];
    } else {
      SumHead(f[v..v + m]);
      assert f[v..v + m][1..] == f[v + 1..v + m];
      if m > 1 {
        AroundRuns(f, v + 1, m - 1);
      } else {
        assert f[v + 1..v + m] == [];
      }
    }
  }

  lemma {:induction false} AroundWraps(f: seq<nat>, v: nat, m: nat)
    requires v < |f| && |f| - v <= m <= |f|
    ensures Around(f, v, m) == Sum(f[v..]) + Sum(f[..m - (|f| - v)])
    decreases m
  {
    SumHead(f[v..]);
    assert f[v..][1..] == f[v + 1..];
    if v + 1 < |f| {
      AroundWraps(f, v + 1, m - 1);
    } else {
      AroundRuns(f, 0, m - 1);
      assert f[v + 1..] == [];
      assert f[0..m - 1] == f[..m - 1];
    }
  }

  /** Once round, from anywhere, sees everything. */
  lemma OnceRound(f: seq<nat>, v: nat)
    requires v < |f|
    ensures Around(f, v, |f|) == Sum(f)
  {
    AroundWraps(f, v, |f|);
    SumConcat(f[..v], f[v..]);
    assert f == f[..v] + f[v..];
  }

  // ---------- Ready heads ----------

  function DueCount(q: Queue, clock: int): nat {
    if Due(q, clock) then 1 else 0
  }

  function DueCounts(row: seq<Queue>, clock: int): (f: seq<nat>)
    ensures |f| == |row| && forall j :: 0 <= j < |row| ==> f[j] == DueCount(row[j], clock)
  {
    seq(|row|, j requires 0 <= j < |row| => DueCount(row[j], clock))
  }

  function RowCounts(virt: seq<seq<Queue>>, clock: int): (f: seq<nat>)
    ensures |f| == |virt| && forall i :: 0 <= i < |virt| ==> f[i] == RowReady(virt[i], clock)
  {
    seq(|virt|, i requires 0 <= i < |virt| => RowReady(virt[i], clock))
  }

  lemma {:induction false} RowReadyIsSum(row: seq<Queue>, clock: int)
    ensures RowReady(row, clock) == Sum(DueCounts(row, clock))
    decreases |row|
  {
    if row != [] {
      RowReadyIsSum(row[..|row| - 1], clock);
      assert DueCounts(row, clock)[..|row| - 1] == DueCounts(row[..|row| - 1], clock);
    }
  }

  lemma {:induction false} ReadyIsSum(virt: seq<seq<Queue>>, clock: int)
    ensures ReadyPackets(virt, clock) == Sum(RowCounts(virt, clock))
    decreases |virt|
  {
    if virt != [] {
      ReadyIsSum(virt[..|virt| - 1], clock);
      assert RowCounts(virt, clock)[..|virt| - 1] == RowCounts(virt[..|virt| - 1], clock);
    }
  }

  lemma {:induction false} CountFreePositive(status: seq<nat>, j: nat)
    requires j < |status| && status[j] != 0
    ensures CountFree(status) > 0
    decreases |status|
  {
    if j < |status| - 1 {
      CountFreePositive(status[..|status| - 1], j);
    }
  }

  // ---------- One port ----------

  /** A port that sends nothing: only its turn among the virtual queues and the count of ready packets change. */
  ghost predicate SentNothing(x: Crossbar, x': Crossbar) {
    x' == x.(vq := x'.vq, ready := x'.ready)
  }

  lemma AroundUnfolds(f: seq<nat>, v: nat, m: nat)
    requires v < |f|
    ensures Around(f, v, m) == if m == 0 then 0 else f[v] + Around(f, Next(v, |f|), m - 1)
  {
  }

  /** A port either sends, or it counts off at most its own due heads; and it sends if one of them fits. */
  lemma {:induction false} TryPortWorks(c: Config, clock: int, x: Crossbar, k: nat)
    requires CrossbarOK(c, x) && k <= c.dests
    ensures var x' := TryPort(c, clock, x, k);
            || |x'.moved| == |x.moved| + 1
            || (SentNothing(x, x')
                && x'.ready >= x.ready - Around(DueCounts(x.virt[x.arb], clock), x.vq[x.arb], c.dests - k))
    decreases c.dests - k
  {
    hide Around, TooLarge, Size, Status;
    AroundUnfolds(DueCounts(x.virt[x.arb], clock), x.vq[x.arb], c.dests - k);
    if k < c.dests {
      var j := x.vq[x.arb];
      var q := x.virt[x.arb][j];
      if Due(q, clock) && x.status[j] != 0 {
        if TooLarge(c, x.status[j], Size(c, q[0].mem)) {
          TryPortWorks(c, clock, SkipQueue(c, x.(ready := x.ready - 1)), k + 1);
        }
      } else {
        TryPortWorks(c, clock, SkipQueue(c, x), k + 1);
      }
    }
  }

  lemma {:induction false} TryPortSends(c: Config, clock: int, x: Crossbar, k: nat, j: nat)
    requires CrossbarOK(c, x) && j < c.dests && k + Off(x.vq[x.arb], j, c.dests) < c.dests
    requires Fits(c, clock, x.virt[x.arb][j], x.status[j])
    ensures |TryPort(c, clock, x, k).moved| == |x.moved| + 1
    decreases c.dests - k
  {
    var v := x.vq[x.arb];
    var q := x.virt[x.arb][v];
    if v != j {
      if Due(q, clock) && x.status[v] != 0 {
        if TooLarge(c, x.status[v], Size(c, q[0].mem)) {
          TryPortSends(c, clock, SkipQueue(c, x.(ready := x.ready - 1)), k + 1, j);
        }
      } else {
        TryPortSends(c, clock, SkipQueue(c, x), k + 1, j);
      }
    }
  }

  // ---------- The whole step ----------

  lemma {:induction false} ArbitrateOnlyAdds(c: Config, clock: int, x: Crossbar)
    requires CrossbarOK(c, x)
    ensures |Arbitrate(c, clock, x).moved| >= |x.moved|
    decreases c.sources - x.tried
  {
    if Arbitrating(c, x) {
      TriedGrows(c, clock, x, 0);
      TryPortWorks(c, clock, x, 0);
      ArbitrateOnlyAdds(c, clock, NextPort(c, TryPort(c, clock, x, 0)));
    }
  }

  lemma {:induction false} ArbitrateSends(c: Config, clock: int, x: Crossbar, i: nat, j: nat)
    requires CrossbarOK(c, x) && i < c.sources && j < c.dests && x.free > 0
    requires Fits(c, clock, x.virt[i][j], x.status[j])
    requires x.tried + Off(x.arb, i, c.sources) < c.sources
    requires x.ready >= Around(RowCounts(x.virt, clock), x.arb, c.sources - x.tried)
    ensures |Arbitrate(c, clock, x).moved| > |x.moved|
    decreases c.sources - x.tried
  {
    hide TryPort, Around, DueCounts, RowCounts, RowReady, Sum, Size, TooLarge;
    ReadyAhead(c, clock, x, i, j, c.sources - x.tried);
    TriedGrows(c, clock, x, 0);
    PortWorks(c, clock, x);
    var x1 := TryPort(c, clock, x, 0);
    if |x1.moved| == |x.moved| + 1 {
      ArbitrateOnlyAdds(c, clock, NextPort(c, x1));
    } else if x.arb == i {
      TryPortSends(c, clock, x, 0, j);
      assert false;
    } else {
      AroundUnfolds(RowCounts(x.virt, clock), x.arb, c.sources - x.tried);
      CountAt(x.virt, clock, x.arb);
      ArbitrateSends(c, clock, NextPort(c, x1), i, j);
    }
  }

  lemma CountAt(virt: seq<seq<Queue>>, clock: int, i: nat)
    requires i < |virt|
    ensures |RowCounts(virt, clock)| == |virt| && RowCounts(virt, clock)[i] == RowReady(virt[i], clock)
  {
  }

  /** A port's whole turn: it sends, or it counts off no more than its due heads. */
  lemma PortWorks(c: Config, clock: int, x: Crossbar)
    requires CrossbarOK(c, x)
    ensures var x' := TryPort(c, clock, x, 0);
            || |x'.moved| == |x.moved| + 1
            || (SentNothing(x, x') && x'.ready >= x.ready - RowReady(x.virt[x.arb], clock))
  {
    hide TryPort, Around, RowReady, Sum, SentNothing;
    TryPortWorks(c, clock, x, 0);
    OnceRound(DueCounts(x.virt[x.arb], clock), x.vq[x.arb]);
    RowReadyIsSum(x.virt[x.arb], clock);
  }

  /** While a due head lies ahead, the count of ready packets has not run out. */
  lemma {:induction false} ReadyAhead(c: Config, clock: int, x: Crossbar, i: nat, j: nat, m: nat)
    requires CrossbarOK(c, x) && i < c.sources && j < c.dests && Due(x.virt[i][j], clock)
    requires Off(x.arb, i, c.sources) < m
    ensures Around(RowCounts(x.virt, clock), x.arb, m) >= 1
    decreases m
  {
    if x.arb == i {
      RowReadyIsSum(x.virt[i], clock);
      SumAtLeast(DueCounts(x.virt[i], clock), j);
    } else {
      ReadyAhead(c, clock, x.(arb := Next(x.arb, c.sources)), i, j, m - 1);
    }
  }

  lemma FittingHeadSends(c: Config, clock: int, s: Net, i: nat, j: nat)
    requires Routed(c, s) && i < c.sources && j < c.dests
    requires var x := StartOf(c, clock, s); Fits(c, clock, x.virt[i][j], x.status[j])
    ensures Arbitrate(c, clock, StartOf(c, clock, s)).moved != []
  {
    hide Arbitrate, Around, Sum, ReadyPackets, RowCounts, CountFree, VirtOK, EachTo, EachFrom, Statuses;
    var x := StartOf(c, clock, s);
    CountFreePositive(x.status, j);
    ReadyIsSum(x.virt, clock);
    CountAt(x.virt, clock, x.arb);
    OnceRound(RowCounts(x.virt, clock), x.arb);
    ArbitrateSends(c, clock, x, i, j);
  }

  lemma SentHeadFits(c: Config, clock: int, s: Net)
    requires Routed(c, s) && Arbitrate(c, clock, StartOf(c, clock, s)).moved != []
    ensures var x := StartOf(c, clock, s);
            exists i, j :: 0 <= i < c.sources && 0 <= j < c.dests && Fits(c, clock, x.virt[i][j], x.status[j])
  {
    CrossbarIsAMatching(c, clock, s);
    var x := StartOf(c, clock, s);
    hide Arbitrate, Fits, VirtApplied, OutApplied, Matching, VirtOK, EachTo, EachFrom;
    var m := Arbitrate(c, clock, x).moved[0];
    assert Fits(c, clock, x.virt[m.0][m.1], x.status[m.1]);
  }

  /** Something crosses iff some due head fits its output. */
  lemma CrossesIffSomethingFits(c: Config, clock: int, s: Net)
    requires Routed(c, s)
    ensures var x := StartOf(c, clock, s);
            Arbitrate(c, clock, x).moved != []
            <==> exists i, j :: 0 <= i < c.sources && 0 <= j < c.dests && Fits(c, clock, x.virt[i][j], x.status[j])
  {
    hide Arbitrate, Fits, VirtOK, EachTo, EachFrom;
    var x := StartOf(c, clock, s);
    if i, j :| 0 <= i < c.sources && 0 <= j < c.dests && Fits(c, clock, x.virt[i][j], x.status[j]) {
      FittingHeadSends(c, clock, s, i, j);
    }
    if Arbitrate(c, clock, x).moved != [] {
      SentHeadFits(c, clock, s);
    }
  }

  lemma StartApplies(c: Config, clock: int, s: Net)
    requires Routed(c, s)
    ensures Applied(c, clock, StartOf(c, clock, s), StartOf(c, clock, s))
  {
  }

  /** The crossbar's whole effect in a cycle: its transfers are a matching of ports and outputs, every
      matched head was due and fitted, the matched heads moved and nothing else did. */
  lemma CrossbarIsAMatching(c: Config, clock: int, s: Net)
    requires Routed(c, s)
    ensures var x0 := StartOf(c, clock, s);
            var x := Arbitrate(c, clock, x0);
            Matching(x.moved) && MovedFits(c, clock, x0, x.moved) && VirtApplied(c, x0, x) && OutApplied(c, x0, x)
  {
    var x0 := StartOf(c, clock, s);
    StartApplies(c, clock, s);
    ArbitrateApplies(c, clock, x0, x0);
    hide Matching, MovedFits, VirtApplied, OutApplied, Turns;
  }
}
