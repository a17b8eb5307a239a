/** The crossbar's arbiter, exactly: in which order ports send, which of its virtual queues a port sends
    from, and who is left out. */
module NetArbiter {
  import opened NetSpec
  import opened NetSystem
  import opened NetCrossbar
  import opened NetProgress
  import opened Sums

  // ---------- Rotation ----------

  /** k turns on, round a ring of n. */
  function Advance(v: nat, k: nat, n: nat): nat
    requires v < n
    decreases k
  {
    if k == 0 then v else Advance(Next(v, n), k - 1, n)
  }

  lemma {:induction false} AdvanceIs(v: nat, k: nat, n: nat)
    requires v < n && k <= n
    ensures Advance(v, k, n) == if v + k < n then v + k else v + k - n
    decreases k
  {
    if k > 0 {
      AdvanceIs(Next(v, n), k - 1, n);
    }
  }

  lemma {:induction false} AdvanceLast(v: nat, k: nat, n: nat)
    requires v < n
    ensures Advance(v, k, n) < n && Advance(v, k + 1, n) == Next(Advance(v, k, n), n)
    decreases k
  {
    if k > 0 {
      AdvanceLast(Next(v, n), k - 1, n);
    }
  }

  lemma OffNext(v: nat, j: nat, n: nat)
    requires v < n && j < n
    ensures j != v ==> Off(Next(v, n), j, n) == Off(v, j, n) - 1
    ensures j == v <==> Off(v, j, n) == 0
  {
  }

  // ---------- One port ----------

  /** Whether the head of the arbiter's port for output j can cross now. */
  predicate FitsNow(c: Config, clock: int, x: Crossbar, j: nat)
    requires CrossbarOK(c, x) && j < c.dests
  {
    Fits(c, clock, x.virt[x.arb][j], x.status[j])
  }

  /** A port that sends takes the first queue in its rotation, no further than `span`, whose head can cross. */
  ghost predicate SendsFirst(c: Config, clock: int, x: Crossbar, x': Crossbar, span: nat, j: nat)
    requires CrossbarOK(c, x)
  {
    var i, v := x.arb, x.vq[x.arb];
    && j < c.dests && Off(v, j, c.dests) < span && FitsNow(c, clock, x, j)
    && (forall j' :: 0 <= j' < c.dests && Off(v, j', c.dests) < Off(v, j, c.dests) ==> !FitsNow(c, clock, x, j'))
    && x' == x.(out := x.out[j := x.out[j] + [Crossed(c, x.virt[i][j][0])]],
                virt := x.virt[i := x.virt[i][j := x.virt[i][j][1..]]],
                arb := Next(i, c.sources), tried := x.tried + 1, free := x.free - 1, ready := x'.ready,
                status := x.status[j := 0], vq := x.vq[i := j], moved := x.moved + [(i, j)])
  }

  /** One that does not has none, and its rotation goes on. */
  ghost predicate SendsNone(c: Config, clock: int, x: Crossbar, x': Crossbar, span: nat)
    requires CrossbarOK(c, x)
  {
    var v := x.vq[x.arb];
    && (forall j :: 0 <= j < c.dests && Off(v, j, c.dests) < span ==> !FitsNow(c, clock, x, j))
    && x' == x.(vq := x.vq[x.arb := Advance(v, span, c.dests)], ready := x'.ready)
  }

  ghost predicate PortRight(c: Config, clock: int, x: Crossbar, x': Crossbar, span: nat)
    requires CrossbarOK(c, x) && span <= c.dests
  {
    && (SendsNone(c, clock, x, x', span) || exists j :: SendsFirst(c, clock, x, x', span, j))
    && x'.ready >= x.ready - Around(DueCounts(x.virt[x.arb], clock), x.vq[x.arb], span)
  }

  /** After a queue that cannot send, the rest of the rotation. */
  lemma SkipsQueue(c: Config, clock: int, x: Crossbar, x1: Crossbar, x': Crossbar, span: nat)
    requires CrossbarOK(c, x) && 1 <= span <= c.dests && !FitsNow(c, clock, x, x.vq[x.arb])
    requires x1 == x.(vq := x.vq[x.arb := Next(x.vq[x.arb], c.dests)], ready := x1.ready) && CrossbarOK(c, x1)
    requires x1.ready >= x.ready - DueCount(x.virt[x.arb][x.vq[x.arb]], clock)
    requires PortRight(c, clock, x1, x', span - 1)
    ensures PortRight(c, clock, x, x', span)
  {
    var v := x.vq[x.arb];
    forall j | 0 <= j < c.dests
      ensures j != v ==> Off(Next(v, c.dests), j, c.dests) == Off(v, j, c.dests) - 1
      ensures j == v <==> Off(v, j, c.dests) == 0
      ensures FitsNow(c, clock, x1, j) <==> FitsNow(c, clock, x, j)
    {
      OffNext(v, j, c.dests);
    }
    AroundUnfolds(DueCounts(x.virt[x.arb], clock), v, span);
    hide Off, FitsNow, Around, Next;
    if SendsNone(c, clock, x1, x', span - 1) {
      assert SendsNone(c, clock, x, x', span);
    } else {
      var j :| SendsFirst(c, clock, x1, x', span - 1, j);
      SentAfterSkip(c, clock, x, x1, x', span, j);
    }
  }

  lemma SentAfterSkip(c: Config, clock: int, x: Crossbar, x1: Crossbar, x': Crossbar, span: nat, j: nat)
    requires CrossbarOK(c, x) && 1 <= span <= c.dests && !FitsNow(c, clock, x, x.vq[x.arb])
    requires x1 == x.(vq := x.vq[x.arb := Next(x.vq[x.arb], c.dests)], ready := x1.ready) && CrossbarOK(c, x1)
    requires SendsFirst(c, clock, x1, x', span - 1, j)
    ensures SendsFirst(c, clock, x, x', span, j)
  {
    var v := x.vq[x.arb];
    forall j' | 0 <= j' < c.dests
      ensures j' != v ==> Off(Next(v, c.dests), j', c.dests) == Off(v, j', c.dests) - 1
      ensures j' == v <==> Off(v, j', c.dests) == 0
      ensures FitsNow(c, clock, x1, j') <==> FitsNow(c, clock, x, j')
    {
      OffNext(v, j', c.dests);
    }
    assert x1.vq[x.arb := j] == x.vq[x.arb := j];
    hide Off, FitsNow, Next;
  }

  lemma {:induction false} PortIsRight(c: Config, clock: int, x: Crossbar, k: nat)
    requires CrossbarOK(c, x) && k <= c.dests
    ensures PortRight(c, clock, x, TryPort(c, clock, x, k), c.dests - k)
    decreases c.dests - k
  {
    hide Around, Size, PortRight, TryPort;
    TryUnfolds(c, clock, x, k);
    var j := x.vq[x.arb];
    if k == c.dests {
      NoneInReach(c, clock, x);
    } else if FitsNow(c, clock, x, j) {
      SendsAtOnce(c, clock, x, c.dests - k);
    } else {
      var q := x.virt[x.arb][j];
      var x1 := SkipQueue(c, if Due(q, clock) && x.status[j] != 0 then x.(ready := x.ready - 1) else x);
      PortIsRight(c, clock, x1, k + 1);
      SkipsQueue(c, clock, x, x1, TryPort(c, clock, x1, k + 1), c.dests - k);
    }
  }

  lemma TryUnfolds(c: Config, clock: int, x: Crossbar, k: nat)
    requires CrossbarOK(c, x) && k <= c.dests
    ensures var j := x.vq[x.arb]; var q := x.virt[x.arb][j];
            TryPort(c, clock, x, k)
            == if k == c.dests then x
               else if FitsNow(c, clock, x, j) then Transfer(c, x)
               else TryPort(c, clock,
                   SkipQueue(c, if Due(q, clock) && x.status[j] != 0 then x.(ready := x.ready - 1) else x),
                            k + 1)
  {
    hide Transfer, SkipQueue;
  }

  lemma NoneInReach(c: Config, clock: int, x: Crossbar)
    requires CrossbarOK(c, x)
    ensures PortRight(c, clock, x, x, 0)
  {
    AroundUnfolds(DueCounts(x.virt[x.arb], clock), x.vq[x.arb], 0);
    hide Around;
    assert SendsNone(c, clock, x, x, 0);
  }

  lemma SendsAtOnce(c: Config, clock: int, x: Crossbar, span: nat)
    requires CrossbarOK(c, x) && 1 <= span <= c.dests && FitsNow(c, clock, x, x.vq[x.arb])
    ensures PortRight(c, clock, x, Transfer(c, x), span)
  {
    AroundUnfolds(DueCounts(x.virt[x.arb], clock), x.vq[x.arb], span);
    hide Around, Size;
    assert SendsFirst(c, clock, x, Transfer(c, x), span, x.vq[x.arb]);
  }

  // ---------- The ports in turn ----------

  ghost predicate Sent(moved: seq<(nat, nat)>, i: nat) {
    exists m :: 0 <= m < |moved| && moved[m].0 == i
  }

  ghost predicate Taken(moved: seq<(nat, nat)>, j: nat) {
    exists m :: 0 <= m < |moved| && moved[m].1 == j
  }

  /** A port whose turn came before port i's sent to this output. */
  ghost predicate TakenBefore(c: Config, a0: nat, moved: seq<(nat, nat)>, i: nat, j: nat)
    requires a0 < c.sources && i < c.sources && InRange(c, moved)
  {
    exists m :: 0 <= m < |moved| && moved[m].1 == j && Off(a0, moved[m].0, c.sources) < Off(a0, i, c.sources)
  }

  /** Why port i sent nothing to output j although its head fitted: it sent to another output, the output
      went to a port earlier in turn, or the port just before it sent and so its turn was passed over. */
  ghost predicate Excused(c: Config, a0: nat, moved: seq<(nat, nat)>, i: nat, j: nat)
    requires a0 < c.sources && i < c.sources && InRange(c, moved)
  {
    Sent(moved, i) || TakenBefore(c, a0, moved, i, j) || PassedOver(c, a0, moved, i)
  }

  ghost predicate PassedOver(c: Config, a0: nat, moved: seq<(nat, nat)>, i: nat)
    requires a0 < c.sources && i < c.sources && InRange(c, moved)
  {
    exists m :: 0 <= m < |moved| && Off(a0, moved[m].0, c.sources) + 1 == Off(a0, i, c.sources)
  }

  ghost predicate InRange(c: Config, moved: seq<(nat, nat)>) {
    forall m :: 0 <= m < |moved| ==> moved[m].0 < c.sources && moved[m].1 < c.dests
  }

  /** Senders come in the order of the turns, and no two in adjacent turns; `tried` is past the last, and
      past one round only if the last turn of the round sent. */
  ghost predicate Gaps(c: Config, a0: nat, moved: seq<(nat, nat)>, tried: nat)
    requires a0 < c.sources && InRange(c, moved)
  {
    && (forall m :: 0 <= m < |moved| ==> Off(a0, moved[m].0, c.sources) + 2 <= tried)
    && (forall m, l :: 0 <= m < l < |moved| ==> Off(a0, moved[m].0, c.sources) + 2 <= Off(a0, moved[l].0, c.sources))
    && tried <= c.sources + (if EndsRound(c, a0, moved) then 1 else 0)
  }

  /** The port whose turn is the last of the round sent. */
  ghost predicate EndsRound(c: Config, a0: nat, moved: seq<(nat, nat)>)
    requires a0 < c.sources && InRange(c, moved)
  {
    moved != [] && Off(a0, moved[|moved| - 1].0, c.sources) == c.sources - 1
  }

  lemma TakenIsBefore(c: Config, a0: nat, moved: seq<(nat, nat)>, tried: nat, i: nat, j: nat)
    requires a0 < c.sources && i < c.sources && InRange(c, moved) && Gaps(c, a0, moved, tried)
    requires Taken(moved, j) && Off(a0, i, c.sources) >= tried
    ensures TakenBefore(c, a0, moved, i, j)
  {
    hide Off;
  }

  /** Every port that had its turn, or was passed over, is excused. */
  ghost predicate AllExcused(c: Config, clock: int, x0: Crossbar, moved: seq<(nat, nat)>, tried: nat)
    requires CrossbarOK(c, x0) && InRange(c, moved)
  {
    forall i, j ::
      (&& 0 <= i < c.sources && 0 <= j < c.dests && Off(x0.arb, i, c.sources) < tried
       && Fits(c, clock, x0.virt[i][j], x0.status[j])) ==> Excused(c, x0.arb, moved, i, j)
  }

  /** The m-th sender takes the first queue in its rotation whose head fits an output not taken before. */
  ghost predicate FirstChoice(c: Config, clock: int, x0: Crossbar, moved: seq<(nat, nat)>, m: nat)
    requires CrossbarOK(c, x0) && InRange(c, moved) && m < |moved|
  {
    var (i, j) := moved[m];
    forall j' ::
      (&& 0 <= j' < c.dests && Off(x0.vq[i], j', c.dests) < Off(x0.vq[i], j, c.dests)
       && Fits(c, clock, x0.virt[i][j'], x0.status[j'])) ==> Taken(moved[..m], j')
  }

  ghost predicate FirstChoices(c: Config, clock: int, x0: Crossbar, moved: seq<(nat, nat)>)
    requires CrossbarOK(c, x0) && InRange(c, moved)
  {
    forall m :: 0 <= m < |moved| ==> FirstChoice(c, clock, x0, moved, m)
  }

  /** A sender's rotation stands at the queue it sent from, any other's where it stood. */
  ghost predicate Rotations(c: Config, x0: Crossbar, x: Crossbar)
    requires CrossbarOK(c, x0) && CrossbarOK(c, x)
  {
    && (forall m :: 0 <= m < |x.moved| ==> x.moved[m].0 < c.sources && x.vq[x.moved[m].0] == x.moved[m].1)
    && (forall i :: 0 <= i < c.sources && !Sent(x.moved, i) ==> x.vq[i] == x0.vq[i])
  }

  /** The arbiter's counters are right as far as it relies on them. */
  ghost predicate CountersRight(c: Config, clock: int, x0: Crossbar, x: Crossbar)
    requires CrossbarOK(c, x0) && CrossbarOK(c, x)
  {
    && x.free == CountFree(x.status) && x.arb == Advance(x0.arb, x.tried, c.sources)
    && (x.tried < c.sources ==> x.ready >= Around(RowCounts(x.virt, clock), x.arb, c.sources - x.tried))
  }

  ghost predicate InTurn(c: Config, clock: int, x0: Crossbar, x: Crossbar) {
    && Applied(c, clock, x0, x) && InRange(c, x.moved)
    && Gaps(c, x0.arb, x.moved, x.tried) && AllExcused(c, clock, x0, x.moved, x.tried)
    && FirstChoices(c, clock, x0, x.moved) && Rotations(c, x0, x) && CountersRight(c, clock, x0, x)
  }

  lemma {:induction false} FreeTaken(status: seq<nat>, j: nat)
    requires j < |status| && status[j] != 0
    ensures CountFree(status[j := 0]) == CountFree(status) - 1
    decreases |status|
  {
    var n := |status| - 1;
    if j < n {
      FreeTaken(status[..n], j);
      assert status[j := 0][..n] == status[..n][j := 0];
    } else {
      assert status[j := 0][..n] == status[..n];
    }
  }

  lemma {:induction false} AroundElsewhere(f: seq<nat>, g: seq<nat>, v: nat, m: nat, i: nat)
    requires v < |f| == |g| && i < |f| && Off(v, i, |f|) >= m && m <= |f|
    requires forall k :: 0 <= k < |f| && k != i ==> g[k] == f[k]
    ensures Around(g, v, m) == Around(f, v, m)
    decreases m
  {
    if m > 0 {
      OffNext(v, i, |f|);
      AroundElsewhere(f, g, Next(v, |f|), m - 1, i);
    }
  }

  /** A turn in which nothing is sent. */
  lemma NoneInTurn(c: Config, clock: int, x0: Crossbar, x: Crossbar, x': Crossbar)
    requires InTurn(c, clock, x0, x) && x.tried < c.sources && CrossbarOK(c, x')
    requires SendsNone(c, clock, x, x', c.dests) && Applied(c, clock, x0, NextPort(c, x'))
    requires x'.ready >= x.ready - RowReady(x.virt[x.arb], clock)
    ensures InTurn(c, clock, x0, NextPort(c, x'))
  {
    hide Off, Fits, Around, RowReady, RowCounts, CountFree, Advance, FirstChoice, Taken, AllExcused, FitsNow,
         Next, Gaps, CountersRight, EndsRound, Matching, MovedFits, VirtApplied, OutApplied;
    AdvanceIs(x.vq[x.arb], c.dests, c.dests);
    assert x'.vq == x.vq && NextPort(c, x').tried == x.tried + 1;
    NoneGaps(c, x0.arb, x.moved, x.tried);
    NoneCounters(c, clock, x0, x, x');
    NoneExcused(c, clock, x0, x);
    hide Applied;
  }

  lemma NoneGaps(c: Config, a0: nat, moved: seq<(nat, nat)>, tried: nat)
    requires a0 < c.sources && InRange(c, moved) && Gaps(c, a0, moved, tried) && tried < c.sources
    ensures Gaps(c, a0, moved, tried + 1)
  {
    hide Off, EndsRound;
  }

  lemma NoneCounters(c: Config, clock: int, x0: Crossbar, x: Crossbar, x': Crossbar)
    requires CrossbarOK(c, x0) && CrossbarOK(c, x) && CountersRight(c, clock, x0, x) && x.tried < c.sources
    requires x' == x.(ready := x'.ready) && x'.ready >= x.ready - RowReady(x.virt[x.arb], clock)
    ensures CountersRight(c, clock, x0, NextPort(c, x'))
  {
    hide Around, RowReady, CountFree, Advance;
    AdvanceLast(x0.arb, x.tried, c.sources);
    AroundUnfolds(RowCounts(x.virt, clock), x.arb, c.sources - x.tried);
    CountAt(x.virt, clock, x.arb);
  }

  /** Nothing fits where the turn is: so every output that would have fitted at the start is taken. */
  lemma NoneExcused(c: Config, clock: int, x0: Crossbar, x: Crossbar)
    requires InTurn(c, clock, x0, x) && x.tried < c.sources
    requires forall j :: 0 <= j < c.dests && Off(x.vq[x.arb], j, c.dests) < c.dests ==> !FitsNow(c, clock, x, j)
    ensures AllExcused(c, clock, x0, x.moved, x.tried + 1)
  {
    forall i, j | 0 <= i < c.sources && 0 <= j < c.dests && Off(x0.arb, i, c.sources) < x.tried + 1
                  && Fits(c, clock, x0.virt[i][j], x0.status[j])
      ensures Excused(c, x0.arb, x.moved, i, j)
    {
      if Off(x0.arb, i, c.sources) == x.tried {
        SameTurn(x0.arb, i, x.arb, c.sources);
        if Taken(x.moved, j) {
          TakenIsBefore(c, x0.arb, x.moved, x.tried, i, j);
        } else {
          UntakenFits(c, clock, x0, x, j);
        }
      }
    }
    hide Fits, Around, RowCounts, CountFree, Advance, FirstChoice, Matching, MovedFits, Gained, FitsNow, VirtApplied,
         OutApplied;
  }

  /** At its turn a port sees the heads and the statuses of the start, but for the outputs taken. */
  lemma UntakenFits(c: Config, clock: int, x0: Crossbar, x: Crossbar, j: nat)
    requires InTurn(c, clock, x0, x) && x.tried < c.sources && j < c.dests && !Taken(x.moved, j)
    ensures FitsNow(c, clock, x, j) <==> Fits(c, clock, x0.virt[x.arb][j], x0.status[j])
  {
    NotYetSent(c, clock, x0, x, x.arb);
    hide Fits, Around, RowCounts, CountFree, Advance, FirstChoice, Matching, MovedFits, Gained, Excused;
  }

  lemma SameTurn(a0: nat, i: nat, k: nat, n: nat)
    requires a0 < n && i < n && k < n
    ensures Off(a0, i, n) == Off(a0, k, n) <==> i == k
  {
  }

  /** The port whose turn it is has not sent before. */
  lemma NotYetSent(c: Config, clock: int, x0: Crossbar, x: Crossbar, i: nat)
    requires InTurn(c, clock, x0, x) && x.tried < c.sources && i == x.arb
    ensures !Sent(x.moved, i) && forall j :: (i, j) !in x.moved
  {
    forall m | 0 <= m < |x.moved| ensures x.moved[m].0 != i {
      assert Off(x0.arb, x.moved[m].0, c.sources) < x.tried;
    }
    hide Fits, Around, RowCounts, CountFree, Advance, FirstChoice, Matching, MovedFits, VirtApplied, OutApplied,
         Excused;
  }

  /** A turn in which the port sends. */
  lemma SentInTurn(c: Config, clock: int, x0: Crossbar, x: Crossbar, x': Crossbar, j: nat)
    requires InTurn(c, clock, x0, x) && x.tried < c.sources && CrossbarOK(c, x')
    requires SendsFirst(c, clock, x, x', c.dests, j) && Applied(c, clock, x0, NextPort(c, x'))
    requires x'.ready >= x.ready - RowReady(x.virt[x.arb], clock)
    ensures InTurn(c, clock, x0, NextPort(c, x'))
  {
    hide Off, Fits, Around, RowReady, RowCounts, CountFree, Advance, FirstChoices, Gaps, AllExcused, Rotations,
         FitsNow, Next, Matching, MovedFits, VirtApplied, OutApplied, EndsRound;
    var y := NextPort(c, x');
    assert y.moved == x.moved + [(x.arb, j)];
    SentGaps(c, x0.arb, x.moved, x.tried, x.arb, j);
    SentExcused(c, clock, x0, x, j);
    SentFirst(c, clock, x0, x, x', j);
    SentRotations(c, clock, x0, x, x', j);
    SentCounters(c, clock, x0, x, x', j);
    hide Applied, CountersRight;
  }

  lemma SentGaps(c: Config, a0: nat, moved: seq<(nat, nat)>, tried: nat, i: nat, j: nat)
    requires a0 < c.sources && InRange(c, moved) && Gaps(c, a0, moved, tried) && i < c.sources && j < c.dests
    requires Off(a0, i, c.sources) == tried < c.sources
    ensures InRange(c, moved + [(i, j)]) && Gaps(c, a0, moved + [(i, j)], tried + 2)
  {
    hide Off;
  }

  lemma ExcusedGrows(c: Config, a0: nat, moved: seq<(nat, nat)>, more: (nat, nat), i: nat, j: nat)
    requires a0 < c.sources && i < c.sources && InRange(c, moved) && InRange(c, moved + [more])
    requires Excused(c, a0, moved, i, j)
    ensures Excused(c, a0, moved + [more], i, j)
  {
    hide Off;
    var all := moved + [more];
    if m :| 0 <= m < |moved| && moved[m].0 == i { assert all[m].0 == i; }
    if m :| 0 <= m < |moved| && moved[m].1 == j && Off(a0, moved[m].0, c.sources) < Off(a0, i, c.sources) {
      assert all[m].1 == j;
    }
    if m :| 0 <= m < |moved| && Off(a0, moved[m].0, c.sources) + 1 == Off(a0, i, c.sources) {
      assert Off(a0, all[m].0, c.sources) + 1 == Off(a0, i, c.sources);
    }
  }

  lemma SentExcused(c: Config, clock: int, x0: Crossbar, x: Crossbar, j: nat)
    requires InTurn(c, clock, x0, x) && x.tried < c.sources && j < c.dests
    ensures InRange(c, x.moved + [(x.arb, j)])
    ensures AllExcused(c, clock, x0, x.moved + [(x.arb, j)], x.tried + 2)
  {
    hide Fits, Off, CountersRight, Rotations, FirstChoices, Matching, MovedFits, VirtApplied, OutApplied, Gaps;
    var all := x.moved + [(x.arb, j)];
    assert Off(x0.arb, x.arb, c.sources) == x.tried;
    assert all[|x.moved|] == (x.arb, j);
    forall i, j' | 0 <= i < c.sources && 0 <= j' < c.dests && Off(x0.arb, i, c.sources) < x.tried + 2
                   && Fits(c, clock, x0.virt[i][j'], x0.status[j'])
      ensures Excused(c, x0.arb, all, i, j')
    {
      if Off(x0.arb, i, c.sources) < x.tried {
        ExcusedGrows(c, x0.arb, x.moved, (x.arb, j), i, j');
      } else if Off(x0.arb, i, c.sources) == x.tried {
        SameTurn(x0.arb, i, x.arb, c.sources);
        assert all[|x.moved|].0 == i;
      } else {
        assert Off(x0.arb, all[|x.moved|].0, c.sources) + 1 == Off(x0.arb, i, c.sources);
        assert PassedOver(c, x0.arb, all, i);
      }
    }
  }

  lemma SentFirst(c: Config, clock: int, x0: Crossbar, x: Crossbar, x': Crossbar, j: nat)
    requires InTurn(c, clock, x0, x) && x.tried < c.sources && SendsFirst(c, clock, x, x', c.dests, j)
    ensures InRange(c, x.moved + [(x.arb, j)]) && FirstChoices(c, clock, x0, x.moved + [(x.arb, j)])
  {
    hide Fits, Off, CountersRight, Matching, MovedFits, VirtApplied, OutApplied, Gaps, AllExcused;
    var all := x.moved + [(x.arb, j)];
    NotYetSent(c, clock, x0, x, x.arb);
    assert x.vq[x.arb] == x0.vq[x.arb];
    forall j' | 0 <= j' < c.dests && Off(x0.vq[x.arb], j', c.dests) < Off(x0.vq[x.arb], j, c.dests)
                && Fits(c, clock, x0.virt[x.arb][j'], x0.status[j'])
      ensures Taken(x.moved, j')
    {
      if !Taken(x.moved, j') {
        UntakenFits(c, clock, x0, x, j');
      }
    }
    hide InTurn, SendsFirst, Taken;
    OneMoreChoice(c, clock, x0, x.moved, x.arb, j);
  }

  lemma OneMoreChoice(c: Config, clock: int, x0: Crossbar, moved: seq<(nat, nat)>, i: nat, j: nat)
    requires CrossbarOK(c, x0) && InRange(c, moved) && FirstChoices(c, clock, x0, moved) && i < c.sources && j < c.dests
    requires forall j' ::
               (&& 0 <= j' < c.dests && Off(x0.vq[i], j', c.dests) < Off(x0.vq[i], j, c.dests)
                && Fits(c, clock, x0.virt[i][j'], x0.status[j'])) ==> Taken(moved, j')
    ensures InRange(c, moved + [(i, j)]) && FirstChoices(c, clock, x0, moved + [(i, j)])
  {
    hide Fits, Off, Taken;
    var all := moved + [(i, j)];
    forall m | 0 <= m < |all| ensures FirstChoice(c, clock, x0, all, m) {
      assert all[..m] == moved[..m];
      if m < |moved| {
        assert FirstChoice(c, clock, x0, moved, m);
      } else {
        assert moved[..m] == moved;
      }
    }
  }

  lemma SentGrows(moved: seq<(nat, nat)>, more: (nat, nat), i: nat)
    ensures Sent(moved + [more], i) <==> Sent(moved, i) || i == more.0
  {
    var all := moved + [more];
    assert all[|moved|] == more;
    if m :| 0 <= m < |moved| && moved[m].0 == i { assert all[m].0 == i; }
  }

  lemma SentRotations(c: Config, clock: int, x0: Crossbar, x: Crossbar, x': Crossbar, j: nat)
    requires InTurn(c, clock, x0, x) && x.tried < c.sources && SendsFirst(c, clock, x, x', c.dests, j)
             && CrossbarOK(c, x')
    ensures Rotations(c, x0, NextPort(c, x'))
  {
    var all := x.moved + [(x.arb, j)];
    NotYetSent(c, clock, x0, x, x.arb);
    forall i | 0 <= i < c.sources && !Sent(all, i) ensures !Sent(x.moved, i) && i != x.arb {
      SentGrows(x.moved, (x.arb, j), i);
    }
    hide Fits, Off, CountersRight, Matching, MovedFits, VirtApplied, OutApplied, Gaps, FitsNow, AllExcused,
         FirstChoices, Sent;
  }

  lemma SentCounters(c: Config, clock: int, x0: Crossbar, x: Crossbar, x': Crossbar, j: nat)
    requires CrossbarOK(c, x0) && CrossbarOK(c, x) && CrossbarOK(c, x') && CountersRight(c, clock, x0, x)
    requires x.tried < c.sources && SendsFirst(c, clock, x, x', c.dests, j)
    requires x'.ready >= x.ready - RowReady(x.virt[x.arb], clock)
    ensures CountersRight(c, clock, x0, NextPort(c, x'))
  {
    var y, n := NextPort(c, x'), c.sources;
    var f, g := RowCounts(x.virt, clock), RowCounts(y.virt, clock);
    FreeTaken(x.status, j);
    AdvanceLast(x0.arb, x.tried, n);
    AdvanceLast(x0.arb, x.tried + 1, n);
    if x.tried + 2 < n {
      AroundUnfolds(f, x.arb, n - x.tried);
      AroundUnfolds(f, Next(x.arb, n), n - x.tried - 1);
      CountAt(x.virt, clock, x.arb);
      TwoOn(x.arb, n);
      AroundElsewhere(f, g, Next(Next(x.arb, n), n), n - x.tried - 2, x.arb);
    }
    hide Around, RowReady, CountFree, Advance, FitsNow, Off;
  }

  lemma TwoOn(v: nat, n: nat)
    requires v < n && n > 2
    ensures Off(Next(Next(v, n), n), v, n) == n - 2
  {
  }

  // ---------- The arbitration ----------

  lemma OneTurn(c: Config, clock: int, x0: Crossbar, x: Crossbar)
    requires InTurn(c, clock, x0, x) && x.tried < c.sources && CrossbarOK(c, x)
    ensures InTurn(c, clock, x0, NextPort(c, TryPort(c, clock, x, 0)))
  {
    hide TryPort, InTurn, Around, RowReady, Applied, Sum, SendsNone, SendsFirst, NextPort;
    var x' := TryPort(c, clock, x, 0);
    PortIsRight(c, clock, x, 0);
    OnceRound(DueCounts(x.virt[x.arb], clock), x.vq[x.arb]);
    RowReadyIsSum(x.virt[x.arb], clock);
    TurnApplies(c, clock, x0, x);
    if SendsNone(c, clock, x, x', c.dests) {
      NoneInTurn(c, clock, x0, x, x');
    } else {
      var j :| SendsFirst(c, clock, x, x', c.dests, j);
      SentInTurn(c, clock, x0, x, x', j);
    }
  }

  lemma TurnApplies(c: Config, clock: int, x0: Crossbar, x: Crossbar)
    requires InTurn(c, clock, x0, x) && x.tried < c.sources && CrossbarOK(c, x)
    ensures Applied(c, clock, x0, NextPort(c, TryPort(c, clock, x, 0)))
  {
    hide Applied, TryPort, NextPort, Gaps, AllExcused, FirstChoices, Rotations, CountersRight;
    TryPortApplies(c, clock, x0, x, 0);
    NextApplies(c, clock, x0, TryPort(c, clock, x, 0));
  }

  lemma TurnOK(c: Config, clock: int, x0: Crossbar, x: Crossbar)
    requires InTurn(c, clock, x0, x)
    ensures CrossbarOK(c, x0) && CrossbarOK(c, x) && InRange(c, x.moved)
  {
    hide Gaps, AllExcused, FirstChoices, Rotations, CountersRight;
  }

  lemma {:induction false} ArbitrateInTurn(c: Config, clock: int, x: Crossbar, x0: Crossbar)
    requires InTurn(c, clock, x0, x) && CrossbarOK(c, x)
    ensures InTurn(c, clock, x0, Arbitrate(c, clock, x)) && !Arbitrating(c, Arbitrate(c, clock, x))
    decreases c.sources - x.tried
  {
    hide InTurn, TryPort, NextPort;
    if Arbitrating(c, x) {
      TriedGrows(c, clock, x, 0);
      OneTurn(c, clock, x0, x);
      TriesMore(c, TryPort(c, clock, x, 0));
      ArbitrateInTurn(c, clock, NextPort(c, TryPort(c, clock, x, 0)), x0);
    }
  }

  lemma TriesMore(c: Config, x: Crossbar)
    requires CrossbarOK(c, x)
    ensures NextPort(c, x).tried == x.tried + 1
  {
  }

  lemma StartInTurn(c: Config, clock: int, s: Net)
    requires Routed(c, s)
    ensures InTurn(c, clock, StartOf(c, clock, s), StartOf(c, clock, s))
  {
    hide Applied, AllExcused, FirstChoices, Rotations, CountersRight, Gaps, VirtOK, EachTo, EachFrom;
    var x0 := StartOf(c, clock, s);
    StartApplies(c, clock, s);
    NobodySent(c, clock, x0);
    StartCounters(c, clock, s);
  }

  lemma NobodySent(c: Config, clock: int, x0: Crossbar)
    requires CrossbarOK(c, x0) && x0.moved == [] && x0.tried == 0
    ensures Gaps(c, x0.arb, x0.moved, x0.tried) && AllExcused(c, clock, x0, x0.moved, 0)
    ensures FirstChoices(c, clock, x0, x0.moved) && Rotations(c, x0, x0)
  {
    hide Fits, Excused;
  }

  lemma StartCounters(c: Config, clock: int, s: Net)
    requires Routed(c, s)
    ensures CountersRight(c, clock, StartOf(c, clock, s), StartOf(c, clock, s))
  {
    hide VirtOK, EachTo, EachFrom, CountFree, Around, RowReady, Sum, ReadyPackets, Statuses;
    var x0 := StartOf(c, clock, s);
    ReadyIsSum(x0.virt, clock);
    CountAt(x0.virt, clock, x0.arb);
    OnceRound(RowCounts(x0.virt, clock), x0.arb);
  }

  lemma {:induction false} NoneFree(status: seq<nat>, j: nat)
    requires j < |status| && CountFree(status) <= 0
    ensures status[j] == 0
    decreases |status|
  {
    if j < |status| - 1 {
      NoneFree(status[..|status| - 1], j);
    }
  }

  /** When the arbitration stops, every port is excused: also those that have not had their turn. */
  lemma EverybodyExcused(c: Config, clock: int, x0: Crossbar, x: Crossbar, i: nat, j: nat)
    requires InTurn(c, clock, x0, x) && CrossbarOK(c, x) && CrossbarOK(c, x0) && !Arbitrating(c, x)
    requires i < c.sources && j < c.dests && Fits(c, clock, x0.virt[i][j], x0.status[j])
    ensures InRange(c, x.moved) && Excused(c, x0.arb, x.moved, i, j)
  {
    hide Around, RowCounts, CountFree, Advance, FirstChoices, Rotations, Matching, MovedFits, Gained, TooLarge, Size;
    if Off(x0.arb, i, c.sources) >= x.tried && Taken(x.moved, j) {
      TakenIsBefore(c, x0.arb, x.moved, x.tried, i, j);
    } else if Off(x0.arb, i, c.sources) >= x.tried && !Sent(x.moved, i) {
      assert x.tried < c.sources && x.status[j] == x0.status[j] != 0;
      if x.free <= 0 {
        NoneFree(x.status, j);
      } else {
        NotMoved(x.moved, i, j);
        assert Due(x.virt[i][j], clock);
        StillAhead(x0.arb, x.arb, i, x.tried, c.sources);
        ReadyAhead(c, clock, x, i, j, c.sources - x.tried);
      }
    }
  }

  lemma NotMoved(moved: seq<(nat, nat)>, i: nat, j: nat)
    requires !Sent(moved, i)
    ensures (i, j) !in moved
  {
  }

  lemma StillAhead(a0: nat, arb: nat, i: nat, tried: nat, n: nat)
    requires a0 < n && arb < n && i < n && tried < n && Off(a0, arb, n) == tried <= Off(a0, i, n)
    ensures Off(arb, i, n) < n - tried
  {
  }

  /** Who sends: a matching in which the senders come in the order of the turns, no two in adjacent turns,
      and which leaves out nobody without excuse. A port whose head fits an output sends, unless a port
      earlier in turn took the output, or the port just before it sent and its turn was passed over. */
  lemma ArbiterIsAlmostMaximal(c: Config, clock: int, s: Net)
    requires Routed(c, s)
    ensures var x0 := StartOf(c, clock, s); var moved := Arbitrate(c, clock, x0).moved;
            && InRange(c, moved)
            && (forall m, l :: 0 <= m < l < |moved| ==>
                  Off(s.arb, moved[m].0, c.sources) + 2 <= Off(s.arb, moved[l].0, c.sources))
            && (forall i, j :: 0 <= i < c.sources && 0 <= j < c.dests && Fits(c, clock, x0.virt[i][j], x0.status[j]) ==>
                  Excused(c, s.arb, moved, i, j))
  {
    var x0 := StartOf(c, clock, s);
    StartInTurn(c, clock, s);
    ArbitrateInTurn(c, clock, x0, x0);
    var x := Arbitrate(c, clock, x0);
    TurnOK(c, clock, x0, x);
    hide InTurn, Arbitrate, Arbitrating, Excused, Fits, Off;
    forall i, j | 0 <= i < c.sources && 0 <= j < c.dests && Fits(c, clock, x0.virt[i][j], x0.status[j])
      ensures Excused(c, x0.arb, x.moved, i, j)
    {
      EverybodyExcused(c, clock, x0, x, i, j);
    }
    GapsOf(c, clock, x0, x);
  }

  lemma GapsOf(c: Config, clock: int, x0: Crossbar, x: Crossbar)
    requires InTurn(c, clock, x0, x)
    ensures CrossbarOK(c, x0) && InRange(c, x.moved) && Gaps(c, x0.arb, x.moved, x.tried)
  {
    hide Gaps, AllExcused, FirstChoices, Rotations, CountersRight;
  }

  /** What a sender sends: the first queue in its rotation whose head fits an output not taken by the
      senders before it. Its rotation then stands at that queue; the others' do not move. The next turn
      is as many turns on as have been had, two for each sender. */
  lemma ArbiterRotates(c: Config, clock: int, s: Net)
    requires Routed(c, s)
    ensures var x0 := StartOf(c, clock, s); var x := Arbitrate(c, clock, x0);
            && InRange(c, x.moved) && FirstChoices(c, clock, x0, x.moved) && Rotations(c, x0, x)
            && x.arb == Advance(s.arb, x.tried, c.sources)
            && (forall m :: 0 <= m < |x.moved| ==> Off(s.arb, x.moved[m].0, c.sources) + 2 <= x.tried)
            && x.tried <= c.sources + (if EndsRound(c, s.arb, x.moved) then 1 else 0)
  {
    var x0 := StartOf(c, clock, s);
    StartInTurn(c, clock, s);
    ArbitrateInTurn(c, clock, x0, x0);
    hide Arbitrate, Applied, AllExcused, FirstChoices, Rotations, Around, RowCounts, CountFree, Advance, Off;
  }
}
