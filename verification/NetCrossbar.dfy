/** One crossbar step: its transfers are a matching, exactly the matched heads move, something moves
    exactly when some due head fits its output, and no output outgrows its buffer (unless packets of
    128 bytes can slip in where only an RDMA packet was checked for). */
module NetCrossbar {
  import opened NetSpec

  // ---------- The matching ----------

  /** How many turns after `from` the arbiter comes to i. */
  function Off(from: nat, i: nat, n: nat): nat
    requires from < n && i < n
  {
    if i >= from then i - from else i + n - from
  }

  /** A due head that the output's free space admits. */
  predicate Fits(c: Config, clock: int, q: Queue, status: nat) {
    Due(q, clock) && status != 0 && !TooLarge(c, status, Size(c, q[0].mem))
  }

  /** At most one transfer per input port and at most one per output port. */
  ghost predicate Matching(moved: seq<(nat, nat)>) {
    forall a, b :: 0 <= a < b < |moved| ==> moved[a].0 != moved[b].0 && moved[a].1 != moved[b].1
  }

  /** The ports served so far lie before the arbiter's current turn. */
  ghost predicate Turns(c: Config, a0: nat, x: Crossbar)
    requires CrossbarOK(c, x) && a0 < c.sources
  {
    && (x.tried < c.sources ==> Off(a0, x.arb, c.sources) == x.tried)
    && (forall m :: 0 <= m < |x.moved| ==> x.moved[m].0 < c.sources && Off(a0, x.moved[m].0, c.sources) < x.tried)
  }

  /** Every transfer took a head that was due and fitted. */
  ghost predicate MovedFits(c: Config, clock: int, x0: Crossbar, moved: seq<(nat, nat)>)
    requires CrossbarOK(c, x0)
  {
    forall m :: 0 <= m < |moved| ==>
      && moved[m].0 < c.sources && moved[m].1 < c.dests
      && Fits(c, clock, x0.virt[moved[m].0][moved[m].1], x0.status[moved[m].1])
  }

  /** A matched queue has lost its head, every other queue is as it was. */
  ghost predicate VirtApplied(c: Config, x0: Crossbar, x: Crossbar)
    requires CrossbarOK(c, x0) && CrossbarOK(c, x)
  {
    forall i, j :: 0 <= i < c.sources && 0 <= j < c.dests ==>
      if (i, j) in x.moved then x0.virt[i][j] != [] && x.virt[i][j] == x0.virt[i][j][1..]
      else x.virt[i][j] == x0.virt[i][j]
  }

  /** A matched output has gained the head that was matched to it, every other output is as it was. */
  ghost predicate OutApplied(c: Config, x0: Crossbar, x: Crossbar)
    requires CrossbarOK(c, x0) && CrossbarOK(c, x)
  {
    && (forall j :: 0 <= j < c.dests ==>
          || (x.status[j] == x0.status[j] && x.out[j] == x0.out[j])
          || x.status[j] == 0)
    && (forall m :: 0 <= m < |x.moved| ==> Gained(c, x0, x, x.moved[m].0, x.moved[m].1))
    && (forall j :: 0 <= j < c.dests && (forall m :: 0 <= m < |x.moved| ==> x.moved[m].1 != j) ==>
          x.out[j] == x0.out[j] && x.status[j] == x0.status[j])
  }

  ghost predicate Gained(c: Config, x0: Crossbar, x: Crossbar, i: nat, j: nat)
    requires CrossbarOK(c, x0) && CrossbarOK(c, x)
  {
    && i < c.sources && j < c.dests && x0.virt[i][j] != []
    && x.status[j] == 0 && x.out[j] == x0.out[j] + [Crossed(c, x0.virt[i][j][0])]
  }

  /** The crossbar state is the start state with the matching applied. */
  ghost predicate Applied(c: Config, clock: int, x0: Crossbar, x: Crossbar) {
    && CrossbarOK(c, x0) && CrossbarOK(c, x)
    && Matching(x.moved) && MovedFits(c, clock, x0, x.moved) && Turns(c, x0.arb, x)
    && VirtApplied(c, x0, x) && OutApplied(c, x0, x)
  }

  lemma TransferApplies(c: Config, clock: int, x0: Crossbar, x: Crossbar)
    requires Applied(c, clock, x0, x) && x.tried < c.sources
    requires Fits(c, clock, x.virt[x.arb][x.vq[x.arb]], x.status[x.vq[x.arb]])
    ensures Applied(c, clock, x0, Transfer(c, x))
  {
    FreshPair(c, clock, x0, x);
    TransferOutputs(c, clock, x0, x);
    TransferVirtuals(c, clock, x0, x);
    TransferMatches(c, clock, x0, x);
    hide VirtApplied, OutApplied, MovedFits, Matching, Turns, Fits;
  }

  lemma TransferVirtuals(c: Config, clock: int, x0: Crossbar, x: Crossbar)
    requires CrossbarOK(c, x0) && CrossbarOK(c, x) && VirtApplied(c, x0, x)
    requires forall m :: 0 <= m < |x.moved| ==> x.moved[m].0 != x.arb
    requires x.virt[x.arb][x.vq[x.arb]] != []
    ensures VirtApplied(c, x0, Transfer(c, x))
  {
    var a, b := x.arb, x.vq[x.arb];
    var x' := Transfer(c, x);
    forall i, j | 0 <= i < c.sources && 0 <= j < c.dests
      ensures if (i, j) in x'.moved then x0.virt[i][j] != [] && x'.virt[i][j] == x0.virt[i][j][1..]
              else x'.virt[i][j] == x0.virt[i][j]
    {
      assert (i, j) in x'.moved <==> (i, j) in x.moved || (i, j) == (a, b);
    }
  }

  lemma TransferMatches(c: Config, clock: int, x0: Crossbar, x: Crossbar)
    requires CrossbarOK(c, x0) && CrossbarOK(c, x) && x.tried < c.sources
    requires Matching(x.moved) && MovedFits(c, clock, x0, x.moved) && Turns(c, x0.arb, x)
    requires forall m :: 0 <= m < |x.moved| ==> x.moved[m].0 != x.arb && x.moved[m].1 != x.vq[x.arb]
    requires x.virt[x.arb][x.vq[x.arb]] != []
    requires Fits(c, clock, x0.virt[x.arb][x.vq[x.arb]], x0.status[x.vq[x.arb]])
    ensures Matching(Transfer(c, x).moved) && MovedFits(c, clock, x0, Transfer(c, x).moved)
    ensures Turns(c, x0.arb, Transfer(c, x))
  {
    hide Fits;
  }

  /** The port and the output about to be matched are both unmatched so far. */
  lemma FreshPair(c: Config, clock: int, x0: Crossbar, x: Crossbar)
    requires Applied(c, clock, x0, x) && x.tried < c.sources && x.status[x.vq[x.arb]] != 0
    ensures forall m :: 0 <= m < |x.moved| ==> x.moved[m].0 != x.arb && x.moved[m].1 != x.vq[x.arb]
    ensures var i, j := x.arb, x.vq[x.arb];
            x.virt[i][j] == x0.virt[i][j] && x.out[j] == x0.out[j] && x.status[j] == x0.status[j]
  {
    forall m | 0 <= m < |x.moved| ensures x.moved[m].0 != x.arb && x.moved[m].1 != x.vq[x.arb] {
      assert Gained(c, x0, x, x.moved[m].0, x.moved[m].1);
    }
  }

  lemma TransferOutputs(c: Config, clock: int, x0: Crossbar, x: Crossbar)
    requires Applied(c, clock, x0, x) && x.tried < c.sources
    requires Fits(c, clock, x.virt[x.arb][x.vq[x.arb]], x.status[x.vq[x.arb]])
    ensures OutApplied(c, x0, Transfer(c, x))
  {
    var i, j := x.arb, x.vq[x.arb];
    var x' := Transfer(c, x);
    FreshPair(c, clock, x0, x);
    forall m | 0 <= m < |x'.moved| ensures Gained(c, x0, x', x'.moved[m].0, x'.moved[m].1) {
      if m < |x.moved| {
        assert Gained(c, x0, x, x.moved[m].0, x.moved[m].1);
      }
    }
    forall j' | 0 <= j' < c.dests && (forall m :: 0 <= m < |x'.moved| ==> x'.moved[m].1 != j')
      ensures x'.out[j'] == x0.out[j'] && x'.status[j'] == x0.status[j']
    {
      assert x'.moved[|x.moved|].1 == j;
      forall m | 0 <= m < |x.moved| ensures x.moved[m].1 != j' {
        assert x'.moved[m] == x.moved[m];
      }
    }
  }

  /** Whatever else the arbiter does, its bookkeeping does not disturb the matching. */
  lemma BookkeepingApplies(c: Config, clock: int, x0: Crossbar, x: Crossbar, x': Crossbar)
    requires Applied(c, clock, x0, x) && CrossbarOK(c, x')
    requires x' == x.(vq := x'.vq, ready := x'.ready)
    ensures Applied(c, clock, x0, x')
  {
    forall m | 0 <= m < |x'.moved| ensures Gained(c, x0, x', x'.moved[m].0, x'.moved[m].1) {
      assert Gained(c, x0, x, x.moved[m].0, x.moved[m].1);
    }
  }

  lemma {:induction false} TryPortApplies(c: Config, clock: int, x0: Crossbar, x: Crossbar, k: nat)
    requires Applied(c, clock, x0, x) && CrossbarOK(c, x) && x.tried < c.sources && k <= c.dests
    ensures Applied(c, clock, x0, TryPort(c, clock, x, k))
    decreases c.dests - k
  {
    hide Applied, Transfer, Size, TooLarge;
    if k < c.dests {
      var j := x.vq[x.arb];
      var q := x.virt[x.arb][j];
      if Due(q, clock) && x.status[j] != 0 {
        if TooLarge(c, x.status[j], Size(c, q[0].mem)) {
          var x1 := SkipQueue(c, x.(ready := x.ready - 1));
          BookkeepingApplies(c, clock, x0, x, x1);
          TryPortApplies(c, clock, x0, x1, k + 1);
        } else {
          TransferApplies(c, clock, x0, x);
        }
      } else {
        var x1 := SkipQueue(c, x);
        BookkeepingApplies(c, clock, x0, x, x1);
        TryPortApplies(c, clock, x0, x1, k + 1);
      }
    }
  }

  lemma NextApplies(c: Config, clock: int, x0: Crossbar, x: Crossbar)
    requires Applied(c, clock, x0, x)
    ensures Applied(c, clock, x0, NextPort(c, x))
  {
    var x' := NextPort(c, x);
    forall m | 0 <= m < |x'.moved| ensures Gained(c, x0, x', x'.moved[m].0, x'.moved[m].1) {
      assert Gained(c, x0, x, x.moved[m].0, x.moved[m].1);
    }
  }

  lemma {:induction false} ArbitrateApplies(c: Config, clock: int, x0: Crossbar, x: Crossbar)
    requires Applied(c, clock, x0, x)
    ensures Applied(c, clock, x0, Arbitrate(c, clock, x))
    decreases c.sources - x.tried
  {
    assert CrossbarOK(c, x);
    hide Applied;
    if Arbitrating(c, x) {
      TriedGrows(c, clock, x, 0);
      TryPortApplies(c, clock, x0, x, 0);
      NextApplies(c, clock, x0, TryPort(c, clock, x, 0));
      ArbitrateApplies(c, clock, x0, NextPort(c, TryPort(c, clock, x, 0)));
    }
  }
}
