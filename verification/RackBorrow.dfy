/** How much a node borrows: a chunk when a borrowed page is needed and none is free, and at no other time. */
module RackBorrow {
  import opened Paging
  import opened AddrSpec
  import opened RackSpec
  import opened RackSafety

  /** Fewer than a chunk's pages more than are in use, in whole chunks, one region each. */
  ghost predicate BorrowsLittle(c: Config, s: Space) {
    && s.remotePages < s.remoteUsed + c.chunk
    && s.remotePages == |s.regions| * c.chunk
  }

  lemma OneChunkMore(n: nat, chunk: nat)
    ensures (n + 1) * chunk == n * chunk + chunk
  {
  }

  lemma FaultBorrows(c: Config, s: Space, p: Pool, table: map<nat, nat>, faults: nat, page: nat)
    requires c.Valid() && BorrowsLittle(c, s) && page !in table
    ensures BorrowsLittle(c, FaultOn(c, s, p, table, faults, page).space)
  {
    OneChunkMore(|s.regions|, c.chunk);
  }

  lemma NothingBorrowed(c: Config, n: nat)
    requires c.Valid() && n < c.nodes
    ensures BorrowsLittle(c, Start(c).spaces[n])
  {
  }

  lemma {:induction false} BorrowsInRun(c: Config, steps: seq<Step>, n: nat)
    requires c.Valid() && (forall i :: 0 <= i < |steps| ==> StepOK(c, steps[i])) && n < c.nodes
    ensures BorrowsLittle(c, Run(c, steps).spaces[n])
    decreases |steps|
  {
    hide BorrowsLittle, FaultOn;
    if steps == [] {
      NothingBorrowed(c, n);
    } else {
      var last := |steps| - 1;
      BorrowsInRun(c, steps[..last], n);
      var s, step := Run(c, steps[..last]), steps[last];
      if step.node == n && PageOf(step.vaddr) !in s.tables[n][step.process] {
        FaultBorrows(c, s.spaces[n], s.pools[step.pick], s.tables[n][step.process], s.faults[n], PageOf(step.vaddr));
      }
    }
  }

  /** In every run, its requests granted or refused, a node has borrowed whole chunks, and no chunk more
      than the borrowed pages in use need. */
  lemma BorrowsOnlyWhenNeeded(c: Config, steps: seq<Step>, n: nat)
    requires c.Valid() && (forall i :: 0 <= i < |steps| ==> StepOK(c, steps[i])) && n < c.nodes
    ensures var s := Run(c, steps).spaces[n];
            s.remotePages < s.remoteUsed + c.chunk && s.remotePages == |s.regions| * c.chunk
  {
    BorrowsInRun(c, steps, n);
  }

  /** Dividing by the chunk and rounding up. */
  function Chunks(c: Config, pages: nat): nat
    requires c.Valid()
  {
    (pages + c.chunk - 1) / c.chunk
  }

  lemma RoundsUp(c: Config, pages: nat, n: nat)
    requires c.Valid() && n * c.chunk < pages + c.chunk && pages <= n * c.chunk
    ensures Chunks(c, pages) == n
  {
    var x, q := pages + c.chunk - 1, Chunks(c, pages);
    var r := x - q * c.chunk;
    assert 0 <= r < c.chunk by { Quotient(x, c.chunk); }
    if q < n {
      Widens(q + 1, n, c.chunk);
      OneChunkMore(q, c.chunk);
    } else if q > n {
      Widens(n + 1, q, c.chunk);
      OneChunkMore(n, c.chunk);
    }
  }

  lemma Quotient(x: nat, d: nat)
    requires d >= 1
    ensures 0 <= x - x / d * d < d
  {
    assert x == d * (x / d) + x % d;
  }

  lemma Widens(a: nat, b: nat, d: nat)
    requires a <= b
    ensures a * d <= b * d
  {
  }

  /** In a run whose chunk requests are all met, a node has borrowed exactly as many chunks as its borrowed
      pages in use fill, the last one possibly in part. */
  lemma BorrowsExactly(c: Config, steps: seq<Step>, n: nat)
    requires c.Valid() && c.localPages <= PAGES
    requires (forall i :: 0 <= i < |steps| ==> StepOK(c, steps[i])) && AllServed(c, steps) && n < c.nodes
    ensures var s := Run(c, steps).spaces[n];
            s.remoteUsed <= s.remotePages && |s.regions| == Chunks(c, s.remoteUsed)
  {
    BorrowsInRun(c, steps, n);
    RunKeeps(c, steps);
    var s := Run(c, steps).spaces[n];
    assert SpaceOK(s);
    hide Run, AllServed, Tiles, Inv;
    RoundsUp(c, s.remoteUsed, |s.regions|);
  }
}
