/** The TLBs, the miss buffers and the list of page faults always agree with the page table. */
module MissTlb {
  import opened Paging
  import opened RotatingSet
  import opened MissSpec

  /** The page table maps the page with this (untruncated) number to this frame. */
  ghost predicate Backed(m: Memory, page: nat, frame: nat) {
    page % PAGES in m.table && m.table[page % PAGES] == frame
  }

  ghost predicate SetBacked(s: Set<nat>, m: Memory) {
    forall w :: 0 <= w < |s.ways| && s.ways[w].valid ==> Backed(m, s.ways[w].tag, s.ways[w].data)
  }

  ghost predicate TlbBacked(t: Tlb, m: Memory) {
    forall i :: 0 <= i < |t| ==> SetBacked(t[i], m)
  }

  ghost predicate PendingBacked(misses: seq<Pending>, m: Memory) {
    forall i :: 0 <= i < |misses| ==> Backed(m, TlbTag(misses[i].req.vaddr), misses[i].frame)
  }

  ghost predicate FaultsBacked(m: Memory) {
    forall p :: p in m.faults ==> Backed(m, p, m.faults[p].frame)
  }

  ghost predicate CoreBacked(c: Core, m: Memory) {
    TlbBacked(c.itlb, m) && TlbBacked(c.dtlb, m) && PendingBacked(c.itlbMiss, m) && PendingBacked(c.dtlbMiss, m)
  }

  ghost predicate NodeBacked(n: Node) {
    FaultsBacked(n.memory) && forall i :: 0 <= i < |n.cores| ==> CoreBacked(n.cores[i], n.memory)
  }

  /** Mappings are only ever added. */
  ghost predicate Grows(m: Memory, m': Memory) {
    forall p :: p in m.table ==> p in m'.table && m'.table[p] == m.table[p]
  }

  lemma CoreStaysBacked(c: Core, m: Memory, m': Memory)
    requires CoreBacked(c, m) && Grows(m, m')
    ensures CoreBacked(c, m')
  {
    forall i | 0 <= i < |c.itlb| ensures SetBacked(c.itlb[i], m') {
      assert SetBacked(c.itlb[i], m);
    }
    forall i | 0 <= i < |c.dtlb| ensures SetBacked(c.dtlb[i], m') {
      assert SetBacked(c.dtlb[i], m);
    }
  }

  /** Resolving a miss gives the table's frame, installing one if there was none. */
  lemma ResolveBacked(k: Config, m: Memory, clock: int, vaddr: nat, a: Allocation)
    requires FaultsBacked(m)
    ensures var r := Resolve(k, m, clock, vaddr, a);
            Grows(m, r.memory) && FaultsBacked(r.memory) && Backed(r.memory, TlbTag(vaddr), r.frame)
  {
    var r := Resolve(k, m, clock, vaddr, a);
    forall p | p in r.memory.faults ensures Backed(r.memory, p, r.memory.faults[p].frame) {
      if p in m.faults {
        assert Backed(m, p, m.faults[p].frame);
      }
    }
  }

  lemma RefillBacked(t: Tlb, vaddr: nat, asid: int, frame: nat, m: Memory)
    requires TlbOK(t) && TlbBacked(t, m) && Backed(m, TlbTag(vaddr), frame)
    ensures TlbBacked(Refill(t, vaddr, asid, frame), m)
  {
    var i := TlbTag(vaddr) % |t|;
    assert SetBacked(t[i], m);
    assert SetBacked(Fill(t[i], TlbTag(vaddr), asid, frame), m);
  }

  lemma StepBacked(k: Config, m: Memory, c: Core, clock: int, e: Event)
    requires CoreOK(c) && FaultsBacked(m) && CoreBacked(c, m)
    ensures var (m', c') := CoreStep(k, m, c, clock, e); Grows(m, m') && FaultsBacked(m') && CoreBacked(c', m')
  {
    hide TlbBacked, Refill, Lookup, PageWaits, CacheMiss, Complete, Respond, LineMiss;
    match e {
      case FetchInstruction(req, a) =>
        ResolveBacked(k, m, clock, req.vaddr, a);
        CoreStaysBacked(c, m, Resolve(k, m, clock, req.vaddr, a).memory);
      case UpdateItlb =>
        if |c.itlbMiss| == 1 {
          var p := c.itlbMiss[0];
          RefillBacked(c.itlb, p.req.vaddr, p.req.asid, p.frame, m);
        }
      case SearchDtlb(stalled, hit, a) =>
        if c.buffer != [] {
          ResolveBacked(k, m, clock, c.buffer[0].vaddr, a);
          CoreStaysBacked(c, m, Resolve(k, m, clock, c.buffer[0].vaddr, a).memory);
        }
      case UpdateDtlb(hit) =>
        var i := FirstReady(c.dtlbMiss, clock, 0);
        if i >= 0 {
          var p := c.dtlbMiss[i];
          RefillBacked(c.dtlb, p.req.vaddr, p.req.asid, p.frame, m);
        }
      case ExpireFaults => CoreStaysBacked(c, m, Expire(m, clock));
      case _ =>
    }
  }

  lemma DoBacked(k: Config, n: Node, s: Step)
    requires NodeOK(n) && NodeBacked(n)
    ensures NodeBacked(Do(k, n, s)) && Grows(n.memory, Do(k, n, s).memory)
  {
    if s.core < |n.cores| {
      StepBacked(k, n.memory, n.cores[s.core], s.clock, s.event);
      var (m', c') := CoreStep(k, n.memory, n.cores[s.core], s.clock, s.event);
      hide CoreBacked, CoreStep;
      forall i | 0 <= i < |n.cores| ensures CoreBacked(Do(k, n, s).cores[i], m') {
        if i != s.core {
          CoreStaysBacked(n.cores[i], n.memory, m');
        }
      }
    }
  }

  lemma {:induction false} RunBacked(k: Config, steps: seq<Step>)
    requires k.Valid()
    ensures NodeBacked(Run(k, steps))
    decreases |steps|
  {
    if steps != [] {
      hide NodeBacked, Do;
      RunBacked(k, steps[..|steps| - 1]);
      DoBacked(k, Run(k, steps[..|steps| - 1]), steps[|steps| - 1]);
    }
  }

  /** In every node that any run of fetches, loads, stores, faults, refills and expiries leads to: a TLB
      hit, of either TLB of any core, gives the frame that walking the page table gives. */
  lemma TlbHitsAgree(k: Config, steps: seq<Step>, core: nat, vaddr: nat, asid: int)
    requires k.Valid() && core < k.cores
    ensures var n := Run(k, steps);
            var c := n.cores[core];
            && (Lookup(c.itlb, vaddr, asid).Some? ==>
                  Backed(n.memory, TlbTag(vaddr), Lookup(c.itlb, vaddr, asid).value))
            && (Lookup(c.dtlb, vaddr, asid).Some? ==>
                  Backed(n.memory, TlbTag(vaddr), Lookup(c.dtlb, vaddr, asid).value))
  {
    RunBacked(k, steps);
    var n := Run(k, steps);
    hide Run;
    assert CoreBacked(n.cores[core], n.memory);
    LookupBacked(n.cores[core].itlb, vaddr, asid, n.memory);
    LookupBacked(n.cores[core].dtlb, vaddr, asid, n.memory);
  }

  lemma LookupBacked(t: Tlb, vaddr: nat, asid: int, m: Memory)
    requires TlbOK(t) && TlbBacked(t, m)
    ensures Lookup(t, vaddr, asid).Some? ==> Backed(m, TlbTag(vaddr), Lookup(t, vaddr, asid).value)
  {
    assert SetBacked(t[TlbTag(vaddr) % |t|], m);
  }

  /** And so does every translation that a miss buffer holds, and every page fault under way. */
  lemma PendingFramesAgree(k: Config, steps: seq<Step>, core: nat, i: nat)
    requires k.Valid() && core < k.cores
    ensures var n := Run(k, steps);
            var c := n.cores[core];
            && (i < |c.itlbMiss| ==> Backed(n.memory, TlbTag(c.itlbMiss[i].req.vaddr), c.itlbMiss[i].frame))
            && (i < |c.dtlbMiss| ==> Backed(n.memory, TlbTag(c.dtlbMiss[i].req.vaddr), c.dtlbMiss[i].frame))
            && (i in n.memory.faults ==> Backed(n.memory, i, n.memory.faults[i].frame))
  {
    RunBacked(k, steps);
    var n := Run(k, steps);
    hide Run;
    assert CoreBacked(n.cores[core], n.memory);
  }
}
