/** Where translations come from, and when: the page table, the page faults under way and the pending
    translations of a run are exactly what its requests for translations make of them. */
module MissFaults {
  import opened Paging
  import opened MissSpec
  import opened MissTlb

  // ---------- Asking for a translation ----------

  /** A core's question, and the answer that the page-fault handler has ready. */
  datatype Question = Question(req: Request, a: Allocation)

  /** What an event makes its core ask for: the address of a fetch that misses the ITLB while no other miss
      is outstanding; or that of the oldest access, in an unstalled search, if it misses the DTLB, nothing
      waits for its page and the miss buffer has room. */
  function Wants(k: Config, c: Core, e: Event): Option<Question>
    requires CoreOK(c)
  {
    match e
    case FetchInstruction(req, a) =>
      if Lookup(c.itlb, req.vaddr, req.asid).None? && c.itlbMiss == [] then Some(Question(req, a)) else None
    case SearchDtlb(stalled, _, a) =>
      if stalled || c.buffer == [] then None
      else
        var req := c.buffer[0];
        if Lookup(c.dtlb, req.vaddr, req.asid).None? && !PageWaits(c.dtlbMiss, req.vaddr) && |c.dtlbMiss| < k.mshr
        then Some(Question(req, a)) else None
    case _ => None
  }

  /** The same, of the step that comes after a run. */
  function NextWants(k: Config, steps: seq<Step>, s: Step): Option<Question>
    requires k.Valid()
  {
    if s.core < k.cores then Wants(k, Run(k, steps).cores[s.core], s.event) else None
  }

  /** The first question about a page: which step asked it, and when. */
  datatype Asked = Asked(at: nat, clock: int, q: Question)

  /** The first question about the page at this place of the page table. */
  function FirstAsk(k: Config, steps: seq<Step>, p: nat): Option<Asked>
    requires k.Valid()
  {
    if steps == [] then None
    else
      var n := |steps| - 1;
      var before, w := FirstAsk(k, steps[..n], p), NextWants(k, steps[..n], steps[n]);
      if before.Some? then before
      else if w.Some? && PageOf(w.value.req.vaddr) == p then Some(Asked(n, steps[n].clock, w.value))
      else None
  }

  /** When the fault that a first question raises is over. */
  function FaultEnds(k: Config, f: Asked): int {
    f.clock + (if f.q.a.local then k.faultLatency else k.chunkLatency)
  }

  /** The step clears away the faults that are over by then. */
  predicate Clears(k: Config, s: Step, end: int) {
    s.core < k.cores && s.event.ExpireFaults? && end <= s.clock
  }

  ghost predicate Cleared(k: Config, steps: seq<Step>, f: Asked) {
    exists t :: f.at < t < |steps| && Clears(k, steps[t], FaultEnds(k, f))
  }

  /** The page, by its untruncated number, has raised a fault that nothing has cleared away. */
  ghost predicate UnderWay(k: Config, steps: seq<Step>, page: nat)
    requires k.Valid()
  {
    var f := FirstAsk(k, steps, page % PAGES);
    f.Some? && TlbTag(f.value.q.req.vaddr) == page && !Cleared(k, steps, f.value)
  }

  // ---------- The page table and the faults ----------

  /** The page table maps the page iff a question about it was asked, to the frame of the first answer. */
  ghost predicate Mapped(k: Config, steps: seq<Step>, p: nat)
    requires k.Valid()
  {
    var f, m := FirstAsk(k, steps, p), Run(k, steps).memory;
    if f.Some? then p in m.table && m.table[p] == f.value.q.a.frame else p !in m.table
  }

  /** The page is listed as faulting iff its fault is under way, with the frame and the end of that fault. */
  ghost predicate Listed(k: Config, steps: seq<Step>, page: nat)
    requires k.Valid()
  {
    var m := Run(k, steps).memory;
    if UnderWay(k, steps, page) then
      var f := FirstAsk(k, steps, page % PAGES).value;
      page in m.faults && m.faults[page] == Fault(f.q.a.frame, FaultEnds(k, f))
    else page !in m.faults
  }

  lemma MemoryAfter(k: Config, m: Memory, c: Core, clock: int, e: Event)
    requires CoreOK(c)
    ensures var m', w := CoreStep(k, m, c, clock, e).0, Wants(k, c, e);
            m' == if w.Some? then Resolve(k, m, clock, w.value.req.vaddr, w.value.a).memory
                  else if e.ExpireFaults? then Expire(m, clock) else m
  {
    hide Resolve, Lookup, PageWaits, Expire, Complete, Respond, CacheMiss, Refill, FirstReady;
  }

  lemma RunMemory(k: Config, steps: seq<Step>)
    requires k.Valid() && steps != []
    ensures var n := |steps| - 1;
            var m, m', s, w := Run(k, steps[..n]).memory, Run(k, steps).memory, steps[n],
                               NextWants(k, steps[..n], steps[n]);
            m' == if w.Some? then Resolve(k, m, s.clock, w.value.req.vaddr, w.value.a).memory
                  else if s.core < k.cores && s.event.ExpireFaults? then Expire(m, s.clock) else m
  {
    hide CoreStep, Wants, Resolve, Expire;
    var n := |steps| - 1;
    var before, s := Run(k, steps[..n]), steps[n];
    if s.core < k.cores {
      MemoryAfter(k, before.memory, before.cores[s.core], s.clock, s.event);
    }
  }

  lemma {:induction false} FirstAskPast(k: Config, steps: seq<Step>, p: nat)
    requires k.Valid()
    ensures FirstAsk(k, steps, p).Some? ==> FirstAsk(k, steps, p).value.at < |steps|
    decreases |steps|
  {
    hide NextWants, PageOf;
    if steps != [] {
      FirstAskPast(k, steps[..|steps| - 1], p);
    }
  }

  lemma ClearedNext(k: Config, steps: seq<Step>, f: Asked)
    requires steps != [] && f.at < |steps|
    ensures var n := |steps| - 1;
            Cleared(k, steps, f) <==> f.at < n && (Cleared(k, steps[..n], f) || Clears(k, steps[n], FaultEnds(k, f)))
  {
    var n := |steps| - 1;
    var front := steps[..n];
    hide Clears, FaultEnds;
    if t :| f.at < t < |steps| && Clears(k, steps[t], FaultEnds(k, f)) {
      assert t < n ==> front[t] == steps[t];
    }
  }

  lemma NothingYet(k: Config, p: nat)
    requires k.Valid()
    ensures Mapped(k, [], p) && Listed(k, [], p)
  {
  }

  lemma FaultsMapped(k: Config, steps: seq<Step>)
    requires k.Valid()
    ensures forall page :: page in Run(k, steps).memory.faults ==> page % PAGES in Run(k, steps).memory.table
  {
    RunBacked(k, steps);
    hide Run;
    var m := Run(k, steps).memory;
    forall page | page in m.faults ensures page % PAGES in m.table {
      assert Backed(m, page, m.faults[page].frame);
    }
  }

  lemma {:induction false} TableHistory(k: Config, steps: seq<Step>, p: nat)
    requires k.Valid()
    ensures Mapped(k, steps, p)
    decreases |steps|
  {
    hide Run, NextWants;
    if steps == [] {
      NothingYet(k, p);
    } else {
      var n := |steps| - 1;
      TableHistory(k, steps[..n], p);
      RunMemory(k, steps);
      FaultsMapped(k, steps[..n]);
    }
  }

  lemma {:induction false} FaultHistory(k: Config, steps: seq<Step>, page: nat)
    requires k.Valid()
    ensures Listed(k, steps, page)
    decreases |steps|
  {
    hide Run, NextWants, Cleared, FaultEnds;
    if steps == [] {
      NothingYet(k, page);
    } else {
      var n := |steps| - 1;
      FaultHistory(k, steps[..n], page);
      TableHistory(k, steps[..n], page % PAGES);
      RunMemory(k, steps);
      FaultsMapped(k, steps[..n]);
      ClearingAsksNothing(k, steps[..n], steps[n]);
      FirstAskPast(k, steps, page % PAGES);
      FirstAskPast(k, steps[..n], page % PAGES);
      var f := FirstAsk(k, steps, page % PAGES);
      if f.Some? {
        ClearedNext(k, steps, f.value);
        RaisedFault(k, f.value);
      }
    }
  }

  lemma ClearingAsksNothing(k: Config, steps: seq<Step>, s: Step)
    requires k.Valid()
    ensures s.event.ExpireFaults? ==> NextWants(k, steps, s).None?
  {
  }

  lemma RaisedFault(k: Config, f: Asked)
    ensures FaultEnds(k, f) == f.clock + (if f.q.a.local then k.faultLatency else k.chunkLatency)
  {
  }

  /** In every run: a page is mapped exactly if a core has ever asked for its translation, to the frame of the
      first answer, and is listed as faulting exactly from that question on until the first clearing at or
      after the fault's end, which is a fault's latency after the question, or a chunk's if the frame is
      not local. */
  lemma MemoryIsHistory(k: Config, steps: seq<Step>, page: nat)
    requires k.Valid()
    ensures Mapped(k, steps, page % PAGES) && Listed(k, steps, page)
  {
    TableHistory(k, steps, page % PAGES);
    FaultHistory(k, steps, page);
  }

  // ---------- Pending translations ----------

  /** What a question asked after a run must lead to. */
  ghost function Expected(k: Config, steps: seq<Step>, clock: int, q: Question): Pending
    requires k.Valid()
  {
    var f := FirstAsk(k, steps, PageOf(q.req.vaddr));
    if f.None? then Pending(q.req, q.a.frame, clock + (if q.a.newChunk then k.chunkLatency else k.faultLatency))
    else
      Pending(q.req, f.value.q.a.frame,
              if UnderWay(k, steps, TlbTag(q.req.vaddr)) then FaultEnds(k, f.value) else clock + k.walkLatency)
  }

  lemma ResolveExpected(k: Config, steps: seq<Step>, clock: int, q: Question)
    requires k.Valid()
    ensures var r := Resolve(k, Run(k, steps).memory, clock, q.req.vaddr, q.a);
            Expected(k, steps, clock, q) == Pending(q.req, r.frame, r.ready)
  {
    MemoryIsHistory(k, steps, TlbTag(q.req.vaddr));
    FaultsMapped(k, steps);
    hide Run, FirstAsk, Cleared, FaultEnds;
  }

  /** What a step does to the translations that its core waits for. */
  ghost predicate Waits(c: Core, c': Core, e: Event, asked: seq<Pending>) {
    && (c'.itlbMiss == c.itlbMiss + (if e.FetchInstruction? then asked else []) || (e.UpdateItlb? && c'.itlbMiss == []))
    && (|| c'.dtlbMiss == c.dtlbMiss + (if e.SearchDtlb? then asked else [])
        || (e.UpdateDtlb? && exists i :: 0 <= i < |c.dtlbMiss| && c'.dtlbMiss == c.dtlbMiss[..i] + c.dtlbMiss[i + 1..]))
  }

  lemma StepWaits(k: Config, m: Memory, c: Core, clock: int, e: Event)
    requires CoreOK(c)
    ensures var w := Wants(k, c, e);
            Waits(c, CoreStep(k, m, c, clock, e).1, e,
                  if w.None? then []
                  else var r := Resolve(k, m, clock, w.value.req.vaddr, w.value.a);
                       [Pending(w.value.req, r.frame, r.ready)])
  {
    hide Resolve, Lookup, PageWaits, Expire, Complete, Respond, CacheMiss, Refill, FirstReady;
    assert c.itlbMiss + [] == c.itlbMiss && c.dtlbMiss + [] == c.dtlbMiss;
  }

  /** What the step after a run adds to its core's waiting translations. */
  ghost function NewPending(k: Config, steps: seq<Step>, s: Step): seq<Pending>
    requires k.Valid()
  {
    var w := NextWants(k, steps, s);
    if w.None? then [] else [Expected(k, steps, s.clock, w.value)]
  }

  /** Every step of every run: a core that asks for a translation waits for the expected frame until the
      expected time, and no core waits for anything else. */
  lemma WaitsAsExpected(k: Config, steps: seq<Step>, s: Step)
    requires k.Valid() && s.core < k.cores
    ensures Waits(Run(k, steps).cores[s.core], Do(k, Run(k, steps), s).cores[s.core], s.event, NewPending(k, steps, s))
  {
    var n := Run(k, steps);
    StepWaits(k, n.memory, n.cores[s.core], s.clock, s.event);
    var w := NextWants(k, steps, s);
    if w.Some? {
      ResolveExpected(k, steps, s.clock, w.value);
    }
    hide CoreStep, Waits, Expected, Resolve, Wants, Run;
  }

  /** The t-th step asked for this translation. */
  ghost predicate CameFrom(k: Config, steps: seq<Step>, core: nat, t: nat, p: Pending)
    requires k.Valid()
  {
    t < |steps| && steps[t].core == core && NewPending(k, steps[..t], steps[t]) == [p]
  }

  ghost predicate Originates(k: Config, steps: seq<Step>, core: nat, p: Pending)
    requires k.Valid()
  {
    exists t: nat :: CameFrom(k, steps, core, t, p)
  }

  ghost predicate AllOriginate(k: Config, steps: seq<Step>, core: nat, misses: seq<Pending>)
    requires k.Valid()
  {
    forall i :: 0 <= i < |misses| ==> Originates(k, steps, core, misses[i])
  }

  lemma OriginStays(k: Config, steps: seq<Step>, core: nat, misses: seq<Pending>)
    requires k.Valid() && steps != [] && AllOriginate(k, steps[..|steps| - 1], core, misses)
    ensures AllOriginate(k, steps, core, misses)
  {
    hide NewPending;
    var front := steps[..|steps| - 1];
    forall i | 0 <= i < |misses| ensures Originates(k, steps, core, misses[i]) {
      assert Originates(k, front, core, misses[i]);
      var t: nat :| CameFrom(k, front, core, t, misses[i]);
      assert front[..t] == steps[..t] && front[t] == steps[t];
      assert CameFrom(k, steps, core, t, misses[i]);
    }
  }

  lemma NewOriginates(k: Config, steps: seq<Step>, core: nat)
    requires k.Valid() && steps != [] && steps[|steps| - 1].core == core
    ensures AllOriginate(k, steps, core, NewPending(k, steps[..|steps| - 1], steps[|steps| - 1]))
  {
    var n := |steps| - 1;
    var asked := NewPending(k, steps[..n], steps[n]);
    hide Expected, NextWants;
    if asked != [] {
      assert asked == [asked[0]];
      assert CameFrom(k, steps, core, n, asked[0]);
    }
  }

  lemma OriginsKept(k: Config, steps: seq<Step>, core: nat, c: Core, c': Core, e: Event, asked: seq<Pending>)
    requires k.Valid() && Waits(c, c', e, asked) && AllOriginate(k, steps, core, asked)
    requires AllOriginate(k, steps, core, c.itlbMiss) && AllOriginate(k, steps, core, c.dtlbMiss)
    ensures AllOriginate(k, steps, core, c'.itlbMiss) && AllOriginate(k, steps, core, c'.dtlbMiss)
  {
    hide Originates;
  }

  /** In every run, each translation that a core waits for, for fetches and for accesses, is the expected one
      of a step of that core that asked for it. */
  lemma {:induction false} PendingsOriginate(k: Config, steps: seq<Step>, core: nat)
    requires k.Valid() && core < k.cores
    ensures var c := Run(k, steps).cores[core];
            AllOriginate(k, steps, core, c.itlbMiss) && AllOriginate(k, steps, core, c.dtlbMiss)
    decreases |steps|
  {
    hide Originates, Waits, CoreStep, NewPending;
    if steps != [] {
      var n := |steps| - 1;
      var front, before := steps[..n], Run(k, steps[..n]).cores[core];
      PendingsOriginate(k, front, core);
      OriginStays(k, steps, core, before.itlbMiss);
      OriginStays(k, steps, core, before.dtlbMiss);
      if steps[n].core == core {
        WaitsAsExpected(k, front, steps[n]);
        NewOriginates(k, steps, core);
        OriginsKept(k, steps, core, before, Run(k, steps).cores[core], steps[n].event, NewPending(k, front, steps[n]));
      }
    }
  }
}
