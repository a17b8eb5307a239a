/** The load/store buffer and the two TLBs' miss buffers in a run: what leaves them, when, and for where. */
module MissBuffer {
  import opened RotatingSet
  import opened MissSpec
  import opened MissFlow
  import opened MissReached

  // ---------- The load/store buffer ----------

  ghost predicate InDtlb(c: Core)
    requires CoreOK(c) && c.buffer != []
  {
    Lookup(c.dtlb, c.buffer[0].vaddr, c.buffer[0].asid).Some?
  }

  /** The event takes the oldest access from the buffer: an unstalled search, if the access is in the DTLB, no
      refill has just gone before it and it hits the cache or the MSHR has room; or, if it is not in the DTLB,
      nothing waits for its page and the miss buffer has room. */
  ghost predicate Takes(k: Config, c: Core, e: Event)
    requires CoreOK(c)
  {
    && e.SearchDtlb? && !e.stalled && c.buffer != []
    && if InDtlb(c) then !c.passed && (e.hit || |c.mshr| < k.mshr)
       else !PageWaits(c.dtlbMiss, c.buffer[0].vaddr) && |c.dtlbMiss| < k.mshr
  }

  /** Where an access that is taken goes: to the responses, for a cache latency; into the MSHR; or to the end
      of the miss buffer. */
  ghost predicate GoesOn(k: Config, c: Core, c': Core, clock: int, e: Event)
    requires CoreOK(c) && Takes(k, c, e)
  {
    var req, n := c.buffer[0], |c.dtlbMiss|;
    if !InDtlb(c) then
      |c'.dtlbMiss| == n + 1 && c'.dtlbMiss[..n] == c.dtlbMiss && c'.dtlbMiss[n].req == req
    else if e.hit then c'.responses == c.responses + [Response(req.id, clock + k.l1Hit)]
    else InMshr(c'.mshr, req.id) == InMshr(c.mshr, req.id) + 1
  }

  lemma TakesOldest(k: Config, m: Memory, c: Core, clock: int, e: Event)
    requires CoreOK(c)
    ensures var c' := CoreStep(k, m, c, clock, e).1;
            && c'.buffer == (if Takes(k, c, e) then c.buffer[1..] else c.buffer)
                            + (if e.Issue? then [e.req] else [])
            && (Takes(k, c, e) ==> GoesOn(k, c, c', clock, e))
  {
    if c.buffer != [] {
      CacheMissAdds(c.mshr, c.buffer[0], c.buffer[0].id);
    }
    hide Refill, Lookup, FirstReady, CacheMiss, Resolve, PageWaits, Complete, Respond, InMshr;
    assert c.buffer + [] == c.buffer && (c.buffer != [] ==> c.buffer[1..] + [] == c.buffer[1..]);
  }

  /** The accesses issued to a core, in order. */
  function IssuedTo(steps: seq<Step>, core: nat): seq<Request> {
    if steps == [] then []
    else
      var s := steps[|steps| - 1];
      IssuedTo(steps[..|steps| - 1], core) + (if s.core == core && s.event.Issue? then [s.event.req] else [])
  }

  ghost predicate TakesAt(k: Config, steps: seq<Step>, t: nat, core: nat)
    requires k.Valid() && core < k.cores && t < |steps|
  {
    steps[t].core == core && Takes(k, Run(k, steps[..t]).cores[core], steps[t].event)
  }

  /** How often a run takes an access. */
  ghost function Taken(k: Config, steps: seq<Step>, core: nat): nat
    requires k.Valid() && core < k.cores
  {
    if steps == [] then 0
    else Taken(k, steps[..|steps| - 1], core) + One(TakesAt(k, steps, |steps| - 1, core))
  }

  /** The buffer is a queue: in every run it holds the accesses issued to its core, in order, but for the
      first ones, as many as were taken. */
  lemma {:induction false} BufferIsQueue(k: Config, steps: seq<Step>, core: nat)
    requires k.Valid() && core < k.cores
    ensures var issued, taken := IssuedTo(steps, core), Taken(k, steps, core);
            taken <= |issued| && Run(k, steps).cores[core].buffer == issued[taken..]
    decreases |steps|
  {
    hide CoreStep, Takes;
    if steps != [] {
      var n := |steps| - 1;
      var front, s := steps[..n], steps[n];
      BufferIsQueue(k, front, core);
      var before := Run(k, front);
      if s.core == core {
        TakesOldest(k, before.memory, before.cores[core], s.clock, s.event);
        OnlyIfAny(k, before.cores[core], s.event);
      }
    }
  }

  lemma OnlyIfAny(k: Config, c: Core, e: Event)
    requires CoreOK(c)
    ensures Takes(k, c, e) ==> c.buffer != []
  {
  }

  /** And every step of every run that takes an access sends it on. */
  lemma TakenGoesOn(k: Config, steps: seq<Step>, t: nat, core: nat)
    requires k.Valid() && core < k.cores && t < |steps| && TakesAt(k, steps, t, core)
    ensures GoesOn(k, Run(k, steps[..t]).cores[core], Run(k, steps[..t + 1]).cores[core], steps[t].clock,
            steps[t].event)
  {
    var before := Run(k, steps[..t]);
    assert steps[..t + 1][..t] == steps[..t];
    TakesOldest(k, before.memory, before.cores[core], steps[t].clock, steps[t].event);
    hide CoreStep, Takes, GoesOn;
  }

  // ---------- One search per refill ----------

  /** A translation that has arrived goes before the next search. */
  ghost predicate Refills(c: Core, clock: int, e: Event) {
    e.UpdateDtlb? && exists i :: 0 <= i < |c.dtlbMiss| && c.dtlbMiss[i].ready <= clock
  }

  /** An unstalled search finds its access in the DTLB. */
  ghost predicate Finds(c: Core, e: Event)
    requires CoreOK(c)
  {
    e.SearchDtlb? && !e.stalled && c.buffer != [] && InDtlb(c)
  }

  ghost predicate RefillsAt(k: Config, steps: seq<Step>, t: nat, core: nat)
    requires k.Valid() && core < k.cores
  {
    t < |steps| && steps[t].core == core && Refills(Run(k, steps[..t]).cores[core], steps[t].clock, steps[t].event)
  }

  ghost predicate FindsAt(k: Config, steps: seq<Step>, t: nat, core: nat)
    requires k.Valid() && core < k.cores
  {
    t < |steps| && steps[t].core == core && Finds(Run(k, steps[..t]).cores[core], steps[t].event)
  }

  /** The t-th step refills the DTLB, and no search has found its access in the DTLB since. */
  ghost predicate LastWasRefill(k: Config, steps: seq<Step>, t: nat, core: nat)
    requires k.Valid() && core < k.cores
  {
    RefillsAt(k, steps, t, core) && forall u: nat :: u > t ==> !FindsAt(k, steps, u, core)
  }

  ghost predicate RefillPending(k: Config, steps: seq<Step>, core: nat)
    requires k.Valid() && core < k.cores
  {
    exists t: nat :: LastWasRefill(k, steps, t, core)
  }

  lemma PassedNext(k: Config, m: Memory, c: Core, clock: int, e: Event)
    requires CoreOK(c)
    ensures CoreStep(k, m, c, clock, e).1.passed <==> Refills(c, clock, e) || (c.passed && !Finds(c, e))
  {
    hide Refill, Lookup, CacheMiss, Resolve, PageWaits, Complete, Respond;
  }

  lemma NotBoth(c: Core, clock: int, e: Event)
    requires CoreOK(c)
    ensures !(Refills(c, clock, e) && Finds(c, e))
  {
  }

  lemma AtPrefix(k: Config, steps: seq<Step>, t: nat, core: nat)
    requires k.Valid() && core < k.cores && steps != [] && t < |steps| - 1
    ensures var front := steps[..|steps| - 1];
            && RefillsAt(k, front, t, core) == RefillsAt(k, steps, t, core)
            && FindsAt(k, front, t, core) == FindsAt(k, steps, t, core)
  {
    hide Refills, Finds;
    assert steps[..|steps| - 1][..t] == steps[..t];
  }

  lemma PendingNext(k: Config, steps: seq<Step>, core: nat)
    requires k.Valid() && core < k.cores && steps != []
    ensures var n := |steps| - 1;
            RefillPending(k, steps, core)
            <==> RefillsAt(k, steps, n, core) || (RefillPending(k, steps[..n], core) && !FindsAt(k, steps, n, core))
  {
    hide RefillsAt, FindsAt;
    var n := |steps| - 1;
    var front := steps[..n];
    forall t: nat | t < n
      ensures RefillsAt(k, front, t, core) == RefillsAt(k, steps, t, core)
      ensures FindsAt(k, front, t, core) == FindsAt(k, steps, t, core)
    {
      AtPrefix(k, steps, t, core);
    }
    InRange(k, steps, core);
    InRange(k, front, core);
    if t: nat :| LastWasRefill(k, steps, t, core) && t < n {
      assert LastWasRefill(k, front, t, core);
    }
    if t: nat :| LastWasRefill(k, front, t, core) {
      if !FindsAt(k, steps, n, core) {
        assert LastWasRefill(k, steps, t, core);
      }
    }
    if RefillsAt(k, steps, n, core) {
      assert LastWasRefill(k, steps, n, core);
    }
  }

  lemma InRange(k: Config, steps: seq<Step>, core: nat)
    requires k.Valid() && core < k.cores
    ensures forall t: nat :: t >= |steps| ==> !RefillsAt(k, steps, t, core)
    ensures forall t: nat :: t >= |steps| ==> !FindsAt(k, steps, t, core)
  {
  }

  /** In every run: the next search that finds its access in the DTLB is spent for nothing exactly if a
      refill has come since the last one, however many have. */
  lemma {:induction false} PassedIff(k: Config, steps: seq<Step>, core: nat)
    requires k.Valid() && core < k.cores
    ensures Run(k, steps).cores[core].passed <==> RefillPending(k, steps, core)
    decreases |steps|
  {
    hide CoreStep, Refills, Finds, RefillPending;
    if steps == [] {
      NoneYet(k, core);
    } else {
      var n := |steps| - 1;
      PassedIff(k, steps[..n], core);
      PendingNext(k, steps, core);
      if steps[n].core == core {
        var before := Run(k, steps[..n]);
        PassedNext(k, before.memory, before.cores[core], steps[n].clock, steps[n].event);
      }
    }
  }

  lemma NoneYet(k: Config, core: nat)
    requires k.Valid() && core < k.cores
    ensures !Run(k, []).cores[core].passed && !RefillPending(k, [], core)
  {
    InRange(k, [], core);
  }

  // ---------- The DTLB's miss buffer ----------

  ghost predicate PendingAt(c: Core, j: int, p: Pending) {
    0 <= j < |c.dtlbMiss| && c.dtlbMiss[j] == p
  }

  /** The event looks for a translation that has arrived by then, and there is room for its access. */
  ghost predicate Serves(k: Config, c: Core, clock: int, e: Event, ready: int) {
    e.UpdateDtlb? && ready <= clock && (e.hit || |c.mshr| < k.mshr)
  }

  /** The access goes on, to the responses or into the MSHR. */
  ghost predicate Served(k: Config, c: Core, c': Core, clock: int, e: Event, p: Pending) {
    && e.UpdateDtlb? && InPending(c.dtlbMiss, p.req.id) == InPending(c'.dtlbMiss, p.req.id) + 1
    && if e.hit then c'.responses == c.responses + [Response(p.req.id, clock + k.l1Hit)]
       else InMshr(c'.mshr, p.req.id) == InMshr(c.mshr, p.req.id) + 1
  }

  lemma PendingStep(k: Config, m: Memory, c: Core, clock: int, e: Event, j: nat, p: Pending)
    requires CoreOK(c) && PendingAt(c, j, p)
    ensures var c' := CoreStep(k, m, c, clock, e).1;
            || Served(k, c, c', clock, e, p)
            || exists j' :: 0 <= j' && j' + One(Serves(k, c, clock, e, p.ready)) <= j && PendingAt(c', j', p)
  {
    hide Refill, Lookup, CacheMiss, Resolve, PageWaits, Complete, Respond, InMshr, InPending;
    var c' := CoreStep(k, m, c, clock, e).1;
    if e.UpdateDtlb? {
      var i := FirstReady(c.dtlbMiss, clock, 0);
      if i == j {
        PendingOut(c.dtlbMiss, j, p.req.id);
        CacheMissAdds(c.mshr, p.req, p.req.id);
        assert e.hit || |c.mshr| < k.mshr || PendingAt(c', j, p);
      } else if 0 <= i < j && (e.hit || |c.mshr| < k.mshr) {
        assert PendingAt(c', j - 1, p);
      } else {
        assert PendingAt(c', j, p);
      }
    } else {
      assert PendingAt(c', j, p);
    }
  }

  ghost predicate ServesAt(k: Config, steps: seq<Step>, t: nat, core: nat, ready: int)
    requires k.Valid() && core < k.cores && t < |steps|
  {
    steps[t].core == core && Serves(k, Run(k, steps[..t]).cores[core], steps[t].clock, steps[t].event, ready)
  }

  /** How many steps from `at` on look for a translation, with room, not before this time. */
  ghost function Turns(k: Config, steps: seq<Step>, at: nat, core: nat, ready: int): nat
    requires k.Valid() && core < k.cores && at <= |steps|
    decreases |steps|
  {
    if |steps| == at then 0
    else Turns(k, steps[..|steps| - 1], at, core, ready) + One(ServesAt(k, steps, |steps| - 1, core, ready))
  }

  ghost predicate ServedAt(k: Config, steps: seq<Step>, t: nat, core: nat, p: Pending)
    requires k.Valid() && core < k.cores
  {
    && t < |steps| && steps[t].core == core
    && Served(k, Run(k, steps[..t]).cores[core], Run(k, steps[..t + 1]).cores[core], steps[t].clock, steps[t].event, p)
  }

  ghost predicate ServedFrom(k: Config, steps: seq<Step>, at: nat, core: nat, p: Pending)
    requires k.Valid() && core < k.cores
  {
    exists t: nat :: at <= t && ServedAt(k, steps, t, core, p)
  }

  ghost predicate StillPending(c: Core, p: Pending, i: nat, turns: nat) {
    exists j :: 0 <= j && j + turns <= i && PendingAt(c, j, p)
  }

  lemma ServedStays(k: Config, steps: seq<Step>, at: nat, core: nat, p: Pending)
    requires k.Valid() && core < k.cores && steps != [] && ServedFrom(k, steps[..|steps| - 1], at, core, p)
    ensures ServedFrom(k, steps, at, core, p)
  {
    hide Served, Run;
    var front := steps[..|steps| - 1];
    var t: nat :| at <= t && ServedAt(k, front, t, core, p);
    assert front[..t] == steps[..t] && front[..t + 1] == steps[..t + 1];
    assert ServedAt(k, steps, t, core, p);
  }

  lemma {:induction false} PendingInRun(k: Config, steps: seq<Step>, at: nat, core: nat, i: nat, p: Pending)
    requires k.Valid() && core < k.cores && at <= |steps| && PendingAt(Run(k, steps[..at]).cores[core], i, p)
    ensures || ServedFrom(k, steps, at, core, p)
            || StillPending(Run(k, steps).cores[core], p, i, Turns(k, steps, at, core, p.ready))
    decreases |steps|
  {
    hide CoreStep, PendingAt, ServedFrom, Served, Serves;
    if |steps| == at {
      assert steps[..at] == steps;
    } else {
      var n := |steps| - 1;
      var front, s := steps[..n], steps[n];
      assert front[..at] == steps[..at];
      PendingInRun(k, front, at, core, i, p);
      if ServedFrom(k, front, at, core, p) {
        ServedStays(k, steps, at, core, p);
      } else if s.core == core {
        var before := Run(k, front);
        var j :| 0 <= j && j + Turns(k, front, at, core, p.ready) <= i && PendingAt(before.cores[core], j, p);
        PendingStep(k, before.memory, before.cores[core], s.clock, s.event, j, p);
        if Served(k, before.cores[core], Run(k, steps).cores[core], s.clock, s.event, p) {
          LastServes(k, steps, at, core, p);
        }
      }
    }
  }

  lemma LastServes(k: Config, steps: seq<Step>, at: nat, core: nat, p: Pending)
    requires k.Valid() && core < k.cores && at < |steps| && steps[|steps| - 1].core == core
    requires var n := |steps| - 1;
             Served(k, Run(k, steps[..n]).cores[core], Run(k, steps).cores[core], steps[n].clock, steps[n].event, p)
    ensures ServedFrom(k, steps, at, core, p)
  {
    hide Served;
    assert steps[..|steps|] == steps;
    assert ServedAt(k, steps, |steps| - 1, core, p);
  }

  /** A translation in place i of the DTLB's miss buffer lets its access go on within i + 1 updates after it
      has arrived for which there is room, whatever else happens. */
  lemma ServedWithin(k: Config, steps: seq<Step>, at: nat, core: nat, i: nat, p: Pending)
    requires k.Valid() && core < k.cores && at <= |steps| && PendingAt(Run(k, steps[..at]).cores[core], i, p)
    requires Turns(k, steps, at, core, p.ready) >= i + 1
    ensures ServedFrom(k, steps, at, core, p)
  {
    PendingInRun(k, steps, at, core, i, p);
  }

  // ---------- The ITLB's miss buffer ----------

  /** The step looks at the outstanding fetch in the very cycle its translation falls due. */
  ghost predicate OnTime(s: Step, core: nat, ready: int) {
    s.core == core && s.event.UpdateItlb? && s.clock == ready
  }

  ghost predicate NoneOnTime(steps: seq<Step>, from: nat, to: nat, core: nat, ready: int) {
    forall t :: from <= t < to && t < |steps| ==> !OnTime(steps[t], core, ready)
  }

  lemma RefillHits(t: Tlb, vaddr: nat, asid: int, frame: nat)
    requires TlbOK(t)
    ensures Lookup(Refill(t, vaddr, asid, frame), vaddr, asid).Some?
  {
    var i := TlbTag(vaddr) % |t|;
    FillFinds(t[i], TlbTag(vaddr), asid, frame);
    hide Fill, Find, TlbTag;
  }

  lemma FillFinds(s: Set<nat>, tag: nat, asid: int, data: nat)
    requires SetOK(s)
    ensures Find(Fill(s, tag, asid, data), tag, asid) >= 0
  {
    assert Matches(Fill(s, tag, asid, data).ways[s.next], tag, asid);
  }

  lemma FetchStepWaits(k: Config, m: Memory, c: Core, s: Step, p: Pending)
    requires CoreOK(c) && c.itlbMiss == [p]
    ensures var c' := CoreStep(k, m, c, s.clock, s.event).1;
            if OnTime(s, s.core, p.ready) then
              c'.itlbMiss == [] && Lookup(c'.itlb, p.req.vaddr, p.req.asid).Some?
            else c'.itlbMiss == [p]
  {
    RefillHits(c.itlb, p.req.vaddr, p.req.asid, p.frame);
    hide Refill, Lookup, CacheMiss, Resolve, PageWaits, Complete, Respond, FirstReady;
  }

  lemma {:induction false} FetchStays(k: Config, steps: seq<Step>, at: nat, core: nat, p: Pending)
    requires k.Valid() && core < k.cores && at <= |steps| && Run(k, steps[..at]).cores[core].itlbMiss == [p]
    requires NoneOnTime(steps, at, |steps|, core, p.ready)
    ensures Run(k, steps).cores[core].itlbMiss == [p]
    decreases |steps|
  {
    hide CoreStep, OnTime;
    if |steps| == at {
      assert steps[..at] == steps;
    } else {
      var n := |steps| - 1;
      var front := steps[..n];
      assert front[..at] == steps[..at];
      FetchStays(k, front, at, core, p);
      if steps[n].core == core {
        FetchStepWaits(k, Run(k, front).memory, Run(k, front).cores[core], steps[n], p);
      }
    }
  }

  /** An outstanding fetch waits until its core looks at it in the very cycle its translation falls due: then
      the page is in the ITLB and the next miss can be taken up. A look before or after does nothing. */
  lemma FetchServedIff(k: Config, steps: seq<Step>, at: nat, core: nat, p: Pending, t: nat)
    requires k.Valid() && core < k.cores && at <= t < |steps| && NoneOnTime(steps, at, t, core, p.ready)
    requires Run(k, steps[..at]).cores[core].itlbMiss == [p]
    ensures var c := Run(k, steps[..t + 1]).cores[core];
            && (c.itlbMiss == [p] <==> !OnTime(steps[t], core, p.ready))
            && (OnTime(steps[t], core, p.ready) ==>
                  c.itlbMiss == [] && Lookup(c.itlb, p.req.vaddr, p.req.asid).Some?)
  {
    hide CoreStep, Lookup;
    var front, longer := steps[..t], steps[..t + 1];
    assert front[..at] == steps[..at] && longer[..t] == front;
    FetchStays(k, front, at, core, p);
    if steps[t].core == core {
      FetchStepWaits(k, Run(k, front).memory, Run(k, front).cores[core], steps[t], p);
    }
  }

  /** So a fetch whose translation was due before it was asked for is never served, and no fetch of its core
      that misses the ITLB is ever taken up again. */
  lemma OverdueFetchIsStuck(k: Config, steps: seq<Step>, at: nat, core: nat, p: Pending)
    requires k.Valid() && core < k.cores && 1 <= at <= |steps| && InTime(steps)
    requires Run(k, steps[..at]).cores[core].itlbMiss == [p] && p.ready < steps[at - 1].clock
    ensures Run(k, steps).cores[core].itlbMiss == [p]
  {
    hide Run;
    FetchStays(k, steps, at, core, p);
  }
}
