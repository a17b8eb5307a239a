/** Loads and stores on their way to completion: none is lost or duplicated, and the L1 MSHR keeps to
    its size with one entry per line. */
module MissFlow {
  import opened Paging
  import opened MissSpec

  // ---------- Where an access is ----------

  function One(b: bool): nat {
    if b then 1 else 0
  }

  /** How often an id occurs in a list. */
  function Occurs(ids: seq<nat>, id: nat): nat {
    if ids == [] then 0 else Occurs(ids[..|ids| - 1], id) + One(ids[|ids| - 1] == id)
  }

  function InRequests(reqs: seq<Request>, id: nat): nat {
    if reqs == [] then 0 else InRequests(reqs[..|reqs| - 1], id) + One(reqs[|reqs| - 1].id == id)
  }

  function InPending(misses: seq<Pending>, id: nat): nat {
    if misses == [] then 0 else InPending(misses[..|misses| - 1], id) + One(misses[|misses| - 1].req.id == id)
  }

  /** An entry stands for its own access and for those merged into it. */
  function InMiss(miss: Miss, id: nat): nat {
    Occurs(miss.merged, id) + One(miss.req.id == id)
  }

  function InMshr(mshr: seq<Miss>, id: nat): nat {
    if mshr == [] then 0 else InMshr(mshr[..|mshr| - 1], id) + InMiss(mshr[|mshr| - 1], id)
  }

  function InResponses(responses: seq<Response>, id: nat): nat {
    if responses == [] then 0
    else InResponses(responses[..|responses| - 1], id) + One(responses[|responses| - 1].id == id)
  }

  /** In how many places of the core an access is, its completion included. */
  function Places(c: Core, id: nat): nat {
    InRequests(c.buffer, id) + InPending(c.dtlbMiss, id) + InMshr(c.mshr, id) + InResponses(c.responses, id)
    + Occurs(c.completed, id)
  }

  // ---------- Putting one in, taking one out ----------

  lemma {:induction false} OccursJoin(ids: seq<nat>, more: seq<nat>, id: nat)
    ensures Occurs(ids + more, id) == Occurs(ids, id) + Occurs(more, id)
    decreases |more|
  {
    if more == [] {
      assert ids + more == ids;
    } else {
      OccursJoin(ids, more[..|more| - 1], id);
      assert (ids + more)[..|ids + more| - 1] == ids + more[..|more| - 1];
    }
  }

  lemma OccursAdds(ids: seq<nat>, x: nat, id: nat)
    ensures Occurs(ids + [x], id) == Occurs(ids, id) + One(x == id)
  {
    assert (ids + [x])[..|ids|] == ids;
  }

  lemma RequestAdds(reqs: seq<Request>, r: Request, id: nat)
    ensures InRequests(reqs + [r], id) == InRequests(reqs, id) + One(r.id == id)
  {
    assert (reqs + [r])[..|reqs|] == reqs;
  }

  lemma PendingAdds(misses: seq<Pending>, p: Pending, id: nat)
    ensures InPending(misses + [p], id) == InPending(misses, id) + One(p.req.id == id)
  {
    assert (misses + [p])[..|misses|] == misses;
  }

  lemma ResponseAdds(responses: seq<Response>, r: Response, id: nat)
    ensures InResponses(responses + [r], id) == InResponses(responses, id) + One(r.id == id)
  {
    assert (responses + [r])[..|responses|] == responses;
  }

  lemma {:induction false} RequestHead(reqs: seq<Request>, id: nat)
    requires reqs != []
    ensures InRequests(reqs, id) == One(reqs[0].id == id) + InRequests(reqs[1..], id)
    decreases |reqs|
  {
    if |reqs| > 1 {
      RequestHead(reqs[..|reqs| - 1], id);
      assert reqs[..|reqs| - 1][1..] == reqs[1..][..|reqs| - 2];
    }
  }

  lemma {:induction false} ResponseHead(responses: seq<Response>, id: nat)
    requires responses != []
    ensures InResponses(responses, id) == One(responses[0].id == id) + InResponses(responses[1..], id)
    decreases |responses|
  {
    if |responses| > 1 {
      ResponseHead(responses[..|responses| - 1], id);
      assert responses[..|responses| - 1][1..] == responses[1..][..|responses| - 2];
    }
  }

  lemma {:induction false} PendingJoin(a: seq<Pending>, b: seq<Pending>, id: nat)
    ensures InPending(a + b, id) == InPending(a, id) + InPending(b, id)
    decreases |b|
  {
    if b == [] {
      assert a + b == a;
    } else {
      PendingJoin(a, b[..|b| - 1], id);
      assert (a + b)[..|a + b| - 1] == a + b[..|b| - 1];
    }
  }

  lemma PendingOut(misses: seq<Pending>, i: nat, id: nat)
    requires i < |misses|
    ensures InPending(misses, id) == InPending(misses[..i] + misses[i + 1..], id) + One(misses[i].req.id == id)
  {
    hide InPending;
    var front, rest := misses[..i], misses[i + 1..];
    PendingAdds(front, misses[i], id);
    assert misses == front + [misses[i]] + rest;
    PendingJoin(front + [misses[i]], rest, id);
    PendingJoin(front, rest, id);
  }

  lemma {:induction false} MshrJoin(a: seq<Miss>, b: seq<Miss>, id: nat)
    ensures InMshr(a + b, id) == InMshr(a, id) + InMshr(b, id)
    decreases |b|
  {
    hide InMiss;
    if b == [] {
      assert a + b == a;
    } else {
      MshrJoin(a, b[..|b| - 1], id);
      assert (a + b)[..|a + b| - 1] == a + b[..|b| - 1];
    }
  }

  lemma MissAdded(mshr: seq<Miss>, miss: Miss, id: nat)
    ensures InMshr(mshr + [miss], id) == InMshr(mshr, id) + InMiss(miss, id)
  {
    hide InMiss;
    assert (mshr + [miss])[..|mshr|] == mshr;
  }

  lemma MissOut(mshr: seq<Miss>, i: nat, id: nat)
    requires i < |mshr|
    ensures InMshr(mshr, id) == InMshr(mshr[..i] + mshr[i + 1..], id) + InMiss(mshr[i], id)
  {
    hide InMshr, InMiss;
    var front, rest := mshr[..i], mshr[i + 1..];
    MissAdded(front, mshr[i], id);
    assert mshr == front + [mshr[i]] + rest;
    MshrJoin(front + [mshr[i]], rest, id);
    MshrJoin(front, rest, id);
  }

  lemma MissChanged(mshr: seq<Miss>, i: nat, miss: Miss, id: nat)
    requires i < |mshr|
    ensures InMshr(mshr[i := miss], id) + InMiss(mshr[i], id) == InMshr(mshr, id) + InMiss(miss, id)
  {
    hide InMshr, InMiss;
    MissOut(mshr, i, id);
    MissOut(mshr[i := miss], i, id);
    assert mshr[i := miss][..i] == mshr[..i] && mshr[i := miss][i + 1..] == mshr[i + 1..];
  }

  // ---------- The steps ----------

  /** A data-cache miss is in the MSHR afterwards, once more than before, merged or on its own. */
  lemma CacheMissAdds(mshr: seq<Miss>, req: Request, id: nat)
    ensures InMshr(CacheMiss(mshr, req), id) == InMshr(mshr, id) + One(req.id == id)
  {
    var j := LineMiss(mshr, req.vaddr);
    if j >= 0 {
      MissChanged(mshr, j, mshr[j].(merged := mshr[j].merged + [req.id]), id);
      OccursAdds(mshr[j].merged, req.id, id);
    } else {
      assert (mshr + [Miss(req, [], -1)])[..|mshr|] == mshr;
    }
  }

  lemma {:induction false} CompleteMoves(mshr: seq<Miss>, completed: seq<nat>, clock: int, i: nat, id: nat)
    ensures var (mshr', completed') := Complete(mshr, completed, clock, i);
            InMshr(mshr', id) + Occurs(completed', id) == InMshr(mshr, id) + Occurs(completed, id)
    decreases |mshr| - i
  {
    hide InMshr, Occurs;
    if i < |mshr| {
      if 0 < mshr[i].ready <= clock {
        var rest := mshr[..i] + mshr[i + 1..];
        var done := completed + mshr[i].merged + [mshr[i].req.id];
        MissOut(mshr, i, id);
        OccursAdds(completed + mshr[i].merged, mshr[i].req.id, id);
        OccursJoin(completed, mshr[i].merged, id);
        if rest != [] && i != |rest| {
          CompleteMoves(rest, done, clock, i + 1, id);
        }
      } else {
        CompleteMoves(mshr, completed, clock, i + 1, id);
      }
    }
  }

  lemma {:induction false} RespondMoves(responses: seq<Response>, completed: seq<nat>, clock: int, id: nat)
    ensures var (responses', completed') := Respond(responses, completed, clock);
            InResponses(responses', id) + Occurs(completed', id) == InResponses(responses, id) + Occurs(completed, id)
    decreases |responses|
  {
    hide InResponses, Occurs;
    if responses != [] && responses[0].ready <= clock {
      ResponseHead(responses, id);
      OccursAdds(completed, responses[0].id, id);
      RespondMoves(responses[1..], completed + [responses[0].id], clock, id);
    }
  }

  lemma SearchMoves(k: Config, m: Memory, c: Core, clock: int, stalled: bool, hit: bool, a: Allocation, id: nat)
    requires CoreOK(c)
    ensures Places(Search(k, m, c, clock, stalled, hit, a).1, id) == Places(c, id)
  {
    hide InMshr, InRequests, InPending, InResponses, CacheMiss, Lookup, PageWaits, CoreOK, Resolve;
    if c.buffer != [] {
      var req := c.buffer[0];
      RequestHead(c.buffer, id);
      CacheMissAdds(c.mshr, req, id);
      ResponseAdds(c.responses, Response(req.id, clock + k.l1Hit), id);
      var r := Resolve(k, m, clock, req.vaddr, a);
      PendingAdds(c.dtlbMiss, Pending(req, r.frame, r.ready), id);
    }
  }

  lemma DtlbUpdateMoves(k: Config, c: Core, clock: int, hit: bool, id: nat)
    requires CoreOK(c)
    ensures Places(DtlbUpdate(k, c, clock, hit), id) == Places(c, id)
  {
    hide InMshr, InRequests, InPending, InResponses, CacheMiss, CoreOK, Refill;
    var i := FirstReady(c.dtlbMiss, clock, 0);
    if i >= 0 {
      var req := c.dtlbMiss[i].req;
      PendingOut(c.dtlbMiss, i, id);
      CacheMissAdds(c.mshr, req, id);
      ResponseAdds(c.responses, Response(req.id, clock + k.l1Hit), id);
    }
  }

  lemma AnswerKeeps(c: Core, i: nat, ready: int, id: nat)
    ensures Places(Answer(c, i, ready), id) == Places(c, id)
  {
    if i < |c.mshr| {
      MissChanged(c.mshr, i, c.mshr[i].(ready := ready), id);
    }
  }

  /** How often a step issues an access. */
  function Issued(e: Event, id: nat): nat {
    if e.Issue? then One(e.req.id == id) else 0
  }

  lemma StepConserves(k: Config, m: Memory, c: Core, clock: int, e: Event, id: nat)
    requires CoreOK(c)
    ensures Places(CoreStep(k, m, c, clock, e).1, id) == Places(c, id) + Issued(e, id)
  {
    hide InMshr, InRequests, InPending, InResponses, Occurs, Search, DtlbUpdate, Answer, Complete, Respond, Resolve,
         Refill, Lookup;
    match e {
      case Issue(req) => RequestAdds(c.buffer, req, id);
      case SearchDtlb(stalled, hit, a) => SearchMoves(k, m, c, clock, stalled, hit, a, id);
      case UpdateDtlb(hit) => DtlbUpdateMoves(k, c, clock, hit, id);
      case AnswerMiss(i, ready) => AnswerKeeps(c, i, ready, id);
      case UpdateMshr => CompleteMoves(c.mshr, c.completed, clock, 0, id);
      case Finish => RespondMoves(c.responses, c.completed, clock, id);
      case _ =>
    }
  }

  /** How often an access is issued to a core in a run. */
  function TimesIssued(steps: seq<Step>, core: nat, id: nat): nat {
    if steps == [] then 0
    else
      var last := steps[|steps| - 1];
      TimesIssued(steps[..|steps| - 1], core, id) + (if last.core == core then Issued(last.event, id) else 0)
  }

  /** Conservation, over every run: an access is in as many places, over its core's load/store buffer,
      DTLB miss buffer, MSHR entries, merge lists, response queue and completions, as it was issued. So
      an access issued once is at all times in exactly one of them. */
  lemma {:induction false} AccessesConserved(k: Config, steps: seq<Step>, core: nat, id: nat)
    requires k.Valid() && core < k.cores
    ensures Places(Run(k, steps).cores[core], id) == TimesIssued(steps, core, id)
    decreases |steps|
  {
    hide CoreStep, Places, Issued;
    if steps == [] {
      NothingYet(k, core, id);
    } else {
      var front, last := steps[..|steps| - 1], steps[|steps| - 1];
      AccessesConserved(k, front, core, id);
      var n := Run(k, front);
      if last.core == core {
        StepConserves(k, n.memory, n.cores[core], last.clock, last.event, id);
      }
    }
  }

  lemma NothingYet(k: Config, core: nat, id: nat)
    requires k.Valid() && core < k.cores
    ensures Places(Run(k, []).cores[core], id) == 0
  {
  }

  // ---------- The MSHR ----------

  ghost predicate OneEntryPerLine(mshr: seq<Miss>) {
    forall i, j :: 0 <= i < j < |mshr| ==> mshr[i].req.vaddr / 64 != mshr[j].req.vaddr / 64
  }

  ghost predicate OneMissPerPage(misses: seq<Pending>) {
    forall i, j :: 0 <= i < j < |misses| ==> PageOf(misses[i].req.vaddr) != PageOf(misses[j].req.vaddr)
  }

  ghost predicate Bounded(k: Config, c: Core) {
    && |c.mshr| <= k.mshr && OneEntryPerLine(c.mshr)
    && |c.dtlbMiss| <= k.mshr && OneMissPerPage(c.dtlbMiss) && |c.itlbMiss| <= 1
  }

  lemma {:induction false} CompleteKeepsLines(mshr: seq<Miss>, completed: seq<nat>, clock: int, i: nat)
    requires OneEntryPerLine(mshr)
    ensures var mshr' := Complete(mshr, completed, clock, i).0; OneEntryPerLine(mshr') && |mshr'| <= |mshr|
    decreases |mshr| - i
  {
    if i < |mshr| {
      if 0 < mshr[i].ready <= clock {
        var rest := mshr[..i] + mshr[i + 1..];
        var done := completed + mshr[i].merged + [mshr[i].req.id];
        if rest != [] && i != |rest| {
          CompleteKeepsLines(rest, done, clock, i + 1);
        }
      } else {
        CompleteKeepsLines(mshr, completed, clock, i + 1);
      }
    }
  }

  lemma CacheMissKeepsLines(mshr: seq<Miss>, req: Request)
    requires OneEntryPerLine(mshr)
    ensures OneEntryPerLine(CacheMiss(mshr, req)) && |CacheMiss(mshr, req)| <= |mshr| + 1
  {
  }

  lemma MissAdds(misses: seq<Pending>, p: Pending)
    requires OneMissPerPage(misses) && !PageWaits(misses, p.req.vaddr)
    ensures OneMissPerPage(misses + [p])
  {
    hide PageOf;
  }

  lemma MissGone(misses: seq<Pending>, i: nat)
    requires OneMissPerPage(misses) && i < |misses|
    ensures OneMissPerPage(misses[..i] + misses[i + 1..])
  {
    hide PageOf;
  }

  lemma StepKeepsBounds(k: Config, m: Memory, c: Core, clock: int, e: Event)
    requires CoreOK(c) && Bounded(k, c)
    ensures Bounded(k, CoreStep(k, m, c, clock, e).1)
  {
    hide CacheMiss, Complete, Respond, Resolve, Refill, Lookup, LineMiss, PageOf, OneMissPerPage, PageWaits, FirstReady;
    match e {
      case SearchDtlb(stalled, hit, a) =>
        if c.buffer != [] {
          var req := c.buffer[0];
          CacheMissKeepsLines(c.mshr, req);
          if !PageWaits(c.dtlbMiss, req.vaddr) {
            var r := Resolve(k, m, clock, req.vaddr, a);
            MissAdds(c.dtlbMiss, Pending(req, r.frame, r.ready));
          }
        }
      case UpdateDtlb(hit) =>
        var i := FirstReady(c.dtlbMiss, clock, 0);
        if i >= 0 {
          CacheMissKeepsLines(c.mshr, c.dtlbMiss[i].req);
          MissGone(c.dtlbMiss, i);
        }
      case UpdateMshr => CompleteKeepsLines(c.mshr, c.completed, clock, 0);
      case _ =>
    }
  }

  /** In every run and for every size: no core's MSHR or DTLB miss buffer has more entries than its size,
      the MSHR never has two for one line, nor the miss buffer two for one page. */
  lemma {:induction false} MshrBounded(k: Config, steps: seq<Step>, core: nat)
    requires k.Valid() && core < k.cores
    ensures Bounded(k, Run(k, steps).cores[core])
    decreases |steps|
  {
    if steps != [] {
      var front, last := steps[..|steps| - 1], steps[|steps| - 1];
      MshrBounded(k, front, core);
      var n := Run(k, front);
      if last.core == core {
        StepKeepsBounds(k, n.memory, n.cores[core], last.clock, last.event);
      }
      hide CoreStep, Bounded;
    }
  }
}
