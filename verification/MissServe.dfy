/** When accesses and fetches go on: what leaves the load/store buffer, the miss buffers and the response
    queue, in which step of a run, and where it goes. */
module MissServe {
  import opened Paging
  import opened MissSpec
  import opened MissFlow
  import opened MissLate
  import opened MissReached

  // ---------- Data-cache hits ----------

  /** The access that an event finds in the data cache: the oldest of the buffer, if its page is in the DTLB
      and no refill has just gone before it, or the first whose translation has arrived. */
  function HitOf(c: Core, clock: int, e: Event): Option<nat>
    requires CoreOK(c)
  {
    match e
    case SearchDtlb(stalled, true, _) =>
      if !stalled && c.buffer != [] && !c.passed && Lookup(c.dtlb, c.buffer[0].vaddr, c.buffer[0].asid).Some?
      then Some(c.buffer[0].id) else None
    case UpdateDtlb(true) =>
      var i := FirstReady(c.dtlbMiss, clock, 0);
      if i >= 0 then Some(c.dtlbMiss[i].req.id) else None
    case _ => None
  }

  lemma HitQueues(k: Config, m: Memory, c: Core, clock: int, e: Event)
    requires CoreOK(c) && HitOf(c, clock, e).Some?
    ensures CoreStep(k, m, c, clock, e).1.responses
            == c.responses + [Response(HitOf(c, clock, e).value, clock + k.l1Hit)]
  {
    hide Refill, Lookup, FirstReady, CacheMiss, Resolve, PageWaits, Complete, Respond;
  }

  /** The responses are in the order of their times, none later than this. */
  ghost predicate Ordered(responses: seq<Response>, latest: int) {
    && (forall i, j :: 0 <= i < j < |responses| ==> responses[i].ready <= responses[j].ready)
    && (forall i :: 0 <= i < |responses| ==> responses[i].ready <= latest)
  }

  function Ids(responses: seq<Response>): seq<nat> {
    seq(|responses|, i requires 0 <= i < |responses| => responses[i].id)
  }

  /** The responses at the head of the queue whose time has come are completed, in order. */
  lemma {:induction false} RespondSplits(responses: seq<Response>, completed: seq<nat>, clock: int) returns (n: nat)
    ensures n <= |responses|
    ensures Respond(responses, completed, clock) == (responses[n..], completed + Ids(responses[..n]))
    ensures forall i :: 0 <= i < n ==> responses[i].ready <= clock
    ensures n < |responses| ==> responses[n].ready > clock
    decreases |responses|
  {
    n := 0;
    if responses != [] && responses[0].ready <= clock {
      var first, rest := responses[0], responses[1..];
      var l := RespondSplits(rest, completed + [first.id], clock);
      n := l + 1;
      assert rest[l..] == responses[n..] && responses[..n] == [first] + rest[..l];
      assert completed + [first.id] + Ids(rest[..l]) == completed + Ids(responses[..n]);
    } else {
      assert completed + Ids(responses[..0]) == completed;
    }
  }

  lemma {:induction false} OccursAt(ids: seq<nat>, i: nat)
    requires i < |ids|
    ensures Occurs(ids, ids[i]) >= 1
    decreases |ids|
  {
    if i < |ids| - 1 {
      OccursAt(ids[..|ids| - 1], i);
    }
  }

  lemma {:induction false} ResponseAt(responses: seq<Response>, r: Response)
    requires r in responses
    ensures InResponses(responses, r.id) >= 1
    decreases |responses|
  {
    var n := |responses| - 1;
    if responses[n] != r {
      var i :| 0 <= i < |responses| && responses[i] == r;
      assert responses[..n][i] == r;
      ResponseAt(responses[..n], r);
    }
  }

  /** A response whose time has come completes with the next `Finish`; before that it stays. */
  lemma FinishOne(responses: seq<Response>, completed: seq<nat>, clock: int, latest: int, r: Response)
    requires Ordered(responses, latest) && r in responses
    ensures var (rest, done) := Respond(responses, completed, clock);
            if r.ready <= clock then Occurs(done, r.id) >= 1 else r in rest
  {
    hide Occurs, Respond;
    var n := RespondSplits(responses, completed, clock);
    var i :| 0 <= i < |responses| && responses[i] == r;
    if i < n {
      var ids := Ids(responses[..n]);
      assert ids[i] == r.id;
      OccursAt(ids, i);
      OccursJoin(completed, ids, r.id);
    } else {
      assert responses[n..][i - n] == r;
    }
  }

  lemma StepOrdered(k: Config, m: Memory, c: Core, now: int, clock: int, e: Event)
    requires CoreOK(c) && Ordered(c.responses, now + k.l1Hit) && now <= clock
    ensures Ordered(CoreStep(k, m, c, clock, e).1.responses, clock + k.l1Hit)
  {
    hide Refill, Lookup, FirstReady, CacheMiss, Resolve, PageWaits, Complete, Respond;
    if e.Finish? {
      var n := RespondSplits(c.responses, c.completed, clock);
    }
  }

  lemma {:induction false} RunOrdered(k: Config, steps: seq<Step>, core: nat)
    requires k.Valid() && core < k.cores && InTime(steps)
    ensures Ordered(Run(k, steps).cores[core].responses, Now(steps) + k.l1Hit)
    decreases |steps|
  {
    hide CoreStep;
    if steps != [] {
      var n := |steps| - 1;
      var front, s := steps[..n], steps[n];
      assert InTime(front);
      RunOrdered(k, front, core);
      var before := Run(k, front);
      assert Now(front) <= s.clock;
      if s.core == core {
        StepOrdered(k, before.memory, before.cores[core], Now(front), s.clock, s.event);
      }
    }
  }

  predicate Finishes(s: Step, core: nat, due: int) {
    s.core == core && s.event.Finish? && due <= s.clock
  }

  ghost predicate Finished(steps: seq<Step>, at: nat, core: nat, due: int) {
    exists t :: at < t < |steps| && Finishes(steps[t], core, due)
  }

  ghost predicate Through(c: Core, r: Response, finished: bool) {
    if finished then Occurs(c.completed, r.id) >= 1 else r in c.responses
  }

  lemma ResponseStep(k: Config, m: Memory, c: Core, latest: int, s: Step, r: Response, finished: bool)
    requires CoreOK(c) && Ordered(c.responses, latest) && Through(c, r, finished)
    ensures Through(CoreStep(k, m, c, s.clock, s.event).1, r, finished || Finishes(s, s.core, r.ready))
  {
    CompletionsStay(k, m, c, s.clock, s.event, r.id);
    hide Refill, Lookup, FirstReady, CacheMiss, Resolve, PageWaits, Complete, Respond, Occurs;
    if s.event.Finish? && !finished {
      FinishOne(c.responses, c.completed, s.clock, latest, r);
    }
  }

  lemma FinishedNext(steps: seq<Step>, at: nat, core: nat, due: int)
    requires at + 1 < |steps|
    ensures var n := |steps| - 1;
            Finished(steps, at, core, due) <==> Finished(steps[..n], at, core, due) || Finishes(steps[n], core, due)
  {
    hide Finishes;
    var n := |steps| - 1;
    if t :| at < t < |steps| && Finishes(steps[t], core, due) {
      assert t < n ==> steps[..n][t] == steps[t];
    }
  }

  lemma {:induction false} HitGoesThrough(k: Config, steps: seq<Step>, at: nat, core: nat, id: nat)
    requires k.Valid() && core < k.cores && InTime(steps) && at < |steps| && steps[at].core == core
    requires HitOf(Run(k, steps[..at]).cores[core], steps[at].clock, steps[at].event) == Some(id)
    ensures var due := steps[at].clock + k.l1Hit;
            Through(Run(k, steps).cores[core], Response(id, due), Finished(steps, at, core, due))
    decreases |steps|
  {
    hide CoreStep, HitOf, Finished, Through, Finishes;
    var n := |steps| - 1;
    var front, s := steps[..n], steps[n];
    var before := Run(k, front);
    var due := steps[at].clock + k.l1Hit;
    if at == n {
      HitQueues(k, before.memory, before.cores[core], s.clock, s.event);
      NewThrough(Run(k, steps).cores[core], Response(id, due), steps, at, core);
    } else {
      assert front[..at] == steps[..at] && InTime(front);
      HitGoesThrough(k, front, at, core, id);
      FinishedNext(steps, at, core, due);
      if s.core == core {
        RunOrdered(k, front, core);
        ResponseStep(k, before.memory, before.cores[core], Now(front) + k.l1Hit, s, Response(id, due),
                     Finished(front, at, core, due));
      } else {
        NotFinishing(s, core, due);
      }
    }
  }

  lemma NewThrough(c: Core, r: Response, steps: seq<Step>, at: nat, core: nat)
    requires c.responses != [] && c.responses[|c.responses| - 1] == r && at + 1 == |steps|
    ensures Through(c, r, Finished(steps, at, core, r.ready))
  {
  }

  lemma NotFinishing(s: Step, core: nat, due: int)
    requires s.core != core
    ensures !Finishes(s, core, due)
  {
  }

  /** An access issued once that hits the data cache completes exactly with the first `Finish` of its core
      that comes a cache latency after the hit, or later: in any run whose clocks do not go back, it has
      completed, once, if there was such a step since, and has not completed if there was none. */
  lemma HitCompletesIff(k: Config, steps: seq<Step>, at: nat, core: nat, id: nat)
    requires k.Valid() && core < k.cores && InTime(steps) && at < |steps| && steps[at].core == core
    requires HitOf(Run(k, steps[..at]).cores[core], steps[at].clock, steps[at].event) == Some(id)
    requires TimesIssued(steps, core, id) == 1
    ensures Occurs(Run(k, steps).cores[core].completed, id)
            == One(Finished(steps, at, core, steps[at].clock + k.l1Hit))
  {
    hide Run, Occurs, InRequests, InPending, InMshr, InResponses, HitOf, Finished;
    HitGoesThrough(k, steps, at, core, id);
    AccessesConserved(k, steps, core, id);
    var c, r := Run(k, steps).cores[core], Response(id, steps[at].clock + k.l1Hit);
    if r in c.responses {
      ResponseAt(c.responses, r);
    }
  }
}
