/** The scan that completes answered misses erases as it goes, and after a removal passes over the entry
    that moves up. So an answered miss may be left for a later cycle: exactly when, and how much later. */
module MissLate {
  import opened Paging
  import opened MissSpec
  import opened MissFlow

  /** The miss has been answered, and its answer has arrived. */
  predicate Due(m: Miss, clock: int) {
    0 < m.ready <= clock
  }

  ghost predicate NoneDue(mshr: seq<Miss>, clock: int, i: nat) {
    forall k :: i <= k < |mshr| ==> !Due(mshr[k], clock)
  }

  ghost predicate NoTwoDue(mshr: seq<Miss>, clock: int, i: nat) {
    forall k :: i <= k < |mshr| - 1 ==> !(Due(mshr[k], clock) && Due(mshr[k + 1], clock))
  }

  /** What lies before the scan is not touched. */
  lemma {:induction false} ScanKeepsPrefix(mshr: seq<Miss>, completed: seq<nat>, clock: int, i: nat)
    requires i <= |mshr|
    ensures var r := Complete(mshr, completed, clock, i).0; i <= |r| && r[..i] == mshr[..i]
    decreases |mshr| - i
  {
    if i < |mshr| {
      var rest := if Due(mshr[i], clock) then mshr[..i] + mshr[i + 1..] else mshr;
      var done := if Due(mshr[i], clock) then completed + mshr[i].merged + [mshr[i].req.id] else completed;
      if i < |rest| {
        ScanKeepsPrefix(rest, done, clock, i + 1);
        var r := Complete(rest, done, clock, i + 1).0;
        assert r[..i] == r[..i + 1][..i] == mshr[..i];
      }
    }
  }

  lemma CompleteUnfolds(mshr: seq<Miss>, completed: seq<nat>, clock: int, i: nat)
    requires i < |mshr|
    ensures var r := Complete(mshr, completed, clock, i).0;
            if !Due(mshr[i], clock) then r == Complete(mshr, completed, clock, i + 1).0
            else
              var rest := mshr[..i] + mshr[i + 1..];
              if i == |rest| then r == rest
              else r == Complete(rest, completed + mshr[i].merged + [mshr[i].req.id], clock, i + 1).0
  {
  }

  lemma {:induction false} CompleteFrom(mshr: seq<Miss>, completed: seq<nat>, clock: int, i: nat)
    requires i <= |mshr|
    ensures NoneDue(Complete(mshr, completed, clock, i).0, clock, i) <==> NoTwoDue(mshr, clock, i)
    decreases |mshr| - i
  {
    hide NoneDue, NoTwoDue, Complete;
    var r := Complete(mshr, completed, clock, i).0;
    if i == |mshr| {
      NothingToComplete(mshr, completed, clock, i);
      NoPair(mshr, r, clock, i);
    } else {
      CompleteUnfolds(mshr, completed, clock, i);
      var rest := mshr[..i] + mshr[i + 1..];
      if !Due(mshr[i], clock) {
        ScanKeepsPrefix(mshr, completed, clock, i + 1);
        CompleteFrom(mshr, completed, clock, i + 1);
        assert r[i] == r[..i + 1][i] == mshr[i];
        NoneDueSplits(r, clock, i);
        UndueFirst(mshr, clock, i);
      } else if i == |rest| {
        NoPair(mshr, r, clock, i);
      } else {
        var done := completed + mshr[i].merged + [mshr[i].req.id];
        ScanKeepsPrefix(rest, done, clock, i + 1);
        CompleteFrom(rest, done, clock, i + 1);
        assert r[i] == r[..i + 1][i] == rest[i] == mshr[i + 1];
        NoneDueSplits(r, clock, i);
        SkippedPair(mshr, rest, clock, i);
      }
    }
  }

  lemma NothingToComplete(mshr: seq<Miss>, completed: seq<nat>, clock: int, i: nat)
    requires i >= |mshr|
    ensures Complete(mshr, completed, clock, i).0 == mshr
  {
  }

  lemma NoPair(mshr: seq<Miss>, r: seq<Miss>, clock: int, i: nat)
    requires |mshr| <= i + 1 && |r| <= i
    ensures NoneDue(r, clock, i) && NoTwoDue(mshr, clock, i)
  {
  }

  lemma UndueFirst(mshr: seq<Miss>, clock: int, i: nat)
    requires i < |mshr| && !Due(mshr[i], clock)
    ensures NoTwoDue(mshr, clock, i) <==> NoTwoDue(mshr, clock, i + 1)
  {
  }

  lemma NoneDueSplits(r: seq<Miss>, clock: int, i: nat)
    requires i < |r|
    ensures NoneDue(r, clock, i) <==> !Due(r[i], clock) && NoneDue(r, clock, i + 1)
  {
  }

  /** The pairs seen after a removal. */
  lemma SkippedPair(mshr: seq<Miss>, rest: seq<Miss>, clock: int, i: nat)
    requires i + 1 < |mshr| && rest == mshr[..i] + mshr[i + 1..] && Due(mshr[i], clock)
    ensures NoTwoDue(mshr, clock, i) <==> !Due(mshr[i + 1], clock) && NoTwoDue(rest, clock, i + 1)
  {
    assert forall k :: i <= k < |rest| ==> rest[k] == mshr[k + 1];
    if NoTwoDue(mshr, clock, i) {
      forall k | i + 1 <= k < |rest| - 1 ensures !(Due(rest[k], clock) && Due(rest[k + 1], clock)) {
        assert rest[k] == mshr[k + 1] && rest[k + 1] == mshr[k + 2];
      }
    }
    if !Due(mshr[i + 1], clock) && NoTwoDue(rest, clock, i + 1) {
      forall k | i <= k < |mshr| - 1 ensures !(Due(mshr[k], clock) && Due(mshr[k + 1], clock)) {
        if k > i + 1 {
          assert rest[k - 1] == mshr[k] && rest[k] == mshr[k + 1];
        }
      }
    }
  }

  /** A cycle completes every answered miss exactly when no two answered ones are neighbours. */
  lemma CompletesAllIff(mshr: seq<Miss>, completed: seq<nat>, clock: int)
    ensures var r := Complete(mshr, completed, clock, 0).0;
            (forall k :: 0 <= k < |r| ==> !Due(r[k], clock))
            <==> (forall k :: 0 <= k < |mshr| - 1 ==> !(Due(mshr[k], clock) && Due(mshr[k + 1], clock)))
  {
    CompleteFrom(mshr, completed, clock, 0);
    var r := Complete(mshr, completed, clock, 0).0;
    assert NoneDue(r, clock, 0) <==> NoTwoDue(mshr, clock, 0);
  }

  /** Two answered neighbours: the first completes, the second is left for the next cycle. */
  lemma SecondIsPassedOver(first: Miss, second: Miss, clock: int)
    requires Due(first, clock) && Due(second, clock)
    ensures Complete([first, second], [], clock, 0) == ([second], first.merged + [first.req.id])
    ensures Complete([second], [], clock, 0) == ([], second.merged + [second.req.id])
  {
    var two := [first, second];
    assert two[..0] + two[1..] == [second];
    assert Complete([second], first.merged + [first.req.id], clock, 1).0 == [second];
    assert [] + first.merged == first.merged && [] + second.merged == second.merged;
    assert [second][..0] + [second][1..] == [];
  }

  // ---------- One entry ----------

  /** How many answered entries lie directly before the k-th, not further back than the i-th. */
  function DueRun(mshr: seq<Miss>, clock: int, i: nat, k: nat): nat
    requires i <= k <= |mshr|
    decreases k
  {
    if k == i || !Due(mshr[k - 1], clock) then 0 else DueRun(mshr, clock, i, k - 1) + 1
  }

  lemma {:induction false} DueRunShifts(mshr: seq<Miss>, rest: seq<Miss>, clock: int, i: nat, k: nat)
    requires i + 2 <= k <= |mshr| && rest == mshr[..i] + mshr[i + 1..] && Due(mshr[i], clock)
    ensures DueRun(rest, clock, i + 1, k - 1) % 2 == DueRun(mshr, clock, i, k) % 2
    decreases k
  {
    assert rest[k - 2] == mshr[k - 1];
    if Due(mshr[k - 1], clock) && k > i + 2 {
      DueRunShifts(mshr, rest, clock, i, k - 1);
    } else if k == i + 2 && Due(mshr[k - 1], clock) {
      assert DueRun(mshr, clock, i, k) == DueRun(mshr, clock, i, i + 1) + 1 == 2;
    }
  }

  lemma {:induction false} DueRunFromNext(mshr: seq<Miss>, clock: int, i: nat, k: nat)
    requires i < k <= |mshr| && !Due(mshr[i], clock)
    ensures DueRun(mshr, clock, i + 1, k) == DueRun(mshr, clock, i, k)
    decreases k
  {
    if k > i + 1 {
      DueRunFromNext(mshr, clock, i, k - 1);
    }
  }

  lemma {:induction false} CompletedGrows(mshr: seq<Miss>, completed: seq<nat>, clock: int, i: nat)
    ensures completed <= Complete(mshr, completed, clock, i).1
    decreases |mshr| - i
  {
    if i < |mshr| {
      if Due(mshr[i], clock) {
        var rest := mshr[..i] + mshr[i + 1..];
        var done := completed + mshr[i].merged + [mshr[i].req.id];
        assert completed <= done;
        if i < |rest| {
          CompletedGrows(rest, done, clock, i + 1);
        }
      } else {
        CompletedGrows(mshr, completed, clock, i + 1);
      }
    }
  }

  /** Where the k-th entry, answered, is after the scan from the i-th: still there, at least one place
      further up, if an odd number of answered entries lie directly before it; completed otherwise. */
  lemma {:induction false} EntryAfter(mshr: seq<Miss>, completed: seq<nat>, clock: int, i: nat, k: nat)
    returns (at: nat)
    requires i <= k < |mshr| && Due(mshr[k], clock)
    ensures var (r, done) := Complete(mshr, completed, clock, i);
            if DueRun(mshr, clock, i, k) % 2 == 1 then at < k && at < |r| && r[at] == mshr[k]
            else Occurs(done, mshr[k].req.id) > Occurs(completed, mshr[k].req.id)
    decreases |mshr| - i
  {
    hide Occurs;
    at := 0;
    var id := mshr[k].req.id;
    if Due(mshr[i], clock) {
      var rest := mshr[..i] + mshr[i + 1..];
      var done := completed + mshr[i].merged + [mshr[i].req.id];
      if k == i {
        OccursAdds(completed + mshr[i].merged, id, id);
        OccursJoin(completed, mshr[i].merged, id);
        if i < |rest| {
          CompletedGrows(rest, done, clock, i + 1);
          PrefixOccurs(done, Complete(rest, done, clock, i + 1).1, id);
        }
      } else if k == i + 1 {
        assert DueRun(mshr, clock, i, k) == DueRun(mshr, clock, i, i) + 1 == 1;
        ScanKeepsPrefix(rest, done, clock, i + 1);
        var r := Complete(rest, done, clock, i + 1).0;
        assert r[i] == r[..i + 1][i] == mshr[k];
        at := i;
      } else {
        DueRunShifts(mshr, rest, clock, i, k);
        assert rest[k - 1] == mshr[k];
        at := EntryAfter(rest, done, clock, i + 1, k - 1);
        OccursAdds(completed + mshr[i].merged, mshr[i].req.id, id);
        OccursJoin(completed, mshr[i].merged, id);
      }
    } else {
      DueRunFromNext(mshr, clock, i, k);
      at := EntryAfter(mshr, completed, clock, i + 1, k);
    }
  }

  /** An entry without its answer stays, if anything further up. */
  lemma {:induction false} UndueStays(mshr: seq<Miss>, completed: seq<nat>, clock: int, i: nat, k: nat)
    returns (at: nat)
    requires i <= |mshr| && k < |mshr| && !Due(mshr[k], clock)
    ensures var r := Complete(mshr, completed, clock, i).0; at <= k && at < |r| && r[at] == mshr[k]
    decreases |mshr| - i
  {
    if k < i {
      ScanKeepsPrefix(mshr, completed, clock, i);
      var r := Complete(mshr, completed, clock, i).0;
      assert r[k] == r[..i][k] == mshr[k];
      at := k;
    } else if Due(mshr[i], clock) {
      var rest := mshr[..i] + mshr[i + 1..];
      assert rest[k - 1] == mshr[k];
      at := UndueStays(rest, completed + mshr[i].merged + [mshr[i].req.id], clock, i + 1, k - 1);
    } else {
      at := UndueStays(mshr, completed, clock, i + 1, k);
    }
  }

  lemma PrefixOccurs(a: seq<nat>, b: seq<nat>, id: nat)
    requires a <= b
    ensures Occurs(a, id) <= Occurs(b, id)
  {
    assert b == a + b[|a|..];
    OccursJoin(a, b[|a|..], id);
  }

  lemma {:induction false} ScanOnlyRemoves(mshr: seq<Miss>, completed: seq<nat>, clock: int, i: nat, x: Miss)
    requires x in Complete(mshr, completed, clock, i).0
    ensures x in mshr
    decreases |mshr| - i
  {
    if i < |mshr| {
      if Due(mshr[i], clock) {
        var rest := mshr[..i] + mshr[i + 1..];
        if i < |rest| {
          ScanOnlyRemoves(rest, completed + mshr[i].merged + [mshr[i].req.id], clock, i + 1, x);
        }
      } else {
        ScanOnlyRemoves(mshr, completed, clock, i + 1, x);
      }
    }
  }

  lemma {:induction false} EntryGone(mshr: seq<Miss>, completed: seq<nat>, clock: int, i: nat, k: nat)
    requires OneEntryPerLine(mshr) && i <= k < |mshr| && Due(mshr[k], clock) && DueRun(mshr, clock, i, k) % 2 == 0
    ensures mshr[k] !in Complete(mshr, completed, clock, i).0
    decreases |mshr| - i
  {
    if Due(mshr[i], clock) {
      var rest := mshr[..i] + mshr[i + 1..];
      var done := completed + mshr[i].merged + [mshr[i].req.id];
      if k == i {
        assert mshr[k] !in rest;
        if i < |rest| && mshr[k] in Complete(rest, done, clock, i + 1).0 {
          ScanOnlyRemoves(rest, done, clock, i + 1, mshr[k]);
        }
      } else if k > i + 1 {
        DueRunShifts(mshr, rest, clock, i, k);
        assert rest[k - 1] == mshr[k];
        EntryGone(rest, done, clock, i + 1, k - 1);
      }
    } else {
      DueRunFromNext(mshr, clock, i, k);
      EntryGone(mshr, completed, clock, i + 1, k);
    }
  }

  /** Exactly when an answered miss is left for a later cycle: an odd number of answered ones lie directly
      before it. One that is not left has completed. */
  lemma PassedOverIff(mshr: seq<Miss>, completed: seq<nat>, clock: int, k: nat)
    requires OneEntryPerLine(mshr) && k < |mshr| && Due(mshr[k], clock)
    ensures var (r, done) := Complete(mshr, completed, clock, 0);
            && (mshr[k] in r <==> DueRun(mshr, clock, 0, k) % 2 == 1)
            && (mshr[k] !in r ==> Occurs(done, mshr[k].req.id) > Occurs(completed, mshr[k].req.id))
  {
    var at := EntryAfter(mshr, completed, clock, 0, k);
    if DueRun(mshr, clock, 0, k) % 2 == 0 {
      EntryGone(mshr, completed, clock, 0, k);
    }
    hide Complete, Occurs;
  }

  // ---------- How much later ----------

  /** The j-th entry of the MSHR is the miss of this request, with this answer. */
  ghost predicate EntryAt(c: Core, j: int, req: Request, ready: int) {
    0 <= j < |c.mshr| && c.mshr[j].req == req && c.mshr[j].ready == ready
  }

  /** The event does not answer the miss anew. */
  ghost predicate Leaves(c: Core, e: Event, req: Request) {
    e.AnswerMiss? && e.i < |c.mshr| ==> c.mshr[e.i].req != req
  }

  /** A completion cycle after the answer has arrived. */
  predicate Completes(e: Event, clock: int, ready: int) {
    e.UpdateMshr? && clock >= ready
  }

  lemma {:induction false} RespondGrows(responses: seq<Response>, completed: seq<nat>, clock: int)
    ensures completed <= Respond(responses, completed, clock).1
    decreases |responses|
  {
    if responses != [] && responses[0].ready <= clock {
      RespondGrows(responses[1..], completed + [responses[0].id], clock);
    }
  }

  lemma CompletionsStay(k: Config, m: Memory, c: Core, clock: int, e: Event, id: nat)
    requires CoreOK(c)
    ensures Occurs(CoreStep(k, m, c, clock, e).1.completed, id) >= Occurs(c.completed, id)
  {
    CompletedGrows(c.mshr, c.completed, clock, 0);
    RespondGrows(c.responses, c.completed, clock);
    PrefixOccurs(c.completed, CoreStep(k, m, c, clock, e).1.completed, id);
    hide Occurs, Complete, Respond;
  }

  lemma MergeKeepsEntry(c: Core, other: Request, j: int, req: Request, ready: int)
    requires EntryAt(c, j, req, ready)
    ensures EntryAt(c.(mshr := CacheMiss(c.mshr, other)), j, req, ready)
  {
  }

  /** A completion cycle after the answer has arrived completes the entry or moves it up; nothing moves it
      further down. */
  lemma EntryStep(k: Config, m: Memory, c: Core, clock: int, e: Event, j: nat, req: Request, ready: int)
    requires CoreOK(c) && EntryAt(c, j, req, ready) && ready > 0 && Leaves(c, e, req)
    ensures var c' := CoreStep(k, m, c, clock, e).1;
            || Occurs(c'.completed, req.id) > Occurs(c.completed, req.id)
            || (exists j' :: 0 <= j' && j' + One(Completes(e, clock, ready)) <= j && EntryAt(c', j', req, ready))
  {
    hide Occurs, Complete, Respond, Resolve, Refill, Lookup, PageWaits, CacheMiss, FirstReady;
    var c' := CoreStep(k, m, c, clock, e).1;
    match e {
      case UpdateMshr =>
        if clock < ready {
          var at := UndueStays(c.mshr, c.completed, clock, 0, j);
          assert EntryAt(c', at, req, ready);
        } else {
          var at := EntryAfter(c.mshr, c.completed, clock, 0, j);
          if DueRun(c.mshr, clock, 0, j) % 2 == 1 {
            assert EntryAt(c', at, req, ready);
          }
        }
      case SearchDtlb(stalled, hit, a) =>
        if c.buffer != [] {
          MergeKeepsEntry(c, c.buffer[0], j, req, ready);
        }
        assert EntryAt(c', j, req, ready);
      case UpdateDtlb(hit) =>
        var i := FirstReady(c.dtlbMiss, clock, 0);
        if i >= 0 {
          MergeKeepsEntry(c, c.dtlbMiss[i].req, j, req, ready);
        }
        assert EntryAt(c', j, req, ready);
      case _ => assert EntryAt(c', j, req, ready);
    }
  }

  /** The completion cycles of a core among the steps from `at` on, those before clock `ready` not counted. */
  function Cycles(steps: seq<Step>, at: nat, core: nat, ready: int): nat
    requires at <= |steps|
    decreases |steps|
  {
    if |steps| == at then 0
    else
      var last := steps[|steps| - 1];
      Cycles(steps[..|steps| - 1], at, core, ready)
      + One(last.core == core && Completes(last.event, last.clock, ready))
  }

  /** From step `at` on nothing answers the miss anew. */
  ghost predicate Answered(k: Config, steps: seq<Step>, at: nat, core: nat, req: Request)
    requires k.Valid() && core < k.cores
  {
    forall t :: at <= t < |steps| ==> LeavesAt(k, steps, t, core, req)
  }

  ghost predicate LeavesAt(k: Config, steps: seq<Step>, t: nat, core: nat, req: Request)
    requires k.Valid() && core < k.cores
  {
    t < |steps| && (steps[t].core == core ==>
      Leaves(Run(k, steps[..t]).cores[core], steps[t].event, req))
  }

  lemma {:induction false} EntryInRun(k: Config, steps: seq<Step>, at: nat, core: nat, i: nat, req: Request, ready: int)
    requires k.Valid() && core < k.cores && at <= |steps| && ready > 0
    requires EntryAt(Run(k, steps[..at]).cores[core], i, req, ready) && Answered(k, steps, at, core, req)
    ensures var c := Run(k, steps).cores[core];
            && Occurs(c.completed, req.id) >= Occurs(Run(k, steps[..at]).cores[core].completed, req.id)
            && (|| Occurs(c.completed, req.id) > Occurs(Run(k, steps[..at]).cores[core].completed, req.id)
                || (exists j :: 0 <= j && j + Cycles(steps, at, core, ready) <= i && EntryAt(c, j, req, ready)))
    decreases |steps|
  {
    hide Occurs, CoreStep, EntryAt, Leaves;
    if |steps| == at {
      assert steps[..at] == steps;
    } else {
      var n := |steps| - 1;
      var front := steps[..n];
      assert front[..at] == steps[..at];
      forall t | at <= t < n ensures LeavesAt(k, front, t, core, req) {
        assert LeavesAt(k, steps, t, core, req) && front[..t] == steps[..t];
      }
      EntryInRun(k, front, at, core, i, req, ready);
      if steps[n].core == core {
        var before := Run(k, front);
        assert LeavesAt(k, steps, n, core, req);
        CompletionsStay(k, before.memory, before.cores[core], steps[n].clock, steps[n].event, req.id);
        if j :| 0 <= j && j + Cycles(front, at, core, ready) <= i && EntryAt(before.cores[core], j, req, ready) {
          EntryStep(k, before.memory, before.cores[core], steps[n].clock, steps[n].event, j, req, ready);
        }
      }
    }
  }

  /** However late: an answered miss in place i of the MSHR completes within i + 1 completion cycles of its
      core after its answer has arrived, whatever else happens, unless it is answered anew. */
  lemma CompletesWithin(k: Config, steps: seq<Step>, at: nat, core: nat, i: nat, req: Request, ready: int)
    requires k.Valid() && core < k.cores && at <= |steps| && ready > 0
    requires EntryAt(Run(k, steps[..at]).cores[core], i, req, ready) && Answered(k, steps, at, core, req)
    requires Cycles(steps, at, core, ready) >= i + 1
    ensures Occurs(Run(k, steps).cores[core].completed, req.id)
            > Occurs(Run(k, steps[..at]).cores[core].completed, req.id)
  {
    EntryInRun(k, steps, at, core, i, req, ready);
  }

  // ---------- The bound is reached ----------

  /** The t-th of a row of accesses, each on a page of its own. */
  function Rung(t: nat): Request {
    Request(t, PAGE * t, 0)
  }

  /** The MSHR after completion cycles at the clocks base + 1, ..., base + n. */
  function AfterCycles(mshr: seq<Miss>, base: nat, n: nat): seq<Miss> {
    if n == 0 then mshr else Complete(AfterCycles(mshr, base, n - 1), [], base + n, 0).0
  }

  /** i misses whose answers arrive one a cycle, last place first, and one answered at once behind them. */
  function Ladder(base: nat, i: nat, rungs: nat): seq<Miss> {
    seq(rungs, t requires 0 <= t => Miss(Rung(t), [], base + i - t)) + [Miss(Rung(i), [], base + 1)]
  }

  lemma {:induction false} ScanSkipsUndue(mshr: seq<Miss>, completed: seq<nat>, clock: int, i: nat, to: nat)
    requires i <= to <= |mshr|
    requires forall t :: i <= t < to ==> !Due(mshr[t], clock)
    ensures Complete(mshr, completed, clock, i) == Complete(mshr, completed, clock, to)
    decreases |mshr| - i
  {
    if i < to {
      ScanSkipsUndue(mshr, completed, clock, i + 1, to);
    }
  }

  lemma LadderLosesRung(base: nat, i: nat, rungs: nat, completed: seq<nat>)
    requires 1 <= rungs <= i
    ensures Complete(Ladder(base, i, rungs), completed, base + i - rungs + 1, 0)
            == (Ladder(base, i, rungs - 1), completed + [rungs - 1])
  {
    var mshr, clock := Ladder(base, i, rungs), base + i - rungs + 1;
    ScanSkipsUndue(mshr, completed, clock, 0, rungs - 1);
    assert Due(mshr[rungs - 1], clock);
    var rest := mshr[..rungs - 1] + mshr[rungs..];
    assert rest == Ladder(base, i, rungs - 1);
    var done := completed + mshr[rungs - 1].merged + [mshr[rungs - 1].req.id];
    assert done == completed + [rungs - 1];
    assert Complete(rest, done, clock, rungs) == (rest, done);
  }

  lemma {:induction false} LadderLosesRungs(base: nat, i: nat, n: nat)
    requires n <= i
    ensures AfterCycles(Ladder(base, i, i), base, n) == Ladder(base, i, i - n)
    decreases n
  {
    if n > 0 {
      LadderLosesRungs(base, i, n - 1);
      LadderLosesRung(base, i, i - n + 1, []);
    }
  }

  /** For every place i there is an MSHR in which the i-th entry, answered at once, is passed over in i
      cycles running. */
  lemma BoundIsReached(base: nat, i: nat)
    ensures var mshr := Ladder(base, i, i);
            && |mshr| == i + 1 && OneEntryPerLine(mshr) && Due(mshr[i], base + 1)
            && forall n :: 0 <= n <= i ==> mshr[i] in AfterCycles(mshr, base, n)
  {
    forall n | 0 <= n <= i ensures Ladder(base, i, i)[i] in AfterCycles(Ladder(base, i, i), base, n) {
      LadderLosesRungs(base, i, n);
      assert Ladder(base, i, i - n)[i - n] == Ladder(base, i, i)[i];
    }
  }
}
