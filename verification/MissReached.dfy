/** A run of a node in which an answered miss is left as long as can be: the bound on completions is met. */
module MissReached {
  import opened Paging
  import opened RotatingSet
  import opened MissSpec
  import opened MissFlow
  import opened MissLate

  // ---------- Misses in the DTLB ----------

  /** Only pages below the n-th have been filled in. */
  ghost predicate TagsBelow(t: Tlb, n: nat) {
    forall i, w :: 0 <= i < |t| && 0 <= w < |t[i].ways| && t[i].ways[w].valid ==> t[i].ways[w].tag < n
  }

  lemma LookupMisses(t: Tlb, vaddr: nat, asid: int, n: nat)
    requires |t| >= 1 && TagsBelow(t, n) && TlbTag(vaddr) >= n
    ensures Lookup(t, vaddr, asid) == None
  {
    var i := TlbTag(vaddr) % |t|;
    var w := Find(t[i], TlbTag(vaddr), asid);
    if w >= 0 {
      assert false;
    }
  }

  lemma RefillBelow(t: Tlb, vaddr: nat, asid: int, frame: nat, n: nat)
    requires TlbOK(t) && TagsBelow(t, n) && TlbTag(vaddr) == n
    ensures TagsBelow(Refill(t, vaddr, asid, frame), n + 1)
  {
  }

  lemma RungTag(t: nat)
    ensures TlbTag(Rung(t).vaddr) == t
  {
  }

  // ---------- One access ----------

  /** The core has these misses outstanding, and nothing else has happened but fills of the first n pages. */
  ghost predicate Climbing(c: Core, mshr: seq<Miss>, n: nat) {
    && CoreOK(c) && c.mshr == mshr && TagsBelow(c.dtlb, n)
    && c.buffer == [] && c.dtlbMiss == [] && c.completed == []
  }

  lemma SearchMisses(k: Config, m: Memory, c: Core, clock: int, r: Request, a: Allocation)
    requires CoreOK(c) && c.buffer == [r] && c.dtlbMiss == [] && Lookup(c.dtlb, r.vaddr, r.asid) == None && k.mshr >= 1
    ensures var c' := Search(k, m, c, clock, false, false, a).1;
            |c'.dtlbMiss| == 1 && c'.dtlbMiss[0].req == r && c' == c.(buffer := [], dtlbMiss := c'.dtlbMiss)
  {
    hide Lookup, Resolve;
    assert c.buffer[1..] == [];
  }

  lemma UpdateOpens(k: Config, c: Core, clock: int)
    requires CoreOK(c) && |c.dtlbMiss| == 1 && c.dtlbMiss[0].ready <= clock
    requires |c.mshr| < k.mshr && LineMiss(c.mshr, c.dtlbMiss[0].req.vaddr) < 0
    ensures var p := c.dtlbMiss[0];
            DtlbUpdate(k, c, clock, false)
            == c.(dtlb := Refill(c.dtlb, p.req.vaddr, p.req.asid, p.frame), passed := true,
                  mshr := c.mshr + [Miss(p.req, [], -1)], dtlbMiss := [])
  {
    hide Refill, LineMiss;
    assert FirstReady(c.dtlbMiss, clock, 0) == 0;
    assert c.dtlbMiss[..0] + c.dtlbMiss[1..] == [];
  }

  lemma RunAdds(k: Config, steps: seq<Step>, step: Step)
    requires k.Valid() && step.core < k.cores
    ensures var n := Run(k, steps);
            Run(k, steps + [step]).cores[step.core]
            == CoreStep(k, n.memory, n.cores[step.core], step.clock, step.event).1
  {
    assert (steps + [step])[..|steps|] == steps;
    hide CoreStep;
  }

  // ---------- The accesses ----------

  function Now(steps: seq<Step>): int {
    if steps == [] then 0 else steps[|steps| - 1].clock
  }

  ghost predicate InTime(steps: seq<Step>) {
    forall a, b :: 0 <= a <= b < |steps| ==> 0 <= steps[a].clock <= steps[b].clock
  }

  lemma LaterInTime(steps: seq<Step>, step: Step)
    requires InTime(steps) && step.clock >= Now(steps) >= 0
    ensures InTime(steps + [step])
  {
  }

  /** An access is issued, misses the DTLB and waits for its translation. */
  function Asks(steps: seq<Step>, core: nat, t: nat): seq<Step> {
    steps + [Step(core, Now(steps), Issue(Rung(t)))]
    + [Step(core, Now(steps), SearchDtlb(false, false, Allocation(0, true, false)))]
  }

  function ReadyAt(c: Core): int {
    if c.dtlbMiss == [] then 0 else c.dtlbMiss[0].ready
  }

  /** When the translation has arrived, the access misses the cache. */
  function Opens(k: Config, steps: seq<Step>, core: nat): seq<Step>
    requires k.Valid() && core < k.cores
  {
    var ready := ReadyAt(Run(k, steps).cores[core]);
    steps + [Step(core, if ready <= Now(steps) then Now(steps) else ready, UpdateDtlb(false))]
  }

  /** The first n accesses of the row, one after the other. */
  function Climb(k: Config, core: nat, n: nat): seq<Step>
    requires k.Valid() && core < k.cores
  {
    if n == 0 then [] else Opens(k, Asks(Climb(k, core, n - 1), core, n - 1), core)
  }

  function Unanswered(n: nat): seq<Miss> {
    seq(n, t requires 0 <= t => Miss(Rung(t), [], -1))
  }

  lemma AskStep(k: Config, steps: seq<Step>, core: nat, mshr: seq<Miss>, t: nat)
    requires k.Valid() && core < k.cores && k.mshr >= 1 && InTime(steps) && Now(steps) >= 0
    requires Climbing(Run(k, steps).cores[core], mshr, t)
    ensures var steps' := Asks(steps, core, t); var c := Run(k, steps').cores[core];
            && InTime(steps') && Now(steps') >= 0
            && |c.dtlbMiss| == 1 && c.dtlbMiss[0].req == Rung(t) && Climbing(c.(dtlbMiss := []), mshr, t)
  {
    var issue := Step(core, Now(steps), Issue(Rung(t)));
    var search := Step(core, Now(steps), SearchDtlb(false, false, Allocation(0, true, false)));
    RunAdds(k, steps, issue);
    RunAdds(k, steps + [issue], search);
    LaterInTime(steps, issue);
    LaterInTime(steps + [issue], search);
    hide Run, InTime, Climbing, CoreStep;
    AskCore(k, Run(k, steps).memory, Run(k, steps + [issue]).memory, Run(k, steps).cores[core], Now(steps), mshr, t);
  }

  lemma AskCore(k: Config, m: Memory, m': Memory, c: Core, clock: int, mshr: seq<Miss>, t: nat)
    requires k.mshr >= 1 && Climbing(c, mshr, t)
    ensures var c1 := CoreStep(k, m, c, clock, Issue(Rung(t))).1;
            var c2 := CoreStep(k, m', c1, clock, SearchDtlb(false, false, Allocation(0, true, false))).1;
            |c2.dtlbMiss| == 1 && c2.dtlbMiss[0].req == Rung(t) && Climbing(c2.(dtlbMiss := []), mshr, t)
  {
    hide TagsBelow, Search, Lookup;
    RungTag(t);
    LookupMisses(c.dtlb, Rung(t).vaddr, 0, t);
    assert c.buffer + [Rung(t)] == [Rung(t)];
    SearchMisses(k, m', c.(buffer := [Rung(t)]), clock, Rung(t), Allocation(0, true, false));
  }

  lemma OpenStep(k: Config, steps: seq<Step>, core: nat, mshr: seq<Miss>, t: nat)
    requires k.Valid() && core < k.cores && |mshr| < k.mshr && InTime(steps) && Now(steps) >= 0
    requires var c := Run(k, steps).cores[core];
             |c.dtlbMiss| == 1 && c.dtlbMiss[0].req == Rung(t) && Climbing(c.(dtlbMiss := []), mshr, t)
    requires LineMiss(mshr, Rung(t).vaddr) < 0
    ensures var steps' := Opens(k, steps, core);
            && InTime(steps') && Now(steps') >= 0
            && Climbing(Run(k, steps').cores[core], mshr + [Miss(Rung(t), [], -1)], t + 1)
  {
    var c := Run(k, steps).cores[core];
    var clock := if ReadyAt(c) <= Now(steps) then Now(steps) else ReadyAt(c);
    var step := Step(core, clock, UpdateDtlb(false));
    RunAdds(k, steps, step);
    LaterInTime(steps, step);
    hide Run, InTime, TagsBelow, Refill, LineMiss, DtlbUpdate;
    UpdateOpens(k, c, clock);
    RungTag(t);
    RefillBelow(c.dtlb, Rung(t).vaddr, 0, c.dtlbMiss[0].frame, t);
  }

  lemma NoneOnLine(n: nat)
    ensures LineMiss(Unanswered(n), Rung(n).vaddr) < 0
  {
    var j := LineMiss(Unanswered(n), Rung(n).vaddr);
    if j >= 0 {
      assert false;
    }
  }

  lemma FreshCore(k: Config, core: nat)
    requires k.Valid() && core < k.cores
    ensures Climbing(Run(k, []).cores[core], [], 0)
  {
  }

  lemma {:induction false} ClimbReaches(k: Config, core: nat, n: nat)
    requires k.Valid() && core < k.cores && n <= k.mshr
    ensures var steps := Climb(k, core, n);
            && InTime(steps) && Now(steps) >= 0
            && Climbing(Run(k, steps).cores[core], Unanswered(n), n)
    decreases n
  {
    hide Run, Climbing, InTime, Opens, Asks, LineMiss;
    if n == 0 {
      FreshCore(k, core);
      NothingYetInTime();
      assert Unanswered(0) == [];
    } else {
      ClimbReaches(k, core, n - 1);
      AskStep(k, Climb(k, core, n - 1), core, Unanswered(n - 1), n - 1);
      NoneOnLine(n - 1);
      OpenStep(k, Asks(Climb(k, core, n - 1), core, n - 1), core, Unanswered(n - 1), n - 1);
      assert Unanswered(n - 1) + [Miss(Rung(n - 1), [], -1)] == Unanswered(n);
    }
  }

  lemma NothingYetInTime()
    ensures InTime([])
  {
  }

  // ---------- The answers ----------

  /** The misses with the first n of them answered: the answers arrive one a cycle, last place first, and
      that of the i-th, behind them, with the first. */
  function Rungs(base: nat, i: nat, n: nat): seq<Miss> {
    seq(i + 1, t requires 0 <= t => Miss(Rung(t), [], if t >= n then -1 else if t < i then base + i - t else base + 1))
  }

  function Answers(core: nat, base: nat, i: nat, n: nat): seq<Step> {
    if n == 0 then []
    else Answers(core, base, i, n - 1)
         + [Step(core, base, AnswerMiss(n - 1, if n - 1 < i then base + i - (n - 1) else base + 1))]
  }

  /** Everything up to the last answer. */
  function Prelude(k: Config, core: nat, i: nat, n: nat): seq<Step>
    requires k.Valid() && core < k.cores && Now(Climb(k, core, i + 1)) >= 0
  {
    Climb(k, core, i + 1) + Answers(core, Now(Climb(k, core, i + 1)), i, n)
  }

  lemma {:induction false} AnswersReach(k: Config, core: nat, i: nat, n: nat)
    requires k.Valid() && core < k.cores && i < k.mshr && n <= i + 1
    ensures Now(Climb(k, core, i + 1)) >= 0
    ensures var base, steps := Now(Climb(k, core, i + 1)), Prelude(k, core, i, n);
            && InTime(steps) && Now(steps) == base
            && Climbing(Run(k, steps).cores[core], Rungs(base, i, n), i + 1)
    decreases n
  {
    hide Run, InTime, Climb, TagsBelow;
    ClimbReaches(k, core, i + 1);
    var climb := Climb(k, core, i + 1);
    var base := Now(climb);
    if n == 0 {
      assert Prelude(k, core, i, 0) == climb;
      assert Rungs(base, i, 0) == Unanswered(i + 1);
    } else {
      AnswersReach(k, core, i, n - 1);
      var before := Prelude(k, core, i, n - 1);
      var ready := if n - 1 < i then base + i - (n - 1) else base + 1;
      var step := Step(core, base, AnswerMiss(n - 1, ready));
      assert Prelude(k, core, i, n) == before + [step];
      RunAdds(k, before, step);
      LaterInTime(before, step);
      assert Rungs(base, i, n - 1)[n - 1 := Miss(Rung(n - 1), [], ready)] == Rungs(base, i, n);
    }
  }

  // ---------- The completion cycles ----------

  function Updates(core: nat, base: nat, n: nat): seq<Step> {
    if n == 0 then [] else Updates(core, base, n - 1) + [Step(core, base + n, UpdateMshr)]
  }

  /** The whole run: i + 1 accesses and their answers, then n completion cycles. */
  function Late(k: Config, core: nat, i: nat, n: nat): seq<Step>
    requires k.Valid() && core < k.cores && Now(Climb(k, core, i + 1)) >= 0
  {
    Prelude(k, core, i, i + 1) + Updates(core, Now(Climb(k, core, i + 1)), n)
  }

  /** After n completion cycles n rungs are gone, the last ones first, and the i-th miss has not completed. */
  ghost predicate OnLadder(c: Core, base: nat, i: nat, n: nat) {
    CoreOK(c) && n <= i && c.mshr == Ladder(base, i, i - n) && Occurs(c.completed, i) == 0
  }

  lemma CompletesRung(k: Config, m: Memory, c: Core, base: nat, i: nat, n: nat)
    requires 1 <= n <= i && OnLadder(c, base, i, n - 1)
    ensures OnLadder(CoreStep(k, m, c, base + n, UpdateMshr).1, base, i, n)
  {
    LadderLosesRung(base, i, i - n + 1, c.completed);
    assert Complete(c.mshr, c.completed, base + n, 0) == (Ladder(base, i, i - n), c.completed + [i - n]);
    OccursAdds(c.completed, i - n, i);
    hide Complete, Ladder, Occurs, Search, DtlbUpdate, FetchStep, ItlbUpdate, Expire, Respond, CoreOK;
  }

  lemma {:induction false} UpdatesReach(k: Config, core: nat, i: nat, n: nat)
    requires k.Valid() && core < k.cores && i < k.mshr && n <= i
    ensures Now(Climb(k, core, i + 1)) >= 0
    ensures var base, steps := Now(Climb(k, core, i + 1)), Late(k, core, i, n);
            && InTime(steps) && Now(steps) == base + n
            && OnLadder(Run(k, steps).cores[core], base, i, n)
    decreases n
  {
    hide Run, InTime, Climb, TagsBelow, Ladder, Prelude, CoreStep;
    AnswersReach(k, core, i, i + 1);
    var base := Now(Climb(k, core, i + 1));
    if n == 0 {
      assert Late(k, core, i, 0) == Prelude(k, core, i, i + 1);
      RungsAreLadder(base, i);
    } else {
      UpdatesReach(k, core, i, n - 1);
      var before := Late(k, core, i, n - 1);
      var step := Step(core, base + n, UpdateMshr);
      assert Late(k, core, i, n) == before + [step];
      RunAdds(k, before, step);
      LaterInTime(before, step);
      CompletesRung(k, Run(k, before).memory, Run(k, before).cores[core], base, i, n);
    }
  }

  lemma RungsAreLadder(base: nat, i: nat)
    ensures Rungs(base, i, i + 1) == Ladder(base, i, i)
  {
  }

  // ---------- The bound is met ----------

  lemma {:induction false} OnlyUpdates(core: nat, base: nat, n: nat)
    ensures |Updates(core, base, n)| == n
    ensures forall t :: 0 <= t < n ==> Updates(core, base, n)[t] == Step(core, base + t + 1, UpdateMshr)
    decreases n
  {
    if n > 0 {
      OnlyUpdates(core, base, n - 1);
    }
  }

  lemma {:induction false} CyclesOfUpdates(prelude: seq<Step>, core: nat, base: nat, n: nat)
    ensures |prelude| <= |prelude + Updates(core, base, n)|
    ensures Cycles(prelude + Updates(core, base, n), |prelude|, core, base + 1) == n
    decreases n
  {
    if n > 0 {
      CyclesOfUpdates(prelude, core, base, n - 1);
      var steps := prelude + Updates(core, base, n);
      OnlyUpdates(core, base, n);
      assert steps[..|steps| - 1] == prelude + Updates(core, base, n - 1);
      assert steps[|steps| - 1] == Step(core, base + n, UpdateMshr);
    } else {
      assert prelude + Updates(core, base, 0) == prelude;
    }
  }

  /** For every node and every place i that an MSHR of its size has, there is a run, with clocks that never
      go back, in which a miss in place i is answered, is not answered anew, and after i completion cycles
      has still not completed: one cycle fewer than always suffices is not enough. */
  lemma BoundIsMet(k: Config, core: nat, i: nat) returns (steps: seq<Step>, at: nat, ready: int)
    requires k.Valid() && core < k.cores && i < k.mshr
    ensures at <= |steps| && ready > 0 && InTime(steps)
    ensures EntryAt(Run(k, steps[..at]).cores[core], i, Rung(i), ready) && Answered(k, steps, at, core, Rung(i))
    ensures Cycles(steps, at, core, ready) == i
    ensures Occurs(Run(k, steps).cores[core].completed, Rung(i).id) == 0
  {
    hide Run, InTime, Climb, TagsBelow, Prelude, CoreStep, Cycles, Leaves;
    AnswersReach(k, core, i, i + 1);
    UpdatesReach(k, core, i, i);
    UpdatesReach(k, core, i, 0);
    var base := Now(Climb(k, core, i + 1));
    var prelude := Prelude(k, core, i, i + 1);
    steps, at, ready := Late(k, core, i, i), |prelude|, base + 1;
    assert steps[..at] == prelude == Late(k, core, i, 0);
    CyclesOfUpdates(prelude, core, base, i);
    OnlyUpdates(core, base, i);
    forall t | at <= t < |steps| ensures LeavesAt(k, steps, t, core, Rung(i)) {
      assert steps[t] == Step(core, base + (t - at) + 1, UpdateMshr);
      UpdateLeaves(Run(k, steps[..t]).cores[core], Rung(i));
    }
  }

  lemma UpdateLeaves(c: Core, req: Request)
    ensures Leaves(c, UpdateMshr, req)
  {
  }
}
