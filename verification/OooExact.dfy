/** What a cycle does, over runs: the number issued and committed, exactly which instructions are
    dispatched and which execute, and what a mispredicted branch costs. */
module OooExact {
  import opened RobRing
  import opened OooSpec
  import opened OooInvariant
  import opened OooTheorems
  import opened OooWidth
  import opened OooCycle

  // ---------- The stages of a cycle ----------

  /** The states between the stages of an unstalled cycle: after issue, dispatch, check and broadcast. */
  datatype Stages = Stages(issued: State, dispatched: State, checked: State, done: seq<nat>, announced: State)

  function StagesOf(c: Config, s: State, arrivals: seq<Decoded>, clock: int): (g: Stages)
    requires Shape(c, s) && DecodeOK(c, arrivals)
    ensures Shape(c, g.issued) && Shape(c, g.dispatched) && Shape(c, g.checked) && SlotsOK(c, g.done)
            && Shape(c, g.announced)
    ensures g.announced == BeforeCommit(c, s, arrivals, clock)
    ensures Shape(c, s.(decode := s.decode + arrivals))
            && g.issued == Issue(c, s.(decode := s.decode + arrivals), clock, 0)
    ensures g.dispatched == Dispatch(c, g.issued, 0)
    ensures (g.checked, g.done) == Check(c, g.dispatched, 0, 0, [])
    ensures g.announced == Broadcast(c, g.checked, g.done)
  {
    hide Shape, Issue, Dispatch, Check, Broadcast;
    FetchedShape(c, s, arrivals);
    NothingChecked(c, s);
    var s1 := Issue(c, s.(decode := s.decode + arrivals), clock, 0);
    var s2 := Dispatch(c, s1, 0);
    var (s3, done) := Check(c, s2, 0, 0, []);
    Stages(s1, s2, s3, done, Broadcast(c, s3, done))
  }

  /** What the stages keep and do, put together. */
  ghost predicate StagesRight(c: Config, prog: seq<Instr>, s: State, g: Stages, clock: int) {
    && Inv(c, prog, g.issued, [], -1) && Inv(c, prog, g.dispatched, [], -1) && Inv(c, prog, g.announced, [], -1)
    && IssuesLimit(c, s, g.issued, clock, c.issueWidth)
    && Dispatches(g.issued, g.dispatched, 0, c.branchPenalty)
    && ChecksExactly(c, g.dispatched, 0, 0, [], g.checked, g.done)
    && SameIds(g.checked, g.announced) && g.announced.units == g.checked.units
    && g.announced.penalty == g.checked.penalty && g.checked.log <= g.announced.log
    && (forall e :: e in g.announced.log <==> e in g.checked.log || Holding(g.checked, g.done, e))
    && NoneFinished(c, g.announced.units, c.types, 0)
  }

  /** The fetched instructions joined to the decode buffer. */
  function Fetch(s: State, arrivals: seq<Decoded>): State {
    s.(decode := s.decode + arrivals)
  }

  lemma StagesAreRight(c: Config, prog: seq<Instr>, s: State, arrivals: seq<Decoded>, clock: int)
    requires Shape(c, s) && DecodeOK(c, arrivals) && TailsFresh(s.ready) && Inv(c, prog, Fetch(s, arrivals), [], -1)
    ensures StagesRight(c, prog, Fetch(s, arrivals), StagesOf(c, s, arrivals, clock), clock)
  {
    hide Inv, Shape, Issue, Dispatch, Check, Broadcast, TailsFresh, IssuesLimit, Dispatches, ChecksExactly, SameIds,
         Holding, NoneFinished, StagesOf;
    var s0, g := Fetch(s, arrivals), StagesOf(c, s, arrivals, clock);
    FetchedShape(c, s, arrivals);
    IssueCount(c, s0, clock, 0);
    IssueStage(c, prog, s0, clock, 0);
    IssueKeepsTails(c, s0, clock, 0);
    DispatchesExactly(c, prog, g.issued, 0);
    DispatchStage(c, prog, g.issued, 0);
    NothingChecked(c, g.dispatched);
    CheckIsExact(c, g.dispatched, 0, 0, []);
    CheckStage(c, prog, g.dispatched, 0, 0, []);
    BroadcastIsExact(c, g.checked, g.done);
    BroadcastStage(c, prog, g.checked, g.done);
  }

  // ---------- Issue ----------

  /** An unstalled cycle issues as many instructions as there are attempts, free stations, free slots and
      due instructions at the front of the decode buffer, whichever is least; a stalled one issues none. */
  lemma CycleIssues(c: Config, s: State, arrivals: seq<Decoded>, clock: int, storeRoom: nat -> bool)
    requires Shape(c, s) && DecodeOK(c, arrivals)
    ensures var s' := UpdateCore(c, s, arrivals, clock, storeRoom);
            if s.penalty > 0 then s'.issued == s.issued && s'.decode == s.decode
            else
              var n := Min(Min(c.issueWidth, FreeCount(s.rs)),
                           Min(c.robSize - |s.live|, DuePrefix(s.decode + arrivals, clock)));
              n >= 0 && s'.issued == s.issued + n && s'.decode == (s.decode + arrivals)[n..]
  {
    if s.penalty == 0 {
      FetchedShape(c, s, arrivals);
      IssueCount(c, Fetch(s, arrivals), clock, 0);
    }
    hide Shape, Issue, Dispatch, Check, Broadcast, Commit, FreeCount, DuePrefix;
  }

  // ---------- Dispatch and penalties ----------

  /** Issuing does not disturb the heads of the queues, and what it queues has not aged. */
  lemma IssueKeepsHeads(c: Config, s: State, s1: State, n: nat, t: int)
    requires Shape(c, s) && Shape(c, s1) && ReadyInv(s.ready, s.rs) && Issues(s, s1, n)
    ensures Charges(s1, t) <==> Charges(s, t)
    ensures forall m :: Sends(s1, t, m) <==> Sends(s, t, m)
  {
    if 0 <= t < |s.ready| {
      assert Queues(s.ready[t], s1.ready[t]);
      if s.ready[t] != [] {
        assert QueuedAt(s.ready, t, 0, s.ready[t][0].rs);
        assert s1.ready[t][0] == s.ready[t][0];
      } else if s1.ready[t] != [] {
        assert s1.ready[t][0].cycles == 0;
      }
    }
    hide HasIdle, RobOK, RatOK, DecodeOK, ReadyInv, QueuedAt;
  }

  /** A reachable state and its next cycle, unstalled: the stages, the state after the commit stage, and
      the state after the cycle. */
  ghost predicate NextCycle(c: Config, prog: seq<Instr>, s: State, input: Input, g: Stages, y: State, s': State) {
    && Shape(c, s) && Shape(c, y) && Inv(c, prog, s, [], -1) && Inv(c, prog, y, [], -1) && Inv(c, prog, s', [], -1)
    && StagesRight(c, prog, Fetch(s, Arrivals(prog, s.issued + |s.decode|, input.due)), g, input.clock)
    && Shape(c, g.issued)
    && Commits(g.announced, y, input.storeRoom, 0, c.commitWidth)
    && s' == EndCycle(c, y)
    && TailsFresh(s.ready) && FromStages(c, s, Arrivals(prog, s.issued + |s.decode|, input.due), input, g, y)
  }

  ghost predicate FromStages(c: Config, s: State, arrivals: seq<Decoded>, input: Input, g: Stages, y: State)
    requires Shape(c, s)
  {
    && DecodeOK(c, arrivals) && g == StagesOf(c, s, arrivals, input.clock)
    && y == Commit(c, g.announced, input.storeRoom, 0)
  }

  lemma NextCycleIs(c: Config, prog: seq<Instr>, inputs: seq<Input>, input: Input) returns (g: Stages, y: State)
    requires c.Valid() && WellFormed(c, prog)
    requires Run(c, prog, inputs).penalty == 0
    ensures NextCycle(c, prog, Run(c, prog, inputs), input, g, y, Run(c, prog, inputs + [input]))
  {
    hide Inv, HeadsAged, TailsFresh, StagesRight, Shape, Commits, Run, BeforeCommit, Commit, EndCycle;
    var s := Run(c, prog, inputs);
    Reachable(c, prog, inputs);
    Reachable(c, prog, inputs + [input]);
    TailsStayFresh(c, prog, inputs);
    RunAdds(c, prog, inputs, input);
    var arrivals := Arrivals(prog, s.issued + |s.decode|, input.due);
    FetchKeepsInv(c, prog, s, input.due);
    StagesAreRight(c, prog, s, arrivals, input.clock);
    g := StagesOf(c, s, arrivals, input.clock);
    AnnouncedInv(c, prog, Fetch(s, arrivals), g, input.clock);
    CommitIsExact(c, g.announced, input.storeRoom, 0);
    CommitStage(c, prog, g.announced, input.storeRoom, 0);
    y := Commit(c, g.announced, input.storeRoom, 0);
  }

  lemma AnnouncedInv(c: Config, prog: seq<Instr>, s0: State, g: Stages, clock: int)
    requires StagesRight(c, prog, s0, g, clock)
    ensures Inv(c, prog, g.announced, [], -1)
  {
  }

  lemma RunAdds(c: Config, prog: seq<Instr>, inputs: seq<Input>, input: Input)
    requires c.Valid() && WellFormed(c, prog)
    ensures Run(c, prog, inputs + [input]) == Step(c, prog, Run(c, prog, inputs), input)
  {
    assert (inputs + [input])[..|inputs|] == inputs;
    hide Step;
  }

  lemma StalledCycle(c: Config, prog: seq<Instr>, inputs: seq<Input>, input: Input)
    requires c.Valid() && WellFormed(c, prog)
    requires Run(c, prog, inputs).penalty > 0
    ensures var s := Run(c, prog, inputs); Run(c, prog, inputs + [input]) == s.(penalty := s.penalty - 1)
  {
    RunAdds(c, prog, inputs, input);
    hide Run;
  }

  lemma RunUnrolls(c: Config, prog: seq<Instr>, inputs: seq<Input>)
    requires c.Valid() && WellFormed(c, prog) && inputs != []
    ensures var front := inputs[..|inputs| - 1]; inputs == front + [inputs[|inputs| - 1]]
  {
  }

  /** In every run an unstalled cycle dispatches exactly the instructions that were at the head of their
      queues, with an idle unit for them, and were no flagged branches; it charges the branch penalty
      exactly if there was such a flagged branch, and otherwise none. A stalled cycle works one cycle of
      the penalty off and does nothing else. */
  lemma DispatchIsExact(c: Config, prog: seq<Instr>, inputs: seq<Input>, input: Input)
    requires c.Valid() && WellFormed(c, prog)
    ensures var s, s' := Run(c, prog, inputs), Run(c, prog, inputs + [input]);
            if s.penalty > 0 then s' == s.(penalty := s.penalty - 1)
            else
              && (forall n :: Dispatched(n) in s'.log <==> Dispatched(n) in s.log || exists t :: Sends(s, t, n))
              && s'.penalty == (if exists t :: Charges(s, t) then c.branchPenalty else 0)
  {
    var s := Run(c, prog, inputs);
    hide Run, NextCycle, Sends, Charges, Step;
    if s.penalty > 0 {
      StalledCycle(c, prog, inputs, input);
    } else {
      var g, y := NextCycleIs(c, prog, inputs, input);
      DispatchIsExactState(c, prog, s, input, g, y, Run(c, prog, inputs + [input]));
    }
  }

  /** The stages' additions to the history, kind by kind. */
  lemma HistoryOfCycle(c: Config, prog: seq<Instr>, s0: State, g: Stages, clock: int, y: State, room: nat -> bool,
                       e: Event)
    requires StagesRight(c, prog, s0, g, clock) && Commits(g.announced, y, room, 0, c.commitWidth)
    ensures e.Dispatched? ==> (e in y.log <==> e in s0.log || SentFrom(g.issued, 0, e))
    ensures e.Executed? ==> (e in y.log <==> e in s0.log || Holding(g.checked, g.done, e))
    ensures e in g.dispatched.log && e.Dispatched? <==> e in y.log && e.Dispatched?
    ensures e in g.dispatched.log && e.Executed? <==> e in s0.log && e.Executed?
  {
    hide Inv, SameIds, NoneFinished, Releases, FinishesSlot, UnitsGrow, StopsRightly, Retirable, Queues, Sends, Charges;
  }

  lemma PenaltyOfCycle(c: Config, prog: seq<Instr>, s0: State, g: Stages, clock: int, y: State, room: nat -> bool)
    requires StagesRight(c, prog, s0, g, clock) && Commits(g.announced, y, room, 0, c.commitWidth)
    ensures y.penalty == if ChargedFrom(g.issued, 0) then c.branchPenalty else s0.penalty
  {
    hide Inv, SameIds, NoneFinished, Releases, FinishesSlot, UnitsGrow, StopsRightly, Retirable, Queues, Sends, Charges;
  }

  /** The same heads are eligible in both states. */
  ghost predicate SameHeads(s: State, s': State) {
    && (forall t :: Charges(s', t) <==> Charges(s, t))
    && (forall t, n :: Sends(s', t, n) <==> Sends(s, t, n))
  }

  lemma HeadsOfCycle(c: Config, s0: State, s1: State, n: nat)
    requires Shape(c, s0) && Shape(c, s1) && ReadyInv(s0.ready, s0.rs) && Issues(s0, s1, n)
    ensures SameHeads(s0, s1)
  {
    forall t: int ensures Charges(s1, t) <==> Charges(s0, t) {
      IssueKeepsHeads(c, s0, s1, n, t);
    }
    forall t: int, m: nat ensures Sends(s1, t, m) <==> Sends(s0, t, m) {
      IssueKeepsHeads(c, s0, s1, n, t);
    }
    hide Shape, Sends, Charges, Issues, ReadyInv;
  }

  lemma SentAgree(s: State, s1: State, n: nat)
    requires SameHeads(s, s1)
    ensures SentFrom(s1, 0, Dispatched(n)) <==> exists t :: Sends(s, t, n)
  {
    if t :| Sends(s, t, n) { assert Sends(s1, t, n); SendsNat(s1, t, n); }
    hide Charges;
  }

  lemma ChargedAgree(s: State, s1: State)
    requires SameHeads(s, s1)
    ensures ChargedFrom(s1, 0) <==> exists t :: Charges(s, t)
  {
    if t :| Charges(s, t) { assert Charges(s1, t); ChargesNat(s1, t); }
    hide Sends;
  }

  lemma SendsNat(s: State, t: int, n: nat)
    requires Sends(s, t, n)
    ensures t >= 0
  {
  }

  lemma ChargesNat(s: State, t: int)
    requires Charges(s, t)
    ensures t >= 0
  {
  }

  lemma FetchedHeads(s: State, s0: State, s1: State)
    requires s0 == s.(decode := s0.decode) && SameHeads(s0, s1)
    ensures SameHeads(s, s1)
  {
  }

  lemma StartHeads(c: Config, prog: seq<Instr>, s: State, arrivals: seq<Decoded>, s1: State, clock: int)
    requires Shape(c, s) && Shape(c, s1) && DecodeOK(c, arrivals) && Inv(c, prog, s, [], -1)
    requires IssuesLimit(c, Fetch(s, arrivals), s1, clock, c.issueWidth)
    ensures SameHeads(s, s1)
  {
    hide Shape, Issues, IssueLimit, WellFormed, EntriesInv, RatInv, StationsInv, StationedInv, UnitsInv, PendingInv,
         RunningInv, DependentsInv, ReadyInv, LogInv, DecodeInv, SameHeads;
    var s0 := Fetch(s, arrivals);
    FetchedShape(c, s, arrivals);
    HeadsOfCycle(c, s0, s1, IssueLimit(c, s0, clock, c.issueWidth));
    FetchedHeads(s, s0, s1);
  }

  lemma DispatchIsExactState(c: Config, prog: seq<Instr>, s: State, input: Input, g: Stages, y: State, s': State)
    requires NextCycle(c, prog, s, input, g, y, s') && s.penalty == 0
    ensures forall n :: Dispatched(n) in s'.log <==> Dispatched(n) in s.log || exists t :: Sends(s, t, n)
    ensures s'.penalty == (if exists t :: Charges(s, t) then c.branchPenalty else 0)
  {
    hide Inv, Shape, Sends, Charges, StagesRight, Commits, SameHeads, SentFrom, ChargedFrom;
    var arrivals := Arrivals(prog, s.issued + |s.decode|, input.due);
    var s0 := Fetch(s, arrivals);
    FetchedOK(c, prog, s, input.due);
    IssuedRight(c, prog, s0, g, input.clock);
    StartHeads(c, prog, s, arrivals, g.issued, input.clock);
    ChargedAgree(s, g.issued);
    PenaltyOfCycle(c, prog, s0, g, input.clock, y, input.storeRoom);
    forall n ensures Dispatched(n) in s'.log <==> Dispatched(n) in s.log || exists t :: Sends(s, t, n) {
      SentAgree(s, g.issued, n);
      HistoryOfCycle(c, prog, s0, g, input.clock, y, input.storeRoom, Dispatched(n));
    }
  }

  lemma FetchedOK(c: Config, prog: seq<Instr>, s: State, due: seq<int>)
    requires Inv(c, prog, s, [], -1)
    ensures DecodeOK(c, Arrivals(prog, s.issued + |s.decode|, due))
  {
    FetchKeepsInv(c, prog, s, due);
  }

  lemma IssuedRight(c: Config, prog: seq<Instr>, s0: State, g: Stages, clock: int)
    requires StagesRight(c, prog, s0, g, clock)
    ensures IssuesLimit(c, s0, g.issued, clock, c.issueWidth)
  {
  }

  // ---------- Commit ----------

  lemma CommittedBefore(c: Config, prog: seq<Instr>, s0: State, g: Stages, clock: int)
    requires StagesRight(c, prog, s0, g, clock)
    ensures g.announced.committed == s0.committed && g.announced.live == g.issued.live && s0.live <= g.issued.live
  {
    hide Inv, Holding, NoneFinished, Releases, FinishesSlot, UnitsGrow, Queues, Sends, Charges;
  }

  /** Whether instruction n of the commit stage's first k has executed, in terms of the history. */
  lemma ExecutedIsStatus(prog: seq<Instr>, x: State, p: nat)
    requires EntriesInv(prog, x.live, x.rob, x.committed, x.issued) && LogInv(prog, x.live, x.rob, x.committed, x.log)
    ensures Executed(x.committed + p) in x.log <==> p < |x.live| && x.rob[x.live[p]].status == 2
    ensures p < |x.live| ==> x.committed + p < |prog| && x.rob[x.live[p]].memWrite == prog[x.committed + p].memWrite
  {
    var e := Executed(x.committed + p);
    assert e in x.log <==> Happened(x.live, x.rob, x.committed, e);
    if p < |x.live| {
      assert EntryInv(prog, x.rob[x.live[p]], x.committed + p);
    }
    hide LegalLog;
  }

  /** The first k of the instructions from `first` on have executed and, if stores, found room at some
      attempt; if the next has executed too, the attempts were used up: all of them, or all but some that
      a store was refused. */
  ghost predicate CommitsRightly(prog: seq<Instr>, log: seq<Event>, first: nat, k: nat, room: nat -> bool, width: nat) {
    && k <= width && first + k <= |prog|
    && (forall n :: first <= n < first + k ==> Executed(n) in log && FindsRoom(prog[n], room, width))
    && (k < width && Executed(first + k) in log ==>
          k + Refusals(room, 0, width) >= width && StoreBetween(prog, first, first + k))
  }

  ghost predicate StoreBetween(prog: seq<Instr>, first: nat, last: nat) {
    exists n :: first <= n <= last && n < |prog| && prog[n].memWrite != 0
  }

  ghost predicate FindsRoom(ins: Instr, room: nat -> bool, width: nat) {
    ins.memWrite != 0 ==> exists i: nat :: i < width && room(i)
  }

  lemma CommitsByHistory(c: Config, prog: seq<Instr>, x: State, y: State, room: nat -> bool)
    requires EntriesInv(prog, x.live, x.rob, x.committed, x.issued) && LogInv(prog, x.live, x.rob, x.committed, x.log)
    requires Commits(x, y, room, 0, c.commitWidth)
    ensures y.committed >= x.committed
    ensures CommitsRightly(prog, y.log, x.committed, y.committed - x.committed, room, c.commitWidth)
  {
    hide LogInv, EntryInv, Refusals, Retirable;
    var k: nat := y.committed - x.committed;
    forall n | x.committed <= n < y.committed
      ensures n < |prog| && Executed(n) in y.log && FindsRoom(prog[n], room, c.commitWidth)
    {
      ExecutedIsStatus(prog, x, n - x.committed);
      RetirableFinds(prog, x.rob[x.live[n - x.committed]], n, room, c.commitWidth);
    }
    ExecutedIsStatus(prog, x, k);
    if k < c.commitWidth && Executed(x.committed + k) in y.log {
      var p :| 0 <= p <= k && x.rob[x.live[p]].memWrite != 0;
      ExecutedIsStatus(prog, x, p);
      assert StoreBetween(prog, x.committed, x.committed + k);
    }
  }

  lemma RetirableFinds(prog: seq<Instr>, e: RobEntry, n: nat, room: nat -> bool, width: nat)
    requires Retirable(e, room, 0, width) && n < |prog| && e.memWrite == prog[n].memWrite
    ensures e.status == 2 && FindsRoom(prog[n], room, width)
  {
  }

  ghost predicate CommitsInCycle(c: Config, prog: seq<Instr>, s: State, s': State, room: nat -> bool) {
    if s.penalty > 0 then s'.committed == s.committed
    else s'.committed >= s.committed
         && CommitsRightly(prog, s'.log, s.committed, s'.committed - s.committed, room, c.commitWidth)
  }

  /** In every run an unstalled cycle commits the executed instructions at the front of the stream, up to
      the commit width, but for stores that find no room. */
  lemma CycleCommits(c: Config, prog: seq<Instr>, inputs: seq<Input>, input: Input)
    requires c.Valid() && WellFormed(c, prog)
    ensures CommitsInCycle(c, prog, Run(c, prog, inputs), Run(c, prog, inputs + [input]), input.storeRoom)
  {
    hide Run, NextCycle, CommitsInCycle, Step;
    var s, s' := Run(c, prog, inputs), Run(c, prog, inputs + [input]);
    if s.penalty > 0 {
      StalledCycle(c, prog, inputs, input);
      StalledCommitsNone(c, prog, s, s', input.storeRoom);
    } else {
      var g, y := NextCycleIs(c, prog, inputs, input);
      CycleCommitsState(c, prog, s, input, g, y, s');
    }
  }

  lemma StalledCommitsNone(c: Config, prog: seq<Instr>, s: State, s': State, room: nat -> bool)
    requires s.penalty > 0 && s'.committed == s.committed
    ensures CommitsInCycle(c, prog, s, s', room)
  {
  }

  lemma CycleCommitsState(c: Config, prog: seq<Instr>, s: State, input: Input, g: Stages, y: State, s': State)
    requires NextCycle(c, prog, s, input, g, y, s') && s.penalty == 0
    ensures CommitsInCycle(c, prog, s, s', input.storeRoom)
  {
    hide Shape, StagesRight, Commits, CommitsRightly, EntriesInv, RatInv, StationsInv, StationedInv, UnitsInv,
         PendingInv,
         RunningInv, DependentsInv, ReadyInv, LogInv, DecodeInv;
    var s0 := Fetch(s, Arrivals(prog, s.issued + |s.decode|, input.due));
    CommittedBefore(c, prog, s0, g, input.clock);
    AnnouncedInv(c, prog, s0, g, input.clock);
    CommitsByHistory(c, prog, g.announced, y, input.storeRoom);
  }

  // ---------- Execution ----------

  /** A unit has worked k cycles on instruction n. */
  ghost predicate Worked(s: State, n: nat, k: nat) {
    exists t, u :: WorksOn(s, t, u, n) && s.units[t][u].cycles == k
  }

  ghost predicate WorksOn(s: State, t: int, u: int, n: nat) {
    Runs(s.units, t, u) && s.units[t][u].robIndex < |s.rob| && s.rob[s.units[t][u].robIndex].insId == n
  }

  /** The part of the invariant that is about units. */
  ghost predicate UnitsKnown(prog: seq<Instr>, lat: seq<nat>, s: State) {
    && EntriesInv(prog, s.live, s.rob, s.committed, s.issued)
    && UnitsInv(prog, lat, s.live, s.rob, s.committed, s.units)
    && (forall i, j :: 0 <= i < j < |s.live| ==> s.live[i] != s.live[j])
  }

  lemma InvParts(c: Config, prog: seq<Instr>, s: State)
    requires Inv(c, prog, s, [], -1)
    ensures EntriesInv(prog, s.live, s.rob, s.committed, s.issued)
    ensures StationsInv(prog, s.live, s.rob, s.committed, -1, s.rs)
    ensures UnitsInv(prog, c.latency, s.live, s.rob, s.committed, s.units) && RunningInv(s.live, s.rob, s.units, [])
    ensures LogInv(prog, s.live, s.rob, s.committed, s.log)
  {
  }

  lemma InvKnows(c: Config, prog: seq<Instr>, s: State)
    requires Inv(c, prog, s, [], -1)
    ensures UnitsKnown(prog, c.latency, s)
  {
    LiveSlots(c.robSize, s.live);
  }

  /** A unit that works on n works on n's slot, and no other unit does. */
  lemma WorkerIsItsSlot(prog: seq<Instr>, lat: seq<nat>, s: State, t: int, u: int, n: nat)
    requires UnitsKnown(prog, lat, s) && WorksOn(s, t, u, n)
    ensures s.committed <= n < s.committed + |s.live| <= |prog| && s.units[t][u].robIndex == s.live[n - s.committed]
    ensures prog[n].insType == t && 0 <= t < |lat| && s.units[t][u].cycles <= lat[t]
    ensures forall t', u' :: WorksOn(s, t', u', n) ==> t' == t && u' == u
  {
    assert RunningSlot(s.live, s.rob, s.committed, s.units[t][u].robIndex);
    forall t', u' | WorksOn(s, t', u', n) ensures t' == t && u' == u {
      assert RunningSlot(s.live, s.rob, s.committed, s.units[t'][u'].robIndex);
    }
  }

  /** The live instruction in a slot is known by its place, whatever has become of the rest. */
  lemma WorkerMoves(prog: seq<Instr>, lat: seq<nat>, s: State, s': State, t: int, u: int, n: nat)
    requires UnitsKnown(prog, lat, s) && UnitsKnown(prog, lat, s') && WorksOn(s, t, u, n)
    requires Runs(s'.units, t, u) && s'.units[t][u] == s.units[t][u]
    requires SameSlots(s, s')
    ensures WorksOn(s', t, u, n)
  {
    WorkerIsItsSlot(prog, lat, s, t, u, n);
    var j := s.units[t][u].robIndex;
    assert RunningSlot(s'.live, s'.rob, s'.committed, j);
    var m := s'.rob[j].insId;
    assert s'.live[m - s'.committed] == j;
    assert InSlot(s', m, j);
    assert InSlot(s, n, j);
  }

  /** Instruction n is live in slot j. */
  ghost predicate InSlot(s: State, n: nat, j: nat) {
    s.committed <= n < s.committed + |s.live| && s.live[n - s.committed] == j
  }

  /** Instructions do not change slots while they live. */
  ghost predicate SameSlots(s: State, s': State) {
    forall n: nat, m: nat, j: nat :: InSlot(s, n, j) && InSlot(s', m, j) ==> n == m
  }

  lemma GrownSlots(s: State, s': State)
    requires s.live <= s'.live && s'.committed == s.committed
    requires forall i, j :: 0 <= i < j < |s'.live| ==> s'.live[i] != s'.live[j]
    ensures SameSlots(s, s')
  {
  }

  lemma ShrunkSlots(s: State, s': State, k: nat)
    requires k <= |s.live| && s'.live == s.live[k..] && s'.committed == s.committed + k
    requires forall i, j :: 0 <= i < j < |s.live| ==> s.live[i] != s.live[j]
    ensures SameSlots(s, s')
  {
    forall n: nat, m: nat, j: nat | InSlot(s, n, j) && InSlot(s', m, j) ensures n == m {
      assert s'.live[m - s'.committed] == s.live[m - s.committed];
    }
  }

  /** From dispatch on: a unit that has worked n's latency finishes in this cycle, another works on. */
  lemma WorkGoesOn(c: Config, prog: seq<Instr>, s0: State, g: Stages, clock: int, y: State, room: nat -> bool, n: nat,
                   k: nat)
    requires StagesRight(c, prog, s0, g, clock) && Commits(g.announced, y, room, 0, c.commitWidth)
    requires Inv(c, prog, y, [], -1) && Worked(g.dispatched, n, k)
    ensures n < |prog| && prog[n].insType < |c.latency| && k <= c.latency[prog[n].insType]
    ensures Holding(g.checked, g.done, Executed(n)) <==> k == c.latency[prog[n].insType]
    ensures k < c.latency[prog[n].insType] ==> Worked(y, n, k)
  {
    hide Inv, Holding, UnitsKnown, Commits, StagesRight, ChecksExactly, SameIds;
    var d, x := g.dispatched, g.announced;
    AnnouncedParts(c, prog, s0, g, clock);
    InvKnows(c, prog, d);
    InvKnows(c, prog, x);
    InvKnows(c, prog, y);
    var t, u :| WorksOn(d, t, u, n) && d.units[t][u].cycles == k;
    WorkerIsItsSlot(prog, c.latency, d, t, u, n);
    FinishedHolds(c, prog, d, g.checked, g.done, t, u, n);
    if k < c.latency[t] {
      SameWorker(d, g.checked, x, t, u, n);
      LiveDiffer(c, prog, x);
      CommitsForward(x, y, room, c.commitWidth);
      ShrunkSlots(x, y, y.committed - x.committed);
      WorkerMoves(prog, c.latency, x, y, t, u, n);
      assert WorksOn(y, t, u, n);
    }
  }

  lemma AnnouncedParts(c: Config, prog: seq<Instr>, s0: State, g: Stages, clock: int)
    requires StagesRight(c, prog, s0, g, clock)
    ensures Inv(c, prog, g.dispatched, [], -1) && Inv(c, prog, g.announced, [], -1)
    ensures ChecksExactly(c, g.dispatched, 0, 0, [], g.checked, g.done)
    ensures g.checked.rob == g.dispatched.rob && SameIds(g.checked, g.announced) && g.announced.units == g.checked.units
  {
    hide Inv, Releases, FinishesSlot, SameIds;
  }

  lemma SameWorker(d: State, checked: State, x: State, t: int, u: int, n: nat)
    requires checked.rob == d.rob && SameIds(checked, x) && x.units == checked.units
    requires WorksOn(d, t, u, n) && Runs(checked.units, t, u) && checked.units[t][u] == d.units[t][u]
    ensures WorksOn(x, t, u, n) && x.units[t][u] == d.units[t][u]
  {
  }

  lemma CommitsForward(x: State, y: State, room: nat -> bool, width: nat)
    requires Commits(x, y, room, 0, width)
    ensures var k := y.committed - x.committed;
            0 <= k <= |x.live| && y.live == x.live[k..] && y.units == x.units
  {
  }

  lemma LiveDiffer(c: Config, prog: seq<Instr>, x: State)
    requires UnitsKnown(prog, c.latency, x)
    ensures forall i, j :: 0 <= i < j < |x.live| ==> x.live[i] != x.live[j]
  {
  }

  lemma FinishedHolds(c: Config, prog: seq<Instr>, d: State, checked: State, done: seq<nat>, t: int, u: int, n: nat)
    requires UnitsKnown(prog, c.latency, d) && WorksOn(d, t, u, n) && ChecksExactly(c, d, 0, 0, [], checked, done)
    ensures 0 <= t < |c.latency|
    ensures Holding(checked, done, Executed(n)) <==> d.units[t][u].cycles == c.latency[t]
    ensures d.units[t][u].cycles != c.latency[t] ==> Runs(checked.units, t, u) && checked.units[t][u] == d.units[t][u]
  {
    WorkerIsItsSlot(prog, c.latency, d, t, u, n);
    var j := d.units[t][u].robIndex;
    assert NotBefore(0, 0, t, u);
    if d.units[t][u].cycles == c.latency[t] {
      assert Finishes(c.latency, d.units, t, u);
      assert FinishesSlot(c.latency, d.units, 0, 0, j);
      assert j in done;
    }
    if Holding(checked, done, Executed(n)) {
      var k :| 0 <= k < |done| && done[k] < |checked.rob| && checked.rob[done[k]].insId == n;
      assert FinishesSlot(c.latency, d.units, 0, 0, done[k]);
      var t', u' :| NotBefore(0, 0, t', u') && Finishes(c.latency, d.units, t', u')
          && d.units[t'][u'].robIndex == done[k];
      assert WorksOn(d, t', u', n);
    }
    hide UnitsKnown;
  }

  /** Work done before the dispatch stage is still there after it, and a unit that starts has done none. */
  lemma WorkReachesDispatch(c: Config, prog: seq<Instr>, s: State, s0: State, g: Stages, clock: int, n: nat, k: nat)
    requires Shape(c, s) && Inv(c, prog, s, [], -1) && s0 == s.(decode := s0.decode)
             && StagesRight(c, prog, s0, g, clock)
    requires Worked(s, n, k)
    ensures Worked(g.dispatched, n, k)
  {
    hide Inv, Shape, Holding, IssueLimit, NoneFinished, UnitsKnown, ChecksExactly, Queues, SentFrom, ChargedFrom;
    var s1, d := g.issued, g.dispatched;
    InvKnows(c, prog, s);
    InvKnows(c, prog, s1);
    var t, u :| WorksOn(s, t, u, n) && s.units[t][u].cycles == k;
    LiveDiffer(c, prog, s1);
    GrownSlots(s, s1);
    WorkerMoves(prog, c.latency, s, s1, t, u, n);
    assert Runs(d.units, t, u) && d.units[t][u] == s1.units[t][u];
    assert WorksOn(d, t, u, n);
  }

  /** An instruction dispatched in this cycle is in a unit that has just started. */
  lemma WorkStarts(c: Config, prog: seq<Instr>, s: State, s0: State, g: Stages, clock: int, n: nat)
    requires Inv(c, prog, s, [], -1) && s0 == s.(decode := s0.decode) && StagesRight(c, prog, s0, g, clock)
    requires Dispatched(n) !in s.log && Dispatched(n) in g.dispatched.log
    ensures Worked(g.dispatched, n, 0)
  {
    var s1, d := g.issued, g.dispatched;
    hide Holding, IssueLimit, NoneFinished, ChecksExactly, Queues, Sends, ChargedFrom, StationsInv, StationedInv,
         DependentsInv, ReadyInv, WellFormed, DecodeInv, LegalLog, RatInv, Shape, PendingInv;
    if Executed(n) in s.log {
      DispatchedFirst(c, prog, s, n);
    }
    assert Executed(n) !in s1.log && Dispatched(n) !in s1.log;
    assert Executed(n) !in d.log;
    assert Happened(d.live, d.rob, d.committed, Dispatched(n));
    assert !Happened(d.live, d.rob, d.committed, Executed(n));
    var j := d.live[n - d.committed];
    var t, u :| RunsSlot(d.units, t, u, j);
    assert EntryInv(prog, d.rob[j], d.committed + (n - d.committed));
    assert WorksOn(d, t, u, n);
    NotYetWorked(c, prog, s1, n);
    assert !WorksOn(s1, t, u, n);
  }

  lemma DispatchedFirst(c: Config, prog: seq<Instr>, s: State, n: nat)
    requires Inv(c, prog, s, [], -1) && Executed(n) in s.log
    ensures Dispatched(n) in s.log
  {
    assert Happened(s.live, s.rob, s.committed, Executed(n));
    assert Happened(s.live, s.rob, s.committed, Dispatched(n));
  }

  lemma NotYetWorked(c: Config, prog: seq<Instr>, s: State, n: nat)
    requires Inv(c, prog, s, [], -1) && Dispatched(n) !in s.log
    ensures forall t, u :: !WorksOn(s, t, u, n)
  {
    hide Inv, EntriesInv, StationsInv, LogInv, UnitsInv, RunningInv;
    InvParts(c, prog, s);
    forall t, u | WorksOn(s, t, u, n) ensures false {
      WorkedIsDispatched(prog, c.latency, s, t, u, n);
    }
  }

  lemma WorkedIsDispatched(prog: seq<Instr>, lat: seq<nat>, s: State, t: int, u: int, n: nat)
    requires EntriesInv(prog, s.live, s.rob, s.committed, s.issued)
    requires UnitsInv(prog, lat, s.live, s.rob, s.committed, s.units)
    requires LogInv(prog, s.live, s.rob, s.committed, s.log) && WorksOn(s, t, u, n)
    ensures Dispatched(n) in s.log
  {
    hide LegalLog;
    assert RunningSlot(s.live, s.rob, s.committed, s.units[t][u].robIndex);
    assert Happened(s.live, s.rob, s.committed, Dispatched(n));
  }

  lemma AgingWorks(c: Config, y: State, n: nat, k: nat)
    requires Shape(c, y) && Worked(y, n, k)
    ensures Worked(EndCycle(c, y), n, k + 1)
  {
    var s' := EndCycle(c, y);
    AgingUnits(y.units);
    var t, u :| WorksOn(y, t, u, n) && y.units[t][u].cycles == k;
    assert Runs(s'.units, t, u);
    hide AgeUnits, AgeReady, Shape;
    assert WorksOn(s', t, u, n);
  }

  /** What instruction n goes through in one unstalled cycle. */
  lemma CycleExecutesState(c: Config, prog: seq<Instr>, s: State, input: Input, g: Stages, y: State, s': State, n: nat)
    requires NextCycle(c, prog, s, input, g, y, s')
    requires Executed(n) !in s.log && Dispatched(n) in s'.log
    requires Dispatched(n) in s.log ==> exists k: nat :: Worked(s, n, k)
    ensures n < |prog| && prog[n].insType < |c.latency|
    ensures Dispatched(n) !in s.log ==>
              if c.latency[prog[n].insType] == 0 then Executed(n) in s'.log
              else Executed(n) !in s'.log && Worked(s', n, 1)
    ensures forall k: nat :: Dispatched(n) in s.log && Worked(s, n, k) ==>
              && k <= c.latency[prog[n].insType]
              && if k == c.latency[prog[n].insType] then Executed(n) in s'.log
                 else Executed(n) !in s'.log && Worked(s', n, k + 1)
  {
    hide Inv, Shape, StagesRight, Commits, Worked, Holding;
    var s0 := Fetch(s, Arrivals(prog, s.issued + |s.decode|, input.due));
    HistoryOfCycle(c, prog, s0, g, input.clock, y, input.storeRoom, Executed(n));
    HistoryOfCycle(c, prog, s0, g, input.clock, y, input.storeRoom, Dispatched(n));
    if Dispatched(n) !in s.log {
      WorkStarts(c, prog, s, s0, g, input.clock, n);
      WorkContinues(c, prog, s0, g, input.clock, y, input.storeRoom, n, 0);
    }
    forall k: nat | Dispatched(n) in s.log && Worked(s, n, k)
      ensures n < |prog| && prog[n].insType < |c.latency| && k <= c.latency[prog[n].insType]
      ensures if k == c.latency[prog[n].insType] then Executed(n) in s'.log
              else Executed(n) !in s'.log && Worked(s', n, k + 1)
    {
      WorkReachesDispatch(c, prog, s, s0, g, input.clock, n, k);
      WorkContinues(c, prog, s0, g, input.clock, y, input.storeRoom, n, k);
    }
  }

  lemma WorkContinues(c: Config, prog: seq<Instr>, s0: State, g: Stages, clock: int, y: State, room: nat -> bool,
                      n: nat, k: nat)
    requires StagesRight(c, prog, s0, g, clock) && Commits(g.announced, y, room, 0, c.commitWidth)
    requires Shape(c, y) && Inv(c, prog, y, [], -1) && Worked(g.dispatched, n, k)
    ensures n < |prog| && prog[n].insType < |c.latency| && k <= c.latency[prog[n].insType]
    ensures Holding(g.checked, g.done, Executed(n)) <==> k == c.latency[prog[n].insType]
    ensures k < c.latency[prog[n].insType] ==> Worked(EndCycle(c, y), n, k + 1)
  {
    hide Inv, Shape, StagesRight, Commits, Worked, Holding;
    WorkGoesOn(c, prog, s0, g, clock, y, room, n, k);
    if k < c.latency[prog[n].insType] {
      AgingWorks(c, y, n, k);
    }
  }

  /** The unstalled cycles from cycle a on. */
  function Unstalled(c: Config, prog: seq<Instr>, inputs: seq<Input>, a: nat): nat
    requires c.Valid() && (forall n :: 0 <= n < |prog| ==> InstrOK(c, prog[n])) && a <= |inputs|
    decreases |inputs|
  {
    if |inputs| == a then 0
    else
      var front := inputs[..|inputs| - 1];
      Unstalled(c, prog, front, a) + (if Run(c, prog, front).penalty == 0 then 1 else 0)
  }

  ghost predicate Underway(c: Config, prog: seq<Instr>, s: State, n: nat, w: nat) {
    && Dispatched(n) in s.log && n < |prog| && prog[n].insType < |c.latency|
    && if w <= c.latency[prog[n].insType] then Executed(n) !in s.log && Worked(s, n, w) else Executed(n) in s.log
  }

  lemma UnderwayMoves(c: Config, prog: seq<Instr>, inputs: seq<Input>, input: Input, n: nat, w: nat)
    requires c.Valid() && WellFormed(c, prog)
    requires Underway(c, prog, Run(c, prog, inputs), n, w)
    ensures var w' := w + (if Run(c, prog, inputs).penalty == 0 then 1 else 0);
            Underway(c, prog, Run(c, prog, inputs + [input]), n, w')
  {
    hide Run, NextCycle, Worked;
    var s := Run(c, prog, inputs);
    if s.penalty > 0 {
      StalledCycle(c, prog, inputs, input);
      PenaltyWorks(s, s.penalty - 1, n, w);
    } else {
      var g, y := NextCycleIs(c, prog, inputs, input);
      CycleLogGrows(c, prog, s, input, g, y, Run(c, prog, inputs + [input]));
      if w <= c.latency[prog[n].insType] {
        CycleExecutesState(c, prog, s, input, g, y, Run(c, prog, inputs + [input]), n);
      }
    }
  }

  lemma PenaltyWorks(s: State, penalty: nat, n: nat, w: nat)
    ensures Worked(s.(penalty := penalty), n, w) <==> Worked(s, n, w)
  {
    if Worked(s, n, w) {
      var t, u :| WorksOn(s, t, u, n) && s.units[t][u].cycles == w;
      assert WorksOn(s.(penalty := penalty), t, u, n);
    }
    if Worked(s.(penalty := penalty), n, w) {
      var t, u :| WorksOn(s.(penalty := penalty), t, u, n) && s.units[t][u].cycles == w;
      assert WorksOn(s, t, u, n);
    }
  }

  lemma CycleLogGrows(c: Config, prog: seq<Instr>, s: State, input: Input, g: Stages, y: State, s': State)
    requires NextCycle(c, prog, s, input, g, y, s')
    ensures forall e :: e in s.log && (e.Dispatched? || e.Executed?) ==> e in s'.log
  {
    hide Inv, Shape, StagesRight, Commits;
    var s0 := Fetch(s, Arrivals(prog, s.issued + |s.decode|, input.due));
    forall e | e in s.log && (e.Dispatched? || e.Executed?) ensures e in s'.log {
      HistoryOfCycle(c, prog, s0, g, input.clock, y, input.storeRoom, e);
    }
  }

  lemma {:induction false} UnderwayInRun(c: Config, prog: seq<Instr>, inputs: seq<Input>, a: nat, n: nat)
    requires c.Valid() && WellFormed(c, prog) && a < |inputs|
    requires Dispatched(n) !in Run(c, prog, inputs[..a]).log && Dispatched(n) in Run(c, prog, inputs[..a + 1]).log
    ensures Underway(c, prog, Run(c, prog, inputs), n, Unstalled(c, prog, inputs, a))
    decreases |inputs|
  {
    hide Run, Underway, NextCycle;
    var last := |inputs| - 1;
    var front := inputs[..last];
    assert inputs == front + [inputs[last]];
    if a == last {
      assert inputs[..a + 1] == inputs;
      DispatchedUnderway(c, prog, front, inputs[last], n);
      assert Unstalled(c, prog, front, a) == 0;
    } else {
      assert front[..a] == inputs[..a] && front[..a + 1] == inputs[..a + 1];
      UnderwayInRun(c, prog, front, a, n);
      UnderwayMoves(c, prog, front, inputs[last], n, Unstalled(c, prog, front, a));
    }
  }

  lemma DispatchedUnderway(c: Config, prog: seq<Instr>, inputs: seq<Input>, input: Input, n: nat)
    requires c.Valid() && WellFormed(c, prog)
    requires Dispatched(n) !in Run(c, prog, inputs).log && Dispatched(n) in Run(c, prog, inputs + [input]).log
    ensures Run(c, prog, inputs).penalty == 0 && Underway(c, prog, Run(c, prog, inputs + [input]), n, 1)
  {
    hide Run, NextCycle, Worked, Inv;
    var s := Run(c, prog, inputs);
    if s.penalty > 0 {
      StalledCycle(c, prog, inputs, input);
    } else {
      var g, y := NextCycleIs(c, prog, inputs, input);
      Reachable(c, prog, inputs);
      if Executed(n) in s.log {
        DispatchedFirst(c, prog, s, n);
      }
      CycleExecutesState(c, prog, s, input, g, y, Run(c, prog, inputs + [input]), n);
    }
  }

  /** Latency: in every run an instruction dispatched in cycle a executes in the cycle after which exactly
      its type's latency plus one unstalled cycles have passed, the cycle of its dispatch included. */
  lemma ExecutesAfterLatency(c: Config, prog: seq<Instr>, inputs: seq<Input>, a: nat, n: nat)
    requires c.Valid() && WellFormed(c, prog) && a < |inputs|
    requires Dispatched(n) !in Run(c, prog, inputs[..a]).log && Dispatched(n) in Run(c, prog, inputs[..a + 1]).log
    ensures n < |prog| && prog[n].insType < |c.latency|
    ensures Executed(n) in Run(c, prog, inputs).log
            <==> Unstalled(c, prog, inputs, a) > c.latency[prog[n].insType]
  {
    hide Run, Worked;
    UnderwayInRun(c, prog, inputs, a, n);
  }
}
