/** What mispredicted branches cost: each charges its penalty once, and every stalled cycle works one
    cycle of a charged penalty off. */
module OooPenalty {
  import opened RobRing
  import opened OooSpec
  import opened OooInvariant
  import opened OooIssue
  import opened OooTheorems
  import opened OooWidth
  import opened OooCycle
  import opened OooExact

  /** Instruction n waits in a station, its misprediction not yet charged. */
  ghost predicate Flagged(s: State, n: nat) {
    exists i :: FlaggedAt(s, i, n)
  }

  ghost predicate FlaggedAt(s: State, i: int, n: nat) {
    0 <= i < |s.rs| && s.rs[i].valid && s.rs[i].insId == n && s.rs[i].mispredicted
  }

  /** Instruction n is a flagged branch at the head of queue t, eligible. */
  ghost predicate ChargesFor(s: State, t: int, n: nat) {
    Charges(s, t) && s.rs[s.ready[t][0].rs].insId == n
  }

  // ---------- Flags in issue ----------

  ghost predicate FlagsIssued(prog: seq<Instr>, s: State, s': State) {
    && s.issued <= s'.issued <= |prog|
    && forall n: nat :: Flagged(s', n) <==> Flagged(s, n) || (s.issued <= n < s'.issued && prog[n].mispredicted)
  }

  lemma FlagsFilled(s: State, s': State, i: nat, st: Station)
    requires i < |s.rs| && !s.rs[i].valid && s'.rs == s.rs[i := st] && st.valid
    ensures forall n: nat :: Flagged(s', n) <==> Flagged(s, n) || (n == st.insId && st.mispredicted)
  {
    forall n: nat ensures Flagged(s', n) <==> Flagged(s, n) || (n == st.insId && st.mispredicted) {
      if x :| FlaggedAt(s, x, n) { assert FlaggedAt(s', x, n); }
      if x :| FlaggedAt(s', x, n) { assert x == i || FlaggedAt(s, x, n); }
      if n == st.insId && st.mispredicted { assert FlaggedAt(s', i, n); }
    }
  }

  lemma FlagsAfterEffect(prog: seq<Instr>, s: State, s': State, i: nat, slot: nat, ins: Instr)
    requires IssueEffect(s, s', i, slot, ins) && !s.rs[i].valid
    requires s.issued < |prog| && ins == prog[s.issued] && ins.insId == s.issued
    ensures FlagsIssued(prog, s, s')
  {
    FlagsFilled(s, s', i, s'.rs[i]);
    hide SameEntries, SetAlias, Flagged;
  }

  lemma FlagsAfterOne(c: Config, prog: seq<Instr>, s: State, i: nat)
    requires Inv(c, prog, s, [], -1) && CanIssue(c, s, i) && !s.rs[i].valid
    ensures FlagsIssued(prog, s, IssueOne(c, s, i))
  {
    hide Inv, IssueOne, IssueEffect, FlagsIssued;
    IssueFacts(c, s, i);
    DecodedIsNext(c, prog, s);
    FlagsAfterEffect(prog, s, IssueOne(c, s, i), i, NextSlot(c.robSize, s.live), s.decode[0].ins);
  }

  lemma DecodedIsNext(c: Config, prog: seq<Instr>, s: State)
    requires Inv(c, prog, s, [], -1) && s.decode != []
    ensures s.issued < |prog| && s.decode[0].ins == prog[s.issued] && s.decode[0].ins.insId == s.issued
  {
    assert s.decode[0].ins == prog[s.issued + 0];
  }

  lemma FlagsJoin(prog: seq<Instr>, s: State, s1: State, s2: State)
    requires FlagsIssued(prog, s, s1) && FlagsIssued(prog, s1, s2)
    ensures FlagsIssued(prog, s, s2)
  {
    hide Flagged;
  }

  lemma FlagsStay(c: Config, prog: seq<Instr>, s: State)
    requires Inv(c, prog, s, [], -1)
    ensures FlagsIssued(prog, s, s)
  {
    hide Flagged;
  }

  lemma FlagsAfterTry(c: Config, prog: seq<Instr>, s: State)
    requires Shape(c, s) && Inv(c, prog, s, [], -1) && s.decode != []
    ensures FlagsIssued(prog, s, TryIssue(c, s))
  {
    hide Inv, IssueOne, FlagsIssued;
    var i := FirstFree(s.rs, 0);
    if i != -1 && |s.live| < c.robSize {
      FlagsAfterOne(c, prog, s, i);
    } else {
      FlagsStay(c, prog, s);
    }
  }

  lemma {:induction false} FlagsAfterIssue(c: Config, prog: seq<Instr>, s: State, clock: int, count: nat)
    requires Shape(c, s) && Inv(c, prog, s, [], -1) && count <= c.issueWidth
    ensures FlagsIssued(prog, s, Issue(c, s, clock, count))
    decreases c.issueWidth - count
  {
    hide Inv, Shape, Issue, TryIssue, FlagsIssued;
    IssueUnfolds(c, s, clock, count);
    if IssueDue(c, s, clock, count) {
      var s1 := TryIssue(c, s);
      FlagsAfterTry(c, prog, s);
      TryIssueKeepsInv(c, prog, s);
      FlagsAfterIssue(c, prog, s1, clock, count + 1);
      FlagsJoin(prog, s, s1, Issue(c, s1, clock, count + 1));
    } else {
      FlagsStay(c, prog, s);
    }
  }

  // ---------- Flags in dispatch ----------

  /** The turns of the types from `from` on take the flags of the branches they charge for. */
  ghost predicate FlagsCharged(s: State, s': State, from: nat) {
    forall n: nat :: Flagged(s', n) <==> Flagged(s, n) && !ChargedFor(s, from, n)
  }

  ghost predicate ChargedFor(s: State, from: nat, n: nat) {
    exists t :: from <= t && ChargesFor(s, t, n)
  }

  ghost predicate ChargesKept(s: State, s': State, t: int) {
    forall t', n :: t' != t ==> (ChargesFor(s', t', n) <==> ChargesFor(s, t', n))
  }

  lemma TurnKeepsCharges(s: State, s': State, t: nat, penalty: nat)
    requires Eligible(s, t) && Turn(s, s', t, penalty) && ReadyInv(s.ready, s.rs)
    ensures ChargesKept(s, s', t)
  {
    var i := s.ready[t][0].rs;
    assert QueuedAt(s.ready, t, 0, i);
    forall t' | t' != t && 0 <= t' < |s.ready| && s.ready[t'] != []
      ensures s.ready[t'][0].rs < |s.rs| && s.ready[t'][0].rs != i
    {
      assert QueuedAt(s.ready, t', 0, s.ready[t'][0].rs);
    }
    hide HasIdle, ReadyInv, QueuedAt;
  }

  lemma TurnFlags(s: State, s': State, t: nat, penalty: nat)
    requires Eligible(s, t) && Turn(s, s', t, penalty) && ReadyInv(s.ready, s.rs)
    requires forall i, j :: 0 <= i < j < |s.rs| && s.rs[i].valid && s.rs[j].valid ==> s.rs[i].insId != s.rs[j].insId
    ensures forall n: nat :: Flagged(s', n) <==> Flagged(s, n) && !ChargesFor(s, t, n)
  {
    var i := s.ready[t][0].rs;
    assert QueuedAt(s.ready, t, 0, i);
    forall n ensures Flagged(s', n) <==> Flagged(s, n) && !ChargesFor(s, t, n) {
      if x :| FlaggedAt(s, x, n) {
        if !ChargesFor(s, t, n) { assert FlaggedAt(s', x, n); }
      }
      if x :| FlaggedAt(s', x, n) { assert FlaggedAt(s, x, n) && x != i; }
    }
    hide HasIdle, ReadyInv, QueuedAt;
  }

  lemma OneTurnFlags(c: Config, prog: seq<Instr>, s: State, t: nat)
    requires Shape(c, s) && Inv(c, prog, s, [], -1) && t < c.types && TailsFresh(s.ready)
    ensures var s' := DispatchType(c, s, t, 0);
            ChargesKept(s, s', t) && forall n: nat :: Flagged(s', n) <==> Flagged(s, n) && !ChargesFor(s, t, n)
  {
    var s' := DispatchType(c, s, t, 0);
    if Eligible(s, t) {
      TakesTurn(c, s, t);
      TurnKeepsCharges(s, s', t, c.branchPenalty);
      TurnFlags(s, s', t, c.branchPenalty);
    } else {
      IneligibleWaits(c, s, t, 0);
    }
    hide Shape, HasIdle, DispatchType, TailsFresh, Turn, Flagged;
  }

  lemma TurnFlagsJoin(s: State, s1: State, s2: State, t: nat)
    requires ChargesKept(s, s1, t) && FlagsCharged(s1, s2, t + 1)
    requires forall n: nat :: Flagged(s1, n) <==> Flagged(s, n) && !ChargesFor(s, t, n)
    ensures FlagsCharged(s, s2, t)
  {
    forall n ensures ChargedFor(s, t, n) <==> ChargesFor(s, t, n) || ChargedFor(s1, t + 1, n) {
      ChargedForSplits(s, s1, t, n);
    }
    hide Flagged, ChargesFor, ChargedFor, ChargesKept;
  }

  lemma ChargedForSplits(s: State, s1: State, t: nat, n: nat)
    requires ChargesKept(s, s1, t)
    ensures ChargedFor(s, t, n) <==> ChargesFor(s, t, n) || ChargedFor(s1, t + 1, n)
  {
    hide ChargesFor;
  }

  lemma {:induction false} FlagsAfterDispatch(c: Config, prog: seq<Instr>, s: State, t: nat)
    requires Shape(c, s) && Inv(c, prog, s, [], -1) && t <= c.types && TailsFresh(s.ready)
    ensures FlagsCharged(s, Dispatch(c, s, t), t)
    decreases c.types - t
  {
    hide Inv, DispatchType, TailsFresh, ChargesKept, FlagsCharged, Flagged, ChargesFor;
    if t == c.types {
      NobodyCharges(c, s);
    } else {
      var s1 := DispatchType(c, s, t, 0);
      OneTurnFlags(c, prog, s, t);
      OneDispatch(c, s, t, 0);
      DispatchTypeStage(c, prog, s, t, 0);
      FlagsAfterDispatch(c, prog, s1, t + 1);
      TurnFlagsJoin(s, s1, Dispatch(c, s1, t + 1), t);
    }
  }

  lemma NobodyCharges(c: Config, s: State)
    requires Shape(c, s)
    ensures FlagsCharged(s, s, c.types)
  {
  }

  // ---------- A cycle ----------

  lemma IssueKeepsCharges(c: Config, s: State, s1: State, n: nat, t: int)
    requires Shape(c, s) && Shape(c, s1) && ReadyInv(s.ready, s.rs) && Issues(s, s1, n)
    ensures forall m :: ChargesFor(s1, t, m) <==> ChargesFor(s, t, m)
  {
    if 0 <= t < |s.ready| {
      assert Queues(s.ready[t], s1.ready[t]);
      if s.ready[t] != [] {
        assert QueuedAt(s.ready, t, 0, s.ready[t][0].rs);
        assert s1.ready[t][0] == s.ready[t][0];
      } else if s1.ready[t] != [] {
        assert s1.ready[t][0].cycles == 0;
      }
    }
    hide HasIdle, RobOK, RatOK, DecodeOK, ReadyInv, QueuedAt;
  }

  ghost predicate SameCharges(s: State, s': State) {
    forall t, n :: ChargesFor(s', t, n) <==> ChargesFor(s, t, n)
  }

  lemma FetchedCharges(s: State, s0: State)
    requires s0 == s.(decode := s0.decode)
    ensures SameCharges(s, s0) && forall n: nat :: Flagged(s0, n) <==> Flagged(s, n)
  {
    forall n: nat ensures Flagged(s0, n) <==> Flagged(s, n) {
      SameStations(s, s0, n);
    }
  }

  lemma SameStations(s: State, s': State, n: nat)
    requires |s'.rs| == |s.rs|
    requires forall i :: 0 <= i < |s.rs| ==> s'.rs[i] == s.rs[i].(waits := s'.rs[i].waits)
    ensures Flagged(s', n) <==> Flagged(s, n)
  {
    if x :| FlaggedAt(s, x, n) { assert FlaggedAt(s', x, n); }
    if x :| FlaggedAt(s', x, n) { assert FlaggedAt(s, x, n); }
  }

  lemma IssueSameCharges(c: Config, s0: State, s1: State, n: nat)
    requires Shape(c, s0) && Shape(c, s1) && ReadyInv(s0.ready, s0.rs) && Issues(s0, s1, n)
    ensures SameCharges(s0, s1)
  {
    forall t: int, m: nat ensures ChargesFor(s1, t, m) <==> ChargesFor(s0, t, m) {
      IssueKeepsCharges(c, s0, s1, n, t);
    }
    hide Shape, ChargesFor, Issues, ReadyInv;
  }

  lemma ChargedForAgree(s: State, s0: State, s1: State, n: nat)
    requires SameCharges(s, s0) && SameCharges(s0, s1)
    ensures ChargedFor(s1, 0, n) <==> ChargedFor(s, 0, n)
  {
    hide ChargesFor;
  }

  lemma ChargedIsFlagged(c: Config, prog: seq<Instr>, s: State, n: nat)
    requires Inv(c, prog, s, [], -1) && ChargedFor(s, 0, n)
    ensures Flagged(s, n)
  {
    var t :| 0 <= t && ChargesFor(s, t, n);
    assert QueuedAt(s.ready, t, 0, s.ready[t][0].rs);
    assert FlaggedAt(s, s.ready[t][0].rs, n);
    hide HasIdle;
  }

  lemma FlaggedIsIssued(c: Config, prog: seq<Instr>, s: State, n: nat)
    requires Inv(c, prog, s, [], -1) && Flagged(s, n)
    ensures n < s.issued <= |prog| && prog[n].mispredicted && Dispatched(n) !in s.log
  {
    hide Inv, EntriesInv, StationsInv, LogInv, UnitsInv, RunningInv;
    var i :| FlaggedAt(s, i, n);
    InvParts(c, prog, s);
    StationKnown(prog, s, i);
    NotDispatched(prog, s, n);
  }

  lemma StationKnown(prog: seq<Instr>, s: State, i: nat)
    requires EntriesInv(prog, s.live, s.rob, s.committed, s.issued)
    requires StationsInv(prog, s.live, s.rob, s.committed, -1, s.rs) && i < |s.rs| && s.rs[i].valid
    ensures var n := s.rs[i].insId;
            && s.committed <= n < s.committed + |s.live| == s.issued <= |prog|
            && (s.rs[i].mispredicted ==> prog[n].mispredicted)
            && s.live[n - s.committed] < |s.rob| && s.rob[s.live[n - s.committed]].status == 0
  {
    hide WaitInv;
    assert StationInv(prog, s.live, s.rob, s.committed, -1, s.rs[i]);
  }

  lemma NotDispatched(prog: seq<Instr>, s: State, n: nat)
    requires EntriesInv(prog, s.live, s.rob, s.committed, s.issued)
    requires LogInv(prog, s.live, s.rob, s.committed, s.log) && s.committed <= n < s.committed + |s.live|
    requires s.rob[s.live[n - s.committed]].status == 0
    ensures Dispatched(n) !in s.log
  {
    hide LegalLog;
    assert Dispatched(n) in s.log <==> Happened(s.live, s.rob, s.committed, Dispatched(n));
  }

  lemma AfterDispatchFlags(c: Config, s: State, arrivals: seq<Decoded>, input: Input, g: Stages, y: State, n: nat)
    requires Shape(c, s) && FromStages(c, s, arrivals, input, g, y)
    ensures Flagged(EndCycle(c, y), n) <==> Flagged(g.dispatched, n)
  {
    hide Dispatch, Check, Broadcast, Commit, Issue, RobOK, RatOK, ReadyOK, UnitsOK, DecodeOK;
    SameStations(g.dispatched, g.announced, n);
    SameStations(g.announced, EndCycle(c, y), n);
  }

  /** A cycle takes the flags of the branches it charges for and gives flags to the branches it issues. */
  lemma CycleFlags(c: Config, prog: seq<Instr>, s: State, input: Input, g: Stages, y: State, s': State)
    requires NextCycle(c, prog, s, input, g, y, s')
    ensures s.issued <= s'.issued <= |prog|
    ensures forall n: nat ::
              Flagged(s', n) <==>
              || (Flagged(s, n) && !ChargedFor(s, 0, n))
              || (s.issued <= n < s'.issued && prog[n].mispredicted)
  {
    hide Shape, StagesRight, Commits, EndCycle, Flagged, ChargesFor, SameCharges, ChargedFor, Inv, TailsFresh;
    var arrivals := Arrivals(prog, s.issued + |s.decode|, input.due);
    var s0 := Fetch(s, arrivals);
    FetchKeepsInv(c, prog, s, input.due);
    FetchedShape(c, s, arrivals);
    FetchedCharges(s, s0);
    FlagsAfterIssue(c, prog, s0, input.clock, 0);
    IssueKeepsTails(c, s0, input.clock, 0);
    IssuedInv(c, prog, s0, g, input.clock);
    ReadyOf(c, prog, s0);
    IssueSameCharges(c, s0, g.issued, IssueLimit(c, s0, input.clock, c.issueWidth));
    FlagsAfterDispatch(c, prog, g.issued, 0);
    IssuedStays(c, s, arrivals, input, g, y);
    forall n: nat ensures Flagged(s', n) <==> (Flagged(s, n) && !ChargedFor(s, 0, n))
                                               || (s.issued <= n < s'.issued && prog[n].mispredicted)
    {
      AfterDispatchFlags(c, s, arrivals, input, g, y, n);
      ChargedForAgree(s, s0, g.issued, n);
      if ChargedFor(s, 0, n) {
        ChargedIsFlagged(c, prog, s, n);
        FlaggedIsIssued(c, prog, s, n);
      }
    }
  }

  lemma IssuedInv(c: Config, prog: seq<Instr>, s0: State, g: Stages, clock: int)
    requires StagesRight(c, prog, s0, g, clock)
    ensures Inv(c, prog, g.issued, [], -1) && IssueLimit(c, s0, clock, c.issueWidth) >= 0
    ensures Issues(s0, g.issued, IssueLimit(c, s0, clock, c.issueWidth))
  {
  }

  lemma ReadyOf(c: Config, prog: seq<Instr>, s: State)
    requires Inv(c, prog, s, [], -1)
    ensures ReadyInv(s.ready, s.rs)
  {
  }

  lemma IssuedStays(c: Config, s: State, arrivals: seq<Decoded>, input: Input, g: Stages, y: State)
    requires Shape(c, s) && FromStages(c, s, arrivals, input, g, y)
    ensures EndCycle(c, y).issued == g.issued.issued
  {
    hide Dispatch, Check, Broadcast, Commit, Issue, Shape;
  }

  // ---------- Runs ----------

  /** Whether the cycle that starts in this state charges for instruction n. */
  ghost predicate ChargesIn(s: State, n: nat) {
    s.penalty == 0 && ChargedFor(s, 0, n)
  }

  /** In how many cycles of the run instruction n charges its penalty. */
  ghost function ChargeCount(c: Config, prog: seq<Instr>, inputs: seq<Input>, n: nat): nat
    requires c.Valid() && WellFormed(c, prog)
  {
    if inputs == [] then 0
    else
      var front := inputs[..|inputs| - 1];
      ChargeCount(c, prog, front, n) + (if ChargesIn(Run(c, prog, front), n) then 1 else 0)
  }

  /** A branch has charged once if it has been issued and its flag taken, and otherwise not at all. */
  ghost predicate ChargedOnce(prog: seq<Instr>, s: State, n: nat, count: nat) {
    && s.issued <= |prog|
    && count == if n < s.issued && prog[n].mispredicted && !Flagged(s, n) then 1 else 0
  }

  lemma ChargeMoves(c: Config, prog: seq<Instr>, inputs: seq<Input>, input: Input, n: nat, count: nat)
    requires c.Valid() && WellFormed(c, prog)
    requires ChargedOnce(prog, Run(c, prog, inputs), n, count)
    ensures var count' := count + (if ChargesIn(Run(c, prog, inputs), n) then 1 else 0);
            ChargedOnce(prog, Run(c, prog, inputs + [input]), n, count')
  {
    hide Run, NextCycle, Flagged, Step, ChargedFor, Inv;
    var s, s' := Run(c, prog, inputs), Run(c, prog, inputs + [input]);
    Reachable(c, prog, inputs);
    if s.penalty > 0 {
      StalledCycle(c, prog, inputs, input);
      SameStations(s, s', n);
    } else {
      var g, y := NextCycleIs(c, prog, inputs, input);
      CycleFlags(c, prog, s, input, g, y, s');
      if ChargedFor(s, 0, n) {
        ChargedIsFlagged(c, prog, s, n);
      }
      if Flagged(s, n) {
        FlaggedIsIssued(c, prog, s, n);
      }
    }
  }

  lemma {:induction false} ChargedOnceInRun(c: Config, prog: seq<Instr>, inputs: seq<Input>, n: nat)
    requires c.Valid() && WellFormed(c, prog)
    ensures ChargedOnce(prog, Run(c, prog, inputs), n, ChargeCount(c, prog, inputs, n))
    decreases |inputs|
  {
    hide ChargedOnce, ChargesIn, Step;
    if inputs == [] {
      NothingCharged(c, prog, n);
    } else {
      var last := |inputs| - 1;
      assert inputs == inputs[..last] + [inputs[last]];
      ChargedOnceInRun(c, prog, inputs[..last], n);
      ChargeMoves(c, prog, inputs[..last], inputs[last], n, ChargeCount(c, prog, inputs[..last], n));
    }
  }

  lemma NothingCharged(c: Config, prog: seq<Instr>, n: nat)
    requires c.Valid() && WellFormed(c, prog)
    ensures ChargedOnce(prog, Run(c, prog, []), n, 0)
  {
  }

  /** Every mispredicted branch has charged its penalty exactly once when it has been dispatched, and no
      other instruction ever charges one. */
  lemma BranchChargesOnce(c: Config, prog: seq<Instr>, inputs: seq<Input>, n: nat)
    requires c.Valid() && WellFormed(c, prog) && n < |prog|
    ensures !prog[n].mispredicted ==> ChargeCount(c, prog, inputs, n) == 0
    ensures prog[n].mispredicted ==> ChargeCount(c, prog, inputs, n) <= 1
    ensures prog[n].mispredicted && Dispatched(n) in Run(c, prog, inputs).log ==> ChargeCount(c, prog, inputs, n) == 1
  {
    hide Run, Inv;
    var s := Run(c, prog, inputs);
    ChargedOnceInRun(c, prog, inputs, n);
    Reachable(c, prog, inputs);
    if Dispatched(n) in s.log {
      DispatchedIsIssued(c, prog, s, n);
      if Flagged(s, n) {
        FlaggedIsIssued(c, prog, s, n);
      }
    }
  }

  lemma DispatchedIsIssued(c: Config, prog: seq<Instr>, s: State, n: nat)
    requires Inv(c, prog, s, [], -1) && Dispatched(n) in s.log
    ensures n < s.issued
  {
    assert Happened(s.live, s.rob, s.committed, Dispatched(n));
    hide LegalLog, UnitsInv, DependentsInv, RunningInv, PendingInv, RatInv, ReadyInv, StationsInv;
  }

  /** The stalled cycles of a run, and the cycles in which a penalty was charged. */
  function Stalls(c: Config, prog: seq<Instr>, inputs: seq<Input>): nat
    requires c.Valid() && forall n :: 0 <= n < |prog| ==> InstrOK(c, prog[n])
  {
    if inputs == [] then 0
    else
      var front := inputs[..|inputs| - 1];
      Stalls(c, prog, front) + (if Run(c, prog, front).penalty > 0 then 1 else 0)
  }

  ghost function ChargingCycles(c: Config, prog: seq<Instr>, inputs: seq<Input>): nat
    requires c.Valid() && WellFormed(c, prog)
  {
    if inputs == [] then 0
    else
      var front := inputs[..|inputs| - 1];
      var s := Run(c, prog, front);
      ChargingCycles(c, prog, front) + (if s.penalty == 0 && exists t :: Charges(s, t) then 1 else 0)
  }

  /** Every stalled cycle is accounted for: stalls so far and the penalty still to come make up the branch
      penalty once for every cycle in which a flagged branch was charged. */
  lemma {:induction false} StallsAccountedFor(c: Config, prog: seq<Instr>, inputs: seq<Input>)
    requires c.Valid() && WellFormed(c, prog)
    ensures Stalls(c, prog, inputs) + Run(c, prog, inputs).penalty
            == ChargingCycles(c, prog, inputs) * c.branchPenalty
    decreases |inputs|
  {
    hide Run, Step, Charges;
    if inputs == [] {
      NoPenaltyYet(c, prog);
    } else {
      var last := |inputs| - 1;
      var front := inputs[..last];
      assert inputs == front + [inputs[last]];
      StallsAccountedFor(c, prog, front);
      DispatchIsExact(c, prog, front, inputs[last]);
      OneChargeMore(ChargingCycles(c, prog, front), c.branchPenalty);
    }
  }

  lemma NoPenaltyYet(c: Config, prog: seq<Instr>)
    requires c.Valid() && WellFormed(c, prog)
    ensures Run(c, prog, []).penalty == 0
  {
  }

  lemma OneChargeMore(n: nat, x: nat)
    ensures (n + 1) * x == n * x + x
  {
  }
}
