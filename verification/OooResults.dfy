/** The core's guarantees, read off the reachable-state invariant in terms of its own tables. */
module OooResults {
  import opened OooSpec
  import opened OooInvariant
  import opened OooExecute
  import opened OooTheorems

  ghost predicate Writes(s: State, k: nat, r: int)
    requires k < |s.live| && s.live[k] < |s.rob|
  {
    r in s.rob[s.live[k]].writeRegs
  }

  /** An alias is -1 iff no live entry writes the register, and otherwise is the slot of the youngest
      live entry that writes it. */
  ghost predicate RenamedExactly(s: State, r: nat)
    requires r < |s.rat| && forall k :: 0 <= k < |s.live| ==> s.live[k] < |s.rob|
  {
    && (s.rat[r] == -1 <==> forall k :: 0 <= k < |s.live| ==> !Writes(s, k, r))
    && (s.rat[r] != -1 ==>
          exists k :: 0 <= k < |s.live| && s.live[k] == s.rat[r] && Writes(s, k, r)
                   && forall m :: k < m < |s.live| ==> !Writes(s, m, r))
  }

  lemma AliasIsYoungestWriter(prog: seq<Instr>, s: State, r: nat)
    requires EntriesInv(prog, s.live, s.rob, s.committed, s.issued)
    requires RatInv(prog, s.live, s.rat, s.committed, s.issued) && r < |s.rat|
    ensures RenamedExactly(s, r)
  {
    var p := Producer(prog, s.issued, r);
    forall k | 0 <= k < |s.live| ensures Writes(s, k, r) <==> r in prog[s.committed + k].writeRegs {
      assert EntryInv(prog, s.rob[s.live[k]], s.committed + k);
    }
    if p >= s.committed {
      var k := p - s.committed;
      assert s.live[k] == s.rat[r] && Writes(s, k, r);
    }
  }

  /** Renaming is exact in every reachable state, however often slots have been reused. */
  lemma Renaming(c: Config, prog: seq<Instr>, inputs: seq<Input>, r: nat)
    requires c.Valid() && WellFormed(c, prog) && r < c.numReg
    ensures var s := Run(c, prog, inputs);
            (forall k :: 0 <= k < |s.live| ==> s.live[k] < |s.rob|) && RenamedExactly(s, r)
  {
    Reachable(c, prog, inputs);
    AliasIsYoungestWriter(prog, Run(c, prog, inputs), r);
  }

  /** Operand k of station i waits for a live, unexecuted, older writer of its register, the youngest
      such, whose list holds i once per operand of i waiting for it. */
  ghost predicate WaitsProperly(prog: seq<Instr>, s: State, i: nat, k: nat)
    requires i < |s.rs| && k < |s.rs[i].waits|
  {
    var j := s.rs[i].waits[k];
    var n := s.rs[i].insId;
    && k < |s.rs[i].readRegs| && 0 <= j < |s.rob| && j in s.live
    && s.rob[j].status < 2 && s.rob[j].insId < n < |prog|
    && s.rs[i].readRegs[k] in prog[s.rob[j].insId].writeRegs
    && (forall m :: s.rob[j].insId < m < n ==> s.rs[i].readRegs[k] !in prog[m].writeRegs)
    && multiset(s.rob[j].dependents)[i] == CountEq(s.rs[i].waits, j) > 0
  }

  lemma WaitingOperand(prog: seq<Instr>, s: State, i: nat, k: nat)
    requires EntriesInv(prog, s.live, s.rob, s.committed, s.issued)
    requires StationsInv(prog, s.live, s.rob, s.committed, -1, s.rs) && DependentsInv(s.live, s.rob, s.rs)
    requires i < |s.rs| && s.rs[i].valid && k < |s.rs[i].waits| && s.rs[i].waits[k] != -1
    ensures WaitsProperly(prog, s, i, k)
  {
    var st := s.rs[i];
    assert StationInv(prog, s.live, s.rob, s.committed, -1, st);
    assert WaitInv(prog, s.live, s.rob, s.committed, -1, st.insId, st.readRegs[k], st.waits[k]);
    var at := Producer(prog, st.insId, st.readRegs[k]) - s.committed;
    assert s.live[at] == st.waits[k];
    assert EntryInv(prog, s.rob[s.live[at]], s.committed + at);
    assert multiset(s.rob[s.live[at]].dependents)[i] == Waiting(st, s.live[at]);
    CountIsPositive(st.waits, k);
  }

  /** No lost wake-ups, in every reachable state and for every waiting operand. */
  lemma NoLostWakeups(c: Config, prog: seq<Instr>, inputs: seq<Input>, i: nat, k: nat)
    requires c.Valid() && WellFormed(c, prog) && i < c.rsSize
    requires var s := Run(c, prog, inputs);
             s.rs[i].valid && k < |s.rs[i].waits| && s.rs[i].waits[k] != -1
    ensures WaitsProperly(prog, Run(c, prog, inputs), i, k)
  {
    Reachable(c, prog, inputs);
    WaitingOperand(prog, Run(c, prog, inputs), i, k);
  }

  /** A station is in the ready queue of its type, once, exactly when it has nothing left to wait for. */
  lemma QueuedIffCleared(c: Config, prog: seq<Instr>, inputs: seq<Input>, i: nat)
    requires c.Valid() && WellFormed(c, prog) && i < c.rsSize && Run(c, prog, inputs).rs[i].valid
    ensures var s := Run(c, prog, inputs);
            && (Cleared(s.rs[i].waits) <==> exists k :: QueuedAt(s.ready, s.rs[i].insType, k, i))
            && forall t, k, m :: QueuedAt(s.ready, t, k, i) && QueuedAt(s.ready, t, m, i) ==> k == m
  {
    Reachable(c, prog, inputs);
    ReadyIsExact(Run(c, prog, inputs).ready, Run(c, prog, inputs).rs, i);
  }

  lemma ReadyIsExact(ready: seq<seq<Ready>>, rs: seq<Station>, i: nat)
    requires ReadyInv(ready, rs) && i < |rs| && rs[i].valid
    ensures Cleared(rs[i].waits) <==> exists k :: QueuedAt(ready, rs[i].insType, k, i)
    ensures forall t, k, m :: QueuedAt(ready, t, k, i) && QueuedAt(ready, t, m, i) ==> k == m
  {
  }

  ghost predicate Somewhere(s: State, k: nat)
    requires k < |s.live| && s.live[k] < |s.rob|
  {
    || (s.rob[s.live[k]].status == 0 && Stationed(s.rs, s.committed + k))
    || (s.rob[s.live[k]].status == 1 && exists t, u :: RunsSlot(s.units, t, u, s.live[k]))
    || s.rob[s.live[k]].status == 2
  }

  lemma LiveIsSomewhere(prog: seq<Instr>, s: State, k: nat)
    requires EntriesInv(prog, s.live, s.rob, s.committed, s.issued) && k < |s.live|
    requires StationedInv(s.live, s.rob, s.committed, s.rs) && RunningInv(s.live, s.rob, s.units, [])
    ensures Somewhere(s, k)
  {
    assert EntryInv(prog, s.rob[s.live[k]], s.committed + k);
  }

  /** Every live instruction is in a station, in a unit, or executed. */
  lemma NothingForgotten(c: Config, prog: seq<Instr>, inputs: seq<Input>, k: nat)
    requires c.Valid() && WellFormed(c, prog) && k < |Run(c, prog, inputs).live|
    ensures Run(c, prog, inputs).live[k] < c.robSize && Somewhere(Run(c, prog, inputs), k)
  {
    Reachable(c, prog, inputs);
    LiveIsSomewhere(prog, Run(c, prog, inputs), k);
  }

  // ---------- The event history ----------

  lemma {:induction false} LegalPrefixes(prog: seq<Instr>, log: seq<Event>, i: nat)
    requires LegalLog(prog, log) && i < |log|
    ensures Legal(prog, log[..i], log[i])
    decreases |log|
  {
    if i < |log| - 1 {
      LegalPrefixes(prog, log[..|log| - 1], i);
      assert log[..|log| - 1][..i] == log[..i];
    }
  }

  /** True dependencies: in every run each event of an instruction happens at most once, an instruction
      is dispatched only after every producer of its operands has executed, executes after it is
      dispatched, and commits after it executed and after its predecessor committed. */
  lemma HistoryIsLegal(c: Config, prog: seq<Instr>, inputs: seq<Input>)
    requires c.Valid() && WellFormed(c, prog)
    ensures var log := Run(c, prog, inputs).log;
            && (forall i :: 0 <= i < |log| ==> Legal(prog, log[..i], log[i]))
            && (forall i, j :: 0 <= i < j < |log| ==> log[i] != log[j])
  {
    var log := Run(c, prog, inputs).log;
    Reachable(c, prog, inputs);
    forall i | 0 <= i < |log| ensures Legal(prog, log[..i], log[i]) {
      LegalPrefixes(prog, log, i);
    }
    forall i, j | 0 <= i < j < |log| ensures log[i] != log[j] {
      LegalPrefixes(prog, log, j);
      assert log[..j][i] == log[i];
    }
  }

  /** The instructions committed so far, in commit order. */
  ghost function Commits(log: seq<Event>): seq<nat> {
    if log == [] then []
    else
      var before := Commits(log[..|log| - 1]);
      var e := log[|log| - 1];
      if e.Committed? then before + [e.n] else before
  }

  lemma {:induction false} CommitsFollowLog(prog: seq<Instr>, log: seq<Event>)
    requires LegalLog(prog, log)
    ensures forall k :: 0 <= k < |Commits(log)| ==> Commits(log)[k] == k
    ensures forall n: nat :: Committed(n) in log <==> n < |Commits(log)|
  {
    if log != [] {
      var front, e := log[..|log| - 1], log[|log| - 1];
      CommitsFollowLog(prog, front);
      assert log == front + [e];
    }
  }

  lemma CommittedIffBelow(prog: seq<Instr>, s: State, n: nat)
    requires EntriesInv(prog, s.live, s.rob, s.committed, s.issued)
    requires LogInv(prog, s.live, s.rob, s.committed, s.log)
    ensures Committed(n) in s.log <==> n < s.committed
  {
    assert Committed(n) in s.log <==> Happened(s.live, s.rob, s.committed, Committed(n));
    if s.committed <= n < s.committed + |s.live| {
      assert EntryInv(prog, s.rob[s.live[n - s.committed]], s.committed + (n - s.committed));
    }
  }

  /** In-order commit: after any run exactly the first `committed` instructions of the stream have
      committed, each once and in stream order. */
  lemma CommitsInOrder(c: Config, prog: seq<Instr>, inputs: seq<Input>)
    requires c.Valid() && WellFormed(c, prog)
    ensures var s := Run(c, prog, inputs);
            && |Commits(s.log)| == s.committed <= |prog|
            && forall k :: 0 <= k < s.committed ==> Commits(s.log)[k] == k
  {
    var s := Run(c, prog, inputs);
    Reachable(c, prog, inputs);
    CommitsFollowLog(prog, s.log);
    CommittedIffBelow(prog, s, s.committed);
    CommittedIffBelow(prog, s, |Commits(s.log)|);
  }
}
