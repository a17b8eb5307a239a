/** Issuing an instruction keeps the core's invariant. */
module OooIssue {
  import opened RobRing
  import opened OooSpec
  import opened OooInvariant

  lemma CountIsZero(waits: seq<int>, j: int)
    requires forall k :: 0 <= k < |waits| ==> waits[k] != j
    ensures CountEq(waits, j) == 0
  {
  }

  /** Joining the wake-up lists adds one occurrence of station i to slot j per operand waiting for j. */
  lemma {:induction false} DependentsCount(rob: seq<RobEntry>, waits: seq<int>, i: nat, j: nat, x: nat)
    requires forall k :: 0 <= k < |waits| ==> -1 <= waits[k] < |rob|
    requires j < |rob|
    ensures multiset(AddDependents(rob, waits, i)[j].dependents)[x]
         == multiset(rob[j].dependents)[x] + (if x == i then CountEq(waits, j) else 0)
  {
    if waits != [] {
      DependentsCount(rob, waits[..|waits| - 1], i, j, x);
    }
  }

  /** Outside the wake-up lists, live entries are the same in both buffers. */
  ghost predicate SameEntries(live: seq<nat>, rob: seq<RobEntry>, rob': seq<RobEntry>) {
    forall k :: 0 <= k < |live| ==>
      live[k] < |rob| && live[k] < |rob'| && rob'[live[k]] == rob[live[k]].(dependents := rob'[live[k]].dependents)
  }

  /** What issuing `ins` into station i does to the tables. */
  ghost predicate IssueEffect(s: State, s': State, i: nat, slot: nat, ins: Instr) {
    && s'.live == s.live + [slot] && slot !in s.live && slot < |s'.rob|
    && SameEntries(s.live, s.rob, s'.rob)
    && s'.rob[slot] == RobEntry(ins.insId, ins.writeRegs, ins.memWrite, 0, [])
    && s'.rat == SetAlias(s.rat, ins.writeRegs, slot)
    && i < |s.rs| == |s'.rs| && s'.rs == s.rs[i := s'.rs[i]]
    && s'.rs[i] == Station(true, slot, ins.insId, ins.readRegs, s'.rs[i].waits, ins.mispredicted, ins.insType)
    && s'.committed == s.committed && s'.issued == s.issued + 1 && s'.units == s.units
    && s'.log == s.log + [Issued(ins.insId)]
    && s.decode != [] && s.decode[0].ins == ins && s'.decode == s.decode[1..]
  }

  lemma IssueFacts(c: Config, s: State, i: nat)
    requires CanIssue(c, s, i)
    ensures IssueEffect(s, IssueOne(c, s, i), i, NextSlot(c.robSize, s.live), s.decode[0].ins)
  {
    AppendSlot(c.robSize, s.live);
    LiveSlots(c.robSize, s.live);
  }

  /** The part of the invariant that issuing an instruction consults. */
  ghost predicate Renamed(c: Config, prog: seq<Instr>, s: State) {
    && WellFormed(c, prog)
    && EntriesInv(prog, s.live, s.rob, s.committed, s.issued)
    && RatInv(prog, s.live, s.rat, s.committed, s.issued)
    && DecodeInv(prog, s.decode, s.issued)
  }

  lemma EntriesAfterIssue(c: Config, prog: seq<Instr>, s: State, s': State, i: nat, slot: nat, ins: Instr)
    requires Renamed(c, prog, s) && IssueEffect(s, s', i, slot, ins)
    ensures Renamed(c, prog, s') && ins == prog[s.issued] && ins.insId == s.issued
  {
    assert ins == prog[s.issued + 0] && ins.insId == s.issued;
    forall k | 0 <= k < |s'.live|
      ensures s'.live[k] < |s'.rob| && EntryInv(prog, s'.rob[s'.live[k]], s'.committed + k)
    {
      if k < |s.live| { assert EntryInv(prog, s.rob[s.live[k]], s.committed + k); }
    }
    forall k | 0 <= k < |s'.decode| ensures s'.decode[k].ins == prog[s'.issued + k] {
      assert s.decode[k + 1].ins == prog[s.issued + (k + 1)];
    }
  }

  /** An operand looked up through the alias table waits for the youngest older writer of its register. */
  lemma NewWaits(c: Config, prog: seq<Instr>, s: State, s': State, i: nat, slot: nat, ins: Instr, r: int, w: int)
    requires Renamed(c, prog, s) && Renamed(c, prog, s') && IssueEffect(s, s', i, slot, ins)
    requires -1 <= r < |s.rat|
    requires w == if r == -1 || s.rat[r] == -1 || (0 <= s.rat[r] < |s.rob| && s.rob[s.rat[r]].status == 2) then -1
                  else s.rat[r]
    ensures WaitInv(prog, s'.live, s'.rob, s'.committed, -1, s.issued, r, w)
    ensures w != slot
  {
    if r != -1 && Producer(prog, s.issued, r) >= s.committed {
      var k := Producer(prog, s.issued, r) - s.committed;
      assert s'.live[k] == s.live[k];
    }
  }

  /** A waiting station's promise survives a longer list of live entries. */
  lemma StationAfterIssue(prog: seq<Instr>, live: seq<nat>, rob: seq<RobEntry>, rob': seq<RobEntry>, committed: nat,
                          slot: nat, st: Station)
    requires forall k :: 0 <= k < |live| ==> live[k] < |rob|
    requires committed + |live| < |prog| && StationInv(prog, live, rob, committed, -1, st)
    requires SameEntries(live, rob, rob') && slot < |rob'| && slot !in live
    ensures StationInv(prog, live + [slot], rob', committed, -1, st)
    ensures Waiting(st, slot) == 0
  {
    if st.valid {
      forall k | 0 <= k < |st.waits|
        ensures WaitInv(prog, live + [slot], rob', committed, -1, st.insId, st.readRegs[k], st.waits[k])
        ensures st.waits[k] != slot
      {
        assert WaitInv(prog, live, rob, committed, -1, st.insId, st.readRegs[k], st.waits[k]);
      }
      CountIsZero(st.waits, slot);
    }
  }

  lemma StationsAfterIssue(c: Config, prog: seq<Instr>, s: State, s': State, i: nat, slot: nat, ins: Instr)
    requires Renamed(c, prog, s) && Renamed(c, prog, s') && IssueEffect(s, s', i, slot, ins)
    requires StationsInv(prog, s.live, s.rob, s.committed, -1, s.rs) && StationedInv(s.live, s.rob, s.committed, s.rs)
    requires !s.rs[i].valid && StationInv(prog, s'.live, s'.rob, s'.committed, -1, s'.rs[i])
    ensures StationsInv(prog, s'.live, s'.rob, s'.committed, -1, s'.rs)
    ensures StationedInv(s'.live, s'.rob, s'.committed, s'.rs)
    ensures forall x :: 0 <= x < |s.rs| && x != i ==> Waiting(s.rs[x], slot) == 0
  {
    forall x | 0 <= x < |s.rs| && x != i
      ensures StationInv(prog, s'.live, s'.rob, s'.committed, -1, s'.rs[x]) && Waiting(s.rs[x], slot) == 0
    {
      StationAfterIssue(prog, s.live, s.rob, s'.rob, s.committed, slot, s.rs[x]);
    }
    StationedAfterIssue(s, s', i, slot, ins);
    assert forall x :: 0 <= x < |s.rs| && s.rs[x].valid ==> s.rs[x].insId < s.issued;
    hide WaitInv, Waiting, Stationed, EntryInv, DecodeInv, RatInv;
  }

  lemma StationedAfterIssue(s: State, s': State, i: nat, slot: nat, ins: Instr)
    requires IssueEffect(s, s', i, slot, ins) && ins.insId == s.committed + |s.live|
    requires forall k :: 0 <= k < |s.live| ==> s.live[k] < |s.rob|
    requires StationedInv(s.live, s.rob, s.committed, s.rs) && !s.rs[i].valid
    ensures forall k :: 0 <= k < |s'.live| ==> s'.live[k] < |s'.rob|
    ensures StationedInv(s'.live, s'.rob, s'.committed, s'.rs)
  {
    forall k | 0 <= k < |s'.live| && s'.rob[s'.live[k]].status == 0 ensures Stationed(s'.rs, s'.committed + k) {
      if k == |s.live| {
        assert s'.rs[i].insId == s'.committed + k;
      } else {
        assert Stationed(s.rs, s.committed + k);
        var x :| 0 <= x < |s.rs| && s.rs[x].valid && s.rs[x].insId == s.committed + k;
        assert s'.rs[x] == s.rs[x];
      }
    }
  }

  lemma UnitsAfterIssue(prog: seq<Instr>, lat: seq<nat>, s: State, s': State, i: nat, slot: nat, ins: Instr)
    requires IssueEffect(s, s', i, slot, ins)
    requires UnitsInv(prog, lat, s.live, s.rob, s.committed, s.units) && RunningInv(s.live, s.rob, s.units, [])
    ensures UnitsInv(prog, lat, s'.live, s'.rob, s'.committed, s'.units)
    ensures RunningInv(s'.live, s'.rob, s'.units, [])
  {
    forall t, u | Runs(s.units, t, u)
      ensures RunningSlot(s'.live, s'.rob, s'.committed, s.units[t][u].robIndex)
      ensures s'.rob[s.units[t][u].robIndex].insId == s.rob[s.units[t][u].robIndex].insId
    {
      var j := s.units[t][u].robIndex;
      assert s.live[s.rob[j].insId - s.committed] == j;
    }
    forall k | 0 <= k < |s'.live| && s'.rob[s'.live[k]].status == 1
      ensures exists t, u :: RunsSlot(s'.units, t, u, s'.live[k])
    {
      assert k < |s.live| && s.rob[s.live[k]].status == 1;
    }
  }

  lemma DependentsAfterIssue(s: State, s': State, i: nat, slot: nat, ins: Instr)
    requires IssueEffect(s, s', i, slot, ins) && !s.rs[i].valid
    requires DependentsInv(s.live, s.rob, s.rs)
    requires forall k :: 0 <= k < |s'.rs[i].waits| ==> -1 <= s'.rs[i].waits[k] < |s.rob| && s'.rs[i].waits[k] != slot
    requires forall k :: 0 <= k < |s.live| ==> s'.rob[s.live[k]] == AddDependents(s.rob, s'.rs[i].waits, i)[s.live[k]]
    requires forall x :: 0 <= x < |s.rs| && x != i ==> Waiting(s.rs[x], slot) == 0
    ensures DependentsInv(s'.live, s'.rob, s'.rs)
  {
    forall k, x | 0 <= k < |s'.live| && 0 <= x < |s'.rs|
      ensures multiset(s'.rob[s'.live[k]].dependents)[x] == Waiting(s'.rs[x], s'.live[k])
    {
      if k < |s.live| {
        DependentsCount(s.rob, s'.rs[i].waits, i, s.live[k], x);
      } else if x == i {
        CountIsZero(s'.rs[i].waits, slot);
      }
    }
  }

  lemma PushReady(ready: seq<seq<Ready>>, rs: seq<Station>, i: nat, st: Station, t: nat)
    requires ReadyInv(ready, rs) && i < |rs| && t < |ready|
    requires rs[i].valid ==> !Cleared(rs[i].waits)
    requires st.valid && st.insType == t && Cleared(st.waits)
    ensures ReadyInv(Push(ready, t, i), rs[i := st])
  {
    var r' := Push(ready, t, i);
    var rs' := rs[i := st];
    forall t', k, x: nat | QueuedAt(r', t', k, x)
      ensures x < |rs'| && rs'[x].valid && rs'[x].insType == t' && Cleared(rs'[x].waits)
    {
      if t' != t || k < |ready[t]| { assert QueuedAt(ready, t', k, x); }
    }
    forall t', k, m, x: nat | QueuedAt(r', t', k, x) && QueuedAt(r', t', m, x) ensures k == m {
      if t' != t || k < |ready[t]| { assert QueuedAt(ready, t', k, x); }
      if t' != t || m < |ready[t]| { assert QueuedAt(ready, t', m, x); }
    }
    forall x | 0 <= x < |rs'| && rs'[x].valid && Cleared(rs'[x].waits)
      ensures exists k :: QueuedAt(r', rs'[x].insType, k, x)
    {
      if x == i {
        assert QueuedAt(r', t, |ready[t]|, i);
      } else {
        var k :| QueuedAt(ready, rs[x].insType, k, x);
        assert QueuedAt(r', rs'[x].insType, k, x);
      }
    }
  }

  /** A station that is not queued may change as long as it still has an operand to wait for. */
  lemma KeepReady(ready: seq<seq<Ready>>, rs: seq<Station>, i: nat, st: Station)
    requires ReadyInv(ready, rs) && i < |rs|
    requires rs[i].valid ==> !Cleared(rs[i].waits)
    requires st.valid ==> !Cleared(st.waits)
    ensures ReadyInv(ready, rs[i := st])
  {
  }

  lemma AppendLog(prog: seq<Instr>, log: seq<Event>, e: Event)
    requires LegalLog(prog, log) && Legal(prog, log, e)
    ensures LegalLog(prog, log + [e])
    ensures forall x :: x in log + [e] <==> x in log || x == e
  {
    assert (log + [e])[..|log|] == log;
  }

  lemma LogAfterIssue(prog: seq<Instr>, s: State, s': State, i: nat, slot: nat, ins: Instr)
    requires IssueEffect(s, s', i, slot, ins)
    requires forall k :: 0 <= k < |s.live| ==> s.rob[s.live[k]].status >= 0
    requires LogInv(prog, s.live, s.rob, s.committed, s.log)
    requires ins.insId == s.committed + |s.live| < |prog|
    ensures LogInv(prog, s'.live, s'.rob, s'.committed, s'.log)
  {
    IssueIsLegal(prog, s, ins.insId);
    AppendLog(prog, s.log, Issued(ins.insId));
    hide LegalLog, Legal, Happened;
    forall x ensures x in s'.log <==> Happened(s'.live, s'.rob, s'.committed, x) {
      assert x in s.log <==> Happened(s.live, s.rob, s.committed, x);
      HappenedAfterIssue(s, s', i, slot, ins, x);
    }
  }

  lemma IssueIsLegal(prog: seq<Instr>, s: State, n: nat)
    requires forall k :: 0 <= k < |s.live| ==> s.live[k] < |s.rob| && s.rob[s.live[k]].status >= 0
    requires LogInv(prog, s.live, s.rob, s.committed, s.log) && n == s.committed + |s.live| < |prog|
    ensures Legal(prog, s.log, Issued(n))
  {
    hide LegalLog;
    if n > 0 {
      assert Happened(s.live, s.rob, s.committed, Issued(n - 1));
    }
    assert Issued(n) in s.log <==> Happened(s.live, s.rob, s.committed, Issued(n));
  }

  /** Issuing adds the new instruction's issue to what has happened, and nothing else. */
  lemma HappenedAfterIssue(s: State, s': State, i: nat, slot: nat, ins: Instr, x: Event)
    requires IssueEffect(s, s', i, slot, ins)
    requires forall k :: 0 <= k < |s.live| ==> s.live[k] < |s.rob| && s.rob[s.live[k]].status >= 0
    requires ins.insId == s.committed + |s.live|
    ensures forall k :: 0 <= k < |s'.live| ==> s'.live[k] < |s'.rob|
    ensures Happened(s'.live, s'.rob, s'.committed, x)
            <==> Happened(s.live, s.rob, s.committed, x) || x == Issued(ins.insId)
  {
    if s.committed <= x.n < ins.insId {
      assert s'.live[x.n - s.committed] == s.live[x.n - s.committed];
    } else if x.n == ins.insId {
      assert s'.live[|s.live|] == slot;
    }
  }

  lemma IssueStations(c: Config, prog: seq<Instr>, s: State, i: nat)
    requires CanIssue(c, s, i) && Renamed(c, prog, s)
    ensures var s' := IssueOne(c, s, i);
            && Renamed(c, prog, s')
            && StationInv(prog, s'.live, s'.rob, s'.committed, -1, s'.rs[i])
            && forall k :: 0 <= k < |s'.rs[i].waits| ==> s'.rs[i].waits[k] != NextSlot(c.robSize, s.live)
  {
    var s', slot, ins := IssueOne(c, s, i), NextSlot(c.robSize, s.live), s.decode[0].ins;
    IssueFacts(c, s, i);
    EntriesAfterIssue(c, prog, s, s', i, slot, ins);
    assert InstrOK(c, ins);
    var st := s'.rs[i];
    assert st.waits == Waits(c, s.rat, s.rob, ins.readRegs);
    forall k | 0 <= k < |st.waits|
      ensures WaitInv(prog, s'.live, s'.rob, s'.committed, -1, st.insId, st.readRegs[k], st.waits[k])
      ensures st.waits[k] != slot
    {
      NewWaits(c, prog, s, s', i, slot, ins, st.readRegs[k], st.waits[k]);
    }
  }

  lemma IssueReady(c: Config, s: State, i: nat)
    requires CanIssue(c, s, i) && !s.rs[i].valid && ReadyInv(s.ready, s.rs)
    ensures ReadyInv(IssueOne(c, s, i).ready, IssueOne(c, s, i).rs)
  {
    var st := IssueOne(c, s, i).rs[i];
    if Cleared(st.waits) {
      PushReady(s.ready, s.rs, i, st, st.insType);
    } else {
      KeepReady(s.ready, s.rs, i, st);
    }
  }

  lemma IssueDependents(c: Config, s: State, i: nat)
    requires CanIssue(c, s, i)
    ensures var s' := IssueOne(c, s, i);
            && (forall k :: 0 <= k < |s'.rs[i].waits| ==> -1 <= s'.rs[i].waits[k] < |s.rob|)
            && forall k :: 0 <= k < |s.live| ==>
                 && s.live[k] < |s.rob|
                 && s'.rob[s.live[k]] == AddDependents(s.rob, s'.rs[i].waits, i)[s.live[k]]
  {
    AppendSlot(c.robSize, s.live);
    LiveSlots(c.robSize, s.live);
  }

  lemma IssueKeepsInv(c: Config, prog: seq<Instr>, s: State, i: nat)
    requires Inv(c, prog, s, [], -1) && CanIssue(c, s, i) && !s.rs[i].valid
    ensures Inv(c, prog, IssueOne(c, s, i), [], -1)
  {
    var s', slot, ins := IssueOne(c, s, i), NextSlot(c.robSize, s.live), s.decode[0].ins;
    IssueFacts(c, s, i);
    EntriesAfterIssue(c, prog, s, s', i, slot, ins);
    IssueStations(c, prog, s, i);
    IssueReady(c, s, i);
    IssueDependents(c, s, i);
    StationsAfterIssue(c, prog, s, s', i, slot, ins);
    UnitsAfterIssue(prog, c.latency, s, s', i, slot, ins);
    DependentsAfterIssue(s, s', i, slot, ins);
    LogAfterIssue(prog, s, s', i, slot, ins);
    hide IssueOne, LogInv, UnitsInv, PendingInv, RunningInv, DependentsInv, ReadyInv, StationsInv, StationedInv, RatInv;
  }
}
