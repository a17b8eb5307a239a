/** Completing, broadcasting and committing instructions keep the core's invariant. */
module OooExecute {
  import opened RobRing
  import opened OooSpec
  import opened OooInvariant
  import opened OooIssue

  // ---------- A unit finishes ----------

  ghost predicate ReleaseEffect(s: State, s': State, t: nat, u: nat) {
    && t < |s.units| && u < |s.units[t]| && s.units[t][u].busy
    && s' == s.(units := s.units[t := s.units[t][u := s.units[t][u].(busy := false)]])
  }

  lemma UnitsAfterRelease(prog: seq<Instr>, lat: seq<nat>, s: State, s': State, t: nat, u: nat, pending: seq<nat>)
    requires ReleaseEffect(s, s', t, u)
    requires UnitsInv(prog, lat, s.live, s.rob, s.committed, s.units)
    requires PendingInv(s.live, s.rob, s.committed, s.units, pending)
    ensures UnitsInv(prog, lat, s'.live, s'.rob, s'.committed, s'.units)
    ensures PendingInv(s'.live, s'.rob, s'.committed, s'.units, pending + [s.units[t][u].robIndex])
  {
    assert Runs(s.units, t, u);
    forall t', u' | Runs(s'.units, t', u')
      ensures Runs(s.units, t', u') && s'.units[t'][u'] == s.units[t'][u'] && !(t' == t && u' == u)
    {
    }
  }

  lemma RunningAfterRelease(s: State, s': State, t: nat, u: nat, pending: seq<nat>)
    requires ReleaseEffect(s, s', t, u)
    requires forall k :: 0 <= k < |s.live| ==> s.live[k] < |s.rob|
    requires RunningInv(s.live, s.rob, s.units, pending)
    ensures RunningInv(s'.live, s'.rob, s'.units, pending + [s.units[t][u].robIndex])
  {
    forall k | 0 <= k < |s'.live| && s'.rob[s'.live[k]].status == 1
      ensures s'.live[k] in pending + [s.units[t][u].robIndex]
              || exists t', u' :: RunsSlot(s'.units, t', u', s'.live[k])
    {
      if s.live[k] !in pending {
        var t', u' :| RunsSlot(s.units, t', u', s.live[k]);
        if t' == t && u' == u {
          assert (pending + [s.units[t][u].robIndex])[|pending|] == s.live[k];
        } else {
          assert RunsSlot(s'.units, t', u', s.live[k]);
        }
      }
    }
  }

  lemma ReleaseKeepsInv(c: Config, prog: seq<Instr>, s: State, t: nat, u: nat, pending: seq<nat>)
    requires Inv(c, prog, s, pending, -1) && t < c.types && u < c.units && s.units[t][u].busy
    ensures Inv(c, prog, Release(c, s, t, u), pending + [s.units[t][u].robIndex], -1)
  {
    UnitsAfterRelease(prog, c.latency, s, Release(c, s, t, u), t, u, pending);
    RunningAfterRelease(s, Release(c, s, t, u), t, u, pending);
  }

  // ---------- A result is announced ----------

  ghost predicate MarkEffect(s: State, s': State, j: nat) {
    && RunningSlot(s.live, s.rob, s.committed, j)
    && s' == s.(rob := s.rob[j := s.rob[j].(status := 2)], log := s.log + [Executed(s.rob[j].insId)])
  }

  lemma EntriesAfterMark(prog: seq<Instr>, s: State, s': State, j: nat)
    requires MarkEffect(s, s', j) && EntriesInv(prog, s.live, s.rob, s.committed, s.issued)
    ensures EntriesInv(prog, s'.live, s'.rob, s'.committed, s'.issued)
  {
    forall k | 0 <= k < |s'.live| ensures EntryInv(prog, s'.rob[s'.live[k]], s'.committed + k) {
      assert EntryInv(prog, s.rob[s.live[k]], s.committed + k);
    }
  }

  lemma StationsAfterMark(prog: seq<Instr>, s: State, s': State, j: nat)
    requires MarkEffect(s, s', j) && EntriesInv(prog, s.live, s.rob, s.committed, s.issued)
    requires StationsInv(prog, s.live, s.rob, s.committed, -1, s.rs) && StationedInv(s.live, s.rob, s.committed, s.rs)
    ensures StationsInv(prog, s'.live, s'.rob, s'.committed, j, s'.rs)
            && StationedInv(s'.live, s'.rob, s'.committed, s'.rs)
  {
    forall x | 0 <= x < |s'.rs| ensures StationInv(prog, s'.live, s'.rob, s'.committed, j, s'.rs[x]) {
      assert StationInv(prog, s.live, s.rob, s.committed, -1, s.rs[x]);
      if s.rs[x].valid {
        forall k | 0 <= k < |s.rs[x].waits|
          ensures WaitInv(prog, s'.live, s'.rob, s'.committed, j, s.rs[x].insId, s.rs[x].readRegs[k], s.rs[x].waits[k])
        {
          assert WaitInv(prog, s.live, s.rob, s.committed, -1, s.rs[x].insId, s.rs[x].readRegs[k], s.rs[x].waits[k]);
        }
      }
    }
  }

  lemma UnitsAfterMark(prog: seq<Instr>, lat: seq<nat>, s: State, s': State, j: nat, rest: seq<nat>)
    requires MarkEffect(s, s', j)
    requires UnitsInv(prog, lat, s.live, s.rob, s.committed, s.units)
    requires PendingInv(s.live, s.rob, s.committed, s.units, [j] + rest)
    ensures UnitsInv(prog, lat, s'.live, s'.rob, s'.committed, s'.units)
    ensures PendingInv(s'.live, s'.rob, s'.committed, s'.units, rest)
  {
    var all := [j] + rest;
    assert all[0] == j;
    forall t, u | Runs(s.units, t, u)
      ensures s.units[t][u].robIndex != j && RunningSlot(s'.live, s'.rob, s'.committed, s.units[t][u].robIndex)
    {
      assert s.units[t][u].robIndex != all[0];
    }
    forall k | 0 <= k < |rest| ensures rest[k] == all[k + 1] && rest[k] != j {
    }
  }

  lemma RunningAfterMark(s: State, s': State, j: nat, rest: seq<nat>)
    requires MarkEffect(s, s', j)
    requires forall k :: 0 <= k < |s.live| ==> s.live[k] < |s.rob|
    requires RunningInv(s.live, s.rob, s.units, [j] + rest)
    ensures RunningInv(s'.live, s'.rob, s'.units, rest)
  {
    forall k | 0 <= k < |s'.live| && s'.rob[s'.live[k]].status == 1
      ensures s'.live[k] in rest || exists t, u :: RunsSlot(s'.units, t, u, s'.live[k])
    {
      assert s.live[k] in [j] + rest || exists t, u :: RunsSlot(s.units, t, u, s.live[k]);
    }
  }

  lemma LogAfterMark(prog: seq<Instr>, s: State, s': State, j: nat)
    requires MarkEffect(s, s', j)
    requires forall k :: 0 <= k < |s.live| ==> s.live[k] < |s.rob|
    requires forall k, m :: 0 <= k < m < |s.live| ==> s.live[k] != s.live[m]
    requires s.committed + |s.live| <= |prog|
    requires LogInv(prog, s.live, s.rob, s.committed, s.log)
    ensures LogInv(prog, s'.live, s'.rob, s'.committed, s'.log)
  {
    var n := s.rob[j].insId;
    assert Happened(s.live, s.rob, s.committed, Dispatched(n));
    assert !Happened(s.live, s.rob, s.committed, Executed(n));
    AppendLog(prog, s.log, Executed(n));
    forall x ensures x in s'.log <==> Happened(s'.live, s'.rob, s'.committed, x) {
      assert x in s.log <==> Happened(s.live, s.rob, s.committed, x);
    }
  }

  lemma MarkKeepsInv(c: Config, prog: seq<Instr>, s: State, j: nat, rest: seq<nat>)
    requires Inv(c, prog, s, [j] + rest, -1) && j < c.robSize
    ensures Inv(c, prog, MarkExecuted(c, s, j), rest, j)
  {
    var s' := MarkExecuted(c, s, j);
    LiveSlots(c.robSize, s.live);
    assert ([j] + rest)[0] == j;
    assert MarkEffect(s, s', j);
    EntriesAfterMark(prog, s, s', j);
    StationsAfterMark(prog, s, s', j);
    UnitsAfterMark(prog, c.latency, s, s', j, rest);
    RunningAfterMark(s, s', j, rest);
    LogAfterMark(prog, s, s', j);
  }

  // ---------- Consumers wake up ----------

  lemma {:induction false} CountClears(waits: seq<int>, k: nat, j: int)
    requires k < |waits| && waits[k] != -1 && j != -1
    ensures CountEq(waits[k := -1], j) == CountEq(waits, j) - (if waits[k] == j then 1 else 0)
    decreases |waits|
  {
    var w, last := waits[k := -1], |waits| - 1;
    if k == last {
      assert w[..last] == waits[..last];
    } else {
      CountClears(waits[..last], k, j);
      assert w[..last] == waits[..last][k := -1];
    }
  }

  lemma {:induction false} CountHasWitness(waits: seq<int>, j: int)
    requires CountEq(waits, j) > 0
    ensures exists k :: 0 <= k < |waits| && waits[k] == j
  {
    if forall k :: 0 <= k < |waits| ==> waits[k] != j {
      CountIsZero(waits, j);
    }
  }

  ghost predicate WakeEffect(s: State, s': State, j: nat, i: nat) {
    && j < |s.rob| && s.rob[j].dependents != [] && s.rob[j].dependents[0] == i && i < |s.rs|
    && s'.rob == s.rob[j := s.rob[j].(dependents := s.rob[j].dependents[1..])]
    && s'.rs == s.rs[i := s.rs[i].(waits := ClearFirst(s.rs[i].waits, j))]
    && s'.live == s.live && s'.committed == s.committed && s'.units == s.units && s'.log == s.log
    && s'.issued == s.issued && s'.rat == s.rat && s'.decode == s.decode
  }

  /** The station woken really waits for j. */
  lemma WokenWaits(s: State, j: nat, i: nat)
    requires forall k :: 0 <= k < |s.live| ==> s.live[k] < |s.rob|
    requires j in s.live && j < |s.rob| && s.rob[j].dependents != [] && s.rob[j].dependents[0] == i && i < |s.rs|
    requires DependentsInv(s.live, s.rob, s.rs)
    ensures s.rs[i].valid && FirstWaiting(s.rs[i].waits, j, 0) != -1 && !Cleared(s.rs[i].waits)
  {
    var k :| 0 <= k < |s.live| && s.live[k] == j;
    assert multiset(s.rob[j].dependents)[i] == Waiting(s.rs[i], j);
    assert i in multiset(s.rob[j].dependents) by { assert s.rob[j].dependents[0] in s.rob[j].dependents; }
    CountHasWitness(s.rs[i].waits, j);
    assert s.rs[i].waits[FirstWaiting(s.rs[i].waits, j, 0)] != -1;
  }

  lemma DependentsAfterWake(s: State, s': State, j: nat, i: nat)
    requires WakeEffect(s, s', j, i) && j in s.live
    requires forall k :: 0 <= k < |s.live| ==> s.live[k] < |s.rob|
    requires DependentsInv(s.live, s.rob, s.rs)
    ensures DependentsInv(s'.live, s'.rob, s'.rs)
  {
    WokenWaits(s, j, i);
    var at := FirstWaiting(s.rs[i].waits, j, 0);
    forall k, x | 0 <= k < |s'.live| && 0 <= x < |s'.rs|
      ensures multiset(s'.rob[s'.live[k]].dependents)[x] == Waiting(s'.rs[x], s'.live[k])
    {
      assert multiset(s.rob[s.live[k]].dependents)[x] == Waiting(s.rs[x], s.live[k]);
      CountClears(s.rs[i].waits, at, s.live[k]);
      assert s.rob[j].dependents == [i] + s.rob[j].dependents[1..];
    }
  }

  lemma StationAfterWake(prog: seq<Instr>, live: seq<nat>, rob: seq<RobEntry>, rob': seq<RobEntry>, committed: nat,
                         j: nat, st: Station, waits: seq<int>)
    requires forall k :: 0 <= k < |live| ==> live[k] < |rob|
    requires committed + |live| <= |prog| && SameEntries(live, rob, rob')
    requires StationInv(prog, live, rob, committed, j, st)
    requires waits == st.waits || waits == ClearFirst(st.waits, j)
    ensures StationInv(prog, live, rob', committed, j, st.(waits := waits))
  {
    if st.valid {
      forall k | 0 <= k < |waits|
        ensures WaitInv(prog, live, rob', committed, j, st.insId, st.readRegs[k], waits[k])
      {
        assert WaitInv(prog, live, rob, committed, j, st.insId, st.readRegs[k], st.waits[k]);
      }
    }
  }

  lemma StationsAfterWake(prog: seq<Instr>, s: State, s': State, j: nat, i: nat)
    requires WakeEffect(s, s', j, i)
    requires forall k :: 0 <= k < |s.live| ==> s.live[k] < |s.rob|
    requires s.committed + |s.live| <= |prog|
    requires StationsInv(prog, s.live, s.rob, s.committed, j, s.rs) && StationedInv(s.live, s.rob, s.committed, s.rs)
    ensures StationsInv(prog, s'.live, s'.rob, s'.committed, j, s'.rs)
            && StationedInv(s'.live, s'.rob, s'.committed, s'.rs)
  {
    forall x | 0 <= x < |s'.rs|
      ensures StationInv(prog, s'.live, s'.rob, s'.committed, j, s'.rs[x])
      ensures s'.rs[x].valid == s.rs[x].valid && s'.rs[x].insId == s.rs[x].insId
    {
      StationAfterWake(prog, s.live, s.rob, s'.rob, s.committed, j, s.rs[x], s'.rs[x].waits);
    }
    forall k | 0 <= k < |s'.live| && s'.rob[s'.live[k]].status == 0 ensures Stationed(s'.rs, s'.committed + k) {
      assert Stationed(s.rs, s.committed + k);
    }
  }

  /** Everything that only looks at live entries, not at their wake-up lists, is untouched. */
  lemma EntriesAfterWake(prog: seq<Instr>, lat: seq<nat>, s: State, s': State, j: nat, i: nat, pending: seq<nat>)
    requires WakeEffect(s, s', j, i)
    requires EntriesInv(prog, s.live, s.rob, s.committed, s.issued)
    requires UnitsInv(prog, lat, s.live, s.rob, s.committed, s.units)
    requires PendingInv(s.live, s.rob, s.committed, s.units, pending)
    requires RunningInv(s.live, s.rob, s.units, pending)
    ensures EntriesInv(prog, s'.live, s'.rob, s'.committed, s'.issued)
    ensures UnitsInv(prog, lat, s'.live, s'.rob, s'.committed, s'.units)
    ensures PendingInv(s'.live, s'.rob, s'.committed, s'.units, pending)
    ensures RunningInv(s'.live, s'.rob, s'.units, pending)
  {
    forall k | 0 <= k < |s'.live| ensures EntryInv(prog, s'.rob[s'.live[k]], s'.committed + k) {
      assert EntryInv(prog, s.rob[s.live[k]], s.committed + k);
    }
    forall j' ensures RunningSlot(s'.live, s'.rob, s'.committed, j') <==> RunningSlot(s.live, s.rob, s.committed, j') {
    }
    hide EntryInv, RunningSlot;
  }

  lemma LogAfterWake(prog: seq<Instr>, s: State, s': State, j: nat, i: nat)
    requires WakeEffect(s, s', j, i)
    requires forall k :: 0 <= k < |s.live| ==> s.live[k] < |s.rob|
    requires LogInv(prog, s.live, s.rob, s.committed, s.log)
    ensures LogInv(prog, s'.live, s'.rob, s'.committed, s'.log)
  {
    forall x ensures Happened(s'.live, s'.rob, s'.committed, x) <==> Happened(s.live, s.rob, s.committed, x) {
    }
  }

  lemma ReadyAfterWake(c: Config, s: State, j: nat, i: nat)
    requires Shape(c, s) && j < c.robSize && s.rob[j].dependents != [] && s.rob[j].dependents[0] == i && i < |s.rs|
    requires s.rs[i].valid && !Cleared(s.rs[i].waits) && ReadyInv(s.ready, s.rs)
    ensures ReadyInv(WakeOne(c, s, j).ready, WakeOne(c, s, j).rs)
  {
    var st := WakeOne(c, s, j).rs[i];
    assert StationOK(c, s.rs[i]);
    if Cleared(st.waits) {
      PushReady(s.ready, s.rs, i, st, st.insType);
    } else {
      KeepReady(s.ready, s.rs, i, st);
    }
  }

  lemma WakeOneKeepsInv(c: Config, prog: seq<Instr>, s: State, j: nat, pending: seq<nat>)
    requires Inv(c, prog, s, pending, j) && j < c.robSize && j in s.live && s.rob[j].dependents != []
    ensures Inv(c, prog, WakeOne(c, s, j), pending, j)
  {
    var s' := WakeOne(c, s, j);
    assert EntryOK(c, s.rob[j]);
    var i := s.rob[j].dependents[0];
    WokenWaits(s, j, i);
    ReadyAfterWake(c, s, j, i);
    DependentsAfterWake(s, s', j, i);
    StationsAfterWake(prog, s, s', j, i);
    EntriesAfterWake(prog, c.latency, s, s', j, i, pending);
    LogAfterWake(prog, s, s', j, i);
  }

  /** Once the list is empty no station waits for j any more: the broadcast is complete. */
  lemma NobodyLeftWaiting(prog: seq<Instr>, live: seq<nat>, rob: seq<RobEntry>, committed: nat, rs: seq<Station>,
                          j: nat)
    requires forall k :: 0 <= k < |live| ==> live[k] < |rob|
    requires committed + |live| <= |prog| && j in live && rob[j].dependents == [] && rob[j].status == 2
    requires StationsInv(prog, live, rob, committed, j, rs) && DependentsInv(live, rob, rs)
    ensures StationsInv(prog, live, rob, committed, -1, rs)
  {
    var at :| 0 <= at < |live| && live[at] == j;
    forall x | 0 <= x < |rs| ensures StationInv(prog, live, rob, committed, -1, rs[x]) {
      assert StationInv(prog, live, rob, committed, j, rs[x]);
      assert multiset(rob[live[at]].dependents)[x] == Waiting(rs[x], live[at]);
      if rs[x].valid {
        forall k | 0 <= k < |rs[x].waits|
          ensures WaitInv(prog, live, rob, committed, -1, rs[x].insId, rs[x].readRegs[k], rs[x].waits[k])
        {
          assert WaitInv(prog, live, rob, committed, j, rs[x].insId, rs[x].readRegs[k], rs[x].waits[k]);
          if rs[x].waits[k] == j { CountIsPositive(rs[x].waits, k); }
        }
      }
    }
  }

  lemma {:induction false} CountIsPositive(waits: seq<int>, k: nat)
    requires k < |waits|
    ensures CountEq(waits, waits[k]) > 0
    decreases |waits|
  {
    if k < |waits| - 1 { CountIsPositive(waits[..|waits| - 1], k); }
  }

  lemma {:induction false} WakeKeepsInv(c: Config, prog: seq<Instr>, s: State, j: nat, pending: seq<nat>)
    requires Inv(c, prog, s, pending, j) && j < c.robSize && j in s.live && s.rob[j].status == 2
    ensures Inv(c, prog, Wake(c, s, j), pending, -1)
    decreases |s.rob[j].dependents|
  {
    if s.rob[j].dependents == [] {
      NobodyLeftWaiting(prog, s.live, s.rob, s.committed, s.rs, j);
    } else {
      WakeOneKeepsInv(c, prog, s, j, pending);
      assert WakeOne(c, s, j).live == s.live;
      WakeKeepsInv(c, prog, WakeOne(c, s, j), j, pending);
    }
  }

  // ---------- The oldest instruction commits ----------

  ghost predicate RetireEffect(s: State, s': State, j: nat) {
    && s.live != [] && s.live[0] == j && j < |s.rob| && s.rob[j].status == 2
    && s' == s.(live := s.live[1..],
                rob := s.rob[j := s.rob[j].(status := 3)],
                rat := ClearAlias(s.rat, j),
                committed := s.committed + 1,
                log := s.log + [Committed(s.rob[j].insId)])
  }

  ghost predicate DistinctSlots(live: seq<nat>, rob: seq<RobEntry>) {
    && (forall k :: 0 <= k < |live| ==> live[k] < |rob|)
    && (forall k, m :: 0 <= k < m < |live| ==> live[k] != live[m])
  }

  lemma EntriesAfterRetire(prog: seq<Instr>, s: State, s': State, j: nat)
    requires RetireEffect(s, s', j) && DistinctSlots(s.live, s.rob)
    requires EntriesInv(prog, s.live, s.rob, s.committed, s.issued)
             && RatInv(prog, s.live, s.rat, s.committed, s.issued)
    ensures EntriesInv(prog, s'.live, s'.rob, s'.committed, s'.issued)
    ensures RatInv(prog, s'.live, s'.rat, s'.committed, s'.issued)
  {
    forall k | 0 <= k < |s'.live| ensures EntryInv(prog, s'.rob[s'.live[k]], s'.committed + k) {
      assert s'.live[k] == s.live[k + 1];
      assert EntryInv(prog, s.rob[s.live[k + 1]], s.committed + (k + 1));
    }
    forall r | 0 <= r < |s'.rat| ensures s'.rat[r] == Location(s'.live, s'.committed, Producer(prog, s'.issued, r)) {
      var p := Producer(prog, s.issued, r);
      assert s.rat[r] == Location(s.live, s.committed, p);
      if p > s.committed { assert s.live[p - s.committed] != s.live[0]; }
    }
  }

  lemma StationAfterRetire(prog: seq<Instr>, live: seq<nat>, rob: seq<RobEntry>, committed: nat, st: Station)
    requires DistinctSlots(live, rob) && live != [] && rob[live[0]].status == 2
    requires committed + |live| <= |prog| && StationInv(prog, live, rob, committed, -1, st)
    ensures var rob' := rob[live[0] := rob[live[0]].(status := 3)];
            && (forall k :: 0 <= k < |live[1..]| ==> live[1..][k] < |rob'|)
            && StationInv(prog, live[1..], rob', committed + 1, -1, st)
  {
    var live', rob' := live[1..], rob[live[0] := rob[live[0]].(status := 3)];
    if st.valid {
      assert st.insId != committed;
      forall k | 0 <= k < |st.waits|
        ensures WaitInv(prog, live', rob', committed + 1, -1, st.insId, st.readRegs[k], st.waits[k])
      {
        assert WaitInv(prog, live, rob, committed, -1, st.insId, st.readRegs[k], st.waits[k]);
        var p := Producer(prog, st.insId, st.readRegs[k]);
        if p > committed { assert live'[p - (committed + 1)] == live[p - committed]; }
      }
    }
  }

  lemma StationsAfterRetire(prog: seq<Instr>, s: State, s': State, j: nat)
    requires RetireEffect(s, s', j) && DistinctSlots(s.live, s.rob)
    requires s.committed + |s.live| <= |prog|
    requires StationsInv(prog, s.live, s.rob, s.committed, -1, s.rs) && StationedInv(s.live, s.rob, s.committed, s.rs)
    ensures forall k :: 0 <= k < |s'.live| ==> s'.live[k] < |s'.rob|
    ensures StationsInv(prog, s'.live, s'.rob, s'.committed, -1, s'.rs)
            && StationedInv(s'.live, s'.rob, s'.committed, s'.rs)
  {
    forall x | 0 <= x < |s'.rs| ensures StationInv(prog, s'.live, s'.rob, s'.committed, -1, s'.rs[x]) {
      StationAfterRetire(prog, s.live, s.rob, s.committed, s.rs[x]);
    }
    forall k | 0 <= k < |s'.live| && s'.rob[s'.live[k]].status == 0 ensures Stationed(s'.rs, s'.committed + k) {
      assert s'.live[k] == s.live[k + 1];
      assert Stationed(s.rs, s.committed + (k + 1));
    }
  }

  lemma UnitsAfterRetire(prog: seq<Instr>, lat: seq<nat>, s: State, s': State, j: nat)
    requires RetireEffect(s, s', j) && DistinctSlots(s.live, s.rob)
    requires s.rob[j].insId == s.committed
    requires UnitsInv(prog, lat, s.live, s.rob, s.committed, s.units) && RunningInv(s.live, s.rob, s.units, [])
    ensures UnitsInv(prog, lat, s'.live, s'.rob, s'.committed, s'.units)
    ensures RunningInv(s'.live, s'.rob, s'.units, [])
  {
    forall t, u | Runs(s.units, t, u)
      ensures s.units[t][u].robIndex != j && RunningSlot(s'.live, s'.rob, s'.committed, s.units[t][u].robIndex)
    {
      assert RunningSlot(s.live, s.rob, s.committed, s.units[t][u].robIndex);
    }
    forall k | 0 <= k < |s'.live| && s'.rob[s'.live[k]].status == 1
      ensures exists t, u :: RunsSlot(s'.units, t, u, s'.live[k])
    {
      assert s'.live[k] == s.live[k + 1];
    }
  }

  lemma LogAfterRetire(prog: seq<Instr>, s: State, s': State, j: nat)
    requires RetireEffect(s, s', j) && DistinctSlots(s.live, s.rob)
    requires s.rob[j].insId == s.committed && s.committed + |s.live| <= |prog|
    requires forall k :: 0 <= k < |s.live| ==> s.rob[s.live[k]].status <= 2
    requires LogInv(prog, s.live, s.rob, s.committed, s.log)
    ensures LogInv(prog, s'.live, s'.rob, s'.committed, s'.log)
  {
    var n := s.committed;
    assert Happened(s.live, s.rob, s.committed, Executed(n));
    assert !Happened(s.live, s.rob, s.committed, Committed(n));
    if n > 0 { assert Happened(s.live, s.rob, s.committed, Committed(n - 1)); }
    AppendLog(prog, s.log, Committed(n));
    forall x ensures x in s'.log <==> Happened(s'.live, s'.rob, s'.committed, x) {
      assert x in s.log <==> Happened(s.live, s.rob, s.committed, x);
      if x.n > n && x.n < s.committed + |s.live| { assert s'.live[x.n - s'.committed] == s.live[x.n - s.committed]; }
    }
  }

  lemma DependentsAfterRetire(s: State, s': State, j: nat)
    requires RetireEffect(s, s', j) && DistinctSlots(s.live, s.rob)
    requires DependentsInv(s.live, s.rob, s.rs)
    ensures DependentsInv(s'.live, s'.rob, s'.rs)
  {
    forall k, x | 0 <= k < |s'.live| && 0 <= x < |s'.rs|
      ensures multiset(s'.rob[s'.live[k]].dependents)[x] == Waiting(s'.rs[x], s'.live[k])
    {
      assert s'.live[k] == s.live[k + 1];
      assert multiset(s.rob[s.live[k + 1]].dependents)[x] == Waiting(s.rs[x], s.live[k + 1]);
    }
  }

  lemma RetireKeepsInv(c: Config, prog: seq<Instr>, s: State)
    requires Inv(c, prog, s, [], -1) && s.live != [] && s.rob[s.live[0]].status == 2
    ensures Inv(c, prog, Retire(c, s), [], -1)
  {
    var s', j := Retire(c, s), s.live[0];
    LiveSlots(c.robSize, s.live);
    assert EntryInv(prog, s.rob[s.live[0]], s.committed + 0);
    EntriesAfterRetire(prog, s, s', j);
    StationsAfterRetire(prog, s, s', j);
    UnitsAfterRetire(prog, c.latency, s, s', j);
    DependentsAfterRetire(s, s', j);
    LogAfterRetire(prog, s, s', j);
  }
}
