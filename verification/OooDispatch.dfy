/** Dispatching an instruction, and charging a mispredicted branch, keep the core's invariant. */
module OooDispatch {
  import opened RobRing
  import opened OooSpec
  import opened OooInvariant
  import opened OooIssue

  lemma ClearedWaitsForNothing(waits: seq<int>, j: int)
    requires Cleared(waits) && j >= 0
    ensures CountEq(waits, j) == 0
  {
    CountIsZero(waits, j);
  }

  lemma ChargeKeepsInv(c: Config, prog: seq<Instr>, s: State, i: nat)
    requires Inv(c, prog, s, [], -1) && i < c.rsSize
    ensures Inv(c, prog, ChargeBranch(c, s, i), [], -1)
  {
    var s' := ChargeBranch(c, s, i);
    assert forall x :: 0 <= x < |s.rs| ==> s'.rs[x] == s.rs[x].(mispredicted := s'.rs[x].mispredicted);
    ChargeStations(prog, s.live, s.rob, s.committed, s.rs, s'.rs);
    ChargeQueues(s.live, s.rob, s.rs, s'.rs, s.ready);
  }

  lemma ChargeStations(prog: seq<Instr>, live: seq<nat>, rob: seq<RobEntry>, committed: nat, rs: seq<Station>,
                       rs': seq<Station>)
    requires forall k :: 0 <= k < |live| ==> live[k] < |rob|
    requires committed + |live| <= |prog| && |rs'| == |rs|
    requires StationsInv(prog, live, rob, committed, -1, rs) && StationedInv(live, rob, committed, rs)
    requires forall x :: 0 <= x < |rs| ==> rs'[x] == rs[x].(mispredicted := rs'[x].mispredicted)
    requires forall x :: 0 <= x < |rs| ==> rs'[x].mispredicted ==> rs[x].mispredicted
    ensures StationsInv(prog, live, rob, committed, -1, rs') && StationedInv(live, rob, committed, rs')
  {
    forall x | 0 <= x < |rs'| ensures StationInv(prog, live, rob, committed, -1, rs'[x]) {
      assert StationInv(prog, live, rob, committed, -1, rs[x]);
    }
    forall k | 0 <= k < |live| && rob[live[k]].status == 0 ensures Stationed(rs', committed + k) {
      assert Stationed(rs, committed + k);
      var x :| 0 <= x < |rs| && rs[x].valid && rs[x].insId == committed + k;
      assert rs'[x].valid;
    }
  }

  lemma ChargeQueues(live: seq<nat>, rob: seq<RobEntry>, rs: seq<Station>, rs': seq<Station>, ready: seq<seq<Ready>>)
    requires forall k :: 0 <= k < |live| ==> live[k] < |rob|
    requires DependentsInv(live, rob, rs) && ReadyInv(ready, rs) && |rs'| == |rs|
    requires forall x :: 0 <= x < |rs| ==> rs'[x] == rs[x].(mispredicted := rs'[x].mispredicted)
    ensures DependentsInv(live, rob, rs') && ReadyInv(ready, rs')
  {
  }

  /** What dispatching instruction n from station i and slot j to unit (t, u) does to the tables. */
  ghost predicate DispatchEffect(s: State, s': State, t: nat, u: nat, i: nat, j: nat) {
    && t < |s.ready| && s.ready[t] != [] && s.ready[t][0].rs == i
    && t < |s.units| && u < |s.units[t]| && !s.units[t][u].busy
    && i < |s.rs| && j < |s.rob| && s.rs[i].robIndex == j
    && s' == s.(ready := s.ready[t := s.ready[t][1..]],
                units := s.units[t := s.units[t][u := Unit(true, j, i, 0)]],
                rs := s.rs[i := s.rs[i].(valid := false)],
                rob := s.rob[j := s.rob[j].(status := 1)],
                log := s.log + [Dispatched(s.rob[j].insId)])
  }

  /** The station at the head of a ready queue holds a live, issued, cleared instruction of that type. */
  ghost predicate HeadOf(prog: seq<Instr>, s: State, t: nat, i: nat, j: nat) {
    && i < |s.rs| && s.rs[i].valid && s.rs[i].insType == t && Cleared(s.rs[i].waits)
    && s.committed <= s.rs[i].insId < s.committed + |s.live| <= |prog|
    && j < |s.rob| && s.live[s.rs[i].insId - s.committed] == j
    && s.rob[j].status == 0 && s.rob[j].insId == s.rs[i].insId
    && prog[s.rs[i].insId].insType == t
  }

  lemma HeadIsIssued(c: Config, prog: seq<Instr>, s: State, t: nat, u: nat)
    requires Shape(c, s) && t < c.types && s.ready[t] != [] && u < c.units && !s.units[t][u].busy
    requires EntriesInv(prog, s.live, s.rob, s.committed, s.issued) && ReadyInv(s.ready, s.rs)
    requires StationsInv(prog, s.live, s.rob, s.committed, -1, s.rs)
    ensures var i := s.ready[t][0].rs; var j := s.rs[i].robIndex;
            && HeadOf(prog, s, t, i, j)
            && DispatchEffect(s, DispatchHead(c, s, t, u), t, u, i, j)
  {
    var i := s.ready[t][0].rs;
    assert QueuedAt(s.ready, t, 0, i);
    assert StationInv(prog, s.live, s.rob, s.committed, -1, s.rs[i]);
    assert EntryInv(prog, s.rob[s.live[s.rs[i].insId - s.committed]], s.rs[i].insId);
  }

  lemma EntriesAfterDispatch(prog: seq<Instr>, s: State, s': State, t: nat, u: nat, i: nat, j: nat)
    requires DispatchEffect(s, s', t, u, i, j)
    requires EntriesInv(prog, s.live, s.rob, s.committed, s.issued)
    ensures EntriesInv(prog, s'.live, s'.rob, s'.committed, s'.issued)
  {
    forall k | 0 <= k < |s'.live| ensures EntryInv(prog, s'.rob[s'.live[k]], s'.committed + k) {
      assert EntryInv(prog, s.rob[s.live[k]], s.committed + k);
    }
  }

  /** Another waiting station does not notice that slot j went from issued to dispatched. */
  lemma OtherStationAfterDispatch(prog: seq<Instr>, live: seq<nat>, rob: seq<RobEntry>, committed: nat, j: nat,
                                  st: Station)
    requires forall k :: 0 <= k < |live| ==> live[k] < |rob|
    requires committed + |live| <= |prog| && StationInv(prog, live, rob, committed, -1, st)
    requires j < |rob| && rob[j].status == 0 && (st.valid ==> st.robIndex != j)
    ensures StationInv(prog, live, rob[j := rob[j].(status := 1)], committed, -1, st)
  {
    if st.valid {
      forall k | 0 <= k < |st.waits|
        ensures WaitInv(prog, live, rob[j := rob[j].(status := 1)], committed, -1, st.insId,
                        st.readRegs[k], st.waits[k])
      {
        assert WaitInv(prog, live, rob, committed, -1, st.insId, st.readRegs[k], st.waits[k]);
      }
    }
  }

  lemma StationsAfterDispatch(prog: seq<Instr>, s: State, s': State, t: nat, u: nat, i: nat, j: nat)
    requires DispatchEffect(s, s', t, u, i, j) && HeadOf(prog, s, t, i, j)
    requires forall k :: 0 <= k < |s.live| ==> s.live[k] < |s.rob|
    requires forall k, m :: 0 <= k < m < |s.live| ==> s.live[k] != s.live[m]
    requires StationsInv(prog, s.live, s.rob, s.committed, -1, s.rs)
    ensures StationsInv(prog, s'.live, s'.rob, s'.committed, -1, s'.rs)
  {
    forall x | 0 <= x < |s'.rs| ensures StationInv(prog, s'.live, s'.rob, s'.committed, -1, s'.rs[x]) {
      if s'.rs[x].valid {
        assert StationInv(prog, s.live, s.rob, s.committed, -1, s.rs[x]);
        assert s.rs[x].robIndex != j;
        OtherStationAfterDispatch(prog, s.live, s.rob, s.committed, j, s.rs[x]);
      }
    }
  }

  lemma StationedAfterDispatch(prog: seq<Instr>, s: State, s': State, t: nat, u: nat, i: nat, j: nat)
    requires DispatchEffect(s, s', t, u, i, j) && HeadOf(prog, s, t, i, j)
    requires forall k :: 0 <= k < |s.live| ==> s.live[k] < |s.rob|
    requires StationedInv(s.live, s.rob, s.committed, s.rs)
    ensures StationedInv(s'.live, s'.rob, s'.committed, s'.rs)
  {
    forall k | 0 <= k < |s'.live| && s'.rob[s'.live[k]].status == 0 ensures Stationed(s'.rs, s'.committed + k) {
      assert Stationed(s.rs, s.committed + k);
      var x :| 0 <= x < |s.rs| && s.rs[x].valid && s.rs[x].insId == s.committed + k;
      assert s'.rs[x] == s.rs[x];
    }
  }

  lemma UnitsAfterDispatch(prog: seq<Instr>, lat: seq<nat>, s: State, s': State, t: nat, u: nat, i: nat, j: nat)
    requires DispatchEffect(s, s', t, u, i, j) && HeadOf(prog, s, t, i, j)
    requires UnitsInv(prog, lat, s.live, s.rob, s.committed, s.units)
    ensures UnitsInv(prog, lat, s'.live, s'.rob, s'.committed, s'.units)
  {
    forall t', u' | Runs(s'.units, t', u')
      ensures RunningSlot(s'.live, s'.rob, s'.committed, s'.units[t'][u'].robIndex)
      ensures if t' == t && u' == u then s'.units[t'][u'].robIndex == j
              else Runs(s.units, t', u') && s'.units[t'][u'] == s.units[t'][u'] && s.units[t'][u'].robIndex != j
    {
      if !(t' == t && u' == u) {
        assert Runs(s.units, t', u');
        assert RunningSlot(s.live, s.rob, s.committed, s.units[t'][u'].robIndex);
      }
    }
  }

  lemma RunningAfterDispatch(s: State, s': State, t: nat, u: nat, i: nat, j: nat)
    requires DispatchEffect(s, s', t, u, i, j)
    requires forall k :: 0 <= k < |s.live| ==> s.live[k] < |s.rob|
    requires RunningInv(s.live, s.rob, s.units, [])
    ensures RunningInv(s'.live, s'.rob, s'.units, [])
  {
    forall k | 0 <= k < |s'.live| && s'.rob[s'.live[k]].status == 1
      ensures exists t', u' :: RunsSlot(s'.units, t', u', s'.live[k])
    {
      if s.live[k] == j {
        assert RunsSlot(s'.units, t, u, j);
      } else {
        var t', u' :| RunsSlot(s.units, t', u', s.live[k]);
        assert RunsSlot(s'.units, t', u', s.live[k]);
      }
    }
  }

  lemma QueuesAfterDispatch(s: State, s': State, t: nat, u: nat, i: nat, j: nat)
    requires DispatchEffect(s, s', t, u, i, j) && Cleared(s.rs[i].waits)
    requires forall k :: 0 <= k < |s.live| ==> s.live[k] < |s.rob|
    requires DependentsInv(s.live, s.rob, s.rs) && ReadyInv(s.ready, s.rs)
    ensures DependentsInv(s'.live, s'.rob, s'.rs) && ReadyInv(s'.ready, s'.rs)
  {
    forall k, x | 0 <= k < |s'.live| && 0 <= x < |s'.rs|
      ensures multiset(s'.rob[s'.live[k]].dependents)[x] == Waiting(s'.rs[x], s'.live[k])
    {
      assert multiset(s.rob[s.live[k]].dependents)[x] == Waiting(s.rs[x], s.live[k]);
      ClearedWaitsForNothing(s.rs[i].waits, s.live[k]);
    }
    ReadyAfterDispatch(s, s', t, u, i, j);
  }

  lemma ReadyAfterDispatch(s: State, s': State, t: nat, u: nat, i: nat, j: nat)
    requires DispatchEffect(s, s', t, u, i, j) && ReadyInv(s.ready, s.rs)
    ensures ReadyInv(s'.ready, s'.rs)
  {
    assert QueuedAt(s.ready, t, 0, i);
    forall t', k, x: nat | QueuedAt(s'.ready, t', k, x)
      ensures QueuedAt(s.ready, t', if t' == t then k + 1 else k, x) && x != i
    {
      assert QueuedAt(s.ready, t', if t' == t then k + 1 else k, x);
    }
    forall x | 0 <= x < |s'.rs| && s'.rs[x].valid && Cleared(s'.rs[x].waits)
      ensures exists k :: QueuedAt(s'.ready, s'.rs[x].insType, k, x)
    {
      var k :| QueuedAt(s.ready, s.rs[x].insType, k, x);
      assert QueuedAt(s'.ready, s.rs[x].insType, if s.rs[x].insType == t then k - 1 else k, x);
    }
  }

  lemma LogAfterDispatch(prog: seq<Instr>, s: State, s': State, t: nat, u: nat, i: nat, j: nat)
    requires DispatchEffect(s, s', t, u, i, j) && HeadOf(prog, s, t, i, j)
    requires forall k :: 0 <= k < |s.live| ==> s.live[k] < |s.rob|
    requires forall k, m :: 0 <= k < m < |s.live| ==> s.live[k] != s.live[m]
    requires StationInv(prog, s.live, s.rob, s.committed, -1, s.rs[i])
    requires LogInv(prog, s.live, s.rob, s.committed, s.log)
    ensures LogInv(prog, s'.live, s'.rob, s'.committed, s'.log)
  {
    var n := s.rs[i].insId;
    var e := Dispatched(n);
    assert Happened(s.live, s.rob, s.committed, Issued(n));
    forall k | 0 <= k < |prog[n].readRegs| && prog[n].readRegs[k] != -1
      ensures var p := Producer(prog, n, prog[n].readRegs[k]); p >= 0 ==> Executed(p) in s.log
    {
      assert WaitInv(prog, s.live, s.rob, s.committed, -1, n, s.rs[i].readRegs[k], s.rs[i].waits[k]);
      var p := Producer(prog, n, prog[n].readRegs[k]);
      if p >= 0 { assert Happened(s.live, s.rob, s.committed, Executed(p)); }
    }
    assert !Happened(s.live, s.rob, s.committed, e);
    AppendLog(prog, s.log, e);
    forall x ensures x in s'.log <==> Happened(s'.live, s'.rob, s'.committed, x) {
      assert x in s.log <==> Happened(s.live, s.rob, s.committed, x);
    }
  }

  lemma DispatchKeepsInv(c: Config, prog: seq<Instr>, s: State, t: nat, u: nat)
    requires Inv(c, prog, s, [], -1) && t < c.types && s.ready[t] != [] && u < c.units && !s.units[t][u].busy
    ensures Inv(c, prog, DispatchHead(c, s, t, u), [], -1)
  {
    var s' := DispatchHead(c, s, t, u);
    var i := s.ready[t][0].rs;
    var j := s.rs[i].robIndex;
    LiveSlots(c.robSize, s.live);
    HeadIsIssued(c, prog, s, t, u);
    EntriesAfterDispatch(prog, s, s', t, u, i, j);
    StationsAfterDispatch(prog, s, s', t, u, i, j);
    StationedAfterDispatch(prog, s, s', t, u, i, j);
    UnitsAfterDispatch(prog, c.latency, s, s', t, u, i, j);
    RunningAfterDispatch(s, s', t, u, i, j);
    QueuesAfterDispatch(s, s', t, u, i, j);
    LogAfterDispatch(prog, s, s', t, u, i, j);
  }
}
