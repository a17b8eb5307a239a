/** With nothing new to issue, the core empties itself within a bound linear in what is in flight. */
module OooDrain {
  import opened RobRing
  import opened OooSpec
  import opened OooInvariant
  import opened OooDispatch
  import opened OooTheorems
  import opened Sums

  // ---------- The potential ----------

  /** A waiting instruction still has to be dispatched, run and commit; a flagged branch also has to
      charge its penalty. */
  ghost function StationWeight(c: Config, st: Station): nat
    requires |c.latency| == c.types
  {
    if st.valid && st.insType < c.types then
      c.latency[st.insType] + 2 + (if st.mispredicted then c.branchPenalty + 1 else 0)
    else 0
  }

  ghost function UnitWeight(lat: nat, u: Unit): nat {
    if u.busy && u.cycles <= lat then lat - u.cycles + 1 else 0
  }

  ghost function StationWeights(c: Config, rs: seq<Station>): seq<nat>
    requires |c.latency| == c.types
  {
    seq(|rs|, i requires 0 <= i < |rs| => StationWeight(c, rs[i]))
  }

  ghost function TypeWeights(lat: nat, us: seq<Unit>): seq<nat> {
    seq(|us|, u requires 0 <= u < |us| => UnitWeight(lat, us[u]))
  }

  ghost function UnitWeights(lat: seq<nat>, units: seq<seq<Unit>>): seq<nat>
    requires |lat| == |units|
  {
    seq(|units|, t requires 0 <= t < |units| => Sum(TypeWeights(lat[t], units[t])))
  }

  ghost function Potential(c: Config, s: State): nat
    requires |c.latency| == c.types == |s.units|
  {
    s.penalty + Sum(StationWeights(c, s.rs)) + Sum(UnitWeights(c.latency, s.units)) + |s.live|
  }

  lemma StationUpdate(c: Config, rs: seq<Station>, i: nat, st: Station)
    requires |c.latency| == c.types && i < |rs|
    ensures Sum(StationWeights(c, rs[i := st]))
         == Sum(StationWeights(c, rs)) - StationWeight(c, rs[i]) + StationWeight(c, st)
  {
    assert StationWeights(c, rs[i := st]) == StationWeights(c, rs)[i := StationWeight(c, st)];
    SumUpdate(StationWeights(c, rs), i, StationWeight(c, st));
  }

  lemma UnitUpdate(lat: seq<nat>, units: seq<seq<Unit>>, t: nat, u: nat, x: Unit)
    requires |lat| == |units| && t < |units| && u < |units[t]|
    ensures Sum(UnitWeights(lat, units[t := units[t][u := x]]))
         == Sum(UnitWeights(lat, units)) - UnitWeight(lat[t], units[t][u]) + UnitWeight(lat[t], x)
  {
    var us := units[t][u := x];
    assert TypeWeights(lat[t], us) == TypeWeights(lat[t], units[t])[u := UnitWeight(lat[t], x)];
    SumUpdate(TypeWeights(lat[t], units[t]), u, UnitWeight(lat[t], x));
    assert UnitWeights(lat, units[t := us]) == UnitWeights(lat, units)[t := Sum(TypeWeights(lat[t], us))];
    SumUpdate(UnitWeights(lat, units), t, Sum(TypeWeights(lat[t], us)));
  }

  // ---------- Every action lowers the potential ----------

  lemma ChargeLowers(c: Config, s: State, i: nat)
    requires Shape(c, s) && i < c.rsSize && s.rs[i].valid && s.rs[i].mispredicted
    ensures Potential(c, ChargeBranch(c, s, i)) < Potential(c, s)
  {
    assert StationOK(c, s.rs[i]);
    StationUpdate(c, s.rs, i, s.rs[i].(mispredicted := false));
  }

  lemma DispatchLowers(c: Config, s: State, t: nat, u: nat)
    requires Shape(c, s) && t < c.types && s.ready[t] != [] && u < c.units && !s.units[t][u].busy
    requires var st := s.rs[s.ready[t][0].rs]; st.valid && st.insType == t
    ensures Potential(c, DispatchHead(c, s, t, u)) < Potential(c, s)
  {
    var i := s.ready[t][0].rs;
    StationUpdate(c, s.rs, i, s.rs[i].(valid := false));
    UnitUpdate(c.latency, s.units, t, u, Unit(true, s.rs[i].robIndex, i, 0));
  }

  lemma ReleaseLowers(c: Config, s: State, t: nat, u: nat)
    requires Shape(c, s) && t < c.types && u < c.units && Finished(c, t, s.units[t][u])
    ensures Potential(c, Release(c, s, t, u)) < Potential(c, s)
  {
    UnitUpdate(c.latency, s.units, t, u, s.units[t][u].(busy := false));
  }

  lemma BroadcastKeepsPotential(c: Config, s: State, done: seq<nat>)
    requires Shape(c, s) && SlotsOK(c, done)
    ensures Potential(c, Broadcast(c, s, done)) == Potential(c, s)
  {
    hide RobOK, RatOK, ReadyOK, DecodeOK, Broadcast, UnitWeights, Sum;
    assert StationWeights(c, Broadcast(c, s, done).rs) == StationWeights(c, s.rs);
  }

  lemma AgingLowers(c: Config, s: State)
    requires Shape(c, s)
    requires forall t, u :: Runs(s.units, t, u) ==> s.units[t][u].cycles < c.latency[t]
    ensures Potential(c, EndCycle(c, s)) <= Potential(c, s)
    ensures (exists t, u :: Runs(s.units, t, u)) ==> Potential(c, EndCycle(c, s)) < Potential(c, s)
  {
    var units' := AgeUnits(s.units);
    var v, w := UnitWeights(c.latency, units'), UnitWeights(c.latency, s.units);
    forall t | 0 <= t < c.types
      ensures v[t] <= w[t] && ((exists u :: Runs(s.units, t, u)) ==> v[t] < w[t])
    {
      TypeAgingLowers(c.latency[t], s.units, t);
    }
    SumMonotone(v, w);
    if t, u :| Runs(s.units, t, u) {
      assert v[t] < w[t];
    }
  }

  lemma TypeAgingLowers(lat: nat, units: seq<seq<Unit>>, t: nat)
    requires t < |units|
    requires forall u :: Runs(units, t, u) ==> units[t][u].cycles < lat
    ensures var v, w := TypeWeights(lat, AgeUnitsOf(units[t])), TypeWeights(lat, units[t]);
            Sum(v) <= Sum(w) && ((exists u :: Runs(units, t, u)) ==> Sum(v) < Sum(w))
  {
    var v, w := TypeWeights(lat, AgeUnitsOf(units[t])), TypeWeights(lat, units[t]);
    forall u | 0 <= u < |units[t]| ensures v[u] <= w[u] && (Runs(units, t, u) ==> v[u] < w[u]) {
      if units[t][u].busy { assert Runs(units, t, u); }
    }
    SumMonotone(v, w);
    if u :| Runs(units, t, u) { assert v[u] < w[u]; }
  }

  // ---------- Every stage ----------

  /** The head of a ready queue is a waiting station of that type. */
  lemma HeadIsWaiting(c: Config, prog: seq<Instr>, s: State, t: nat)
    requires Inv(c, prog, s, [], -1) && t < c.types && s.ready[t] != []
    ensures var st := s.rs[s.ready[t][0].rs]; st.valid && st.insType == t
  {
    assert QueuedAt(s.ready, t, 0, s.ready[t][0].rs);
  }

  lemma {:induction false} DispatchTypeLowers(c: Config, prog: seq<Instr>, s: State, t: nat, count: nat)
    requires Shape(c, s) && Inv(c, prog, s, [], -1) && t < c.types && count <= c.dispatchWidth
    ensures Potential(c, DispatchType(c, s, t, count)) <= Potential(c, s)
    ensures && count < c.dispatchWidth && s.ready[t] != []
            && s.ready[t][0].cycles >= 1 && FirstIdle(s.units[t], 0) != -1 ==>
              Potential(c, DispatchType(c, s, t, count)) < Potential(c, s)
    decreases c.dispatchWidth - count
  {
    hide Inv, Potential;
    if count < c.dispatchWidth && s.ready[t] != [] {
      HeadIsWaiting(c, prog, s, t);
      var u := FirstIdle(s.units[t], 0);
      if s.ready[t][0].cycles >= 1 && u != -1 {
        if s.rs[s.ready[t][0].rs].mispredicted {
          ChargeLowers(c, s, s.ready[t][0].rs);
        } else {
          DispatchLowers(c, s, t, u);
          DispatchKeepsInv(c, prog, s, t, u);
          DispatchTypeLowers(c, prog, DispatchHead(c, s, t, u), t, count + 1);
        }
      } else {
        DispatchTypeLowers(c, prog, s, t, count + 1);
      }
    }
  }

  /** Dispatching from queue t leaves the other types alone, and no running unit stops. */
  ghost predicate OnlyType(s: State, s': State, t: nat) {
    && |s'.ready| == |s.ready| && |s'.units| == |s.units|
    && (forall t' :: 0 <= t' < |s.ready| && t' != t ==> s'.ready[t'] == s.ready[t'])
    && (forall t' :: 0 <= t' < |s.units| && t' != t ==> s'.units[t'] == s.units[t'])
    && (forall t', u :: Runs(s.units, t', u) ==> Runs(s'.units, t', u))
  }

  lemma HeadFrame(c: Config, s: State, t: nat, u: nat)
    requires Shape(c, s) && t < c.types && s.ready[t] != [] && u < c.units
    ensures OnlyType(s, DispatchHead(c, s, t, u), t)
  {
    var s' := DispatchHead(c, s, t, u);
    forall t', u' | Runs(s.units, t', u') ensures Runs(s'.units, t', u') {
    }
  }

  lemma OnlyTypeJoins(s: State, s1: State, s2: State, t: nat)
    requires OnlyType(s, s1, t) && OnlyType(s1, s2, t)
    ensures OnlyType(s, s2, t)
  {
  }

  lemma {:induction false} DispatchTypeFrame(c: Config, s: State, t: nat, count: nat)
    requires Shape(c, s) && t < c.types && count <= c.dispatchWidth
    ensures OnlyType(s, DispatchType(c, s, t, count), t)
    decreases c.dispatchWidth - count
  {
    hide DispatchHead;
    if count < c.dispatchWidth && s.ready[t] != [] {
      var u := FirstIdle(s.units[t], 0);
      if s.ready[t][0].cycles >= 1 && u != -1 {
        if !s.rs[s.ready[t][0].rs].mispredicted {
          HeadFrame(c, s, t, u);
          DispatchTypeFrame(c, DispatchHead(c, s, t, u), t, count + 1);
          OnlyTypeJoins(s, DispatchHead(c, s, t, u), DispatchType(c, s, t, count), t);
        }
      } else {
        DispatchTypeFrame(c, s, t, count + 1);
      }
    }
  }

  lemma {:induction false} DispatchLowersOrRuns(c: Config, prog: seq<Instr>, s: State, from: nat, t: nat)
    requires Shape(c, s) && Inv(c, prog, s, [], -1) && from <= c.types
    ensures Potential(c, Dispatch(c, s, from)) <= Potential(c, s)
    ensures forall t', u :: Runs(s.units, t', u) ==> Runs(Dispatch(c, s, from).units, t', u)
    ensures from <= t < c.types && s.ready[t] != [] && s.ready[t][0].cycles >= 1 ==>
              || Potential(c, Dispatch(c, s, from)) < Potential(c, s)
              || Runs(Dispatch(c, s, from).units, t, 0)
    decreases c.types - from
  {
    hide Inv, Potential, DispatchType, RobOK, RatOK, StationsOK, DecodeOK;
    if from < c.types {
      DispatchTypeLowers(c, prog, s, from, 0);
      DispatchTypeFrame(c, s, from, 0);
      DispatchTypeStage(c, prog, s, from, 0);
      DispatchLowersOrRuns(c, prog, DispatchType(c, s, from, 0), from + 1, t);
      if from == t && s.ready[t] != [] && FirstIdle(s.units[t], 0) == -1 {
        assert Runs(s.units, t, 0);
      }
    }
  }

  lemma {:induction false} CheckLowers(c: Config, s: State, t: nat, u: nat, done: seq<nat>)
    requires Shape(c, s) && t <= c.types && u <= c.units && SlotsOK(c, done)
    ensures var r := Check(c, s, t, u, done);
            Potential(c, r.0) <= Potential(c, s) && (r.0 == s || Potential(c, r.0) < Potential(c, s))
    decreases c.types - t, c.units - u
  {
    hide Potential;
    if t == c.types {
    } else if u == c.units {
      CheckLowers(c, s, t + 1, 0, done);
    } else if Finished(c, t, s.units[t][u]) {
      ReleaseLowers(c, s, t, u);
      CheckLowers(c, Release(c, s, t, u), t, u + 1, done + [s.units[t][u].robIndex]);
    } else {
      CheckLowers(c, s, t, u + 1, done);
    }
  }

  lemma {:induction false} CommitLowers(c: Config, s: State, storeRoom: nat -> bool, i: nat)
    requires Shape(c, s) && i <= c.commitWidth
    ensures Potential(c, Commit(c, s, storeRoom, i)) <= Potential(c, s)
    ensures i < c.commitWidth && CanRetire(c, s, storeRoom(i)) ==>
            Potential(c, Commit(c, s, storeRoom, i)) < Potential(c, s)
    decreases c.commitWidth - i
  {
    if i < c.commitWidth {
      CommitLowers(c, if CanRetire(c, s, storeRoom(i)) then Retire(c, s) else s, storeRoom, i + 1);
    }
  }

  // ---------- Every cycle ----------

  ghost predicate RegisterOnly(prog: seq<Instr>, s: State) {
    forall n :: s.committed <= n < s.issued && n < |prog| ==> prog[n].memWrite == 0
  }

  /** The station of the oldest instruction has nothing to wait for. */
  lemma OldestIsCleared(prog: seq<Instr>, s: State) returns (i: nat)
    requires forall k :: 0 <= k < |s.live| ==> s.live[k] < |s.rob|
    requires s.live != [] && s.committed + |s.live| <= |prog| && s.rob[s.live[0]].status == 0
    requires StationsInv(prog, s.live, s.rob, s.committed, -1, s.rs) && StationedInv(s.live, s.rob, s.committed, s.rs)
    ensures i < |s.rs| && s.rs[i].valid && s.rs[i].insId == s.committed && Cleared(s.rs[i].waits)
  {
    assert Stationed(s.rs, s.committed + 0);
    i :| 0 <= i < |s.rs| && s.rs[i].valid && s.rs[i].insId == s.committed;
    assert StationInv(prog, s.live, s.rob, s.committed, -1, s.rs[i]);
    forall k | 0 <= k < |s.rs[i].waits| ensures s.rs[i].waits[k] == -1 {
      OldestWaitsForNone(prog, s.live, s.rob, s.committed, s.rs[i].readRegs[k], s.rs[i].waits[k]);
    }
    hide WaitInv;
  }

  /** All producers of the oldest instruction have committed. */
  lemma OldestWaitsForNone(prog: seq<Instr>, live: seq<nat>, rob: seq<RobEntry>, committed: nat, r: int, w: int)
    requires live != [] && committed + |live| <= |prog| && forall k :: 0 <= k < |live| ==> live[k] < |rob|
    requires WaitInv(prog, live, rob, committed, -1, committed, r, w)
    ensures w == -1
  {
  }

  /** The station of the oldest instruction, and its place in the ready queue of its type. */
  ghost predicate OldestQueued(s: State, i: nat, k: int) {
    && i < |s.rs| && s.rs[i].valid && s.rs[i].insId == s.committed
    && Cleared(s.rs[i].waits) && QueuedAt(s.ready, s.rs[i].insType, k, i)
  }

  /** The oldest instruction waits for no register: before its dispatch its own station is cleared and
      queued, after it one of the units runs its slot, until it has executed. */
  ghost predicate OldestMoves(s: State) {
    && s.live != [] && s.live[0] < |s.rob|
    && match s.rob[s.live[0]].status
       case 0 => exists i, k :: OldestQueued(s, i, k)
       case 1 => exists t, u :: RunsSlot(s.units, t, u, s.live[0])
       case x => x == 2
  }

  lemma OldestMovesOn(prog: seq<Instr>, s: State)
    requires EntriesInv(prog, s.live, s.rob, s.committed, s.issued) && s.live != []
    requires StationsInv(prog, s.live, s.rob, s.committed, -1, s.rs) && StationedInv(s.live, s.rob, s.committed, s.rs)
    requires ReadyInv(s.ready, s.rs) && RunningInv(s.live, s.rob, s.units, [])
    ensures OldestMoves(s)
  {
    hide StationInv, StationsInv, StationedInv;
    assert EntryInv(prog, s.rob[s.live[0]], s.committed + 0);
    if s.rob[s.live[0]].status == 0 {
      var i := OldestIsCleared(prog, s);
      var k :| QueuedAt(s.ready, s.rs[i].insType, k, i);
      assert OldestQueued(s, i, k);
    }
  }

  /** In every run the oldest instruction of a core never waits. */
  lemma OldestNeverWaits(c: Config, prog: seq<Instr>, inputs: seq<Input>)
    requires c.Valid() && WellFormed(c, prog) && Run(c, prog, inputs).live != []
    ensures OldestMoves(Run(c, prog, inputs))
  {
    hide OldestMoves, Run;
    Reachable(c, prog, inputs);
    OldestMovesOn(prog, Run(c, prog, inputs));
  }

  /** So there is work somewhere. */
  lemma SomethingMoves(s: State)
    requires OldestMoves(s)
    ensures || (exists t :: 0 <= t < |s.ready| && s.ready[t] != [])
            || (exists t, u :: Runs(s.units, t, u))
            || s.rob[s.live[0]].status == 2
  {
    if i: nat, k :| OldestQueued(s, i, k) {
      assert s.ready[s.rs[i].insType] != [];
    }
    if t, u :| RunsSlot(s.units, t, u, s.live[0]) {
      assert Runs(s.units, t, u);
    }
  }

  /** An executed instruction stays executed until it commits. */
  lemma StaysExecuted(prog: seq<Instr>, s: State, s': State)
    requires EntriesInv(prog, s.live, s.rob, s.committed, s.issued)
             && EntriesInv(prog, s'.live, s'.rob, s'.committed, s'.issued)
    requires LogInv(prog, s.live, s.rob, s.committed, s.log) && LogInv(prog, s'.live, s'.rob, s'.committed, s'.log)
    requires s.live != [] && s'.live == s.live && s'.committed == s.committed && s.log <= s'.log
    requires s.rob[s.live[0]].status == 2
    ensures s'.rob[s'.live[0]].status == 2
  {
    var e := Executed(s.committed);
    assert Happened(s.live, s.rob, s.committed, e);
    assert e in s.log;
    assert e in s'.log;
    assert Happened(s'.live, s'.rob, s'.committed, e);
    assert EntryInv(prog, s'.rob[s'.live[0]], s'.committed + 0);
  }

  lemma NothingToIssue(c: Config, s: State)
    requires Shape(c, s) && s.decode == []
    ensures s.(decode := s.decode + []) == s && Issue(c, s, 0, 0) == s && DecodeOK(c, [])
  {
    assert s.decode + [] == s.decode;
  }

  /** With nothing to issue, the stages before the commit stage add to the history and retire nothing. */
  lemma BeforeCommitFrame(c: Config, s: State)
    requires Shape(c, s) && s.decode == []
    ensures DecodeOK(c, [])
    ensures var x := BeforeCommit(c, s, [], 0);
            && x.live == s.live && x.committed == s.committed && x.issued == s.issued && x.decode == []
            && s.log <= x.log
  {
    hide Shape, Issue, Dispatch, Check, Broadcast;
    NothingToIssue(c, s);
  }

  /** Up to the commit stage the potential never rises, and it falls, or a unit is running, unless the
      oldest instruction has executed. */
  lemma BeforeCommitLowers(c: Config, prog: seq<Instr>, s: State)
    requires Shape(c, s) && Inv(c, prog, s, [], -1) && HeadsAged(s.ready) && s.decode == []
    ensures DecodeOK(c, [])
    ensures var x := BeforeCommit(c, s, [], 0);
            && Potential(c, x) <= Potential(c, s)
            && ((exists t :: 0 <= t < c.types && s.ready[t] != []) || (exists t, u :: Runs(s.units, t, u)) ==>
                  Potential(c, x) < Potential(c, s) || exists t, u :: Runs(x.units, t, u))
  {
    hide Inv, Potential;
    NothingToIssue(c, s);
    var t0 := if exists t :: 0 <= t < c.types && s.ready[t] != [] then
                var t :| 0 <= t < c.types && s.ready[t] != []; t else 0;
    DispatchLowersOrRuns(c, prog, s, 0, t0);
    var d := Dispatch(c, s, 0);
    CheckLowers(c, d, 0, 0, []);
    var (k, done) := Check(c, d, 0, 0, []);
    BroadcastKeepsPotential(c, k, done);
  }

  function IdleStep(c: Config, s: State): (s': State)
    requires Shape(c, s)
    ensures Shape(c, s')
  {
    UpdateCore(c, s, [], 0, _ => false)
  }

  lemma RunningIsShort(c: Config, prog: seq<Instr>, s: State)
    requires Inv(c, prog, s, [], -1) && NoneFinished(c, s.units, c.types, 0)
    ensures forall t, u :: Runs(s.units, t, u) ==> s.units[t][u].cycles < c.latency[t]
  {
  }

  /** A cycle of a core with work in flight strictly lowers the potential. */
  lemma CycleLowers(c: Config, prog: seq<Instr>, s: State)
    requires Shape(c, s) && Inv(c, prog, s, [], -1) && HeadsAged(s.ready) && s.decode == []
    requires s.live != [] && RegisterOnly(prog, s)
    ensures Potential(c, IdleStep(c, s)) < Potential(c, s)
  {
    hide Potential, BeforeCommit, Commit, HeadsAged, RegisterOnly, Step, WellFormed;
    if s.penalty == 0 {
      NothingToIssue(c, s);
      BeforeCommitFrame(c, s);
      BeforeCommitLowers(c, prog, s);
      BeforeCommitInv(c, prog, s, [], 0);
      var x := BeforeCommit(c, s, [], 0);
      var y := Commit(c, x, _ => false, 0);
      RunningIsShort(c, prog, x);
      CommitLowers(c, x, _ => false, 0);
      AgingLowers(c, y);
      if s.rob[s.live[0]].status == 2 {
        OldestRetires(c, prog, s, x);
      } else {
        OldestMovesOn(prog, s);
        SomethingMoves(s);
      }
      assert IdleStep(c, s) == EndCycle(c, y);
    } else {
      PenaltyLowers(c, s);
    }
  }

  lemma PenaltyLowers(c: Config, s: State)
    requires |c.latency| == c.types && |s.units| == c.types && s.penalty > 0
    ensures Potential(c, s.(penalty := s.penalty - 1)) < Potential(c, s)
  {
  }

  lemma OldestRetires(c: Config, prog: seq<Instr>, s: State, x: State)
    requires Inv(c, prog, s, [], -1) && Inv(c, prog, x, [], -1) && s.live != [] && RegisterOnly(prog, s)
    requires x.live == s.live && x.committed == s.committed && s.log <= x.log
    requires s.rob[s.live[0]].status == 2
    ensures CanRetire(c, x, false)
  {
    StaysExecuted(prog, s, x);
    assert EntryInv(prog, x.rob[x.live[0]], x.committed + 0);
  }

  // ---------- Draining ----------

  function IdleRun(c: Config, s: State, n: nat): (s': State)
    requires Shape(c, s)
    ensures Shape(c, s')
    decreases n
  {
    if n == 0 then s else IdleRun(c, IdleStep(c, s), n - 1)
  }

  lemma {:induction false} CommitFrame(c: Config, s: State, storeRoom: nat -> bool, i: nat)
    requires Shape(c, s) && i <= c.commitWidth
    ensures var s' := Commit(c, s, storeRoom, i);
            s'.committed >= s.committed && s'.committed + |s'.live| == s.committed + |s.live|
    decreases c.commitWidth - i
  {
    if i < c.commitWidth {
      CommitFrame(c, if CanRetire(c, s, storeRoom(i)) then Retire(c, s) else s, storeRoom, i + 1);
    }
  }

  lemma IdleStepKeeps(c: Config, prog: seq<Instr>, s: State)
    requires Shape(c, s) && WellFormed(c, prog) && Inv(c, prog, s, [], -1) && HeadsAged(s.ready)
    requires s.decode == [] && RegisterOnly(prog, s)
    ensures var s' := IdleStep(c, s);
            && Inv(c, prog, s', [], -1) && HeadsAged(s'.ready) && s'.decode == [] && RegisterOnly(prog, s')
            && (s.live == [] ==> s'.live == [])
  {
    hide Inv, Shape, HeadsAged, BeforeCommit, Commit;
    var input := Input([], 0, _ => false);
    assert Arrivals(prog, s.issued + |s.decode|, []) == [];
    StepKeepsInv(c, prog, s, input);
    assert Step(c, prog, s, input) == IdleStep(c, s);
    if s.penalty == 0 {
      BeforeCommitFrame(c, s);
      var x := BeforeCommit(c, s, [], 0);
      CommitFrame(c, x, _ => false, 0);
    }
  }

  lemma {:induction false} EmptyStaysEmpty(c: Config, prog: seq<Instr>, s: State, n: nat)
    requires Shape(c, s) && WellFormed(c, prog) && Inv(c, prog, s, [], -1) && HeadsAged(s.ready)
    requires s.decode == [] && RegisterOnly(prog, s) && s.live == []
    ensures IdleRun(c, s, n).live == []
    decreases n
  {
    hide Inv, Shape, IdleStep, HeadsAged, RegisterOnly, WellFormed;
    if n > 0 {
      IdleStepKeeps(c, prog, s);
      EmptyStaysEmpty(c, prog, IdleStep(c, s), n - 1);
    }
  }

  lemma {:induction false} DrainsWithin(c: Config, prog: seq<Instr>, s: State, n: nat)
    requires Shape(c, s) && WellFormed(c, prog) && Inv(c, prog, s, [], -1) && HeadsAged(s.ready)
    requires s.decode == [] && RegisterOnly(prog, s) && n >= Potential(c, s)
    ensures IdleRun(c, s, n).live == []
    decreases n
  {
    hide Inv, Potential, Shape, IdleStep, HeadsAged, RegisterOnly, WellFormed;
    if s.live == [] {
      EmptyStaysEmpty(c, prog, s, n);
    } else {
      CycleLowers(c, prog, s);
      IdleStepKeeps(c, prog, s);
      DrainsWithin(c, prog, IdleStep(c, s), n - 1);
    }
  }

  // ---------- The bound ----------

  lemma {:induction false} InjectiveSize<T>(from: set<T>, f: T -> int, n: nat)
    requires forall x :: x in from ==> 0 <= f(x) < n
    requires forall x, y :: x in from && y in from && f(x) == f(y) ==> x == y
    ensures |from| <= n
    decreases n
  {
    if n > 0 {
      if x :| x in from && f(x) == n - 1 {
        InjectiveSize(from - {x}, f, n - 1);
      } else {
        InjectiveSize(from, f, n - 1);
      }
    } else if x :| x in from {
      assert false;
    }
  }

  ghost predicate LatencyAtMost(c: Config, x: nat) {
    forall t :: 0 <= t < |c.latency| ==> c.latency[t] <= x
  }

  ghost function Occupied(rs: seq<Station>): set<int> {
    set i | 0 <= i < |rs| && rs[i].valid
  }

  ghost function Flagged(rs: seq<Station>): set<int> {
    set i | 0 <= i < |rs| && rs[i].valid && rs[i].mispredicted
  }

  ghost function BusyIn(us: seq<Unit>): set<int> {
    set u | 0 <= u < |us| && us[u].busy
  }

  /** Where a live instruction that has not executed is held. */
  datatype Holder = InStation(i: int) | InUnit(t: int, u: int)

  ghost function StationHolders(stations: set<int>): set<Holder> {
    set i | i in stations :: InStation(i)
  }

  ghost function UnitHolders(t: int, us: set<int>): set<Holder> {
    set u | u in us :: InUnit(t, u)
  }

  ghost function Busy(units: seq<seq<Unit>>, types: nat): (r: set<Holder>)
    requires types <= |units|
    ensures forall h :: h in r <==> h.InUnit? && h.t < types && Runs(units, h.t, h.u)
  {
    if types == 0 then {} else Busy(units, types - 1) + UnitHolders(types - 1, BusyIn(units[types - 1]))
  }

  lemma AnyOf<T>(from: set<T>) returns (x: T)
    requires from != {}
    ensures x in from
  {
    x :| x in from;
  }

  lemma {:induction false} StationHolderSize(stations: set<int>)
    ensures |StationHolders(stations)| == |stations|
    decreases stations
  {
    if stations != {} {
      var i := AnyOf(stations);
      StationHolderSize(stations - {i});
      assert StationHolders(stations) == StationHolders(stations - {i}) + {InStation(i)};
    } else {
      assert StationHolders(stations) == {};
    }
  }

  lemma {:induction false} UnitHolderSize(t: int, us: set<int>)
    ensures |UnitHolders(t, us)| == |us|
    decreases us
  {
    if us != {} {
      var u := AnyOf(us);
      UnitHolderSize(t, us - {u});
      assert UnitHolders(t, us) == UnitHolders(t, us - {u}) + {InUnit(t, u)};
    } else {
      assert UnitHolders(t, us) == {};
    }
  }

  lemma StationBound(c: Config, rs: seq<Station>, x: nat)
    requires |c.latency| == c.types && LatencyAtMost(c, x)
    ensures Sum(StationWeights(c, rs)) <= |Occupied(rs)| * (x + 2) + |Flagged(rs)| * (c.branchPenalty + 1)
  {
    var w := StationWeights(c, rs);
    var v := seq(|rs|, i requires 0 <= i < |rs| =>
                   if rs[i].valid && rs[i].insType < c.types then c.latency[rs[i].insType] + 2 else 0);
    var z := seq(|rs|, i requires 0 <= i < |rs| =>
                   if rs[i].valid && rs[i].insType < c.types && rs[i].mispredicted then c.branchPenalty + 1 else 0);
    SumAdds(w, v, z);
    SumOfChosen(v, Occupied(rs), x + 2);
    SumOfChosen(z, Flagged(rs), c.branchPenalty + 1);
  }

  lemma BusyStep(units: seq<seq<Unit>>, t: nat)
    requires t < |units|
    ensures |Busy(units, t + 1)| == |Busy(units, t)| + |BusyIn(units[t])|
  {
    UnitHolderSize(t, BusyIn(units[t]));
    assert Busy(units, t) !! UnitHolders(t, BusyIn(units[t]));
  }

  lemma Distribute(a: nat, b: nat, x: nat)
    ensures (a + b) * x == a * x + b * x
  {
  }

  lemma {:induction false} UnitBound(c: Config, units: seq<seq<Unit>>, x: nat, types: nat)
    requires |c.latency| == |units| && types <= |units| && LatencyAtMost(c, x)
    ensures Sum(UnitWeights(c.latency, units)[..types]) <= |Busy(units, types)| * (x + 1)
    decreases types
  {
    hide Busy;
    if types > 0 {
      var t := types - 1;
      UnitBound(c, units, x, t);
      assert UnitWeights(c.latency, units)[..types][..t] == UnitWeights(c.latency, units)[..t];
      SumOfChosen(TypeWeights(c.latency[t], units[t]), BusyIn(units[t]), x + 1);
      BusyStep(units, t);
      Distribute(|Busy(units, t)|, |BusyIn(units[t])|, x + 1);
    }
  }

  ghost function AgeOf(s: State, h: Holder): int {
    match h
    case InStation(i) => if 0 <= i < |s.rs| then s.rs[i].insId - s.committed else 0
    case InUnit(t, u) => if Runs(s.units, t, u) && s.units[t][u].robIndex < |s.rob|
                         then s.rob[s.units[t][u].robIndex].insId - s.committed else 0
  }

  /** Stations and units hold different live instructions. */
  lemma HoldersFitLive(prog: seq<Instr>, lat: seq<nat>, s: State)
    requires forall k :: 0 <= k < |s.live| ==> s.live[k] < |s.rob|
    requires s.committed + |s.live| <= |prog|
    requires StationsInv(prog, s.live, s.rob, s.committed, -1, s.rs)
    requires UnitsInv(prog, lat, s.live, s.rob, s.committed, s.units)
    ensures |Occupied(s.rs)| + |Busy(s.units, |s.units|)| <= |s.live|
  {
    var a, b := StationHolders(Occupied(s.rs)), Busy(s.units, |s.units|);
    forall i | i in Occupied(s.rs)
      ensures StationInv(prog, s.live, s.rob, s.committed, -1, s.rs[i]) && 0 <= AgeOf(s, InStation(i)) < |s.live|
    {
    }
    forall h | h in b ensures 0 <= AgeOf(s, h) < |s.live| {
      assert RunningSlot(s.live, s.rob, s.committed, s.units[h.t][h.u].robIndex);
    }
    forall h, h' | h in a + b && h' in a + b && AgeOf(s, h) == AgeOf(s, h') ensures h == h' {
      SameAgeSameHolder(prog, lat, s, h, h');
    }
    InjectiveSize(a + b, h => AgeOf(s, h), |s.live|);
    StationHolderSize(Occupied(s.rs));
    assert a !! b;
  }

  lemma SameAgeSameHolder(prog: seq<Instr>, lat: seq<nat>, s: State, h: Holder, h': Holder)
    requires forall k :: 0 <= k < |s.live| ==> s.live[k] < |s.rob|
    requires s.committed + |s.live| <= |prog|
    requires StationsInv(prog, s.live, s.rob, s.committed, -1, s.rs)
    requires UnitsInv(prog, lat, s.live, s.rob, s.committed, s.units)
    requires h in StationHolders(Occupied(s.rs)) + Busy(s.units, |s.units|)
    requires h' in StationHolders(Occupied(s.rs)) + Busy(s.units, |s.units|)
    requires AgeOf(s, h) == AgeOf(s, h')
    ensures h == h'
  {
    if h.InStation? { assert StationInv(prog, s.live, s.rob, s.committed, -1, s.rs[h.i]); }
    if h'.InStation? { assert StationInv(prog, s.live, s.rob, s.committed, -1, s.rs[h'.i]); }
    if h.InUnit? { assert RunningSlot(s.live, s.rob, s.committed, s.units[h.t][h.u].robIndex); }
    if h'.InUnit? { assert RunningSlot(s.live, s.rob, s.committed, s.units[h'.t][h'.u].robIndex); }
  }

  /** n live instructions and what stations and units hold of them. */
  lemma WeightsBound(c: Config, rs: seq<Station>, units: seq<seq<Unit>>, n: nat, x: nat)
    requires |c.latency| == c.types == |units| && LatencyAtMost(c, x)
    requires |Occupied(rs)| + |Busy(units, |units|)| <= n
    ensures Sum(StationWeights(c, rs)) + Sum(UnitWeights(c.latency, units)) + n
            <= n * (x + 3) + |Flagged(rs)| * (c.branchPenalty + 1)
  {
    hide StationWeights, Sum, Occupied, Busy, Flagged, LatencyAtMost;
    StationBound(c, rs, x);
    UnitBound(c, units, x, |units|);
    assert UnitWeights(c.latency, units)[..|units|] == UnitWeights(c.latency, units);
    Total(Sum(StationWeights(c, rs)), Sum(UnitWeights(c.latency, units)), |Occupied(rs)|, |Busy(units, |units|)|,
          |Flagged(rs)|, n, x, c.branchPenalty + 1);
  }

  lemma Total(stations: nat, units: nat, a: nat, b: nat, f: nat, n: nat, x: nat, y: nat)
    requires stations <= a * (x + 2) + f * y && units <= b * (x + 1) && a + b <= n
    ensures stations + units + n <= n * (x + 3) + f * y
  {
    LinearBound(a, b, n, x);
  }

  lemma PotentialBound(c: Config, prog: seq<Instr>, s: State, x: nat)
    requires Inv(c, prog, s, [], -1) && LatencyAtMost(c, x)
    ensures Potential(c, s) <= s.penalty + |s.live| * (x + 3) + |Flagged(s.rs)| * (c.branchPenalty + 1)
  {
    HoldersFitLive(prog, c.latency, s);
    WeightsBound(c, s.rs, s.units, |s.live|, x);
    hide WellFormed, EntriesInv, RatInv, StationsInv, StationedInv, UnitsInv, PendingInv, RunningInv,
         DependentsInv, ReadyInv, LogInv, DecodeInv, StationWeights, UnitWeights, Sum, Occupied, Busy, Flagged,
         LatencyAtMost;
  }

  lemma LinearBound(a: nat, b: nat, n: nat, x: nat)
    requires a + b <= n
    ensures a * (x + 2) + b * (x + 1) + n <= n * (x + 3)
  {
    assert b * (x + 1) <= b * (x + 2);
    assert (a + b) * (x + 2) <= n * (x + 2);
  }

  /** Drain bound: in every run, once the decode buffer is empty, no more instructions arrive and only
      register instructions are in flight, the re-order buffer is empty after `penalty` plus
      `latency + 3` cycles per in-flight instruction plus `branchPenalty + 1` per flagged branch, and
      stays empty. */
  lemma DrainBound(c: Config, prog: seq<Instr>, inputs: seq<Input>, x: nat, n: nat)
    requires c.Valid() && WellFormed(c, prog) && LatencyAtMost(c, x)
    requires var s := Run(c, prog, inputs);
             && s.decode == [] && RegisterOnly(prog, s)
             && n >= s.penalty + |s.live| * (x + 3) + |Flagged(s.rs)| * (c.branchPenalty + 1)
    ensures IdleRun(c, Run(c, prog, inputs), n).live == []
  {
    hide Inv, Potential;
    Reachable(c, prog, inputs);
    PotentialBound(c, prog, Run(c, prog, inputs), x);
    DrainsWithin(c, prog, Run(c, prog, inputs), n);
  }
}
