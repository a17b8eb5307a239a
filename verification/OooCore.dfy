/** The out-of-order core as the source keeps it: tables updated in place, one cycle at a time.
    Each method is proved to do what the stage of the same name in `OooSpec` says. */
module OooCore {
  import opened RobRing
  import opened OooSpec

  ghost function Linked(s: State, ins: Instr, i: nat, index: nat): State
    requires i < |s.rs| && s.decode != []
  {
    s.(rs := s.rs[i := s.rs[i].(robIndex := index)], decode := s.decode[1..], issued := s.issued + 1,
       log := s.log + [Issued(ins.insId)])
  }

  /** `add_to_rs`, `add_to_rob` and the link between them make up one issue. */
  lemma IssueInSteps(c: Config, s: State, s1: State, s2: State, i: nat)
    requires CanIssue(c, s, i)
    requires InstrOK(c, s.decode[0].ins)
    requires var ins := s.decode[0].ins;
             var waits := Waits(c, s.rat, s.rob, ins.readRegs);
             s1 == s.(rob := AddDependents(s.rob, waits, i),
                      rs := s.rs[i := Station(true, 0, ins.insId, ins.readRegs, waits, ins.mispredicted, ins.insType)],
                      ready := if Cleared(waits) then Push(s.ready, ins.insType, i) else s.ready)
    requires NextSlot(c.robSize, s.live) < c.robSize
    requires var ins := s.decode[0].ins;
             var slot := NextSlot(c.robSize, s.live);
             s2 == s1.(live := s.live + [slot],
                       rob := s1.rob[slot := RobEntry(ins.insId, ins.writeRegs, ins.memWrite, 0, [])],
                       rat := SetAlias(s.rat, ins.writeRegs, slot))
    ensures Linked(s2, s.decode[0].ins, i, NextSlot(c.robSize, s.live)) == IssueOne(c, s, i)
  {
  }

  lemma PenaltyShape(c: Config, s: State, penalty: nat)
    requires Shape(c, s)
    ensures Shape(c, s.(penalty := penalty))
  {
  }

  class Core {
    const c: Config
    const queue: CircularQueue
    const rat: array<int>
    const rs: array<Station>
    const ready: array<seq<Ready>>
    const units: array<seq<Unit>>
    var decode: seq<Decoded>
    var completed: seq<nat>
    var penalty: nat
    var committed: nat
    var issued: nat
    ghost var log: seq<Event>

    ghost function Abs(): State
      reads this, queue, rat, rs, ready, units, queue.rob
      requires queue.Valid()
    {
      State(queue.Live(), queue.rob[..], rat[..], rs[..], ready[..], units[..], decode, penalty, committed, issued, log)
    }

    ghost predicate Valid()
      reads this, queue, rat, rs, ready, units, queue.rob
    {
      queue.Valid() && queue.rob.Length == c.robSize && Shape(c, Abs())
    }

    constructor (config: Config)
      requires config.Valid()
      ensures c == config && Valid() && Abs() == Initial(config) && completed == []
      ensures fresh(queue) && fresh(queue.rob) && fresh(rat) && fresh(rs) && fresh(ready) && fresh(units)
    {
      c := config;
      queue := new CircularQueue(config.robSize);
      rat := new int[config.numReg](_ => -1);
      rs := new Station[config.rsSize](_ => Empty());
      ready := new seq<Ready>[config.types](_ => []);
      units := new seq<Unit>[config.types](_ => seq(config.units, _ => Idle()));
      decode, completed, penalty, committed, issued, log := [], [], 0, 0, 0, [];
      new;
      var s := Initial(config);
      assert queue.rob[..] == s.rob && rat[..] == s.rat && rs[..] == s.rs && ready[..] == s.ready
             && units[..] == s.units;
    }

    // ---------- Searches ----------

    method FreeStation() returns (r: int)
      requires Valid()
      ensures r == FirstFree(rs[..], 0)
    {
      for i := 0 to rs.Length
        invariant FirstFree(rs[..], 0) == FirstFree(rs[..], i)
      {
        if !rs[i].valid {
          return i;
        }
      }
      return -1;
    }

    method FreeUnit(t: nat) returns (r: int)
      requires Valid() && t < c.types
      ensures r == FirstIdle(units[t], 0)
    {
      var row := units[t];
      for u := 0 to |row|
        invariant FirstIdle(row, 0) == FirstIdle(row, u)
      {
        if !row[u].busy {
          return u;
        }
      }
      return -1;
    }

    method DependenciesCleared(i: nat) returns (cleared: bool)
      requires i < rs.Length
      ensures cleared == Cleared(rs[i].waits)
    {
      cleared := true;
      var waits := rs[i].waits;
      for k := 0 to |waits|
        invariant cleared == Cleared(waits[..k])
      {
        assert waits[..k + 1] == waits[..k] + [waits[k]];
        if waits[k] != -1 {
          assert waits[..k + 1][k] == waits[k];
          cleared := false;
        }
      }
      assert waits[..|waits|] == waits;
    }

    // ---------- Issue ----------

    /** `add_to_rs`, operands: look each register up in the alias table and join the wake-up lists. */
    method JoinWakeupLists(readRegs: seq<int>, i: nat) returns (waits: seq<int>)
      requires queue.Valid() && queue.rob.Length == c.robSize && i < c.rsSize
      requires RobOK(c, queue.rob[..]) && RatOK(c, rat[..])
      requires forall k :: 0 <= k < |readRegs| ==> -1 <= readRegs[k] < c.numReg
      modifies queue.rob
      ensures waits == Waits(c, rat[..], old(queue.rob[..]), readRegs)
      ensures queue.rob[..] == AddDependents(old(queue.rob[..]), waits, i)
    {
      ghost var rob0 := queue.rob[..];
      ghost var all := Waits(c, rat[..], rob0, readRegs);
      waits := [];
      for k := 0 to |readRegs|
        invariant waits == all[..k]
        invariant queue.rob[..] == AddDependents(rob0, waits, i)
      {
        var w := -1;
        var r := readRegs[k];
        if r != -1 && rat[r] != -1 {
          w := rat[r];
          assert rat[..][r] == w && queue.rob[..][w].status == rob0[w].status;
          if queue.rob[w].status == 2 {
            w := -1;
          } else {
            queue.AddDependency(i, w);
          }
        }
        assert all[k] == w;
        assert all[..k + 1] == all[..k] + [w];
        assert (waits + [w])[..k] == waits;
        waits := waits + [w];
      }
      assert all[..|readRegs|] == all;
    }

    /** `add_to_rob`, aliases: the new slot becomes the source of every register it writes. */
    method SetAliases(writeRegs: seq<int>, slot: nat)
      requires forall k :: 0 <= k < |writeRegs| ==> -1 <= writeRegs[k] < rat.Length
      modifies rat
      ensures rat[..] == SetAlias(old(rat[..]), writeRegs, slot)
    {
      for k := 0 to |writeRegs|
        invariant forall r :: 0 <= r < rat.Length ==> rat[r] == if r in writeRegs[..k] then slot as int else old(rat[r])
      {
        assert writeRegs[..k + 1] == writeRegs[..k] + [writeRegs[k]];
        if writeRegs[k] != -1 {
          rat[writeRegs[k]] := slot;
        }
      }
      assert writeRegs[..|writeRegs|] == writeRegs;
    }

    /** `add_to_rs`: the slot index is filled in by the caller once it is known. */
    method AddToRs(ins: Instr, i: nat)
      requires Valid() && InstrOK(c, ins) && i < c.rsSize
      modifies queue.rob, rs, ready
      ensures queue.Valid()
      ensures var s := old(Abs());
              var waits := Waits(c, s.rat, s.rob, ins.readRegs);
              Abs() == s.(rob := AddDependents(s.rob, waits, i),
                           rs := s.rs[i := Station(true, 0, ins.insId, ins.readRegs, waits,
                                                   ins.mispredicted, ins.insType)],
                          ready := if Cleared(waits) then Push(s.ready, ins.insType, i) else s.ready)
    {
      ghost var s := Abs();
      var waits := JoinWakeupLists(ins.readRegs, i);
      rs[i] := Station(true, 0, ins.insId, ins.readRegs, waits, ins.mispredicted, ins.insType);
      var cleared := DependenciesCleared(i);
      if cleared {
        ready[ins.insType] := ready[ins.insType] + [Ready(i, 0)];
      }
      assert ready[..] == if Cleared(waits) then Push(s.ready, ins.insType, i) else s.ready;
      assert rs[..] == s.rs[i := Station(true, 0, ins.insId, ins.readRegs, waits, ins.mispredicted, ins.insType)];
    }

    /** `add_to_rob`: a new youngest entry, and the alias of every register it writes. */
    method AddToRob(ins: Instr) returns (index: nat)
      requires queue.Valid() && queue.rob.Length == c.robSize && rat.Length == c.numReg && InstrOK(c, ins)
      requires |queue.Live()| < c.robSize
      modifies queue, queue.rob, rat
      ensures queue.Valid() && index == NextSlot(c.robSize, old(queue.Live())) && index < c.robSize
      ensures Abs() == old(Abs()).(live := old(queue.Live()) + [index],
                                    rob := old(queue.rob[..])[index :=
                                             RobEntry(ins.insId, ins.writeRegs, ins.memWrite, 0, [])],
                                   rat := SetAlias(old(rat[..]), ins.writeRegs, index))
    {
      index := queue.DoIssue(RobEntry(ins.insId, ins.writeRegs, ins.memWrite, 0, []));
      SetAliases(ins.writeRegs, index);
    }

    method IssueInto(i: nat)
      requires Valid() && CanIssue(c, Abs(), i)
      modifies this, queue, queue.rob, rat, rs, ready
      ensures Valid() && Abs() == IssueOne(c, old(Abs()), i) && completed == old(completed)
    {
      ghost var s := Abs();
      var ins := decode[0].ins;
      assert InstrOK(c, ins);
      AddToRs(ins, i);
      ghost var s1 := Abs();
      var index := AddToRob(ins);
      ghost var s2 := Abs();
      LinkStation(ins, i, index);
      IssueInSteps(c, s, s1, s2, i);
    }

    /** The rest of `issue_instruction`: the station learns its slot and the instruction leaves the buffer. */
    method LinkStation(ins: Instr, i: nat, index: nat)
      requires queue.Valid() && i < rs.Length && decode != []
      modifies this, rs
      ensures queue.Valid() && completed == old(completed)
      ensures Abs() == Linked(old(Abs()), ins, i, index)
    {
      rs[i] := rs[i].(robIndex := index);
      decode := decode[1..];
      issued := issued + 1;
      log := log + [Issued(ins.insId)];
      assert rs[..] == old(rs[..])[i := old(rs[i]).(robIndex := index)];
    }

    method IssueInstruction(clock: int)
      requires Valid()
      modifies this, queue, queue.rob, rat, rs, ready
      ensures Valid() && Abs() == Issue(c, old(Abs()), clock, 0) && completed == old(completed)
    {
      hide TryIssue, Issue;
      var count := 0;
      while count < c.issueWidth && |decode| > 0 && decode[0].completeCycle <= clock
        invariant Valid() && count <= c.issueWidth && completed == old(completed)
        invariant Issue(c, Abs(), clock, count) == Issue(c, old(Abs()), clock, 0)
        decreases c.issueWidth - count
      {
        IssueUnfolds(c, Abs(), clock, count);
        TryOnce();
        count := count + 1;
      }
      IssueUnfolds(c, Abs(), clock, count);
    }

    /** One pass of the loop. */
    method TryOnce()
      requires Valid() && decode != []
      modifies this, queue, queue.rob, rat, rs, ready
      ensures Valid() && Abs() == TryIssue(c, old(Abs())) && completed == old(completed)
    {
      hide IssueOne;
      var i := FreeStation();
      var room := queue.HasRoom();
      if i != -1 && room {
        IssueInto(i);
      }
    }

    // ---------- Dispatch ----------

    method DispatchInto(t: nat, u: nat)
      requires Valid() && t < c.types && ready[t] != [] && u < c.units
      modifies this, queue.rob, rs, ready, units
      ensures Valid() && Abs() == DispatchHead(c, old(Abs()), t, u) && completed == old(completed)
    {
      ghost var s := Abs();
      var i := ready[t][0].rs;
      assert StationOK(c, rs[i]) && rs[..][i] == rs[i];
      var j := rs[i].robIndex;
      ready[t] := ready[t][1..];
      units[t] := units[t][u := Unit(true, j, i, 0)];
      rs[i] := rs[i].(valid := false);
      queue.rob[j] := queue.rob[j].(status := 1);
      log := log + [Dispatched(queue.rob[j].insId)];
      ghost var s' := DispatchHead(c, s, t, u);
      assert ready[..] == s'.ready && units[..] == s'.units && rs[..] == s'.rs && queue.rob[..] == s'.rob;
    }

    /** The penalty of a mispredicted branch, charged once. */
    method Charge(i: nat)
      requires Valid() && i < rs.Length
      modifies this, rs
      ensures Valid() && Abs() == ChargeBranch(c, old(Abs()), i) && completed == old(completed)
    {
      ghost var s := Abs();
      penalty := c.branchPenalty;
      rs[i] := rs[i].(mispredicted := false);
      assert rs[..] == s.rs[i := s.rs[i].(mispredicted := false)];
      assert Abs() == ChargeBranch(c, s, i);
    }

    method DispatchQueue(t: nat)
      requires Valid() && t < c.types
      modifies this, queue.rob, rs, ready, units
      ensures Valid() && Abs() == DispatchType(c, old(Abs()), t, 0) && completed == old(completed)
    {
      hide DispatchHead, ChargeBranch, RobOK, RatOK, DecodeOK;
      var count := 0;
      while count < c.dispatchWidth && |ready[t]| > 0
        invariant Valid() && count <= c.dispatchWidth && completed == old(completed)
        invariant DispatchType(c, Abs(), t, count) == DispatchType(c, old(Abs()), t, 0)
        decreases c.dispatchWidth - count
      {
        var head := ready[t][0];
        var u := FreeUnit(t);
        if head.cycles >= 1 && u != -1 {
          if rs[head.rs].mispredicted {
            Charge(head.rs);
            break;
          }
          DispatchInto(t, u);
        }
        count := count + 1;
      }
    }

    method DispatchAll()
      requires Valid()
      modifies this, queue.rob, rs, ready, units
      ensures Valid() && Abs() == Dispatch(c, old(Abs()), 0) && completed == old(completed)
    {
      hide RobOK, RatOK, StationsOK, ReadyOK, DecodeOK, DispatchType;
      for t := 0 to c.types
        invariant Valid() && completed == old(completed)
        invariant Dispatch(c, Abs(), t) == Dispatch(c, old(Abs()), 0)
      {
        DispatchQueue(t);
      }
    }

    // ---------- Execution ----------

    method CheckExecuted()
      requires Valid() && SlotsOK(c, completed)
      modifies this, units
      ensures Valid() && (Abs(), completed) == Check(c, old(Abs()), 0, 0, old(completed))
    {
      hide RobOK, RatOK, StationsOK, ReadyOK, DecodeOK, Contiguous;
      for t := 0 to c.types
        invariant Valid() && SlotsOK(c, completed)
        invariant Check(c, Abs(), t, 0, completed) == Check(c, old(Abs()), 0, 0, old(completed))
      {
        for u := 0 to c.units
          invariant Valid() && SlotsOK(c, completed)
          invariant Check(c, Abs(), t, u, completed) == Check(c, old(Abs()), 0, 0, old(completed))
        {
          if units[t][u].cycles == c.latency[t] && units[t][u].busy {
            FinishUnit(t, u);
          }
        }
      }
    }

    method FinishUnit(t: nat, u: nat)
      requires Valid() && t < c.types && u < c.units && SlotsOK(c, completed)
      modifies this, units
      ensures Valid() && Abs() == Release(c, old(Abs()), t, u)
      ensures completed == old(completed) + [old(units[t][u].robIndex)] && SlotsOK(c, completed)
    {
      ghost var s := Abs();
      var robIndex := units[t][u].robIndex;
      assert s.units[t][u].robIndex == robIndex;
      units[t] := units[t][u := units[t][u].(busy := false)];
      completed := completed + [robIndex];
      assert units[..] == Release(c, s, t, u).units;
    }

    /** Clear the first operand of station i that waits for j. */
    method ClearOperand(i: nat, j: nat)
      requires i < rs.Length
      modifies rs
      ensures rs[..] == old(rs[..])[i := old(rs[i]).(waits := ClearFirst(old(rs[i].waits), j))]
    {
      var waits := rs[i].waits;
      for k := 0 to |waits|
        invariant rs[..] == old(rs[..])
        invariant FirstWaiting(waits, j, 0) == FirstWaiting(waits, j, k)
      {
        if waits[k] == j {
          rs[i] := rs[i].(waits := waits[k := -1]);
          return;
        }
      }
      assert rs[i].(waits := waits) == rs[i];
    }

    method WakeNext(j: nat)
      requires Valid() && j < c.robSize && queue.rob[j].dependents != []
      modifies queue.rob, rs, ready
      ensures Valid() && Abs() == WakeOne(c, old(Abs()), j)
    {
      ghost var s := Abs();
      assert EntryOK(c, s.rob[j]);
      var i := queue.rob[j].dependents[0];
      queue.rob[j] := queue.rob[j].(dependents := queue.rob[j].dependents[1..]);
      assert queue.rob[..] == s.rob[j := s.rob[j].(dependents := s.rob[j].dependents[1..])];
      ClearOperand(i, j);
      var cleared := DependenciesCleared(i);
      if cleared {
        assert StationOK(c, s.rs[i]);
        ready[rs[i].insType] := ready[rs[i].insType] + [Ready(i, 0)];
      }
      assert ready[..] == if Cleared(rs[i].waits) then Push(s.ready, s.rs[i].insType, i) else s.ready;
      assert Abs() == WakeOne(c, s, j);
    }

    method MarkDone(j: nat)
      requires Valid() && j < c.robSize
      modifies this, queue.rob
      ensures Valid() && Abs() == MarkExecuted(c, old(Abs()), j) && completed == old(completed)
    {
      ghost var s := Abs();
      queue.rob[j] := queue.rob[j].(status := 2);
      log := log + [Executed(queue.rob[j].insId)];
      assert queue.rob[..] == MarkExecuted(c, s, j).rob;
    }

    method AnnounceResult(j: nat)
      requires Valid() && j < c.robSize
      modifies this, queue.rob, rs, ready
      ensures Valid() && Abs() == Wake(c, MarkExecuted(c, old(Abs()), j), j) && completed == old(completed)
    {
      hide StationsOK, RatOK, ReadyOK, DecodeOK, UnitsOK, WakeOne, MarkExecuted;
      ghost var s := Abs();
      MarkDone(j);
      while |queue.rob[j].dependents| > 0
        invariant Valid() && completed == old(completed)
        invariant Wake(c, Abs(), j) == Wake(c, MarkExecuted(c, s, j), j)
        decreases |queue.rob[j].dependents|
      {
        WakeNext(j);
      }
    }

    method BroadcastComplete()
      requires Valid() && SlotsOK(c, completed)
      modifies this, queue.rob, rs, ready
      ensures Valid() && Abs() == Broadcast(c, old(Abs()), old(completed)) && completed == []
    {
      hide Shape, Wake, MarkExecuted;
      for i := 0 to |completed|
        invariant Valid() && completed == old(completed)
        invariant Broadcast(c, Abs(), completed[i..]) == Broadcast(c, old(Abs()), old(completed))
      {
        assert completed[i..][0] == completed[i] && completed[i..][1..] == completed[i + 1..];
        AnnounceResult(completed[i]);
      }
      completed := [];
    }

    // ---------- Commit ----------

    method UpdateRat(slot: nat)
      modifies rat
      ensures rat[..] == ClearAlias(old(rat[..]), slot)
    {
      for r := 0 to rat.Length
        invariant forall q :: 0 <= q < rat.Length ==>
                    rat[q] == if q < r && old(rat[q]) == slot then -1 else old(rat[q])
      {
        if rat[r] == slot {
          rat[r] := -1;
        }
      }
    }

    method MarkCommitted(slot: nat)
      requires queue.Valid() && slot < queue.rob.Length
      modifies this, queue.rob
      ensures queue.Valid() && completed == old(completed)
      ensures var s := old(Abs());
              Abs() == s.(rob := s.rob[slot := s.rob[slot].(status := 3)],
                          committed := s.committed + 1,
                          log := s.log + [Committed(s.rob[slot].insId)])
    {
      queue.rob[slot] := queue.rob[slot].(status := 3);
      committed := committed + 1;
      log := log + [Committed(queue.rob[slot].insId)];
    }

    method RetireOldest()
      requires Valid() && queue.Live() != []
      modifies this, queue, queue.rob, rat
      ensures Valid() && Abs() == Retire(c, old(Abs())) && completed == old(completed)
    {
      ghost var s := Abs();
      var slot := queue.commitPtr;
      assert slot == s.live[0] && slot < queue.rob.Length;
      hide Shape;
      MarkCommitted(slot);
      UpdateRat(slot);
      queue.DoCommit();
      assert Abs() == Retire(c, s);
    }

    method CommitReady(storeRoom: nat -> bool)
      requires Valid()
      modifies this, queue, queue.rob, rat
      ensures Valid() && Abs() == Commit(c, old(Abs()), storeRoom, 0) && completed == old(completed)
    {
      for i := 0 to c.commitWidth
        invariant Valid() && completed == old(completed)
        invariant Commit(c, Abs(), storeRoom, i) == Commit(c, old(Abs()), storeRoom, 0)
      {
        var empty := queue.IsEmpty();
        if !empty && queue.rob[queue.commitPtr].status == 2 {
          if queue.rob[queue.commitPtr].memWrite == 0 {
            RetireOldest();
          } else if storeRoom(i) {
            RetireOldest();
          }
        }
      }
    }

    // ---------- End of cycle ----------

    method UpdateReadyQueue()
      modifies ready
      ensures ready[..] == AgeReady(old(ready[..]))
    {
      for t := 0 to ready.Length
        invariant forall x :: 0 <= x < ready.Length ==>
                    ready[x] == if x < t then AgeQueue(old(ready[x])) else old(ready[x])
      {
        ghost var q := ready[t];
        for i := 0 to |ready[t]|
          invariant |ready[t]| == |q|
          invariant ready[t] == if q == [] then q else q[0 := q[0].(cycles := q[0].cycles + i)]
          invariant forall x :: 0 <= x < ready.Length && x != t ==>
                      ready[x] == if x < t then AgeQueue(old(ready[x])) else old(ready[x])
        {
          ready[t] := ready[t][0 := ready[t][0].(cycles := ready[t][0].cycles + 1)];
        }
      }
    }

    method UpdateExecUnits()
      modifies units
      ensures units[..] == AgeUnits(old(units[..]))
    {
      for t := 0 to units.Length
        invariant forall x :: 0 <= x < units.Length ==>
                    units[x] == if x < t then AgeUnitsOf(old(units[x])) else old(units[x])
      {
        ghost var row := units[t];
        for u := 0 to |units[t]|
          invariant |units[t]| == |row|
          invariant forall v :: 0 <= v < |row| ==> units[t][v] == if v < u then AgeUnit(row[v]) else row[v]
          invariant forall x :: 0 <= x < units.Length && x != t ==>
                      units[x] == if x < t then AgeUnitsOf(old(units[x])) else old(units[x])
        {
          if units[t][u].busy {
            units[t] := units[t][u := units[t][u].(cycles := units[t][u].cycles + 1)];
          }
        }
        assert units[t] == AgeUnitsOf(row);
      }
    }

    method AgeQueuesAndUnits()
      requires Valid()
      modifies ready, units
      ensures Valid() && Abs() == EndCycle(c, old(Abs()))
    {
      UpdateReadyQueue();
      UpdateExecUnits();
    }

    /** One clock cycle of the core. */
    method UpdateCore(arrivals: seq<Decoded>, clock: int, storeRoom: nat -> bool)
      requires Valid() && completed == [] && DecodeOK(c, arrivals)
      modifies this, queue, queue.rob, rat, rs, ready, units
      ensures Valid() && completed == []
      ensures Abs() == OooSpec.UpdateCore(c, old(Abs()), arrivals, clock, storeRoom)
    {
      hide Shape, Issue, Dispatch, Check, Broadcast, Commit, EndCycle;
      if penalty > 0 {
        ghost var s := Abs();
        penalty := penalty - 1;
        PenaltyShape(c, s, penalty);
        return;
      }
      FetchedShape(c, Abs(), arrivals);
      decode := decode + arrivals;
      IssueInstruction(clock);
      DispatchAll();
      CheckExecuted();
      BroadcastComplete();
      CommitReady(storeRoom);
      AgeQueuesAndUnits();
    }
  }
}
