/** What holds in every run of the out-of-order core, for every instruction stream and every environment. */
module OooTheorems {
  import opened OooSpec
  import opened OooInvariant
  import opened OooIssue
  import opened OooDispatch
  import opened OooExecute

  // ---------- Stages keep the invariant ----------

  lemma TryIssueKeepsInv(c: Config, prog: seq<Instr>, s: State)
    requires Shape(c, s) && Inv(c, prog, s, [], -1) && s.decode != []
    ensures Inv(c, prog, TryIssue(c, s), [], -1)
  {
    hide Inv, IssueOne;
    var i := FirstFree(s.rs, 0);
    if i != -1 && |s.live| < c.robSize {
      IssueKeepsInv(c, prog, s, i);
    }
  }

  lemma {:induction false} IssueStage(c: Config, prog: seq<Instr>, s: State, clock: int, count: nat)
    requires Shape(c, s) && Inv(c, prog, s, [], -1) && count <= c.issueWidth
    ensures Inv(c, prog, Issue(c, s, clock, count), [], -1)
    decreases c.issueWidth - count
  {
    hide Inv, Shape, TryIssue;
    if IssueDue(c, s, clock, count) {
      TryIssueKeepsInv(c, prog, s);
      IssueStage(c, prog, TryIssue(c, s), clock, count + 1);
    }
  }

  lemma {:induction false} DispatchTypeStage(c: Config, prog: seq<Instr>, s: State, t: nat, count: nat)
    requires Shape(c, s) && Inv(c, prog, s, [], -1) && t < c.types && count <= c.dispatchWidth
    ensures Inv(c, prog, DispatchType(c, s, t, count), [], -1)
    decreases c.dispatchWidth - count
  {
    hide Inv;
    if count < c.dispatchWidth && s.ready[t] != [] {
      var u := FirstIdle(s.units[t], 0);
      if s.ready[t][0].cycles >= 1 && u != -1 {
        if s.rs[s.ready[t][0].rs].mispredicted {
          ChargeKeepsInv(c, prog, s, s.ready[t][0].rs);
        } else {
          DispatchKeepsInv(c, prog, s, t, u);
          DispatchTypeStage(c, prog, DispatchHead(c, s, t, u), t, count + 1);
        }
      } else {
        DispatchTypeStage(c, prog, s, t, count + 1);
      }
    }
  }

  lemma {:induction false} DispatchStage(c: Config, prog: seq<Instr>, s: State, t: nat)
    requires Shape(c, s) && Inv(c, prog, s, [], -1) && t <= c.types
    ensures Inv(c, prog, Dispatch(c, s, t), [], -1)
    decreases c.types - t
  {
    hide Inv;
    if t < c.types {
      DispatchTypeStage(c, prog, s, t, 0);
      DispatchStage(c, prog, DispatchType(c, s, t, 0), t + 1);
    }
  }

  /** No unit before (t, u) is due. */
  ghost predicate NoneFinished(c: Config, units: seq<seq<Unit>>, t: nat, u: nat) {
    forall t', u' :: Runs(units, t', u') && t' < |c.latency| && (t' < t || (t' == t && u' < u)) ==>
      units[t'][u'].cycles != c.latency[t']
  }

  lemma {:induction false} CheckStage(c: Config, prog: seq<Instr>, s: State, t: nat, u: nat, done: seq<nat>)
    requires Shape(c, s) && Inv(c, prog, s, done, -1) && t <= c.types && u <= c.units && SlotsOK(c, done)
    requires NoneFinished(c, s.units, t, u)
    ensures var r := Check(c, s, t, u, done);
            Inv(c, prog, r.0, r.1, -1) && NoneFinished(c, r.0.units, c.types, 0)
    decreases c.types - t, c.units - u
  {
    hide Inv;
    if t == c.types {
    } else if u == c.units {
      CheckStage(c, prog, s, t + 1, 0, done);
    } else if Finished(c, t, s.units[t][u]) {
      ReleaseKeepsInv(c, prog, s, t, u, done);
      var s' := Release(c, s, t, u);
      forall t', u' | Runs(s'.units, t', u') ensures Runs(s.units, t', u') && s'.units[t'][u'] == s.units[t'][u'] {
      }
      CheckStage(c, prog, s', t, u + 1, done + [s.units[t][u].robIndex]);
    } else {
      CheckStage(c, prog, s, t, u + 1, done);
    }
  }

  lemma PendingIsLive(c: Config, prog: seq<Instr>, s: State, done: seq<nat>)
    requires Inv(c, prog, s, done, -1) && done != []
    ensures done[0] < c.robSize && done[0] in s.live
  {
    assert RunningSlot(s.live, s.rob, s.committed, done[0]);
  }

  lemma {:induction false} BroadcastStage(c: Config, prog: seq<Instr>, s: State, done: seq<nat>)
    requires Shape(c, s) && Inv(c, prog, s, done, -1) && SlotsOK(c, done)
    ensures Inv(c, prog, Broadcast(c, s, done), [], -1)
    decreases |done|
  {
    hide Inv;
    if done != [] {
      var j := done[0];
      assert done == [j] + done[1..];
      PendingIsLive(c, prog, s, done);
      MarkKeepsInv(c, prog, s, j, done[1..]);
      WakeKeepsInv(c, prog, MarkExecuted(c, s, j), j, done[1..]);
      BroadcastStage(c, prog, Wake(c, MarkExecuted(c, s, j), j), done[1..]);
    }
  }

  lemma {:induction false} CommitStage(c: Config, prog: seq<Instr>, s: State, storeRoom: nat -> bool, i: nat)
    requires Shape(c, s) && Inv(c, prog, s, [], -1) && i <= c.commitWidth
    ensures Inv(c, prog, Commit(c, s, storeRoom, i), [], -1)
    decreases c.commitWidth - i
  {
    hide Inv;
    if i < c.commitWidth {
      if CanRetire(c, s, storeRoom(i)) {
        RetireKeepsInv(c, prog, s);
        CommitStage(c, prog, Retire(c, s), storeRoom, i + 1);
      } else {
        CommitStage(c, prog, s, storeRoom, i + 1);
      }
    }
  }

  /** At the end of a cycle every queue's head has waited at least a cycle and nothing behind it has. */
  ghost predicate HeadsAged(ready: seq<seq<Ready>>) {
    && (forall t :: 0 <= t < |ready| && ready[t] != [] ==> ready[t][0].cycles >= 1)
  }

  ghost predicate TailsFresh(ready: seq<seq<Ready>>) {
    forall t, k :: 0 <= t < |ready| && 1 <= k < |ready[t]| ==> ready[t][k].cycles == 0
  }

  lemma EndStage(c: Config, prog: seq<Instr>, s: State)
    requires Inv(c, prog, s, [], -1) && NoneFinished(c, s.units, c.types, 0)
    ensures Inv(c, prog, EndCycle(c, s), [], -1) && HeadsAged(EndCycle(c, s).ready)
  {
    var s' := EndCycle(c, s);
    AgingUnits(s.units);
    NoneOverdue(c, prog, s);
    AgingReady(s.ready);
    AgedUnits(prog, c.latency, s, s');
    AgedReady(s.ready, s'.ready, s.rs);
    hide WellFormed, EntriesInv, RatInv, StationsInv, StationedInv, DependentsInv, ReadyInv, LogInv, DecodeInv,
         UnitsInv, RunningInv, AgeUnits, AgeReady, HeadsAged, NoneFinished, Shape;
  }

  lemma AgingUnits(units: seq<seq<Unit>>)
    ensures var units' := AgeUnits(units);
            && |units'| == |units|
            && (forall t, u :: Runs(units', t, u) <==> Runs(units, t, u))
            && (forall t, u :: Runs(units', t, u) ==>
                  units'[t][u] == units[t][u].(cycles := units[t][u].cycles + 1))
  {
  }

  /** A unit that is not due has a cycle left. */
  lemma NoneOverdue(c: Config, prog: seq<Instr>, s: State)
    requires |s.units| == |c.latency| == c.types && NoneFinished(c, s.units, c.types, 0)
    requires forall k :: 0 <= k < |s.live| ==> s.live[k] < |s.rob|
    requires UnitsInv(prog, c.latency, s.live, s.rob, s.committed, s.units)
    ensures forall t, u :: Runs(s.units, t, u) ==> s.units[t][u].cycles + 1 <= c.latency[t]
  {
  }

  lemma AgingReady(ready: seq<seq<Ready>>)
    ensures HeadsAged(AgeReady(ready))
    ensures forall t, k, i: nat :: QueuedAt(AgeReady(ready), t, k, i) <==> QueuedAt(ready, t, k, i)
  {
  }

  lemma AgedUnits(prog: seq<Instr>, lat: seq<nat>, s: State, s': State)
    requires forall k :: 0 <= k < |s.live| ==> s.live[k] < |s.rob|
    requires UnitsInv(prog, lat, s.live, s.rob, s.committed, s.units) && RunningInv(s.live, s.rob, s.units, [])
    requires |s'.units| == |s.units| && s'.live == s.live && s'.rob == s.rob && s'.committed == s.committed
    requires forall t, u :: Runs(s'.units, t, u) <==> Runs(s.units, t, u)
    requires forall t, u :: Runs(s'.units, t, u) ==>
               s'.units[t][u] == s.units[t][u].(cycles := s.units[t][u].cycles + 1) && s'.units[t][u].cycles <= lat[t]
    ensures UnitsInv(prog, lat, s'.live, s'.rob, s'.committed, s'.units) && RunningInv(s'.live, s'.rob, s'.units, [])
  {
    forall k | 0 <= k < |s'.live| && s'.rob[s'.live[k]].status == 1
      ensures exists t, u :: RunsSlot(s'.units, t, u, s'.live[k])
    {
      var t, u :| RunsSlot(s.units, t, u, s.live[k]);
      assert RunsSlot(s'.units, t, u, s.live[k]);
    }
  }

  lemma AgedReady(ready: seq<seq<Ready>>, ready': seq<seq<Ready>>, rs: seq<Station>)
    requires ReadyInv(ready, rs)
    requires forall t, k, i: nat :: QueuedAt(ready', t, k, i) <==> QueuedAt(ready, t, k, i)
    ensures ReadyInv(ready', rs)
  {
    forall i | 0 <= i < |rs| && rs[i].valid && Cleared(rs[i].waits)
      ensures exists k :: QueuedAt(ready', rs[i].insType, k, i)
    {
      var k :| QueuedAt(ready, rs[i].insType, k, i);
      assert QueuedAt(ready', rs[i].insType, k, i);
    }
  }

  // ---------- Runs ----------

  /** The environment of one cycle: when the newly decoded instructions are due, the clock, and
      whether the load/store queue has room at each commit attempt. */
  datatype Input = Input(due: seq<int>, clock: int, storeRoom: nat -> bool)

  /** The next instructions of the stream, as many as the front end delivers and the stream has. */
  function Arrivals(prog: seq<Instr>, from: nat, due: seq<int>): (r: seq<Decoded>)
    ensures from <= |prog| ==> from + |r| <= |prog|
    ensures forall k :: 0 <= k < |r| ==> from + k < |prog| && r[k].ins == prog[from + k]
  {
    var count := if from + |due| <= |prog| then |due| else if from <= |prog| then |prog| - from else 0;
    seq(count, k requires 0 <= k < count => Decoded(prog[from + k], due[k]))
  }

  function Step(c: Config, prog: seq<Instr>, s: State, input: Input): (s': State)
    requires Shape(c, s)
    requires forall n :: 0 <= n < |prog| ==> InstrOK(c, prog[n])
    ensures Shape(c, s')
  {
    UpdateCore(c, s, Arrivals(prog, s.issued + |s.decode|, input.due), input.clock, input.storeRoom)
  }

  function Run(c: Config, prog: seq<Instr>, inputs: seq<Input>): (s: State)
    requires c.Valid()
    requires forall n :: 0 <= n < |prog| ==> InstrOK(c, prog[n])
    ensures Shape(c, s)
  {
    if inputs == [] then Initial(c)
    else Step(c, prog, Run(c, prog, inputs[..|inputs| - 1]), inputs[|inputs| - 1])
  }

  lemma FetchKeepsInv(c: Config, prog: seq<Instr>, s: State, due: seq<int>)
    requires Inv(c, prog, s, [], -1)
    ensures DecodeOK(c, Arrivals(prog, s.issued + |s.decode|, due))
    ensures Inv(c, prog, s.(decode := s.decode + Arrivals(prog, s.issued + |s.decode|, due)), [], -1)
  {
    FetchedDecode(c, prog, s.decode, s.issued, due);
    FetchedShape(c, s, Arrivals(prog, s.issued + |s.decode|, due));
    hide Shape, Arrivals, WellFormed, EntriesInv, RatInv, StationsInv, StationedInv, UnitsInv, PendingInv, RunningInv,
         DependentsInv, ReadyInv, LogInv, DecodeInv;
  }

  lemma FetchedDecode(c: Config, prog: seq<Instr>, decode: seq<Decoded>, issued: nat, due: seq<int>)
    requires WellFormed(c, prog) && DecodeInv(prog, decode, issued)
    ensures var d := Arrivals(prog, issued + |decode|, due); DecodeOK(c, d) && DecodeInv(prog, decode + d, issued)
  {
    var d := Arrivals(prog, issued + |decode|, due);
    forall k | 0 <= k < |decode + d| ensures (decode + d)[k].ins == prog[issued + k] {
      if k >= |decode| { assert d[k - |decode|].ins == prog[issued + |decode| + (k - |decode|)]; }
    }
  }

  lemma BeforeCommitInv(c: Config, prog: seq<Instr>, s: State, arrivals: seq<Decoded>, clock: int)
    requires Shape(c, s) && DecodeOK(c, arrivals)
    requires Inv(c, prog, s.(decode := s.decode + arrivals), [], -1)
    ensures var s' := BeforeCommit(c, s, arrivals, clock);
            Inv(c, prog, s', [], -1) && NoneFinished(c, s'.units, c.types, 0)
  {
    hide Inv, Shape, Issue, Dispatch, Check, Broadcast;
    var s0 := s.(decode := s.decode + arrivals);
    FetchedShape(c, s, arrivals);
    IssueStage(c, prog, s0, clock, 0);
    NothingChecked(c, Dispatch(c, Issue(c, s0, clock, 0), 0));
    DispatchStage(c, prog, Issue(c, s0, clock, 0), 0);
    var s2 := Dispatch(c, Issue(c, s0, clock, 0), 0);
    CheckStage(c, prog, s2, 0, 0, []);
    var (s3, done) := Check(c, s2, 0, 0, []);
    BroadcastStage(c, prog, s3, done);
  }

  lemma NothingChecked(c: Config, s: State)
    ensures NoneFinished(c, s.units, 0, 0) && SlotsOK(c, [])
  {
  }

  lemma StepKeepsInv(c: Config, prog: seq<Instr>, s: State, input: Input)
    requires Shape(c, s) && WellFormed(c, prog) && Inv(c, prog, s, [], -1) && HeadsAged(s.ready)
    ensures Inv(c, prog, Step(c, prog, s, input), [], -1) && HeadsAged(Step(c, prog, s, input).ready)
  {
    hide Inv, Shape, HeadsAged, NoneFinished, BeforeCommit, Commit, EndCycle;
    var arrivals := Arrivals(prog, s.issued + |s.decode|, input.due);
    if s.penalty == 0 {
      FetchKeepsInv(c, prog, s, input.due);
      BeforeCommitInv(c, prog, s, arrivals, input.clock);
      var x := BeforeCommit(c, s, arrivals, input.clock);
      CommitStage(c, prog, x, input.storeRoom, 0);
      EndStage(c, prog, Commit(c, x, input.storeRoom, 0));
    } else {
      PenaltyIsOutside(c, prog, s, s.penalty - 1);
    }
  }

  lemma PenaltyIsOutside(c: Config, prog: seq<Instr>, s: State, penalty: nat)
    requires Inv(c, prog, s, [], -1)
    ensures Inv(c, prog, s.(penalty := penalty), [], -1)
  {
  }

  lemma InitialInv(c: Config, prog: seq<Instr>)
    requires c.Valid() && WellFormed(c, prog)
    ensures Inv(c, prog, Initial(c), [], -1) && HeadsAged(Initial(c).ready)
  {
    var s := Initial(c);
    forall e ensures !Happened(s.live, s.rob, s.committed, e) {
    }
  }

  /** Every reachable state satisfies the invariant. */
  lemma {:induction false} Reachable(c: Config, prog: seq<Instr>, inputs: seq<Input>)
    requires c.Valid() && WellFormed(c, prog)
    ensures Inv(c, prog, Run(c, prog, inputs), [], -1) && HeadsAged(Run(c, prog, inputs).ready)
  {
    if inputs == [] {
      InitialInv(c, prog);
    } else {
      Reachable(c, prog, inputs[..|inputs| - 1]);
      StepKeepsInv(c, prog, Run(c, prog, inputs[..|inputs| - 1]), inputs[|inputs| - 1]);
    }
  }
}
