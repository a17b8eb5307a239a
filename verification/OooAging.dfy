/** The ready queues over a cycle: first in, first out, and only the head ages, by the queue's length. */
module OooAging {
  import opened OooSpec
  import opened OooInvariant
  import opened OooTheorems
  import opened OooWidth
  import opened OooCycle
  import opened OooExact

  ghost predicate Sent(s: State, t: nat) {
    exists n :: Sends(s, t, n)
  }

  /** What is left of queue t once its head, if it is sent, has gone. */
  ghost function Left(s: State, t: nat): seq<Ready>
    requires t < |s.ready|
  {
    if Sent(s, t) && s.ready[t] != [] then s.ready[t][1..] else s.ready[t]
  }

  lemma SentIff(s: State, t: nat)
    ensures Sent(s, t) <==> Eligible(s, t) && !Charges(s, t)
  {
    if Eligible(s, t) && !Charges(s, t) {
      assert Sends(s, t, s.rs[s.ready[t][0].rs].insId);
    }
  }

  lemma TurnOnReady(c: Config, s: State, t: nat)
    requires Shape(c, s) && t < c.types && TailsFresh(s.ready)
    ensures DispatchType(c, s, t, 0).ready == s.ready[t := Left(s, t)]
  {
    SentIff(s, t);
    if Eligible(s, t) {
      TakesTurn(c, s, t);
    } else {
      IneligibleWaits(c, s, t, 0);
    }
    hide Shape, DispatchType, HasIdle, TailsFresh, Sent;
  }

  /** The types from t on have had their turns. */
  ghost predicate TurnsTaken(s: State, s': State, t: nat) {
    |s'.ready| == |s.ready|
    && forall k :: 0 <= k < |s.ready| ==> s'.ready[k] == if k >= t then Left(s, k) else s.ready[k]
  }

  lemma LaterLeft(s: State, s1: State, t: nat, k: nat)
    requires OthersKeep(s, s1, t) && k != t && k < |s.ready| == |s1.ready| && s1.ready[k] == s.ready[k]
    ensures Left(s1, k) == Left(s, k)
  {
    if n :| Sends(s, k, n) { assert Sends(s1, k, n); }
    if n :| Sends(s1, k, n) { assert Sends(s, k, n); }
    hide Sends, Charges;
  }

  lemma {:induction false} DispatchOnReady(c: Config, prog: seq<Instr>, s: State, t: nat)
    requires Shape(c, s) && Inv(c, prog, s, [], -1) && t <= c.types && TailsFresh(s.ready)
    ensures TurnsTaken(s, Dispatch(c, s, t), t)
    decreases c.types - t
  {
    hide Inv, DispatchType, TailsFresh, OthersKeep, Left;
    if t < c.types {
      var s1 := DispatchType(c, s, t, 0);
      OneTurn(c, prog, s, t);
      TurnOnReady(c, s, t);
      OneDispatch(c, s, t, 0);
      DispatchTypeStage(c, prog, s, t, 0);
      DispatchOnReady(c, prog, s1, t + 1);
      forall k | t < k < |s.ready| ensures Left(s1, k) == Left(s, k) {
        LaterLeft(s, s1, t, k);
      }
    }
  }

  // ---------- Wake-ups ----------

  ghost predicate AllQueue(s: State, s': State) {
    |s'.ready| == |s.ready| && forall t :: 0 <= t < |s.ready| ==> Queues(s.ready[t], s'.ready[t])
  }

  lemma QueueJoins(s: State, s1: State, s2: State)
    requires AllQueue(s, s1) && AllQueue(s1, s2)
    ensures AllQueue(s, s2)
  {
    forall t | 0 <= t < |s.ready| ensures Queues(s.ready[t], s2.ready[t]) {
      assert Queues(s.ready[t], s1.ready[t]) && Queues(s1.ready[t], s2.ready[t]);
    }
  }

  lemma WakeOneQueues(c: Config, s: State, j: nat)
    requires Shape(c, s) && j < c.robSize && s.rob[j].dependents != []
    ensures AllQueue(s, WakeOne(c, s, j))
  {
    assert EntryOK(c, s.rob[j]) && StationOK(c, s.rs[s.rob[j].dependents[0]]);
    hide ClearFirst, Cleared, RatOK, UnitsOK, DecodeOK;
  }

  lemma {:induction false} WakeQueues(c: Config, s: State, j: nat)
    requires Shape(c, s) && j < c.robSize
    ensures AllQueue(s, Wake(c, s, j))
    decreases |s.rob[j].dependents|
  {
    hide WakeOne, AllQueue, RatOK, StationsOK, ReadyOK, UnitsOK, DecodeOK;
    if s.rob[j].dependents == [] {
      NoneQueued(s);
    } else {
      WakeOneQueues(c, s, j);
      WakeQueues(c, WakeOne(c, s, j), j);
      QueueJoins(s, WakeOne(c, s, j), Wake(c, s, j));
    }
  }

  lemma NoneQueued(s: State)
    ensures AllQueue(s, s)
  {
  }

  lemma MarkQueues(c: Config, s: State, j: nat)
    requires Shape(c, s) && j < c.robSize
    ensures MarkExecuted(c, s, j).ready == s.ready
  {
  }

  lemma {:induction false} BroadcastQueues(c: Config, s: State, done: seq<nat>)
    requires Shape(c, s) && SlotsOK(c, done)
    ensures AllQueue(s, Broadcast(c, s, done))
    decreases |done|
  {
    hide Wake, MarkExecuted, Broadcast, AllQueue, RobOK, RatOK, StationsOK, ReadyOK, UnitsOK, DecodeOK;
    BroadcastUnfolds(c, s, done);
    if done == [] {
      NoneQueued(s);
    } else {
      var s1 := MarkExecuted(c, s, done[0]);
      MarkQueues(c, s, done[0]);
      WakeQueues(c, s1, done[0]);
      BroadcastQueues(c, Wake(c, s1, done[0]), done[1..]);
      SameQueued(s, s1, Wake(c, s1, done[0]));
      QueueJoins(s, Wake(c, s1, done[0]), Broadcast(c, s, done));
    }
  }

  lemma SameQueued(s: State, s1: State, s2: State)
    requires s1.ready == s.ready && AllQueue(s1, s2)
    ensures AllQueue(s, s2)
  {
  }

  // ---------- A cycle ----------

  /** The queue is what was left, in order, and newcomers behind it. Its head has aged by the length of the
      queue, the others have not aged. */
  ghost predicate AgesHead(left: seq<Ready>, q: seq<Ready>) {
    && |left| <= |q|
    && (forall k :: 0 <= k < |left| ==> q[k].rs == left[k].rs)
    && (forall k :: 1 <= k < |q| ==> q[k].cycles == 0)
    && (q != [] ==> q[0].cycles == |q| + if left == [] then 0 else left[0].cycles)
  }

  lemma LeftThenNew(s: State, q1: seq<Ready>, q2: seq<Ready>, q3: seq<Ready>, t: nat, sent: bool)
    requires t < |s.ready| && Queues(s.ready[t], q1) && Queues(q2, q3)
    requires sent ==> s.ready[t] != []
    requires q2 == if sent then q1[1..] else q1
    requires forall k :: 1 <= k < |q3| ==> q3[k].cycles == 0
    ensures AgesHead(if sent then s.ready[t][1..] else s.ready[t], AgeQueue(q3))
  {
  }

  lemma AgingIs(c: Config, y: State, t: nat)
    requires Shape(c, y) && t < c.types
    ensures EndCycle(c, y).ready[t] == AgeQueue(y.ready[t])
  {
  }

  lemma TailOf(ready: seq<seq<Ready>>, t: nat)
    requires TailsFresh(ready) && t < |ready|
    ensures forall k :: 1 <= k < |ready[t]| ==> ready[t][k].cycles == 0
  {
  }

  lemma LeftAgrees(s: State, s1: State, t: nat)
    requires SameHeads(s, s1)
    ensures Sent(s1, t) <==> Sent(s, t)
  {
    if n :| Sends(s, t, n) { assert Sends(s1, t, n); }
    if n :| Sends(s1, t, n) { assert Sends(s, t, n); }
    hide Sends, Charges;
  }

  lemma SentHasHead(s: State, t: nat)
    requires Sent(s, t)
    ensures t < |s.ready| && s.ready[t] != []
  {
  }

  lemma IssuedQueues(s0: State, s1: State, c: Config, clock: int, t: nat)
    requires IssuesLimit(c, s0, s1, clock, c.issueWidth) && t < |s0.ready|
    ensures |s1.ready| == |s0.ready| && Queues(s0.ready[t], s1.ready[t])
  {
    hide FreeCount, DuePrefix, Queues;
  }

  lemma StagesOnReady(c: Config, prog: seq<Instr>, s: State, g: Stages, arrivals: seq<Decoded>, clock: int, t: nat)
    requires Shape(c, s) && DecodeOK(c, arrivals) && TailsFresh(s.ready) && t < c.types
    requires g == StagesOf(c, s, arrivals, clock) && StagesRight(c, prog, Fetch(s, arrivals), g, clock)
    ensures Queues(s.ready[t], g.issued.ready[t])
    ensures g.dispatched.ready[t] == Left(g.issued, t)
    ensures Queues(g.dispatched.ready[t], g.announced.ready[t])
    ensures forall k :: 1 <= k < |g.announced.ready[t]| ==> g.announced.ready[t][k].cycles == 0
  {
    hide Inv, Issue, Dispatch, Check, Broadcast, IssuesLimit, Dispatches, ChecksExactly, SameIds, Holding, NoneFinished,
         StagesOf, Queues, Left, TailsFresh, BeforeCommit, RobOK, RatOK, StationsOK, UnitsOK, DecodeOK;
    FetchedShape(c, s, arrivals);
    IssuedQueues(Fetch(s, arrivals), g.issued, c, clock, t);
    IssueKeepsTails(c, Fetch(s, arrivals), clock, 0);
    DispatchOnReady(c, prog, g.issued, 0);
    NothingChecked(c, g.dispatched);
    BroadcastQueues(c, g.checked, g.done);
    BeforeCommitKeepsTails(c, s, arrivals, clock);
    TailOf(g.announced.ready, t);
  }

  /** In every run, over an unstalled cycle each ready queue is first in, first out: its head leaves exactly if
      it is dispatched, newcomers join the end, and only the head, the old one or a new one, has aged, by the
      length of the queue. */
  lemma QueuesInOrder(c: Config, prog: seq<Instr>, inputs: seq<Input>, input: Input, t: nat)
    requires c.Valid() && WellFormed(c, prog) && t < c.types && Run(c, prog, inputs).penalty == 0
    ensures var s, s' := Run(c, prog, inputs), Run(c, prog, inputs + [input]);
            |s.ready| == |s'.ready| == c.types && AgesHead(Left(s, t), s'.ready[t])
  {
    hide Run, NextCycle, Left, AgesHead;
    var s := Run(c, prog, inputs);
    var g, y := NextCycleIs(c, prog, inputs, input);
    CycleOnReady(c, prog, s, input, g, y, Run(c, prog, inputs + [input]), t);
  }

  lemma CycleOnReady(c: Config, prog: seq<Instr>, s: State, input: Input, g: Stages, y: State, s': State, t: nat)
    requires NextCycle(c, prog, s, input, g, y, s') && t < c.types
    ensures |s.ready| == |s'.ready| == c.types && AgesHead(Left(s, t), s'.ready[t])
  {
    hide Inv, StagesRight, Commits, StagesOf, Commit, Queues, AgesHead, AgeQueue, RobOK, RatOK, StationsOK, UnitsOK,
         DecodeOK,
         EndCycle, Sent, SameHeads, IssuesLimit;
    var arrivals := Arrivals(prog, s.issued + |s.decode|, input.due);
    var s0 := Fetch(s, arrivals);
    IssuedRight(c, prog, s0, g, input.clock);
    StartHeads(c, prog, s, arrivals, g.issued, input.clock);
    LeftAgrees(s, g.issued, t);
    StagesOnReady(c, prog, s, g, arrivals, input.clock, t);
    CommitKeepsReady(c, g.announced, input.storeRoom, 0);
    AgingIs(c, y, t);
    if Sent(s, t) {
      SentHasHead(s, t);
      SentHasHead(g.issued, t);
    }
    LeftThenNew(s, g.issued.ready[t], g.dispatched.ready[t], g.announced.ready[t], t, Sent(s, t));
  }
}
