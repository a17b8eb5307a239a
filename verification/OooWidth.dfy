/** The width of the dispatch stage. Only the head of a ready queue ages, so nothing behind a dispatched head
    is eligible: a cycle dispatches at most one instruction of each type, whatever width is configured. */
module OooWidth {
  import opened OooSpec
  import opened OooInvariant
  import opened OooDispatch
  import opened OooTheorems

  // ---------- Only heads age ----------

  lemma {:induction false} IssueKeepsTails(c: Config, s: State, clock: int, count: nat)
    requires Shape(c, s) && count <= c.issueWidth && TailsFresh(s.ready)
    ensures TailsFresh(Issue(c, s, clock, count).ready)
    decreases c.issueWidth - count
  {
    hide Shape, TailsFresh, TryIssue;
    if IssueDue(c, s, clock, count) {
      TryKeepsTails(c, s);
      IssueKeepsTails(c, TryIssue(c, s), clock, count + 1);
    }
  }

  lemma TryKeepsTails(c: Config, s: State)
    requires Shape(c, s) && s.decode != [] && TailsFresh(s.ready)
    ensures TailsFresh(TryIssue(c, s).ready)
  {
    assert InstrOK(c, s.decode[0].ins);
  }

  /** A head that has not aged blocks its queue for the rest of the cycle. */
  lemma {:induction false} FreshHeadBlocks(c: Config, s: State, t: nat, count: nat)
    requires Shape(c, s) && t < c.types && count <= c.dispatchWidth
    requires s.ready[t] == [] || s.ready[t][0].cycles == 0
    ensures DispatchType(c, s, t, count) == s
    decreases c.dispatchWidth - count
  {
    if count < c.dispatchWidth && s.ready[t] != [] {
      FreshHeadBlocks(c, s, t, count + 1);
    }
  }

  lemma {:induction false} OneDispatch(c: Config, s: State, t: nat, count: nat)
    requires Shape(c, s) && t < c.types && count <= c.dispatchWidth && TailsFresh(s.ready)
    ensures var s' := DispatchType(c, s, t, count);
            |s'.log| <= |s.log| + 1 && TailsFresh(s'.ready)
    decreases c.dispatchWidth - count
  {
    if count < c.dispatchWidth && s.ready[t] != [] {
      var u := FirstIdle(s.units[t], 0);
      if s.ready[t][0].cycles >= 1 && u != -1 {
        if !s.rs[s.ready[t][0].rs].mispredicted {
          var s' := DispatchHead(c, s, t, u);
          if s'.ready[t] != [] { assert s'.ready[t][0] == s.ready[t][1]; }
          FreshHeadBlocks(c, s', t, count + 1);
        }
      } else {
        OneDispatch(c, s, t, count + 1);
      }
    }
  }

  lemma {:induction false} DispatchCount(c: Config, s: State, t: nat)
    requires Shape(c, s) && t <= c.types && TailsFresh(s.ready)
    ensures |Dispatch(c, s, t).log| <= |s.log| + c.types - t && TailsFresh(Dispatch(c, s, t).ready)
    decreases c.types - t
  {
    hide Shape, TailsFresh, DispatchType;
    if t < c.types {
      OneDispatch(c, s, t, 0);
      DispatchCount(c, DispatchType(c, s, t, 0), t + 1);
    }
  }

  lemma {:induction false} WakeKeepsTails(c: Config, s: State, j: nat)
    requires Shape(c, s) && j < c.robSize && TailsFresh(s.ready)
    ensures TailsFresh(Wake(c, s, j).ready)
    decreases |s.rob[j].dependents|
  {
    if s.rob[j].dependents != [] {
      assert EntryOK(c, s.rob[j]);
      WakeKeepsTails(c, WakeOne(c, s, j), j);
    }
  }

  lemma {:induction false} BroadcastKeepsTails(c: Config, s: State, done: seq<nat>)
    requires Shape(c, s) && SlotsOK(c, done) && TailsFresh(s.ready)
    ensures TailsFresh(Broadcast(c, s, done).ready)
    decreases |done|
  {
    if done != [] {
      WakeKeepsTails(c, MarkExecuted(c, s, done[0]), done[0]);
      BroadcastKeepsTails(c, Wake(c, MarkExecuted(c, s, done[0]), done[0]), done[1..]);
    }
  }

  lemma {:induction false} CommitKeepsReady(c: Config, s: State, storeRoom: nat -> bool, i: nat)
    requires Shape(c, s) && i <= c.commitWidth
    ensures Commit(c, s, storeRoom, i).ready == s.ready
    decreases c.commitWidth - i
  {
    if i < c.commitWidth {
      CommitKeepsReady(c, if CanRetire(c, s, storeRoom(i)) then Retire(c, s) else s, storeRoom, i + 1);
    }
  }

  lemma BeforeCommitKeepsTails(c: Config, s: State, arrivals: seq<Decoded>, clock: int)
    requires Shape(c, s) && DecodeOK(c, arrivals) && TailsFresh(s.ready)
    ensures TailsFresh(BeforeCommit(c, s, arrivals, clock).ready)
  {
    hide TailsFresh, Shape, Issue, Dispatch, Check, Broadcast;
    var s0 := s.(decode := s.decode + arrivals);
    FetchedShape(c, s, arrivals);
    IssueKeepsTails(c, s0, clock, 0);
    var s1 := Issue(c, s0, clock, 0);
    DispatchCount(c, s1, 0);
    var (s2, done) := Check(c, Dispatch(c, s1, 0), 0, 0, []);
    BroadcastKeepsTails(c, s2, done);
  }

  lemma StepKeepsTails(c: Config, prog: seq<Instr>, s: State, input: Input)
    requires Shape(c, s) && WellFormed(c, prog) && TailsFresh(s.ready)
    ensures TailsFresh(Step(c, prog, s, input).ready)
  {
    hide TailsFresh, Shape, BeforeCommit, Commit;
    if s.penalty == 0 {
      var arrivals := Arrivals(prog, s.issued + |s.decode|, input.due);
      assert DecodeOK(c, arrivals);
      BeforeCommitKeepsTails(c, s, arrivals, input.clock);
      var x := BeforeCommit(c, s, arrivals, input.clock);
      CommitKeepsReady(c, x, input.storeRoom, 0);
      AgingKeepsTails(x.ready);
    }
  }

  lemma AgingKeepsTails(ready: seq<seq<Ready>>)
    requires TailsFresh(ready)
    ensures TailsFresh(AgeReady(ready))
  {
  }

  lemma {:induction false} TailsStayFresh(c: Config, prog: seq<Instr>, inputs: seq<Input>)
    requires c.Valid() && WellFormed(c, prog)
    ensures TailsFresh(Run(c, prog, inputs).ready)
  {
    if inputs != [] {
      TailsStayFresh(c, prog, inputs[..|inputs| - 1]);
      StepKeepsTails(c, prog, Run(c, prog, inputs[..|inputs| - 1]), inputs[|inputs| - 1]);
    }
  }

  // ---------- One dispatch per type ----------

  /** The events added to a history dispatch instructions of the stream, in ascending order of their
      types, all of them from `from` on: so no two are of one type. */
  ghost predicate AscendingTypes(prog: seq<Instr>, before: seq<Event>, after: seq<Event>, from: nat) {
    && before <= after
    && (forall i :: |before| <= i < |after| ==> DispatchesFrom(prog, after[i], from))
    && (forall i, j :: |before| <= i < j < |after| ==> TypeBelow(prog, after[i], after[j]))
  }

  ghost predicate DispatchesFrom(prog: seq<Instr>, e: Event, from: nat) {
    e.Dispatched? && e.n < |prog| && from <= prog[e.n].insType
  }

  ghost predicate TypeBelow(prog: seq<Instr>, e: Event, f: Event) {
    e.n < |prog| && f.n < |prog| && prog[e.n].insType < prog[f.n].insType
  }

  /** What one type's turn adds to the history. */
  ghost predicate OneOfType(prog: seq<Instr>, before: seq<Event>, after: seq<Event>, t: nat) {
    || after == before
    || (|after| == |before| + 1 && before <= after
        && DispatchesFrom(prog, after[|before|], t) && prog[after[|before|].n].insType == t)
  }

  lemma HeadHasType(c: Config, prog: seq<Instr>, s: State, t: nat, u: nat)
    requires Shape(c, s) && Inv(c, prog, s, [], -1)
    requires t < c.types && s.ready[t] != [] && u < c.units && !s.units[t][u].busy
    ensures OneOfType(prog, s.log, DispatchHead(c, s, t, u).log, t)
  {
    HeadIsIssued(c, prog, s, t, u);
  }

  lemma {:induction false} TypeDispatchesOne(c: Config, prog: seq<Instr>, s: State, t: nat, count: nat)
    requires Shape(c, s) && t < c.types && count <= c.dispatchWidth && TailsFresh(s.ready) && Inv(c, prog, s, [], -1)
    ensures OneOfType(prog, s.log, DispatchType(c, s, t, count).log, t)
    decreases c.dispatchWidth - count
  {
    hide Inv;
    if count < c.dispatchWidth && s.ready[t] != [] {
      var u := FirstIdle(s.units[t], 0);
      if s.ready[t][0].cycles >= 1 && u != -1 {
        if !s.rs[s.ready[t][0].rs].mispredicted {
          var s' := DispatchHead(c, s, t, u);
          HeadHasType(c, prog, s, t, u);
          if s'.ready[t] != [] { assert s'.ready[t][0] == s.ready[t][1]; }
          FreshHeadBlocks(c, s', t, count + 1);
        }
      } else {
        TypeDispatchesOne(c, prog, s, t, count + 1);
      }
    }
  }

  lemma {:induction false} CycleDispatches(c: Config, prog: seq<Instr>, s: State, t: nat)
    requires Shape(c, s) && t <= c.types && TailsFresh(s.ready) && Inv(c, prog, s, [], -1)
    ensures AscendingTypes(prog, s.log, Dispatch(c, s, t).log, t)
    decreases c.types - t
  {
    hide Inv, TailsFresh;
    if t < c.types {
      var s' := DispatchType(c, s, t, 0);
      OneDispatch(c, s, t, 0);
      TypeDispatchesOne(c, prog, s, t, 0);
      DispatchTypeStage(c, prog, s, t, 0);
      CycleDispatches(c, prog, s', t + 1);
      OneMore(prog, s.log, s'.log, Dispatch(c, s', t + 1).log, t);
    }
  }

  lemma OneMore(prog: seq<Instr>, before: seq<Event>, mid: seq<Event>, after: seq<Event>, t: nat)
    requires OneOfType(prog, before, mid, t) && AscendingTypes(prog, mid, after, t + 1)
    ensures AscendingTypes(prog, before, after, t)
  {
    forall i, j | |before| <= i < j < |after| ensures TypeBelow(prog, after[i], after[j]) {
      if i < |mid| {
        assert after[i] == mid[i];
        assert DispatchesFrom(prog, after[j], t + 1);
      }
    }
    forall i | |before| <= i < |after| ensures DispatchesFrom(prog, after[i], t) {
      if i < |mid| { assert after[i] == mid[i]; } else { assert DispatchesFrom(prog, after[i], t + 1); }
    }
  }

  /** What the dispatch stage adds to the history in a cycle that starts in state s. */
  ghost function DispatchedIn(c: Config, prog: seq<Instr>, s: State, due: seq<int>, clock: int): seq<Event>
    requires Shape(c, s) && WellFormed(c, prog)
  {
    var arrivals := Arrivals(prog, s.issued + |s.decode|, due);
    assert DecodeOK(c, arrivals);
    var issued := Issue(c, s.(decode := s.decode + arrivals), clock, 0);
    Dispatch(c, issued, 0).log[|issued.log|..]
  }

  /** Only the head of a ready queue ages, so whatever the dispatch width, one cycle of any run dispatches
      at most one instruction of each type: no two of its dispatches are of one type. */
  lemma OneDispatchPerType(c: Config, prog: seq<Instr>, inputs: seq<Input>, due: seq<int>, clock: int)
    requires c.Valid() && WellFormed(c, prog)
    ensures var d := DispatchedIn(c, prog, Run(c, prog, inputs), due, clock);
            && |d| <= c.types
            && (forall i :: 0 <= i < |d| ==> d[i].Dispatched? && d[i].n < |prog|)
            && (forall i, j :: 0 <= i < j < |d| ==>
                  d[i].n < |prog| && d[j].n < |prog| && prog[d[i].n].insType != prog[d[j].n].insType)
  {
    hide Inv, TailsFresh, Shape, DispatchedIn;
    Reachable(c, prog, inputs);
    TailsStayFresh(c, prog, inputs);
    CycleOnePerType(c, prog, Run(c, prog, inputs), due, clock);
  }

  ghost predicate OnePerType(prog: seq<Instr>, d: seq<Event>, types: nat) {
    && |d| <= types
    && (forall i :: 0 <= i < |d| ==> d[i].Dispatched? && d[i].n < |prog|)
    && (forall i, j :: 0 <= i < j < |d| ==>
          d[i].n < |prog| && d[j].n < |prog| && prog[d[i].n].insType != prog[d[j].n].insType)
  }

  lemma CycleOnePerType(c: Config, prog: seq<Instr>, s: State, due: seq<int>, clock: int)
    requires Shape(c, s) && WellFormed(c, prog) && Inv(c, prog, s, [], -1) && TailsFresh(s.ready)
    ensures OnePerType(prog, DispatchedIn(c, prog, s, due, clock), c.types)
  {
    hide Inv, TailsFresh, Shape, OnePerType, AscendingTypes, WellFormed;
    FetchKeepsInv(c, prog, s, due);
    var s0 := s.(decode := s.decode + Arrivals(prog, s.issued + |s.decode|, due));
    InvHasShape(c, prog, s0);
    IssueKeepsTails(c, s0, clock, 0);
    IssueStage(c, prog, s0, clock, 0);
    var s1 := Issue(c, s0, clock, 0);
    CycleDispatches(c, prog, s1, 0);
    DispatchCount(c, s1, 0);
    NoTwoOfOneType(prog, s1.log, Dispatch(c, s1, 0).log, c.types);
  }

  lemma InvHasShape(c: Config, prog: seq<Instr>, s: State)
    requires Inv(c, prog, s, [], -1)
    ensures Shape(c, s)
  {
  }

  lemma NoTwoOfOneType(prog: seq<Instr>, before: seq<Event>, after: seq<Event>, types: nat)
    requires AscendingTypes(prog, before, after, 0) && |after| <= |before| + types
    ensures OnePerType(prog, after[|before|..], types)
  {
    var d := after[|before|..];
    forall i | 0 <= i < |d| ensures d[i].Dispatched? && d[i].n < |prog| {
      assert DispatchesFrom(prog, after[|before| + i], 0);
    }
    forall i, j | 0 <= i < j < |d|
      ensures d[i].n < |prog| && d[j].n < |prog| && prog[d[i].n].insType != prog[d[j].n].insType
    {
      assert TypeBelow(prog, after[|before| + i], after[|before| + j]);
    }
  }

  // ---------- The dispatch width has no effect ----------

  /** The same core with a dispatch width of one. */
  function Narrow(c: Config): Config {
    c.(dispatchWidth := 1)
  }

  lemma NarrowShape(c: Config, s: State)
    requires Shape(c, s)
    ensures Shape(Narrow(c), s) && c.dispatchWidth >= 1
  {
  }

  lemma NarrowDecode(c: Config, decode: seq<Decoded>)
    ensures DecodeOK(c, decode) <==> DecodeOK(Narrow(c), decode)
  {
    assert forall ins :: InstrOK(c, ins) <==> InstrOK(Narrow(c), ins);
  }

  lemma IssueOneSame(c: Config, s: State, i: nat)
    requires CanIssue(c, s, i)
    ensures CanIssue(Narrow(c), s, i) && IssueOne(Narrow(c), s, i) == IssueOne(c, s, i)
  {
    NarrowShape(c, s);
    var ins := s.decode[0].ins;
    assert InstrOK(c, ins) && InstrOK(Narrow(c), ins);
    assert Waits(Narrow(c), s.rat, s.rob, ins.readRegs) == Waits(c, s.rat, s.rob, ins.readRegs);
  }

  lemma {:induction false} IssueSame(c: Config, s: State, clock: int, count: nat)
    requires Shape(c, s) && count <= c.issueWidth
    ensures Shape(Narrow(c), s) && Issue(Narrow(c), s, clock, count) == Issue(c, s, clock, count)
    decreases c.issueWidth - count
  {
    hide Shape, TryIssue;
    NarrowShape(c, s);
    if IssueDue(c, s, clock, count) {
      TrySame(c, s);
      IssueSame(c, TryIssue(c, s), clock, count + 1);
    }
  }

  lemma TrySame(c: Config, s: State)
    requires Shape(c, s) && s.decode != []
    ensures Shape(Narrow(c), s) && TryIssue(Narrow(c), s) == TryIssue(c, s)
  {
    NarrowShape(c, s);
    var i := FirstFree(s.rs, 0);
    if i != -1 && |s.live| < c.robSize {
      IssueOneSame(c, s, i);
    }
    hide IssueOne;
  }

  /** A blocked head stays blocked for the rest of the cycle, and behind a dispatched one nothing has aged. */
  lemma {:induction false} TypeSame(c: Config, s: State, t: nat, count: nat)
    requires Shape(c, s) && t < c.types && count < c.dispatchWidth && TailsFresh(s.ready)
    ensures Shape(Narrow(c), s) && DispatchType(c, s, t, count) == DispatchType(Narrow(c), s, t, 0)
    decreases c.dispatchWidth - count
  {
    NarrowShape(c, s);
    if s.ready[t] != [] {
      var u := FirstIdle(s.units[t], 0);
      if s.ready[t][0].cycles >= 1 && u != -1 {
        if !s.rs[s.ready[t][0].rs].mispredicted {
          var s' := DispatchHead(c, s, t, u);
          if s'.ready[t] != [] { assert s'.ready[t][0] == s.ready[t][1]; }
          FreshHeadBlocks(c, s', t, count + 1);
          NarrowShape(c, s');
          FreshHeadBlocks(Narrow(c), s', t, 1);
          assert DispatchHead(Narrow(c), s, t, u) == s';
        }
      } else if count + 1 < c.dispatchWidth {
        TypeSame(c, s, t, count + 1);
      }
    }
  }

  lemma {:induction false} DispatchSame(c: Config, s: State, t: nat)
    requires Shape(c, s) && t <= c.types && TailsFresh(s.ready) && c.dispatchWidth >= 1
    ensures Shape(Narrow(c), s) && Dispatch(Narrow(c), s, t) == Dispatch(c, s, t)
    decreases c.types - t
  {
    hide TailsFresh, Shape;
    NarrowShape(c, s);
    if t < c.types {
      TypeSame(c, s, t, 0);
      OneDispatch(c, s, t, 0);
      DispatchSame(c, DispatchType(c, s, t, 0), t + 1);
    }
  }

  lemma {:induction false} CheckSame(c: Config, s: State, t: nat, u: nat, done: seq<nat>)
    requires Shape(c, s) && t <= c.types && u <= c.units && SlotsOK(c, done)
    ensures Shape(Narrow(c), s) && SlotsOK(Narrow(c), done)
            && Check(Narrow(c), s, t, u, done) == Check(c, s, t, u, done)
    decreases c.types - t, c.units - u
  {
    NarrowShape(c, s);
    if t == c.types {
    } else if u == c.units {
      CheckSame(c, s, t + 1, 0, done);
    } else if Finished(c, t, s.units[t][u]) {
      CheckSame(c, Release(c, s, t, u), t, u + 1, done + [s.units[t][u].robIndex]);
    } else {
      CheckSame(c, s, t, u + 1, done);
    }
  }

  lemma {:induction false} WakeSame(c: Config, s: State, j: nat)
    requires Shape(c, s) && j < c.robSize
    ensures Shape(Narrow(c), s) && Wake(Narrow(c), s, j) == Wake(c, s, j)
    decreases |s.rob[j].dependents|
  {
    NarrowShape(c, s);
    if s.rob[j].dependents != [] {
      assert WakeOne(Narrow(c), s, j) == WakeOne(c, s, j);
      WakeSame(c, WakeOne(c, s, j), j);
    }
  }

  lemma {:induction false} BroadcastSame(c: Config, s: State, done: seq<nat>)
    requires Shape(c, s) && SlotsOK(c, done)
    ensures Shape(Narrow(c), s) && SlotsOK(Narrow(c), done) && Broadcast(Narrow(c), s, done) == Broadcast(c, s, done)
    decreases |done|
  {
    NarrowShape(c, s);
    if done != [] {
      WakeSame(c, MarkExecuted(c, s, done[0]), done[0]);
      BroadcastSame(c, Wake(c, MarkExecuted(c, s, done[0]), done[0]), done[1..]);
    }
  }

  lemma {:induction false} CommitSame(c: Config, s: State, storeRoom: nat -> bool, i: nat)
    requires Shape(c, s) && i <= c.commitWidth
    ensures Shape(Narrow(c), s) && Commit(Narrow(c), s, storeRoom, i) == Commit(c, s, storeRoom, i)
    decreases c.commitWidth - i
  {
    NarrowShape(c, s);
    if i < c.commitWidth {
      if CanRetire(c, s, storeRoom(i)) {
        assert Retire(Narrow(c), s) == Retire(c, s);
        CommitSame(c, Retire(c, s), storeRoom, i + 1);
      } else {
        CommitSame(c, s, storeRoom, i + 1);
      }
    }
  }

  lemma BeforeCommitSame(c: Config, s: State, arrivals: seq<Decoded>, clock: int)
    requires Shape(c, s) && DecodeOK(c, arrivals) && TailsFresh(s.ready)
    ensures Shape(Narrow(c), s) && DecodeOK(Narrow(c), arrivals)
    ensures BeforeCommit(Narrow(c), s, arrivals, clock) == BeforeCommit(c, s, arrivals, clock)
  {
    hide TailsFresh, Shape, Issue, Dispatch, Check, Broadcast;
    var s0 := s.(decode := s.decode + arrivals);
    NarrowDecode(c, arrivals);
    NarrowShape(c, s);
    FetchedShape(c, s, arrivals);
    IssueSame(c, s0, clock, 0);
    IssueKeepsTails(c, s0, clock, 0);
    var s1 := Issue(c, s0, clock, 0);
    DispatchSame(c, s1, 0);
    var s2 := Dispatch(c, s1, 0);
    CheckSame(c, s2, 0, 0, []);
    var (s3, done) := Check(c, s2, 0, 0, []);
    BroadcastSame(c, s3, done);
  }

  lemma StepSame(c: Config, prog: seq<Instr>, s: State, input: Input)
    requires Shape(c, s) && WellFormed(c, prog) && TailsFresh(s.ready)
    ensures WellFormed(Narrow(c), prog) && Shape(Narrow(c), s)
    ensures Step(Narrow(c), prog, s, input) == Step(c, prog, s, input)
  {
    hide TailsFresh, Shape, BeforeCommit, Commit;
    NarrowShape(c, s);
    NarrowProg(c, prog);
    if s.penalty == 0 {
      var arrivals := Arrivals(prog, s.issued + |s.decode|, input.due);
      assert DecodeOK(c, arrivals);
      BeforeCommitSame(c, s, arrivals, input.clock);
      CommitSame(c, BeforeCommit(c, s, arrivals, input.clock), input.storeRoom, 0);
    }
  }

  lemma NarrowProg(c: Config, prog: seq<Instr>)
    ensures WellFormed(c, prog) <==> WellFormed(Narrow(c), prog)
  {
    assert forall ins :: InstrOK(c, ins) <==> InstrOK(Narrow(c), ins);
  }

  /** The configured dispatch width has no effect: for every stream and every environment, a core of any
      dispatch width goes through the states of a core of dispatch width one, history included. */
  lemma {:induction false} DispatchWidthHasNoEffect(c: Config, prog: seq<Instr>, inputs: seq<Input>)
    requires c.Valid() && WellFormed(c, prog)
    ensures WellFormed(c.(dispatchWidth := 1), prog)
    ensures Run(c.(dispatchWidth := 1), prog, inputs) == Run(c, prog, inputs)
  {
    NarrowProg(c, prog);
    assert Narrow(c).Valid();
    if inputs != [] {
      var front := inputs[..|inputs| - 1];
      DispatchWidthHasNoEffect(c, prog, front);
      TailsStayFresh(c, prog, front);
      StepSame(c, prog, Run(c, prog, front), inputs[|inputs| - 1]);
    }
  }
}
