/** A stream of register instructions that has arrived and is due is issued, executed and committed to
    the last instruction within a bound linear in what is in flight and what is still to be issued. */
module OooThroughput {
  import opened OooSpec
  import opened OooInvariant
  import opened OooTheorems
  import opened OooCycle
  import opened OooExact
  import opened OooDrain
  import opened Sums

  // ---------- Issuing raises the potential by a bounded amount ----------

  /** What one more instruction in flight can add. */
  function MostWork(c: Config, x: nat): nat {
    x + c.branchPenalty + 4
  }

  lemma OneIssueRaises(c: Config, s: State, i: nat, x: nat)
    requires CanIssue(c, s, i) && !s.rs[i].valid && LatencyAtMost(c, x)
    ensures Potential(c, IssueOne(c, s, i)) <= Potential(c, s) + MostWork(c, x)
  {
    var s' := IssueOne(c, s, i);
    assert InstrOK(c, s.decode[0].ins);
    StationUpdate(c, s.rs, i, s'.rs[i]);
    hide StationWeights, UnitWeights, Sum, RobOK, RatOK, ReadyOK, DecodeOK, AddDependents;
  }

  lemma TryRaises(c: Config, s: State, x: nat)
    requires Shape(c, s) && s.decode != [] && LatencyAtMost(c, x)
    ensures var s1 := TryIssue(c, s);
            && s1.issued >= s.issued && s1.issued - s.issued <= 1
            && Potential(c, s1) <= Potential(c, s) + (s1.issued - s.issued) * MostWork(c, x)
  {
    hide Potential, MostWork, LatencyAtMost;
    var i := FirstFree(s.rs, 0);
    if i != -1 && |s.live| < c.robSize {
      OneIssueRaises(c, s, i, x);
    }
  }

  lemma {:induction false} IssueRaises(c: Config, s: State, clock: int, count: nat, x: nat)
    requires Shape(c, s) && count <= c.issueWidth && LatencyAtMost(c, x)
    ensures var s1 := Issue(c, s, clock, count);
            s1.issued >= s.issued && Potential(c, s1) <= Potential(c, s) + (s1.issued - s.issued) * MostWork(c, x)
    decreases c.issueWidth - count
  {
    hide Potential, MostWork, Issue, TryIssue, RobOK, RatOK, StationsOK, ReadyOK, DecodeOK, LatencyAtMost;
    IssueUnfolds(c, s, clock, count);
    if IssueDue(c, s, clock, count) {
      var s1 := TryIssue(c, s);
      TryRaises(c, s, x);
      IssueRaises(c, s1, clock, count + 1, x);
      Shares(s1.issued - s.issued, Issue(c, s1, clock, count + 1).issued - s1.issued, MostWork(c, x));
    }
  }

  lemma Shares(a: int, b: int, w: nat)
    ensures a * w + b * w == (a + b) * w
  {
  }

  // ---------- The rest of the cycle lowers it ----------

  /** The cycle from the dispatch stage on. */
  function AfterIssue(c: Config, s1: State, room: nat -> bool): (s': State)
    requires Shape(c, s1)
    ensures Shape(c, s')
  {
    var (k, done) := Check(c, Dispatch(c, s1, 0), 0, 0, []);
    EndCycle(c, Commit(c, Broadcast(c, k, done), room, 0))
  }

  lemma CycleInTwo(c: Config, s: State, arrivals: seq<Decoded>, clock: int, room: nat -> bool)
    requires Shape(c, s) && DecodeOK(c, arrivals) && s.penalty == 0
    ensures Shape(c, Fetch(s, arrivals))
    ensures UpdateCore(c, s, arrivals, clock, room) == AfterIssue(c, Issue(c, Fetch(s, arrivals), clock, 0), room)
  {
    FetchedShape(c, s, arrivals);
    hide Shape, Issue, Dispatch, Check, Broadcast, Commit, EndCycle;
  }

  /** Some queue's head has aged, or a unit is running, or the oldest instruction has executed. */
  ghost predicate CanMove(s: State) {
    || (exists t :: 0 <= t < |s.ready| && AgedHead(s, t))
    || (exists t, u :: Runs(s.units, t, u))
    || (s.live != [] && s.live[0] < |s.rob| && s.rob[s.live[0]].status == 2)
  }

  ghost predicate AgedHead(s: State, t: int) {
    0 <= t < |s.ready| && s.ready[t] != [] && s.ready[t][0].cycles >= 1
  }

  lemma AnnouncedFrame(c: Config, s1: State)
    requires Shape(c, s1)
    ensures var (k, done) := Check(c, Dispatch(c, s1, 0), 0, 0, []); var x := Broadcast(c, k, done);
            && x.live == s1.live && x.committed == s1.committed && x.issued == s1.issued && x.decode == s1.decode
            && s1.log <= x.log
  {
    hide Shape, Dispatch, Check, Broadcast;
  }

  lemma BeforeCommitMoves(c: Config, prog: seq<Instr>, s1: State)
    requires Shape(c, s1) && Inv(c, prog, s1, [], -1)
    ensures var (k, done) := Check(c, Dispatch(c, s1, 0), 0, 0, []); var x := Broadcast(c, k, done);
            && Potential(c, x) <= Potential(c, s1)
            && ((exists t :: 0 <= t < |s1.ready| && AgedHead(s1, t)) || (exists t, u :: Runs(s1.units, t, u)) ==>
                  Potential(c, x) < Potential(c, s1) || exists t, u :: Runs(x.units, t, u))
  {
    hide Inv, Potential, Dispatch, Check, Broadcast, RobOK, RatOK, StationsOK, DecodeOK;
    var t0 := if exists t :: 0 <= t < |s1.ready| && AgedHead(s1, t) then
                var t :| 0 <= t < |s1.ready| && AgedHead(s1, t); t else 0;
    DispatchLowersOrRuns(c, prog, s1, 0, t0);
    var d := Dispatch(c, s1, 0);
    CheckLowers(c, d, 0, 0, []);
    var (k, done) := Check(c, d, 0, 0, []);
    BroadcastKeepsPotential(c, k, done);
  }

  lemma AnnouncedKeeps(c: Config, prog: seq<Instr>, s1: State)
    requires Shape(c, s1) && Inv(c, prog, s1, [], -1)
    ensures var (k, done) := Check(c, Dispatch(c, s1, 0), 0, 0, []); var x := Broadcast(c, k, done);
            Inv(c, prog, x, [], -1) && NoneFinished(c, x.units, c.types, 0)
  {
    hide Inv, Shape, Dispatch, Check, Broadcast, NoneFinished;
    DispatchStage(c, prog, s1, 0);
    NothingChecked(c, Dispatch(c, s1, 0));
    CheckStage(c, prog, Dispatch(c, s1, 0), 0, 0, []);
    var (k, done) := Check(c, Dispatch(c, s1, 0), 0, 0, []);
    BroadcastStage(c, prog, k, done);
  }

  /** The rest of a cycle never raises the potential, and lowers it if anything can move. */
  lemma AfterIssueLowers(c: Config, prog: seq<Instr>, s1: State, room: nat -> bool)
    requires Shape(c, s1) && Inv(c, prog, s1, [], -1) && RegisterOnly(prog, s1)
    ensures Potential(c, AfterIssue(c, s1, room)) <= Potential(c, s1)
    ensures CanMove(s1) ==> Potential(c, AfterIssue(c, s1, room)) < Potential(c, s1)
  {
    hide Inv, Potential, Dispatch, Check, Broadcast, Commit, EndCycle, NoneFinished, RobOK, RatOK, StationsOK, ReadyOK,
         DecodeOK, RegisterOnly, AgedHead;
    var (k, done) := Check(c, Dispatch(c, s1, 0), 0, 0, []);
    var x := Broadcast(c, k, done);
    AnnouncedFrame(c, s1);
    BeforeCommitMoves(c, prog, s1);
    AnnouncedKeeps(c, prog, s1);
    RunningIsShort(c, prog, x);
    CommitLowers(c, x, room, 0);
    var y := Commit(c, x, room, 0);
    AgingLowers(c, y);
    if s1.live != [] && s1.live[0] < |s1.rob| && s1.rob[s1.live[0]].status == 2 {
      OldestRetiresAnyway(c, prog, s1, x, room(0));
    }
  }

  lemma OldestRetiresAnyway(c: Config, prog: seq<Instr>, s: State, x: State, room: bool)
    requires Inv(c, prog, s, [], -1) && Inv(c, prog, x, [], -1) && s.live != [] && RegisterOnly(prog, s)
    requires x.live == s.live && x.committed == s.committed && s.log <= x.log
    requires s.live[0] < |s.rob| && s.rob[s.live[0]].status == 2
    ensures CanRetire(c, x, room)
  {
    OldestRetires(c, prog, s, x);
    assert CanRetire(c, x, false);
  }

  // ---------- A cycle ----------

  lemma OldestStaysExecuted(prog: seq<Instr>, s: State, s1: State)
    requires EntriesInv(prog, s.live, s.rob, s.committed, s.issued) && s.live != []
    requires LogInv(prog, s.live, s.rob, s.committed, s.log) && s.rob[s.live[0]].status == 2
    requires EntriesInv(prog, s1.live, s1.rob, s1.committed, s1.issued)
    requires LogInv(prog, s1.live, s1.rob, s1.committed, s1.log)
    requires s.live <= s1.live && s1.committed == s.committed && s.log <= s1.log
    ensures s1.live != [] && s1.live[0] < |s1.rob| && s1.rob[s1.live[0]].status == 2
  {
    hide LegalLog;
    var e := Executed(s.committed);
    assert Happened(s.live, s.rob, s.committed, e) && e in s.log && e in s1.log;
    assert Happened(s1.live, s1.rob, s1.committed, e);
    assert EntryInv(prog, s1.rob[s1.live[0]], s1.committed + 0);
  }

  lemma MovesOn(s: State, s1: State, n: nat)
    requires Issues(s, s1, n) && OldestMoves(s) && HeadsAged(s.ready) && s.rob[s.live[0]].status != 2
    ensures CanMove(s1)
  {
    SomethingMoves(s);
    if t :| 0 <= t < |s.ready| && s.ready[t] != [] {
      assert Queues(s.ready[t], s1.ready[t]);
      assert s1.ready[t][0] == s.ready[t][0];
      assert AgedHead(s1, t);
    }
    hide OldestMoves;
  }

  /** While instructions are in flight something can move after the issue stage. */
  lemma InFlightMoves(c: Config, prog: seq<Instr>, s: State, s1: State, n: nat)
    requires Inv(c, prog, s, [], -1) && Inv(c, prog, s1, [], -1) && HeadsAged(s.ready) && s.live != []
    requires Issues(s, s1, n)
    ensures CanMove(s1)
  {
    hide EntriesInv, StationsInv, StationedInv, ReadyInv, RunningInv, LogInv, Issues, HeadsAged, CanMove, OldestMoves,
         Shape,
         UnitsInv, DependentsInv, RatInv, DecodeInv, PendingInv, WellFormed;
    OldestMovesOn(prog, s);
    AtOldest(s);
    if s.rob[s.live[0]].status == 2 {
      IssuesFrame(s, s1, n);
      OldestStaysExecuted(prog, s, s1);
      ExecutedMoves(s1);
    } else {
      MovesOn(s, s1, n);
    }
  }

  lemma AtOldest(s: State)
    requires OldestMoves(s)
    ensures s.live != [] && s.live[0] < |s.rob|
  {
  }

  lemma IssuesFrame(s: State, s1: State, n: nat)
    requires Issues(s, s1, n)
    ensures s.live <= s1.live && |s1.live| == |s.live| + n && s1.committed == s.committed && s.log <= s1.log
    ensures n <= |s.decode| && s1.decode == s.decode[n..] && s1.issued == s.issued + n && s1.penalty == s.penalty
  {
  }

  lemma ExecutedMoves(s1: State)
    requires s1.live != [] && s1.live[0] < |s1.rob| && s1.rob[s1.live[0]].status == 2
    ensures CanMove(s1)
  {
  }

  /** A rest of the decode buffer. */
  ghost predicate Shortened(decode: seq<Decoded>, decode': seq<Decoded>) {
    exists n :: 0 <= n <= |decode| && decode' == decode[n..]
  }

  /** With nothing in flight all stations are free. */
  lemma NothingInFlight(c: Config, prog: seq<Instr>, s: State)
    requires Inv(c, prog, s, [], -1) && s.live == []
    ensures FreeCount(s.rs) > 0
  {
    hide FreeCount;
    FreeSome(s.rs);
    assert StationInv(prog, s.live, s.rob, s.committed, -1, s.rs[0]);
  }

  /** What is in flight and what is still to be issued, weighed. */
  ghost function Load(c: Config, s: State, x: nat): nat
    requires |c.latency| == c.types == |s.units|
  {
    Potential(c, s) + |s.decode| * (MostWork(c, x) + 1)
  }

  /** The whole stream has arrived, it is register-only, and what has not been issued is due. */
  ghost predicate Arrived(prog: seq<Instr>, s: State, clock: int) {
    && s.issued + |s.decode| == |prog|
    && (forall k :: 0 <= k < |s.decode| ==> s.decode[k].completeCycle <= clock)
  }

  ghost predicate Stores(prog: seq<Instr>) {
    exists n :: 0 <= n < |prog| && prog[n].memWrite != 0
  }

  lemma {:induction false} AllDue(decode: seq<Decoded>, clock: int)
    requires forall k :: 0 <= k < |decode| ==> decode[k].completeCycle <= clock
    ensures DuePrefix(decode, clock) == |decode|
    decreases |decode|
  {
    if decode != [] {
      AllDue(decode[1..], clock);
    }
  }

  lemma LoadDrops(d: nat, n: nat, w: nat, p: nat, p1: nat, p': nat)
    requires n <= d && p1 <= p + n * w && p' <= p1 && (n >= 1 || p' < p1)
    ensures p' + (d - n) * (w + 1) < p + d * (w + 1)
  {
    assert (d - n) * (w + 1) == d * (w + 1) - n * (w + 1);
    assert n * (w + 1) == n * w + n;
  }

  lemma NothingArrives(prog: seq<Instr>, s: State, due: seq<int>)
    requires s.issued + |s.decode| == |prog|
    ensures Arrivals(prog, s.issued + |s.decode|, due) == [] && Fetch(s, []) == s
  {
    assert s.decode + [] == s.decode;
  }

  lemma AfterIssueFrame(c: Config, s1: State, room: nat -> bool)
    requires Shape(c, s1)
    ensures AfterIssue(c, s1, room).issued == s1.issued && AfterIssue(c, s1, room).decode == s1.decode
  {
    hide Shape, Dispatch, Check, Broadcast, Commit;
  }

  lemma NoStores(prog: seq<Instr>, s: State)
    requires !Stores(prog)
    ensures RegisterOnly(prog, s)
  {
  }

  /** An unstalled cycle lowers the load while anything is in flight or to be issued. */
  lemma UnstalledLowers(c: Config, prog: seq<Instr>, s: State, input: Input, x: nat)
    requires Shape(c, s) && WellFormed(c, prog) && Inv(c, prog, s, [], -1) && HeadsAged(s.ready)
    requires c.issueWidth >= 1 && LatencyAtMost(c, x) && !Stores(prog) && Arrived(prog, s, input.clock)
    requires s.penalty == 0 && (s.live != [] || s.decode != [])
    ensures var s' := Step(c, prog, s, input);
            Load(c, s', x) < Load(c, s, x) && s'.issued + |s'.decode| == |prog|
    ensures var s' := Step(c, prog, s, input); Shortened(s.decode, s'.decode)
  {
    hide Inv, Shape, HeadsAged, Potential, Issue, AfterIssue, MostWork, Issues, FreeCount, CanMove, RegisterOnly,
         LatencyAtMost,
         UpdateCore, IssuesLimit, Stores;
    NothingArrives(prog, s, input.due);
    NoArrivals(c);
    CycleInTwo(c, s, [], input.clock, input.storeRoom);
    var s1 := Issue(c, s, input.clock, 0);
    var n := IssuesSome(c, prog, s, input.clock);
    IssuesFrame(s, s1, n);
    IssueRaises(c, s, input.clock, 0, x);
    IssueStage(c, prog, s, input.clock, 0);
    NoStores(prog, s1);
    AfterIssueLowers(c, prog, s1, input.storeRoom);
    AfterIssueFrame(c, s1, input.storeRoom);
    if s.live != [] {
      InFlightMoves(c, prog, s, s1, n);
    }
    var s' := AfterIssue(c, s1, input.storeRoom);
    TypesFit(c, s);
    TypesFit(c, s1);
    TypesFit(c, s');
    LoadDrops(|s.decode|, n, MostWork(c, x), Potential(c, s), Potential(c, s1), Potential(c, s'));
  }

  lemma NoArrivals(c: Config)
    ensures DecodeOK(c, [])
  {
  }

  lemma TypesFit(c: Config, s: State)
    requires Shape(c, s)
    ensures |c.latency| == c.types == |s.units|
  {
  }

  /** With nothing in flight something is issued. */
  lemma IssuesSome(c: Config, prog: seq<Instr>, s: State, clock: int) returns (n: nat)
    requires Shape(c, s) && Inv(c, prog, s, [], -1) && Arrived(prog, s, clock) && c.issueWidth >= 1
    ensures Issues(s, Issue(c, s, clock, 0), n)
    ensures s.live == [] && s.decode != [] ==> n >= 1
  {
    hide Inv, Issue, Issues, FreeCount, RobOK, RatOK, StationsOK, ReadyOK, UnitsOK, DecodeOK;
    IssueCount(c, s, clock, 0);
    n := IssueLimit(c, s, clock, c.issueWidth);
    AllDue(s.decode, clock);
    if s.live == [] {
      NothingInFlight(c, prog, s);
    }
  }

  lemma StalledLowers(c: Config, s: State, x: nat)
    requires Shape(c, s) && s.penalty > 0
    ensures Load(c, s.(penalty := s.penalty - 1), x) < Load(c, s, x)
  {
    hide StationWeights, UnitWeights, Sum, MostWork;
  }

  /** Every cycle lowers the load while anything is in flight or to be issued. */
  lemma LoadLowers(c: Config, prog: seq<Instr>, s: State, input: Input, x: nat)
    requires Shape(c, s) && WellFormed(c, prog) && Inv(c, prog, s, [], -1) && HeadsAged(s.ready)
    requires c.issueWidth >= 1 && LatencyAtMost(c, x) && !Stores(prog) && Arrived(prog, s, input.clock)
    requires s.live != [] || s.decode != []
    ensures var s' := Step(c, prog, s, input);
            && Load(c, s', x) < Load(c, s, x) && s'.issued + |s'.decode| == |prog|
            && Shortened(s.decode, s'.decode)
  {
    hide Inv, Shape, HeadsAged, Load, LatencyAtMost, Stores;
    if s.penalty == 0 {
      UnstalledLowers(c, prog, s, input, x);
    } else {
      StalledLowers(c, s, x);
      ShortenedNone(s.decode);
    }
  }

  // ---------- The bound ----------

  /** Everything due in the state is due at every clock of the inputs. */
  ghost predicate DueFor(s: State, inputs: seq<Input>) {
    forall i, k :: 0 <= i < |inputs| && 0 <= k < |s.decode| ==> s.decode[k].completeCycle <= inputs[i].clock
  }

  /** Nothing in flight, nothing to be issued: the whole stream has committed, and it stays so. */
  lemma AllCommitted(c: Config, prog: seq<Instr>, s: State)
    requires Inv(c, prog, s, [], -1) && s.issued + |s.decode| == |prog| && s.live == [] && s.decode == []
    ensures s.committed == |prog|
  {
  }

  lemma CommittedStays(c: Config, prog: seq<Instr>, inputs: seq<Input>, input: Input)
    requires c.Valid() && WellFormed(c, prog)
    requires Run(c, prog, inputs).committed == |prog|
    ensures Run(c, prog, inputs + [input]).committed == |prog|
  {
    hide Run, Inv;
    CycleCommits(c, prog, inputs, input);
    Reachable(c, prog, inputs + [input]);
    IssuedAtMost(c, prog, Run(c, prog, inputs + [input]));
  }

  lemma IssuedAtMost(c: Config, prog: seq<Instr>, s: State)
    requires Inv(c, prog, s, [], -1)
    ensures s.committed <= s.issued <= |prog|
  {
  }

  /** After so many more cycles either everything has committed or the load has dropped that much. */
  ghost predicate Dropped(c: Config, prog: seq<Instr>, s: State, s': State, more: seq<Input>, x: nat)
    requires Shape(c, s) && Shape(c, s')
  {
    || s'.committed == |prog|
    || (&& Load(c, s', x) + |more| <= Load(c, s, x) && s'.issued + |s'.decode| == |prog|
        && Shortened(s.decode, s'.decode))
  }

  lemma {:induction false} LoadInRun(c: Config, prog: seq<Instr>, inputs: seq<Input>, more: seq<Input>, x: nat)
    requires c.Valid() && WellFormed(c, prog) && c.issueWidth >= 1 && LatencyAtMost(c, x) && !Stores(prog)
    requires var s := Run(c, prog, inputs); s.issued + |s.decode| == |prog| && DueFor(s, more)
    ensures Dropped(c, prog, Run(c, prog, inputs), Run(c, prog, inputs + more), more, x)
    decreases |more|
  {
    hide Run, Inv, HeadsAged, Load, Stores, LatencyAtMost, Dropped, DueFor;
    if more == [] {
      assert inputs + more == inputs;
      DropsNothing(c, prog, Run(c, prog, inputs), x);
    } else {
      var last := |more| - 1;
      var front := more[..last];
      assert inputs + more == (inputs + front) + [more[last]];
      DueForFront(Run(c, prog, inputs), more);
      LoadInRun(c, prog, inputs, front, x);
      Reachable(c, prog, inputs + front);
      assert more == front + [more[last]];
      DropsInCycle(c, prog, inputs, front, more[last], x);
    }
  }

  lemma ShortenedNone(decode: seq<Decoded>)
    ensures Shortened(decode, decode)
  {
    assert decode == decode[0..];
  }

  lemma ShortenedTwice(a: seq<Decoded>, b: seq<Decoded>, d: seq<Decoded>)
    requires Shortened(a, b) && Shortened(b, d)
    ensures Shortened(a, d)
  {
    var n :| 0 <= n <= |a| && b == a[n..];
    var m :| 0 <= m <= |b| && d == b[m..];
    assert d == a[n + m..];
  }

  lemma DropsNothing(c: Config, prog: seq<Instr>, s: State, x: nat)
    requires Shape(c, s) && s.issued + |s.decode| == |prog|
    ensures Dropped(c, prog, s, s, [], x)
  {
    ShortenedNone(s.decode);
  }

  lemma DueForFront(s: State, more: seq<Input>)
    requires more != [] && DueFor(s, more)
    ensures DueFor(s, more[..|more| - 1])
  {
  }

  lemma DropsInCycle(c: Config, prog: seq<Instr>, inputs: seq<Input>, front: seq<Input>, input: Input, x: nat)
    requires c.Valid() && WellFormed(c, prog) && c.issueWidth >= 1 && LatencyAtMost(c, x) && !Stores(prog)
    requires DueFor(Run(c, prog, inputs), front + [input])
    requires Dropped(c, prog, Run(c, prog, inputs), Run(c, prog, inputs + front), front, x)
    ensures Dropped(c, prog, Run(c, prog, inputs), Run(c, prog, inputs + front + [input]), front + [input], x)
  {
    hide Run, Inv, HeadsAged, Load, Stores, LatencyAtMost, DueFor, Shape, Step, Shortened;
    var s, s1 := Run(c, prog, inputs), Run(c, prog, inputs + front);
    Reachable(c, prog, inputs + front);
    if s1.committed == |prog| {
      CommittedStays(c, prog, inputs + front, input);
    } else if s1.live == [] && s1.decode == [] {
      AllCommitted(c, prog, s1);
    } else {
      ArrivedThen(prog, s, s1, front, input);
      RunAdds(c, prog, inputs + front, input);
      LoadLowers(c, prog, s1, input, x);
      ShortenedTwice(s.decode, s1.decode, Run(c, prog, inputs + front + [input]).decode);
    }
  }

  lemma ArrivedThen(prog: seq<Instr>, s: State, s1: State, front: seq<Input>, input: Input)
    requires Shortened(s.decode, s1.decode) && DueFor(s, front + [input])
    requires s1.issued + |s1.decode| == |prog|
    ensures Arrived(prog, s1, input.clock)
  {
    assert (front + [input])[|front|] == input;
  }

  /** Throughput: in every run of a stream of register instructions, once the whole stream has arrived and
      is due, all of it has committed after `penalty` plus `latency + 3` cycles per instruction in flight,
      `branchPenalty + 1` per flagged branch and `latency + branchPenalty + 5` per instruction not issued
      yet, whatever the environment does. */
  lemma StreamCommits(c: Config, prog: seq<Instr>, inputs: seq<Input>, more: seq<Input>, x: nat)
    requires c.Valid() && WellFormed(c, prog) && c.issueWidth >= 1 && LatencyAtMost(c, x)
    requires forall n :: 0 <= n < |prog| ==> prog[n].memWrite == 0
    requires var s := Run(c, prog, inputs);
             && s.issued + |s.decode| == |prog| && DueFor(s, more)
             && |more| > s.penalty + |s.live| * (x + 3) + |Flagged(s.rs)| * (c.branchPenalty + 1)
                         + |s.decode| * (x + c.branchPenalty + 5)
    ensures Run(c, prog, inputs + more).committed == |prog|
  {
    hide Run, Inv, Potential, LatencyAtMost, DueFor, Flagged;
    Reachable(c, prog, inputs);
    PotentialBound(c, prog, Run(c, prog, inputs), x);
    LoadInRun(c, prog, inputs, more, x);
  }
}
