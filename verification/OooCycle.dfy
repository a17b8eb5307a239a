/** What one cycle of the core does, exactly: how many instructions it issues, which it dispatches and
    executes, how many it commits, and when it charges a mispredicted branch. */
module OooCycle {
  import opened RobRing
  import opened OooSpec
  import opened OooInvariant
  import opened OooDispatch
  import opened OooTheorems
  import opened OooWidth

  function Min(a: int, b: int): int {
    if a < b then a else b
  }

  // ---------- Issue ----------

  /** How many stations are free. */
  function FreeCount(rs: seq<Station>): nat {
    if rs == [] then 0 else FreeCount(rs[..|rs| - 1]) + (if rs[|rs| - 1].valid then 0 else 1)
  }

  /** How many decoded instructions, from the oldest on, are due. */
  function DuePrefix(decode: seq<Decoded>, clock: int): (n: nat)
    ensures n <= |decode| && (forall k :: 0 <= k < n ==> decode[k].completeCycle <= clock)
    ensures n < |decode| ==> decode[n].completeCycle > clock
  {
    if decode == [] || decode[0].completeCycle > clock then 0 else DuePrefix(decode[1..], clock) + 1
  }

  lemma {:induction false} FreeFilled(rs: seq<Station>, i: nat, st: Station)
    requires i < |rs| && !rs[i].valid && st.valid
    ensures FreeCount(rs[i := st]) == FreeCount(rs) - 1
    decreases |rs|
  {
    var n := |rs| - 1;
    if i < n {
      FreeFilled(rs[..n], i, st);
      assert rs[i := st][..n] == rs[..n][i := st];
    } else {
      assert rs[i := st][..n] == rs[..n];
    }
  }

  lemma {:induction false} FreeSome(rs: seq<Station>)
    ensures FreeCount(rs) == 0 <==> forall i :: 0 <= i < |rs| ==> rs[i].valid
    decreases |rs|
  {
    if rs != [] {
      FreeSome(rs[..|rs| - 1]);
      assert forall i :: 0 <= i < |rs| - 1 ==> rs[..|rs| - 1][i] == rs[i];
    }
  }

  /** What issuing leaves alone: the units, the penalty, the stations in use, what is known of the live
      instructions, and the heads of the queues. New queue entries have not aged. */
  ghost predicate Issues(s: State, s': State, n: nat) {
    && n <= |s.decode| && s'.decode == s.decode[n..] && s'.issued == s.issued + n
    && s.live <= s'.live && |s'.live| == |s.live| + n
    && s'.committed == s.committed && s'.units == s.units && s'.penalty == s.penalty
    && |s'.rob| == |s.rob| && |s'.rs| == |s.rs| && |s'.ready| == |s.ready|
    && (forall i :: 0 <= i < |s.rs| && s.rs[i].valid ==> s'.rs[i] == s.rs[i])
    && (forall t :: 0 <= t < |s.ready| ==> Queues(s.ready[t], s'.ready[t]))
    && s.log <= s'.log && (forall e :: e in s'.log && e !in s.log ==> e.Issued?)
  }

  ghost predicate Queues(q: seq<Ready>, q': seq<Ready>) {
    q <= q' && forall k :: |q| <= k < |q'| ==> q'[k].cycles == 0
  }

  lemma IssuesNone(s: State)
    ensures Issues(s, s, 0)
  {
  }

  lemma IssuesJoin(s: State, s1: State, s2: State, n: nat, m: nat)
    requires Issues(s, s1, n) && Issues(s1, s2, m)
    ensures Issues(s, s2, n + m)
  {
    forall t | 0 <= t < |s.ready| ensures Queues(s.ready[t], s2.ready[t]) {
      assert Queues(s.ready[t], s1.ready[t]) && Queues(s1.ready[t], s2.ready[t]);
    }
  }

  lemma OneIssues(c: Config, s: State, i: nat)
    requires CanIssue(c, s, i) && !s.rs[i].valid
    ensures Issues(s, IssueOne(c, s, i), 1)
    ensures FreeCount(IssueOne(c, s, i).rs) == FreeCount(s.rs) - 1
  {
    var s' := IssueOne(c, s, i);
    assert InstrOK(c, s.decode[0].ins);
    FreeFilled(s.rs, i, s'.rs[i]);
    hide FreeCount;
    forall t | 0 <= t < |s.ready| ensures Queues(s.ready[t], s'.ready[t]) {
    }
  }

  /** An attempt issues an instruction exactly if a station and a slot are free. */
  lemma TryIssues(c: Config, s: State)
    requires Shape(c, s) && s.decode != []
    ensures var n := if FreeCount(s.rs) > 0 && |s.live| < c.robSize then 1 else 0;
            Issues(s, TryIssue(c, s), n) && FreeCount(TryIssue(c, s).rs) == FreeCount(s.rs) - n
  {
    FreeSome(s.rs);
    var i := FirstFree(s.rs, 0);
    if i != -1 && |s.live| < c.robSize {
      OneIssues(c, s, i);
    } else {
      IssuesNone(s);
    }
    hide IssueOne, Issues;
  }

  /** The least of the remaining attempts, the free stations, the free slots and the instructions due. */
  function IssueLimit(c: Config, s: State, clock: int, attempts: nat): int {
    Min(Min(attempts, FreeCount(s.rs)), Min(c.robSize - |s.live|, DuePrefix(s.decode, clock)))
  }

  /** s' has issued exactly as many instructions more than s. */
  ghost predicate IssuesLimit(c: Config, s: State, s': State, clock: int, attempts: nat) {
    var n := IssueLimit(c, s, clock, attempts);
    n >= 0 && Issues(s, s', n)
  }

  lemma {:induction false} IssueCount(c: Config, s: State, clock: int, count: nat)
    requires Shape(c, s) && count <= c.issueWidth
    ensures IssuesLimit(c, s, Issue(c, s, clock, count), clock, c.issueWidth - count)
    decreases c.issueWidth - count
  {
    hide Shape, Issue, TryIssue, IssuesLimit;
    IssueUnfolds(c, s, clock, count);
    if IssueDue(c, s, clock, count) {
      var s1 := TryIssue(c, s);
      IssueCount(c, s1, clock, count + 1);
      OneTry(c, s, Issue(c, s1, clock, count + 1), clock, c.issueWidth - count);
    } else {
      NoTryLeft(c, s, clock, c.issueWidth - count);
    }
  }

  lemma OneTry(c: Config, s: State, s': State, clock: int, attempts: nat)
    requires Shape(c, s) && attempts >= 1 && s.decode != [] && s.decode[0].completeCycle <= clock
    requires IssuesLimit(c, TryIssue(c, s), s', clock, attempts - 1)
    ensures IssuesLimit(c, s, s', clock, attempts)
  {
    SlotsSuffice(c, s);
    TryIssues(c, s);
    hide Shape, TryIssue, Issues, FreeCount, IssueLimit;
    var s1, n := TryIssue(c, s), if FreeCount(s.rs) > 0 && |s.live| < c.robSize then 1 else 0;
    AfterTry(s, s1, n);
    OneTryLess(c, s, s1, clock, attempts, n);
    IssuesJoin(s, s1, s', n, IssueLimit(c, s1, clock, attempts - 1));
  }

  lemma OneTryLess(c: Config, s: State, s1: State, clock: int, attempts: nat, n: nat)
    requires attempts >= 1 && s.decode != [] && s.decode[0].completeCycle <= clock && |s.live| <= c.robSize
    requires n == if FreeCount(s.rs) > 0 && |s.live| < c.robSize then 1 else 0
    requires FreeCount(s1.rs) == FreeCount(s.rs) - n && |s1.live| == |s.live| + n && s1.decode == s.decode[n..]
    ensures IssueLimit(c, s, clock, attempts) == n + IssueLimit(c, s1, clock, attempts - 1) >= 0
  {
    hide FreeCount;
    assert s.decode[0..] == s.decode;
  }

  lemma NoTryLeft(c: Config, s: State, clock: int, attempts: nat)
    requires Shape(c, s)
    requires attempts == 0 || s.decode == [] || s.decode[0].completeCycle > clock
    ensures IssuesLimit(c, s, s, clock, attempts)
  {
    SlotsSuffice(c, s);
    IssuesNone(s);
    hide Shape, Issues;
  }

  lemma AfterTry(s: State, s1: State, n: nat)
    requires Issues(s, s1, n)
    ensures n <= |s.decode| && s1.decode == s.decode[n..] && |s1.live| == |s.live| + n
  {
  }

  lemma SlotsSuffice(c: Config, s: State)
    requires Shape(c, s)
    ensures |s.live| <= c.robSize
  {
  }

  // ---------- Dispatch ----------

  ghost predicate HasIdle(units: seq<Unit>) {
    exists u :: 0 <= u < |units| && !units[u].busy
  }

  /** The head of queue t has waited and there is a unit for it. */
  ghost predicate Eligible(s: State, t: int) {
    && 0 <= t < |s.ready| && t < |s.units| && s.ready[t] != [] && s.ready[t][0].cycles >= 1 && HasIdle(s.units[t])
    && s.ready[t][0].rs < |s.rs|
  }

  /** Instruction n is at the head of queue t, eligible, and not a flagged branch. */
  ghost predicate Sends(s: State, t: int, n: nat) {
    Eligible(s, t) && !s.rs[s.ready[t][0].rs].mispredicted && s.rs[s.ready[t][0].rs].insId == n
  }

  /** A flagged branch is at the head of queue t, eligible. */
  ghost predicate Charges(s: State, t: int) {
    Eligible(s, t) && s.rs[s.ready[t][0].rs].mispredicted
  }

  lemma IdleIff(units: seq<Unit>)
    ensures FirstIdle(units, 0) == -1 <==> !HasIdle(units)
  {
  }

  lemma {:induction false} IneligibleWaits(c: Config, s: State, t: nat, count: nat)
    requires Shape(c, s) && t < c.types && count <= c.dispatchWidth && !Eligible(s, t)
    ensures DispatchType(c, s, t, count) == s
    decreases c.dispatchWidth - count
  {
    IdleIff(s.units[t]);
    hide HasIdle, RobOK, RatOK, DecodeOK, StationsOK;
    if count < c.dispatchWidth && s.ready[t] != [] {
      IneligibleWaits(c, s, t, count + 1);
    }
  }

  /** One type's turn, whatever the dispatch width. */
  ghost predicate Turn(s: State, s': State, t: nat, penalty: nat)
    requires Eligible(s, t)
  {
    var i := s.ready[t][0].rs;
    if s.rs[i].mispredicted then
      s' == s.(penalty := penalty, rs := s.rs[i := s.rs[i].(mispredicted := false)])
    else
      var j := s.rs[i].robIndex;
      && j < |s.rob|
      && exists u :: 0 <= u < |s.units[t]| && !s.units[t][u].busy
           && s' == s.(ready := s.ready[t := s.ready[t][1..]],
                       units := s.units[t := s.units[t][u := Unit(true, j, i, 0)]],
                       rs := s.rs[i := s.rs[i].(valid := false)],
                       rob := s.rob[j := s.rob[j].(status := 1)],
                       log := s.log + [Dispatched(s.rob[j].insId)])
  }

  lemma TakesTurn(c: Config, s: State, t: nat)
    requires Shape(c, s) && t < c.types && TailsFresh(s.ready) && Eligible(s, t)
    ensures Turn(s, DispatchType(c, s, t, 0), t, c.branchPenalty)
  {
    IdleIff(s.units[t]);
    var u := FirstIdle(s.units[t], 0);
    if !s.rs[s.ready[t][0].rs].mispredicted {
      var s' := DispatchHead(c, s, t, u);
      if s'.ready[t] != [] { assert s'.ready[t][0] == s.ready[t][1]; }
      FreshHeadBlocks(c, s', t, 1);
      assert DispatchType(c, s, t, 0) == s';
    }
    hide HasIdle, RobOK, RatOK, DecodeOK, TailsFresh;
  }

  /** What the turns of the types from `from` on amount to. */
  ghost predicate Dispatches(s: State, s': State, from: nat, penalty: nat) {
    && s.log <= s'.log
    && (forall e :: e in s'.log <==> e in s.log || SentFrom(s, from, e))
    && s'.penalty == (if ChargedFrom(s, from) then penalty else s.penalty)
    && SameIds(s, s') && UnitsGrow(s.units, s'.units)
  }

  ghost predicate SentFrom(s: State, from: nat, e: Event) {
    e.Dispatched? && exists t :: from <= t && Sends(s, t, e.n)
  }

  ghost predicate ChargedFrom(s: State, from: nat) {
    exists t :: from <= t && Charges(s, t)
  }

  ghost predicate SameIds(s: State, s': State) {
    && s'.live == s.live && s'.committed == s.committed
    && |s'.rob| == |s.rob| && forall j :: 0 <= j < |s.rob| ==> s'.rob[j].insId == s.rob[j].insId
  }

  /** Running units are left alone, and a unit that starts starts from zero. */
  ghost predicate UnitsGrow(units: seq<seq<Unit>>, units': seq<seq<Unit>>) {
    && (forall t, u :: Runs(units, t, u) ==> Runs(units', t, u) && units'[t][u] == units[t][u])
    && (forall t, u :: Runs(units', t, u) && !Runs(units, t, u) ==> units'[t][u].cycles == 0)
  }

  /** The types after t do not notice its turn. */
  ghost predicate OthersKeep(s: State, s': State, t: nat) {
    && (forall t' :: t' != t ==> (Charges(s', t') <==> Charges(s, t')))
    && (forall t', n :: t' != t ==> (Sends(s', t', n) <==> Sends(s, t', n)))
  }

  lemma TurnKeepsOthers(s: State, s': State, t: nat, penalty: nat)
    requires Eligible(s, t) && Turn(s, s', t, penalty) && ReadyInv(s.ready, s.rs)
    ensures OthersKeep(s, s', t)
  {
    var i := s.ready[t][0].rs;
    assert QueuedAt(s.ready, t, 0, i);
    forall t' | t' != t && 0 <= t' < |s.ready| && s.ready[t'] != []
      ensures s.ready[t'][0].rs < |s.rs| && s.ready[t'][0].rs != i
    {
      assert QueuedAt(s.ready, t', 0, s.ready[t'][0].rs);
    }
    hide HasIdle, ReadyInv, QueuedAt;
  }

  lemma TurnUnits(s: State, s': State, t: nat, penalty: nat)
    requires Eligible(s, t) && Turn(s, s', t, penalty)
    ensures UnitsGrow(s.units, s'.units) && SameIds(s, s')
  {
    hide HasIdle;
  }

  lemma OneTurn(c: Config, prog: seq<Instr>, s: State, t: nat)
    requires Shape(c, s) && Inv(c, prog, s, [], -1) && t < c.types && TailsFresh(s.ready)
    ensures var s' := DispatchType(c, s, t, 0);
            && OthersKeep(s, s', t) && UnitsGrow(s.units, s'.units) && SameIds(s, s')
            && s'.penalty == (if Charges(s, t) then c.branchPenalty else s.penalty)
            && s.log <= s'.log
            && forall e :: e in s'.log <==> e in s.log || (e.Dispatched? && Sends(s, t, e.n))
  {
    if Eligible(s, t) {
      TakesTurn(c, s, t);
      var s' := DispatchType(c, s, t, 0);
      TurnKeepsOthers(s, s', t, c.branchPenalty);
      TurnUnits(s, s', t, c.branchPenalty);
      if Sends(s, t, s.rs[s.ready[t][0].rs].insId) {
        HeadIsItsInstr(c, prog, s, t);
      }
    } else {
      IneligibleWaits(c, s, t, 0);
    }
    hide Inv, Shape, HasIdle, OthersKeep, UnitsGrow, SameIds, DispatchType, TailsFresh;
  }

  lemma HeadIsItsInstr(c: Config, prog: seq<Instr>, s: State, t: nat)
    requires Shape(c, s) && Inv(c, prog, s, [], -1) && t < c.types && Eligible(s, t)
    ensures var i := s.ready[t][0].rs; s.rs[i].robIndex < |s.rob| && s.rob[s.rs[i].robIndex].insId == s.rs[i].insId
  {
    var u :| 0 <= u < |s.units[t]| && !s.units[t][u].busy;
    HeadIsIssued(c, prog, s, t, u);
  }

  lemma GrowJoins(units: seq<seq<Unit>>, units1: seq<seq<Unit>>, units2: seq<seq<Unit>>)
    requires UnitsGrow(units, units1) && UnitsGrow(units1, units2)
    ensures UnitsGrow(units, units2)
  {
  }

  lemma TurnJoins(s: State, s1: State, s2: State, t: nat, penalty: nat)
    requires OthersKeep(s, s1, t) && UnitsGrow(s.units, s1.units) && SameIds(s, s1)
    requires s1.penalty == (if Charges(s, t) then penalty else s.penalty) && s.log <= s1.log
    requires forall e :: e in s1.log <==> e in s.log || (e.Dispatched? && Sends(s, t, e.n))
    requires Dispatches(s1, s2, t + 1, penalty)
    ensures Dispatches(s, s2, t, penalty)
  {
    GrowJoins(s.units, s1.units, s2.units);
    forall e ensures SentFrom(s, t, e) <==> (e.Dispatched? && Sends(s, t, e.n)) || SentFrom(s1, t + 1, e) {
      SentSplits(s, s1, t, e);
    }
    ChargedSplits(s, s1, t);
    hide UnitsGrow, Sends, Charges, OthersKeep, SentFrom, ChargedFrom;
  }

  lemma SentSplits(s: State, s1: State, t: nat, e: Event)
    requires OthersKeep(s, s1, t)
    ensures SentFrom(s, t, e) <==> (e.Dispatched? && Sends(s, t, e.n)) || SentFrom(s1, t + 1, e)
  {
    hide Sends, Charges;
  }

  lemma ChargedSplits(s: State, s1: State, t: nat)
    requires OthersKeep(s, s1, t)
    ensures ChargedFrom(s, t) <==> Charges(s, t) || ChargedFrom(s1, t + 1)
  {
    hide Sends, Charges;
  }

  /** The dispatch stage dispatches every eligible head that is no flagged branch, and nothing else; a
      flagged branch that is eligible charges its penalty. */
  lemma {:induction false} DispatchesExactly(c: Config, prog: seq<Instr>, s: State, t: nat)
    requires Shape(c, s) && Inv(c, prog, s, [], -1) && t <= c.types && TailsFresh(s.ready)
    ensures Dispatches(s, Dispatch(c, s, t), t, c.branchPenalty)
    decreases c.types - t
  {
    hide Inv, DispatchType, TailsFresh, Dispatches, OthersKeep, UnitsGrow, SameIds, Sends, Charges;
    if t == c.types {
      NoTypesLeft(c, s);
    } else {
      var s1 := DispatchType(c, s, t, 0);
      OneTurn(c, prog, s, t);
      OneDispatch(c, s, t, 0);
      DispatchTypeStage(c, prog, s, t, 0);
      DispatchesExactly(c, prog, s1, t + 1);
      TurnJoins(s, s1, Dispatch(c, s1, t + 1), t, c.branchPenalty);
    }
  }

  lemma NoTypesLeft(c: Config, s: State)
    requires Shape(c, s)
    ensures Dispatches(s, s, c.types, c.branchPenalty)
  {
  }

  // ---------- Execution ----------

  /** A unit that has worked for its type's latency. */
  ghost predicate Finishes(lat: seq<nat>, units: seq<seq<Unit>>, t: int, u: int) {
    Runs(units, t, u) && t < |lat| && units[t][u].cycles == lat[t]
  }

  /** Unit (t', u') comes no earlier than (t, u) in the order of the check. */
  predicate NotBefore(t: int, u: int, t': int, u': int) {
    t' > t || (t' == t && u' >= u)
  }

  /** The finished units from (t, u) on are released, the others keep running. */
  ghost predicate Releases(lat: seq<nat>, units: seq<seq<Unit>>, units': seq<seq<Unit>>, t: int, u: int) {
    && (forall t', u' :: Runs(units', t', u') ==> Runs(units, t', u') && units'[t'][u'] == units[t'][u'])
    && (forall t', u' :: Runs(units, t', u') ==>
          (Runs(units', t', u') <==> !(NotBefore(t, u, t', u') && Finishes(lat, units, t', u'))))
  }

  ghost predicate FinishesSlot(lat: seq<nat>, units: seq<seq<Unit>>, t: int, u: int, j: nat) {
    exists t', u' :: NotBefore(t, u, t', u') && Finishes(lat, units, t', u') && units[t'][u'].robIndex == j
  }

  lemma SkipsUnit(lat: seq<nat>, units: seq<seq<Unit>>, units': seq<seq<Unit>>, t: nat, u: nat)
    requires !Finishes(lat, units, t, u) && Releases(lat, units, units', t, u + 1)
    ensures Releases(lat, units, units', t, u)
    ensures forall j :: FinishesSlot(lat, units, t, u, j) <==> FinishesSlot(lat, units, t, u + 1, j)
  {
  }

  lemma SkipsType(lat: seq<nat>, units: seq<seq<Unit>>, units': seq<seq<Unit>>, t: nat, u: nat)
    requires t < |units| && u >= |units[t]| && Releases(lat, units, units', t + 1, 0)
    ensures Releases(lat, units, units', t, u)
    ensures forall j :: FinishesSlot(lat, units, t, u, j) <==> FinishesSlot(lat, units, t + 1, 0, j)
  {
    forall t', u' | Runs(units, t', u') ensures NotBefore(t, u, t', u') <==> NotBefore(t + 1, 0, t', u') {
    }
    hide NotBefore;
  }

  lemma ReleasesUnit(lat: seq<nat>, units: seq<seq<Unit>>, units1: seq<seq<Unit>>, units2: seq<seq<Unit>>, t: nat,
                     u: nat)
    requires Finishes(lat, units, t, u) && units1 == units[t := units[t][u := units[t][u].(busy := false)]]
    requires Releases(lat, units1, units2, t, u + 1)
    ensures Releases(lat, units, units2, t, u)
    ensures forall j :: FinishesSlot(lat, units, t, u, j)
                        <==> FinishesSlot(lat, units1, t, u + 1, j) || j == units[t][u].robIndex
  {
    forall t', u' ensures Runs(units1, t', u') <==> Runs(units, t', u') && !(t' == t && u' == u) {
    }
    forall t', u' | Runs(units1, t', u') ensures units1[t'][u'] == units[t'][u'] {
    }
    forall j ensures FinishesSlot(lat, units, t, u, j)
                     <==> FinishesSlot(lat, units1, t, u + 1, j) || j == units[t][u].robIndex
    {
      if FinishesSlot(lat, units, t, u, j) && j != units[t][u].robIndex {
        var t', u' :| NotBefore(t, u, t', u') && Finishes(lat, units, t', u') && units[t'][u'].robIndex == j;
        assert Finishes(lat, units1, t', u');
      }
      if FinishesSlot(lat, units1, t, u + 1, j) {
        var t', u' :| NotBefore(t, u + 1, t', u') && Finishes(lat, units1, t', u') && units1[t'][u'].robIndex == j;
        assert Finishes(lat, units, t', u');
      }
      assert NotBefore(t, u, t, u);
    }
  }

  /** The check finds every finished unit, and no other. */
  ghost predicate ChecksExactly(c: Config, s: State, t: nat, u: nat, done: seq<nat>, s': State, done': seq<nat>) {
    && Releases(c.latency, s.units, s'.units, t, u) && s' == s.(units := s'.units)
    && forall j :: j in done' <==> j in done || FinishesSlot(c.latency, s.units, t, u, j)
  }

  lemma {:induction false} CheckIsExact(c: Config, s: State, t: nat, u: nat, done: seq<nat>)
    requires Shape(c, s) && t <= c.types && u <= c.units && SlotsOK(c, done)
    ensures ChecksExactly(c, s, t, u, done, Check(c, s, t, u, done).0, Check(c, s, t, u, done).1)
    decreases c.types - t, c.units - u
  {
    hide Releases, FinishesSlot, RobOK, RatOK, StationsOK, ReadyOK, DecodeOK;
    if t == c.types {
      NothingFinishes(c.latency, s.units, t, u);
    } else if u == c.units {
      CheckIsExact(c, s, t + 1, 0, done);
      SkipsType(c.latency, s.units, Check(c, s, t + 1, 0, done).0.units, t, u);
    } else if Finished(c, t, s.units[t][u]) {
      var s1 := Release(c, s, t, u);
      CheckIsExact(c, s1, t, u + 1, done + [s.units[t][u].robIndex]);
      ReleasesUnit(c.latency, s.units, s1.units, Check(c, s1, t, u + 1, done + [s.units[t][u].robIndex]).0.units, t, u);
    } else {
      CheckIsExact(c, s, t, u + 1, done);
      SkipsUnit(c.latency, s.units, Check(c, s, t, u + 1, done).0.units, t, u);
    }
  }

  lemma NothingFinishes(lat: seq<nat>, units: seq<seq<Unit>>, t: nat, u: nat)
    requires t >= |units|
    ensures Releases(lat, units, units, t, u) && forall j :: !FinishesSlot(lat, units, t, u, j)
  {
  }

  /** Some slot of the list holds instruction n. */
  ghost predicate Holding(s: State, done: seq<nat>, e: Event) {
    e.Executed? && exists k :: 0 <= k < |done| && done[k] < |s.rob| && s.rob[done[k]].insId == e.n
  }

  lemma {:induction false} WakeKeepsIds(c: Config, s: State, j: nat)
    requires Shape(c, s) && j < c.robSize
    ensures SameIds(s, Wake(c, s, j)) && Wake(c, s, j).log == s.log
    decreases |s.rob[j].dependents|
  {
    hide Cleared, ClearFirst;
    if s.rob[j].dependents != [] {
      WakeKeepsIds(c, WakeOne(c, s, j), j);
    }
  }

  ghost predicate Announces(s: State, s': State, done: seq<nat>) {
    SameIds(s, s') && forall e :: e in s'.log <==> e in s.log || Holding(s, done, e)
  }

  /** The broadcast logs the execution of exactly the instructions in the announced slots. */
  lemma {:induction false} BroadcastIsExact(c: Config, s: State, done: seq<nat>)
    requires Shape(c, s) && SlotsOK(c, done)
    ensures Announces(s, Broadcast(c, s, done), done)
    decreases |done|
  {
    hide Announces, Broadcast, Wake, MarkExecuted, RobOK, RatOK, StationsOK, ReadyOK, UnitsOK, DecodeOK;
    BroadcastUnfolds(c, s, done);
    if done == [] {
      AnnouncesNone(s);
    } else {
      var s2 := Wake(c, MarkExecuted(c, s, done[0]), done[0]);
      BroadcastIsExact(c, s2, done[1..]);
      AnnouncesOne(c, s, Broadcast(c, s2, done[1..]), done);
    }
  }

  lemma BroadcastUnfolds(c: Config, s: State, done: seq<nat>)
    requires Shape(c, s) && SlotsOK(c, done)
    ensures Broadcast(c, s, done)
            == if done == [] then s
               else Broadcast(c, Wake(c, MarkExecuted(c, s, done[0]), done[0]), done[1..])
  {
    hide Wake, MarkExecuted, RobOK, RatOK, StationsOK, ReadyOK, UnitsOK, DecodeOK;
  }

  lemma AnnouncesNone(s: State)
    ensures Announces(s, s, [])
  {
  }

  lemma AnnouncesOne(c: Config, s: State, s': State, done: seq<nat>)
    requires Shape(c, s) && SlotsOK(c, done) && done != []
    requires Announces(Wake(c, MarkExecuted(c, s, done[0]), done[0]), s', done[1..])
    ensures Announces(s, s', done)
  {
    var s1 := MarkExecuted(c, s, done[0]);
    WakeKeepsIds(c, s1, done[0]);
    var s2 := Wake(c, s1, done[0]);
    forall e ensures Holding(s, done, e) <==> e == Executed(s.rob[done[0]].insId) || Holding(s2, done[1..], e) {
      HoldingSplits(s, s2, done, e);
    }
    hide Wake, Holding, RatOK, StationsOK, ReadyOK, UnitsOK, DecodeOK;
  }

  lemma HoldingSplits(s: State, s2: State, done: seq<nat>, e: Event)
    requires done != [] && done[0] < |s.rob| && SameIds(s, s2)
    ensures Holding(s, done, e) <==> e == Executed(s.rob[done[0]].insId) || Holding(s2, done[1..], e)
  {
    if Holding(s, done, e) {
      var k :| 0 <= k < |done| && done[k] < |s.rob| && s.rob[done[k]].insId == e.n;
      if k > 0 { assert done[1..][k - 1] == done[k]; }
    }
    if Holding(s2, done[1..], e) {
      var k :| 0 <= k < |done[1..]| && done[1..][k] < |s2.rob| && s2.rob[done[1..][k]].insId == e.n;
      assert done[k + 1] == done[1..][k];
    }
  }

  // ---------- Commit ----------

  /** How many of the attempts find no room for a store. */
  function Refusals(storeRoom: nat -> bool, from: nat, width: nat): nat
    decreases width - from
  {
    if from >= width then 0 else Refusals(storeRoom, from + 1, width) + (if storeRoom(from) then 0 else 1)
  }

  /** The k oldest entries retire: they have executed and, if stores, found room at some attempt. If the
      next one has executed too, the attempts were used up: all of them, or all but some that a store was
      refused. */
  ghost predicate Commits(s: State, s': State, storeRoom: nat -> bool, from: nat, width: nat) {
    var k := s'.committed - s.committed;
    && 0 <= k <= |s.live| && k <= width - from && s'.live == s.live[k..]
    && InRob(s.live, s.rob)
    && (forall p :: 0 <= p < k ==> Retirable(s.rob[s.live[p]], storeRoom, from, width))
    && StopsRightly(s.live, s.rob, storeRoom, from, width, k)
    && (forall p :: k <= p < |s.live| ==> s.live[p] < |s'.rob| && s'.rob[s.live[p]] == s.rob[s.live[p]])
    && s'.units == s.units && s'.penalty == s.penalty && s.log <= s'.log
    && (forall e :: e in s'.log && e !in s.log ==> e.Committed?)
  }

  ghost predicate InRob(live: seq<nat>, rob: seq<RobEntry>) {
    forall p :: 0 <= p < |live| ==> live[p] < |rob|
  }

  ghost predicate StopsRightly(live: seq<nat>, rob: seq<RobEntry>, storeRoom: nat -> bool, from: nat, width: nat,
                               k: nat)
    requires InRob(live, rob)
  {
    k < width - from && k < |live| && rob[live[k]].status == 2 ==>
      k + Refusals(storeRoom, from, width) >= width - from && StoreAmong(live, rob, k)
  }

  ghost predicate StoreAmong(live: seq<nat>, rob: seq<RobEntry>, k: nat)
    requires InRob(live, rob) && k < |live|
  {
    exists p :: 0 <= p <= k && rob[live[p]].memWrite != 0
  }

  ghost predicate Retirable(e: RobEntry, storeRoom: nat -> bool, from: nat, width: nat) {
    e.status == 2 && (e.memWrite != 0 ==> exists i: nat :: from <= i < width && storeRoom(i))
  }

  lemma {:induction false} CommitIsExact(c: Config, s: State, storeRoom: nat -> bool, i: nat)
    requires Shape(c, s) && i <= c.commitWidth
    ensures Commits(s, Commit(c, s, storeRoom, i), storeRoom, i, c.commitWidth)
    decreases c.commitWidth - i
  {
    hide RatOK, StationsOK, ReadyOK, UnitsOK, DecodeOK, Commits, Commit, Retire;
    CommitUnfolds(c, s, storeRoom, i);
    if i == c.commitWidth {
      CommitsNone(c, s, storeRoom, i);
    } else if CanRetire(c, s, storeRoom(i)) {
      CommitIsExact(c, Retire(c, s), storeRoom, i + 1);
      CommitsOne(c, s, Commit(c, Retire(c, s), storeRoom, i + 1), storeRoom, i);
    } else {
      CommitIsExact(c, s, storeRoom, i + 1);
      CommitsLater(c, s, Commit(c, s, storeRoom, i + 1), storeRoom, i);
    }
  }

  lemma CommitUnfolds(c: Config, s: State, storeRoom: nat -> bool, i: nat)
    requires Shape(c, s) && i <= c.commitWidth
    ensures Commit(c, s, storeRoom, i)
            == if i == c.commitWidth then s
               else if CanRetire(c, s, storeRoom(i)) then Commit(c, Retire(c, s), storeRoom, i + 1)
               else Commit(c, s, storeRoom, i + 1)
  {
    hide RatOK, StationsOK, ReadyOK, UnitsOK, DecodeOK, Retire;
  }

  lemma CommitsNone(c: Config, s: State, storeRoom: nat -> bool, width: nat)
    requires Shape(c, s)
    ensures Commits(s, s, storeRoom, width, width)
  {
    LiveSlots(c.robSize, s.live);
  }

  /** The rest of the list, with the retired entry's slot possibly changed. */
  ghost predicate Rest(live: seq<nat>, rob: seq<RobEntry>, live': seq<nat>, rob': seq<RobEntry>) {
    && live != [] && live' == live[1..] && InRob(live, rob) && InRob(live', rob')
    && forall p :: 1 <= p < |live| ==> live'[p - 1] == live[p] && rob'[live[p]] == rob[live[p]]
  }

  lemma RetireRest(c: Config, s: State)
    requires Shape(c, s) && s.live != []
    ensures var s1 := Retire(c, s);
            && Rest(s.live, s.rob, s1.live, s1.rob) && s1.committed == s.committed + 1
            && s1.units == s.units && s1.penalty == s.penalty
            && s1.log == s.log + [Committed(s.rob[s.live[0]].insId)]
  {
    LiveSlots(c.robSize, s.live);
    hide RatOK, StationsOK, ReadyOK, DecodeOK, UnitsOK;
  }

  lemma RestRetirable(live: seq<nat>, rob: seq<RobEntry>, live': seq<nat>, rob': seq<RobEntry>,
                      storeRoom: nat -> bool, i: nat, width: nat, k: nat)
    requires Rest(live, rob, live', rob') && 1 <= k <= |live| && Retirable(rob[live[0]], storeRoom, i, width)
    requires forall p :: 0 <= p < k - 1 ==> Retirable(rob'[live'[p]], storeRoom, i + 1, width)
    ensures forall p :: 0 <= p < k ==> Retirable(rob[live[p]], storeRoom, i, width)
  {
    forall p | 1 <= p < k ensures Retirable(rob[live[p]], storeRoom, i, width) {
      assert Retirable(rob'[live'[p - 1]], storeRoom, i + 1, width);
    }
  }

  lemma RestStops(live: seq<nat>, rob: seq<RobEntry>, live': seq<nat>, rob': seq<RobEntry>,
                  storeRoom: nat -> bool, i: nat, width: nat, k: nat)
    requires Rest(live, rob, live', rob') && 1 <= k <= |live| && i < width
    requires StopsRightly(live', rob', storeRoom, i + 1, width, k - 1)
    ensures StopsRightly(live, rob, storeRoom, i, width, k)
  {
    if k < width - i && k < |live| && rob[live[k]].status == 2 {
      assert live'[k - 1] == live[k] && rob'[live[k]] == rob[live[k]];
      var p :| 0 <= p <= k - 1 && rob'[live'[p]].memWrite != 0;
      assert live'[p] == live[p + 1] && rob[live[p + 1]].memWrite != 0;
    }
  }

  /** The oldest entry retires, and the rest of the attempts go on from the next. */
  lemma CommitsOne(c: Config, s: State, s': State, storeRoom: nat -> bool, i: nat)
    requires Shape(c, s) && i < c.commitWidth && CanRetire(c, s, storeRoom(i))
    requires Commits(Retire(c, s), s', storeRoom, i + 1, c.commitWidth)
    ensures Commits(s, s', storeRoom, i, c.commitWidth)
  {
    RetireRest(c, s);
    var s1 := Retire(c, s);
    var k := s'.committed - s.committed;
    assert Retirable(s.rob[s.live[0]], storeRoom, i, c.commitWidth);
    RestRetirable(s.live, s.rob, s1.live, s1.rob, storeRoom, i, c.commitWidth, k);
    RestStops(s.live, s.rob, s1.live, s1.rob, storeRoom, i, c.commitWidth, k);
    forall p | k <= p < |s.live| ensures s.live[p] < |s'.rob| && s'.rob[s.live[p]] == s.rob[s.live[p]] {
      assert s1.live[p - 1] == s.live[p];
    }
    hide Shape, Retirable, Retire, CanRetire, StopsRightly;
  }

  lemma CommitsLater(c: Config, s: State, s': State, storeRoom: nat -> bool, i: nat)
    requires Shape(c, s) && i < c.commitWidth && !CanRetire(c, s, storeRoom(i))
    requires Commits(s, s', storeRoom, i + 1, c.commitWidth)
    ensures Commits(s, s', storeRoom, i, c.commitWidth)
  {
    var k := s'.committed - s.committed;
    forall p | 0 <= p < k ensures Retirable(s.rob[s.live[p]], storeRoom, i, c.commitWidth) {
      assert Retirable(s.rob[s.live[p]], storeRoom, i + 1, c.commitWidth);
    }
    if k < c.commitWidth - i && k < |s.live| && s.rob[s.live[k]].status == 2 {
      if k > 0 {
        assert Retirable(s.rob[s.live[0]], storeRoom, i + 1, c.commitWidth);
      }
      assert s.rob[s.live[0]].memWrite != 0 && !storeRoom(i);
    }
    hide RatOK, StationsOK, ReadyOK, UnitsOK, DecodeOK;
  }
}
