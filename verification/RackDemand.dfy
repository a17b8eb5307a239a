/** Demand paging: a page is mapped when it is first touched and not before, and the order of the first
    touches alone says to which frame. */
module RackDemand {
  import opened Paging
  import opened AddrSpec
  import opened RackSpec
  import opened RackShare

  predicate SamePage(a: Step, b: Step) {
    a.node == b.node && a.process == b.process && PageOf(a.vaddr) == PageOf(b.vaddr)
  }

  /** The step touches a page that no step before it has touched. */
  ghost predicate IsNew(before: seq<Step>, s: Step) {
    forall i :: 0 <= i < |before| ==> !SamePage(before[i], s)
  }

  /** How many pages a node has touched. */
  ghost function Touched(steps: seq<Step>, n: nat): nat {
    if steps == [] then 0
    else
      var front, last := steps[..|steps| - 1], steps[|steps| - 1];
      Touched(front, n) + if last.node == n && IsNew(front, last) then 1 else 0
  }

  /** How many of a node's first m pages are local. */
  function LocalCount(c: Config, m: nat): nat
    requires c.Valid()
  {
    Min((m + 1 - c.localParity) / 2, c.localPages)
  }

  /** The frame of a node's m-th page, counted from 0: the next local page if it is m's turn to be local and
      there is one, and otherwise the next borrowed one. */
  function FrameOf(c: Config, m: nat): nat
    requires c.Valid()
  {
    if m % 2 == c.localParity && LocalCount(c, m) < c.localPages then LocalCount(c, m)
    else c.localPages + (m - LocalCount(c, m))
  }

  /** The page of the step is mapped in the rack. */
  predicate Maps(c: Config, s: Rack, step: Step)
    requires Shape(c, s) && StepOK(c, step)
  {
    PageOf(step.vaddr) in s.tables[step.node][step.process]
  }

  function Frame(c: Config, s: Rack, step: Step): nat
    requires Shape(c, s) && StepOK(c, step) && Maps(c, s, step)
  {
    s.tables[step.node][step.process][PageOf(step.vaddr)]
  }

  lemma StepMaps(c: Config, s: Rack, step: Step, other: Step)
    requires Shape(c, s) && StepOK(c, step) && StepOK(c, other)
    ensures Maps(c, Touch(c, s, step), other) <==> Maps(c, s, other) || SamePage(step, other)
    ensures Maps(c, s, other) ==> Frame(c, Touch(c, s, step), other) == Frame(c, s, other)
    ensures Touch(c, s, step).faults[other.node]
            == s.faults[other.node] + if step.node == other.node && !Maps(c, s, step) then 1 else 0
  {
    hide PageOf;
  }

  /** Demand paging, over every run, its requests granted or refused: exactly the pages that have been touched
      are mapped. */
  lemma {:induction false} MappedIffTouched(c: Config, steps: seq<Step>, step: Step)
    requires c.Valid() && (forall i :: 0 <= i < |steps| ==> StepOK(c, steps[i])) && StepOK(c, step)
    ensures Maps(c, Run(c, steps), step) <==> !IsNew(steps, step)
    decreases |steps|
  {
    hide Maps, Touch, SamePage;
    if steps == [] {
      StartMapsNothing(c, step);
    } else {
      var n := |steps| - 1;
      MappedIffTouched(c, steps[..n], step);
      StepMaps(c, Run(c, steps[..n]), steps[n], step);
    }
  }

  lemma StartMapsNothing(c: Config, step: Step)
    requires StepOK(c, step)
    ensures !Maps(c, Start(c), step) && Start(c).faults[step.node] == 0
  {
  }

  /** A node has faulted once for every page it has touched. */
  lemma {:induction false} FaultsAreTouches(c: Config, steps: seq<Step>, step: Step)
    requires c.Valid() && (forall i :: 0 <= i < |steps| ==> StepOK(c, steps[i])) && StepOK(c, step)
    ensures Run(c, steps).faults[step.node] == Touched(steps, step.node)
    decreases |steps|
  {
    hide Maps, Touch, SamePage, IsNew;
    if steps == [] {
      StartMapsNothing(c, step);
    } else {
      var n := |steps| - 1;
      FaultsAreTouches(c, steps[..n], step);
      MappedIffTouched(c, steps[..n], steps[n]);
      StepMaps(c, Run(c, steps[..n]), steps[n], step);
    }
  }

  lemma FaultFrame(c: Config, s: Space, p: Pool, table: map<nat, nat>, faults: nat, page: nat)
    requires c.Valid() && Alternates(c, faults, s) && page !in table
    ensures var t := FaultOn(c, s, p, table, faults, page).table; page in t && t[page] == FrameOf(c, faults)
  {
  }

  lemma TouchFrame(c: Config, s: Rack, step: Step)
    requires c.Valid() && Shape(c, s) && StepOK(c, step) && NodeShared(c, s, step.node) && !Maps(c, s, step)
    ensures Maps(c, Touch(c, s, step), step)
    ensures Frame(c, Touch(c, s, step), step) == FrameOf(c, s.faults[step.node])
  {
    hide FaultOn, Alternates, FrameOf, PageOf, Mapped;
    FaultFrame(c, s.spaces[step.node], s.pools[step.pick], s.tables[step.node][step.process], s.faults[step.node],
               PageOf(step.vaddr));
  }

  /** And every touched page keeps, for the whole run, the frame that its place in the order of its node's
      first touches gives it, whatever the pools, the other nodes and the addresses. */
  lemma {:induction false} FrameFollowsOrder(c: Config, steps: seq<Step>, i: nat)
    requires c.Valid() && (forall k :: 0 <= k < |steps| ==> StepOK(c, steps[k]))
    requires i < |steps| && IsNew(steps[..i], steps[i])
    ensures Maps(c, Run(c, steps), steps[i])
    ensures Frame(c, Run(c, steps), steps[i]) == FrameOf(c, Touched(steps[..i], steps[i].node))
    decreases |steps|
  {
    hide Maps, Frame, Touch, SamePage, IsNew, FrameOf, NodeShared;
    var n := |steps| - 1;
    var front := steps[..n];
    if i < n {
      assert front[..i] == steps[..i];
      FrameFollowsOrder(c, front, i);
      StepMaps(c, Run(c, front), steps[n], steps[i]);
    } else {
      MappedIffTouched(c, front, steps[n]);
      FaultsAreTouches(c, front, steps[n]);
      RunShares(c, front, steps[n].node);
      TouchFrame(c, Run(c, front), steps[n]);
    }
  }

  // ---------- Who lends ----------

  /** The access needs a chunk: its page is new, and it is to be a borrowed one when all borrowed ones are used. */
  ghost predicate NeedsLoan(c: Config, steps: seq<Step>, step: Step)
    requires c.Valid() && (forall i :: 0 <= i < |steps| ==> StepOK(c, steps[i])) && StepOK(c, step)
  {
    var s := Run(c, steps).spaces[step.node];
    && IsNew(steps, step) && FrameOf(c, Touched(steps, step.node)) >= c.localPages
    && s.remoteUsed >= s.remotePages
  }

  lemma FaultLends(c: Config, s: Space, p: Pool, table: map<nat, nat>, faults: nat, page: nat)
    requires c.Valid() && Alternates(c, faults, s) && page !in table
    ensures var f := FaultOn(c, s, p, table, faults, page);
            if FrameOf(c, faults) >= c.localPages && s.remoteUsed >= s.remotePages && c.chunk <= p.free then
              && f.space.regions == s.regions + [Region(s.total, p.used, c.chunk, p.no)]
              && f.pool == Pool(p.no, p.total, p.free - c.chunk, p.used + c.chunk,
                                p.shared + [Shared(p.used, c.chunk, s.node)])
            else f.space.regions == s.regions && f.pool == p
  {
  }

  /** What an access after a run borrows, and from whom: a chunk, the next one of the picked pool, if it needs
      one and that pool has it; otherwise nothing. No other node's space and no other pool changes. */
  ghost predicate Lends(c: Config, steps: seq<Step>, step: Step, s: Rack, s': Rack)
    requires c.Valid() && (forall i :: 0 <= i < |steps| ==> StepOK(c, steps[i])) && StepOK(c, step)
    requires Shape(c, s) && Shape(c, s')
  {
    var n, k := step.node, step.pick;
    var p, space := s.pools[k], s.spaces[n];
    && (forall m :: 0 <= m < c.nodes && m != n ==> s'.spaces[m] == s.spaces[m])
    && (forall l :: 0 <= l < c.pools && l != k ==> s'.pools[l] == s.pools[l])
    && if NeedsLoan(c, steps, step) && c.chunk <= p.free then
         && s'.spaces[n].regions == space.regions + [Region(space.total, p.used, c.chunk, p.no)]
         && s'.pools[k] == Pool(p.no, p.total, p.free - c.chunk, p.used + c.chunk,
                                p.shared + [Shared(p.used, c.chunk, space.node)])
       else s'.spaces[n].regions == space.regions && s'.pools[k] == p
  }

  /** In every run. */
  lemma PickedPoolLends(c: Config, steps: seq<Step>, step: Step)
    requires c.Valid() && (forall i :: 0 <= i < |steps| ==> StepOK(c, steps[i])) && StepOK(c, step)
    ensures Lends(c, steps, step, Run(c, steps), Touch(c, Run(c, steps), step))
  {
    hide FaultOn, Run, FrameOf, IsNew, PageOf;
    var s := Run(c, steps);
    MappedIffTouched(c, steps, step);
    FaultsAreTouches(c, steps, step);
    RunShares(c, steps, step.node);
    if !Maps(c, s, step) {
      FaultLends(c, s.spaces[step.node], s.pools[step.pick], s.tables[step.node][step.process], s.faults[step.node],
                 PageOf(step.vaddr));
    }
    hide Alternates, Mapped;
  }
}
