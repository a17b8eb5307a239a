/** How the pages of a run are shared out between a node's own memory and the pools, and that a page,
    once placed, stays where it is. */
module RackShare {
  import opened Paging
  import opened AddrSpec
  import opened RackSpec
  import opened RackSafety

  function Min(a: nat, b: nat): nat {
    if a < b then a else b
  }

  /** The pages mapped by all processes of a node. */
  function Mapped(tables: seq<map<nat, nat>>): nat {
    if tables == [] then 0 else Mapped(tables[..|tables| - 1]) + |tables[|tables| - 1]|
  }

  lemma {:induction false} MappedOneMore(tables: seq<map<nat, nat>>, p: nat, table: map<nat, nat>)
    requires p < |tables| && |table| == |tables[p]| + 1
    ensures Mapped(tables[p := table]) == Mapped(tables) + 1
    decreases |tables|
  {
    var n := |tables| - 1;
    if p < n {
      MappedOneMore(tables[..n], p, table);
      assert tables[p := table][..n] == tables[..n][p := table];
    } else {
      assert tables[p := table][..n] == tables[..n];
    }
  }

  lemma {:induction false} NoneMapped(n: nat)
    ensures Mapped(seq(n, _ => map[])) == 0
    decreases n
  {
    var none: map<nat, nat> := map[];
    if n > 0 {
      NoneMapped(n - 1);
      assert seq(n, _ => none)[..n - 1] == seq(n - 1, _ => none);
    }
  }

  /** Alternating while local memory lasts: the share of a node that has handed out `faults` pages. */
  ghost predicate Alternates(c: Config, faults: nat, s: Space)
    requires c.Valid()
  {
    && s.localPages == c.localPages
    && s.used == s.localUsed + s.remoteUsed == faults
    && s.localUsed == Min((faults + 1 - c.localParity) / 2, c.localPages)
  }

  lemma FaultShares(c: Config, s: Space, p: Pool, table: map<nat, nat>, faults: nat, page: nat)
    requires c.Valid() && Alternates(c, faults, s) && page !in table
    ensures var f := FaultOn(c, s, p, table, faults, page);
            Alternates(c, f.faults, f.space) && f.faults == faults + 1 && |f.table| == |table| + 1
  {
  }

  ghost predicate NodeShared(c: Config, s: Rack, n: nat)
    requires c.Valid() && Shape(c, s) && n < c.nodes
  {
    Alternates(c, s.faults[n], s.spaces[n]) && Mapped(s.tables[n]) == s.faults[n]
  }

  lemma TouchShares(c: Config, s: Rack, step: Step, n: nat)
    requires c.Valid() && Shape(c, s) && StepOK(c, step) && n < c.nodes && NodeShared(c, s, n)
    ensures NodeShared(c, Touch(c, s, step), n)
  {
    var p, page := step.process, PageOf(step.vaddr);
    hide Alternates, FaultOn, PageOf;
    if step.node == n && page !in s.tables[n][p] {
      FaultShares(c, s.spaces[n], s.pools[step.pick], s.tables[n][p], s.faults[n], page);
      var f := FaultOn(c, s.spaces[n], s.pools[step.pick], s.tables[n][p], s.faults[n], page);
      MappedOneMore(s.tables[n], p, f.table);
    }
  }

  /** In every run, whether or not the pools can serve it: a node that has mapped m pages, over all its
      processes, has handed out m pages, min(ceil(m / 2), local pages) of them local when even faults go
      local, and min(floor(m / 2), local pages) when odd ones do. */
  lemma {:induction false} LocalShare(c: Config, steps: seq<Step>, n: nat)
    requires c.Valid() && (forall i :: 0 <= i < |steps| ==> StepOK(c, steps[i])) && n < c.nodes
    ensures var s := Run(c, steps);
            var m := Mapped(s.tables[n]);
            && s.spaces[n].used == s.spaces[n].localUsed + s.spaces[n].remoteUsed == m
            && s.spaces[n].localUsed == Min((m + 1 - c.localParity) / 2, c.localPages)
  {
    RunShares(c, steps, n);
  }

  lemma {:induction false} RunShares(c: Config, steps: seq<Step>, n: nat)
    requires c.Valid() && (forall i :: 0 <= i < |steps| ==> StepOK(c, steps[i])) && n < c.nodes
    ensures NodeShared(c, Run(c, steps), n)
    decreases |steps|
  {
    if steps == [] {
      NoneMapped(c.processes);
      var none: map<nat, nat> := map[];
      assert Start(c).tables[n] == seq(c.processes, _ => none);
    } else {
      RunShares(c, steps[..|steps| - 1], n);
      TouchShares(c, Run(c, steps[..|steps| - 1]), steps[|steps| - 1], n);
    }
  }

  // ---------- Pages stay put ----------

  /** What a later rack keeps of a node: its size of local memory, its regions so far, its mappings. */
  ghost predicate Extends(c: Config, s: Rack, s': Rack, n: nat)
    requires Shape(c, s) && Shape(c, s') && n < c.nodes
  {
    && s'.spaces[n].localPages == s.spaces[n].localPages
    && s.spaces[n].regions <= s'.spaces[n].regions
    && forall p, v :: 0 <= p < c.processes && v in s.tables[n][p] ==>
         v in s'.tables[n][p] && s'.tables[n][p][v] == s.tables[n][p][v]
  }

  lemma TouchExtends(c: Config, s: Rack, step: Step, n: nat)
    requires Shape(c, s) && StepOK(c, step) && n < c.nodes
    ensures Extends(c, s, Touch(c, s, step), n)
  {
  }

  lemma {:induction false} RunExtends(c: Config, steps: seq<Step>, k: nat, n: nat)
    requires (forall i :: 0 <= i < |steps| ==> StepOK(c, steps[i])) && k <= |steps| && n < c.nodes
    ensures Extends(c, Run(c, steps[..k]), Run(c, steps), n)
    decreases |steps|
  {
    if k == |steps| {
      assert steps[..k] == steps;
    } else {
      var m := |steps| - 1;
      assert steps[..m][..k] == steps[..k];
      RunExtends(c, steps[..m], k, n);
      TouchExtends(c, Run(c, steps[..m]), steps[m], n);
      hide Touch, Run;
    }
  }

  /** More regions do not move a page that has one. */
  lemma {:induction false} MoreRegions(regions: seq<Region>, more: seq<Region>, page: nat)
    requires exists i :: 0 <= i < |regions| && InRegion(regions[i], page) && regions[i].pool == FindPool(regions, page)
    ensures FindPool(regions + more, page) == FindPool(regions, page)
    ensures RemotePage(regions + more, page, FindPool(regions, page))
            == RemotePage(regions, page, FindPool(regions, page))
    decreases |more|
  {
    var i :| 0 <= i < |regions| && InRegion(regions[i], page) && regions[i].pool == FindPool(regions, page);
    if more == [] {
      assert regions + more == regions;
    } else {
      var front, last := more[..|more| - 1], more[|more| - 1];
      MoreRegions(regions, front, page);
      assert regions + more == (regions + front) + [last];
      assert InRegion((regions + front)[i], page) && (regions + front)[i].pool == FindPool(regions, page);
      LookupKept(regions + front, last, page);
      RemoteKept(regions + front, last, page, FindPool(regions, page));
    }
  }

  /** A translation, once made, holds for the rest of the run. */
  lemma TranslationStable(c: Config, steps: seq<Step>, k: nat, n: nat, p: nat, v: nat)
    requires c.Valid() && c.localPages <= PAGES
    requires (forall i :: 0 <= i < |steps| ==> StepOK(c, steps[i])) && AllServed(c, steps)
    requires k <= |steps| && n < c.nodes && p < c.processes && Translate(c, Run(c, steps[..k]), n, p, v).Some?
    ensures Translate(c, Run(c, steps), n, p, v) == Translate(c, Run(c, steps[..k]), n, p, v)
  {
    PrefixServed(c, steps, k);
    RunKeeps(c, steps[..k]);
    RunExtends(c, steps, k, n);
    PlaceKept(c, Run(c, steps[..k]), Run(c, steps), n, p, v);
    hide Run, Inv, Extends;
  }

  lemma PlaceKept(c: Config, s: Rack, s': Rack, n: nat, p: nat, v: nat)
    requires Shape(c, s) && SpacesOK(c, s) && SizesFit(c, s) && FramesHanded(c, s)
    requires Shape(c, s') && n < c.nodes && Extends(c, s, s', n) && p < c.processes && Translate(c, s, n, p, v).Some?
    ensures Translate(c, s', n, p, v) == Translate(c, s, n, p, v)
  {
    var space, space' := s.spaces[n], s'.spaces[n];
    var frame := s.tables[n][p][PageOf(v)];
    assert Handed(space, frame) && SpaceOK(space);
    hide Tiles, PageOf, FindPool, RemotePage, SpacesOK, SizesFit, FramesHanded;
    PageJoined(frame, v % PAGE);
    if frame >= space.localPages {
      var i := Home(space.regions, space.localPages, space.total, frame);
      MoreRegions(space.regions, space'.regions[|space.regions|..], frame);
      assert space'.regions == space.regions + space'.regions[|space.regions|..];
    }
  }
}
