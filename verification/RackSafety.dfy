/** What every run of page faults keeps, and what it means: no two lines of virtual memory ever share a
    line of physical memory. */
module RackSafety {
  import opened Paging
  import opened AddrSpec
  import opened RackSpec

  // ---------- The invariant ----------

  ghost predicate SpacesOK(c: Config, s: Rack)
    requires Shape(c, s)
  {
    forall n :: 0 <= n < c.nodes ==>
      SpaceOK(s.spaces[n]) && s.spaces[n].node == n && s.spaces[n].localPages == c.localPages
  }

  ghost predicate AllPoolsOK(c: Config, s: Rack)
    requires Shape(c, s)
  {
    forall k :: 0 <= k < c.pools ==> PoolOK(s.pools[k]) && s.pools[k].no == k && s.pools[k].total == c.poolPages
  }

  /** A region's pages are allocated in its pool. */
  ghost predicate InPool(s: Rack, r: Region) {
    r.pool < |s.pools| && r.remoteBase + r.size <= s.pools[r.pool].used
  }

  ghost predicate RegionsInPools(c: Config, s: Rack)
    requires Shape(c, s)
  {
    forall n, i :: 0 <= n < c.nodes && 0 <= i < |s.spaces[n].regions| ==> InPool(s, s.spaces[n].regions[i])
  }

  ghost predicate Apart(r: Region, q: Region) {
    r.pool != q.pool || r.remoteBase + r.size <= q.remoteBase || q.remoteBase + q.size <= r.remoteBase
  }

  /** No page of a pool is lent twice. */
  ghost predicate RegionsApart(c: Config, s: Rack)
    requires Shape(c, s)
  {
    forall n, i, m, j ::
      (&& 0 <= n < c.nodes && 0 <= m < c.nodes
       && 0 <= i < |s.spaces[n].regions| && 0 <= j < |s.spaces[m].regions| && (n != m || i != j))
      ==> Apart(s.spaces[n].regions[i], s.spaces[m].regions[j])
  }

  ghost predicate Recorded(s: Rack, n: nat, r: Region, e: Shared) {
    e.base == r.remoteBase && e.limit == r.size && e.node == n
  }

  /** Both sides tell the same story: each region has its entry in the pool, and each entry its region. */
  ghost predicate BothSides(c: Config, s: Rack)
    requires Shape(c, s)
  {
    && (forall n, i :: 0 <= n < c.nodes && 0 <= i < |s.spaces[n].regions| ==> HasEntry(s, n, s.spaces[n].regions[i]))
    && (forall k, e :: 0 <= k < c.pools && 0 <= e < |s.pools[k].shared| ==> HasRegion(c, s, k, s.pools[k].shared[e]))
  }

  ghost predicate HasEntry(s: Rack, n: nat, r: Region) {
    r.pool < |s.pools| && exists e :: 0 <= e < |s.pools[r.pool].shared| && Recorded(s, n, r, s.pools[r.pool].shared[e])
  }

  ghost predicate HasRegion(c: Config, s: Rack, k: nat, e: Shared)
    requires Shape(c, s)
  {
    e.node < c.nodes && exists i :: 0 <= i < |s.spaces[e.node].regions|
                                    && s.spaces[e.node].regions[i].pool == k
                                    && Recorded(s, e.node, s.spaces[e.node].regions[i], e)
  }

  /** The page has been handed out by this space. */
  predicate Handed(s: Space, frame: nat) {
    frame < s.localUsed || s.localPages <= frame < s.localPages + s.remoteUsed
  }

  ghost predicate FramesHanded(c: Config, s: Rack)
    requires Shape(c, s)
  {
    forall n, p, v :: 0 <= n < c.nodes && 0 <= p < c.processes && v in s.tables[n][p] ==>
      Handed(s.spaces[n], s.tables[n][p][v])
  }

  /** No frame of a node is mapped twice, by one process or by two. */
  ghost predicate FramesDistinct(c: Config, s: Rack)
    requires Shape(c, s)
  {
    forall n, p, v, q, w ::
      (&& 0 <= n < c.nodes && 0 <= p < c.processes && 0 <= q < c.processes
       && v in s.tables[n][p] && w in s.tables[n][q] && (p != q || v != w))
      ==> s.tables[n][p][v] != s.tables[n][q][w]
  }

  ghost predicate SizesFit(c: Config, s: Rack)
    requires Shape(c, s)
  {
    forall n :: 0 <= n < c.nodes ==> s.spaces[n].total <= PAGES
  }

  ghost predicate Inv(c: Config, s: Rack) {
    && c.Valid() && Shape(c, s)
    && SpacesOK(c, s) && AllPoolsOK(c, s) && RegionsInPools(c, s) && RegionsApart(c, s) && BothSides(c, s)
    && FramesHanded(c, s) && FramesDistinct(c, s) && SizesFit(c, s)
  }

  lemma StartOK(c: Config)
    requires c.Valid() && c.localPages <= PAGES
    ensures Inv(c, Start(c))
  {
    StartSpaces(c);
    hide SpacesOK, AllPoolsOK, Start, RegionsInPools, RegionsApart, BothSides, FramesHanded, FramesDistinct;
  }

  /** At first there are no regions, no entries and no mapped pages. */
  lemma StartSpaces(c: Config)
    requires c.Valid() && c.localPages <= PAGES
    ensures var s := Start(c);
            && Shape(c, s) && SpacesOK(c, s) && AllPoolsOK(c, s) && SizesFit(c, s)
            && RegionsInPools(c, s) && RegionsApart(c, s) && BothSides(c, s)
            && FramesHanded(c, s) && FramesDistinct(c, s)
  {
    var s := Start(c);
    assert forall n :: 0 <= n < c.nodes ==> s.spaces[n] == NewSpace(n, c.localPages);
    assert forall k :: 0 <= k < c.pools ==> s.pools[k] == NewPool(k, c.poolPages);
    assert forall n, p :: 0 <= n < c.nodes && 0 <= p < c.processes ==> s.tables[n][p] == map[];
    hide HasEntry, HasRegion, InPool, Apart, Handed;
  }

  // ---------- Borrowing ----------

  /** The rack after the picked pool has lent a chunk to the node. */
  function Lend(c: Config, s: Rack, n: nat, k: nat): (s': Rack)
    requires Shape(c, s) && n < c.nodes && k < c.pools
    ensures Shape(c, s')
  {
    var (space, pool) := Request(s.spaces[n], s.pools[k], c.chunk);
    s.(spaces := s.spaces[n := space], pools := s.pools[k := pool])
  }

  lemma LendKeeps(c: Config, s: Rack, n: nat, k: nat)
    requires Inv(c, s) && n < c.nodes && k < c.pools
    requires s.spaces[n].total + c.chunk <= PAGES && s.pools[k].free >= c.chunk
    ensures Inv(c, Lend(c, s, n, k))
  {
    LendKeepsSizes(c, s, n, k);
    LendKeepsRegions(c, s, n, k);
    LendKeepsSides(c, s, n, k);
    var s' := Lend(c, s, n, k);
    assert FramesHanded(c, s') && FramesDistinct(c, s');
  }

  lemma LendKeepsSizes(c: Config, s: Rack, n: nat, k: nat)
    requires c.Valid() && Shape(c, s) && SpacesOK(c, s) && AllPoolsOK(c, s) && SizesFit(c, s)
    requires n < c.nodes && k < c.pools && s.spaces[n].total + c.chunk <= PAGES
    ensures SpacesOK(c, Lend(c, s, n, k)) && AllPoolsOK(c, Lend(c, s, n, k)) && SizesFit(c, Lend(c, s, n, k))
  {
    RequestKeeps(s.spaces[n], s.pools[k], c.chunk);
    hide SpaceOK, PoolOK;
  }

  lemma LendKeepsRegions(c: Config, s: Rack, n: nat, k: nat)
    requires Shape(c, s) && RegionsInPools(c, s) && RegionsApart(c, s) && n < c.nodes && k < c.pools
    requires s.pools[k].no == k && s.pools[k].free >= c.chunk
    ensures RegionsInPools(c, Lend(c, s, n, k)) && RegionsApart(c, Lend(c, s, n, k))
  {
    var s' := Lend(c, s, n, k);
    var count := |s.spaces[n].regions|;
    var r := s'.spaces[n].regions[count];
    assert forall m, i :: 0 <= m < c.nodes && 0 <= i < |s'.spaces[m].regions| && (m, i) != (n, count) ==>
        i < |s.spaces[m].regions| && s'.spaces[m].regions[i] == s.spaces[m].regions[i];
    forall m, i | 0 <= m < c.nodes && 0 <= i < |s.spaces[m].regions|
      ensures InPool(s', s.spaces[m].regions[i]) && Apart(s.spaces[m].regions[i], r) && Apart(r, s.spaces[m].regions[i])
    {
      assert InPool(s, s.spaces[m].regions[i]);
    }
    hide Apart, InPool;
    assert RegionsApart(c, s');
  }

  lemma LendKeepsSides(c: Config, s: Rack, n: nat, k: nat)
    requires Shape(c, s) && BothSides(c, s) && n < c.nodes && k < c.pools && s.spaces[n].node == n
    requires s.pools[k].no == k && s.pools[k].free >= c.chunk
    ensures BothSides(c, Lend(c, s, n, k))
  {
    var s' := Lend(c, s, n, k);
    forall m, i | 0 <= m < c.nodes && 0 <= i < |s'.spaces[m].regions| ensures HasEntry(s', m, s'.spaces[m].regions[i]) {
      if m == n && i == |s.spaces[n].regions| {
        assert Recorded(s', n, s'.spaces[n].regions[i], s'.pools[k].shared[|s.pools[k].shared|]);
      } else {
        EntryKept(c, s, n, k, m, s.spaces[m].regions[i]);
      }
    }
    forall l, e | 0 <= l < c.pools && 0 <= e < |s'.pools[l].shared| ensures HasRegion(c, s', l, s'.pools[l].shared[e]) {
      if l == k && e == |s.pools[k].shared| {
        assert Recorded(s', n, s'.spaces[n].regions[|s.spaces[n].regions|], s'.pools[k].shared[e]);
      } else {
        RegionKept(c, s, n, k, l, s.pools[l].shared[e]);
      }
    }
  }

  lemma EntryKept(c: Config, s: Rack, n: nat, k: nat, m: nat, r: Region)
    requires Shape(c, s) && n < c.nodes && k < c.pools && HasEntry(s, m, r)
    ensures HasEntry(Lend(c, s, n, k), m, r)
  {
    var s' := Lend(c, s, n, k);
    var e :| 0 <= e < |s.pools[r.pool].shared| && Recorded(s, m, r, s.pools[r.pool].shared[e]);
    assert Recorded(s', m, r, s'.pools[r.pool].shared[e]);
  }

  lemma RegionKept(c: Config, s: Rack, n: nat, k: nat, l: nat, e: Shared)
    requires Shape(c, s) && n < c.nodes && k < c.pools && HasRegion(c, s, l, e)
    ensures HasRegion(c, Lend(c, s, n, k), l, e)
  {
    var s' := Lend(c, s, n, k);
    var i :| 0 <= i < |s.spaces[e.node].regions| && s.spaces[e.node].regions[i].pool == l
             && Recorded(s, e.node, s.spaces[e.node].regions[i], e);
    assert Recorded(s', e.node, s'.spaces[e.node].regions[i], e);
  }

  // ---------- Mapping ----------

  /** The rack after the node has handed out a page, local or remote, for an unmapped virtual page. */
  function Map(c: Config, s: Rack, n: nat, p: nat, page: nat, local: bool): (s': Rack)
    requires Shape(c, s) && n < c.nodes && p < c.processes
    ensures Shape(c, s')
  {
    var (space, frame) := if local then AllocateLocal(s.spaces[n]) else AllocateRemote(s.spaces[n]);
    var table: map<nat, nat> := s.tables[n][p][page := frame];
    Rack(s.spaces[n := space], s.pools, s.tables[n := s.tables[n][p := table]],
         s.faults[n := s.faults[n] + 1])
  }

  lemma MapKeeps(c: Config, s: Rack, n: nat, p: nat, page: nat, local: bool)
    requires Inv(c, s) && n < c.nodes && p < c.processes && page !in s.tables[n][p]
    requires if local then FreeLocal(s.spaces[n]) else FreeRemote(s.spaces[n])
    ensures Inv(c, Map(c, s, n, p, page, local))
  {
    MapKeepsSpaces(c, s, n, p, page, local);
    assert s.spaces[n].localUsed <= s.spaces[n].localPages by { assert SpaceOK(s.spaces[n]); }
    MapKeepsFrames(c, s, n, p, page, local);
    MapKeepsSides(c, s, n, p, page, local);
    hide SpacesOK, AllPoolsOK, SizesFit, FramesHanded, FramesDistinct, BothSides, RegionsApart, RegionsInPools, Map;
  }

  lemma MapKeepsSpaces(c: Config, s: Rack, n: nat, p: nat, page: nat, local: bool)
    requires Shape(c, s) && SpacesOK(c, s) && AllPoolsOK(c, s) && SizesFit(c, s) && n < c.nodes && p < c.processes
    requires if local then FreeLocal(s.spaces[n]) else FreeRemote(s.spaces[n])
    ensures var s' := Map(c, s, n, p, page, local); SpacesOK(c, s') && AllPoolsOK(c, s') && SizesFit(c, s')
  {
    AllocationKeeps(s.spaces[n]);
    hide SpaceOK, PoolOK;
  }

  lemma MapKeepsSides(c: Config, s: Rack, n: nat, p: nat, page: nat, local: bool)
    requires Shape(c, s) && BothSides(c, s) && RegionsInPools(c, s) && RegionsApart(c, s)
    requires n < c.nodes && p < c.processes
    ensures var s' := Map(c, s, n, p, page, local); BothSides(c, s') && RegionsInPools(c, s') && RegionsApart(c, s')
  {
    var s' := Map(c, s, n, p, page, local);
    assert forall m :: 0 <= m < c.nodes ==> s'.spaces[m].regions == s.spaces[m].regions;
    assert s'.pools == s.pools;
    forall m, i | 0 <= m < c.nodes && 0 <= i < |s'.spaces[m].regions|
      ensures HasEntry(s', m, s'.spaces[m].regions[i]) && InPool(s', s'.spaces[m].regions[i])
    {
      var r := s.spaces[m].regions[i];
      assert HasEntry(s, m, r) && InPool(s, r);
      var e :| 0 <= e < |s.pools[r.pool].shared| && Recorded(s, m, r, s.pools[r.pool].shared[e]);
      assert Recorded(s', m, r, s'.pools[r.pool].shared[e]);
    }
    forall l, e | 0 <= l < c.pools && 0 <= e < |s'.pools[l].shared| ensures HasRegion(c, s', l, s'.pools[l].shared[e]) {
      var x := s.pools[l].shared[e];
      assert HasRegion(c, s, l, x);
      var i :| 0 <= i < |s.spaces[x.node].regions| && s.spaces[x.node].regions[i].pool == l
               && Recorded(s, x.node, s.spaces[x.node].regions[i], x);
      assert Recorded(s', x.node, s'.spaces[x.node].regions[i], x);
    }
  }

  lemma MapKeepsFrames(c: Config, s: Rack, n: nat, p: nat, page: nat, local: bool)
    requires Shape(c, s) && FramesHanded(c, s) && FramesDistinct(c, s) && n < c.nodes && p < c.processes
    requires page !in s.tables[n][p]
    requires s.spaces[n].localUsed <= s.spaces[n].localPages
    requires local ==> FreeLocal(s.spaces[n])
    ensures FramesHanded(c, Map(c, s, n, p, page, local)) && FramesDistinct(c, Map(c, s, n, p, page, local))
  {
    var s' := Map(c, s, n, p, page, local);
    var frame := s'.tables[n][p][page];
    assert !Handed(s.spaces[n], frame) && Handed(s'.spaces[n], frame);
    assert forall m, q, v ::
        0 <= m < c.nodes && 0 <= q < c.processes && v in s'.tables[m][q] && (m, q, v) != (n, p, page) ==>
        v in s.tables[m][q] && s'.tables[m][q][v] == s.tables[m][q][v];
    forall q, v | 0 <= q < c.processes && v in s.tables[n][q] ensures s.tables[n][q][v] != frame {
      assert Handed(s.spaces[n], s.tables[n][q][v]);
    }
  }

  // ---------- Runs ----------

  lemma TouchKeeps(c: Config, s: Rack, step: Step)
    requires Inv(c, s) && StepOK(c, step) && Served(c, s, step)
    ensures Inv(c, Touch(c, s, step))
  {
    var n, p, k, page := step.node, step.process, step.pick, PageOf(step.vaddr);
    if page !in s.tables[n][p] {
      FaultInSteps(c, s, step);
      var space := s.spaces[n];
      var s1 := if NeedsChunk(c, s.faults[n], space) then Lend(c, s, n, k) else s;
      if NeedsChunk(c, s.faults[n], space) {
        LendKeeps(c, s, n, k);
        assert FreeRemote(s1.spaces[n]) by { assert SpaceOK(space); }
      }
      MapKeeps(c, s1, n, p, page, GoesLocal(c, s.faults[n], space));
    }
  }

  /** A fault borrows if it must, then hands out a page. */
  lemma FaultInSteps(c: Config, s: Rack, step: Step)
    requires Shape(c, s) && StepOK(c, step) && PageOf(step.vaddr) !in s.tables[step.node][step.process]
    ensures var n := step.node;
            var s1 := if NeedsChunk(c, s.faults[n], s.spaces[n]) then Lend(c, s, n, step.pick) else s;
            Fault(c, s, step) == Map(c, s1, n, step.process, PageOf(step.vaddr), GoesLocal(c, s.faults[n], s.spaces[n]))
  {
    var n, k := step.node, step.pick;
    if !NeedsChunk(c, s.faults[n], s.spaces[n]) {
      assert s.pools[k := s.pools[k]] == s.pools;
    }
  }

  /** Every rack that accesses can lead to, when every chunk request can be met. */
  lemma {:induction false} RunKeeps(c: Config, steps: seq<Step>)
    requires c.Valid() && c.localPages <= PAGES
    requires (forall i :: 0 <= i < |steps| ==> StepOK(c, steps[i])) && AllServed(c, steps)
    ensures Inv(c, Run(c, steps))
    decreases |steps|
  {
    hide Inv, Touch, Served;
    if steps == [] {
      StartOK(c);
    } else {
      var n := |steps| - 1;
      PrefixServed(c, steps, n);
      RunKeeps(c, steps[..n]);
      TouchKeeps(c, Run(c, steps[..n]), steps[n]);
    }
  }

  lemma PrefixServed(c: Config, steps: seq<Step>, n: nat)
    requires (forall i :: 0 <= i < |steps| ==> StepOK(c, steps[i])) && AllServed(c, steps) && n <= |steps|
    ensures AllServed(c, steps[..n])
  {
    forall i | 0 <= i < n ensures Served(c, Run(c, steps[..n][..i]), steps[..n][i]) {
      assert steps[..n][..i] == steps[..i];
    }
  }

  // ---------- Translation is injective ----------

  lemma LineOf(frame: nat, offset: nat)
    requires offset < PAGE
    ensures (frame * PAGE + offset) / 64 == frame * 64 + offset / 64 && offset / 64 < 64
  {
  }

  lemma LinesOfPages(page: nat, page': nat, offset: nat, offset': nat)
    requires offset < PAGE && offset' < PAGE
    requires (page * PAGE + offset) / 64 == (page' * PAGE + offset') / 64
    ensures page == page' && offset / 64 == offset' / 64
  {
    LineOf(page, offset);
    LineOf(page', offset');
  }

  function PlaceIn(r: Region, frame: nat, offset: nat): Place
    requires r.localBase <= frame
  {
    Place(PoolMemory(r.pool), (r.remoteBase + (frame - r.localBase)) * PAGE + offset)
  }

  /** The region that holds a borrowed frame. */
  ghost predicate Holds(regions: seq<Region>, i: int, frame: nat) {
    0 <= i < |regions| && InRegion(regions[i], frame)
  }

  /** Where a frame is, given that it has been handed out. */
  lemma Placed(space: Space, n: nat, frame: nat, offset: nat)
    requires SpaceOK(space) && space.total <= PAGES && Handed(space, frame) && offset < PAGE
    ensures var place := Locate(space, n, frame * PAGE + offset);
            if frame < space.localPages then place == Place(LocalMemory(n), frame * PAGE + offset)
            else exists i :: Holds(space.regions, i, frame) && place == PlaceIn(space.regions[i], frame, offset)
  {
    hide Tiles, PageOf, FindPool, RemotePage;
    PageJoined(frame, offset);
    if frame >= space.localPages {
      var i := Home(space.regions, space.localPages, space.total, frame);
      assert Holds(space.regions, i, frame);
    }
  }

  /** Two handed-out frames that meet in one line of one memory are the same frame of the same node. */
  lemma FramesMeet(c: Config, s: Rack, n: nat, f: nat, x: nat, m: nat, g: nat, y: nat)
    requires Shape(c, s) && SpacesOK(c, s) && SizesFit(c, s) && RegionsApart(c, s)
    requires n < c.nodes && m < c.nodes && x < PAGE && y < PAGE
    requires Handed(s.spaces[n], f) && Handed(s.spaces[m], g)
    requires Meet(Locate(s.spaces[n], n, f * PAGE + x), Locate(s.spaces[m], m, g * PAGE + y))
    ensures n == m && f == g && x / 64 == y / 64
  {
    var here, there := s.spaces[n], s.spaces[m];
    assert SpaceOK(here) && SpaceOK(there) && here.localPages == there.localPages == c.localPages;
    hide SpaceOK, SpacesOK, RegionsApart, Handed, Locate, Meet, InRegion;
    Placed(here, n, f, x);
    Placed(there, m, g, y);
    if f < c.localPages {
      MeetLocally(n, f, x, Locate(there, m, g * PAGE + y));
      LinesOfPages(f, g, x, y);
    } else {
      var i :| Holds(here.regions, i, f) && Locate(here, n, f * PAGE + x) == PlaceIn(here.regions[i], f, x);
      MeetInPool(here.regions[i], f, x, Locate(there, m, g * PAGE + y));
      var j :| Holds(there.regions, j, g) && Locate(there, m, g * PAGE + y) == PlaceIn(there.regions[j], g, y);
      MeetInRegions(here.regions[i], f, x, there.regions[j], g, y);
      SameRegion(c, s, n, i, m, j);
    }
  }

  /** The same line of the same memory. */
  ghost predicate Meet(a: Place, b: Place) {
    a.memory == b.memory && a.addr / 64 == b.addr / 64
  }

  lemma MeetLocally(n: nat, f: nat, x: nat, place: Place)
    requires Meet(Place(LocalMemory(n), f * PAGE + x), place)
    ensures place.memory == LocalMemory(n) && place.addr / 64 == (f * PAGE + x) / 64
  {
  }

  lemma MeetInPool(r: Region, f: nat, x: nat, place: Place)
    requires r.localBase <= f && Meet(PlaceIn(r, f, x), place)
    ensures place.memory.PoolMemory?
  {
  }

  lemma MeetInRegions(r: Region, f: nat, x: nat, q: Region, g: nat, y: nat)
    requires InRegion(r, f) && InRegion(q, g) && x < PAGE && y < PAGE && Meet(PlaceIn(r, f, x), PlaceIn(q, g, y))
    ensures !Apart(r, q) && r.remoteBase + (f - r.localBase) == q.remoteBase + (g - q.localBase) && x / 64 == y / 64
  {
    LinesOfPages(r.remoteBase + (f - r.localBase), q.remoteBase + (g - q.localBase), x, y);
  }

  lemma SameRegion(c: Config, s: Rack, n: nat, i: nat, m: nat, j: nat)
    requires Shape(c, s) && RegionsApart(c, s) && n < c.nodes && m < c.nodes
    requires i < |s.spaces[n].regions| && j < |s.spaces[m].regions|
             && !Apart(s.spaces[n].regions[i], s.spaces[m].regions[j])
    ensures n == m && i == j
  {
  }

  /** Non-aliasing: after any run of accesses, by any nodes and processes, with any choice of pools, two
      mapped virtual addresses translate into one 64-byte line of one memory only if they are the same
      node's, the same process's, and the same virtual line's. */
  lemma NoAliasing(c: Config, steps: seq<Step>, n: nat, p: nat, v: nat, m: nat, q: nat, w: nat)
    requires c.Valid() && c.localPages <= PAGES
    requires (forall i :: 0 <= i < |steps| ==> StepOK(c, steps[i])) && AllServed(c, steps)
    requires n < c.nodes && m < c.nodes && p < c.processes && q < c.processes && v < ADDRESSES && w < ADDRESSES
    requires var a, b := Translate(c, Run(c, steps), n, p, v), Translate(c, Run(c, steps), m, q, w);
             a.Some? && b.Some? && Meet(a.value, b.value)
    ensures (n, p, v / 64) == (m, q, w / 64)
  {
    RunKeeps(c, steps);
    MappedMeet(c, Run(c, steps), n, p, v, m, q, w);
  }

  lemma MappedMeet(c: Config, s: Rack, n: nat, p: nat, v: nat, m: nat, q: nat, w: nat)
    requires Inv(c, s)
    requires n < c.nodes && m < c.nodes && p < c.processes && q < c.processes && v < ADDRESSES && w < ADDRESSES
    requires var a, b := Translate(c, s, n, p, v), Translate(c, s, m, q, w);
             a.Some? && b.Some? && Meet(a.value, b.value)
    ensures (n, p, v / 64) == (m, q, w / 64)
  {
    hide SpacesOK, AllPoolsOK, RegionsInPools, RegionsApart, BothSides, FramesHanded, FramesDistinct, SizesFit, Locate,
         PageOf, Handed;
    var f, g := s.tables[n][p][PageOf(v)], s.tables[m][q][PageOf(w)];
    FrameHanded(c, s, n, p, PageOf(v));
    FrameHanded(c, s, m, q, PageOf(w));
    FramesMeet(c, s, n, f, v % PAGE, m, g, w % PAGE);
    FrameMappedOnce(c, s, n, p, PageOf(v), q, PageOf(w));
    Rejoin(v);
    Rejoin(w);
  }

  lemma FrameHanded(c: Config, s: Rack, n: nat, p: nat, page: nat)
    requires Shape(c, s) && FramesHanded(c, s) && n < c.nodes && p < c.processes && page in s.tables[n][p]
    ensures Handed(s.spaces[n], s.tables[n][p][page])
  {
  }

  lemma FrameMappedOnce(c: Config, s: Rack, n: nat, p: nat, page: nat, q: nat, other: nat)
    requires Shape(c, s) && FramesDistinct(c, s) && n < c.nodes && p < c.processes && q < c.processes
    requires page in s.tables[n][p] && other in s.tables[n][q] && s.tables[n][p][page] == s.tables[n][q][other]
    ensures p == q && page == other
  {
  }

  lemma Rejoin(v: nat)
    requires v < ADDRESSES
    ensures v / 64 == PageOf(v) * 64 + v % PAGE / 64
  {
    hide Split, Number;
    SplitJoins(v);
    LineOf(PageOf(v), v % PAGE);
  }

  // ---------- Region lookup and protection ----------

  /** The node's page, looked up, is a page its pool has lent to this node. */
  ghost predicate FoundAtPool(s: Rack, n: nat, page: nat)
    requires n < |s.spaces|
  {
    var pool := FindPool(s.spaces[n].regions, page);
    && 0 <= pool < |s.pools|
    && var remote := RemotePage(s.spaces[n].regions, page, pool);
       0 <= remote < s.pools[pool].used && Validate(s.pools[pool].shared, remote, n)
  }

  /** In every rack a run leads to: a borrowed page is found at the pool that lent it, whose table accepts
      this node's access to the page computed for it; and for any other page no pool is found. */
  lemma PoolsAgree(c: Config, steps: seq<Step>, n: nat, page: nat)
    requires c.Valid() && c.localPages <= PAGES
    requires (forall i :: 0 <= i < |steps| ==> StepOK(c, steps[i])) && AllServed(c, steps)
    requires n < c.nodes
    ensures var s := Run(c, steps);
            if c.localPages <= page < s.spaces[n].total then FoundAtPool(s, n, page)
            else FindPool(s.spaces[n].regions, page) == -1
  {
    RunKeeps(c, steps);
    FoundIsLent(c, Run(c, steps), n, page);
    hide Run, SpacesOK, AllPoolsOK, RegionsInPools, RegionsApart, BothSides, FramesHanded, FramesDistinct, SizesFit,
         FoundAtPool;
  }

  lemma FoundIsLent(c: Config, s: Rack, n: nat, page: nat)
    requires Shape(c, s) && SpacesOK(c, s) && RegionsInPools(c, s) && BothSides(c, s) && n < c.nodes
    ensures if c.localPages <= page < s.spaces[n].total then FoundAtPool(s, n, page)
            else FindPool(s.spaces[n].regions, page) == -1
  {
    var space := s.spaces[n];
    assert SpaceOK(space) && space.localPages == c.localPages;
    hide Tiles, SharedTiles, HasEntry, InPool, FoundAtPool, FindPool;
    if c.localPages <= page < space.total {
      FoundInside(s, n, page);
    } else {
      LookupIsRegion(space.regions, space.localPages, space.total, page);
    }
  }

  lemma FoundInside(s: Rack, n: nat, page: nat)
    requires n < |s.spaces|
    requires var space := s.spaces[n];
             Tiles(space.regions, space.localPages, space.total) && space.localPages <= page < space.total
    requires forall i :: 0 <= i < |s.spaces[n].regions| ==>
               HasEntry(s, n, s.spaces[n].regions[i]) && InPool(s, s.spaces[n].regions[i])
    ensures FoundAtPool(s, n, page)
  {
    hide Tiles, Validate, FindPool, RemotePage, Recorded;
    var i := Home(s.spaces[n].regions, s.spaces[n].localPages, s.spaces[n].total, page);
    LentPage(s, n, s.spaces[n].regions[i], page);
  }

  lemma LentPage(s: Rack, n: nat, r: Region, page: nat)
    requires HasEntry(s, n, r) && InPool(s, r) && InRegion(r, page)
    ensures var remote := r.remoteBase + (page - r.localBase);
            remote < s.pools[r.pool].used && Validate(s.pools[r.pool].shared, remote, n)
  {
    var e :| 0 <= e < |s.pools[r.pool].shared| && Recorded(s, n, r, s.pools[r.pool].shared[e]);
    hide Validate;
    ValidateIff(s.pools[r.pool].shared, r.remoteBase + (page - r.localBase), n);
  }

  /** A pool accepts a node's access exactly to the pages of that node's regions. */
  lemma ValidIffLent(c: Config, s: Rack, k: nat, page: nat, n: nat)
    requires Shape(c, s) && BothSides(c, s) && k < c.pools && n < c.nodes
    ensures Validate(s.pools[k].shared, page, n)
            <==> exists i :: 0 <= i < |s.spaces[n].regions| && Lends(s.spaces[n].regions[i], k, page)
  {
    hide Validate, BothSides;
    ValidateIff(s.pools[k].shared, page, n);
    var shared := s.pools[k].shared;
    if e :| 0 <= e < |shared| && shared[e].node == n && shared[e].base <= page < shared[e].base + shared[e].limit {
      EntryIsLent(c, s, k, page, n, e);
    }
    if i :| 0 <= i < |s.spaces[n].regions| && Lends(s.spaces[n].regions[i], k, page) {
      LentHasEntry(c, s, k, page, n, i);
    }
  }

  lemma EntryIsLent(c: Config, s: Rack, k: nat, page: nat, n: nat, e: nat)
    requires Shape(c, s) && BothSides(c, s) && k < c.pools && n < c.nodes && e < |s.pools[k].shared|
    requires var x := s.pools[k].shared[e]; x.node == n && x.base <= page < x.base + x.limit
    ensures exists i :: 0 <= i < |s.spaces[n].regions| && Lends(s.spaces[n].regions[i], k, page)
  {
    var x := s.pools[k].shared[e];
    assert HasRegion(c, s, k, x);
    var i :| 0 <= i < |s.spaces[n].regions| && s.spaces[n].regions[i].pool == k
             && Recorded(s, n, s.spaces[n].regions[i], x);
    assert Lends(s.spaces[n].regions[i], k, page);
  }

  lemma LentHasEntry(c: Config, s: Rack, k: nat, page: nat, n: nat, i: nat)
    requires Shape(c, s) && BothSides(c, s) && k < c.pools && n < c.nodes
    requires i < |s.spaces[n].regions| && Lends(s.spaces[n].regions[i], k, page)
    ensures exists e :: 0 <= e < |s.pools[k].shared| && s.pools[k].shared[e].node == n
                        && s.pools[k].shared[e].base <= page < s.pools[k].shared[e].base + s.pools[k].shared[e].limit
  {
    assert HasEntry(s, n, s.spaces[n].regions[i]);
  }

  predicate Lends(r: Region, pool: nat, page: nat) {
    r.pool == pool && r.remoteBase <= page < r.remoteBase + r.size
  }
}
