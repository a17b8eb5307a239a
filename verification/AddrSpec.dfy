/** A node's address space, grown by borrowing chunks of pages from memory pools, with a table of
    regions on each side. `Space` keeps counters, as the trace simulator does; `ListSpace` adds the
    detailed simulator's lists of free pages. */
module AddrSpec {

  /** `size` pages of the node's space, from `localBase` on, are the pool's pages from `remoteBase` on. */
  datatype Region = Region(localBase: nat, remoteBase: nat, size: nat, pool: nat)

  datatype Space = Space(node: nat, localPages: nat, total: nat, remotePages: nat, used: nat,
                         localUsed: nat, remoteUsed: nat, free: int, regions: seq<Region>)

  /** A stretch of the pool that a node has borrowed. */
  datatype Shared = Shared(base: nat, limit: nat, node: nat)

  datatype Pool = Pool(no: nat, total: nat, free: nat, used: nat, shared: seq<Shared>)

  function NewSpace(node: nat, pages: nat): Space {
    Space(node, pages, pages, 0, 0, 0, 0, pages, [])
  }

  function NewPool(no: nat, pages: nat): Pool {
    Pool(no, pages, pages, 0, [])
  }

  predicate FreeLocal(s: Space) {
    s.localPages > s.localUsed
  }

  predicate FreeRemote(s: Space) {
    s.remotePages > s.remoteUsed
  }

  function AllocateLocal(s: Space): (Space, nat) {
    (s.(localUsed := s.localUsed + 1, used := s.used + 1, free := s.free - 1), s.localUsed)
  }

  function AllocateRemote(s: Space): (Space, nat) {
    (s.(remoteUsed := s.remoteUsed + 1, used := s.used + 1, free := s.free - 1),
     s.remoteUsed + s.localPages)
  }

  predicate InRegion(r: Region, page: nat) {
    r.localBase <= page <= r.localBase + r.size - 1
  }

  /** `find_remote_pool`: the pool of the first region that holds the page, or -1. */
  function FindPool(regions: seq<Region>, page: nat): int {
    if regions == [] then -1
    else if InRegion(regions[0], page) then regions[0].pool
    else FindPool(regions[1..], page)
  }

  /** `remote_page_addr`: the first region of that pool that does not end before the page decides. */
  function RemotePage(regions: seq<Region>, page: nat, pool: int): int {
    if regions == [] then -1
    else
      var r := regions[0];
      if pool == r.pool && r.localBase + r.size - 1 >= page then
        if page - r.localBase <= r.size then r.remoteBase + (page - r.localBase) else -1
      else RemotePage(regions[1..], page, pool)
  }

  /** `validate_addr`: may this node touch this page of the pool? */
  predicate Validate(shared: seq<Shared>, page: nat, node: nat) {
    if shared == [] then false
    else
      || (shared[0].node == node && shared[0].base <= page < shared[0].base + shared[0].limit)
      || Validate(shared[1..], page, node)
  }

  /** `request_remote_memory`: a refused request changes nothing. */
  function Request(s: Space, p: Pool, chunk: nat): (Space, Pool) {
    if p.free >= chunk then
      (s.(regions := s.regions + [Region(s.total, p.used, chunk, p.no)],
          total := s.total + chunk, free := s.free + chunk, remotePages := s.remotePages + chunk),
       p.(shared := p.shared + [Shared(p.used, chunk, s.node)],
          used := p.used + chunk, free := p.free - chunk))
    else (s, p)
  }

  // ---------- Regions partition the borrowed space ----------

  /** The regions lie end to end, in order, from `lo` up to `hi`. */
  ghost predicate Tiles(regions: seq<Region>, lo: nat, hi: nat) {
    if regions == [] then lo == hi
    else
      var last := regions[|regions| - 1];
      last.size >= 1 && last.localBase + last.size == hi && lo <= last.localBase
      && Tiles(regions[..|regions| - 1], lo, last.localBase)
  }

  ghost predicate SharedTiles(shared: seq<Shared>, hi: nat) {
    if shared == [] then hi == 0
    else
      var last := shared[|shared| - 1];
      last.limit >= 1 && last.base + last.limit == hi && SharedTiles(shared[..|shared| - 1], last.base)
  }

  ghost predicate SpaceOK(s: Space) {
    && Tiles(s.regions, s.localPages, s.total) && s.localPages <= s.total
    && s.remotePages == s.total - s.localPages
    && s.localUsed <= s.localPages && s.remoteUsed <= s.remotePages
    && s.used == s.localUsed + s.remoteUsed && s.free == s.total - s.used
  }

  ghost predicate PoolOK(p: Pool) {
    p.used + p.free == p.total && SharedTiles(p.shared, p.used)
  }

  lemma {:induction false} TilesBound(regions: seq<Region>, lo: nat, hi: nat, i: nat)
    requires Tiles(regions, lo, hi) && i < |regions|
    ensures lo <= regions[i].localBase && regions[i].localBase + regions[i].size <= hi && regions[i].size >= 1
    decreases |regions|
  {
    var n := |regions| - 1;
    if i < n {
      TilesBound(regions[..n], lo, regions[n].localBase, i);
    }
  }

  lemma {:induction false} TilesInOrder(regions: seq<Region>, lo: nat, hi: nat, i: nat, j: nat)
    requires Tiles(regions, lo, hi) && i < j < |regions|
    ensures regions[i].localBase + regions[i].size <= regions[j].localBase
    decreases |regions|
  {
    var n := |regions| - 1;
    if j < n {
      TilesInOrder(regions[..n], lo, regions[n].localBase, i, j);
    } else {
      TilesBound(regions[..n], lo, regions[n].localBase, i);
    }
  }

  lemma {:induction false} TilesCover(regions: seq<Region>, lo: nat, hi: nat, page: nat)
    requires Tiles(regions, lo, hi) && lo <= page < hi
    ensures exists i :: 0 <= i < |regions| && InRegion(regions[i], page)
    decreases |regions|
  {
    var n := |regions| - 1;
    if page >= regions[n].localBase {
      assert InRegion(regions[n], page);
    } else {
      TilesCover(regions[..n], lo, regions[n].localBase, page);
      var i :| 0 <= i < n && InRegion(regions[..n][i], page);
      assert InRegion(regions[i], page);
    }
  }

  /** The regions partition [lo, hi): a page of it is in exactly one region, any other page in none. */
  lemma RegionsPartition(regions: seq<Region>, lo: nat, hi: nat, page: nat)
    requires Tiles(regions, lo, hi)
    ensures lo <= page < hi <==> exists i :: 0 <= i < |regions| && InRegion(regions[i], page)
    ensures forall i, j ::
              0 <= i < |regions| && 0 <= j < |regions| && InRegion(regions[i], page) && InRegion(regions[j], page) ==>
              i == j
  {
    if lo <= page < hi {
      TilesCover(regions, lo, hi, page);
    }
    forall i | 0 <= i < |regions| && InRegion(regions[i], page) ensures lo <= page < hi {
      TilesBound(regions, lo, hi, i);
    }
    forall i, j | 0 <= i < |regions| && 0 <= j < |regions| && InRegion(regions[i], page) && InRegion(regions[j], page)
      ensures i == j
    {
      if i < j {
        TilesInOrder(regions, lo, hi, i, j);
      } else if j < i {
        TilesInOrder(regions, lo, hi, j, i);
      }
    }
  }

  /** In end-to-end order, first match is the only match. */
  ghost predicate Ascending(regions: seq<Region>) {
    forall i, j :: 0 <= i < j < |regions| ==> regions[i].localBase + regions[i].size <= regions[j].localBase
  }

  lemma {:induction false} FirstMatch(regions: seq<Region>, i: nat, page: nat)
    requires Ascending(regions) && i < |regions| && InRegion(regions[i], page)
    ensures FindPool(regions, page) == regions[i].pool
    ensures RemotePage(regions, page, regions[i].pool) == regions[i].remoteBase + (page - regions[i].localBase)
    decreases |regions|
  {
    if i > 0 {
      assert regions[0].localBase + regions[0].size <= regions[i].localBase;
      forall a, b | 0 <= a < b < |regions[1..]|
        ensures regions[1..][a].localBase + regions[1..][a].size <= regions[1..][b].localBase
      {
        assert regions[1..][a] == regions[a + 1] && regions[1..][b] == regions[b + 1];
      }
      assert regions[1..][i - 1] == regions[i];
      FirstMatch(regions[1..], i - 1, page);
    }
  }

  lemma {:induction false} NoMatch(regions: seq<Region>, page: nat)
    requires forall i :: 0 <= i < |regions| ==> !InRegion(regions[i], page)
    ensures FindPool(regions, page) == -1
    decreases |regions|
  {
    if regions != [] {
      assert forall i :: 0 <= i < |regions| - 1 ==> regions[1..][i] == regions[i + 1];
      NoMatch(regions[1..], page);
    }
  }

  /** Looking a page up: the two first-match searches together give the page's offset in the one region
      that holds it; a page outside the borrowed space has no pool. */
  lemma LookupIsRegion(regions: seq<Region>, lo: nat, hi: nat, page: nat)
    requires Tiles(regions, lo, hi)
    ensures FindPool(regions, page) == -1 <==> !(lo <= page < hi)
    ensures forall i :: 0 <= i < |regions| && InRegion(regions[i], page) ==>
              && FindPool(regions, page) == regions[i].pool
              && RemotePage(regions, page, FindPool(regions, page))
                 == regions[i].remoteBase + (page - regions[i].localBase)
  {
    RegionsPartition(regions, lo, hi, page);
    forall i, j | 0 <= i < j < |regions| ensures regions[i].localBase + regions[i].size <= regions[j].localBase {
      TilesInOrder(regions, lo, hi, i, j);
    }
    forall i | 0 <= i < |regions| && InRegion(regions[i], page)
      ensures FindPool(regions, page) == regions[i].pool
      ensures RemotePage(regions, page, regions[i].pool) == regions[i].remoteBase + (page - regions[i].localBase)
    {
      FirstMatch(regions, i, page);
    }
    if !(lo <= page < hi) {
      NoMatch(regions, page);
    } else {
      var i :| 0 <= i < |regions| && InRegion(regions[i], page);
    }
  }

  /** The region of a borrowed page. */
  lemma Home(regions: seq<Region>, lo: nat, hi: nat, page: nat) returns (i: nat)
    requires Tiles(regions, lo, hi) && lo <= page < hi
    ensures i < |regions| && InRegion(regions[i], page)
    ensures FindPool(regions, page) == regions[i].pool
    ensures RemotePage(regions, page, regions[i].pool) == regions[i].remoteBase + (page - regions[i].localBase)
  {
    TilesCover(regions, lo, hi, page);
    i :| 0 <= i < |regions| && InRegion(regions[i], page);
    LookupIsRegion(regions, lo, hi, page);
  }

  /** A later region does not disturb the lookup of a page that had one. */
  lemma {:induction false} LookupKept(regions: seq<Region>, r: Region, page: nat)
    requires exists i :: 0 <= i < |regions| && InRegion(regions[i], page)
    ensures FindPool(regions + [r], page) == FindPool(regions, page)
    decreases |regions|
  {
    assert (regions + [r])[1..] == regions[1..] + [r];
    if !InRegion(regions[0], page) {
      var i :| 0 <= i < |regions| && InRegion(regions[i], page);
      assert InRegion(regions[1..][i - 1], page);
      LookupKept(regions[1..], r, page);
    }
  }

  lemma {:induction false} RemoteKept(regions: seq<Region>, r: Region, page: nat, pool: int)
    requires exists i :: 0 <= i < |regions| && regions[i].pool == pool && InRegion(regions[i], page)
    ensures RemotePage(regions + [r], page, pool) == RemotePage(regions, page, pool)
    decreases |regions|
  {
    assert (regions + [r])[1..] == regions[1..] + [r];
    var first := regions[0];
    if !(pool == first.pool && first.localBase + first.size - 1 >= page) {
      var i :| 0 <= i < |regions| && regions[i].pool == pool && InRegion(regions[i], page);
      assert regions[1..][i - 1].pool == pool && InRegion(regions[1..][i - 1], page);
      RemoteKept(regions[1..], r, page, pool);
    }
  }

  // ---------- The pool's side ----------

  lemma {:induction false} ValidateIff(shared: seq<Shared>, page: nat, node: nat)
    ensures Validate(shared, page, node)
            <==> exists k ::
                   && 0 <= k < |shared| && shared[k].node == node
                   && shared[k].base <= page < shared[k].base + shared[k].limit
    decreases |shared|
  {
    if shared != [] {
      ValidateIff(shared[1..], page, node);
      if k :| 0 <= k < |shared| && shared[k].node == node && shared[k].base <= page < shared[k].base + shared[k].limit {
        if k > 0 {
          assert shared[1..][k - 1] == shared[k];
        }
      }
      if Validate(shared[1..], page, node) {
        var k :| 0 <= k < |shared[1..]| && shared[1..][k].node == node
                 && shared[1..][k].base <= page < shared[1..][k].base + shared[1..][k].limit;
        assert shared[k + 1] == shared[1..][k];
      }
    }
  }

  lemma {:induction false} SharedInOrder(shared: seq<Shared>, hi: nat, i: nat, j: nat)
    requires SharedTiles(shared, hi) && i < j < |shared|
    ensures shared[i].base + shared[i].limit <= shared[j].base
    decreases |shared|
  {
    var n := |shared| - 1;
    if j < n {
      SharedInOrder(shared[..n], shared[n].base, i, j);
    } else {
      SharedBound(shared[..n], shared[n].base, i);
    }
  }

  lemma {:induction false} SharedBound(shared: seq<Shared>, hi: nat, i: nat)
    requires SharedTiles(shared, hi) && i < |shared|
    ensures shared[i].base + shared[i].limit <= hi && shared[i].limit >= 1
    decreases |shared|
  {
    var n := |shared| - 1;
    if i < n {
      SharedBound(shared[..n], shared[n].base, i);
    }
  }

  lemma {:induction false} SharedCover(shared: seq<Shared>, hi: nat, page: nat)
    requires SharedTiles(shared, hi) && page < hi
    ensures exists k :: 0 <= k < |shared| && shared[k].base <= page < shared[k].base + shared[k].limit
    decreases |shared|
  {
    var n := |shared| - 1;
    if page < shared[n].base {
      SharedCover(shared[..n], shared[n].base, page);
      var k :| 0 <= k < n && shared[..n][k].base <= page < shared[..n][k].base + shared[..n][k].limit;
      assert shared[k].base <= page < shared[k].base + shared[k].limit;
    }
  }

  /** The pool's entries partition its allocated pages: each belongs to exactly one entry, the others to none. */
  lemma SharedPartition(p: Pool, page: nat)
    requires PoolOK(p)
    ensures page < p.used
            <==> exists k :: 0 <= k < |p.shared| && p.shared[k].base <= page < p.shared[k].base + p.shared[k].limit
    ensures forall i, j :: 0 <= i < j < |p.shared| ==> p.shared[i].base + p.shared[i].limit <= p.shared[j].base
  {
    if page < p.used {
      SharedCover(p.shared, p.used, page);
    }
    forall k | 0 <= k < |p.shared| && p.shared[k].base <= page < p.shared[k].base + p.shared[k].limit
      ensures page < p.used
    {
      SharedBound(p.shared, p.used, k);
    }
    forall i, j | 0 <= i < j < |p.shared| ensures p.shared[i].base + p.shared[i].limit <= p.shared[j].base {
      SharedInOrder(p.shared, p.used, i, j);
    }
  }

  // ---------- What the operations keep ----------

  lemma RequestKeeps(s: Space, p: Pool, chunk: nat)
    requires SpaceOK(s) && PoolOK(p) && chunk >= 1
    ensures var (s', p') := Request(s, p, chunk); SpaceOK(s') && PoolOK(p') && p'.total == p.total
  {
    if p.free >= chunk {
      var (s', p') := Request(s, p, chunk);
      assert s'.regions[..|s.regions|] == s.regions;
      assert p'.shared[..|p.shared|] == p.shared;
    }
  }

  /** Allocation hands out a page that was free: the next local or the next borrowed one. */
  lemma AllocationKeeps(s: Space)
    requires SpaceOK(s)
    ensures FreeLocal(s) ==> SpaceOK(AllocateLocal(s).0) && AllocateLocal(s).1 < s.localPages
    ensures FreeRemote(s) ==> SpaceOK(AllocateRemote(s).0) && s.localPages <= AllocateRemote(s).1 < s.total
  {
  }

  /** A remote page handed out after a refused request is beyond the space: no pool is found for it. */
  lemma RefusedPageHasNoPool(s: Space, p: Pool, chunk: nat)
    requires SpaceOK(s) && !FreeRemote(s) && chunk >= 1
    ensures var (s', p') := Request(s, p, chunk);
            FindPool(s'.regions, AllocateRemote(s').1) == -1 <==> p.free < chunk
  {
    var (s', p') := Request(s, p, chunk);
    var page := AllocateRemote(s').1;
    if p.free >= chunk {
      assert s'.regions[..|s.regions|] == s.regions;
      LookupIsRegion(s'.regions, s.localPages, s'.total, page);
    } else {
      LookupIsRegion(s.regions, s.localPages, s.total, page);
    }
  }

  // ---------- Free lists ----------

  datatype ListSpace = ListSpace(space: Space, freeLocal: seq<nat>, freeRemote: seq<nat>)

  function Interval(lo: nat, hi: nat): (r: seq<nat>)
    ensures |r| == if lo <= hi then hi - lo else 0
    ensures forall i :: 0 <= i < |r| ==> r[i] == lo + i
  {
    if lo <= hi then seq(hi - lo, i requires 0 <= i => lo + i) else []
  }

  function NewListSpace(node: nat, pages: nat): ListSpace {
    ListSpace(NewSpace(node, pages), Interval(0, pages), [])
  }

  predicate ListFreeLocal(l: ListSpace) {
    l.freeLocal != []
  }

  predicate ListFreeRemote(l: ListSpace) {
    l.freeRemote != []
  }

  function ListAllocateLocal(l: ListSpace): (ListSpace, nat)
    requires l.freeLocal != []
  {
    (ListSpace(AllocateLocal(l.space).0, l.freeLocal[1..], l.freeRemote), l.freeLocal[0])
  }

  function ListAllocateRemote(l: ListSpace): (ListSpace, nat)
    requires l.freeRemote != []
  {
    (ListSpace(AllocateRemote(l.space).0, l.freeLocal, l.freeRemote[1..]), l.freeRemote[0])
  }

  /** `find_victim_page`: a local page if there is one, else -1 and no change. */
  function FindVictim(l: ListSpace): (ListSpace, int) {
    if l.freeLocal == [] then (l, -1 as int) else (ListAllocateLocal(l).0, l.freeLocal[0] as int)
  }

  function ListRequest(l: ListSpace, p: Pool, chunk: nat): (ListSpace, Pool) {
    var (s', p') := Request(l.space, p, chunk);
    var pushed := if p.free >= chunk then Interval(l.space.total, l.space.total + chunk) else [];
    (ListSpace(s', l.freeLocal, l.freeRemote + pushed), p')
  }

  /** The lists are always the two intervals that the counters describe. */
  ghost predicate Lists(l: ListSpace) {
    && SpaceOK(l.space)
    && l.freeLocal == Interval(l.space.localUsed, l.space.localPages)
    && l.freeRemote == Interval(l.space.localPages + l.space.remoteUsed, l.space.total)
  }

  lemma LocalRefined(l: ListSpace)
    requires Lists(l)
    ensures ListFreeLocal(l) <==> FreeLocal(l.space)
    ensures FreeLocal(l.space) ==>
              (var l' := ListAllocateLocal(l); Lists(l'.0) && (l'.0.space, l'.1) == AllocateLocal(l.space))
  {
    AllocationKeeps(l.space);
    hide Tiles;
    if FreeLocal(l.space) {
      assert l.freeLocal[1..] == Interval(l.space.localUsed + 1, l.space.localPages);
    }
  }

  lemma RemoteRefined(l: ListSpace)
    requires Lists(l)
    ensures ListFreeRemote(l) <==> FreeRemote(l.space)
    ensures FreeRemote(l.space) ==>
              (var l' := ListAllocateRemote(l); Lists(l'.0) && (l'.0.space, l'.1) == AllocateRemote(l.space))
  {
    AllocationKeeps(l.space);
    hide Tiles;
    if FreeRemote(l.space) {
      assert l.freeRemote[1..] == Interval(l.space.localPages + l.space.remoteUsed + 1, l.space.total);
    }
  }

  lemma RequestRefined(l: ListSpace, p: Pool, chunk: nat)
    requires Lists(l) && PoolOK(p) && chunk >= 1
    ensures var (l', p') := ListRequest(l, p, chunk); Lists(l') && (l'.space, p') == Request(l.space, p, chunk)
  {
    hide Tiles, SharedTiles;
    RequestKeeps(l.space, p, chunk);
    var l' := ListRequest(l, p, chunk).0;
    if p.free >= chunk {
      assert l'.freeRemote == Interval(l.space.localPages + l.space.remoteUsed, l.space.total + chunk);
    } else {
      assert l.freeRemote + [] == l.freeRemote;
    }
  }

  /** What a node's callers do: take a page of either kind if there is one, or borrow a chunk. */
  datatype Call = TakeLocal | TakeRemote | TakeVictim | Borrow(pool: nat)

  /** The new state of the node and the pools, and the page handed out (-1 for none). */
  datatype Counted = Counted(space: Space, pools: seq<Pool>, page: int)

  datatype Listed = Listed(list: ListSpace, pools: seq<Pool>, page: int)

  function CountCall(s: Space, pools: seq<Pool>, call: Call, chunk: nat): Counted {
    match call
    case TakeLocal =>
      if FreeLocal(s) then Counted(AllocateLocal(s).0, pools, AllocateLocal(s).1) else Counted(s, pools, -1)
    case TakeVictim =>
      if FreeLocal(s) then Counted(AllocateLocal(s).0, pools, AllocateLocal(s).1) else Counted(s, pools, -1)
    case TakeRemote =>
      if FreeRemote(s) then Counted(AllocateRemote(s).0, pools, AllocateRemote(s).1) else Counted(s, pools, -1)
    case Borrow(k) =>
      if k < |pools| then
        var (s', p') := Request(s, pools[k], chunk);
        Counted(s', pools[k := p'], -1)
      else Counted(s, pools, -1)
  }

  function ListCall(l: ListSpace, pools: seq<Pool>, call: Call, chunk: nat): Listed {
    match call
    case TakeLocal =>
      if ListFreeLocal(l) then Listed(ListAllocateLocal(l).0, pools, ListAllocateLocal(l).1) else Listed(l, pools, -1)
    case TakeVictim => Listed(FindVictim(l).0, pools, FindVictim(l).1)
    case TakeRemote =>
      if ListFreeRemote(l) then Listed(ListAllocateRemote(l).0, pools, ListAllocateRemote(l).1)
      else Listed(l, pools, -1)
    case Borrow(k) =>
      if k < |pools| then
        var (l', p') := ListRequest(l, pools[k], chunk);
        Listed(l', pools[k := p'], -1)
      else Listed(l, pools, -1)
  }

  function CountCalls(s: Space, pools: seq<Pool>, calls: seq<Call>, chunk: nat): (Counted, seq<int>) {
    if calls == [] then (Counted(s, pools, -1), [])
    else
      var (before, pages) := CountCalls(s, pools, calls[..|calls| - 1], chunk);
      var after := CountCall(before.space, before.pools, calls[|calls| - 1], chunk);
      (after, pages + [after.page])
  }

  function ListCalls(l: ListSpace, pools: seq<Pool>, calls: seq<Call>, chunk: nat): (Listed, seq<int>) {
    if calls == [] then (Listed(l, pools, -1), [])
    else
      var (before, pages) := ListCalls(l, pools, calls[..|calls| - 1], chunk);
      var after := ListCall(before.list, before.pools, calls[|calls| - 1], chunk);
      (after, pages + [after.page])
  }

  ghost predicate PoolsOK(pools: seq<Pool>) {
    forall k :: 0 <= k < |pools| ==> PoolOK(pools[k])
  }

  lemma CallRefined(l: ListSpace, pools: seq<Pool>, call: Call, chunk: nat)
    requires Lists(l) && PoolsOK(pools) && chunk >= 1
    ensures var after := ListCall(l, pools, call, chunk);
            && Lists(after.list) && PoolsOK(after.pools)
            && Counted(after.list.space, after.pools, after.page) == CountCall(l.space, pools, call, chunk)
  {
    LocalRefined(l);
    RemoteRefined(l);
    hide Lists, PoolOK;
    match call
    case Borrow(k) =>
      if k < |pools| {
        RequestKeepsPool(l, pools[k], chunk);
        RequestRefined(l, pools[k], chunk);
      }
    case _ =>
  }

  lemma RequestKeepsPool(l: ListSpace, p: Pool, chunk: nat)
    requires Lists(l) && PoolOK(p) && chunk >= 1
    ensures PoolOK(Request(l.space, p, chunk).1)
  {
    RequestKeeps(l.space, p, chunk);
  }

  /** The counter allocator refines the list allocator: under the same calls, however many, both hand
      out the same pages and leave the same counters, regions and pools, and the two free lists are
      always the intervals that the counters describe. */
  lemma {:induction false} CountersRefineLists(l: ListSpace, pools: seq<Pool>, calls: seq<Call>, chunk: nat)
    requires Lists(l) && PoolsOK(pools) && chunk >= 1
    ensures var (after, pages) := ListCalls(l, pools, calls, chunk);
            var (counted, pages') := CountCalls(l.space, pools, calls, chunk);
            && Lists(after.list) && PoolsOK(after.pools) && pages == pages'
            && after.list.space == counted.space && after.pools == counted.pools
    decreases |calls|
  {
    hide Lists, PoolsOK;
    if calls != [] {
      var n := |calls| - 1;
      CountersRefineLists(l, pools, calls[..n], chunk);
      var before := ListCalls(l, pools, calls[..n], chunk).0;
      CallRefined(before.list, before.pools, calls[n], chunk);
    }
  }

  lemma NewLists(node: nat, pages: nat)
    ensures Lists(NewListSpace(node, pages)) && NewListSpace(node, pages).space == NewSpace(node, pages)
  {
  }
}
