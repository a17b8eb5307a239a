/** The address spaces as the simulators keep them, updated in place: a node's counters and regions, the
    detailed simulator's free lists beside them, a pool, and the page-fault handler across them. */
module AddrMachine {
  import opened Paging
  import opened PageTables
  import opened AddrSpec
  import opened RackSpec

  /** A node's address space as the trace simulator keeps it. */
  class CounterSpace {
    const node: nat
    const localPages: nat
    var total: nat
    var remotePages: nat
    var used: nat
    var localUsed: nat
    var remoteUsed: nat
    var free: int
    var regions: seq<Region>

    ghost function Abs(): Space
      reads this
    {
      Space(node, localPages, total, remotePages, used, localUsed, remoteUsed, free, regions)
    }

    /** `add_local_memory`. */
    constructor (nodeNumber: nat, pages: nat)
      ensures Abs() == NewSpace(nodeNumber, pages)
    {
      node, localPages, total, remotePages, used, localUsed, remoteUsed, free, regions :=
        nodeNumber, pages, pages, 0, 0, 0, 0, pages, [];
    }

    method HasFreeLocal() returns (r: bool)
      ensures r == FreeLocal(Abs())
    {
      r := localPages > localUsed;
    }

    method HasFreeRemote() returns (r: bool)
      ensures r == FreeRemote(Abs())
    {
      r := remotePages > remoteUsed;
    }

    method AllocateLocalPage() returns (page: nat)
      modifies this
      ensures (Abs(), page) == AllocateLocal(old(Abs()))
    {
      localUsed := localUsed + 1;
      used := used + 1;
      free := free - 1;
      page := localUsed - 1;
    }

    method AllocateRemotePage() returns (page: nat)
      modifies this
      ensures (Abs(), page) == AllocateRemote(old(Abs()))
    {
      remoteUsed := remoteUsed + 1;
      used := used + 1;
      free := free - 1;
      page := remoteUsed + localPages - 1;
    }

    method FindRemotePool(page: nat) returns (pool: int)
      ensures pool == FindPool(regions, page)
    {
      assert regions[0..] == regions;
      for i := 0 to |regions|
        invariant FindPool(regions, page) == FindPool(regions[i..], page)
      {
        assert regions[i..][0] == regions[i] && regions[i..][1..] == regions[i + 1..];
        if page >= regions[i].localBase && page <= regions[i].localBase + regions[i].size - 1 {
          return regions[i].pool;
        }
      }
      return -1;
    }

    method RemotePageAddr(page: nat, pool: int) returns (remote: int)
      ensures remote == RemotePage(regions, page, pool)
    {
      remote := -1;
      assert regions[0..] == regions;
      for i := 0 to |regions|
        invariant remote == -1 && RemotePage(regions, page, pool) == RemotePage(regions[i..], page, pool)
      {
        assert regions[i..][0] == regions[i] && regions[i..][1..] == regions[i + 1..];
        var limit := regions[i].localBase + regions[i].size - 1;
        if pool == regions[i].pool && limit >= page {
          var offset := page - regions[i].localBase;
          if offset <= regions[i].size {
            remote := regions[i].remoteBase + offset;
          }
          break;
        }
      }
    }

    method AddRemoteMemoryEntry(localBase: nat, remoteBase: nat, size: nat, pool: nat)
      modifies this`regions
      ensures regions == old(regions) + [Region(localBase, remoteBase, size, pool)]
    {
      regions := regions + [Region(localBase, remoteBase, size, pool)];
    }
  }

  class MemoryPool {
    const no: nat
    const total: nat
    var free: nat
    var used: nat
    var shared: seq<Shared>

    ghost function Abs(): Pool
      reads this
    {
      Pool(no, total, free, used, shared)
    }

    /** `add_remote_memory_pool`. */
    constructor (number: nat, pages: nat)
      ensures Abs() == NewPool(number, pages)
    {
      no, total, free, used, shared := number, pages, pages, 0, [];
    }

    method ValidateAddr(page: nat, node: nat) returns (valid: bool)
      ensures valid == Validate(shared, page, node)
    {
      valid := false;
      assert shared[0..] == shared;
      for i := 0 to |shared|
        invariant !valid && Validate(shared, page, node) == Validate(shared[i..], page, node)
      {
        assert shared[i..][0] == shared[i] && shared[i..][1..] == shared[i + 1..];
        var last := shared[i].base + shared[i].limit;
        if shared[i].node == node && page >= shared[i].base && page < last {
          valid := true;
          break;
        }
      }
    }

    method AddSharedMemoryEntry(base: nat, size: nat, node: nat)
      modifies this`shared
      ensures shared == old(shared) + [Shared(base, size, node)]
    {
      shared := shared + [Shared(base, size, node)];
    }
  }

  /** The trace simulator's `request_remote_memory`. */
  method RequestRemoteMemory(L: CounterSpace, R: MemoryPool, pages: nat) returns (granted: bool)
    modifies L, R
    ensures (L.Abs(), R.Abs()) == Request(old(L.Abs()), old(R.Abs()), pages)
    ensures granted == (old(R.free) >= pages)
  {
    granted := R.free >= pages;
    if granted {
      L.AddRemoteMemoryEntry(L.total, R.used, pages, R.no);
      L.total := L.total + pages;
      L.free := L.free + pages;
      L.remotePages := L.remotePages + pages;
      R.AddSharedMemoryEntry(R.used, pages, L.node);
      R.used := R.used + pages;
      R.free := R.free - pages;
    }
  }

  /** The trace simulator's `handle_page_fault`. */
  method HandlePageFault(c: Config, table: PageTable, L: CounterSpace, R: MemoryPool, faults: nat, vaddr: nat)
    returns (faultsAfter: nat, frame: nat)
    requires table.Valid()
    modifies table, L, R
    ensures table.Valid()
    ensures Faulted(L.Abs(), R.Abs(), table.Map(), faultsAfter)
            == FaultOn(c, old(L.Abs()), old(R.Abs()), old(table.Map()), faults, PageOf(vaddr))
    ensures PageOf(vaddr) in table.Map() && frame == table.Map()[PageOf(vaddr)]
  {
    var freeLocal := L.HasFreeLocal();
    var local := faults % 2 == c.localParity && freeLocal;
    faultsAfter := faults + 1;
    if !local {
      var freeRemote := L.HasFreeRemote();
      if !freeRemote {
        var granted := RequestRemoteMemory(L, R, c.chunk);
      }
    }
    var found, there := table.PageTableWalk(vaddr);
    frame := there;
    if !found {
      if local {
        frame := L.AllocateLocalPage();
      } else {
        frame := L.AllocateRemotePage();
      }
      table.AddPage(vaddr, frame);
    }
  }

  /** A node's address space as the detailed simulator keeps it: the same counters and regions, and two
      lists of free pages. */
  class ListedSpace {
    const counters: CounterSpace
    var freeLocalPages: seq<nat>
    var freeRemotePages: seq<nat>

    ghost function Abs(): ListSpace
      reads this, counters
    {
      ListSpace(counters.Abs(), freeLocalPages, freeRemotePages)
    }

    ghost predicate Valid()
      reads this, counters
    {
      Lists(Abs())
    }

    constructor (nodeNumber: nat, pages: nat)
      ensures Valid() && Abs() == NewListSpace(nodeNumber, pages) && fresh(counters)
    {
      counters := new CounterSpace(nodeNumber, pages);
      freeLocalPages, freeRemotePages := [], [];
      new;
      for i := 0 to pages
        invariant freeLocalPages == Interval(0, i) && freeRemotePages == []
        invariant fresh(counters) && counters.Abs() == NewSpace(nodeNumber, pages)
      {
        assert Interval(0, i + 1) == Interval(0, i) + [i];
        freeLocalPages := freeLocalPages + [i];
      }
      NewLists(nodeNumber, pages);
    }

    method HasFreeLocal() returns (r: bool)
      requires Valid()
      ensures r == FreeLocal(counters.Abs())
    {
      r := |freeLocalPages| != 0;
      LocalRefined(Abs());
    }

    method HasFreeRemote() returns (r: bool)
      requires Valid()
      ensures r == FreeRemote(counters.Abs())
    {
      r := |freeRemotePages| != 0;
      RemoteRefined(Abs());
    }

    /** The front of the list, which is the page that the counters would have handed out. */
    method AllocateLocalPage() returns (page: nat)
      requires Valid() && freeLocalPages != []
      modifies this, counters
      ensures Valid() && (Abs(), page) == ListAllocateLocal(old(Abs()))
      ensures (counters.Abs(), page) == AllocateLocal(old(counters.Abs()))
    {
      LocalRefined(Abs());
      page := freeLocalPages[0];
      freeLocalPages := freeLocalPages[1..];
      counters.localUsed := counters.localUsed + 1;
      counters.used := counters.used + 1;
      counters.free := counters.free - 1;
    }

    method AllocateRemotePage() returns (page: nat)
      requires Valid() && freeRemotePages != []
      modifies this, counters
      ensures Valid() && (Abs(), page) == ListAllocateRemote(old(Abs()))
      ensures (counters.Abs(), page) == AllocateRemote(old(counters.Abs()))
    {
      RemoteRefined(Abs());
      page := freeRemotePages[0];
      freeRemotePages := freeRemotePages[1..];
      counters.remoteUsed := counters.remoteUsed + 1;
      counters.used := counters.used + 1;
      counters.free := counters.free - 1;
    }

    method FindVictimPage() returns (page: int)
      requires Valid()
      modifies this, counters
      ensures Valid() && (Abs(), page) == FindVictim(old(Abs()))
    {
      page := -1;
      LocalRefined(Abs());
      if |freeLocalPages| != 0 {
        page := AllocateLocalPage();
      }
    }
  }

  /** The detailed simulator's `request_remote_memory`. */
  method RequestListedMemory(L: ListedSpace, R: MemoryPool, pages: nat) returns (granted: bool)
    requires L.Valid() && PoolOK(R.Abs()) && pages >= 1
    modifies L, L.counters, R
    ensures L.Valid() && PoolOK(R.Abs()) && (L.Abs(), R.Abs()) == ListRequest(old(L.Abs()), old(R.Abs()), pages)
    ensures (L.counters.Abs(), R.Abs()) == Request(old(L.counters.Abs()), old(R.Abs()), pages)
    ensures granted == (old(R.free) >= pages)
  {
    RequestRefined(L.Abs(), R.Abs(), pages);
    RequestKeepsPool(L.Abs(), R.Abs(), pages);
    ghost var before := L.freeRemotePages;
    if R.free >= pages {
      var first := L.counters.total;
      for i := 0 to pages
        invariant L.counters.Abs() == old(L.counters.Abs()) && R.Abs() == old(R.Abs())
        invariant L.freeLocalPages == old(L.freeLocalPages)
        invariant L.freeRemotePages == before + Interval(first, first + i)
      {
        assert Interval(first, first + i + 1) == Interval(first, first + i) + [first + i];
        L.freeRemotePages := L.freeRemotePages + [first + i];
      }
    } else {
      assert before + [] == before;
    }
    granted := RequestRemoteMemory(L.counters, R, pages);
  }

  lemma RemoteCounts(l: ListSpace)
    requires Lists(l)
    ensures l.space.remoteUsed <= l.space.remotePages
  {
  }

  /** The detailed simulator's `handle_page_fault`: on lists instead of counters, and with the same result. */
  method HandleListedFault(c: Config, table: PageTable, L: ListedSpace, R: MemoryPool, faults: nat, vaddr: nat)
    returns (faultsAfter: nat, frame: nat)
    requires c.chunk >= 1 && table.Valid() && L.Valid() && PoolOK(R.Abs())
    requires NeedsChunk(c, faults, L.counters.Abs()) && PageOf(vaddr) !in table.Map() ==> R.free >= c.chunk
    modifies table, L, L.counters, R
    ensures table.Valid() && L.Valid() && PoolOK(R.Abs())
    ensures Faulted(L.counters.Abs(), R.Abs(), table.Map(), faultsAfter)
            == FaultOn(c, old(L.counters.Abs()), old(R.Abs()), old(table.Map()), faults, PageOf(vaddr))
    ensures PageOf(vaddr) in table.Map() && frame == table.Map()[PageOf(vaddr)]
  {
    hide Lists, Tiles, SharedTiles, PageOf;
    var freeLocal := L.HasFreeLocal();
    var local := faults % 2 == c.localParity && freeLocal;
    faultsAfter := faults + 1;
    if !local {
      var freeRemote := L.HasFreeRemote();
      if !freeRemote {
        RemoteCounts(L.Abs());
        var granted := RequestListedMemory(L, R, c.chunk);
      }
    }
    var found, there := table.PageTableWalk(vaddr);
    frame := there;
    if !found {
      if local {
        LocalRefined(L.Abs());
        frame := L.AllocateLocalPage();
      } else {
        RemoteRefined(L.Abs());
        frame := L.AllocateRemotePage();
      }
      table.AddPage(vaddr, frame);
    }
  }
}
