/** A core's load/store path and its translations, updated in place, as the simulator keeps them. */
module MissMachine {
  import opened Paging
  import opened RotatingSet
  import opened MissSpec

  /** The node's page table and page faults, shared by its cores. */
  class Translations {
    var table: map<nat, nat>
    var faults: map<nat, Fault>

    ghost function Abs(): Memory
      reads this
    {
      Memory(table, faults)
    }

    constructor ()
      ensures Abs() == Memory(map[], map[])
    {
      table, faults := map[], map[];
    }

    /** The page-table walk, or the fault, behind a TLB miss. */
    method ResolveMiss(k: Config, clock: int, vaddr: nat, a: Allocation) returns (frame: nat, ready: int)
      modifies this
      ensures Resolved(Abs(), frame, ready) == Resolve(k, old(Abs()), clock, vaddr, a)
    {
      var page := TlbTag(vaddr);
      if page in faults {
        return faults[page].frame, faults[page].ready;
      }
      if PageOf(vaddr) in table {
        frame, ready := table[PageOf(vaddr)], clock + k.walkLatency;
      } else {
        table := table[PageOf(vaddr) := a.frame];
        if a.local {
          faults := faults[page := Fault(a.frame, clock + k.faultLatency)];
        } else {
          faults := faults[page := Fault(a.frame, clock + k.chunkLatency)];
        }
        frame := a.frame;
        if a.newChunk {
          ready := clock + k.chunkLatency;
        } else {
          ready := clock + k.faultLatency;
        }
      }
    }

    /** `page_fault_entry_update`. */
    method ExpireFaultEntries(clock: int)
      modifies this
      ensures Abs() == Expire(old(Abs()), clock)
    {
      var unseen := faults.Keys;
      ghost var before := faults;
      while unseen != {}
        invariant table == old(table) && unseen <= before.Keys
        invariant faults.Keys <= before.Keys
        invariant forall p :: p in faults ==> faults[p] == before[p]
        invariant forall p :: p in before ==> (p in faults <==> p in unseen || before[p].ready > clock)
        decreases |unseen|
      {
        var p :| p in unseen;
        unseen := unseen - {p};
        if faults[p].ready <= clock {
          faults := faults - {p};
        }
      }
      assert faults == Expire(Memory(table, before), clock).faults;
    }
  }

  class LoadStorePath {
    var itlb: Tlb
    var dtlb: Tlb
    var itlbMiss: seq<Pending>
    var buffer: seq<Request>
    var dtlbMiss: seq<Pending>
    var mshr: seq<Miss>
    var responses: seq<Response>
    var completed: seq<nat>
    var passed: bool
    const k: Config

    ghost function Abs(): Core
      reads this
    {
      Core(itlb, dtlb, itlbMiss, buffer, dtlbMiss, mshr, responses, completed, passed)
    }

    ghost predicate Valid()
      reads this
    {
      CoreOK(Abs())
    }

    constructor (config: Config)
      requires config.Valid()
      ensures k == config
      ensures Valid() && Abs() == NewCore(k.itlbSets, k.dtlbSets, k.itlbWays, k.dtlbWays)
    {
      k := config;
      itlb := seq(config.itlbSets, _ => NewSet(config.itlbWays, 0));
      dtlb := seq(config.dtlbSets, _ => NewSet(config.dtlbWays, 0));
      itlbMiss, buffer, dtlbMiss, mshr, responses, completed, passed := [], [], [], [], [], [], false;
    }

    /** `dcache_miss`. */
    method DcacheMiss(req: Request)
      modifies this`mshr
      ensures mshr == CacheMiss(old(mshr), req)
    {
      for i := 0 to |mshr|
        invariant mshr == old(mshr)
        invariant LineMiss(mshr[..i], req.vaddr) == -1
      {
        assert mshr[..i + 1][..i] == mshr[..i];
        if req.vaddr / 64 == mshr[i].req.vaddr / 64 {
          FirstIsLine(mshr, req.vaddr, i);
          mshr := mshr[i := mshr[i].(merged := mshr[i].merged + [req.id])];
          return;
        }
      }
      assert mshr[..|mshr|] == mshr;
      mshr := mshr + [Miss(req, [], -1)];
    }

    /** `dtlb_search`, with `ITLB_MISS`'s counterpart `DTLB_MISS` in it. */
    method DtlbSearch(t: Translations, clock: int, stalled: bool, hit: bool, a: Allocation)
      requires Valid()
      modifies this, t
      ensures Valid() && (t.Abs(), Abs()) == Search(k, old(t.Abs()), old(Abs()), clock, stalled, hit, a)
    {
      if stalled || |buffer| == 0 {
        return;
      }
      var req := buffer[0];
      var frame := Lookup(dtlb, req.vaddr, req.asid);
      if frame.Some? {
        if passed {
          passed := false;
        } else if hit {
          responses := responses + [Response(req.id, clock + k.l1Hit)];
          buffer := buffer[1..];
        } else if |mshr| < k.mshr {
          DcacheMiss(req);
          buffer := buffer[1..];
        }
      } else {
        for i := 0 to |dtlbMiss|
          invariant !PageWaits(dtlbMiss[..i], req.vaddr)
          invariant Abs() == old(Abs()) && t.Abs() == old(t.Abs())
        {
          if PageOf(req.vaddr) == PageOf(dtlbMiss[i].req.vaddr) {
            return;
          }
        }
        assert dtlbMiss[..|dtlbMiss|] == dtlbMiss;
        if |dtlbMiss| < k.mshr {
          var f, ready := t.ResolveMiss(k, clock, req.vaddr, a);
          dtlbMiss := dtlbMiss + [Pending(req, f, ready)];
          buffer := buffer[1..];
        }
      }
    }

    /** `dtlb_mshr_update`: at most one translation a cycle goes on to the cache. */
    method DtlbMshrUpdate(clock: int, hit: bool)
      requires Valid()
      modifies this
      ensures Valid() && Abs() == DtlbUpdate(k, old(Abs()), clock, hit)
    {
      ghost var c := Abs();
      for i := 0 to |dtlbMiss|
        invariant Valid() && Abs() == c
        invariant FirstReady(dtlbMiss, clock, 0) == FirstReady(dtlbMiss, clock, i)
      {
        if dtlbMiss[i].ready <= clock {
          var p := dtlbMiss[i];
          dtlb := Refill(dtlb, p.req.vaddr, p.req.asid, p.frame);
          if hit {
            responses := responses + [Response(p.req.id, clock + k.l1Hit)];
            dtlbMiss := dtlbMiss[..i] + dtlbMiss[i + 1..];
          } else if |mshr| < k.mshr {
            DcacheMiss(p.req);
            dtlbMiss := dtlbMiss[..i] + dtlbMiss[i + 1..];
          }
          passed := true;
          return;
        }
      }
    }

    /** An instruction fetch that misses the ITLB: `ITLB_MISS`, one miss at a time. */
    method ItlbMiss(t: Translations, clock: int, req: Request, a: Allocation)
      requires Valid()
      modifies this, t
      ensures Valid() && (t.Abs(), Abs()) == FetchStep(k, old(t.Abs()), old(Abs()), clock, req, a)
    {
      var frame := Lookup(itlb, req.vaddr, req.asid);
      if frame.None? && |itlbMiss| < 1 {
        var f, ready := t.ResolveMiss(k, clock, req.vaddr, a);
        itlbMiss := itlbMiss + [Pending(req, f, ready)];
      }
    }

    /** `itlb_mshr_update`. */
    method ItlbMshrUpdate(clock: int)
      requires Valid()
      modifies this
      ensures Valid() && Abs() == ItlbUpdate(old(Abs()), clock)
    {
      if |itlbMiss| == 1 && itlbMiss[0].ready == clock {
        var p := itlbMiss[0];
        itlb := Refill(itlb, p.req.vaddr, p.req.asid, p.frame);
        itlbMiss := [];
      }
    }

    /** `update_dcache_mshr`: erase while scanning, as the source does. */
    method UpdateDcacheMshr(clock: int)
      modifies this
      ensures Abs() == MshrUpdate(old(Abs()), clock)
    {
      ghost var c := Abs();
      var i := 0;
      while i < |mshr|
        invariant Abs() == c.(mshr := mshr, completed := completed)
        invariant Complete(c.mshr, c.completed, clock, 0) == Complete(mshr, completed, clock, i)
        decreases |mshr| - i
      {
        if 0 < mshr[i].ready <= clock {
          completed := completed + mshr[i].merged + [mshr[i].req.id];
          mshr := mshr[..i] + mshr[i + 1..];
          if |mshr| == 0 || i == |mshr| {
            break;
          }
        }
        i := i + 1;
      }
    }

    /** `load_store_completion`. */
    method LoadStoreCompletion(clock: int)
      modifies this
      ensures Abs() == RespondStep(old(Abs()), clock)
    {
      ghost var c := Abs();
      while |responses| != 0 && responses[0].ready <= clock
        invariant Abs() == c.(responses := responses, completed := completed)
        invariant Respond(c.responses, c.completed, clock) == Respond(responses, completed, clock)
        decreases |responses|
      {
        completed := completed + [responses[0].id];
        responses := responses[1..];
      }
    }
  }

  lemma {:induction false} FirstIsLine(mshr: seq<Miss>, vaddr: nat, i: nat)
    requires i < |mshr| && LineMiss(mshr[..i], vaddr) == -1 && mshr[i].req.vaddr / 64 == vaddr / 64
    ensures LineMiss(mshr, vaddr) == i
    decreases |mshr|
  {
    var n := |mshr| - 1;
    if i < n {
      assert mshr[..n][..i] == mshr[..i];
      FirstIsLine(mshr[..n], vaddr, i);
    }
  }
}
