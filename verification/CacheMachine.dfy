/** Sets and caches as the simulator keeps them: arrays updated in place, searched by loops. */
module CacheMachine {
  import opened RotatingSet
  import opened CacheSpec

  /** A set: its ways and the index that the next replacement takes. */
  class RoundRobin<T> {
    const ways: array<Way<T>>
    var next: nat

    ghost function Abs(): Set<T>
      reads this, ways
    {
      Set(ways[..], next)
    }

    ghost predicate Valid()
      reads this, ways
    {
      SetOK(Abs())
    }

    constructor (associativity: nat, blank: T)
      requires associativity >= 1
      ensures Valid() && fresh(ways) && Abs() == NewSet(associativity, blank)
    {
      ways := new Way<T>[associativity](_ => Way(0, 0, false, blank));
      next := associativity - 1;
      new;
      assert ways[..] == NewSet(associativity, blank).ways;
    }

    /** From the last index down, as all the searches go. */
    method FindWay(tag: nat, asid: int) returns (index: int)
      requires Valid()
      ensures index == Find(Abs(), tag, asid)
    {
      index := ways.Length - 1;
      while index >= 0
        invariant -1 <= index < ways.Length
        invariant FindFrom(ways[..], tag, asid, ways.Length - 1) == FindFrom(ways[..], tag, asid, index)
      {
        if ways[index].tag == tag && ways[index].asid == asid && ways[index].valid {
          return;
        }
        index := index - 1;
      }
    }

    /** `Find_And_Access` of a cache set, with the data that a write leaves. */
    method FindAndAccess(tag: nat, asid: int, write: bool, data: T) returns (hit: bool)
      requires Valid()
      modifies ways
      ensures Valid() && Abs() == if write then Mark(old(Abs()), tag, asid, data) else old(Abs())
      ensures hit == (Find(old(Abs()), tag, asid) >= 0)
    {
      var index := FindWay(tag, asid);
      hit := index >= 0;
      if hit && write {
        ways[index] := ways[index].(data := data);
      }
    }

    /** `Replace`: returns what the way held. */
    method Replace(tag: nat, asid: int, data: T) returns (victim: Way<T>)
      requires Valid()
      modifies this, ways
      ensures Valid() && Abs() == Fill(old(Abs()), tag, asid, data) && victim == old(ways[next])
    {
      var index := next;
      victim := ways[index];
      ways[index] := Way(tag, asid, true, data);
      next := if index == 0 then ways.Length - 1 else index - 1;
    }
  }

  /** What a multi-line access will have done when it has reached `addr` with these hits. */
  ghost function Remaining(c: Cache, k: nat, addr: nat, high: nat, write: bool, asid: int,
                           hits: seq<bool>): (Cache, seq<bool>)
    requires CacheOK(c, k)
  {
    if addr < high then
      var r := AccessLines(c, k, addr, high, write, asid);
      (r.0, hits + r.1)
    else (c, hits)
  }

  lemma RemainingStep(c: Cache, k: nat, addr: nat, high: nat, write: bool, asid: int, hits: seq<bool>)
    requires CacheOK(c, k) && addr < high
    ensures var (c', hit) := AccessLine(c, Tag(addr), write, asid);
            && CacheOK(c', k)
            && Remaining(c, k, addr, high, write, asid, hits)
               == Remaining(c', k, NextLine(addr), high, write, asid, hits + [hit])
  {
    var (c', hit) := AccessLine(c, Tag(addr), write, asid);
    var next := NextLine(addr);
    if next < high {
      var r := AccessLines(c', k, next, high, write, asid);
      assert hits + ([hit] + r.1) == (hits + [hit]) + r.1;
    }
  }

  lemma NothingRemains(c: Cache, k: nat, addr: nat, high: nat, write: bool, asid: int, hits: seq<bool>)
    requires CacheOK(c, k) && addr >= high
    ensures Remaining(c, k, addr, high, write, asid, hits) == (c, hits)
  {
  }

  lemma FirstLine(c: Cache, k: nat, addr: nat, high: nat, write: bool, asid: int)
    requires CacheOK(c, k)
    ensures var (c', hit) := AccessLine(c, Tag(addr), write, asid);
            && CacheOK(c', k)
            && AccessLines(c, k, addr, high, write, asid)
               == Remaining(c', k, NextLine(addr), high, write, asid, [hit])
  {
  }

  class DataCache {
    const sets: array<Set<bool>>
    const associativity: nat
    const storesAllocate: bool

    ghost function Abs(): Cache
      reads this, sets
    {
      Cache(sets[..], storesAllocate)
    }

    ghost predicate Valid()
      reads this, sets
    {
      CacheOK(Abs(), associativity)
    }

    constructor (setCount: nat, k: nat, allocate: bool)
      requires setCount >= 1 && k >= 1
      ensures Valid() && fresh(sets) && associativity == k && Abs() == NewCache(setCount, k, allocate)
    {
      sets := new Set<bool>[setCount](_ => NewSet(k, false));
      associativity := k;
      storesAllocate := allocate;
      new;
      assert sets[..] == NewCache(setCount, k, allocate).sets;
    }

    method AccessSingleCacheLine(addr: nat, write: bool, asid: int) returns (hit: bool)
      requires Valid()
      modifies sets
      ensures Valid() && (Abs(), hit) == AccessLine(old(Abs()), Tag(addr), write, asid)
    {
      var i := Index(Tag(addr), sets.Length);
      var s := sets[i];
      var way := Find(s, Tag(addr), asid);
      hit := way >= 0;
      if hit && write {
        sets[i] := s.(ways := s.ways[way := s.ways[way].(data := true)]);
      }
      assert sets[..] == AccessLine(old(Abs()), Tag(addr), write, asid).0.sets;
    }

    /** All the lines that `size` bytes from `start` touch; `hits` reports each. */
    method AccessMultiCacheLine(start: nat, size: nat, write: bool, asid: int) returns (hits: seq<bool>)
      requires Valid()
      modifies sets
      ensures Valid() && (Abs(), hits) == AccessLines(old(Abs()), associativity, start, start + size, write, asid)
      ensures |hits| == LinesTouched(start, size)
    {
      MultiTouchesLines(Abs(), associativity, start, size, write, asid);
      hide CacheOK, AccessLine, AccessLines, Tag, LinesTouched, Remaining, NextLine;
      var addr, high := start, start + size;
      ghost var c0 := Abs();
      FirstLine(c0, associativity, start, high, write, asid);
      var hit := AccessSingleCacheLine(addr, write, asid);
      hits := [hit];
      addr := NextLine(addr);
      while addr < high
        invariant Valid()
        invariant AccessLines(c0, associativity, start, high, write, asid)
                  == Remaining(Abs(), associativity, addr, high, write, asid, hits)
        decreases high - addr
      {
        RemainingStep(Abs(), associativity, addr, high, write, asid, hits);
        hit := AccessSingleCacheLine(addr, write, asid);
        hits := hits + [hit];
        addr := NextLine(addr);
      }
      NothingRemains(Abs(), associativity, addr, high, write, asid, hits);
    }

    /** `ReplaceCACHE`: a store into a cache that does not allocate for stores changes nothing. */
    method ReplaceLine(addr: nat, write: bool, asid: int) returns (victim: Victim)
      requires Valid()
      modifies sets
      ensures Valid()
      ensures if Allocates(old(Abs()), write) then (Abs(), victim) == Replace(old(Abs()), addr, asid)
              else Abs() == old(Abs()) && !victim.modified
    {
      victim := Victim(false, 0);
      if !write || storesAllocate {
        var i := Index(Tag(addr), sets.Length);
        var s := sets[i];
        var way := s.ways[s.next];
        victim := Victim(way.data, way.tag * LINE);
        var next := if s.next == 0 then |s.ways| - 1 else s.next - 1;
        sets[i] := Set(s.ways[s.next := Way(Tag(addr), asid, true, false)], next);
      }
    }
  }

  // ---------- The shift of a set's addresses ----------

  /** Position of the highest bit, by halving the range five times; all ones for zero. */
  method FloorLog2(value: bv32) returns (p: bv32)
    ensures value == 0 ==> p == 0xffff_ffff
    ensures value != 0 ==> p < 32 && value >> p == 1
  {
    if value == 0 {
      return 0xffff_ffff;
    }
    var n := value;
    p := 0;
    if n & 0xffff_0000 != 0 { p := p + 16; n := n >> 16; }
    if n & 0x0000_ff00 != 0 { p := p + 8; n := n >> 8; }
    if n & 0x0000_00f0 != 0 { p := p + 4; n := n >> 4; }
    if n & 0x0000_000c != 0 { p := p + 2; n := n >> 2; }
    if n & 0x0000_0002 != 0 { p := p + 1; }
  }
}
