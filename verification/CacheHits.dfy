/** When an access hits: exactly when its line is among the last fills of its set. */
module CacheHits {
  import opened RotatingSet
  import opened CacheSpec

  /** The line with this tag is one of the last k fills of its set. */
  ghost predicate Held(sets: nat, k: nat, ops: seq<Op>, tag: nat, asid: int)
    requires sets >= 1
  {
    exists m :: HeldAs(sets, k, ops, tag, asid, m)
  }

  ghost predicate HeldAs(sets: nat, k: nat, ops: seq<Op>, tag: nat, asid: int, m: nat)
    requires sets >= 1
  {
    var i := Index(tag, sets);
    && AmongLast(sets, k, ops, i, m)
    && Tag(Fetches(sets, ops, i)[m].addr) == tag && Fetches(sets, ops, i)[m].asid == asid
  }

  /** The line of the m-th fill in its queue. */
  lemma LineOfFill(sets: nat, k: nat, ops: seq<Op>, i: nat, q: Fifo<bool>, m: nat) returns (l: nat)
    requires sets >= 1 && k >= 1 && LastFills(sets, k, ops, i, q) && AmongLast(sets, k, ops, i, m)
    ensures l < |q.lines| && q.lines[l].number == m && IsFill(sets, k, ops, i, q.lines[l])
  {
    hide IsFill, Fetches;
    l := m - (q.filled - |q.lines|);
  }

  lemma FillOfLine(sets: nat, k: nat, ops: seq<Op>, tag: nat, asid: int, q: Fifo<bool>, l: nat)
    requires sets >= 1 && k >= 1 && LastFills(sets, k, ops, Index(tag, sets), q) && l < |q.lines|
    requires Hits(q.lines[l], tag, asid)
    ensures HeldAs(sets, k, ops, tag, asid, q.lines[l].number)
  {
    hide Fetches, Stored, QueueStored;
    assert IsFill(sets, k, ops, Index(tag, sets), q.lines[l]);
  }

  lemma QueueHolds(sets: nat, k: nat, ops: seq<Op>, tag: nat, asid: int)
    requires sets >= 1 && k >= 1
    ensures Held(sets, k, ops, tag, asid)
            <==> Chosen(QueueRun(sets, k, ops, Index(tag, sets)).lines, k, tag, asid) >= 0
  {
    hide QueueRun, LastFills, QueueStored, Fetches, Index;
    var i := Index(tag, sets);
    var q := QueueRun(sets, k, ops, i);
    QueueHoldsLastFills(sets, k, ops, i);
    var j := Chosen(q.lines, k, tag, asid);
    if j >= 0 {
      FillOfLine(sets, k, ops, tag, asid, q, j);
    }
    if m :| HeldAs(sets, k, ops, tag, asid, m) {
      var l := LineOfFill(sets, k, ops, i, q, m);
      assert Hits(q.lines[l], tag, asid);
    }
  }

  /** After any accesses and allocating replacements, an access reports a hit exactly if one of the last k
      fills of its set was for its line and address space. */
  lemma AccessHitsIff(sets: nat, k: nat, storesAllocate: bool, ops: seq<Op>, tag: nat, write: bool, asid: int)
    requires sets >= 1 && k >= 1
    ensures AccessLine(Run(sets, k, storesAllocate, ops), tag, write, asid).1 <==> Held(sets, k, ops, tag, asid)
  {
    var i := Index(tag, sets);
    SetsAreQueues(sets, k, storesAllocate, ops, i);
    FindChooses(Run(sets, k, storesAllocate, ops).sets[i], QueueRun(sets, k, ops, i), tag, asid);
    QueueHolds(sets, k, ops, tag, asid);
    hide Run, QueueRun, Held, Find, Chosen, Rotates;
  }

  lemma AccessKeepsHeld(sets: nat, k: nat, ops: seq<Op>, op: Op, tag: nat, asid: int)
    requires sets >= 1 && op.Access?
    ensures Held(sets, k, ops + [op], tag, asid) <==> Held(sets, k, ops, tag, asid)
  {
    assert (ops + [op])[..|ops|] == ops;
    assert Fetches(sets, ops + [op], Index(tag, sets)) == Fetches(sets, ops, Index(tag, sets));
    hide Fetches;
    forall m ensures HeldAs(sets, k, ops + [op], tag, asid, m) <==> HeldAs(sets, k, ops, tag, asid, m) {
    }
  }

  lemma RunDoes(sets: nat, k: nat, storesAllocate: bool, ops: seq<Op>, op: Op)
    requires sets >= 1 && k >= 1
    ensures Run(sets, k, storesAllocate, ops + [op]) == Do(Run(sets, k, storesAllocate, ops), k, op)
  {
    assert (ops + [op])[..|ops|] == ops;
    hide Do;
  }

  lemma NextTag(addr: nat)
    ensures Tag(NextLine(addr)) == Tag(addr) + 1
  {
  }

  /** The reports of a multi-line access, line by line. */
  ghost predicate Reports(sets: nat, k: nat, ops: seq<Op>, hits: seq<bool>, tag: nat, asid: int)
    requires sets >= 1
  {
    forall j :: 0 <= j < |hits| ==> (hits[j] <==> Held(sets, k, ops, tag + j, asid))
  }

  /** The j-th report of a multi-line access is a hit exactly if the j-th line of its bytes is among the
      last k fills of its set, whatever the access itself does to the lines before. */
  lemma {:induction false} MultiHitsIff(sets: nat, k: nat, storesAllocate: bool, ops: seq<Op>, addr: nat, high: nat,
                                        write: bool, asid: int)
    requires sets >= 1 && k >= 1
    ensures Reports(sets, k, ops, AccessLines(Run(sets, k, storesAllocate, ops), k, addr, high, write, asid).1,
                    Tag(addr), asid)
    decreases high - addr
  {
    hide Run, AccessLine, Held, Tag, NextLine, Do;
    var c := Run(sets, k, storesAllocate, ops);
    var op := Access(Tag(addr), write, asid);
    AccessHitsIff(sets, k, storesAllocate, ops, Tag(addr), write, asid);
    RunDoes(sets, k, storesAllocate, ops, op);
    AccessIs(c, k, Tag(addr), write, asid);
    if NextLine(addr) < high {
      MultiHitsIff(sets, k, storesAllocate, ops + [op], NextLine(addr), high, write, asid);
      NextTag(addr);
      var rest := AccessLines(Run(sets, k, storesAllocate, ops + [op]), k, NextLine(addr), high, write, asid).1;
      forall j | 0 <= j < |rest| ensures rest[j] <==> Held(sets, k, ops, Tag(addr) + 1 + j, asid) {
        AccessKeepsHeld(sets, k, ops, op, Tag(addr) + 1 + j, asid);
      }
    }
  }

  lemma AccessIs(c: Cache, k: nat, tag: nat, write: bool, asid: int)
    requires CacheOK(c, k)
    ensures Do(c, k, Access(tag, write, asid)) == AccessLine(c, tag, write, asid).0
  {
  }

  // ---------- Replacements that do not allocate ----------

  /** What a cache's users do: accesses, and replacements on behalf of loads or stores. */
  datatype Use = Search(tag: nat, write: bool, asid: int) | Replacement(addr: nat, write: bool, asid: int)

  function Perform(c: Cache, k: nat, u: Use): (c': Cache)
    requires CacheOK(c, k)
    ensures CacheOK(c', k) && |c'.sets| == |c.sets| && c'.storesAllocate == c.storesAllocate
  {
    match u
    case Search(tag, write, asid) => AccessLine(c, tag, write, asid).0
    case Replacement(addr, write, asid) => if Allocates(c, write) then Replace(c, addr, asid).0 else c
  }

  function Performed(sets: nat, k: nat, storesAllocate: bool, uses: seq<Use>): (c: Cache)
    requires sets >= 1 && k >= 1
    ensures CacheOK(c, k) && |c.sets| == sets && c.storesAllocate == storesAllocate
  {
    if uses == [] then NewCache(sets, k, storesAllocate)
    else Perform(Performed(sets, k, storesAllocate, uses[..|uses| - 1]), k, uses[|uses| - 1])
  }

  /** The accesses, and the replacements for loads, and those for stores if the cache allocates for stores. */
  function Effective(uses: seq<Use>, storesAllocate: bool): seq<Op> {
    if uses == [] then []
    else
      var before := Effective(uses[..|uses| - 1], storesAllocate);
      match uses[|uses| - 1]
      case Search(tag, write, asid) => before + [Access(tag, write, asid)]
      case Replacement(addr, write, asid) => if write && !storesAllocate then before else before + [Fetch(addr, asid)]
  }

  /** A replacement for a store counts in a cache that allocates for stores, and is as if it had not been in
      one that does not. So what is said of histories of accesses and allocating replacements is said of all. */
  lemma {:induction false} OnlyAllocatingCount(sets: nat, k: nat, storesAllocate: bool, uses: seq<Use>)
    requires sets >= 1 && k >= 1
    ensures Performed(sets, k, storesAllocate, uses) == Run(sets, k, storesAllocate, Effective(uses, storesAllocate))
    decreases |uses|
  {
    hide AccessLine, Replace, CacheOK;
    if uses != [] {
      var front := uses[..|uses| - 1];
      OnlyAllocatingCount(sets, k, storesAllocate, front);
      var before, all := Effective(front, storesAllocate), Effective(uses, storesAllocate);
      assert all != before ==> all[..|all| - 1] == before;
    }
  }
}
