/** A set-associative cache over rotating sets: accesses mark lines dirty, replacements fill them. */
module CacheSpec {
  import opened RotatingSet

  /** Bytes of a line: what all four caches use, and what the shift of a victim's address assumes. */
  const LINE := 64

  /** Each set's ways carry their dirty bit. */
  datatype Cache = Cache(sets: seq<Set<bool>>, storesAllocate: bool)

  ghost predicate CacheOK(c: Cache, k: nat) {
    k >= 1 && |c.sets| >= 1 && forall i :: 0 <= i < |c.sets| ==> SetOK(c.sets[i]) && |c.sets[i].ways| == k
  }

  function NewCache(sets: nat, k: nat, storesAllocate: bool): (c: Cache)
    requires sets >= 1 && k >= 1
    ensures CacheOK(c, k)
  {
    Cache(seq(sets, _ => NewSet(k, false)), storesAllocate)
  }

  // ---------- Addresses ----------

  function Tag(addr: nat): nat {
    addr / LINE
  }

  /** `SplitAddress`: the set count is a power of two, so the mask takes the remainder. */
  function Index(tag: nat, sets: nat): (i: nat)
    requires sets >= 1
    ensures i < sets
  {
    tag % sets
  }

  /** Where the line after that of an address begins. */
  function NextLine(addr: nat): (next: nat)
    ensures next > addr
  {
    addr / LINE * LINE + LINE
  }

  /** Where the line of an address begins. */
  function LineBase(addr: nat): nat {
    addr - addr % LINE
  }

  /** A tag shifted back by a line's width is the beginning of the line, whatever address brought it. */
  lemma VictimAddressIsBase(addr: nat)
    ensures Tag(addr) * LINE == LineBase(addr)
    ensures LineBase(addr) <= addr < LineBase(addr) + LINE && LineBase(addr) % LINE == 0
  {
  }

  // ---------- Operations ----------

  /** `AccessSingleCacheLine`: a store that hits makes the line dirty. */
  function AccessLine(c: Cache, tag: nat, write: bool, asid: int): (r: (Cache, bool))
    requires |c.sets| >= 1 && SetOK(c.sets[Index(tag, |c.sets|)])
  {
    var i := Index(tag, |c.sets|);
    (if write then c.(sets := c.sets[i := Mark(c.sets[i], tag, asid, true)]) else c, Find(c.sets[i], tag, asid) >= 0)
  }

  /** `AccessMultiCacheLine`: one line after another, from the one that holds `addr` until `high` is reached. */
  function AccessLines(c: Cache, k: nat, addr: nat, high: nat, write: bool, asid: int): (r: (Cache, seq<bool>))
    requires CacheOK(c, k)
    ensures CacheOK(r.0, k) && |r.0.sets| == |c.sets| && r.0.storesAllocate == c.storesAllocate
    decreases high - addr
  {
    var (c1, hit) := AccessLine(c, Tag(addr), write, asid);
    var next := NextLine(addr);
    if next < high then
      var (c2, hits) := AccessLines(c1, k, next, high, write, asid);
      (c2, [hit] + hits)
    else (c1, [hit])
  }

  /** What a replacement reports: was the victim modified, and where does its line begin. */
  datatype Victim = Victim(modified: bool, addr: nat)

  predicate Allocates(c: Cache, write: bool) {
    !write || c.storesAllocate
  }

  /** `ReplaceCACHE`, when it allocates. */
  function Replace(c: Cache, addr: nat, asid: int): (r: (Cache, Victim))
    requires |c.sets| >= 1 && SetOK(c.sets[Index(Tag(addr), |c.sets|)])
  {
    var i := Index(Tag(addr), |c.sets|);
    var s := c.sets[i];
    (c.(sets := c.sets[i := Fill(s, Tag(addr), asid, false)]),
     Victim(s.ways[s.next].data, s.ways[s.next].tag * LINE))
  }

  // ---------- Histories ----------

  /** Accesses to lines, and allocating replacements. */
  datatype Op = Access(tag: nat, write: bool, asid: int) | Fetch(addr: nat, asid: int)

  function Target(op: Op, sets: nat): (i: nat)
    requires sets >= 1
    ensures i < sets
  {
    Index(if op.Access? then op.tag else Tag(op.addr), sets)
  }

  function Do(c: Cache, k: nat, op: Op): (c': Cache)
    requires CacheOK(c, k)
    ensures CacheOK(c', k) && |c'.sets| == |c.sets|
  {
    match op
    case Access(tag, write, asid) => AccessLine(c, tag, write, asid).0
    case Fetch(addr, asid) => Replace(c, addr, asid).0
  }

  function Run(sets: nat, k: nat, storesAllocate: bool, ops: seq<Op>): (c: Cache)
    requires sets >= 1 && k >= 1
    ensures CacheOK(c, k) && |c.sets| == sets
  {
    if ops == [] then NewCache(sets, k, storesAllocate)
    else Do(Run(sets, k, storesAllocate, ops[..|ops| - 1]), k, ops[|ops| - 1])
  }

  // ---------- The reference: each set a queue of its last k fills ----------

  function QueueDo(q: Fifo<bool>, k: nat, op: Op): Fifo<bool>
    requires k >= 1
  {
    match op
    case Access(tag, write, asid) => if write then Renew(q, k, tag, asid, true) else q
    case Fetch(addr, asid) => Push(q, k, Tag(addr), asid, false)
  }

  /** The queue of set i after the operations. */
  function QueueRun(sets: nat, k: nat, ops: seq<Op>, i: nat): Fifo<bool>
    requires sets >= 1 && k >= 1
  {
    if ops == [] then Fifo([], 0)
    else
      var q := QueueRun(sets, k, ops[..|ops| - 1], i);
      if Target(ops[|ops| - 1], sets) == i then QueueDo(q, k, ops[|ops| - 1]) else q
  }

  /** Each set of the cache is its queue, after any operations. */
  lemma {:induction false} SetsAreQueues(sets: nat, k: nat, storesAllocate: bool, ops: seq<Op>, i: nat)
    requires i < sets && k >= 1
    ensures Rotates(Run(sets, k, storesAllocate, ops).sets[i], QueueRun(sets, k, ops, i))
    decreases |ops|
  {
    hide Rotates, Numbered;
    if ops == [] {
      NewSetRotates(k, false);
    } else {
      var front, op := ops[..|ops| - 1], ops[|ops| - 1];
      SetsAreQueues(sets, k, storesAllocate, front, i);
      var s, q := Run(sets, k, storesAllocate, front).sets[i], QueueRun(sets, k, front, i);
      if Target(op, sets) == i {
        match op {
          case Access(tag, write, asid) => MarkRenews(s, q, tag, asid, true);
          case Fetch(addr, asid) => FillPushes(s, q, Tag(addr), asid, false);
        }
      }
    }
  }

  // ---------- What the queue holds ----------

  datatype Fetched = Fetched(addr: nat, asid: int)

  /** The fills of set i, in order. */
  function Fetches(sets: nat, ops: seq<Op>, i: nat): seq<Fetched>
    requires sets >= 1
  {
    if ops == [] then []
    else
      var before := Fetches(sets, ops[..|ops| - 1], i);
      var op := ops[|ops| - 1];
      if op.Fetch? && Target(op, sets) == i then before + [Fetched(op.addr, op.asid)] else before
  }

  /** In the queue of set i, a store in step t hit the line that the m-th fill brought. */
  ghost predicate QueueHit(sets: nat, k: nat, ops: seq<Op>, i: nat, t: nat, m: nat)
    requires sets >= 1 && k >= 1
  {
    && t < |ops| && ops[t].Access? && ops[t].write && Target(ops[t], sets) == i
    && var lines := QueueRun(sets, k, ops[..t], i).lines;
       var j := Chosen(lines, k, ops[t].tag, ops[t].asid);
       j >= 0 && lines[j].number == m
  }

  ghost predicate QueueStored(sets: nat, k: nat, ops: seq<Op>, i: nat, m: nat)
    requires sets >= 1 && k >= 1
  {
    exists t: nat :: QueueHit(sets, k, ops, i, t, m)
  }

  lemma StoredGrows(sets: nat, k: nat, ops: seq<Op>, i: nat, m: nat)
    requires sets >= 1 && k >= 1 && ops != []
    ensures QueueStored(sets, k, ops, i, m)
            <==> QueueStored(sets, k, ops[..|ops| - 1], i, m) || QueueHit(sets, k, ops, i, |ops| - 1, m)
  {
    var front := ops[..|ops| - 1];
    forall t: nat | t < |front| ensures QueueHit(sets, k, front, i, t, m) <==> QueueHit(sets, k, ops, i, t, m) {
      assert front[..t] == ops[..t];
    }
    if t: nat :| QueueHit(sets, k, ops, i, t, m) {
      assert t < |front| || t == |ops| - 1;
    }
    if t: nat :| QueueHit(sets, k, front, i, t, m) {
      assert QueueHit(sets, k, ops, i, t, m);
    }
  }

  lemma HitIsFilled(sets: nat, k: nat, ops: seq<Op>, i: nat, m: nat)
    requires i < sets && k >= 1 && ops != [] && QueueHit(sets, k, ops, i, |ops| - 1, m)
    ensures m < QueueRun(sets, k, ops, i).filled
  {
    SetsAreQueues(sets, k, true, ops[..|ops| - 1], i);
  }

  /** No store can hit a fill that has not happened. */
  lemma {:induction false} StoredIsFilled(sets: nat, k: nat, ops: seq<Op>, i: nat, m: nat)
    requires i < sets && k >= 1 && QueueStored(sets, k, ops, i, m)
    ensures m < QueueRun(sets, k, ops, i).filled
    decreases |ops|
  {
    StoredSomewhere(sets, k, ops, i, m);
    StoredGrows(sets, k, ops, i, m);
    hide QueueHit, QueueStored;
    if QueueHit(sets, k, ops, i, |ops| - 1, m) {
      HitIsFilled(sets, k, ops, i, m);
    } else {
      StoredIsFilled(sets, k, ops[..|ops| - 1], i, m);
    }
  }

  lemma StoredSomewhere(sets: nat, k: nat, ops: seq<Op>, i: nat, m: nat)
    requires sets >= 1 && k >= 1 && QueueStored(sets, k, ops, i, m)
    ensures ops != []
  {
  }

  /** The queue of a set: the last k fills of that set, oldest first, each dirty exactly if a store has hit
      it since it was filled. */
  ghost predicate LastFills(sets: nat, k: nat, ops: seq<Op>, i: nat, q: Fifo<bool>)
    requires sets >= 1 && k >= 1
  {
    && q.filled == |Fetches(sets, ops, i)|
    && Numbered(q, k)
    && forall j :: 0 <= j < |q.lines| ==> IsFill(sets, k, ops, i, q.lines[j])
  }

  ghost predicate IsFill(sets: nat, k: nat, ops: seq<Op>, i: nat, l: Line<bool>)
    requires sets >= 1 && k >= 1
  {
    && l.number < |Fetches(sets, ops, i)|
    && Tag(Fetches(sets, ops, i)[l.number].addr) == l.tag && Fetches(sets, ops, i)[l.number].asid == l.asid
    && (l.data <==> QueueStored(sets, k, ops, i, l.number))
  }

  lemma {:induction false} QueueHoldsLastFills(sets: nat, k: nat, ops: seq<Op>, i: nat)
    requires i < sets && k >= 1
    ensures LastFills(sets, k, ops, i, QueueRun(sets, k, ops, i))
    decreases |ops|
  {
    if ops != [] {
      var front, op := ops[..|ops| - 1], ops[|ops| - 1];
      var q := QueueRun(sets, k, front, i);
      QueueHoldsLastFills(sets, k, front, i);
      assert ops[..|ops| - 1] == front;
      if Target(op, sets) == i && op.Fetch? {
        FetchKeepsFills(sets, k, ops, i);
      } else if Target(op, sets) == i && op.write {
        StoreKeepsFills(sets, k, ops, i);
      } else {
        forall j | 0 <= j < |q.lines| ensures IsFill(sets, k, ops, i, q.lines[j]) {
          assert IsFill(sets, k, front, i, q.lines[j]);
          StoredGrows(sets, k, ops, i, q.lines[j].number);
        }
      }
    }
  }

  lemma FetchKeepsFills(sets: nat, k: nat, ops: seq<Op>, i: nat)
    requires i < sets && k >= 1 && ops != [] && Target(ops[|ops| - 1], sets) == i && ops[|ops| - 1].Fetch?
    requires var front := ops[..|ops| - 1]; LastFills(sets, k, front, i, QueueRun(sets, k, front, i))
    ensures LastFills(sets, k, ops, i, QueueRun(sets, k, ops, i))
  {
    var front := ops[..|ops| - 1];
    var q, q' := QueueRun(sets, k, front, i), QueueRun(sets, k, ops, i);
    forall j | 0 <= j < |q'.lines| ensures IsFill(sets, k, ops, i, q'.lines[j]) {
      StoredGrows(sets, k, ops, i, q'.lines[j].number);
      if j < |q'.lines| - 1 {
        var l := q.lines[j + (if |q.lines| == k then 1 else 0)];
        assert q'.lines[j] == l && IsFill(sets, k, front, i, l);
      } else if QueueStored(sets, k, front, i, q.filled) {
        StoredIsFilled(sets, k, front, i, q.filled);
      }
    }
  }

  lemma StoreKeepsFills(sets: nat, k: nat, ops: seq<Op>, i: nat)
    requires i < sets && k >= 1 && ops != [] && Target(ops[|ops| - 1], sets) == i
    requires ops[|ops| - 1].Access? && ops[|ops| - 1].write
    requires var front := ops[..|ops| - 1]; LastFills(sets, k, front, i, QueueRun(sets, k, front, i))
    ensures LastFills(sets, k, ops, i, QueueRun(sets, k, ops, i))
  {
    var front, op := ops[..|ops| - 1], ops[|ops| - 1];
    var q, q' := QueueRun(sets, k, front, i), QueueRun(sets, k, ops, i);
    var hit := Chosen(q.lines, k, op.tag, op.asid);
    forall j | 0 <= j < |q'.lines| ensures IsFill(sets, k, ops, i, q'.lines[j]) {
      assert IsFill(sets, k, front, i, q.lines[j]);
      StoredGrows(sets, k, ops, i, q.lines[j].number);
    }
  }

  // ---------- The theorems ----------

  /** A fill numbered n - 1 is the last one; the last k fills are those from n - k on. */
  ghost predicate AmongLast(sets: nat, k: nat, ops: seq<Op>, i: nat, m: nat)
    requires sets >= 1
  {
    var n := |Fetches(sets, ops, i)|;
    m < n && n <= m + k
  }

  /** In step t a store looked set i up and found the way that the m-th fill of the set had last gone to. */
  ghost predicate StoreHit(sets: nat, k: nat, storesAllocate: bool, ops: seq<Op>, i: nat, t: nat, m: nat)
    requires i < sets && k >= 1
  {
    && t < |ops| && ops[t].Access? && ops[t].write && Target(ops[t], sets) == i
    && AmongLast(sets, k, ops[..t], i, m)
    && Find(Run(sets, k, storesAllocate, ops[..t]).sets[i], ops[t].tag, ops[t].asid) == Slot(m, k)
  }

  /** Some store has hit the m-th fill of set i. */
  ghost predicate Stored(sets: nat, k: nat, storesAllocate: bool, ops: seq<Op>, i: nat, m: nat)
    requires i < sets && k >= 1
  {
    exists t: nat :: StoreHit(sets, k, storesAllocate, ops, i, t, m)
  }

  /** The cache finds what its queue finds. */
  lemma HitsAgree(sets: nat, k: nat, storesAllocate: bool, ops: seq<Op>, i: nat, t: nat, m: nat)
    requires i < sets && k >= 1
    ensures StoreHit(sets, k, storesAllocate, ops, i, t, m) <==> QueueHit(sets, k, ops, i, t, m)
  {
    if t < |ops| && ops[t].Access? {
      var s, q := Run(sets, k, storesAllocate, ops[..t]).sets[i], QueueRun(sets, k, ops[..t], i);
      SetsAreQueues(sets, k, storesAllocate, ops[..t], i);
      QueueHoldsLastFills(sets, k, ops[..t], i);
      FindChooses(s, q, ops[t].tag, ops[t].asid);
      var j := Chosen(q.lines, k, ops[t].tag, ops[t].asid);
      if j >= 0 && AmongLast(sets, k, ops[..t], i, m) && Slot(m, k) == Slot(q.lines[j].number, k) {
        SameSlotSameFill(m, q.lines[j].number, q.filled, k);
      }
    }
    hide Rotates, Find, IsFill;
  }

  /** Two of the last k fills are never in one way. */
  lemma SameSlotSameFill(m: nat, n: nat, filled: nat, k: nat)
    requires k >= 1 && m < filled <= m + k && n < filled <= n + k && Slot(m, k) == Slot(n, k)
    ensures m == n
  {
    if m < n { SlotsDiffer(m, n, k); }
    if n < m { SlotsDiffer(n, m, k); }
  }

  lemma StoresAgree(sets: nat, k: nat, storesAllocate: bool, ops: seq<Op>, i: nat, m: nat)
    requires i < sets && k >= 1
    ensures Stored(sets, k, storesAllocate, ops, i, m) <==> QueueStored(sets, k, ops, i, m)
  {
    hide StoreHit, QueueHit;
    forall t: nat ensures StoreHit(sets, k, storesAllocate, ops, i, t, m) <==> QueueHit(sets, k, ops, i, t, m) {
      HitsAgree(sets, k, storesAllocate, ops, i, t, m);
    }
  }

  /** The way of set i that the m-th fill of the set went to. */
  function WayOf(sets: nat, k: nat, storesAllocate: bool, ops: seq<Op>, i: nat, m: nat): Way<bool>
    requires i < sets && k >= 1
  {
    Run(sets, k, storesAllocate, ops).sets[i].ways[Slot(m, k)]
  }

  /** After any accesses and allocating replacements a k-way set holds each of its last k fills, in a way
      of its own, dirty exactly if a store has hit that way since. */
  lemma SetHoldsLastFills(sets: nat, k: nat, storesAllocate: bool, ops: seq<Op>, i: nat, m: nat)
    requires i < sets && k >= 1 && AmongLast(sets, k, ops, i, m)
    ensures var fill := Fetches(sets, ops, i)[m];
            WayOf(sets, k, storesAllocate, ops, i, m)
                == Way(Tag(fill.addr), fill.asid, true, Stored(sets, k, storesAllocate, ops, i, m))
  {
    SetsAreQueues(sets, k, storesAllocate, ops, i);
    QueueHoldsLastFills(sets, k, ops, i);
    StoresAgree(sets, k, storesAllocate, ops, i, m);
    var q := QueueRun(sets, k, ops, i);
    var j := m - (q.filled - |q.lines|);
    assert IsFill(sets, k, ops, i, q.lines[j]);
    assert Holds(Run(sets, k, storesAllocate, ops).sets[i].ways[Slot(q.lines[j].number, k)], q.lines[j]);
    hide Stored, QueueStored, QueueRun, Slot, Fetches;
  }

  /** And nothing else: every valid way holds one of the last k fills. */
  lemma SetHoldsOnlyFills(sets: nat, k: nat, storesAllocate: bool, ops: seq<Op>, i: nat, way: nat)
    requires i < sets && way < k && Run(sets, k, storesAllocate, ops).sets[i].ways[way].valid
    ensures exists m :: AmongLast(sets, k, ops, i, m) && Slot(m, k) == way
  {
    SetsAreQueues(sets, k, storesAllocate, ops, i);
    QueueHoldsLastFills(sets, k, ops, i);
    var q := QueueRun(sets, k, ops, i);
    var j := WayHasLine(Run(sets, k, storesAllocate, ops).sets[i], q, way);
    assert IsFill(sets, k, ops, i, q.lines[j]);
    assert AmongLast(sets, k, ops, i, q.lines[j].number);
  }

  /** Every address whose line was ever filled into a set is one of that set. */
  lemma {:induction false} FilledTagsIndexHere(sets: nat, ops: seq<Op>, i: nat, m: nat)
    requires i < sets && m < |Fetches(sets, ops, i)|
    ensures Index(Tag(Fetches(sets, ops, i)[m].addr), sets) == i
    decreases |ops|
  {
    var front, op := ops[..|ops| - 1], ops[|ops| - 1];
    if m < |Fetches(sets, front, i)| {
      FilledTagsIndexHere(sets, front, i, m);
    }
  }

  /** Write-back: replacing in a full set reports the fill made k fills ago: modified exactly if a store
      has hit it since, and where the line of the address it was fetched for begins. In a set that is not full yet it
      reports no modification. */
  lemma ReplaceReportsOldest(sets: nat, k: nat, storesAllocate: bool, ops: seq<Op>, addr: nat, asid: int)
    requires sets >= 1 && k >= 1
    ensures var c := Run(sets, k, storesAllocate, ops);
            var i := Index(Tag(addr), sets);
            var fills := Fetches(sets, ops, i);
            var victim := Replace(c, addr, asid).1;
            if |fills| >= k then
              victim == Victim(Stored(sets, k, storesAllocate, ops, i, |fills| - k), LineBase(fills[|fills| - k].addr))
            else victim == Victim(false, 0)
  {
    var i := Index(Tag(addr), sets);
    var s := Run(sets, k, storesAllocate, ops).sets[i];
    var n := |Fetches(sets, ops, i)|;
    SetsAreQueues(sets, k, storesAllocate, ops, i);
    QueueHoldsLastFills(sets, k, ops, i);
    NextIsOldest(s, QueueRun(sets, k, ops, i));
    if n >= k {
      assert IsFill(sets, k, ops, i, QueueRun(sets, k, ops, i).lines[0]);
      StoresAgree(sets, k, storesAllocate, ops, i, n - k);
      VictimAddressIsBase(Fetches(sets, ops, i)[n - k].addr);
    } else {
      UnfilledIsBlank(sets, k, storesAllocate, ops, i);
    }
  }

  /** The ways not filled yet are as they were made. */
  lemma {:induction false} UnfilledIsBlank(sets: nat, k: nat, storesAllocate: bool, ops: seq<Op>, i: nat)
    requires i < sets && k >= 1
    ensures forall w :: 0 <= w < k && !Run(sets, k, storesAllocate, ops).sets[i].ways[w].valid ==>
              Run(sets, k, storesAllocate, ops).sets[i].ways[w] == Way(0, 0, false, false)
    decreases |ops|
  {
    if ops != [] {
      UnfilledIsBlank(sets, k, storesAllocate, ops[..|ops| - 1], i);
    }
  }

  // ---------- Accesses across lines ----------

  /** The lines from the one that holds `addr` to the one that holds the last byte. */
  function LinesTouched(addr: nat, size: nat): nat {
    if size == 0 then 1 else (addr + size - 1) / LINE - addr / LINE + 1
  }

  /** As accesses to one line each. */
  function AccessesFrom(tag: nat, n: nat, write: bool, asid: int): seq<Op> {
    seq(n, j requires 0 <= j => Access(tag + j, write, asid))
  }

  function DoAll(c: Cache, k: nat, ops: seq<Op>): (c': Cache)
    requires CacheOK(c, k)
    ensures CacheOK(c', k)
    decreases |ops|
  {
    if ops == [] then c else DoAll(Do(c, k, ops[0]), k, ops[1..])
  }

  /** A multi-line access touches each line that the bytes [addr, addr + size) lie in, once, in order, and
      reports a hit or miss for each. */
  lemma {:induction false} MultiTouchesLines(c: Cache, k: nat, addr: nat, size: nat, write: bool, asid: int)
    requires CacheOK(c, k)
    ensures var (c', hits) := AccessLines(c, k, addr, addr + size, write, asid);
            && |hits| == LinesTouched(addr, size)
            && c' == DoAll(c, k, AccessesFrom(Tag(addr), LinesTouched(addr, size), write, asid))
    decreases size
  {
    LinesStep(addr, size);
    AccessesSplit(Tag(addr), LinesTouched(addr, size), write, asid);
    hide LinesTouched, AccessesFrom, Tag, AccessLine;
    var next := NextLine(addr);
    if next < addr + size {
      MultiTouchesLines(Do(c, k, Access(Tag(addr), write, asid)), k, next, addr + size - next, write, asid);
    }
  }

  lemma LinesStep(addr: nat, size: nat)
    ensures var next := NextLine(addr);
            if next < addr + size then
              Tag(next) == Tag(addr) + 1 && LinesTouched(addr, size) == LinesTouched(next, addr + size - next) + 1
            else LinesTouched(addr, size) == 1
  {
  }

  lemma AccessesSplit(tag: nat, n: nat, write: bool, asid: int)
    ensures AccessesFrom(tag, 0, write, asid) == []
    ensures n >= 1 ==>
              && AccessesFrom(tag, n, write, asid) != []
              && AccessesFrom(tag, n, write, asid)[0] == Access(tag, write, asid)
    ensures n >= 1 ==> AccessesFrom(tag, n, write, asid)[1..] == AccessesFrom(tag + 1, n - 1, write, asid)
    ensures AccessesFrom(tag + 1, 0, write, asid) == []
  {
  }

  /** The callers' two-element hit array is never overrun: exactly for accesses that fit two lines. */
  lemma TwoLinesSuffice(addr: nat, size: nat)
    ensures LinesTouched(addr, size) <= 2 <==> addr % LINE + size <= 2 * LINE
  {
  }
}
