/** A k-way set with a rotating replacement index, as the caches and TLBs use it, and the bounded queue
    that it amounts to: the set always holds exactly its last k fills. `T` is what a way carries beside
    its tag: a dirty bit in a cache, a frame in a TLB. */
module RotatingSet {

  datatype Way<T> = Way(tag: nat, asid: int, valid: bool, data: T)

  /** Ways are searched from the highest index down, and filled in that order too. */
  datatype Set<T> = Set(ways: seq<Way<T>>, next: nat)

  ghost predicate SetOK<T>(s: Set<T>) {
    s.next < |s.ways|
  }

  function NewSet<T>(k: nat, blank: T): (s: Set<T>)
    requires k >= 1
    ensures SetOK(s)
  {
    Set(seq(k, _ => Way(0, 0, false, blank)), k - 1)
  }

  predicate Matches<T>(w: Way<T>, tag: nat, asid: int) {
    w.tag == tag && w.asid == asid && w.valid
  }

  /** The highest way not above i that matches, or -1. */
  function FindFrom<T>(ways: seq<Way<T>>, tag: nat, asid: int, i: int): (r: int)
    requires -1 <= i < |ways|
    ensures -1 <= r <= i
    ensures r >= 0 ==> Matches(ways[r], tag, asid)
    ensures forall j :: r < j <= i ==> !Matches(ways[j], tag, asid)
    decreases i + 1
  {
    if i < 0 then -1
    else if Matches(ways[i], tag, asid) then i
    else FindFrom(ways, tag, asid, i - 1)
  }

  function Find<T>(s: Set<T>, tag: nat, asid: int): (r: int)
    ensures -1 <= r < |s.ways|
    ensures r >= 0 ==> Matches(s.ways[r], tag, asid)
    ensures forall j :: r < j < |s.ways| ==> !Matches(s.ways[j], tag, asid)
  {
    FindFrom(s.ways, tag, asid, |s.ways| - 1)
  }

  /** `Replace`: fill the way whose turn it is. */
  function Fill<T>(s: Set<T>, tag: nat, asid: int, data: T): (s': Set<T>)
    requires SetOK(s)
    ensures SetOK(s') && |s'.ways| == |s.ways|
  {
    Set(s.ways[s.next := Way(tag, asid, true, data)], if s.next == 0 then |s.ways| - 1 else s.next - 1)
  }

  /** New data for the way that an access finds, if it finds one. */
  function Mark<T>(s: Set<T>, tag: nat, asid: int, data: T): (s': Set<T>)
    requires SetOK(s)
    ensures SetOK(s') && |s'.ways| == |s.ways|
  {
    var i := Find(s, tag, asid);
    if i < 0 then s else s.(ways := s.ways[i := s.ways[i].(data := data)])
  }

  // ---------- The queue ----------

  /** A fill: its number, counted from the first, and what it brought. */
  datatype Line<T> = Line(number: nat, tag: nat, asid: int, data: T)

  /** The last fills, oldest first; `filled` is how many there have been. */
  datatype Fifo<T> = Fifo(lines: seq<Line<T>>, filled: nat)

  function Push<T>(q: Fifo<T>, k: nat, tag: nat, asid: int, data: T): Fifo<T> {
    var kept := if |q.lines| == k && k > 0 then q.lines[1..] else q.lines;
    Fifo(kept + [Line(q.filled, tag, asid, data)], q.filled + 1)
  }

  predicate Hits<T>(l: Line<T>, tag: nat, asid: int) {
    l.tag == tag && l.asid == asid
  }

  /** Which line an access finds: should several match, the one that sits first in the search order. */
  function Chosen<T>(lines: seq<Line<T>>, k: nat, tag: nat, asid: int): (r: int)
    requires k >= 1
    ensures -1 <= r < |lines|
    ensures r >= 0 ==> Hits(lines[r], tag, asid)
    ensures forall j :: 0 <= j < |lines| && Hits(lines[j], tag, asid) ==>
              r >= 0 && lines[r].number % k <= lines[j].number % k
  {
    if lines == [] then -1
    else
      var n := |lines| - 1;
      var r := Chosen(lines[..n], k, tag, asid);
      if Hits(lines[n], tag, asid) && (r < 0 || lines[n].number % k < lines[r].number % k) then n else r
  }

  function Renew<T>(q: Fifo<T>, k: nat, tag: nat, asid: int, data: T): Fifo<T>
    requires k >= 1
  {
    var j := Chosen(q.lines, k, tag, asid);
    if j < 0 then q else q.(lines := q.lines[j := q.lines[j].(data := data)])
  }

  // ---------- The rotating set is the queue ----------

  /** The way that the m-th fill goes to. */
  function Slot(m: nat, k: nat): (i: int)
    requires k >= 1
    ensures 0 <= i < k
  {
    k - 1 - m % k
  }

  ghost predicate Numbered<T>(q: Fifo<T>, k: nat) {
    && |q.lines| == (if q.filled < k then q.filled else k)
    && forall j :: 0 <= j < |q.lines| ==> q.lines[j].number == q.filled - |q.lines| + j
  }

  ghost predicate Holds<T>(w: Way<T>, l: Line<T>) {
    w == Way(l.tag, l.asid, true, l.data)
  }

  /** Each line of the queue sits in its slot, and no other way is valid. */
  ghost predicate Rotates<T>(s: Set<T>, q: Fifo<T>) {
    && SetOK(s) && Numbered(q, |s.ways|)
    && s.next == Slot(q.filled, |s.ways|)
    && (forall j :: 0 <= j < |q.lines| ==> Holds(s.ways[Slot(q.lines[j].number, |s.ways|)], q.lines[j]))
    && (forall i :: 0 <= i < |s.ways| && s.ways[i].valid ==> |s.ways| - 1 - i < q.filled)
  }

  lemma NewSetRotates<T>(k: nat, blank: T)
    requires k >= 1
    ensures Rotates(NewSet(k, blank), Fifo([], 0))
  {
  }

  lemma NextSlot(m: nat, k: nat)
    requires k >= 1
    ensures Slot(m + 1, k) == if Slot(m, k) == 0 then k - 1 else Slot(m, k) - 1
  {
    Successor(m, k);
  }

  lemma Successor(m: nat, k: nat)
    requires k >= 1
    ensures (m + 1) % k == if m % k == k - 1 then 0 else m % k + 1
  {
    if k > 1 {
      Turn(m, 1, k);
    }
  }

  lemma AtLeast(d: nat, k: nat)
    requires d >= 1
    ensures d * k >= k
  {
  }

  lemma Distributes(x: nat, y: nat, k: nat)
    requires x <= y
    ensures (y - x) * k == y * k - x * k
  {
  }

  lemma SameRemainder(k: nat, q: nat, r: nat, q': nat, r': nat)
    requires r < k && r' < k && q * k + r == q' * k + r'
    ensures q == q' && r == r'
  {
    if q < q' {
      Distributes(q, q', k);
      AtLeast(q' - q, k);
    } else if q' < q {
      Distributes(q', q, k);
      AtLeast(q - q', k);
    }
  }

  lemma RemainderIs(a: nat, k: nat, q: nat, r: nat)
    requires k >= 1 && a == q * k + r && r < k
    ensures a % k == r
  {
    SameRemainder(k, q, r, a / k, a % k);
  }

  /** Among k successive fills no two share a slot. */
  lemma SlotsDiffer(a: nat, b: nat, k: nat)
    requires k >= 1 && a < b < a + k
    ensures Slot(a, k) != Slot(b, k)
  {
    Turn(a, b - a, k);
  }

  /** Filling the rotating set is pushing on the queue: the line that has been there longest goes. */
  lemma FillPushes<T>(s: Set<T>, q: Fifo<T>, tag: nat, asid: int, data: T)
    requires Rotates(s, q)
    ensures Rotates(Fill(s, tag, asid, data), Push(q, |s.ways|, tag, asid, data))
  {
    var k := |s.ways|;
    var s', q' := Fill(s, tag, asid, data), Push(q, k, tag, asid, data);
    NextSlot(q.filled, k);
    var first := if |q.lines| == k then 1 else 0;
    forall j | 0 <= j < |q'.lines| ensures Holds(s'.ways[Slot(q'.lines[j].number, k)], q'.lines[j]) {
      if j < |q'.lines| - 1 {
        var l := q.lines[j + first];
        assert q'.lines[j] == l;
        SlotsDiffer(l.number, q.filled, k);
        assert Holds(s.ways[Slot(l.number, k)], l);
      }
    }
    if q.filled < k {
      SmallSlot(q.filled, k);
    }
  }

  lemma SmallSlot(m: nat, k: nat)
    requires m < k
    ensures Slot(m, k) == k - 1 - m
  {
  }

  /** The line that the next fill will evict is the oldest. */
  lemma NextIsOldest<T>(s: Set<T>, q: Fifo<T>)
    requires Rotates(s, q)
    ensures if |q.lines| == |s.ways| then Holds(s.ways[s.next], q.lines[0]) else !s.ways[s.next].valid
  {
    var k := |s.ways|;
    if |q.lines| == k {
      assert q.lines[0].number + k == q.filled;
      SameSlot(q.lines[0].number, k);
      assert Holds(s.ways[Slot(q.lines[0].number, k)], q.lines[0]);
    } else {
      SmallSlot(q.filled, k);
    }
  }

  lemma SameSlot(m: nat, k: nat)
    requires k >= 1
    ensures Slot(m + k, k) == Slot(m, k)
  {
    assert m + k == (m / k + 1) * k + m % k;
    RemainderIs(m + k, k, m / k + 1, m % k);
  }

  /** Every valid way holds a line of the queue. */
  lemma WayHasLine<T>(s: Set<T>, q: Fifo<T>, i: nat) returns (j: nat)
    requires Rotates(s, q) && i < |s.ways| && s.ways[i].valid
    ensures j < |q.lines| && Slot(q.lines[j].number, |s.ways|) == i
  {
    var k := |s.ways|;
    if q.filled <= k {
      j := k - 1 - i;
      SmallSlot(j, k);
    } else {
      // The fills filled - k, ..., filled - 1 go round all k ways once.
      var turn := q.filled % k;
      var want := k - 1 - i;
      j := if want >= turn then want - turn else want - turn + k;
      Turn(q.filled - k, j, k);
      SameSlot(q.filled - k, k);
    }
  }

  lemma Turn(m: nat, j: nat, k: nat)
    requires k >= 1 && j < k
    ensures (m + j) % k == if m % k + j < k then m % k + j else m % k + j - k
  {
    if m % k + j < k {
      assert m + j == m / k * k + (m % k + j);
      RemainderIs(m + j, k, m / k, m % k + j);
    } else {
      assert m + j == (m / k + 1) * k + (m % k + j - k);
      RemainderIs(m + j, k, m / k + 1, m % k + j - k);
    }
  }

  /** Searching the set is searching the queue. */
  lemma FindChooses<T>(s: Set<T>, q: Fifo<T>, tag: nat, asid: int)
    requires Rotates(s, q)
    ensures var i, j := Find(s, tag, asid), Chosen(q.lines, |s.ways|, tag, asid);
            (i < 0 <==> j < 0) && (j >= 0 ==> i == Slot(q.lines[j].number, |s.ways|))
  {
    var k := |s.ways|;
    var i, j := Find(s, tag, asid), Chosen(q.lines, k, tag, asid);
    if i >= 0 {
      var l := WayHasLine(s, q, i);
      assert Holds(s.ways[Slot(q.lines[l].number, k)], q.lines[l]);
      assert Hits(q.lines[l], tag, asid);
    }
    if j >= 0 {
      assert Holds(s.ways[Slot(q.lines[j].number, k)], q.lines[j]);
      assert Matches(s.ways[Slot(q.lines[j].number, k)], tag, asid);
    }
  }

  lemma MarkRenews<T>(s: Set<T>, q: Fifo<T>, tag: nat, asid: int, data: T)
    requires Rotates(s, q)
    ensures Rotates(Mark(s, tag, asid, data), Renew(q, |s.ways|, tag, asid, data))
  {
    var k := |s.ways|;
    FindChooses(s, q, tag, asid);
    var j := Chosen(q.lines, k, tag, asid);
    if j >= 0 {
      var q' := Renew(q, k, tag, asid, data);
      var s' := Mark(s, tag, asid, data);
      forall m | 0 <= m < |q'.lines| ensures Holds(s'.ways[Slot(q'.lines[m].number, k)], q'.lines[m]) {
        assert Holds(s.ways[Slot(q.lines[m].number, k)], q.lines[m]);
        if m < j {
          SlotsDiffer(q.lines[m].number, q.lines[j].number, k);
        } else if j < m {
          SlotsDiffer(q.lines[j].number, q.lines[m].number, k);
        }
      }
    }
  }
}
