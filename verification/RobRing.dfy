/** The re-order buffer as a two-pointer ring (`circular_queue`), and the bounded FIFO it implements. */
module RobRing {

  /** One re-order buffer slot. `status`: 0 issued, 1 dispatched, 2 executed, 3 committed.
      `dependents` is the wake-up list: stations waiting for this slot's result. */
  datatype RobEntry = RobEntry(insId: nat, writeRegs: seq<int>, memWrite: int, status: int, dependents: seq<nat>)

  /** Slot `start + k` on a ring of `n` slots, for `k < n`. */
  function Wrap(n: nat, start: nat, k: nat): nat {
    if start + k < n then start + k else start + k - n
  }

  /** The slots are consecutive on the ring, oldest first, and none is used twice. */
  ghost predicate Contiguous(n: nat, live: seq<nat>) {
    && |live| <= n
    && (live != [] ==> live[0] < n)
    && forall k :: 0 <= k < |live| ==> live[k] == Wrap(n, live[0], k)
  }

  /** Where the next entry goes: after the youngest one, or at slot 0 of an empty ring. */
  function NextSlot(n: nat, live: seq<nat>): nat {
    if live == [] then 0
    else if live[|live| - 1] + 1 < n then live[|live| - 1] + 1 else 0
  }

  lemma LiveSlots(n: nat, live: seq<nat>)
    requires Contiguous(n, live)
    ensures forall k :: 0 <= k < |live| ==> live[k] < n
    ensures forall i, j :: 0 <= i < j < |live| ==> live[i] != live[j]
  {
  }

  lemma AppendSlot(n: nat, live: seq<nat>)
    requires Contiguous(n, live) && |live| < n
    ensures Contiguous(n, live + [NextSlot(n, live)])
    ensures NextSlot(n, live) !in live && NextSlot(n, live) < n
  {
    var next := live + [NextSlot(n, live)];
    assert Contiguous(n, next);
    LiveSlots(n, next);
    forall k | 0 <= k < |live| ensures live[k] != NextSlot(n, live) {
      assert next[k] != next[|live|];
    }
  }

  lemma DropSlot(n: nat, live: seq<nat>)
    requires Contiguous(n, live) && live != []
    ensures Contiguous(n, live[1..])
  {
  }

  /** The entries in a list of slots. */
  ghost function Entries(rob: seq<RobEntry>, live: seq<nat>): (r: seq<RobEntry>)
    requires Contiguous(|rob|, live)
    ensures |r| == |live|
    ensures forall k :: 0 <= k < |live| ==> live[k] < |rob| && r[k] == rob[live[k]]
  {
    LiveSlots(|rob|, live);
    seq(|live|, k requires 0 <= k < |live| => rob[live[k]])
  }

  ghost predicate Pointers(n: nat, issuePtr: int, commitPtr: int) {
    || (issuePtr == -1 && commitPtr == -1)
    || (0 <= issuePtr < n && 0 <= commitPtr < n)
  }

  /** The slots between the two pointers, oldest first. */
  ghost function Between(n: nat, issuePtr: int, commitPtr: int): (live: seq<nat>)
    requires Pointers(n, issuePtr, commitPtr)
    ensures Contiguous(n, live)
    ensures live == [] <==> commitPtr == -1
    ensures live != [] ==> live[0] == commitPtr && live[|live| - 1] == issuePtr
  {
    if commitPtr == -1 then []
    else
      var count := if issuePtr >= commitPtr then issuePtr - commitPtr + 1 else issuePtr + n - commitPtr + 1;
      seq(count, k requires 0 <= k < count => Wrap(n, commitPtr, k))
  }

  lemma BetweenUnique(n: nat, issuePtr: int, commitPtr: int, live: seq<nat>)
    requires Pointers(n, issuePtr, commitPtr) && Contiguous(n, live)
    requires live == [] <==> commitPtr == -1
    requires live != [] ==> live[0] == commitPtr && live[|live| - 1] == issuePtr
    ensures live == Between(n, issuePtr, commitPtr)
  {
  }

  lemma NextModulo(n: nat, at: nat)
    requires at < n
    ensures (at + 1) % n == Wrap(n, at, 1)
  {
  }

  lemma DropPointers(n: nat, issuePtr: int, commitPtr: int)
    requires Pointers(n, issuePtr, commitPtr) && commitPtr != issuePtr
    ensures var live := Between(n, issuePtr, commitPtr);
            |live| >= 2 && Between(n, issuePtr, Wrap(n, commitPtr, 1)) == live[1..]
  {
    var live := Between(n, issuePtr, commitPtr);
    DropSlot(n, live);
    assert live[1..][0] == live[1];
    BetweenUnique(n, issuePtr, Wrap(n, commitPtr, 1), live[1..]);
  }

  /** The `%` of the source, which truncates toward zero. */
  function TruncatedMod(a: int, b: int): int
    requires b != 0
  {
    if a >= 0 then a % b else -((-a) % b)
  }

  /** `has_size` as written: `(commit_ptr - 1) % (ROB_Size - 1)` with a truncating remainder. */
  predicate HasSize(n: nat, issuePtr: int, commitPtr: int)
    requires n >= 2
  {
    !((commitPtr == 0 && issuePtr == n - 1) || issuePtr == TruncatedMod(commitPtr - 1, n - 1))
  }

  /** `has_size` answers "there is a free slot" for every pair of pointers exactly when the ring has
      at least three slots: on a ring of two it reports a half-full ring as full. */
  lemma HasSizeIsCapacity(n: nat)
    requires n >= 2
    ensures n >= 3 <==>
            forall issuePtr, commitPtr | Pointers(n, issuePtr, commitPtr) ::
              HasSize(n, issuePtr, commitPtr) <==> |Between(n, issuePtr, commitPtr)| < n
  {
    if n >= 3 {
      forall issuePtr, commitPtr | Pointers(n, issuePtr, commitPtr)
        ensures HasSize(n, issuePtr, commitPtr) <==> |Between(n, issuePtr, commitPtr)| < n
      {
        HasSizeAt(n, issuePtr, commitPtr);
      }
    } else {
      assert Pointers(n, 0, 0) && !HasSize(n, 0, 0) && |Between(n, 0, 0)| == 1;
    }
  }

  lemma SmallModulo(a: nat, b: nat)
    requires a < b
    ensures a % b == a
  {
  }

  lemma HasSizeAt(n: nat, issuePtr: int, commitPtr: int)
    requires n >= 3 && Pointers(n, issuePtr, commitPtr)
    ensures HasSize(n, issuePtr, commitPtr) <==> |Between(n, issuePtr, commitPtr)| < n
  {
    var before := TruncatedMod(commitPtr - 1, n - 1);
    if commitPtr >= 1 {
      SmallModulo(commitPtr - 1, n - 1);
      assert before == commitPtr - 1;
    } else if commitPtr == 0 {
      SmallModulo(1, n - 1);
      assert before == -1;
    } else {
      assert before <= 0 && before != -1 by {
        if n > 3 { SmallModulo(2, n - 1); }
      }
    }
  }

  class CircularQueue {
    const rob: array<RobEntry>
    var issuePtr: int
    var commitPtr: int

    ghost predicate Valid()
      reads this
    {
      rob.Length >= 3 && Pointers(rob.Length, issuePtr, commitPtr)
    }

    /** The slots in use, oldest first. */
    ghost function Live(): seq<nat>
      reads this
      requires Valid()
    {
      Between(rob.Length, issuePtr, commitPtr)
    }

    /** The FIFO this ring implements. */
    ghost function Fifo(): seq<RobEntry>
      reads this, rob
      requires Valid()
    {
      Entries(rob[..], Live())
    }

    constructor (size: nat)
      requires size >= 3
      ensures Valid() && fresh(rob) && rob.Length == size && Live() == [] && Fifo() == []
      ensures forall i :: 0 <= i < size ==> rob[i] == RobEntry(0, [], 0, -1, [])
    {
      rob := new RobEntry[size](_ => RobEntry(0, [], 0, -1, []));
      issuePtr, commitPtr := -1, -1;
    }

    method DoCommit()
      requires Valid()
      modifies this
      ensures Valid()
      ensures Live() == if old(Live()) == [] then [] else old(Live())[1..]
      ensures Fifo() == if old(Fifo()) == [] then [] else old(Fifo())[1..]
    {
      ghost var was := Live();
      if commitPtr == issuePtr {
        commitPtr := -1;
        issuePtr := -1;
      } else {
        DropPointers(rob.Length, issuePtr, commitPtr);
        NextModulo(rob.Length, commitPtr);
        commitPtr := (commitPtr + 1) % rob.Length;
      }
    }

    method DoIssue(entry: RobEntry) returns (index: nat)
      requires Valid() && |Live()| < rob.Length
      modifies this, rob
      ensures Valid()
      ensures index == NextSlot(rob.Length, old(Live())) && index < rob.Length && index !in old(Live())
      ensures Live() == old(Live()) + [index]
      ensures rob[..] == old(rob[..])[index := entry]
      ensures Fifo() == old(Fifo()) + [entry]
    {
      ghost var was := Live();
      AppendSlot(rob.Length, was);
      if commitPtr == -1 && issuePtr == -1 {
        issuePtr := 0;
        commitPtr := 0;
      } else if issuePtr == rob.Length - 1 && commitPtr != 0 {
        issuePtr := 0;
      } else {
        issuePtr := issuePtr + 1;
      }
      index := issuePtr;
      BetweenUnique(rob.Length, issuePtr, commitPtr, was + [index]);
      LiveSlots(rob.Length, was + [index]);
      rob[issuePtr] := entry;
    }

    method IsEmpty() returns (b: bool)
      requires Valid()
      ensures b <==> Live() == []
    {
      b := commitPtr == -1 && issuePtr == -1;
    }

    method HasRoom() returns (b: bool)
      requires Valid()
      ensures b <==> |Live()| < rob.Length
    {
      HasSizeAt(rob.Length, issuePtr, commitPtr);
      b := HasSize(rob.Length, issuePtr, commitPtr);
    }

    method AddDependency(rsIndex: nat, robIndex: nat)
      requires Valid() && robIndex < rob.Length
      modifies rob
      ensures Valid() && Live() == old(Live())
      ensures rob[..] == old(rob[..])[robIndex :=
                old(rob[robIndex]).(dependents := old(rob[robIndex].dependents) + [rsIndex])]
    {
      rob[robIndex] := rob[robIndex].(dependents := rob[robIndex].dependents + [rsIndex]);
    }
  }
}
