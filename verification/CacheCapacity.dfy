/** Successive lines spread evenly over the sets: a cache holds exactly as many of them as it has ways. */
module CacheCapacity {
  import opened RotatingSet
  import opened CacheSpec
  import opened CacheHits

  /** Fetches of n successive lines, from line a on. */
  function Row(a: nat, n: nat, asid: int): seq<Op> {
    if n == 0 then [] else Row(a, n - 1, asid) + [Fetch((a + n - 1) * LINE, asid)]
  }

  /** How many of the n numbers from b on fall into b's own set. */
  function InSameSet(b: nat, n: nat, sets: nat): nat
    requires sets >= 1
  {
    if n == 0 then 0 else InSameSet(b, n - 1, sets) + (if Index(b + n - 1, sets) == Index(b, sets) then 1 else 0)
  }

  /** One in so many as there are sets, starting with the first. */
  function Share(n: nat, sets: nat): nat
    requires sets >= 1
  {
    (n + sets - 1) / sets
  }

  lemma SumOfProducts(x: nat, y: nat, k: nat)
    ensures (x + y) * k == x * k + y * k
  {
  }

  lemma SumRemainder(x: nat, r: nat, y: nat, t: nat, k: nat)
    requires r < k && t < k
    ensures (x * k + r + y * k + t) % k == if r + t < k then r + t else r + t - k
  {
    SumOfProducts(x, y, k);
    SumOfProducts(x + y, 1, k);
    var a := x * k + r + y * k + t;
    if r + t < k {
      RemainderIs(a, k, x + y, r + t);
    } else {
      RemainderIs(a, k, x + y + 1, r + t - k);
    }
  }

  lemma SameSetIff(b: nat, n: nat, sets: nat)
    requires sets >= 1
    ensures (b + n) % sets == b % sets <==> n % sets == 0
  {
    Divided(b, sets);
    Divided(n, sets);
    SameIfWhole(b, n, sets, b / sets, b % sets, n / sets, n % sets);
  }

  lemma Divided(b: nat, k: nat)
    requires k >= 1
    ensures b == b / k * k + b % k && 0 <= b % k < k
  {
  }

  lemma SameIfWhole(b: nat, n: nat, k: nat, q: nat, r: nat, p: nat, t: nat)
    requires b == q * k + r && n == p * k + t && r < k && t < k
    ensures (b + n) % k == r <==> t == 0
  {
    SumRemainder(q, r, p, t, k);
  }

  lemma ShareNext(n: nat, sets: nat)
    requires sets >= 1
    ensures Share(n + 1, sets) == Share(n, sets) + (if n % sets == 0 then 1 else 0)
  {
    var q, r := n / sets, n % sets;
    assert (q + 1) * sets == q * sets + sets;
    QuotientIs(n + sets, sets, q + 1, r);
    if r == 0 {
      QuotientIs(n + sets - 1, sets, q, sets - 1);
    } else {
      QuotientIs(n + sets - 1, sets, q + 1, r - 1);
    }
  }

  lemma QuotientIs(a: nat, k: nat, q: nat, r: nat)
    requires k >= 1 && r < k && a == q * k + r
    ensures a / k == q
  {
    SameRemainder(k, q, r, a / k, a % k);
  }

  lemma {:induction false} SpreadsEvenly(b: nat, n: nat, sets: nat)
    requires sets >= 1
    ensures InSameSet(b, n, sets) == Share(n, sets)
    decreases n
  {
    hide Share;
    if n > 0 {
      SpreadsEvenly(b, n - 1, sets);
      SameSetIff(b, n - 1, sets);
      ShareNext(n - 1, sets);
    } else {
      NoShare(sets);
    }
  }

  lemma NoShare(sets: nat)
    requires sets >= 1
    ensures Share(0, sets) == 0
  {
  }

  /** Within so many lines as there are ways, and no more, a set gets at most k. */
  lemma ShareFits(n: nat, sets: nat, k: nat)
    requires sets >= 1 && n >= 1
    ensures Share(n, sets) <= k <==> n <= sets * k
  {
    var q, r := (n - 1) / sets, (n - 1) % sets;
    Divided(n - 1, sets);
    SumOfProducts(q, 1, sets);
    QuotientIs(n + sets - 1, sets, q + 1, r);
    FitsIff(n, sets, k, q, r);
  }

  lemma FitsIff(n: nat, sets: nat, k: nat, q: nat, r: nat)
    requires n == q * sets + r + 1 && r < sets
    ensures q + 1 <= k <==> n <= sets * k
  {
    if q < k {
      SumOfProducts(q + 1, k - q - 1, sets);
      SumOfProducts(q, 1, sets);
    } else {
      SumOfProducts(k, q - k, sets);
    }
  }

  /** The fills of line a + j's set: the row adds one for each line of its set, its own after those before. */
  lemma {:induction false} RowFills(sets: nat, ops: seq<Op>, a: nat, n: nat, j: nat, asid: int)
    requires sets >= 1 && j <= n
    ensures var i, of := Index(a + j, sets), Fetches(sets, ops + Row(a, j, asid), Index(a + j, sets));
            var after := Fetches(sets, ops + Row(a, n, asid), i);
            && |after| == |of| + InSameSet(a + j, n - j, sets) && of <= after
            && (n > j ==> |after| > |of| && after[|of|] == Fetched((a + j) * LINE, asid))
            && (forall m :: |of| < m < |after| ==> after[m].addr >= (a + j + 1) * LINE)
    decreases n
  {
    hide Index;
    if n > j {
      RowFills(sets, ops, a, n - 1, j, asid);
      RowAdds(sets, ops, a, n, asid, Index(a + j, sets));
      TagOfLine(a + n - 1);
    }
  }

  lemma RowAdds(sets: nat, ops: seq<Op>, a: nat, n: nat, asid: int, i: nat)
    requires sets >= 1 && n >= 1
    ensures Fetches(sets, ops + Row(a, n, asid), i)
            == Fetches(sets, ops + Row(a, n - 1, asid), i)
               + (if Index(a + n - 1, sets) == i then [Fetched((a + n - 1) * LINE, asid)] else [])
  {
    hide Index, Fetches, Tag;
    TagOfLine(a + n - 1);
    var all, front, last := ops + Row(a, n, asid), ops + Row(a, n - 1, asid), Fetch((a + n - 1) * LINE, asid);
    assert all == front + [last];
    hide Row;
    assert all[..|all| - 1] == front;
    FetchesUnfold(sets, all, i);
  }

  lemma FetchesUnfold(sets: nat, ops: seq<Op>, i: nat)
    requires sets >= 1 && ops != []
    ensures var before, op := Fetches(sets, ops[..|ops| - 1], i), ops[|ops| - 1];
            Fetches(sets, ops, i)
            == before + (if op.Fetch? && Target(op, sets) == i then [Fetched(op.addr, op.asid)] else [])
  {
    hide Target;
  }

  lemma TagOfLine(tag: nat)
    ensures Tag(tag * LINE) == tag
  {
  }

  /** Capacity: after any operations and then the fetches of n successive lines, of any place and number, an
      access to the j-th of them hits exactly if no more lines than the cache has ways, all sets together,
      have been fetched from it on. */
  lemma CapacityIsExact(sets: nat, k: nat, storesAllocate: bool, ops: seq<Op>, a: nat, n: nat, j: nat, write: bool,
                        asid: int)
    requires sets >= 1 && k >= 1 && j < n
    ensures AccessLine(Run(sets, k, storesAllocate, ops + Row(a, n, asid)), a + j, write, asid).1
            <==> n - j <= sets * k
  {
    hide AccessLine, Run, Fetches, Share, Index;
    var all, tag := ops + Row(a, n, asid), a + j;
    AccessHitsIff(sets, k, storesAllocate, all, tag, write, asid);
    RowFills(sets, ops, a, n, j, asid);
    SpreadsEvenly(tag, n - j, sets);
    ShareFits(n - j, sets, k);
    TagOfLine(tag);
    var own := |Fetches(sets, ops + Row(a, j, asid), Index(tag, sets))|;
    if n - j <= sets * k {
      assert HeldAs(sets, k, all, tag, asid, own);
    }
    forall m: nat | HeldAs(sets, k, all, tag, asid, m) ensures m <= own {
      TagBelow(Fetches(sets, all, Index(tag, sets))[m].addr, tag);
    }
  }

  lemma TagBelow(addr: nat, tag: nat)
    requires Tag(addr) == tag
    ensures addr < (tag + 1) * LINE
  {
  }
}
