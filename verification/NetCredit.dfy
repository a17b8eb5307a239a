/** A condition on the requests that keeps every output unblocked: at no time are more bytes outstanding to
    a destination than its NIC has room for. */
module NetCredit {
  import opened NetSpec
  import opened NetSystem
  import opened NetFlow
  import opened NetStamps
  import opened NetClock
  import opened NetCapacity

  function MemBytes(c: Config, ms: seq<Mem>): nat {
    if ms == [] then 0 else MemBytes(c, ms[..|ms| - 1]) + Size(c, ms[|ms| - 1])
  }

  /** The bytes of the requests for destination j. */
  function BytesTo(c: Config, ms: seq<Mem>, j: nat): nat {
    if ms == [] then 0
    else BytesTo(c, ms[..|ms| - 1], j) + (if ms[|ms| - 1].dest == j then Size(c, ms[|ms| - 1]) else 0)
  }

  /** All requests of a run, in the order in which they are made. */
  function Asked(batches: seq<seq<Mem>>): seq<Mem> {
    if batches == [] then [] else Asked(batches[..|batches| - 1]) + batches[|batches| - 1]
  }

  ghost function Mems(q: Queue): (ms: seq<Mem>)
    ensures |ms| == |q| && forall k :: 0 <= k < |q| ==> ms[k] == q[k].mem
  {
    seq(|q|, k requires 0 <= k < |q| => q[k].mem)
  }

  // ---------- Flow by flow ----------

  lemma {:induction false} MemBytesConcat(c: Config, a: seq<Mem>, b: seq<Mem>)
    ensures MemBytes(c, a + b) == MemBytes(c, a) + MemBytes(c, b)
    decreases |b|
  {
    if b == [] {
      assert a + b == a;
    } else {
      MemBytesConcat(c, a, b[..|b| - 1]);
      assert (a + b)[..|a + b| - 1] == a + b[..|b| - 1];
    }
  }

  lemma {:induction false} FlowOfMems(q: Queue, i: nat, j: nat)
    ensures Flow(q, i, j) == FlowOf(Mems(q), i, j)
    decreases |q|
  {
    if q != [] {
      FlowOfMems(q[..|q| - 1], i, j);
      assert Mems(q)[..|q| - 1] == Mems(q[..|q| - 1]);
    }
  }

  lemma {:induction false} FlowOfConcat(a: seq<Mem>, b: seq<Mem>, i: nat, j: nat)
    ensures FlowOf(a + b, i, j) == FlowOf(a, i, j) + FlowOf(b, i, j)
    decreases |b|
  {
    if b == [] {
      assert a + b == a;
    } else {
      FlowOfConcat(a, b[..|b| - 1], i, j);
      assert (a + b)[..|a + b| - 1] == a + b[..|b| - 1];
    }
  }

  lemma {:induction false} RequestsOfAsked(batches: seq<seq<Mem>>, i: nat, j: nat)
    ensures Requests(batches, i, j) == FlowOf(Asked(batches), i, j)
    decreases |batches|
  {
    if batches != [] {
      var n := |batches| - 1;
      RequestsOfAsked(batches[..n], i, j);
      FlowOfConcat(Asked(batches[..n]), batches[n], i, j);
    }
  }

  /** The bytes of the flows to j from the first n sources. */
  ghost function FlowSum(c: Config, ms: seq<Mem>, j: nat, n: nat): nat {
    if n == 0 then 0 else FlowSum(c, ms, j, n - 1) + MemBytes(c, FlowOf(ms, n - 1, j))
  }

  lemma {:induction false} NothingFlows(c: Config, j: nat, n: nat)
    ensures FlowSum(c, [], j, n) == 0
    decreases n
  {
    if n > 0 {
      NothingFlows(c, j, n - 1);
    }
  }

  lemma {:induction false} FlowSumPush(c: Config, ms: seq<Mem>, m: Mem, j: nat, n: nat)
    ensures FlowSum(c, ms + [m], j, n)
            == FlowSum(c, ms, j, n) + (if m.dest == j && m.source < n then Size(c, m) else 0)
    decreases n
  {
    hide Size;
    if n > 0 {
      FlowSumPush(c, ms, m, j, n - 1);
      assert (ms + [m])[..|ms|] == ms;
      MemBytesConcat(c, FlowOf(ms, n - 1, j), Kept(m, n - 1, j));
      assert [m][..0] == [];
    }
  }

  /** Source by source, all of them together: every byte for j is counted once. */
  lemma {:induction false} FlowSumIsBytesTo(c: Config, ms: seq<Mem>, j: nat)
    requires BatchOK(c, ms)
    ensures FlowSum(c, ms, j, c.sources) == BytesTo(c, ms, j)
    decreases |ms|
  {
    hide Size, FlowSum;
    if ms == [] {
      NothingFlows(c, j, c.sources);
    } else {
      var front, m := ms[..|ms| - 1], ms[|ms| - 1];
      FlowSumIsBytesTo(c, front, j);
      FlowSumPush(c, front, m, j, c.sources);
      assert ms == front + [m];
    }
  }

  lemma {:induction false} BytesToIsBytes(c: Config, q: Queue, j: nat)
    requires AllTo(c, q, j)
    ensures BatchOK(c, Mems(q)) && BytesTo(c, Mems(q), j) == Bytes(c, q)
    decreases |q|
  {
    hide Size;
    if q != [] {
      BytesToIsBytes(c, q[..|q| - 1], j);
      assert Mems(q)[..|q| - 1] == Mems(q[..|q| - 1]);
    }
  }

  // ---------- Bytes on their way ----------

  lemma DownstreamOfFlow(c: Config, s: Net, i: nat, j: nat)
    requires Routed(c, s) && i < c.sources && j < c.dests
    ensures MemBytes(c, Flow(s.delivered[j], i, j)) + MemBytes(c, Flow(s.dstNic[j], i, j))
            + MemBytes(c, Flow(s.out[j], i, j))
            <= MemBytes(c, Transit(c, s, i, j))
  {
    var a, b, d, e := Flow(s.delivered[j], i, j), Flow(s.collector[j], i, j), Flow(s.dstNic[j], i, j),
                      Flow(s.out[j], i, j);
    var f, g, h := Flow(VirtAt(c, s, i, j), i, j), Flow(s.srcNic[i], i, j), Flow(s.srcQ[i], i, j);
    hide Flow, MemBytes;
    MemBytesConcat(c, a, b);
    MemBytesConcat(c, a + b, d);
    MemBytesConcat(c, a + b + d, e);
    MemBytesConcat(c, a + b + d + e, f);
    MemBytesConcat(c, a + b + d + e + f, g);
    MemBytesConcat(c, a + b + d + e + f + g, h);
  }

  /** How many of the bytes that flow (i, j) has in the network are at destination j's end of it. */
  ghost function DownstreamBytes(c: Config, s: Net, i: nat, j: nat): nat
    requires Routed(c, s) && j < c.dests
  {
    MemBytes(c, FlowOf(Mems(s.delivered[j]), i, j)) + MemBytes(c, FlowOf(Mems(s.dstNic[j]), i, j))
    + MemBytes(c, FlowOf(Mems(s.out[j]), i, j))
  }

  ghost function DownstreamSum(c: Config, s: Net, j: nat, n: nat): nat
    requires Routed(c, s) && j < c.dests
  {
    FlowSum(c, Mems(s.delivered[j]), j, n) + FlowSum(c, Mems(s.dstNic[j]), j, n) + FlowSum(c, Mems(s.out[j]), j, n)
  }

  lemma DownstreamSumUnfolds(c: Config, s: Net, j: nat, n: nat)
    requires Routed(c, s) && j < c.dests
    ensures DownstreamSum(c, s, j, n + 1) == DownstreamSum(c, s, j, n) + DownstreamBytes(c, s, n, j)
    ensures DownstreamSum(c, s, j, 0) == 0
  {
    hide MemBytes, FlowOf, Mems;
  }

  lemma DownstreamInTransit(c: Config, s: Net, i: nat, j: nat)
    requires Routed(c, s) && i < c.sources && j < c.dests
    ensures DownstreamBytes(c, s, i, j) <= MemBytes(c, Transit(c, s, i, j))
  {
    FlowOfMems(s.delivered[j], i, j);
    FlowOfMems(s.dstNic[j], i, j);
    FlowOfMems(s.out[j], i, j);
    hide MemBytes, Flow, FlowOf, Mems, Transit;
    DownstreamOfFlow(c, s, i, j);
  }

  lemma {:induction false} DownstreamOfFlows(c: Config, s: Net, asked: seq<Mem>, j: nat, n: nat)
    requires Routed(c, s) && j < c.dests && n <= c.sources
    requires forall i :: 0 <= i < n ==> Transit(c, s, i, j) == FlowOf(asked, i, j)
    ensures DownstreamSum(c, s, j, n) <= FlowSum(c, asked, j, n)
    decreases n
  {
    hide Transit, FlowOf, MemBytes, DownstreamSum, DownstreamBytes;
    if n == 0 {
      DownstreamSumUnfolds(c, s, j, 0);
    } else {
      DownstreamOfFlows(c, s, asked, j, n - 1);
      DownstreamSumUnfolds(c, s, j, n - 1);
      DownstreamInTransit(c, s, n - 1, j);
    }
  }

  /** What has been delivered to j, is in its NIC or waits at its output has been asked for. */
  lemma DownstreamIsAsked(c: Config, s: Net, asked: seq<Mem>, j: nat)
    requires Routed(c, s) && BatchOK(c, asked) && j < c.dests
    requires forall i :: 0 <= i < c.sources ==> Transit(c, s, i, j) == FlowOf(asked, i, j)
    ensures Bytes(c, s.delivered[j]) + Bytes(c, s.dstNic[j]) + Bytes(c, s.out[j]) <= BytesTo(c, asked, j)
  {
    DownstreamOfFlows(c, s, asked, j, c.sources);
    FlowSumIsBytesTo(c, asked, j);
    BytesToIsBytes(c, s.delivered[j], j);
    BytesToIsBytes(c, s.dstNic[j], j);
    BytesToIsBytes(c, s.out[j], j);
    FlowSumIsBytesTo(c, Mems(s.delivered[j]), j);
    FlowSumIsBytesTo(c, Mems(s.dstNic[j]), j);
    FlowSumIsBytesTo(c, Mems(s.out[j]), j);
  }

  // ---------- Credit ----------

  lemma {:induction false} AskedOK(c: Config, batches: seq<seq<Mem>>)
    requires forall t :: 0 <= t < |batches| ==> BatchOK(c, batches[t])
    ensures BatchOK(c, Asked(batches))
    decreases |batches|
  {
    if batches != [] {
      AskedOK(c, batches[..|batches| - 1]);
    }
  }

  /** In cycle t, what has been asked of destination j and not yet delivered fits its NIC. */
  ghost predicate Credit(c: Config, b: seq<seq<Mem>>, t: nat, j: nat)
    requires RunOK(c, b) && t < |b| && j < c.dests
  {
    BytesTo(c, Asked(b[..t + 1]), j) <= Bytes(c, Run(c, b[..t]).delivered[j]) + c.nicCapacity
  }

  lemma TransitAtOutputs(c: Config, b: seq<seq<Mem>>, t: nat, i: nat, j: nat)
    requires RunOK(c, b) && t < |b| && i < c.sources && j < c.dests
    ensures Transit(c, AtOutputs(c, t, Before(c, b, t)), i, j) == FlowOf(Asked(b[..t + 1]), i, j)
  {
    hide Transit, Sources, Nics, Switch, Run;
    var s := Before(c, b, t);
    Conservation(c, b[..t], i, j);
    InjectExtendsTransit(c, Run(c, b[..t]), b[t], i, j);
    SourcesKeepTransit(c, t, s, i, j);
    NicsKeepTransit(c, t, Sources(c, t, s), i, j);
    SwitchKeepsTransit(c, t, Nics(c, t, Sources(c, t, s)), i, j);
    RequestsOfAsked(b[..t + 1], i, j);
    assert b[..t + 1][..t] == b[..t];
  }

  lemma CreditUnblocks(c: Config, b: seq<seq<Mem>>, t: nat, j: nat)
    requires RunOK(c, b) && t < |b| && j < c.dests && Credit(c, b, t, j)
    ensures var s := AtOutputs(c, t, Before(c, b, t)); !Blocked(c, t, s.out[j], s.dstNic[j])
  {
    var s := AtOutputs(c, t, Before(c, b, t));
    AskedOK(c, b[..t + 1]);
    forall i | 0 <= i < c.sources ensures Transit(c, s, i, j) == FlowOf(Asked(b[..t + 1]), i, j) {
      TransitAtOutputs(c, b, t, i, j);
    }
    DownstreamIsAsked(c, s, Asked(b[..t + 1]), j);
    OutputsGrow(c, t, Before(c, b, t), j);
    if s.out[j] != [] {
      BytesHead(c, s.out[j]);
    }
    hide Bytes, Size, BytesTo, Transit, AtOutputs, Run, Asked;
  }

  /** If no sender exceeds its credit, nothing is ever blocked and no packet falls behind the clock. */
  lemma CreditSuffices(c: Config, b: seq<seq<Mem>>)
    requires RunOK(c, b) && forall t, j :: 0 <= t < |b| && 0 <= j < c.dests ==> Credit(c, b, t, j)
    ensures NeverBlocked(c, b) && UpToDate(Run(c, b), |b|)
  {
    hide AtOutputs, Run, Blocked, Credit, Before, UpToDate;
    forall t | 0 <= t < |b| ensures !AnyBlocked(c, t, AtOutputs(c, t, Before(c, b, t))) {
      forall j | 0 <= j < c.dests
        ensures var s := AtOutputs(c, t, Before(c, b, t)); !Blocked(c, t, s.out[j], s.dstNic[j])
      {
        CreditUnblocks(c, b, t, j);
      }
    }
    UpToDateIffNeverBlocked(c, b);
  }

  lemma {:induction false} AskedGrows(c: Config, b: seq<seq<Mem>>, n: nat, j: nat)
    requires n <= |b|
    ensures BytesTo(c, Asked(b[..n]), j) <= BytesTo(c, Asked(b), j)
    decreases |b|
  {
    hide Size;
    if n == |b| {
      assert b[..n] == b;
    } else {
      var last := |b| - 1;
      AskedGrows(c, b[..last], n, j);
      assert b[..last][..n] == b[..n];
      BytesToGrows(c, Asked(b[..last]), b[last], j);
    }
  }

  lemma {:induction false} BytesToGrows(c: Config, a: seq<Mem>, b: seq<Mem>, j: nat)
    ensures BytesTo(c, a, j) <= BytesTo(c, a + b, j)
    decreases |b|
  {
    hide Size;
    if b == [] {
      assert a + b == a;
    } else {
      BytesToGrows(c, a, b[..|b| - 1], j);
      assert (a + b)[..|a + b| - 1] == a + b[..|b| - 1];
    }
  }

  /** A check on the requests alone: if those for each destination fit its NIC together, no packet of the
      run ever falls behind the clock. */
  lemma FewRequestsSuffice(c: Config, b: seq<seq<Mem>>)
    requires RunOK(c, b) && forall j :: 0 <= j < c.dests ==> BytesTo(c, Asked(b), j) <= c.nicCapacity
    ensures NeverBlocked(c, b) && UpToDate(Run(c, b), |b|)
  {
    hide Run, BytesTo, Asked, UpToDate, NeverBlocked;
    forall t, j | 0 <= t < |b| && 0 <= j < c.dests ensures Credit(c, b, t, j) {
      AskedGrows(c, b, t + 1, j);
    }
    CreditSuffices(c, b);
  }
}
