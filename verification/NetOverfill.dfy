/** Output buffers over whole runs, whatever the RDMA packets' size: exactly when one is overfilled, and
    requests that overfill one when RDMA packets are of 64 bytes, as in the detailed simulator. */
module NetOverfill {
  import opened NetSpec
  import opened NetSystem
  import opened NetClock
  import opened NetCapacity
  import opened NetPair

  /** In no cycle before n does the crossbar let a packet slip into an output that has no room for it. */
  ghost predicate NeverOverfills(c: Config, b: seq<seq<Mem>>, n: nat)
    requires RunOK(c, b) && n <= |b|
  {
    forall t {:trigger Before(c, b, t)} :: 0 <= t < n ==> !Overfills(c, t, Nics(c, t, Sources(c, t, Before(c, b, t))))
  }

  /** Right after the crossbar's turn, when outputs are fullest, every buffer is within its size. */
  ghost predicate PeaksWithin(c: Config, b: seq<seq<Mem>>, n: nat)
    requires RunOK(c, b) && n <= |b|
  {
    forall t {:trigger Before(c, b, t)} :: 0 <= t < n ==> WithinCapacity(c, AtOutputs(c, t, Before(c, b, t)))
  }

  lemma CycleIff(c: Config, t: int, s: Net)
    requires Routed(c, s) && WithinCapacity(c, s)
    ensures WithinCapacity(c, AtOutputs(c, t, s)) <==> !Overfills(c, t, Nics(c, t, Sources(c, t, s)))
  {
    hide WithinCapacity, Overfills, Sources, Nics, Switch;
    SourcesWithin(c, t, s);
    NicsWithin(c, t, Sources(c, t, s));
    CrossbarWithinIff(c, t, Nics(c, t, Sources(c, t, s)));
  }

  lemma RestWithin(c: Config, t: int, s: Net)
    requires Routed(c, s) && WithinCapacity(c, AtOutputs(c, t, s))
    ensures WithinCapacity(c, Simulate(c, t, s))
  {
    hide WithinCapacity, AtOutputs;
    OutputsWithin(c, t, AtOutputs(c, t, s));
    DestsWithin(c, t, Outputs(c, t, AtOutputs(c, t, s)));
    SimulateFromOutputs(c, t, s);
  }

  lemma InjectWithin(c: Config, s: Net, ms: seq<Mem>)
    requires Routed(c, s) && BatchOK(c, ms) && WithinCapacity(c, s)
    ensures WithinCapacity(c, Inject(c, s, ms))
  {
  }

  lemma RunOfNothing(c: Config)
    requires c.Valid()
    ensures Run(c, []) == Empty(c)
  {
  }

  /** A cycle begins within capacity if the cycle before peaked within capacity. */
  lemma BeginsWithin(c: Config, b: seq<seq<Mem>>, t: nat)
    requires RunOK(c, b) && t < |b| && PeaksWithin(c, b, t)
    ensures WithinCapacity(c, Before(c, b, t))
  {
    hide WithinCapacity, AtOutputs, Simulate, Run;
    if t == 0 {
      EmptyWithin(c);
      RunOfNothing(c);
      assert b[..0] == [];
    } else {
      PrefixBefore(c, b, t, t - 1);
      RunUnfolds(c, b[..t]);
      assert WithinCapacity(c, AtOutputs(c, t - 1, Before(c, b, t - 1)));
      RestWithin(c, t - 1, Before(c, b, t - 1));
    }
    InjectWithin(c, Run(c, b[..t]), b[t]);
  }

  /** In every run and for every size of RDMA packets: every buffer is within its size in every cycle,
      exactly if in no cycle a 128-byte packet crosses to an output where only an RDMA packet would fit. */
  lemma {:induction false} WithinIffNeverOverfills(c: Config, b: seq<seq<Mem>>, n: nat)
    requires RunOK(c, b) && n <= |b|
    ensures PeaksWithin(c, b, n) <==> NeverOverfills(c, b, n)
    decreases n
  {
    hide WithinCapacity, Overfills, AtOutputs, Before;
    if n > 0 {
      WithinIffNeverOverfills(c, b, n - 1);
      if PeaksWithin(c, b, n - 1) {
        BeginsWithin(c, b, n - 1);
        CycleIff(c, n - 1, Before(c, b, n - 1));
      }
      PeaksSplit(c, b, n);
      OverfillsSplit(c, b, n);
      hide PeaksWithin, NeverOverfills;
    }
  }

  lemma PeaksSplit(c: Config, b: seq<seq<Mem>>, n: nat)
    requires RunOK(c, b) && 1 <= n <= |b|
    ensures PeaksWithin(c, b, n)
            <==> PeaksWithin(c, b, n - 1) && WithinCapacity(c, AtOutputs(c, n - 1, Before(c, b, n - 1)))
  {
    hide WithinCapacity, AtOutputs, Before;
  }

  lemma OverfillsSplit(c: Config, b: seq<seq<Mem>>, n: nat)
    requires RunOK(c, b) && 1 <= n <= |b|
    ensures NeverOverfills(c, b, n)
            <==> NeverOverfills(c, b, n - 1)
                 && !Overfills(c, n - 1, Nics(c, n - 1, Sources(c, n - 1, Before(c, b, n - 1))))
  {
    hide Overfills, Nics, Sources, Before;
  }

  // ---------- A run that overfills an output ----------

  lemma TwoBytes(c: Config, m: Mem, out: Queue)
    requires Pair(c, m) && |out| == 2 && out[0].mem == Ask(m, 0) && out[1].mem == Ask(m, 1)
    ensures Bytes(c, out) == 2 * Size(c, m)
  {
    Sizes(c, m, out[0], 0);
    Sizes(c, m, out[1], 1);
    hide Size;
    BytesPush(c, [out[0]], out[1]);
    assert out == [out[0]] + [out[1]];
  }

  lemma OutputKeepsBoth(c: Config, m: Mem, t: int, s: Net)
    requires BothCrossed(c, m, t, s)
    ensures var out := Deliveries(c, t, Dests(c, t, Outputs(c, t, s))).out[0];
            |out| == 2 && out[0].mem == Ask(m, 0) && out[1].mem == Ask(m, 1)
  {
    hide Bytes, Size, SwitchDelay, NicDelay;
  }

  /** Two requests for one receiver, made in cycle 0 by two senders, overfill an output that has room for
      one of them and an RDMA packet but not for both: in the cycle in which the second crosses, and still
      when that cycle ends. */
  lemma PairOverfills(c: Config, m: Mem, b: seq<seq<Mem>>)
    requires PairRun(c, m, b) && |b| == NicDelay(c, m) + 3 && c.outputCapacity < 2 * Size(c, m)
    ensures Bytes(c, Run(c, b).out[0]) == 2 * Size(c, m) > c.outputCapacity && !WithinCapacity(c, Run(c, b))
    ensures !NeverOverfills(c, b, |b|)
  {
    hide Run, Before, AtOutputs, Simulate, Overfills, NicDelay, SwitchDelay, Size;
    var t := NicDelay(c, m) + 2;
    var s := Before(c, b, t);
    BothAtOutput(c, m, b, t);
    TwoBytes(c, m, AtOutputs(c, t, s).out[0]);
    OutputKeepsBoth(c, m, t, AtOutputs(c, t, s));
    SimulateFromOutputs(c, t, s);
    RunUnfolds(c, b);
    TwoBytes(c, m, Run(c, b).out[0]);
    WithinIffNeverOverfills(c, b, |b|);
  }

  /** Such a network, with RDMA packets of 64 bytes and outputs of 192. */
  function Small(): (c: Config)
    ensures c.Valid()
  {
    Config(2, 1, false, 64, 100_000_000, 4096, 4096, 192, 512, 512, 0, 1, 0, 0, 1)
  }

  /** A write request: 128 bytes. */
  function Write(): Mem {
    Mem(0, 0, 0, 0, 0, true, false)
  }

  function Requests(): seq<seq<Mem>> {
    [[Ask(Write(), 0), Ask(Write(), 1)], [], [], [], []]
  }

  lemma RequestsOK()
    ensures PairRun(Small(), Write(), Requests()) && NicDelay(Small(), Write()) == 2 && Size(Small(), Write()) == 128
  {
  }

  /** After five cycles an output of 192 bytes holds 256. */
  lemma OutputOverflows()
    ensures RunOK(Small(), Requests()) && |Requests()| == 5
    ensures !WithinCapacity(Small(), Run(Small(), Requests()))
    ensures Bytes(Small(), Run(Small(), Requests()).out[0]) == 256 > Small().outputCapacity
  {
    RequestsOK();
    hide NicDelay, SwitchDelay, Run, WithinCapacity, PairRun;
    PairOverfills(Small(), Write(), Requests());
  }
}
