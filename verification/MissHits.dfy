/** When a TLB hits: exactly when its page is among the last refills of its set. */
module MissHits {
  import opened RotatingSet
  import opened MissSpec

  /** A translation that has been put into a TLB. */
  datatype Refilled = Refilled(vaddr: nat, asid: int, frame: nat)

  /** The refills of set i of a TLB with this many sets, in order. */
  function OfSet(rs: seq<Refilled>, sets: nat, i: nat): seq<Refilled>
    requires sets >= 1
  {
    if rs == [] then []
    else
      var before := OfSet(rs[..|rs| - 1], sets, i);
      var last := rs[|rs| - 1];
      if TlbTag(last.vaddr) % sets == i then before + [last] else before
  }

  function QueueOf(rs: seq<Refilled>, k: nat): Fifo<nat> {
    if rs == [] then Fifo([], 0)
    else
      var last := rs[|rs| - 1];
      Push(QueueOf(rs[..|rs| - 1], k), k, TlbTag(last.vaddr), last.asid, last.frame)
  }

  /** The line of a refill. */
  ghost predicate IsRefill(rs: seq<Refilled>, l: Line<nat>) {
    l.number < |rs| && l == Line(l.number, TlbTag(rs[l.number].vaddr), rs[l.number].asid, rs[l.number].frame)
  }

  ghost predicate LastRefills(rs: seq<Refilled>, k: nat, q: Fifo<nat>) {
    q.filled == |rs| && Numbered(q, k) && forall j :: 0 <= j < |q.lines| ==> IsRefill(rs, q.lines[j])
  }

  lemma {:induction false} QueueHoldsLast(rs: seq<Refilled>, k: nat)
    requires k >= 1
    ensures LastRefills(rs, k, QueueOf(rs, k))
    decreases |rs|
  {
    if rs != [] {
      var front := rs[..|rs| - 1];
      QueueHoldsLast(front, k);
      var q, q' := QueueOf(front, k), QueueOf(rs, k);
      forall j | 0 <= j < |q'.lines| ensures IsRefill(rs, q'.lines[j]) {
        if j < |q'.lines| - 1 {
          var l := q.lines[j + (if |q.lines| == k then 1 else 0)];
          assert q'.lines[j] == l && IsRefill(front, l);
        }
      }
    }
  }

  /** The TLB holds the refills. */
  ghost predicate TlbIs(t: Tlb, sets: nat, ways: nat, rs: seq<Refilled>) {
    && sets >= 1 && ways >= 1 && |t| == sets
    && forall i :: 0 <= i < sets ==> |t[i].ways| == ways && Rotates(t[i], QueueOf(OfSet(rs, sets, i), ways))
  }

  lemma NewTlbIs(sets: nat, ways: nat)
    requires sets >= 1 && ways >= 1
    ensures TlbIs(seq(sets, _ => NewSet(ways, 0)), sets, ways, [])
  {
    NewSetRotates(ways, 0);
  }

  lemma RefillIs(t: Tlb, sets: nat, ways: nat, rs: seq<Refilled>, r: Refilled)
    requires TlbIs(t, sets, ways, rs) && TlbOK(t)
    ensures TlbIs(Refill(t, r.vaddr, r.asid, r.frame), sets, ways, rs + [r])
  {
    var at := TlbTag(r.vaddr) % sets;
    FillPushes(t[at], QueueOf(OfSet(rs, sets, at), ways), TlbTag(r.vaddr), r.asid, r.frame);
    hide Rotates, Fill, Push, TlbTag;
    assert (rs + [r])[..|rs|] == rs;
    forall i | 0 <= i < sets
      ensures QueueOf(OfSet(rs + [r], sets, i), ways)
              == if i == at then Push(QueueOf(OfSet(rs, sets, i), ways), ways, TlbTag(r.vaddr), r.asid, r.frame)
                 else QueueOf(OfSet(rs, sets, i), ways)
    {
      if i == at {
        var of := OfSet(rs, sets, i);
        assert (of + [r])[..|of|] == of;
      }
    }
  }

  /** The m-th refill of the address's set is one of the last `ways`, and it is for the address's page. */
  ghost predicate HeldAs(rs: seq<Refilled>, sets: nat, ways: nat, vaddr: nat, asid: int, m: nat)
    requires sets >= 1
  {
    var of := OfSet(rs, sets, TlbTag(vaddr) % sets);
    m < |of| <= m + ways && TlbTag(of[m].vaddr) == TlbTag(vaddr) && of[m].asid == asid
  }

  ghost predicate Held(rs: seq<Refilled>, sets: nat, ways: nat, vaddr: nat, asid: int)
    requires sets >= 1
  {
    exists m: nat :: HeldAs(rs, sets, ways, vaddr, asid, m)
  }

  ghost predicate HeldWith(rs: seq<Refilled>, sets: nat, ways: nat, vaddr: nat, asid: int, frame: nat)
    requires sets >= 1
  {
    exists m: nat :: HeldAs(rs, sets, ways, vaddr, asid, m) && OfSet(rs, sets, TlbTag(vaddr) % sets)[m].frame == frame
  }

  lemma RefillOfLine(rs: seq<Refilled>, sets: nat, ways: nat, vaddr: nat, asid: int, q: Fifo<nat>, l: nat)
    requires sets >= 1 && LastRefills(OfSet(rs, sets, TlbTag(vaddr) % sets), ways, q) && l < |q.lines|
    requires Hits(q.lines[l], TlbTag(vaddr), asid)
    ensures HeldAs(rs, sets, ways, vaddr, asid, q.lines[l].number)
    ensures OfSet(rs, sets, TlbTag(vaddr) % sets)[q.lines[l].number].frame == q.lines[l].data
  {
    hide OfSet, TlbTag;
    assert IsRefill(OfSet(rs, sets, TlbTag(vaddr) % sets), q.lines[l]);
  }

  lemma LineOfRefill(rs: seq<Refilled>, sets: nat, ways: nat, vaddr: nat, asid: int, q: Fifo<nat>,
                     m: nat) returns (l: nat)
    requires sets >= 1 && LastRefills(OfSet(rs, sets, TlbTag(vaddr) % sets), ways, q)
    requires HeldAs(rs, sets, ways, vaddr, asid, m)
    ensures l < |q.lines| && Hits(q.lines[l], TlbTag(vaddr), asid)
  {
    hide OfSet, TlbTag;
    l := m - (q.filled - |q.lines|);
    assert IsRefill(OfSet(rs, sets, TlbTag(vaddr) % sets), q.lines[l]);
  }

  /** A TLB that holds its refills hits exactly for the last of each set, with the frame of such a refill. */
  lemma LookupIff(t: Tlb, sets: nat, ways: nat, rs: seq<Refilled>, vaddr: nat, asid: int)
    requires TlbIs(t, sets, ways, rs)
    ensures Lookup(t, vaddr, asid).Some? <==> Held(rs, sets, ways, vaddr, asid)
    ensures Lookup(t, vaddr, asid).Some? ==> HeldWith(rs, sets, ways, vaddr, asid, Lookup(t, vaddr, asid).value)
  {
    hide QueueOf, OfSet, TlbTag, LastRefills, HeldAs, Find, Chosen;
    var i := TlbTag(vaddr) % sets;
    var of := OfSet(rs, sets, i);
    var q := QueueOf(of, ways);
    QueueHoldsLast(of, ways);
    FindChooses(t[i], q, TlbTag(vaddr), asid);
    var w, j := Find(t[i], TlbTag(vaddr), asid), Chosen(q.lines, ways, TlbTag(vaddr), asid);
    ChosenHits(q.lines, ways, TlbTag(vaddr), asid);
    if j >= 0 {
      RefillOfLine(rs, sets, ways, vaddr, asid, q, j);
      assert Holds(t[i].ways[Slot(q.lines[j].number, ways)], q.lines[j]);
    }
    if m :| HeldAs(rs, sets, ways, vaddr, asid, m) {
      var l := LineOfRefill(rs, sets, ways, vaddr, asid, q, m);
    }
  }

  lemma ChosenHits(lines: seq<Line<nat>>, k: nat, tag: nat, asid: int)
    requires k >= 1
    ensures var j := Chosen(lines, k, tag, asid);
            && -1 <= j < |lines| && (j >= 0 ==> Hits(lines[j], tag, asid))
            && forall l :: 0 <= l < |lines| && Hits(lines[l], tag, asid) ==> j >= 0
  {
  }

  // ---------- The refills of a run ----------

  /** What an event puts into the instruction TLB: the outstanding translation, in the cycle it falls due. */
  function IntoItlb(c: Core, clock: int, e: Event): seq<Refilled> {
    if e.UpdateItlb? && |c.itlbMiss| == 1 && c.itlbMiss[0].ready == clock then
      [Refilled(c.itlbMiss[0].req.vaddr, c.itlbMiss[0].req.asid, c.itlbMiss[0].frame)]
    else []
  }

  /** What an event puts into the data TLB: the first translation in the miss buffer that has arrived. */
  function IntoDtlb(c: Core, clock: int, e: Event): seq<Refilled> {
    if e.UpdateDtlb? && FirstReady(c.dtlbMiss, clock, 0) >= 0 then
      var p := c.dtlbMiss[FirstReady(c.dtlbMiss, clock, 0)];
      [Refilled(p.req.vaddr, p.req.asid, p.frame)]
    else []
  }

  /** All refills of a core's TLBs in a run, in order. */
  function Refills(k: Config, steps: seq<Step>, core: nat): (seq<Refilled>, seq<Refilled>)
    requires k.Valid() && core < k.cores
  {
    if steps == [] then ([], [])
    else
      var front, last := steps[..|steps| - 1], steps[|steps| - 1];
      var before := Refills(k, front, core);
      if last.core != core then before
      else
        var c := Run(k, front).cores[core];
        (before.0 + IntoItlb(c, last.clock, last.event), before.1 + IntoDtlb(c, last.clock, last.event))
  }

  lemma StepRefills(k: Config, m: Memory, c: Core, clock: int, e: Event, itlb: seq<Refilled>, dtlb: seq<Refilled>)
    requires CoreOK(c) && TlbIs(c.itlb, k.itlbSets, k.itlbWays, itlb) && TlbIs(c.dtlb, k.dtlbSets, k.dtlbWays, dtlb)
    ensures var c' := CoreStep(k, m, c, clock, e).1;
            && TlbIs(c'.itlb, k.itlbSets, k.itlbWays, itlb + IntoItlb(c, clock, e))
            && TlbIs(c'.dtlb, k.dtlbSets, k.dtlbWays, dtlb + IntoDtlb(c, clock, e))
  {
    hide TlbIs, Refill, Lookup, Resolve, Respond, Complete, CacheMiss, PageWaits, FirstReady;
    assert itlb + [] == itlb && dtlb + [] == dtlb;
    match e {
      case UpdateItlb =>
        if |c.itlbMiss| == 1 {
          RefillIs(c.itlb, k.itlbSets, k.itlbWays, itlb,
                   Refilled(c.itlbMiss[0].req.vaddr, c.itlbMiss[0].req.asid, c.itlbMiss[0].frame));
        }
      case UpdateDtlb(hit) =>
        var i := FirstReady(c.dtlbMiss, clock, 0);
        if i >= 0 {
          var p := c.dtlbMiss[i];
          RefillIs(c.dtlb, k.dtlbSets, k.dtlbWays, dtlb, Refilled(p.req.vaddr, p.req.asid, p.frame));
        }
      case _ =>
    }
  }

  lemma {:induction false} TlbsHoldRefills(k: Config, steps: seq<Step>, core: nat)
    requires k.Valid() && core < k.cores
    ensures var c, rs := Run(k, steps).cores[core], Refills(k, steps, core);
            TlbIs(c.itlb, k.itlbSets, k.itlbWays, rs.0) && TlbIs(c.dtlb, k.dtlbSets, k.dtlbWays, rs.1)
    decreases |steps|
  {
    hide TlbIs, CoreStep;
    if steps == [] {
      NewTlbIs(k.itlbSets, k.itlbWays);
      NewTlbIs(k.dtlbSets, k.dtlbWays);
    } else {
      var front, last := steps[..|steps| - 1], steps[|steps| - 1];
      TlbsHoldRefills(k, front, core);
      if last.core == core {
        var n, rs := Run(k, front), Refills(k, front, core);
        StepRefills(k, n.memory, n.cores[core], last.clock, last.event, rs.0, rs.1);
      }
    }
  }

  /** In every run a lookup in either TLB of a core hits exactly if the page, with the address space, is
      among the last refills of its set, as many as there are ways, and then gives such a refill's frame. */
  lemma TlbHitsIff(k: Config, steps: seq<Step>, core: nat, vaddr: nat, asid: int)
    requires k.Valid() && core < k.cores
    ensures var c, rs := Run(k, steps).cores[core], Refills(k, steps, core);
            var i, d := Lookup(c.itlb, vaddr, asid), Lookup(c.dtlb, vaddr, asid);
            && (i.Some? <==> Held(rs.0, k.itlbSets, k.itlbWays, vaddr, asid))
            && (i.Some? ==> HeldWith(rs.0, k.itlbSets, k.itlbWays, vaddr, asid, i.value))
            && (d.Some? <==> Held(rs.1, k.dtlbSets, k.dtlbWays, vaddr, asid))
            && (d.Some? ==> HeldWith(rs.1, k.dtlbSets, k.dtlbWays, vaddr, asid, d.value))
  {
    hide TlbIs, Run, Refills, Held, HeldWith, Lookup;
    TlbsHoldRefills(k, steps, core);
    var c, rs := Run(k, steps).cores[core], Refills(k, steps, core);
    LookupIff(c.itlb, k.itlbSets, k.itlbWays, rs.0, vaddr, asid);
    LookupIff(c.dtlb, k.dtlbSets, k.dtlbWays, rs.1, vaddr, asid);
  }
}
