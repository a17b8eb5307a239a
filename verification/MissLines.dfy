/** What waits for a line belongs to it: an access is only ever merged into the MSHR entry of its own line. */
module MissLines {
  import opened MissSpec
  import opened MissLate
  import opened MissBuffer

  /** Some access issued under this id is on this line. */
  ghost predicate OnLine(issued: seq<Request>, line: nat, id: nat) {
    exists r :: r in issued && r.id == id && r.vaddr / 64 == line
  }

  ghost predicate MissKnown(issued: seq<Request>, miss: Miss) {
    miss.req in issued && forall i :: 0 <= i < |miss.merged| ==> OnLine(issued, miss.req.vaddr / 64, miss.merged[i])
  }

  ghost predicate MshrKnown(issued: seq<Request>, mshr: seq<Miss>) {
    forall j :: 0 <= j < |mshr| ==> MissKnown(issued, mshr[j])
  }

  ghost predicate PendingKnown(issued: seq<Request>, misses: seq<Pending>) {
    forall j :: 0 <= j < |misses| ==> misses[j].req in issued
  }

  ghost predicate BufferKnown(issued: seq<Request>, buffer: seq<Request>) {
    forall j :: 0 <= j < |buffer| ==> buffer[j] in issued
  }

  ghost predicate Known(issued: seq<Request>, c: Core) {
    BufferKnown(issued, c.buffer) && PendingKnown(issued, c.dtlbMiss) && MshrKnown(issued, c.mshr)
  }

  lemma MissStaysKnown(issued: seq<Request>, r: Request, miss: Miss)
    requires MissKnown(issued, miss)
    ensures MissKnown(issued + [r], miss)
  {
    forall i | 0 <= i < |miss.merged| ensures OnLine(issued + [r], miss.req.vaddr / 64, miss.merged[i]) {
      assert OnLine(issued, miss.req.vaddr / 64, miss.merged[i]);
      var x :| x in issued && x.id == miss.merged[i] && x.vaddr / 64 == miss.req.vaddr / 64;
      assert x in issued + [r];
    }
  }

  lemma IssueKnown(issued: seq<Request>, r: Request, c: Core)
    requires Known(issued, c)
    ensures Known(issued + [r], c.(buffer := c.buffer + [r]))
  {
    forall j | 0 <= j < |c.mshr| ensures MissKnown(issued + [r], c.mshr[j]) {
      MissStaysKnown(issued, r, c.mshr[j]);
    }
    hide MissKnown;
  }

  lemma CacheMissKnown(issued: seq<Request>, mshr: seq<Miss>, req: Request)
    requires MshrKnown(issued, mshr) && req in issued
    ensures MshrKnown(issued, CacheMiss(mshr, req))
  {
    var j := LineMiss(mshr, req.vaddr);
    if j >= 0 {
      assert MissKnown(issued, mshr[j]);
      assert OnLine(issued, mshr[j].req.vaddr / 64, req.id);
      assert MissKnown(issued, mshr[j].(merged := mshr[j].merged + [req.id]));
    } else {
      assert MissKnown(issued, Miss(req, [], -1));
    }
    hide MissKnown, OnLine, LineMiss;
  }

  lemma CompleteKnown(issued: seq<Request>, mshr: seq<Miss>, completed: seq<nat>, clock: int)
    requires MshrKnown(issued, mshr)
    ensures MshrKnown(issued, Complete(mshr, completed, clock, 0).0)
  {
    hide MissKnown, Complete;
    var r := Complete(mshr, completed, clock, 0).0;
    forall j | 0 <= j < |r| ensures MissKnown(issued, r[j]) {
      ScanOnlyRemoves(mshr, completed, clock, 0, r[j]);
    }
  }

  lemma AnswerKnown(issued: seq<Request>, c: Core, i: nat, ready: int)
    requires MshrKnown(issued, c.mshr)
    ensures MshrKnown(issued, Answer(c, i, ready).mshr)
  {
    if i < |c.mshr| {
      assert MissKnown(issued, c.mshr[i]);
      assert MissKnown(issued, c.mshr[i].(ready := ready));
    }
    hide MissKnown;
  }

  lemma StepKnown(k: Config, m: Memory, c: Core, clock: int, e: Event, issued: seq<Request>)
    requires CoreOK(c) && Known(issued, c)
    ensures Known(issued + (if e.Issue? then [e.req] else []), CoreStep(k, m, c, clock, e).1)
  {
    hide Refill, Lookup, FirstReady, CacheMiss, Resolve, PageWaits, Complete, Respond, MshrKnown, Answer;
    assert issued + [] == issued;
    match e {
      case Issue(req) => IssueKnown(issued, req, c);
      case SearchDtlb(_, _, _) =>
        if c.buffer != [] {
          CacheMissKnown(issued, c.mshr, c.buffer[0]);
        }
      case UpdateDtlb(_) =>
        var i := FirstReady(c.dtlbMiss, clock, 0);
        if i >= 0 {
          CacheMissKnown(issued, c.mshr, c.dtlbMiss[i].req);
        }
      case AnswerMiss(i, ready) => AnswerOnly(c, i, ready); AnswerKnown(issued, c, i, ready);
      case UpdateMshr => CompleteKnown(issued, c.mshr, c.completed, clock);
      case _ =>
    }
  }

  lemma AnswerOnly(c: Core, i: nat, ready: int)
    ensures Answer(c, i, ready) == c.(mshr := Answer(c, i, ready).mshr)
  {
  }

  lemma {:induction false} AllKnown(k: Config, steps: seq<Step>, core: nat)
    requires k.Valid() && core < k.cores
    ensures Known(IssuedTo(steps, core), Run(k, steps).cores[core])
    decreases |steps|
  {
    hide CoreStep, Known;
    if steps == [] {
      NoneKnown(k, core);
    } else {
      var n := |steps| - 1;
      AllKnown(k, steps[..n], core);
      var before := Run(k, steps[..n]);
      if steps[n].core == core {
        StepKnown(k, before.memory, before.cores[core], steps[n].clock, steps[n].event, IssuedTo(steps[..n], core));
      } else {
        assert IssuedTo(steps, core) == IssuedTo(steps[..n], core);
      }
    }
  }

  lemma NoneKnown(k: Config, core: nat)
    requires k.Valid() && core < k.cores
    ensures Known([], Run(k, []).cores[core])
  {
  }

  /** In every run: the entries of an MSHR are misses of accesses issued to its core, and every id merged into
      an entry was issued for an access to the entry's line. So one answer serves nothing but its own line. */
  lemma MergedOnTheirLine(k: Config, steps: seq<Step>, core: nat, j: nat, i: nat)
    requires k.Valid() && core < k.cores && j < |Run(k, steps).cores[core].mshr|
    ensures var issued, miss := IssuedTo(steps, core), Run(k, steps).cores[core].mshr[j];
            && miss.req in issued
            && (i < |miss.merged| ==> OnLine(issued, miss.req.vaddr / 64, miss.merged[i]))
  {
    hide Run, OnLine;
    AllKnown(k, steps, core);
    assert MissKnown(IssuedTo(steps, core), Run(k, steps).cores[core].mshr[j]);
  }
}
