/** Translation and data misses of a node: the instruction and data TLBs of its cores, the list of page
    faults under way, and each core's load/store path from its buffer through the DTLB miss buffer and
    the L1 MSHR to completion. Whether the data cache hits, and when lower levels answer, are inputs. */
module MissSpec {
  import opened Paging
  import opened RotatingSet

  /** The shape of a node: how many cores, their TLBs' sets and ways, the entries of a miss buffer, and
      the latencies of a data-cache hit, a page-table walk, a page fault and a borrowed chunk. */
  datatype Config = Config(cores: nat, itlbSets: nat, dtlbSets: nat, itlbWays: nat, dtlbWays: nat, mshr: nat,
                           l1Hit: nat, walkLatency: nat, faultLatency: nat, chunkLatency: nat)
  {
    ghost predicate Valid() {
      itlbSets >= 1 && dtlbSets >= 1 && itlbWays >= 1 && dtlbWays >= 1
    }
  }

  /** A TLB: each way carries a frame. */
  type Tlb = seq<Set<nat>>

  ghost predicate TlbOK(t: Tlb) {
    |t| >= 1 && forall i :: 0 <= i < |t| ==> SetOK(t[i])
  }

  /** `SplitAddress` with 4096-byte pages. */
  function TlbTag(vaddr: nat): nat {
    vaddr / PAGE
  }

  /** `AccessTLB`. */
  function Lookup(t: Tlb, vaddr: nat, asid: int): Option<nat>
    requires |t| >= 1
  {
    var s := t[TlbTag(vaddr) % |t|];
    var i := Find(s, TlbTag(vaddr), asid);
    if i < 0 then None else Some(s.ways[i].data)
  }

  /** `ReplaceTLB`. */
  function Refill(t: Tlb, vaddr: nat, asid: int, frame: nat): (t': Tlb)
    requires TlbOK(t)
    ensures TlbOK(t') && |t'| == |t|
  {
    var i := TlbTag(vaddr) % |t|;
    t[i := Fill(t[i], TlbTag(vaddr), asid, frame)]
  }

  /** A load or store, and a translation it waits for. */
  datatype Request = Request(id: nat, vaddr: nat, asid: int)

  datatype Pending = Pending(req: Request, frame: nat, ready: int)

  /** An MSHR entry: the first miss on a line, and the ids merged into it. `ready` is -1 until answered. */
  datatype Miss = Miss(req: Request, merged: seq<nat>, ready: int)

  datatype Response = Response(id: nat, ready: int)

  datatype Core = Core(itlb: Tlb, dtlb: Tlb, itlbMiss: seq<Pending>, buffer: seq<Request>, dtlbMiss: seq<Pending>,
                       mshr: seq<Miss>, responses: seq<Response>, completed: seq<nat>, passed: bool)

  /** A page fault whose latency has not run out. */
  datatype Fault = Fault(frame: nat, ready: int)

  /** The node's page table as a map, and its page faults under way, by untruncated page number. */
  datatype Memory = Memory(table: map<nat, nat>, faults: map<nat, Fault>)

  datatype Node = Node(memory: Memory, cores: seq<Core>)

  ghost predicate CoreOK(c: Core) {
    TlbOK(c.itlb) && TlbOK(c.dtlb)
  }

  ghost predicate NodeOK(n: Node) {
    forall i :: 0 <= i < |n.cores| ==> CoreOK(n.cores[i])
  }

  // ---------- Translation ----------

  /** What the page-fault handler would do: the frame it hands out, whether it is local, and whether a
      chunk had to be borrowed. */
  datatype Allocation = Allocation(frame: nat, local: bool, newChunk: bool)

  datatype Resolved = Resolved(memory: Memory, frame: nat, ready: int)

  /** The common part of `ITLB_MISS` and `DTLB_MISS`. */
  function Resolve(k: Config, m: Memory, clock: int, vaddr: nat, a: Allocation): Resolved {
    var page := TlbTag(vaddr);
    if page in m.faults then Resolved(m, m.faults[page].frame, m.faults[page].ready)
    else if PageOf(vaddr) in m.table then Resolved(m, m.table[PageOf(vaddr)], clock + k.walkLatency)
    else
      Resolved(Memory(m.table[PageOf(vaddr) := a.frame],
                      m.faults[page := Fault(a.frame, clock + (if a.local then k.faultLatency else k.chunkLatency))]),
               a.frame, clock + (if a.newChunk then k.chunkLatency else k.faultLatency))
  }

  /** `page_fault_entry_update`. */
  function Expire(m: Memory, clock: int): Memory {
    m.(faults := map p | p in m.faults && m.faults[p].ready > clock :: m.faults[p])
  }

  // ---------- The instruction side ----------

  /** An instruction fetch looks its address up; on a miss, and with no other miss outstanding, it asks
      for the translation. */
  function FetchStep(k: Config, m: Memory, c: Core, clock: int, req: Request, a: Allocation): (Memory, Core)
    requires CoreOK(c)
  {
    if Lookup(c.itlb, req.vaddr, req.asid).Some? || |c.itlbMiss| >= 1 then (m, c)
    else
      var r := Resolve(k, m, clock, req.vaddr, a);
      (r.memory, c.(itlbMiss := c.itlbMiss + [Pending(req, r.frame, r.ready)]))
  }

  /** `itlb_mshr_update`. */
  function ItlbUpdate(c: Core, clock: int): (c': Core)
    requires CoreOK(c)
    ensures CoreOK(c')
  {
    if |c.itlbMiss| == 1 && c.itlbMiss[0].ready == clock then
      var p := c.itlbMiss[0];
      c.(itlb := Refill(c.itlb, p.req.vaddr, p.req.asid, p.frame), itlbMiss := [])
    else c
  }

  // ---------- The data side ----------

  /** The first MSHR entry for the line, or -1. */
  function LineMiss(mshr: seq<Miss>, vaddr: nat): (r: int)
    ensures -1 <= r < |mshr|
    ensures r >= 0 ==> mshr[r].req.vaddr / 64 == vaddr / 64
    ensures r < 0 ==> forall j :: 0 <= j < |mshr| ==> mshr[j].req.vaddr / 64 != vaddr / 64
  {
    if mshr == [] then -1
    else
      var r := LineMiss(mshr[..|mshr| - 1], vaddr);
      if r >= 0 then r else if mshr[|mshr| - 1].req.vaddr / 64 == vaddr / 64 then |mshr| - 1 else -1
  }

  /** `dcache_miss`: merge into the line's entry, or open one. */
  function CacheMiss(mshr: seq<Miss>, req: Request): seq<Miss> {
    var j := LineMiss(mshr, req.vaddr);
    if j >= 0 then mshr[j := mshr[j].(merged := mshr[j].merged + [req.id])]
    else mshr + [Miss(req, [], -1)]
  }

  predicate PageWaits(misses: seq<Pending>, vaddr: nat) {
    exists i :: 0 <= i < |misses| && PageOf(misses[i].req.vaddr) == PageOf(vaddr)
  }

  /** `dtlb_search`: the load/store at the head of the buffer. `hit` is the data cache's answer. */
  function Search(k: Config, m: Memory, c: Core, clock: int, stalled: bool, hit: bool, a: Allocation): (Memory, Core)
    requires CoreOK(c)
  {
    if stalled || c.buffer == [] then (m, c)
    else
      var req := c.buffer[0];
      if Lookup(c.dtlb, req.vaddr, req.asid).Some? then
        if c.passed then (m, c.(passed := false))
        else if hit then
          (m, c.(responses := c.responses + [Response(req.id, clock + k.l1Hit)], buffer := c.buffer[1..]))
        else if |c.mshr| < k.mshr then (m, c.(mshr := CacheMiss(c.mshr, req), buffer := c.buffer[1..]))
        else (m, c)
      else if PageWaits(c.dtlbMiss, req.vaddr) || |c.dtlbMiss| >= k.mshr then (m, c)
      else
        var r := Resolve(k, m, clock, req.vaddr, a);
        (r.memory, c.(dtlbMiss := c.dtlbMiss + [Pending(req, r.frame, r.ready)], buffer := c.buffer[1..]))
  }

  /** The first translation that has arrived, from the i-th on, or -1. */
  function FirstReady(misses: seq<Pending>, clock: int, i: nat): (r: int)
    requires i <= |misses|
    ensures -1 <= r < |misses|
    ensures r >= 0 ==> r >= i && misses[r].ready <= clock && forall j :: i <= j < r ==> misses[j].ready > clock
    ensures r < 0 ==> forall j :: i <= j < |misses| ==> misses[j].ready > clock
    decreases |misses| - i
  {
    if i == |misses| then -1 else if misses[i].ready <= clock then i else FirstReady(misses, clock, i + 1)
  }

  /** `dtlb_mshr_update`: refill the TLB and take the access on to the cache, unless the MSHR is full. */
  function DtlbUpdate(k: Config, c: Core, clock: int, hit: bool): (c': Core)
    requires CoreOK(c)
    ensures CoreOK(c')
  {
    var i := FirstReady(c.dtlbMiss, clock, 0);
    if i < 0 then c
    else
      var p := c.dtlbMiss[i];
      var c1 := c.(dtlb := Refill(c.dtlb, p.req.vaddr, p.req.asid, p.frame), passed := true);
      var rest := c.dtlbMiss[..i] + c.dtlbMiss[i + 1..];
      if hit then c1.(responses := c.responses + [Response(p.req.id, clock + k.l1Hit)], dtlbMiss := rest)
      else if |c.mshr| < k.mshr then c1.(mshr := CacheMiss(c.mshr, p.req), dtlbMiss := rest)
      else c1
  }

  /** A lower level has answered the i-th miss. */
  function Answer(c: Core, i: nat, ready: int): Core {
    if i < |c.mshr| then c.(mshr := c.mshr[i := c.mshr[i].(ready := ready)]) else c
  }

  /** `update_dcache_mshr` from the i-th entry on: an answered miss completes, the merged ids first. After
      a removal the scan passes over the entry that moves up. */
  function Complete(mshr: seq<Miss>, completed: seq<nat>, clock: int, i: nat): (seq<Miss>, seq<nat>)
    decreases |mshr| - i
  {
    if i >= |mshr| then (mshr, completed)
    else if 0 < mshr[i].ready <= clock then
      var rest := mshr[..i] + mshr[i + 1..];
      var done := completed + mshr[i].merged + [mshr[i].req.id];
      if rest == [] || i == |rest| then (rest, done) else Complete(rest, done, clock, i + 1)
    else Complete(mshr, completed, clock, i + 1)
  }

  function MshrUpdate(c: Core, clock: int): Core {
    var (mshr, completed) := Complete(c.mshr, c.completed, clock, 0);
    c.(mshr := mshr, completed := completed)
  }

  /** `load_store_completion`: the responses at the head of the queue whose time has come. */
  function Respond(responses: seq<Response>, completed: seq<nat>, clock: int): (seq<Response>, seq<nat>)
    decreases |responses|
  {
    if responses != [] && responses[0].ready <= clock then Respond(responses[1..], completed + [responses[0].id], clock)
    else (responses, completed)
  }

  function RespondStep(c: Core, clock: int): Core {
    var (responses, completed) := Respond(c.responses, c.completed, clock);
    c.(responses := responses, completed := completed)
  }

  // ---------- Events ----------

  datatype Event =
    | Issue(req: Request)
    | FetchInstruction(req: Request, a: Allocation)
    | UpdateItlb
    | SearchDtlb(stalled: bool, hit: bool, a: Allocation)
    | UpdateDtlb(hit: bool)
    | AnswerMiss(i: nat, ready: int)
    | UpdateMshr
    | Finish
    | ExpireFaults

  /** Something happens at a core, at some clock. */
  datatype Step = Step(core: nat, clock: int, event: Event)

  function CoreStep(k: Config, m: Memory, c: Core, clock: int, e: Event): (r: (Memory, Core))
    requires CoreOK(c)
    ensures CoreOK(r.1)
  {
    match e
    case Issue(req) => (m, c.(buffer := c.buffer + [req]))
    case FetchInstruction(req, a) => FetchStep(k, m, c, clock, req, a)
    case UpdateItlb => (m, ItlbUpdate(c, clock))
    case SearchDtlb(stalled, hit, a) => Search(k, m, c, clock, stalled, hit, a)
    case UpdateDtlb(hit) => (m, DtlbUpdate(k, c, clock, hit))
    case AnswerMiss(i, ready) => (m, Answer(c, i, ready))
    case UpdateMshr => (m, MshrUpdate(c, clock))
    case Finish => (m, RespondStep(c, clock))
    case ExpireFaults => (Expire(m, clock), c)
  }

  function Do(k: Config, n: Node, s: Step): (n': Node)
    requires NodeOK(n)
    ensures NodeOK(n') && |n'.cores| == |n.cores|
  {
    if s.core >= |n.cores| then n
    else
      var (m, c) := CoreStep(k, n.memory, n.cores[s.core], s.clock, s.event);
      Node(m, n.cores[s.core := c])
  }

  /** A core with empty queues and TLBs of the given shape. */
  function NewCore(itlbSets: nat, dtlbSets: nat, itlbWays: nat, dtlbWays: nat): (c: Core)
    requires itlbSets >= 1 && dtlbSets >= 1 && itlbWays >= 1 && dtlbWays >= 1
    ensures CoreOK(c)
  {
    Core(seq(itlbSets, _ => NewSet(itlbWays, 0)), seq(dtlbSets, _ => NewSet(dtlbWays, 0)),
         [], [], [], [], [], [], false)
  }

  function Run(k: Config, steps: seq<Step>): (n: Node)
    requires k.Valid()
    ensures NodeOK(n) && |n.cores| == k.cores
  {
    if steps == [] then
      Node(Memory(map[], map[]), seq(k.cores, _ => NewCore(k.itlbSets, k.dtlbSets, k.itlbWays, k.dtlbWays)))
    else Do(k, Run(k, steps[..|steps| - 1]), steps[|steps| - 1])
  }
}
