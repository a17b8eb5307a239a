/** The rack's memory: every node's address space, every pool, one page table per process, and what an
    access to a virtual address does. */
module RackSpec {
  import opened Paging
  import opened AddrSpec

  /** `localParity` is the parity of a node's fault count at which a page is to be local: even in the
      trace simulator, odd in the detailed one. `chunk` is the pages of one borrowed chunk. */
  datatype Config = Config(nodes: nat, processes: nat, pools: nat, localPages: nat, poolPages: nat,
                           chunk: nat, localParity: nat)
  {
    ghost predicate Valid() {
      chunk >= 1 && localParity < 2
    }
  }

  datatype Rack = Rack(spaces: seq<Space>, pools: seq<Pool>, tables: seq<seq<map<nat, nat>>>, faults: seq<nat>)

  /** One memory access: `pick` is the pool the allocation policy would choose if a chunk is needed. */
  datatype Step = Step(node: nat, process: nat, vaddr: nat, pick: nat)

  function Start(c: Config): Rack {
    Rack(seq(c.nodes, n requires 0 <= n => NewSpace(n, c.localPages)),
         seq(c.pools, k requires 0 <= k => NewPool(k, c.poolPages)),
         seq(c.nodes, _ => seq(c.processes, _ => map[])),
         seq(c.nodes, _ => 0))
  }

  ghost predicate Shape(c: Config, s: Rack) {
    && |s.spaces| == c.nodes && |s.pools| == c.pools && |s.tables| == c.nodes && |s.faults| == c.nodes
    && (forall n :: 0 <= n < c.nodes ==> |s.tables[n]| == c.processes)
  }

  ghost predicate StepOK(c: Config, step: Step) {
    step.node < c.nodes && step.process < c.processes && step.pick < c.pools
  }

  // ---------- A page fault ----------

  predicate GoesLocal(c: Config, faults: nat, s: Space) {
    faults % 2 == c.localParity && FreeLocal(s)
  }

  predicate NeedsChunk(c: Config, faults: nat, s: Space) {
    !GoesLocal(c, faults, s) && !FreeRemote(s)
  }

  /** The space and pool with a chunk borrowed, if the page is to be remote and none is free. */
  function Grown(c: Config, faults: nat, s: Space, p: Pool): (Space, Pool) {
    if NeedsChunk(c, faults, s) then Request(s, p, c.chunk) else (s, p)
  }

  function Take(c: Config, faults: nat, before: Space, s: Space): (Space, nat) {
    if GoesLocal(c, faults, before) then AllocateLocal(s) else AllocateRemote(s)
  }

  /** What a fault leaves of the node's space, the picked pool, the process's table and the fault count. */
  datatype Faulted = Faulted(space: Space, pool: Pool, table: map<nat, nat>, faults: nat)

  /** `handle_page_fault`. */
  function FaultOn(c: Config, s: Space, p: Pool, table: map<nat, nat>, faults: nat, page: nat): Faulted {
    var (s1, p1) := Grown(c, faults, s, p);
    if page in table then Faulted(s1, p1, table, faults + 1)
    else
      var (s2, frame) := Take(c, faults, s, s1);
      Faulted(s2, p1, table[page := frame], faults + 1)
  }

  function Fault(c: Config, s: Rack, step: Step): (s': Rack)
    requires Shape(c, s) && StepOK(c, step)
    ensures Shape(c, s')
  {
    var n, p, k := step.node, step.process, step.pick;
    var f := FaultOn(c, s.spaces[n], s.pools[k], s.tables[n][p], s.faults[n], PageOf(step.vaddr));
    Rack(s.spaces[n := f.space], s.pools[k := f.pool],
         s.tables[n := s.tables[n][p := f.table]], s.faults[n := f.faults])
  }

  /** Walk the table; on a miss, handle the fault. */
  function Touch(c: Config, s: Rack, step: Step): (s': Rack)
    requires Shape(c, s) && StepOK(c, step)
    ensures Shape(c, s')
  {
    if PageOf(step.vaddr) in s.tables[step.node][step.process] then s else Fault(c, s, step)
  }

  /** The chunk request of this step, if it makes one, finds enough free pages, and the node's space
      stays within the 36 bits of a page number. */
  predicate Served(c: Config, s: Rack, step: Step)
    requires Shape(c, s) && StepOK(c, step)
  {
    var n := step.node;
    NeedsChunk(c, s.faults[n], s.spaces[n]) ==>
      s.pools[step.pick].free >= c.chunk && s.spaces[n].total + c.chunk <= PAGES
  }

  function Run(c: Config, steps: seq<Step>): (s: Rack)
    requires forall i :: 0 <= i < |steps| ==> StepOK(c, steps[i])
    ensures Shape(c, s)
  {
    if steps == [] then Start(c)
    else Touch(c, Run(c, steps[..|steps| - 1]), steps[|steps| - 1])
  }

  ghost predicate AllServed(c: Config, steps: seq<Step>)
    requires forall i :: 0 <= i < |steps| ==> StepOK(c, steps[i])
  {
    forall i :: 0 <= i < |steps| ==> Served(c, Run(c, steps[..i]), steps[i])
  }

  // ---------- Translation ----------

  datatype Unit = LocalMemory(node: nat) | PoolMemory(pool: int)

  datatype Place = Place(memory: Unit, addr: int)

  /** Where the access goes: the node's own memory, or a pool's, as `send_to_memory` and the trace reader
      compute it from the node's physical address. */
  function Locate(s: Space, node: nat, physical: nat): Place {
    var page, offset := PageOf(physical), physical % PAGE;
    if page < s.localPages then Place(LocalMemory(node), physical)
    else
      var pool := FindPool(s.regions, page);
      Place(PoolMemory(pool), RemotePage(s.regions, page, pool) * PAGE + offset)
  }

  function Translate(c: Config, s: Rack, node: nat, process: nat, vaddr: nat): Option<Place>
    requires Shape(c, s) && node < c.nodes && process < c.processes
  {
    var table := s.tables[node][process];
    if PageOf(vaddr) in table then
      Some(Locate(s.spaces[node], node, table[PageOf(vaddr)] * PAGE + vaddr % PAGE))
    else None
  }
}
