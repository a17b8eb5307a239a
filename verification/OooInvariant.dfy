/** What every reachable state of the out-of-order core satisfies, relative to the instruction stream `prog`. */
module OooInvariant {
  import opened RobRing
  import opened OooSpec

  /** The stream numbers its instructions 0, 1, 2, ... */
  ghost predicate WellFormed(c: Config, prog: seq<Instr>) {
    forall n :: 0 <= n < |prog| ==> InstrOK(c, prog[n]) && prog[n].insId == n
  }

  /** The youngest instruction older than n that writes register r, or -1. */
  ghost function Producer(prog: seq<Instr>, n: nat, r: int): (p: int)
    requires n <= |prog|
    ensures -1 <= p < n
    ensures p >= 0 ==> r in prog[p].writeRegs
    ensures forall m :: p < m < n ==> r !in prog[m].writeRegs
  {
    if n == 0 then -1 else if r in prog[n - 1].writeRegs then n - 1 else Producer(prog, n - 1, r)
  }

  // ---------- Live entries and renaming ----------

  ghost predicate EntryInv(prog: seq<Instr>, e: RobEntry, n: nat)
    requires n < |prog|
  {
    && e.insId == n && e.writeRegs == prog[n].writeRegs && e.memWrite == prog[n].memWrite
    && 0 <= e.status <= 2
  }

  ghost predicate EntriesInv(prog: seq<Instr>, live: seq<nat>, rob: seq<RobEntry>, committed: nat, issued: nat) {
    && issued == committed + |live| <= |prog|
    && forall k :: 0 <= k < |live| ==> live[k] < |rob| && EntryInv(prog, rob[live[k]], committed + k)
  }

  /** The slot of instruction p's result, or -1 when it is in the register file. */
  ghost function Location(live: seq<nat>, committed: nat, p: int): int
    requires p < committed + |live|
  {
    if p < committed then -1 else live[p - committed]
  }

  /** Renaming: an alias is -1 exactly when no live instruction writes the register, and otherwise
      names the slot of the youngest live writer. */
  ghost predicate RatInv(prog: seq<Instr>, live: seq<nat>, rat: seq<int>, committed: nat, issued: nat) {
    && issued == committed + |live| <= |prog|
    && forall r :: 0 <= r < |rat| ==> rat[r] == Location(live, committed, Producer(prog, issued, r))
  }

  // ---------- Waiting stations ----------

  /** Operand r of instruction n waits for the youngest older writer of r unless that one has its
      result. While slot `waking` is being broadcast its consumers may or may not have been told. */
  ghost predicate WaitInv(prog: seq<Instr>, live: seq<nat>, rob: seq<RobEntry>, committed: nat, waking: int,
                          n: nat, r: int, w: int)
    requires committed <= n < committed + |live| <= |prog|
    requires forall k :: 0 <= k < |live| ==> live[k] < |rob|
  {
    if r == -1 || Producer(prog, n, r) < committed then w == -1
    else
      var j := live[Producer(prog, n, r) - committed];
      if j == waking then w == -1 || w == j
      else if rob[j].status == 2 then w == -1
      else w == j
  }

  ghost predicate StationInv(prog: seq<Instr>, live: seq<nat>, rob: seq<RobEntry>, committed: nat, waking: int,
                             st: Station)
    requires committed + |live| <= |prog|
    requires forall k :: 0 <= k < |live| ==> live[k] < |rob|
  {
    st.valid ==>
      && committed <= st.insId < committed + |live|
      && st.robIndex == live[st.insId - committed]
      && rob[st.robIndex].status == 0
      && st.readRegs == prog[st.insId].readRegs
      && st.insType == prog[st.insId].insType
      && (st.mispredicted ==> prog[st.insId].mispredicted)
      && |st.waits| == |st.readRegs|
      && forall k :: 0 <= k < |st.waits| ==>
           WaitInv(prog, live, rob, committed, waking, st.insId, st.readRegs[k], st.waits[k])
  }

  ghost predicate StationsInv(prog: seq<Instr>, live: seq<nat>, rob: seq<RobEntry>, committed: nat, waking: int,
                              rs: seq<Station>)
    requires committed + |live| <= |prog|
    requires forall k :: 0 <= k < |live| ==> live[k] < |rob|
  {
    && (forall i :: 0 <= i < |rs| ==> StationInv(prog, live, rob, committed, waking, rs[i]))
    && (forall i, j :: 0 <= i < j < |rs| && rs[i].valid && rs[j].valid ==> rs[i].insId != rs[j].insId)
  }

  ghost predicate Stationed(rs: seq<Station>, n: nat) {
    exists i :: 0 <= i < |rs| && rs[i].valid && rs[i].insId == n
  }

  /** No issued instruction is forgotten: one with status 0 still has its station. */
  ghost predicate StationedInv(live: seq<nat>, rob: seq<RobEntry>, committed: nat, rs: seq<Station>)
    requires forall k :: 0 <= k < |live| ==> live[k] < |rob|
  {
    forall k :: 0 <= k < |live| && rob[live[k]].status == 0 ==> Stationed(rs, committed + k)
  }

  // ---------- Executing instructions ----------

  ghost predicate RunningSlot(live: seq<nat>, rob: seq<RobEntry>, committed: nat, j: nat) {
    && j < |rob|
    && committed <= rob[j].insId < committed + |live|
    && live[rob[j].insId - committed] == j
    && rob[j].status == 1
  }

  ghost predicate Runs(units: seq<seq<Unit>>, t: int, u: int) {
    0 <= t < |units| && 0 <= u < |units[t]| && units[t][u].busy
  }

  ghost predicate UnitsInv(prog: seq<Instr>, lat: seq<nat>, live: seq<nat>, rob: seq<RobEntry>, committed: nat,
                           units: seq<seq<Unit>>) {
    && |units| == |lat|
    && (forall t, u :: Runs(units, t, u) ==>
          && RunningSlot(live, rob, committed, units[t][u].robIndex)
          && units[t][u].cycles <= lat[t]
          && rob[units[t][u].robIndex].insId < |prog|
          && prog[rob[units[t][u].robIndex].insId].insType == t)
    && (forall t, u, t', u' ::
          Runs(units, t, u) && Runs(units, t', u') && units[t][u].robIndex == units[t'][u'].robIndex ==>
          t == t' && u == u')
  }

  ghost predicate PendingInv(live: seq<nat>, rob: seq<RobEntry>, committed: nat, units: seq<seq<Unit>>,
                             pending: seq<nat>) {
    && (forall k :: 0 <= k < |pending| ==> RunningSlot(live, rob, committed, pending[k]))
    && (forall k, m :: 0 <= k < m < |pending| ==> pending[k] != pending[m])
    && (forall t, u, k :: Runs(units, t, u) && 0 <= k < |pending| ==> units[t][u].robIndex != pending[k])
  }

  ghost predicate RunsSlot(units: seq<seq<Unit>>, t: int, u: int, j: nat) {
    Runs(units, t, u) && units[t][u].robIndex == j
  }

  /** No dispatched instruction is forgotten: one with status 1 is in a unit or just left it. */
  ghost predicate RunningInv(live: seq<nat>, rob: seq<RobEntry>, units: seq<seq<Unit>>, pending: seq<nat>)
    requires forall k :: 0 <= k < |live| ==> live[k] < |rob|
  {
    forall k :: 0 <= k < |live| && rob[live[k]].status == 1 ==>
      live[k] in pending || exists t, u :: RunsSlot(units, t, u, live[k])
  }

  // ---------- Wake-up lists and ready queues ----------

  ghost function CountEq(waits: seq<int>, j: int): nat {
    if waits == [] then 0
    else CountEq(waits[..|waits| - 1], j) + (if waits[|waits| - 1] == j then 1 else 0)
  }

  ghost function Waiting(st: Station, j: int): nat {
    if st.valid then CountEq(st.waits, j) else 0
  }

  /** No lost wake-ups: slot j's list holds station i exactly as often as i waits for j. */
  ghost predicate DependentsInv(live: seq<nat>, rob: seq<RobEntry>, rs: seq<Station>)
    requires forall k :: 0 <= k < |live| ==> live[k] < |rob|
  {
    forall k, i :: 0 <= k < |live| && 0 <= i < |rs| ==>
      multiset(rob[live[k]].dependents)[i] == Waiting(rs[i], live[k])
  }

  ghost predicate QueuedAt(ready: seq<seq<Ready>>, t: int, k: int, i: nat) {
    0 <= t < |ready| && 0 <= k < |ready[t]| && ready[t][k].rs == i
  }

  /** A ready queue holds exactly the waiting stations of its type with no operand left to wait for, once each. */
  ghost predicate ReadyInv(ready: seq<seq<Ready>>, rs: seq<Station>) {
    && (forall t, k, i: nat :: QueuedAt(ready, t, k, i) ==>
          i < |rs| && rs[i].valid && rs[i].insType == t && Cleared(rs[i].waits))
    && (forall t, k, m, i: nat :: QueuedAt(ready, t, k, i) && QueuedAt(ready, t, m, i) ==> k == m)
    && (forall i :: 0 <= i < |rs| && rs[i].valid && Cleared(rs[i].waits) ==>
          exists k :: QueuedAt(ready, rs[i].insType, k, i))
  }

  // ---------- History ----------

  /** When an event may follow a history: in-order issue and commit, and no dispatch before every
      register producer has executed. */
  ghost predicate Legal(prog: seq<Instr>, log: seq<Event>, e: Event) {
    && e !in log
    && e.n < |prog|
    && match e
       case Issued(n) => n > 0 ==> Issued(n - 1) in log
       case Dispatched(n) =>
         && Issued(n) in log
         && forall k :: 0 <= k < |prog[n].readRegs| && prog[n].readRegs[k] != -1 ==>
              var p := Producer(prog, n, prog[n].readRegs[k]);
              p >= 0 ==> Executed(p) in log
       case Executed(n) => Dispatched(n) in log
       case Committed(n) => Executed(n) in log && (n > 0 ==> Committed(n - 1) in log)
  }

  ghost predicate LegalLog(prog: seq<Instr>, log: seq<Event>) {
    log == [] || (LegalLog(prog, log[..|log| - 1]) && Legal(prog, log[..|log| - 1], log[|log| - 1]))
  }

  /** How far instruction n has come: 0 waiting, 1 dispatched, 2 executed, 3 committed. */
  ghost function Progress(live: seq<nat>, rob: seq<RobEntry>, committed: nat, n: nat): int
    requires n < committed + |live|
    requires forall k :: 0 <= k < |live| ==> live[k] < |rob|
  {
    if n < committed then 3 else rob[live[n - committed]].status
  }

  function Stage(e: Event): int {
    match e
    case Issued(_) => 0
    case Dispatched(_) => 1
    case Executed(_) => 2
    case Committed(_) => 3
  }

  ghost predicate Happened(live: seq<nat>, rob: seq<RobEntry>, committed: nat, e: Event)
    requires forall k :: 0 <= k < |live| ==> live[k] < |rob|
  {
    e.n < committed + |live| && Progress(live, rob, committed, e.n) >= Stage(e)
  }

  /** The log is legal and records exactly what the tables say has happened. */
  ghost predicate LogInv(prog: seq<Instr>, live: seq<nat>, rob: seq<RobEntry>, committed: nat, log: seq<Event>)
    requires forall k :: 0 <= k < |live| ==> live[k] < |rob|
  {
    && LegalLog(prog, log)
    && forall e :: e in log <==> Happened(live, rob, committed, e)
  }

  /** The decode buffer holds the next instructions of the stream. */
  ghost predicate DecodeInv(prog: seq<Instr>, decode: seq<Decoded>, issued: nat) {
    && issued + |decode| <= |prog|
    && forall k :: 0 <= k < |decode| ==> decode[k].ins == prog[issued + k]
  }

  /** `waking` is the slot being broadcast (-1 if none), `pending` the completed slots not yet broadcast. */
  ghost predicate Inv(c: Config, prog: seq<Instr>, s: State, pending: seq<nat>, waking: int) {
    && Shape(c, s) && WellFormed(c, prog)
    && EntriesInv(prog, s.live, s.rob, s.committed, s.issued)
    && RatInv(prog, s.live, s.rat, s.committed, s.issued)
    && StationsInv(prog, s.live, s.rob, s.committed, waking, s.rs)
    && StationedInv(s.live, s.rob, s.committed, s.rs)
    && UnitsInv(prog, c.latency, s.live, s.rob, s.committed, s.units)
    && PendingInv(s.live, s.rob, s.committed, s.units, pending)
    && RunningInv(s.live, s.rob, s.units, pending)
    && DependentsInv(s.live, s.rob, s.rs)
    && ReadyInv(s.ready, s.rs)
    && LogInv(prog, s.live, s.rob, s.committed, s.log)
    && DecodeInv(prog, s.decode, s.issued)
  }
}
