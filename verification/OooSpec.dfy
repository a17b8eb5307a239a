/** One cycle of the out-of-order core as functions on the core's abstract state.
    `OooCore` holds the machine that updates its tables in place; its methods are proved against these. */
module OooSpec {
  import opened RobRing

  datatype Config = Config(robSize: nat, rsSize: nat, numReg: nat, types: nat, units: nat,
                           latency: seq<nat>, issueWidth: nat, dispatchWidth: nat, commitWidth: nat,
                           branchPenalty: nat)
  {
    ghost predicate Valid() {
      && robSize >= 3 && rsSize >= 1 && types >= 1 && units >= 1 && |latency| == types
      && dispatchWidth >= 1 && commitWidth >= 1
    }
  }

  /** A decoded instruction without memory reads. Register -1 means "none". */
  datatype Instr = Instr(insId: nat, readRegs: seq<int>, writeRegs: seq<int>, memWrite: int,
                         mispredicted: bool, insType: nat)

  datatype Decoded = Decoded(ins: Instr, completeCycle: int)

  /** `waits[k]` is the slot operand k waits for, or -1. */
  datatype Station = Station(valid: bool, robIndex: nat, insId: nat, readRegs: seq<int>, waits: seq<int>,
                             mispredicted: bool, insType: nat)

  datatype Unit = Unit(busy: bool, robIndex: nat, rsIndex: nat, cycles: nat)

  datatype Ready = Ready(rs: nat, cycles: nat)

  /** What happens to instruction number n. The log is a history variable: nothing reads it. */
  datatype Event = Issued(n: nat) | Dispatched(n: nat) | Executed(n: nat) | Committed(n: nat)

  datatype State = State(live: seq<nat>, rob: seq<RobEntry>, rat: seq<int>, rs: seq<Station>,
                         ready: seq<seq<Ready>>, units: seq<seq<Unit>>, decode: seq<Decoded>,
                         penalty: nat, committed: nat, issued: nat, log: seq<Event>)

  // ---------- Index ranges ----------

  ghost predicate InstrOK(c: Config, ins: Instr) {
    && ins.insType < c.types
    && (forall k :: 0 <= k < |ins.readRegs| ==> -1 <= ins.readRegs[k] < c.numReg)
    && (forall k :: 0 <= k < |ins.writeRegs| ==> -1 <= ins.writeRegs[k] < c.numReg)
  }

  ghost predicate EntryOK(c: Config, e: RobEntry) {
    forall k :: 0 <= k < |e.dependents| ==> e.dependents[k] < c.rsSize
  }

  ghost predicate SlotsOK(c: Config, slots: seq<nat>) {
    forall k :: 0 <= k < |slots| ==> slots[k] < c.robSize
  }

  ghost predicate RobOK(c: Config, rob: seq<RobEntry>) {
    |rob| == c.robSize && forall j :: 0 <= j < |rob| ==> EntryOK(c, rob[j])
  }

  ghost predicate RatOK(c: Config, rat: seq<int>) {
    |rat| == c.numReg && forall r :: 0 <= r < |rat| ==> -1 <= rat[r] < c.robSize
  }

  ghost predicate StationOK(c: Config, st: Station) {
    && st.robIndex < c.robSize && st.insType < c.types
    && forall k :: 0 <= k < |st.waits| ==> -1 <= st.waits[k] < c.robSize
  }

  ghost predicate StationsOK(c: Config, rs: seq<Station>) {
    |rs| == c.rsSize && forall i :: 0 <= i < |rs| ==> StationOK(c, rs[i])
  }

  ghost predicate ReadyOK(c: Config, ready: seq<seq<Ready>>) {
    |ready| == c.types && forall t, k :: 0 <= t < |ready| && 0 <= k < |ready[t]| ==> ready[t][k].rs < c.rsSize
  }

  ghost predicate UnitsOK(c: Config, units: seq<seq<Unit>>) {
    && |units| == c.types
    && (forall t :: 0 <= t < |units| ==> |units[t]| == c.units)
    && (forall t, u :: 0 <= t < |units| && 0 <= u < |units[t]| ==> units[t][u].robIndex < c.robSize)
  }

  ghost predicate DecodeOK(c: Config, decode: seq<Decoded>) {
    forall k :: 0 <= k < |decode| ==> InstrOK(c, decode[k].ins)
  }

  ghost predicate Shape(c: Config, s: State) {
    && c.Valid()
    && Contiguous(c.robSize, s.live)
    && RobOK(c, s.rob) && RatOK(c, s.rat) && StationsOK(c, s.rs)
    && ReadyOK(c, s.ready) && UnitsOK(c, s.units) && DecodeOK(c, s.decode)
  }

  function Idle(): Unit { Unit(false, 0, 0, 0) }

  function Empty(): Station { Station(false, 0, 0, [], [], false, 0) }

  function Initial(c: Config): (s: State)
    requires c.Valid()
    ensures Shape(c, s)
  {
    State([], seq(c.robSize, _ => RobEntry(0, [], 0, -1, [])), seq(c.numReg, _ => -1),
          seq(c.rsSize, _ => Empty()), seq(c.types, _ => []),
          seq(c.types, _ => seq(c.units, _ => Idle())), [], 0, 0, 0, [])
  }

  // ---------- Issue ----------

  /** The first free station at or after `from`, or -1. */
  function FirstFree(rs: seq<Station>, from: nat): (r: int)
    requires from <= |rs|
    ensures r == -1 ==> forall i :: from <= i < |rs| ==> rs[i].valid
    ensures r != -1 ==> from <= r < |rs| && !rs[r].valid && forall i :: from <= i < r ==> rs[i].valid
    decreases |rs| - from
  {
    if from == |rs| then -1 else if !rs[from].valid then from else FirstFree(rs, from + 1)
  }

  predicate Cleared(waits: seq<int>) {
    forall k :: 0 <= k < |waits| ==> waits[k] == -1
  }

  /** What an operand reading register r waits for, looked up through the alias table. */
  function WaitFor(rat: seq<int>, rob: seq<RobEntry>, r: int): (w: int)
    requires -1 <= r < |rat|
    requires forall q :: 0 <= q < |rat| ==> -1 <= rat[q] < |rob|
    ensures -1 <= w < |rob|
  {
    if r == -1 || rat[r] == -1 || rob[rat[r]].status == 2 then -1 else rat[r]
  }

  function Waits(c: Config, rat: seq<int>, rob: seq<RobEntry>, readRegs: seq<int>): (w: seq<int>)
    requires RobOK(c, rob) && RatOK(c, rat)
    requires forall k :: 0 <= k < |readRegs| ==> -1 <= readRegs[k] < c.numReg
    ensures |w| == |readRegs|
    ensures forall k :: 0 <= k < |w| ==> -1 <= w[k] < |rob| && w[k] == WaitFor(rat, rob, readRegs[k])
  {
    seq(|readRegs|, k requires 0 <= k < |readRegs| => WaitFor(rat, rob, readRegs[k]))
  }

  ghost predicate Grown(before: seq<nat>, after: seq<nat>, i: nat) {
    && |before| <= |after|
    && (forall k :: 0 <= k < |before| ==> after[k] == before[k])
    && (forall k :: |before| <= k < |after| ==> after[k] == i)
  }

  /** Station i joins the wake-up list of every slot one of its operands waits for, once per operand. */
  function AddDependents(rob: seq<RobEntry>, waits: seq<int>, i: nat): (r: seq<RobEntry>)
    requires forall k :: 0 <= k < |waits| ==> -1 <= waits[k] < |rob|
    ensures |r| == |rob|
    ensures forall j :: 0 <= j < |rob| ==> r[j] == rob[j].(dependents := r[j].dependents)
    ensures forall j :: 0 <= j < |rob| ==> Grown(rob[j].dependents, r[j].dependents, i)
  {
    if waits == [] then rob
    else
      var before := AddDependents(rob, waits[..|waits| - 1], i);
      var w := waits[|waits| - 1];
      if w == -1 then before
      else before[w := before[w].(dependents := before[w].dependents + [i])]
  }

  function SetAlias(rat: seq<int>, writeRegs: seq<int>, slot: int): seq<int> {
    seq(|rat|, r requires 0 <= r < |rat| => if r in writeRegs then slot else rat[r])
  }

  function Push(ready: seq<seq<Ready>>, t: nat, i: nat): seq<seq<Ready>>
    requires t < |ready|
  {
    ready[t := ready[t] + [Ready(i, 0)]]
  }

  ghost predicate CanIssue(c: Config, s: State, i: int) {
    Shape(c, s) && s.decode != [] && 0 <= i < c.rsSize && |s.live| < c.robSize
  }

  /** `add_to_rs` then `add_to_rob`: the oldest decoded instruction takes station i. */
  function IssueOne(c: Config, s: State, i: nat): (s': State)
    requires CanIssue(c, s, i)
    ensures Shape(c, s')
  {
    AppendSlot(c.robSize, s.live);
    var ins := s.decode[0].ins;
    assert InstrOK(c, ins);
    var waits := Waits(c, s.rat, s.rob, ins.readRegs);
    var slot := NextSlot(c.robSize, s.live);
    var entry := RobEntry(ins.insId, ins.writeRegs, ins.memWrite, 0, []);
    var station := Station(true, slot, ins.insId, ins.readRegs, waits, ins.mispredicted, ins.insType);
    s.(live := s.live + [slot],
       rob := AddDependents(s.rob, waits, i)[slot := entry],
       rat := SetAlias(s.rat, ins.writeRegs, slot),
       rs := s.rs[i := station],
       ready := if Cleared(waits) then Push(s.ready, ins.insType, i) else s.ready,
       decode := s.decode[1..],
       issued := s.issued + 1,
       log := s.log + [Issued(ins.insId)])
  }

  /** One attempt: the oldest decoded instruction is issued if a station and a slot are free. */
  function TryIssue(c: Config, s: State): (s': State)
    requires Shape(c, s) && s.decode != []
    ensures Shape(c, s')
  {
    var i := FirstFree(s.rs, 0);
    if i != -1 && |s.live| < c.robSize then IssueOne(c, s, i) else s
  }

  /** `issue_instruction`: at most `issueWidth` attempts on decoded instructions that are due. */
  function Issue(c: Config, s: State, clock: int, count: nat): (s': State)
    requires Shape(c, s) && count <= c.issueWidth
    ensures Shape(c, s')
    ensures s.decode == [] ==> s' == s
    decreases c.issueWidth - count
  {
    if IssueDue(c, s, clock, count) then Issue(c, TryIssue(c, s), clock, count + 1) else s
  }

  /** Another attempt is allowed, and there is an instruction to issue. */
  predicate IssueDue(c: Config, s: State, clock: int, count: nat) {
    count < c.issueWidth && s.decode != [] && s.decode[0].completeCycle <= clock
  }

  lemma IssueUnfolds(c: Config, s: State, clock: int, count: nat)
    requires Shape(c, s) && count <= c.issueWidth
    ensures Issue(c, s, clock, count)
            == if IssueDue(c, s, clock, count) then Issue(c, TryIssue(c, s), clock, count + 1) else s
  {
    hide TryIssue, Shape;
  }

  // ---------- Dispatch ----------

  function FirstIdle(units: seq<Unit>, from: nat): (r: int)
    requires from <= |units|
    ensures r == -1 ==> forall u :: from <= u < |units| ==> units[u].busy
    ensures r != -1 ==> from <= r < |units| && !units[r].busy && forall u :: from <= u < r ==> units[u].busy
    decreases |units| - from
  {
    if from == |units| then -1 else if !units[from].busy then from else FirstIdle(units, from + 1)
  }

  /** A mispredicted branch reaching the head of its queue first charges the penalty. */
  function ChargeBranch(c: Config, s: State, i: nat): (s': State)
    requires Shape(c, s) && i < c.rsSize
    ensures Shape(c, s')
    ensures s'.live == s.live && s'.committed == s.committed && s'.issued == s.issued && s'.decode == s.decode
    ensures s.log <= s'.log
  {
    s.(penalty := c.branchPenalty, rs := s.rs[i := s.rs[i].(mispredicted := false)])
  }

  function DispatchHead(c: Config, s: State, t: nat, u: nat): (s': State)
    requires Shape(c, s) && t < c.types && s.ready[t] != [] && u < c.units
    ensures Shape(c, s')
    ensures s'.live == s.live && s'.committed == s.committed && s'.issued == s.issued && s'.decode == s.decode
    ensures s.log <= s'.log
  {
    var i := s.ready[t][0].rs;
    var j := s.rs[i].robIndex;
    assert EntryOK(c, s.rob[j]);
    s.(ready := s.ready[t := s.ready[t][1..]],
       units := s.units[t := s.units[t][u := Unit(true, j, i, 0)]],
       rs := s.rs[i := s.rs[i].(valid := false)],
       rob := s.rob[j := s.rob[j].(status := 1)],
       log := s.log + [Dispatched(s.rob[j].insId)])
  }

  function DispatchType(c: Config, s: State, t: nat, count: nat): (s': State)
    requires Shape(c, s) && t < c.types && count <= c.dispatchWidth
    ensures Shape(c, s')
    ensures s'.live == s.live && s'.committed == s.committed && s'.issued == s.issued && s'.decode == s.decode
    ensures s.log <= s'.log
    decreases c.dispatchWidth - count
  {
    if count < c.dispatchWidth && s.ready[t] != [] then
      var head := s.ready[t][0];
      var u := FirstIdle(s.units[t], 0);
      if head.cycles >= 1 && u != -1 then
        if s.rs[head.rs].mispredicted then ChargeBranch(c, s, head.rs)
        else DispatchType(c, DispatchHead(c, s, t, u), t, count + 1)
      else DispatchType(c, s, t, count + 1)
    else s
  }

  function Dispatch(c: Config, s: State, t: nat): (s': State)
    requires Shape(c, s) && t <= c.types
    ensures Shape(c, s')
    ensures s'.live == s.live && s'.committed == s.committed && s'.issued == s.issued && s'.decode == s.decode
    ensures s.log <= s'.log
    decreases c.types - t
  {
    if t == c.types then s else Dispatch(c, DispatchType(c, s, t, 0), t + 1)
  }

  // ---------- Execution ----------

  predicate Finished(c: Config, t: nat, u: Unit)
    requires t < |c.latency|
  {
    u.busy && u.cycles == c.latency[t]
  }

  function Release(c: Config, s: State, t: nat, u: nat): (s': State)
    requires Shape(c, s) && t < c.types && u < c.units
    ensures Shape(c, s')
  {
    s.(units := s.units[t := s.units[t][u := s.units[t][u].(busy := false)]])
  }

  /** `check_executed_instruction` from unit u of type t on; `done` are the slots found so far. */
  function Check(c: Config, s: State, t: nat, u: nat, done: seq<nat>): (r: (State, seq<nat>))
    requires Shape(c, s) && t <= c.types && u <= c.units
    requires SlotsOK(c, done)
    ensures Shape(c, r.0)
    ensures r.0 == s.(units := r.0.units)
    ensures SlotsOK(c, r.1)
    decreases c.types - t, c.units - u
  {
    if t == c.types then (s, done)
    else if u == c.units then Check(c, s, t + 1, 0, done)
    else if Finished(c, t, s.units[t][u]) then
      Check(c, Release(c, s, t, u), t, u + 1, done + [s.units[t][u].robIndex])
    else Check(c, s, t, u + 1, done)
  }

  /** The first operand waiting for j, or -1. */
  function FirstWaiting(waits: seq<int>, j: int, from: nat): (r: int)
    requires from <= |waits|
    ensures r == -1 ==> forall k :: from <= k < |waits| ==> waits[k] != j
    ensures r != -1 ==> from <= r < |waits| && waits[r] == j && forall k :: from <= k < r ==> waits[k] != j
    decreases |waits| - from
  {
    if from == |waits| then -1 else if waits[from] == j then from else FirstWaiting(waits, j, from + 1)
  }

  function ClearFirst(waits: seq<int>, j: int): seq<int> {
    var k := FirstWaiting(waits, j, 0);
    if k == -1 then waits else waits[k := -1]
  }

  /** Wake the first station on slot j's list: one operand stops waiting. */
  function WakeOne(c: Config, s: State, j: nat): (s': State)
    requires Shape(c, s) && j < c.robSize && s.rob[j].dependents != []
    ensures Shape(c, s')
    ensures forall i :: 0 <= i < c.rsSize ==> s'.rs[i] == s.rs[i].(waits := s'.rs[i].waits)
    ensures s'.live == s.live && s'.committed == s.committed && s'.penalty == s.penalty && s.log <= s'.log
    ensures s'.units == s.units && s'.decode == s.decode && s'.issued == s.issued
    ensures s'.rob == s.rob[j := s.rob[j].(dependents := s.rob[j].dependents[1..])]
  {
    assert EntryOK(c, s.rob[j]);
    var i := s.rob[j].dependents[0];
    var waits := ClearFirst(s.rs[i].waits, j);
    var rest := s.rob[j].(dependents := s.rob[j].dependents[1..]);
    assert EntryOK(c, rest);
    assert StationOK(c, s.rs[i]);
    s.(rob := s.rob[j := rest],
       rs := s.rs[i := s.rs[i].(waits := waits)],
       ready := if Cleared(waits) then Push(s.ready, s.rs[i].insType, i) else s.ready)
  }

  function Wake(c: Config, s: State, j: nat): (s': State)
    requires Shape(c, s) && j < c.robSize
    ensures Shape(c, s')
    ensures forall i :: 0 <= i < c.rsSize ==> s'.rs[i] == s.rs[i].(waits := s'.rs[i].waits)
    ensures s'.live == s.live && s'.committed == s.committed && s'.penalty == s.penalty && s.log <= s'.log
    ensures s'.units == s.units && s'.decode == s.decode && s'.issued == s.issued
    decreases |s.rob[j].dependents|
  {
    if s.rob[j].dependents == [] then s else Wake(c, WakeOne(c, s, j), j)
  }

  function MarkExecuted(c: Config, s: State, j: nat): (s': State)
    requires Shape(c, s) && j < c.robSize
    ensures Shape(c, s')
    ensures s'.live == s.live && s'.committed == s.committed && s'.penalty == s.penalty && s.log <= s'.log
    ensures s'.units == s.units && s'.decode == s.decode && s'.issued == s.issued
  {
    assert EntryOK(c, s.rob[j]);
    s.(rob := s.rob[j := s.rob[j].(status := 2)], log := s.log + [Executed(s.rob[j].insId)])
  }

  function Broadcast(c: Config, s: State, done: seq<nat>): (s': State)
    requires Shape(c, s)
    requires SlotsOK(c, done)
    ensures Shape(c, s')
    ensures forall i :: 0 <= i < c.rsSize ==> s'.rs[i] == s.rs[i].(waits := s'.rs[i].waits)
    ensures s'.live == s.live && s'.committed == s.committed && s'.penalty == s.penalty && s.log <= s'.log
    ensures s'.units == s.units && s'.decode == s.decode && s'.issued == s.issued
    decreases |done|
  {
    if done == [] then s
    else Broadcast(c, Wake(c, MarkExecuted(c, s, done[0]), done[0]), done[1..])
  }

  // ---------- Commit ----------

  function ClearAlias(rat: seq<int>, slot: int): seq<int> {
    seq(|rat|, r requires 0 <= r < |rat| => if rat[r] == slot then -1 else rat[r])
  }

  function Retire(c: Config, s: State): (s': State)
    requires Shape(c, s) && s.live != []
    ensures Shape(c, s')
    ensures s'.rs == s.rs && s'.penalty == s.penalty && s.log <= s'.log && |s'.live| <= |s.live|
    ensures s'.units == s.units && s'.decode == s.decode && s'.issued == s.issued
  {
    DropSlot(c.robSize, s.live);
    var j := s.live[0];
    assert EntryOK(c, s.rob[j]);
    s.(live := s.live[1..],
       rob := s.rob[j := s.rob[j].(status := 3)],
       rat := ClearAlias(s.rat, j),
       committed := s.committed + 1,
       log := s.log + [Committed(s.rob[j].insId)])
  }

  predicate CanRetire(c: Config, s: State, storeRoom: bool)
    requires Contiguous(c.robSize, s.live) && |s.rob| == c.robSize
  {
    && s.live != []
    && s.rob[s.live[0]].status == 2
    && (s.rob[s.live[0]].memWrite == 0 || storeRoom)
  }

  /** `commit`: `storeRoom[i]` says whether the load/store queue has room at attempt i. */
  function Commit(c: Config, s: State, storeRoom: nat -> bool, i: nat): (s': State)
    requires Shape(c, s) && i <= c.commitWidth
    ensures Shape(c, s')
    ensures s'.rs == s.rs && s'.penalty == s.penalty && s.log <= s'.log && |s'.live| <= |s.live|
    ensures s'.units == s.units && s'.decode == s.decode && s'.issued == s.issued
    decreases c.commitWidth - i
  {
    if i == c.commitWidth then s
    else if CanRetire(c, s, storeRoom(i)) then Commit(c, Retire(c, s), storeRoom, i + 1)
    else Commit(c, s, storeRoom, i + 1)
  }

  // ---------- End of cycle ----------

  /** `update_ready_queue` ages only the head of a queue, by the queue's length. */
  function AgeQueue(q: seq<Ready>): seq<Ready> {
    if q == [] then q else q[0 := q[0].(cycles := q[0].cycles + |q|)]
  }

  function AgeReady(ready: seq<seq<Ready>>): seq<seq<Ready>> {
    seq(|ready|, t requires 0 <= t < |ready| => AgeQueue(ready[t]))
  }

  function AgeUnit(u: Unit): Unit {
    if u.busy then u.(cycles := u.cycles + 1) else u
  }

  function AgeUnitsOf(us: seq<Unit>): seq<Unit> {
    seq(|us|, u requires 0 <= u < |us| => AgeUnit(us[u]))
  }

  function AgeUnits(units: seq<seq<Unit>>): seq<seq<Unit>> {
    seq(|units|, t requires 0 <= t < |units| => AgeUnitsOf(units[t]))
  }

  function EndCycle(c: Config, s: State): (s': State)
    requires Shape(c, s)
    ensures Shape(c, s')
  {
    s.(ready := AgeReady(s.ready), units := AgeUnits(s.units))
  }

  lemma FetchedShape(c: Config, s: State, arrivals: seq<Decoded>)
    requires Shape(c, s) && DecodeOK(c, arrivals)
    ensures Shape(c, s.(decode := s.decode + arrivals))
  {
  }

  /** The state in which the commit stage of an unstalled cycle starts. */
  function BeforeCommit(c: Config, s: State, arrivals: seq<Decoded>, clock: int): (s': State)
    requires Shape(c, s) && DecodeOK(c, arrivals)
    ensures Shape(c, s')
  {
    var (checked, done) := Check(c, Dispatch(c, Issue(c, s.(decode := s.decode + arrivals), clock, 0), 0), 0, 0, []);
    Broadcast(c, checked, done)
  }

  /** `update_core`: a stalled core only counts down its penalty. `arrivals` are the instructions
      the decode stage accepted this cycle. */
  function UpdateCore(c: Config, s: State, arrivals: seq<Decoded>, clock: int, storeRoom: nat -> bool): (s': State)
    requires Shape(c, s) && DecodeOK(c, arrivals)
    ensures Shape(c, s')
  {
    if s.penalty > 0 then s.(penalty := s.penalty - 1)
    else EndCycle(c, Commit(c, BeforeCommit(c, s, arrivals, clock), storeRoom, 0))
  }
}
