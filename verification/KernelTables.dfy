/**
 * The kernel's tables as the source lays them out - control blocks in fixed arrays, pointers between
 * them, bit masks computed once - and what they mean in terms of `KernelSpec`.
 */
module KernelTables {
  import opened Prelude
  import opened PriorityBitmap
  import opened KernelSpec

  const NIL: int := -1

  const STAT_RDY: bv8 := 0x00
  const STAT_SEM: bv8 := 0x01
  const STAT_SUSPEND: bv8 := 0x08
  const STAT_PEND_ANY: bv8 := 0x37

  const TYPE_UNUSED: nat := 0
  const TYPE_SEM: nat := 3

  /** OS_TCB. Pointers are table indices, NIL when null. */
  datatype Tcb = Tcb(
    next: int, prev: int, event: int, dly: nat, stat: bv8, statPend: PendStatus,
    prio: nat, y: nat, x: nat, bitY: bv8, bitX: bv8)

  /** An entry of OSTCBPrioTbl. */
  datatype PrioEntry = NullEntry | ReservedEntry | TcbEntry(i: nat)

  /** OS_EVENT. */
  datatype EventBlock = EventBlock(kind: nat, ptr: int, cnt: nat, grp: bv8, tbl: seq<bv8>)

  // ---------------------------------------------------------------- consistency

  /** The precomputed masks fit the priority. */
  ghost predicate MasksOk(t: Tcb) {
    && t.prio <= 63 && t.y == t.prio / 8 && t.x == t.prio % 8
    && t.bitY == Mask(t.y) && t.bitX == Mask(t.x)
  }

  /** Only the semaphore and suspend bits of the status byte are in use. */
  ghost predicate StatOk(s: bv8) {
    s == STAT_RDY || s == STAT_SEM || s == STAT_SUSPEND || s == STAT_SEM | STAT_SUSPEND
  }

  ghost predicate TcbOk(t: Tcb) {
    MasksOk(t) && StatOk(t.stat) && t.event >= NIL
  }

  ghost predicate TableOk(tcbs: seq<Tcb>, table: seq<PrioEntry>) {
    forall p :: 0 <= p < |table| && table[p].TcbEntry? ==>
      table[p].i < |tcbs| && tcbs[table[p].i].prio == p && TcbOk(tcbs[table[p].i])
  }

  /** The neighbours of a list's i-th node. */
  function After(nodes: seq<nat>, i: nat): int
    requires i < |nodes|
  {
    if i + 1 < |nodes| then nodes[i + 1] else NIL
  }

  function Before(nodes: seq<nat>, i: nat): int
    requires i < |nodes|
  {
    if i > 0 then nodes[i - 1] else NIL
  }

  /** `nodes` is the list that starts at `head`. */
  ghost predicate Chain(tcbs: seq<Tcb>, head: int, nodes: seq<nat>) {
    && NoDuplicates(nodes)
    && head == (if nodes == [] then NIL else nodes[0])
    && forall i :: 0 <= i < |nodes| ==>
         nodes[i] < |tcbs| && tcbs[nodes[i]].next == After(nodes, i)
  }

  ghost predicate BackLinks(tcbs: seq<Tcb>, nodes: seq<nat>) {
    forall i :: 0 <= i < |nodes| ==>
      nodes[i] < |tcbs| && tcbs[nodes[i]].prev == Before(nodes, i)
  }

  /** Every listed control block is the one its priority's table entry points to. */
  ghost predicate Installed(tcbs: seq<Tcb>, table: seq<PrioEntry>, nodes: seq<nat>) {
    forall i :: 0 <= i < |nodes| ==>
      nodes[i] < |tcbs| && tcbs[nodes[i]].prio < |table| && table[tcbs[nodes[i]].prio] == TcbEntry(nodes[i])
  }

  /** Every control block is in exactly one place: the task list, the free list, or a creation in progress. */
  ghost predicate Partition(n: nat, active: seq<nat>, free: seq<nat>, limbo: set<nat>) {
    && (forall i :: i in limbo ==> i < n && i !in active && i !in free)
    && (forall i :: i in active ==> i < n && i !in free)
    && (forall i :: i in free ==> i < n)
    && (forall i :: 0 <= i < n ==> i in active || i in free || i in limbo)
  }

  ghost predicate NotInstalled(table: seq<PrioEntry>, nodes: seq<nat>) {
    forall p :: 0 <= p < |table| && table[p].TcbEntry? ==> table[p].i !in nodes
  }

  ghost predicate EventOk(e: EventBlock, groups: nat) {
    && (e.kind == TYPE_UNUSED || e.kind == TYPE_SEM)
    && |e.tbl| == groups
    && (e.kind == TYPE_SEM ==> Consistent(Bitmap(e.grp, e.tbl)))
  }

  ghost predicate EventsOk(events: seq<EventBlock>, groups: nat) {
    forall e :: 0 <= e < |events| ==> EventOk(events[e], groups)
  }

  ghost predicate EventChain(events: seq<EventBlock>, head: int, nodes: seq<nat>) {
    && NoDuplicates(nodes)
    && head == (if nodes == [] then NIL else nodes[0])
    && forall i :: 0 <= i < |nodes| ==>
         && nodes[i] < |events| && events[nodes[i]].kind == TYPE_UNUSED
         && events[nodes[i]].ptr == After(nodes, i)
  }

  // ---------------------------------------------------------------- meaning

  ghost function TaskOf(t: Tcb): Task {
    Task(PendBit(t.stat), SuspendBit(t.stat), t.statPend, t.dly,
         if t.event < 0 then None else Some(t.event))
  }

  ghost function TasksOf(tcbs: seq<Tcb>, table: seq<PrioEntry>): (m: map<nat, Task>)
    requires TableOk(tcbs, table)
    ensures forall p: nat :: p in m <==> p < |table| && table[p].TcbEntry?
    ensures forall p: nat :: p in m ==> m[p] == TaskOf(tcbs[table[p].i])
  {
    map p: nat | p < |table| && table[p].TcbEntry? :: TaskOf(tcbs[table[p].i])
  }

  ghost function ReservedOf(table: seq<PrioEntry>): (s: set<nat>)
    ensures forall p: nat :: p in s <==> p < |table| && table[p].ReservedEntry?
  {
    set p: nat | p < |table| && table[p].ReservedEntry?
  }

  ghost function LinkedOf(tcbs: seq<Tcb>, nodes: seq<nat>): (s: seq<nat>)
    requires forall i :: 0 <= i < |nodes| ==> nodes[i] < |tcbs|
    ensures |s| == |nodes| && forall i :: 0 <= i < |nodes| ==> s[i] == tcbs[nodes[i]].prio
  {
    seq(|nodes|, i requires 0 <= i < |nodes| => tcbs[nodes[i]].prio)
  }

  ghost function EcbOf(e: EventBlock): Ecb {
    if e.kind == TYPE_SEM then Sem(e.cnt, Members(Bitmap(e.grp, e.tbl))) else Unused
  }

  ghost function EventsOf(events: seq<EventBlock>): (s: seq<Ecb>)
    ensures |s| == |events| && forall e :: 0 <= e < |events| ==> s[e] == EcbOf(events[e])
  {
    seq(|events|, e requires 0 <= e < |events| => EcbOf(events[e]))
  }

  // ---------------------------------------------------------------- a snapshot of the kernel's variables

  datatype Tables = Tables(
    lowest: nat, running: bool, rdy: Bitmap,
    tcbs: seq<Tcb>, table: seq<PrioEntry>, tcbList: int, tcbFreeList: int, taskCtr: nat,
    events: seq<EventBlock>, eventFreeList: int,
    intNesting: nat, lockNesting: nat, prioCur: nat, tcbCur: int, time: nat,
    active: seq<nat>,      // the control blocks on the task list
    free: seq<nat>,        // those on the free list
    limbo: set<nat>,       // those a creation in progress holds
    freeEvents: seq<nat>)

  ghost predicate ReadyOk(lowest: nat, rdy: Bitmap) {
    lowest <= 63 && |rdy.tbl| == lowest / 8 + 1 && Consistent(rdy)
  }

  ghost predicate ListsOk(lowest: nat, tcbs: seq<Tcb>, table: seq<PrioEntry>, tcbList: int, tcbFreeList: int,
                          active: seq<nat>, free: seq<nat>, limbo: set<nat>)
  {
    && Chain(tcbs, tcbList, active)
    && BackLinks(tcbs, active)
    && Installed(tcbs, table, active)
    && Chain(tcbs, tcbFreeList, free)
    && NotInstalled(table, free)
    && Partition(|tcbs|, active, free, limbo)
    && (active != [] ==> tcbs[active[|active| - 1]].prio == lowest)
  }

  ghost predicate TablesOk(t: Tables) {
    && ReadyOk(t.lowest, t.rdy)
    && |t.table| == t.lowest + 1
    && TableOk(t.tcbs, t.table)
    && ListsOk(t.lowest, t.tcbs, t.table, t.tcbList, t.tcbFreeList, t.active, t.free, t.limbo)
    && t.taskCtr == |t.active|
    && EventsOk(t.events, t.lowest / 8 + 1)
    && EventChain(t.events, t.eventFreeList, t.freeEvents)
    && (t.running ==> t.prioCur <= t.lowest && t.tcbCur >= 0 && t.table[t.prioCur] == TcbEntry(t.tcbCur))
  }

  ghost function StateOf(t: Tables): State
    requires TablesOk(t)
  {
    State(t.lowest, t.running, Members(t.rdy), TasksOf(t.tcbs, t.table), ReservedOf(t.table),
          LinkedOf(t.tcbs, t.active), |t.free|, EventsOf(t.events), t.freeEvents,
          t.intNesting, t.lockNesting, t.prioCur, t.time)
  }

  // ---------------------------------------------------------------- updates

  /** Rewriting a control block's status fields changes that one task. */
  lemma TcbUpdate(tcbs: seq<Tcb>, table: seq<PrioEntry>, i: nat, t: Tcb)
    requires TableOk(tcbs, table) && i < |tcbs| && TcbOk(t)
    requires t.prio == tcbs[i].prio < |table| && table[t.prio] == TcbEntry(i)
    ensures TableOk(tcbs[i := t], table)
    ensures TasksOf(tcbs[i := t], table) == TasksOf(tcbs, table)[t.prio := TaskOf(t)]
  {}

  /** Rewriting a control block's status fields leaves every list as it is. */
  lemma ListsUpdate(tcbs: seq<Tcb>, i: nat, t: Tcb, head: int, nodes: seq<nat>)
    requires i < |tcbs| && t.next == tcbs[i].next && t.prev == tcbs[i].prev && t.prio == tcbs[i].prio
    ensures Chain(tcbs[i := t], head, nodes) <==> Chain(tcbs, head, nodes)
    ensures BackLinks(tcbs[i := t], nodes) <==> BackLinks(tcbs, nodes)
    ensures forall table :: Installed(tcbs[i := t], table, nodes) <==> Installed(tcbs, table, nodes)
    ensures (forall k :: 0 <= k < |nodes| ==> nodes[k] < |tcbs|) ==>
              LinkedOf(tcbs[i := t], nodes) == LinkedOf(tcbs, nodes)
  {}

  lemma EventUpdate(events: seq<EventBlock>, e: nat, b: EventBlock, groups: nat)
    requires e < |events| && EventsOk(events, groups) && EventOk(b, groups)
    ensures EventsOk(events[e := b], groups)
    ensures EventsOf(events[e := b]) == EventsOf(events)[e := EcbOf(b)]
  {}

  // ---------------------------------------------------------------- one variable at a time

  /** `i` is the control block a task's table entry points to. */
  predicate InstalledAt(t: Tables, i: int) {
    0 <= i < |t.tcbs| && t.tcbs[i].prio < |t.table| && t.table[t.tcbs[i].prio] == TcbEntry(i)
  }

  /** The fields that the critical sections after creation never write. */
  predicate SameLinks(a: Tcb, b: Tcb) {
    a.next == b.next && a.prev == b.prev && a.prio == b.prio && a.y == b.y && a.x == b.x && a.bitY == b.bitY && a.bitX == b.bitX
  }

  lemma ChangeReady(t: Tables, rdy: Bitmap)
    requires TablesOk(t) && ReadyOk(t.lowest, rdy)
    ensures TablesOk(t.(rdy := rdy))
    ensures StateOf(t.(rdy := rdy)) == StateOf(t).(ready := Members(rdy))
  {
    hide Consistent, TableOk, ListsOk, EventsOk, EventChain;
  }

  lemma CurIs(t: Tables)
    requires TablesOk(t) && t.running
    ensures StateOf(t).cur == t.prioCur < |t.table| && t.tcbCur >= 0 && t.table[t.prioCur] == TcbEntry(t.tcbCur)
    ensures StateOf(t).intNesting == t.intNesting && StateOf(t).lockNesting == t.lockNesting
  {}

  lemma StartedFlag(t: Tables)
    requires TablesOk(t)
    ensures StateOf(t).running == t.running && StateOf(t).lowest == t.lowest <= 63
    ensures StateOf(t).intNesting == t.intNesting && StateOf(t).lockNesting == t.lockNesting
  {}

  /** A context switch to a created task. */
  lemma SwitchTask(t: Tables, p: nat)
    requires TablesOk(t) && p in StateOf(t).tasks
    ensures p < |t.table| && t.table[p].TcbEntry?
    ensures var t' := t.(prioCur := p, tcbCur := t.table[p].i, running := true);
            TablesOk(t') && StateOf(t') == StateOf(t).(cur := p, running := true)
  {
    hide Consistent, ListsOk, EventsOk, EventChain;
  }

  /** The source's way to take a bit out of a bitmap: clear it, then look at the byte. */
  lemma RemoveIs(b: Bitmap, p: nat, bitY: bv8, bitX: bv8, byte: bv8)
    requires p / 8 < |b.tbl| <= 8 && bitX == Mask(p % 8) && bitY == Mask(p / 8) && byte == b.tbl[p / 8] & !bitX
    ensures Remove(b, p) == Bitmap(if byte == 0 then b.grp & !bitY else b.grp, b.tbl[p / 8 := byte])
  {
    hide Mask;
  }

  lemma InsertReady(t: Tables, p: nat)
    requires TablesOk(t) && p <= t.lowest
    ensures p / 8 < |t.rdy.tbl| <= 8
    ensures TablesOk(t.(rdy := Insert(t.rdy, p)))
    ensures StateOf(t.(rdy := Insert(t.rdy, p))) == StateOf(t).(ready := StateOf(t).ready + {p})
  {
    hide Mask, Bit, TableOk, ListsOk, EventsOk, EventChain, Has;
    InsertMembers(t.rdy, p);
    ChangeReady(t, Insert(t.rdy, p));
  }

  lemma RemoveReady(t: Tables, p: nat)
    requires TablesOk(t) && p <= t.lowest
    ensures p / 8 < |t.rdy.tbl| <= 8
    ensures TablesOk(t.(rdy := Remove(t.rdy, p)))
    ensures StateOf(t.(rdy := Remove(t.rdy, p))) == StateOf(t).(ready := StateOf(t).ready - {p})
  {
    hide Mask, Bit, TableOk, ListsOk, EventsOk, EventChain, Has;
    RemoveMembers(t.rdy, p);
    ChangeReady(t, Remove(t.rdy, p));
  }

  lemma ChangeTcbLists(t: Tables, i: nat, b: Tcb)
    requires TablesOk(t) && i < |t.tcbs| && SameLinks(t.tcbs[i], b)
    ensures ListsOk(t.lowest, t.tcbs[i := b], t.table, t.tcbList, t.tcbFreeList, t.active, t.free, t.limbo)
    ensures LinkedOf(t.tcbs[i := b], t.active) == LinkedOf(t.tcbs, t.active)
  {
    hide Consistent, EventsOk, EventChain, TableOk;
    ListsUpdate(t.tcbs, i, b, t.tcbList, t.active);
    ListsUpdate(t.tcbs, i, b, t.tcbFreeList, t.free);
  }

  lemma ChangeTcb(t: Tables, i: nat, b: Tcb)
    requires TablesOk(t) && InstalledAt(t, i) && SameLinks(t.tcbs[i], b) && TcbOk(b)
    ensures TablesOk(t.(tcbs := t.tcbs[i := b]))
    ensures StateOf(t.(tcbs := t.tcbs[i := b])) == StateOf(t).(tasks := StateOf(t).tasks[b.prio := TaskOf(b)])
  {
    hide Consistent, EventsOk, EventChain, ListsOk, TcbOk, TaskOf;
    TcbUpdate(t.tcbs, t.table, i, b);
    ChangeTcbLists(t, i, b);
  }

  lemma ChangeEvent(t: Tables, e: nat, b: EventBlock)
    requires TablesOk(t) && e < |t.events| && t.events[e].kind == TYPE_SEM == b.kind && EventOk(b, t.lowest / 8 + 1)
    ensures TablesOk(t.(events := t.events[e := b]))
    ensures StateOf(t.(events := t.events[e := b])) == StateOf(t).(events := StateOf(t).events[e := EcbOf(b)])
  {
    hide Consistent, TableOk, ListsOk;
    EventUpdate(t.events, e, b, t.lowest / 8 + 1);
  }

  /** A wait list after the source's update, as an event block. */
  function WithBits(b: EventBlock, bits: Bitmap): EventBlock {
    b.(grp := bits.grp, tbl := bits.tbl)
  }

  lemma WaitListInsert(b: EventBlock, p: nat, groups: nat)
    requires EventOk(b, groups) && b.kind == TYPE_SEM && p / 8 < groups
    ensures |b.tbl| == groups <= 8
    ensures var b' := WithBits(b, Insert(Bitmap(b.grp, b.tbl), p));
            EventOk(b', groups) && EcbOf(b') == Sem(b.cnt, Members(Bitmap(b.grp, b.tbl)) + {p})
  {
    hide Mask, Bit, Has;
    InsertMembers(Bitmap(b.grp, b.tbl), p);
  }

  lemma WaitListRemove(b: EventBlock, p: nat, groups: nat)
    requires EventOk(b, groups) && b.kind == TYPE_SEM && p / 8 < groups
    ensures |b.tbl| == groups <= 8
    ensures var b' := WithBits(b, Remove(Bitmap(b.grp, b.tbl), p));
            EventOk(b', groups) && EcbOf(b') == Sem(b.cnt, Members(Bitmap(b.grp, b.tbl)) - {p})
  {
    hide Mask, Bit, Has;
    RemoveMembers(Bitmap(b.grp, b.tbl), p);
  }

  lemma KindAt(t: Tables, e: nat)
    requires TablesOk(t) && e < |t.events|
    ensures IsSem(StateOf(t), e) <==> t.events[e].kind == TYPE_SEM
  {}

  // What the tables say of one semaphore.
  lemma SemAt(t: Tables, e: nat)
    requires TablesOk(t) && IsSem(StateOf(t), e)
    ensures e < |t.events| && EventOk(t.events[e], t.lowest / 8 + 1) && t.events[e].kind == TYPE_SEM
    ensures StateOf(t).events[e] == Sem(t.events[e].cnt, Members(Bitmap(t.events[e].grp, t.events[e].tbl)))
    ensures t.events[e].grp == 0 <==> StateOf(t).events[e].waiters == {}
  {
    hide Mask, Bit, Has, TableOk, ListsOk, EventChain;
    GroupZeroIffEmpty(Bitmap(t.events[e].grp, t.events[e].tbl));
  }

  lemma EventCount(t: Tables, e: nat, cnt: nat)
    requires TablesOk(t) && IsSem(StateOf(t), e)
    ensures e < |t.events|
    ensures var t' := t.(events := t.events[e := t.events[e].(cnt := cnt)]);
            TablesOk(t') && StateOf(t') == StateOf(t).(events := StateOf(t).events[e := StateOf(t).events[e].(cnt := cnt)])
  {
    hide Mask, Bit, Has, TableOk, ListsOk, EventChain;
    SemAt(t, e);
    ChangeEvent(t, e, t.events[e].(cnt := cnt));
  }

  /** The source's way to put a bit into a bitmap. */
  lemma InsertIs(b: Bitmap, p: nat, bitY: bv8, bitX: bv8)
    requires p / 8 < |b.tbl| <= 8 && bitX == Mask(p % 8) && bitY == Mask(p / 8)
    ensures Insert(b, p) == Bitmap(b.grp | bitY, b.tbl[p / 8 := b.tbl[p / 8] | bitX])
  {
    hide Mask;
  }

  lemma WaitInsert(t: Tables, e: nat, p: nat)
    requires TablesOk(t) && IsSem(StateOf(t), e) && p <= t.lowest
    ensures e < |t.events| && p / 8 < |t.events[e].tbl| <= 8
    ensures var t' := t.(events := t.events[e := WithBits(t.events[e], Insert(Bitmap(t.events[e].grp, t.events[e].tbl), p))]);
            && TablesOk(t')
            && StateOf(t') == StateOf(t).(events :=
                 StateOf(t).events[e := StateOf(t).events[e].(waiters := StateOf(t).events[e].waiters + {p})])
  {
    hide Mask, Bit, Has, Consistent, TableOk, ListsOk, EventChain, Insert;
    SemAt(t, e);
    WaitListInsert(t.events[e], p, t.lowest / 8 + 1);
    ChangeEvent(t, e, WithBits(t.events[e], Insert(Bitmap(t.events[e].grp, t.events[e].tbl), p)));
  }

  lemma WaitRemove(t: Tables, e: nat, p: nat)
    requires TablesOk(t) && IsSem(StateOf(t), e) && p <= t.lowest
    ensures e < |t.events| && p / 8 < |t.events[e].tbl| <= 8
    ensures var t' := t.(events := t.events[e := WithBits(t.events[e], Remove(Bitmap(t.events[e].grp, t.events[e].tbl), p))]);
            && TablesOk(t')
            && StateOf(t') == StateOf(t).(events :=
                 StateOf(t).events[e := StateOf(t).events[e].(waiters := StateOf(t).events[e].waiters - {p})])
  {
    hide Mask, Bit, Has, Consistent, TableOk, ListsOk, EventChain, Remove;
    SemAt(t, e);
    WaitListRemove(t.events[e], p, t.lowest / 8 + 1);
    ChangeEvent(t, e, WithBits(t.events[e], Remove(Bitmap(t.events[e].grp, t.events[e].tbl), p)));
  }

  // The most urgent waiter, as the source looks it up.
  lemma WaitingHighest(b: EventBlock, groups: nat)
    requires EventOk(b, groups) && b.kind == TYPE_SEM && Members(Bitmap(b.grp, b.tbl)) != {}
    ensures UnMap(b.grp) < |b.tbl|
    ensures 8 * UnMap(b.grp) + UnMap(b.tbl[UnMap(b.grp)]) == Least(Members(Bitmap(b.grp, b.tbl)))
  {
    hide Mask, Bit, Has;
    HighestIsLeast(Bitmap(b.grp, b.tbl));
    UnMapIsLowestBit(b.grp);
  }

  // What the tables say of one task.
  lemma TaskAt(t: Tables, p: nat)
    requires TablesOk(t) && p in StateOf(t).tasks
    ensures p <= t.lowest <= 63 && p < |t.table| && t.table[p].TcbEntry? && InstalledAt(t, t.table[p].i)
    ensures var b := t.tcbs[t.table[p].i]; b.prio == p && TcbOk(b) && StateOf(t).tasks[p] == TaskOf(b)
    ensures p / 8 < |t.rdy.tbl| <= 8
  {
    hide Consistent, ListsOk, EventsOk, EventChain, StatOk, TaskOf;
  }

  // ---------------------------------------------------------------- creation

  lemma EmptyBitmap(tbl: seq<bv8>)
    requires |tbl| <= 8 && forall i :: 0 <= i < |tbl| ==> tbl[i] == 0
    ensures Consistent(Bitmap(0, tbl)) && Members(Bitmap(0, tbl)) == {}
  {}

  lemma EventChainTail(events: seq<EventBlock>, nodes: seq<nat>, b: EventBlock)
    requires nodes != [] && EventChain(events, nodes[0], nodes)
    ensures EventChain(events[nodes[0] := b], events[nodes[0]].ptr, nodes[1..])
  {
    var rest := nodes[1..];
    assert events[nodes[0]].ptr == After(nodes, 0);
    forall i | 0 <= i < |rest|
      ensures rest[i] < |events| && rest[i] != nodes[0] && events[rest[i]].kind == TYPE_UNUSED
      ensures events[rest[i]].ptr == After(rest, i)
    {
      assert rest[i] == nodes[i + 1] && After(rest, i) == After(nodes, i + 1);
    }
  }

  lemma FreshBlockOk(cnt: nat, tbl: seq<bv8>)
    requires |tbl| <= 8 && forall i :: 0 <= i < |tbl| ==> tbl[i] == 0
    ensures EventOk(EventBlock(TYPE_SEM, NIL, cnt, 0, tbl), |tbl|)
  {
    EmptyBitmap(tbl);
  }

  /** The first free event block becomes a semaphore. */
  lemma NewSemaphore(t: Tables, cnt: nat, tbl: seq<bv8>)
    requires TablesOk(t) && t.freeEvents != []
    requires |tbl| == t.lowest / 8 + 1 && forall i :: 0 <= i < |tbl| ==> tbl[i] == 0
    ensures 0 <= t.eventFreeList < |t.events| && StateOf(t).freeEvents[0] == t.eventFreeList < |StateOf(t).events|
    ensures var e := t.eventFreeList;
            var t' := t.(events := t.events[e := EventBlock(TYPE_SEM, NIL, cnt, 0, tbl)],
                         eventFreeList := t.events[e].ptr, freeEvents := t.freeEvents[1..]);
            && TablesOk(t')
            && StateOf(t') == StateOf(t).(events := StateOf(t).events[e := Sem(cnt, {})], freeEvents := t.freeEvents[1..])
  {
    hide Mask, Bit, Has, TableOk, ListsOk, Consistent, TasksOf, ReservedOf, LinkedOf, EventOk;
    EmptyBitmap(tbl);
    assert EventOk(EventBlock(TYPE_SEM, NIL, cnt, 0, tbl), t.lowest / 8 + 1) by {
      FreshBlockOk(cnt, tbl);
    }
    EventChainTail(t.events, t.freeEvents, EventBlock(TYPE_SEM, NIL, cnt, 0, tbl));
    EventUpdate(t.events, t.eventFreeList, EventBlock(TYPE_SEM, NIL, cnt, 0, tbl), t.lowest / 8 + 1);
  }

  lemma FreeEventsAt(t: Tables)
    requires TablesOk(t)
    ensures t.eventFreeList == NIL <==> StateOf(t).freeEvents == []
    ensures t.freeEvents == StateOf(t).freeEvents
    ensures t.eventFreeList != NIL ==> 0 <= t.eventFreeList < |t.events| && |t.events[t.eventFreeList].tbl| == t.lowest / 8 + 1
  {
    hide Consistent, TableOk, ListsOk;
  }

  lemma ReserveLists(t: Tables, p: nat, entry: PrioEntry)
    requires TablesOk(t) && p <= t.lowest && !t.table[p].TcbEntry? && !entry.TcbEntry?
    ensures ListsOk(t.lowest, t.tcbs, t.table[p := entry], t.tcbList, t.tcbFreeList, t.active, t.free, t.limbo)
    ensures TableOk(t.tcbs, t.table[p := entry])
  {
    hide Consistent, EventsOk, EventChain, TcbOk, TaskOf, Chain, BackLinks, Partition;
  }

  /** A priority's table entry moves between null and reserved. */
  lemma ChangeReserved(t: Tables, p: nat, reserve: bool)
    requires TablesOk(t) && p <= t.lowest && !t.table[p].TcbEntry?
    ensures var t' := t.(table := t.table[p := if reserve then ReservedEntry else NullEntry]);
            && TablesOk(t')
            && StateOf(t') == StateOf(t).(reserved := if reserve then StateOf(t).reserved + {p} else StateOf(t).reserved - {p})
  {
    hide Consistent, EventsOk, EventChain, TcbOk, TaskOf, ListsOk;
    var table := t.table[p := if reserve then ReservedEntry else NullEntry];
    ReserveLists(t, p, table[p]);
    assert TasksOf(t.tcbs, table) == TasksOf(t.tcbs, t.table);
  }

  lemma TableAt(t: Tables, p: nat)
    requires TablesOk(t) && p <= t.lowest
    ensures p < |t.table| && (t.table[p].TcbEntry? <==> p in StateOf(t).tasks)
    ensures t.table[p].ReservedEntry? <==> p in StateOf(t).reserved
  {}

  lemma ChainTail(tcbs: seq<Tcb>, nodes: seq<nat>)
    requires nodes != [] && Chain(tcbs, nodes[0], nodes)
    ensures nodes[0] < |tcbs| && Chain(tcbs, tcbs[nodes[0]].next, nodes[1..]) && nodes[0] !in nodes[1..]
  {
    var rest := nodes[1..];
    assert tcbs[nodes[0]].next == After(nodes, 0);
    forall i | 0 <= i < |rest|
      ensures rest[i] < |tcbs| && rest[i] != nodes[0]
      ensures tcbs[rest[i]].next == After(rest, i)
    {
      assert rest[i] == nodes[i + 1] && After(rest, i) == After(nodes, i + 1);
    }
  }

  lemma PartitionTake(n: nat, active: seq<nat>, free: seq<nat>, limbo: set<nat>)
    requires free != [] && Partition(n, active, free, limbo) && free[0] !in free[1..]
    ensures Partition(n, active, free[1..], limbo + {free[0]}) && free[0] !in limbo
  {
    assert free[0] in free;
    assert forall i :: i in free <==> i == free[0] || i in free[1..];
  }

  /** The head of the free list is taken. */
  lemma TakeFree(t: Tables)
    requires TablesOk(t) && t.free != []
    ensures 0 <= t.tcbFreeList < |t.tcbs| && t.tcbFreeList == t.free[0] && t.free[0] !in t.limbo
    ensures var t' := t.(tcbFreeList := t.tcbs[t.tcbFreeList].next, free := t.free[1..], limbo := t.limbo + {t.free[0]});
            TablesOk(t') && StateOf(t') == StateOf(t).(freeTcbs := StateOf(t).freeTcbs - 1)
    ensures forall p :: 0 <= p < |t.table| ==> t.table[p] != TcbEntry(t.free[0])
  {
    hide ReadyOk, TableOk, EventsOk, EventChain, BackLinks, Installed, Partition;
    ChainTail(t.tcbs, t.free);
    PartitionTake(|t.tcbs|, t.active, t.free, t.limbo);
    assert NotInstalled(t.table, t.free[1..]);
  }

  lemma FreeTcbsAt(t: Tables)
    requires TablesOk(t)
    ensures t.tcbFreeList == NIL <==> StateOf(t).freeTcbs == 0
    ensures StateOf(t).freeTcbs == |t.free|
  {}

  /** A taken control block is filled in and becomes the one its priority's entry points to. */
  lemma InstallTask(t: Tables, i: nat, b: Tcb)
    requires TablesOk(t) && i in t.limbo && TcbOk(b) && b.prio <= t.lowest && TaskOf(b) == FRESH_TASK
    requires t.table[b.prio].ReservedEntry?
    requires forall p :: 0 <= p < |t.table| ==> t.table[p] != TcbEntry(i)
    ensures i < |t.tcbs| && b.prio < |t.table|
    ensures var t' := t.(tcbs := t.tcbs[i := b], table := t.table[b.prio := TcbEntry(i)]);
            && TablesOk(t')
            && StateOf(t') == CreateInstall(StateOf(t), b.prio)
  {
    hide Consistent, ReadyOk, EventsOk, EventChain, TcbOk, TaskOf, TableOk, ListsOk, TasksOf, ReservedOf, LinkedOf;
    ListedBlocks(t);
    InstallLists(t, i, b);
    InstallTable(t.tcbs, t.table, i, b);
    LinkedElsewhere(t.tcbs, i, b, t.active);
  }

  lemma ListedBlocks(t: Tables)
    requires TablesOk(t)
    ensures forall k :: 0 <= k < |t.active| ==> t.active[k] < |t.tcbs|
    ensures forall k :: k in t.limbo ==> k < |t.tcbs|
  {}

  lemma InstallTable(tcbs: seq<Tcb>, table: seq<PrioEntry>, i: nat, b: Tcb)
    requires TableOk(tcbs, table) && i < |tcbs| && b.prio < |table| && TcbOk(b) && table[b.prio].ReservedEntry?
    requires forall p :: 0 <= p < |table| ==> table[p] != TcbEntry(i)
    ensures var tcbs', table' := tcbs[i := b], table[b.prio := TcbEntry(i)];
            && TableOk(tcbs', table') && TasksOf(tcbs', table') == TasksOf(tcbs, table)[b.prio := TaskOf(b)]
            && ReservedOf(table') == ReservedOf(table) - {b.prio}
  {
    hide TcbOk, TaskOf;
    var tcbs', table' := tcbs[i := b], table[b.prio := TcbEntry(i)];
    assert forall p :: 0 <= p < |table| && p != b.prio ==> table'[p] == table[p];
  }

  lemma LinkedElsewhere(tcbs: seq<Tcb>, i: nat, b: Tcb, nodes: seq<nat>)
    requires i < |tcbs| && i !in nodes && forall k :: 0 <= k < |nodes| ==> nodes[k] < |tcbs|
    ensures LinkedOf(tcbs[i := b], nodes) == LinkedOf(tcbs, nodes)
  {
    assert forall k :: 0 <= k < |nodes| ==> nodes[k] in nodes;
  }

  lemma InstallLists(t: Tables, i: nat, b: Tcb)
    requires TablesOk(t) && i in t.limbo && b.prio <= t.lowest && t.table[b.prio].ReservedEntry?
    ensures i < |t.tcbs| && b.prio < |t.table| && i !in t.active && i !in t.free
    ensures ListsOk(t.lowest, t.tcbs[i := b], t.table[b.prio := TcbEntry(i)], t.tcbList, t.tcbFreeList, t.active, t.free, t.limbo)
  {
    hide ReadyOk, EventsOk, EventChain, TableOk, Chain, BackLinks, Installed, NotInstalled, NoDuplicates;
    ChainElsewhere(t.tcbs, i, b, t.tcbList, t.active);
    ChainElsewhere(t.tcbs, i, b, t.tcbFreeList, t.free);
    InstalledElsewhere(t.tcbs, t.table, i, b, t.active);
    NotInstalledElsewhere(t.table, b.prio, i, t.free);
    if t.active != [] {
      assert t.active[|t.active| - 1] in t.active;
    }
  }

  // A block that is not on the list is rewritten.
  lemma ChainElsewhere(tcbs: seq<Tcb>, i: nat, b: Tcb, head: int, nodes: seq<nat>)
    requires Chain(tcbs, head, nodes) && i < |tcbs| && i !in nodes
    ensures Chain(tcbs[i := b], head, nodes)
  {
    ChainFrame(tcbs, tcbs[i := b], head, nodes);
  }

  lemma InstalledElsewhere(tcbs: seq<Tcb>, table: seq<PrioEntry>, i: nat, b: Tcb, nodes: seq<nat>)
    requires BackLinks(tcbs, nodes) && Installed(tcbs, table, nodes) && i < |tcbs| && i !in nodes
    requires b.prio < |table| && table[b.prio].ReservedEntry?
    ensures BackLinks(tcbs[i := b], nodes) && Installed(tcbs[i := b], table[b.prio := TcbEntry(i)], nodes)
  {
    forall k | 0 <= k < |nodes| ensures nodes[k] != i {
      assert nodes[k] in nodes;
    }
  }

  lemma NotInstalledElsewhere(table: seq<PrioEntry>, p: nat, i: nat, nodes: seq<nat>)
    requires NotInstalled(table, nodes) && p < |table| && i !in nodes
    ensures NotInstalled(table[p := TcbEntry(i)], nodes)
  {}

  /** The control blocks after one is put in front of the task list. */
  function LinkFront(tcbs: seq<Tcb>, head: int, i: nat): seq<Tcb>
    requires i < |tcbs| && NIL <= head < |tcbs|
  {
    var linked := tcbs[i := tcbs[i].(next := head, prev := NIL)];
    if head != NIL then linked[head := linked[head].(prev := i)] else linked
  }

  lemma LinkFrontChain(tcbs: seq<Tcb>, head: int, i: nat, nodes: seq<nat>)
    requires i < |tcbs| && i !in nodes && Chain(tcbs, head, nodes) && BackLinks(tcbs, nodes)
    ensures NIL <= head < |tcbs|
    ensures Chain(LinkFront(tcbs, head, i), i, [i] + nodes) && BackLinks(LinkFront(tcbs, head, i), [i] + nodes)
  {
    var tcbs', nodes' := LinkFront(tcbs, head, i), [i] + nodes;
    forall k | 0 <= k < |nodes'|
      ensures nodes'[k] < |tcbs'| && tcbs'[nodes'[k]].next == After(nodes', k) && tcbs'[nodes'[k]].prev == Before(nodes', k)
    {
      if k > 0 {
        assert nodes'[k] == nodes[k - 1] && nodes[k - 1] in nodes && After(nodes', k) == After(nodes, k - 1);
      }
    }
  }

  /** Two arrays of control blocks that differ in list pointers only. */
  ghost predicate SameButLinks(a: seq<Tcb>, b: seq<Tcb>) {
    |a| == |b| && forall k :: 0 <= k < |a| ==> b[k] == a[k].(next := b[k].next, prev := b[k].prev)
  }

  lemma LinkFrontFrame(tcbs: seq<Tcb>, head: int, i: nat)
    requires i < |tcbs| && NIL <= head < |tcbs|
    ensures SameButLinks(tcbs, LinkFront(tcbs, head, i))
    ensures forall k :: 0 <= k < |tcbs| && k != i && k != head ==> LinkFront(tcbs, head, i)[k] == tcbs[k]
  {}

  lemma TasksIgnoreLinks(a: seq<Tcb>, b: seq<Tcb>, table: seq<PrioEntry>)
    requires SameButLinks(a, b) && TableOk(a, table)
    ensures TableOk(b, table) && TasksOf(b, table) == TasksOf(a, table)
  {
    hide Mask, StatOk;
  }

  // A list that the changed control blocks are not on.
  lemma ChainFrame(a: seq<Tcb>, b: seq<Tcb>, head: int, nodes: seq<nat>)
    requires Chain(a, head, nodes) && |a| == |b| && forall k :: k in nodes && k < |a| ==> b[k] == a[k]
    ensures Chain(b, head, nodes)
  {
    forall k | 0 <= k < |nodes| ensures b[nodes[k]].next == After(nodes, k) {
      assert nodes[k] in nodes;
    }
  }

  lemma PartitionLink(n: nat, active: seq<nat>, free: seq<nat>, limbo: set<nat>, i: nat)
    requires Partition(n, active, free, limbo) && i in limbo
    ensures i !in active && i !in free && Partition(n, [i] + active, free, limbo - {i})
  {
    assert forall k :: k in [i] + active <==> k == i || k in active;
  }

  lemma InstalledLink(tcbs: seq<Tcb>, tcbs': seq<Tcb>, table: seq<PrioEntry>, active: seq<nat>, i: nat)
    requires Installed(tcbs, table, active) && SameButLinks(tcbs, tcbs') && i < |tcbs|
    requires tcbs[i].prio < |table| && table[tcbs[i].prio] == TcbEntry(i)
    ensures Installed(tcbs', table, [i] + active)
    ensures LinkedOf(tcbs', [i] + active) == [tcbs[i].prio] + LinkedOf(tcbs, active)
  {}

  lemma LastOfLink(tcbs: seq<Tcb>, tcbs': seq<Tcb>, table: seq<PrioEntry>, active: seq<nat>, i: nat, lowest: nat)
    requires Installed(tcbs, table, active) && SameButLinks(tcbs, tcbs') && i < |tcbs|
    requires if active == [] then tcbs[i].prio == lowest else tcbs[active[|active| - 1]].prio == lowest
    ensures ([i] + active)[|active|] < |tcbs'| && tcbs'[([i] + active)[|active|]].prio == lowest
  {}

  lemma LinkTaskLists(t: Tables, i: nat)
    requires TablesOk(t) && i in t.limbo && InstalledAt(t, i) && (t.active == [] ==> t.tcbs[i].prio == t.lowest)
    ensures i < |t.tcbs| && NIL <= t.tcbList < |t.tcbs|
    ensures var tcbs := LinkFront(t.tcbs, t.tcbList, i);
            && ListsOk(t.lowest, tcbs, t.table, i, t.tcbFreeList, [i] + t.active, t.free, t.limbo - {i})
            && LinkedOf(tcbs, [i] + t.active) == [t.tcbs[i].prio] + LinkedOf(t.tcbs, t.active)
  {
    hide ReadyOk, EventsOk, EventChain, LinkFront, TableOk, Chain, BackLinks, Partition, Installed, NotInstalled, SameButLinks;
    HeadAt(t.tcbs, t.tcbList, t.active);
    PartitionLink(|t.tcbs|, t.active, t.free, t.limbo, i);
    LinkFrontChain(t.tcbs, t.tcbList, i, t.active);
    LinkFrontFrame(t.tcbs, t.tcbList, i);
    var tcbs := LinkFront(t.tcbs, t.tcbList, i);
    InstalledLink(t.tcbs, tcbs, t.table, t.active, i);
    LastOfLink(t.tcbs, tcbs, t.table, t.active, i, t.lowest);
    FreeKeepsOff(t, i);
    ChainFrame(t.tcbs, tcbs, t.tcbFreeList, t.free);
  }

  lemma FreeKeepsOff(t: Tables, i: nat)
    requires TablesOk(t) && i in t.limbo
    ensures forall k :: k in t.free ==> k != i && k != t.tcbList
  {
    hide Consistent, EventsOk, EventChain, TaskOf, TableOk, BackLinks, Installed;
    HeadAt(t.tcbs, t.tcbList, t.active);
  }

  lemma HeadAt(tcbs: seq<Tcb>, head: int, nodes: seq<nat>)
    requires Chain(tcbs, head, nodes)
    ensures NIL <= head < |tcbs| && (head != NIL ==> head in nodes)
  {}

  /** The task list grows at its front. */
  lemma LinkTask(t: Tables, i: nat)
    requires TablesOk(t) && i in t.limbo && InstalledAt(t, i) && (t.active == [] ==> t.tcbs[i].prio == t.lowest)
    ensures i < |t.tcbs| && NIL <= t.tcbList < |t.tcbs|
    ensures var t' := t.(tcbs := LinkFront(t.tcbs, t.tcbList, i), tcbList := i, active := [i] + t.active,
                         limbo := t.limbo - {i}, taskCtr := t.taskCtr + 1);
            && TablesOk(t')
            && StateOf(t') == StateOf(t).(linked := [t.tcbs[i].prio] + StateOf(t).linked)
  {
    hide Consistent, EventsOk, EventChain, TcbOk, TaskOf, LinkFront, TableOk, ListsOk;
    LinkTaskLists(t, i);
    LinkFrontFrame(t.tcbs, t.tcbList, i);
    TasksIgnoreLinks(t.tcbs, LinkFront(t.tcbs, t.tcbList, i), t.table);
  }

  /** What OS_TCBInit writes into a control block. */
  function FreshTcb(b: Tcb, prio: nat): Tcb
    requires prio <= 63
  {
    b.(prio := prio, stat := STAT_RDY, statPend := PendOk, dly := 0,
       y := prio / 8, x := prio % 8, bitY := Mask(prio / 8), bitX := Mask(prio % 8), event := NIL)
  }

  lemma FreshTcbOk(b: Tcb, prio: nat)
    requires prio <= 63
    ensures TcbOk(FreshTcb(b, prio)) && FreshTcb(b, prio).prio == prio && TaskOf(FreshTcb(b, prio)) == FRESH_TASK
  {}

  lemma LimboAt(t: Tables, i: nat)
    requires TablesOk(t) && i in t.limbo
    ensures i < |t.tcbs|
  {}

  lemma LinkedAt(t: Tables)
    requires TablesOk(t)
    ensures StateOf(t).linked == [] <==> t.active == []
  {}

  // Two listed tasks never share a priority: the table points to one control block each.
  lemma LinkedNoDuplicates(t: Tables)
    requires TablesOk(t)
    ensures NoDuplicates(StateOf(t).linked)
  {
    hide Consistent, EventsOk, EventChain, Partition, BackLinks, TableOk, NotInstalled;
    var linked := StateOf(t).linked;
    forall a, b | 0 <= a < b < |linked| ensures linked[a] != linked[b] {
      assert t.table[linked[a]] == TcbEntry(t.active[a]) && t.table[linked[b]] == TcbEntry(t.active[b]);
    }
  }

  // The walk along the task list.
  lemma WalkAt(t: Tables, j: nat)
    requires TablesOk(t) && j < |StateOf(t).linked|
    ensures |t.active| == |StateOf(t).linked| && t.tcbList == t.active[0]
    ensures InstalledAt(t, t.active[j]) && t.tcbs[t.active[j]].prio == StateOf(t).linked[j]
    ensures StateOf(t).linked[|StateOf(t).linked| - 1] == t.lowest
  {
    hide Consistent, EventsOk, EventChain, Partition, BackLinks, TableOk, NotInstalled;
  }

  lemma WalkNext(t: Tables, j: nat)
    requires TablesOk(t) && j < |t.active| && t.active[j] < |t.tcbs| && t.tcbs[t.active[j]].prio != t.lowest
    ensures j + 1 < |t.active| && t.tcbs[t.active[j]].next == t.active[j + 1] < |t.tcbs|
    ensures |StateOf(t).linked| == |t.active| && InstalledAt(t, t.active[j + 1])
    ensures t.tcbs[t.active[j + 1]].prio == StateOf(t).linked[j + 1]
  {
    hide Consistent, EventsOk, EventChain, Partition, BackLinks;
    assert t.tcbs[t.active[j]].next == After(t.active, j);
  }

  lemma TaskCounter(t: Tables)
    requires TablesOk(t)
    ensures t.taskCtr == |StateOf(t).linked|
  {}

  lemma TaskOfEntry(t: Tables, p: nat)
    requires TablesOk(t) && p < |t.table| && t.table[p].TcbEntry?
    ensures p in StateOf(t).tasks
  {}

  // ---------------------------------------------------------------- start-up

  const CLEAR_TCB := Tcb(NIL, NIL, NIL, 0, STAT_RDY, PendOk, 0, 0, 0, 0, 0)

  function UpTo(n: nat): seq<nat> {
    seq(n, i => i)
  }

  function Zeros(n: nat): seq<bv8> {
    seq(n, i => 0)
  }

  /** The tables after the lists are set up and before the idle task is created. */
  lemma InitialTables(t: Tables)
    requires t.lowest <= 63 && !t.running && t.intNesting == t.lockNesting == t.prioCur == t.time == t.taskCtr == 0
    requires t.rdy == Bitmap(0, Zeros(t.lowest / 8 + 1))
    requires |t.table| == t.lowest + 1 && forall p :: 0 <= p <= t.lowest ==> t.table[p] == NullEntry
    requires t.active == [] && t.tcbList == NIL && t.limbo == {}
    requires |t.tcbs| > 0 && t.free == UpTo(|t.tcbs|) && t.tcbFreeList == 0
    requires forall i :: 0 <= i < |t.tcbs| ==> t.tcbs[i].next == After(t.free, i)
    requires |t.events| > 0 && t.freeEvents == UpTo(|t.events|) && t.eventFreeList == 0
    requires forall e :: 0 <= e < |t.events| ==>
               && t.events[e].kind == TYPE_UNUSED && t.events[e].ptr == After(t.freeEvents, e)
               && |t.events[e].tbl| == t.lowest / 8 + 1
    ensures TablesOk(t)
    ensures StateOf(t) == EmptyState(t.lowest, |t.tcbs|, |t.events|)
    ensures WellFormed(StateOf(t))
  {
    EmptyBitmap(t.rdy.tbl);
    InitialLists(t);
    hide Mask, Bit, Consistent, ListsOk;
    assert TasksOf(t.tcbs, t.table) == map[];
    assert ReservedOf(t.table) == {};
    assert EventsOf(t.events) == seq(|t.events|, i => Unused);
  }

  lemma InitialLists(t: Tables)
    requires |t.table| == t.lowest + 1 && forall p :: 0 <= p <= t.lowest ==> t.table[p] == NullEntry
    requires t.active == [] && t.tcbList == NIL && t.limbo == {}
    requires |t.tcbs| > 0 && t.free == UpTo(|t.tcbs|) && t.tcbFreeList == 0
    requires forall i :: 0 <= i < |t.tcbs| ==> t.tcbs[i].next == After(t.free, i)
    ensures ListsOk(t.lowest, t.tcbs, t.table, t.tcbList, t.tcbFreeList, t.active, t.free, t.limbo)
  {
    forall i: nat | i < |t.tcbs| ensures i in t.free {
      assert t.free[i] == i;
    }
  }

  // ---------------------------------------------------------------- the status byte

  predicate PendBit(s: bv8) {
    s & STAT_PEND_ANY != STAT_RDY
  }

  predicate SuspendBit(s: bv8) {
    s & STAT_SUSPEND != STAT_RDY
  }

  /** What the kernel's operations on the status byte do to its two bits. */
  lemma StatusBits(s: bv8)
    requires StatOk(s)
    ensures StatOk(s | STAT_SEM) && PendBit(s | STAT_SEM) && SuspendBit(s | STAT_SEM) == SuspendBit(s)
    ensures StatOk(s | STAT_SUSPEND) && PendBit(s | STAT_SUSPEND) == PendBit(s) && SuspendBit(s | STAT_SUSPEND)
    ensures StatOk(s & !STAT_SUSPEND) && PendBit(s & !STAT_SUSPEND) == PendBit(s) && !SuspendBit(s & !STAT_SUSPEND)
    ensures s & !STAT_SEM == s & !STAT_PEND_ANY == s & !(STAT_SEM | STAT_PEND_ANY)
    ensures StatOk(s & !STAT_SEM) && !PendBit(s & !STAT_SEM) && SuspendBit(s & !STAT_SEM) == SuspendBit(s)
  {}
}
