/**
 * The kernel as the source runs it: bitmaps, fixed tables and linked lists updated in place. Every
 * method is one critical section, and its contract is the function of the same name in `KernelSpec`.
 */
module KernelImpl {
  import opened Prelude
  import opened PriorityBitmap
  import opened KernelTables
  import Spec = KernelSpec
  import opened KernelSpec

  class Kernel {
    const lowest: nat                   // OS_LOWEST_PRIO
    const rdyTbl: array<bv8>
    const tcbTbl: array<Tcb>
    const prioTbl: array<PrioEntry>
    const eventTbl: array<EventBlock>
    var rdyGrp: bv8
    var tcbList: int
    var tcbFreeList: int
    var eventFreeList: int
    var running: bool
    var intNesting: nat
    var lockNesting: nat
    var prioCur: nat
    var prioHighRdy: nat
    var tcbCur: int
    var tcbHighRdy: int
    var taskCtr: nat
    var time: nat
    ghost var active: seq<nat>          // the control blocks on the task list
    ghost var free: seq<nat>            // those on the free list
    ghost var limbo: set<nat>           // those a creation in progress holds
    ghost var freeEvents: seq<nat>

    // ---------------------------------------------------------------- abstraction

    ghost predicate Separate() {
      && rdyTbl as object != tcbTbl && rdyTbl as object != prioTbl && rdyTbl as object != eventTbl
      && tcbTbl as object != prioTbl && tcbTbl as object != eventTbl && prioTbl as object != eventTbl
    }

    /** All the kernel's variables, as a value. */
    ghost function Snap(): Tables
      reads this, rdyTbl, tcbTbl, prioTbl, eventTbl
    {
      Tables(lowest, running, Bitmap(rdyGrp, rdyTbl[..]), tcbTbl[..], prioTbl[..], tcbList, tcbFreeList, taskCtr,
             eventTbl[..], eventFreeList, intNesting, lockNesting, prioCur, tcbCur, time,
             active, free, limbo, freeEvents)
    }

    ghost predicate Valid()
      reads this, rdyTbl, tcbTbl, prioTbl, eventTbl
    {
      Separate() && TablesOk(Snap())
    }

    /** The abstract state. */
    ghost function Abs(): State
      reads this, rdyTbl, tcbTbl, prioTbl, eventTbl
      requires Valid()
    {
      StateOf(Snap())
    }

    // ---------------------------------------------------------------- start-up

    /** OSInit: clears the tables, builds the free lists and creates the idle task. */
    constructor (lowest: nat, tcbs: nat, events: nat)
      requires lowest <= 63 && tcbs > 0 && events > 0
      ensures Valid() && Abs() == InitState(lowest, tcbs, events)
      ensures limbo == {} && taskCtr == 1
      ensures fresh(rdyTbl) && fresh(tcbTbl) && fresh(prioTbl) && fresh(eventTbl)
    {
      this.lowest := lowest;
      rdyTbl := new bv8[lowest / 8 + 1](i => 0);
      tcbTbl := new Tcb[tcbs](i => CLEAR_TCB);
      prioTbl := new PrioEntry[lowest + 1](i => NullEntry);
      eventTbl := new EventBlock[events](i => EventBlock(TYPE_UNUSED, NIL, 0, 0, Zeros(lowest / 8 + 1)));
      rdyGrp, running, intNesting, lockNesting := 0, false, 0, 0;
      prioCur, prioHighRdy, tcbCur, tcbHighRdy := 0, 0, NIL, NIL;
      taskCtr, time, limbo, active := 0, 0, {}, [];
      new;
      InitLists();
      CreateIdle(tcbs, events);
    }

    // OS_InitTCBList and OS_InitEventList, on cleared tables.
    method InitLists()
      requires Separate() && lowest <= 63 && !running && intNesting == lockNesting == prioCur == time == taskCtr == 0
      requires rdyGrp == 0 && rdyTbl.Length == lowest / 8 + 1 && forall y :: 0 <= y < rdyTbl.Length ==> rdyTbl[y] == 0
      requires prioTbl.Length == lowest + 1 && forall p :: 0 <= p <= lowest ==> prioTbl[p] == NullEntry
      requires active == [] && limbo == {} && tcbTbl.Length > 0 && eventTbl.Length > 0
      requires forall e :: 0 <= e < eventTbl.Length ==> |eventTbl[e].tbl| == lowest / 8 + 1
      modifies tcbTbl, eventTbl, this`tcbList, this`tcbFreeList, this`free, this`eventFreeList, this`freeEvents
      ensures Valid() && Abs() == EmptyState(lowest, tcbTbl.Length, eventTbl.Length) && WellFormed(Abs())
    {
      hide TablesOk, StateOf;
      InitTcbList();
      InitEventList();
      assert rdyTbl[..] == Zeros(lowest / 8 + 1);
      InitialTables(Snap());
    }

    // OS_InitTaskIdle
    method CreateIdle(ghost tcbs: nat, ghost events: nat)
      requires Valid() && tcbs > 0 && Abs() == EmptyState(lowest, tcbs, events) && limbo == {}
      modifies this`tcbFreeList, this`free, this`limbo, this`tcbList, this`taskCtr, this`active, this`rdyGrp
      modifies this`prioCur, this`prioHighRdy, this`tcbCur, this`tcbHighRdy
      modifies rdyTbl, tcbTbl, prioTbl
      ensures Valid() && Abs() == InitState(lowest, tcbs, events)
      ensures limbo == {} && taskCtr == 1
    {
      hide TablesOk, StateOf;
      StartedFlag(Snap());
      InitCreatesIdle(lowest, tcbs, events);
      var err := TaskCreate(lowest);
      TaskCounter(Snap());
    }

    // OS_InitTCBList
    method InitTcbList()
      requires tcbTbl.Length > 0
      modifies tcbTbl, this`tcbList, this`tcbFreeList, this`free
      ensures tcbList == NIL && tcbFreeList == 0 && free == UpTo(tcbTbl.Length)
      ensures forall i :: 0 <= i < tcbTbl.Length ==> tcbTbl[i].next == After(free, i)
    {
      var ix := 0;
      while ix < tcbTbl.Length - 1
        invariant 0 <= ix <= tcbTbl.Length - 1
        invariant forall i :: 0 <= i < ix ==> tcbTbl[i].next == i + 1
      {
        tcbTbl[ix] := tcbTbl[ix].(next := ix + 1);
        ix := ix + 1;
      }
      tcbTbl[ix] := tcbTbl[ix].(next := NIL);
      tcbList := NIL;
      tcbFreeList := 0;
      free := UpTo(tcbTbl.Length);
    }

    // OS_InitEventList
    method InitEventList()
      requires eventTbl.Length > 0
      modifies eventTbl, this`eventFreeList, this`freeEvents
      ensures eventFreeList == 0 && freeEvents == UpTo(eventTbl.Length)
      ensures forall e :: 0 <= e < eventTbl.Length ==>
                && eventTbl[e].kind == TYPE_UNUSED && eventTbl[e].ptr == After(freeEvents, e)
                && eventTbl[e].tbl == old(eventTbl[e].tbl)
    {
      var ix := 0;
      while ix < eventTbl.Length - 1
        invariant 0 <= ix <= eventTbl.Length - 1
        invariant forall e :: 0 <= e < ix ==> eventTbl[e].kind == TYPE_UNUSED && eventTbl[e].ptr == e + 1
        invariant forall e :: 0 <= e < eventTbl.Length ==> eventTbl[e].tbl == old(eventTbl[e].tbl)
      {
        eventTbl[ix] := eventTbl[ix].(kind := TYPE_UNUSED, ptr := ix + 1);
        ix := ix + 1;
      }
      eventTbl[ix] := eventTbl[ix].(kind := TYPE_UNUSED, ptr := NIL);
      eventFreeList := 0;
      freeEvents := UpTo(eventTbl.Length);
    }

    // ---------------------------------------------------------------- ready list

    method ReadyInsert(i: nat)
      requires Separate() && i < tcbTbl.Length && MasksOk(tcbTbl[i]) && tcbTbl[i].prio / 8 < rdyTbl.Length <= 8
      modifies this`rdyGrp, rdyTbl
      ensures Snap() == old(Snap()).(rdy := Insert(old(Snap()).rdy, tcbTbl[i].prio))
    {
      hide Mask;
      rdyGrp := rdyGrp | tcbTbl[i].bitY;
      rdyTbl[tcbTbl[i].y] := rdyTbl[tcbTbl[i].y] | tcbTbl[i].bitX;
      assert rdyTbl[..] == old(Insert(Snap().rdy, tcbTbl[i].prio)).tbl;
    }

    method ReadyRemove(i: nat)
      requires Separate() && i < tcbTbl.Length && MasksOk(tcbTbl[i]) && tcbTbl[i].prio / 8 < rdyTbl.Length <= 8
      modifies this`rdyGrp, rdyTbl
      ensures Snap() == old(Snap()).(rdy := Remove(old(Snap()).rdy, tcbTbl[i].prio))
    {
      hide Mask, Remove;
      var y, bitX, bitY := tcbTbl[i].y, tcbTbl[i].bitX, tcbTbl[i].bitY;
      var byte := rdyTbl[y] & !bitX;
      RemoveIs(Bitmap(rdyGrp, rdyTbl[..]), tcbTbl[i].prio, bitY, bitX, byte);
      rdyTbl[y] := byte;
      if byte == 0 {
        rdyGrp := rdyGrp & !bitY;
      }
    }

    // ---------------------------------------------------------------- control blocks and wait lists

    method StoreTcb(i: nat, b: Tcb)
      requires Valid() && InstalledAt(Snap(), i) && SameLinks(tcbTbl[i], b) && StatOk(b.stat) && b.event >= NIL
      modifies tcbTbl
      ensures Snap() == old(Snap()).(tcbs := old(Snap()).tcbs[i := b])
      ensures Valid() && Abs() == old(Abs()).(tasks := old(Abs()).tasks[b.prio := TaskOf(b)])
    {
      hide StateOf, TaskOf, StatOk, Mask, Consistent, ListsOk, EventsOk, EventChain;
      ghost var t := Snap();
      assert TcbOk(b);
      tcbTbl[i] := b;
      assert Snap() == t.(tcbs := t.tcbs[i := b]);
      ChangeTcb(t, i, b);
    }

    method EventInsert(e: nat, i: nat)
      requires Separate() && e < eventTbl.Length && i < tcbTbl.Length && MasksOk(tcbTbl[i])
      requires tcbTbl[i].prio / 8 < |eventTbl[e].tbl| <= 8
      modifies eventTbl
      ensures var t, b := old(Snap()), old(eventTbl[e]);
              Snap() == t.(events := t.events[e := WithBits(b, Insert(Bitmap(b.grp, b.tbl), tcbTbl[i].prio))])
    {
      hide Mask, Insert;
      var y, bitX, bitY, b := tcbTbl[i].y, tcbTbl[i].bitX, tcbTbl[i].bitY, eventTbl[e];
      InsertIs(Bitmap(b.grp, b.tbl), tcbTbl[i].prio, bitY, bitX);
      eventTbl[e] := b.(tbl := b.tbl[y := b.tbl[y] | bitX], grp := b.grp | bitY);
    }

    method EventRemove(e: nat, i: nat)
      requires Separate() && e < eventTbl.Length && i < tcbTbl.Length && MasksOk(tcbTbl[i])
      requires tcbTbl[i].prio / 8 < |eventTbl[e].tbl| <= 8
      modifies eventTbl
      ensures var t, b := old(Snap()), old(eventTbl[e]);
              Snap() == t.(events := t.events[e := WithBits(b, Remove(Bitmap(b.grp, b.tbl), tcbTbl[i].prio))])
    {
      hide Mask, Remove;
      var y, bitX, bitY, b := tcbTbl[i].y, tcbTbl[i].bitX, tcbTbl[i].bitY, eventTbl[e];
      var byte := b.tbl[y] & !bitX;
      RemoveIs(Bitmap(b.grp, b.tbl), tcbTbl[i].prio, bitY, bitX, byte);
      eventTbl[e] := b.(tbl := b.tbl[y := byte], grp := if byte == 0 then b.grp & !bitY else b.grp);
    }

    // ---------------------------------------------------------------- scheduling

    method SchedNew()
      requires Valid() && Abs().ready != {}
      modifies this`prioHighRdy
      ensures Snap() == old(Snap()) && prioHighRdy == Least(Abs().ready)
    {
      hide Mask, Bit, Has, TableOk, ListsOk, EventsOk, EventChain;
      HighestIsLeast(Bitmap(rdyGrp, rdyTbl[..]));
      var y := UnMap(rdyGrp);
      prioHighRdy := 8 * y + UnMap(rdyTbl[y]);
    }

    // The switch that OS_Sched and OSIntExit have in common.
    method SwitchToHighest()
      requires Valid() && WellFormed(Abs()) && running
      modifies this`prioHighRdy, this`tcbHighRdy, this`prioCur, this`tcbCur
      ensures Valid() && Abs() == old(Abs()).(cur := Least(old(Abs()).ready))
    {
      hide TablesOk, StateOf;
      StartedFlag(Snap());
      SwitchTask(Snap(), Least(Abs().ready));
      SchedNew();
      tcbHighRdy := prioTbl[prioHighRdy].i;
      CurIs(Snap());
      if prioHighRdy != prioCur {
        prioCur := prioHighRdy;
        tcbCur := tcbHighRdy;
      }
      assert Snap() == old(Snap()).(prioCur := prioCur, tcbCur := tcbCur);
    }

    method Sched()
      requires Valid() && WellFormed(Abs()) && running
      modifies this`prioHighRdy, this`tcbHighRdy, this`prioCur, this`tcbCur
      ensures Valid() && Abs() == Schedule(old(Abs()))
    {
      hide Consistent, TableOk, ListsOk, EventsOk, EventChain;
      if intNesting == 0 {
        if lockNesting == 0 {
          SwitchToHighest();
        }
      }
    }

    method IntEnter()
      requires Valid()
      modifies this`intNesting
      ensures Valid() && Abs() == Spec.IntEnter(old(Abs()))
    {
      hide Consistent, TableOk, ListsOk, EventsOk, EventChain;
      if running {
        if intNesting < NESTING_MAX {
          intNesting := intNesting + 1;
        }
      }
      assert Snap() == old(Snap()).(intNesting := intNesting);
    }

    method IntExit()
      requires Valid() && WellFormed(Abs())
      modifies this`intNesting, this`prioHighRdy, this`tcbHighRdy, this`prioCur, this`tcbCur
      ensures Valid() && Abs() == Spec.IntExit(old(Abs()))
    {
      hide Consistent, TableOk, ListsOk, EventsOk, EventChain;
      if running {
        if intNesting > 0 {
          intNesting := intNesting - 1;
        }
        assert Snap() == old(Snap()).(intNesting := intNesting);
        if intNesting == 0 {
          if lockNesting == 0 {
            SwitchToHighest();
          }
        }
      }
    }

    method SchedLock()
      requires Valid()
      modifies this`lockNesting
      ensures Valid() && Abs() == Spec.SchedLock(old(Abs()))
    {
      hide Consistent, TableOk, ListsOk, EventsOk, EventChain;
      if running {
        if intNesting == 0 {
          if lockNesting < NESTING_MAX {
            lockNesting := lockNesting + 1;
          }
        }
      }
      assert Snap() == old(Snap()).(lockNesting := lockNesting);
    }

    method SchedUnlock() returns (resched: bool)
      requires Valid()
      modifies this`lockNesting
      ensures Valid() && (Abs(), resched) == Spec.SchedUnlock(old(Abs()))
    {
      hide Consistent, TableOk, ListsOk, EventsOk, EventChain;
      resched := false;
      if running {
        if intNesting == 0 {
          if lockNesting > 0 {
            lockNesting := lockNesting - 1;
            resched := lockNesting == 0;
          }
        }
      }
      assert Snap() == old(Snap()).(lockNesting := lockNesting);
    }

    method Start()
      requires Valid() && WellFormed(Abs()) && Abs().ready != {}
      modifies this`prioHighRdy, this`tcbHighRdy, this`prioCur, this`tcbCur, this`running
      ensures Valid() && Abs() == Spec.Start(old(Abs()))
    {
      hide TablesOk, StateOf;
      StartedFlag(Snap());
      if !running {
        SwitchTask(Snap(), Least(Abs().ready));
        SchedNew();
        prioCur := prioHighRdy;
        tcbHighRdy := prioTbl[prioHighRdy].i;
        tcbCur := tcbHighRdy;
        running := true;
        assert Snap() == old(Snap()).(running := true, prioCur := prioCur, tcbCur := tcbCur);
      }
    }

    // ---------------------------------------------------------------- time

    method TimeDly(ticks: nat) returns (resched: bool)
      requires Valid() && WellFormed(Abs()) && running
      modifies this`rdyGrp, rdyTbl, tcbTbl
      ensures Valid() && (Abs(), resched) == Spec.TimeDly(old(Abs()), ticks)
    {
      hide Mask, Bit, Consistent, ListsOk, EventsOk, EventChain, StatOk;
      resched := false;
      if intNesting > 0 {
        return;
      }
      if lockNesting > 0 {
        return;
      }
      if ticks > 0 {
        RemoveReady(Snap(), prioCur);
        ReadyRemove(tcbCur);
        ghost var t := Snap();
        tcbTbl[tcbCur] := tcbTbl[tcbCur].(dly := ticks);
        assert Snap() == t.(tcbs := t.tcbs[tcbCur := tcbTbl[tcbCur]]);
        ChangeTcb(t, tcbCur, tcbTbl[tcbCur]);
        resched := true;
      }
    }

    method TimeDlyHmsm(hours: nat, minutes: nat, seconds: nat, ms: nat) returns (err: Err, resched: bool)
      requires Valid() && WellFormed(Abs()) && running
      requires hours <= 255 && minutes <= 255 && seconds <= 255 && ms <= 0xFFFF
      modifies this`rdyGrp, rdyTbl, tcbTbl
      ensures Valid() && (Abs(), err, resched) == Spec.TimeDlyHmsm(old(Abs()), hours, minutes, seconds, ms)
    {
      hide TablesOk, StateOf;
      CurIs(Snap());
      resched := false;
      if intNesting > 0 {
        return ErrTimeDlyIsr, false;
      }
      if lockNesting > 0 {
        return ErrSchedLocked, false;
      }
      if hours == 0 {
        if minutes == 0 {
          if seconds == 0 {
            if ms == 0 {
              return ErrTimeZeroDly, false;
            }
          }
        }
      }
      if minutes > 59 {
        return ErrTimeInvalidMinutes, false;
      }
      if seconds > 59 {
        return ErrTimeInvalidSeconds, false;
      }
      if ms > 999 {
        return ErrTimeInvalidMs, false;
      }
      var ticks := ((hours * 3600 + minutes * 60 + seconds) * TICKS_PER_SEC
                    + TICKS_PER_SEC * (ms + 500 / TICKS_PER_SEC) / 1000) % TIME_MODULUS;
      resched := TimeDly(ticks);
      err := ErrNone;
    }

    // One control block's share of a tick.
    method TickOne(i: nat)
      requires Valid() && InstalledAt(Snap(), i)
      modifies this`rdyGrp, rdyTbl, tcbTbl
      ensures Valid()
      ensures var k, p := old(Abs()), old(tcbTbl[i].prio);
              && p in k.tasks
              && Abs() == k.(tasks := k.tasks[p := TickTask(k.tasks[p])],
                             ready := if TickReadies(k.tasks[p]) then k.ready + {p} else k.ready)
      ensures SameLinks(tcbTbl[i], old(tcbTbl[i]))
    {
      hide TablesOk, StateOf, StatOk, PendBit, SuspendBit, MasksOk, Insert;
      ghost var k, p := Abs(), tcbTbl[i].prio;
      TaskOfEntry(Snap(), p);
      TaskAt(Snap(), p);
      if tcbTbl[i].dly != 0 {
        StatusBits(tcbTbl[i].stat);
        var b := tcbTbl[i].(dly := tcbTbl[i].dly - 1);
        if b.dly == 0 {
          if PendBit(b.stat) {
            b := b.(stat := b.stat & !STAT_PEND_ANY, statPend := PendTimeout);
          } else {
            b := b.(statPend := PendOk);
          }
        }
        StoreTcb(i, b);
        assert Abs() == k.(tasks := k.tasks[p := TickTask(k.tasks[p])]);
        if b.dly == 0 && !SuspendBit(b.stat) {
          TaskAt(Snap(), p);
          InsertReady(Snap(), p);
          ReadyInsert(i);
        }
      }
    }

    /** Walks the task list up to the idle task, which is its last. */
    method TimeTick()
      requires Valid() && WellFormed(Abs()) && (running ==> Abs().linked != [])
      modifies this`time, this`rdyGrp, rdyTbl, tcbTbl
      ensures Valid() && Abs() == Spec.TimeTick(old(Abs()))
    {
      hide TablesOk, StateOf;
      StartedFlag(Snap());
      AdvanceClock();
      if running {
        ghost var k := Abs();
        ghost var j := 0;
        var ptcb := tcbList;
        WalkAt(Snap(), 0);
        LinkedNoDuplicates(Snap());
        while tcbTbl[ptcb].prio != lowest
          invariant Valid() && j < |active| && |active| == |k.linked| && ptcb == active[j] && ptcb < tcbTbl.Length
          invariant Abs() == TickPrefix(k, j)
          invariant InstalledAt(Snap(), ptcb) && tcbTbl[ptcb].prio == k.linked[j]
          decreases |active| - j
        {
          TickPrefixStep(k, j);
          TickOne(ptcb);
          WalkNext(Snap(), j);
          ptcb := tcbTbl[ptcb].next;
          j := j + 1;
        }
        TickPrefixIsTick(old(Abs()), j);
      }
    }

    method AdvanceClock()
      requires Valid()
      modifies this`time
      ensures Valid() && Abs() == old(Abs()).(time := (old(Abs()).time + 1) % TIME_MODULUS)
    {
      hide Consistent, TableOk, ListsOk, EventsOk, EventChain;
      time := (time + 1) % TIME_MODULUS;
      assert Snap() == old(Snap()).(time := time);
    }

    // ---------------------------------------------------------------- semaphores

    method SemAccept(pevent: int) returns (cnt: nat)
      requires Valid() && NIL <= pevent < eventTbl.Length
      modifies eventTbl
      ensures Valid()
      ensures pevent == NIL || !IsSem(old(Abs()), pevent) ==> cnt == 0 && Abs() == old(Abs())
      ensures pevent >= 0 && IsSem(old(Abs()), pevent) ==> (Abs(), cnt) == Spec.SemAccept(old(Abs()), pevent)
    {
      hide TablesOk, StateOf, EventOk, Consistent;
      if pevent == NIL {
        return 0;
      }
      KindAt(Snap(), pevent);
      if eventTbl[pevent].kind != TYPE_SEM {
        return 0;
      }
      SemAt(Snap(), pevent);
      cnt := eventTbl[pevent].cnt;
      if cnt > 0 {
        EventCount(Snap(), pevent, cnt - 1);
        ghost var t := Snap();
        eventTbl[pevent] := eventTbl[pevent].(cnt := cnt - 1);
        assert Snap() == t.(events := t.events[pevent := eventTbl[pevent]]);
      }
    }

    // OS_EventTaskWait: the current task goes on the event's wait list and off the ready list.
    method EventTaskWait(e: nat)
      requires Valid() && running && IsSem(Abs(), e) && Abs().cur in Abs().tasks
      modifies this`rdyGrp, rdyTbl, tcbTbl, eventTbl
      ensures Valid()
      ensures var k, p := old(Abs()), old(Abs().cur);
              Abs() == k.(tasks := k.tasks[p := k.tasks[p].(event := Some(e))],
                          events := k.events[e := k.events[e].(waiters := k.events[e].waiters + {p})],
                          ready := k.ready - {p})
    {
      hide TablesOk, StateOf, StatOk, EventOk, MasksOk, Insert, Remove;
      CurIs(Snap());
      TaskAt(Snap(), prioCur);
      StoreTcb(tcbCur, tcbTbl[tcbCur].(event := e));
      TaskAt(Snap(), prioCur);
      WaitInsert(Snap(), e, prioCur);
      EventInsert(e, tcbCur);
      TaskAt(Snap(), prioCur);
      RemoveReady(Snap(), prioCur);
      ReadyRemove(tcbCur);
    }

    // OS_EventTaskRemove: task `p`, whose control block is `i`, leaves the event's wait list.
    method EventTaskRemove(i: nat, e: nat, ghost p: nat)
      requires Valid() && IsSem(Abs(), e) && p in Abs().tasks && p < prioTbl.Length && prioTbl[p] == TcbEntry(i)
      modifies tcbTbl, eventTbl
      ensures Valid() && Snap().table == old(Snap()).table
      ensures var k := old(Abs());
              Abs() == k.(tasks := k.tasks[p := k.tasks[p].(event := None)],
                          events := k.events[e := k.events[e].(waiters := k.events[e].waiters - {p})])
    {
      hide TablesOk, StateOf, StatOk, EventOk, MasksOk, Insert, Remove;
      TaskAt(Snap(), p);
      WaitRemove(Snap(), e, p);
      EventRemove(e, i);
      StoreTcb(i, tcbTbl[i].(event := NIL));
    }

    // The waiter's half of OS_EventTaskRdy: its status and delay, and its ready bit unless it is suspended.
    method WakeTask(i: nat, ghost p: nat)
      requires Valid() && p in Abs().tasks && p < prioTbl.Length && prioTbl[p] == TcbEntry(i)
      modifies this`rdyGrp, rdyTbl, tcbTbl
      ensures Valid() && Snap().table == old(Snap()).table
      ensures var k := old(Abs());
              var t := k.tasks[p].(dly := 0, pend := false, status := PendOk);
              Abs() == k.(tasks := k.tasks[p := t], ready := if t.susp then k.ready else k.ready + {p})
    {
      hide TablesOk, StateOf, StatOk, PendBit, SuspendBit, EventOk, MasksOk, Insert;
      TaskAt(Snap(), p);
      StatusBits(tcbTbl[i].stat);
      StoreTcb(i, tcbTbl[i].(dly := 0, stat := tcbTbl[i].stat & !STAT_SEM, statPend := PendOk));
      TaskAt(Snap(), p);
      if !SuspendBit(tcbTbl[i].stat) {
        InsertReady(Snap(), p);
        ReadyInsert(i);
      }
    }

    // OS_EventTaskRdy: the most urgent waiter gets the event.
    method EventTaskRdy(e: nat)
      requires Valid() && WellFormed(Abs()) && IsSem(Abs(), e) && Abs().events[e].waiters != {}
      modifies this`rdyGrp, rdyTbl, tcbTbl, eventTbl
      ensures Valid() && Abs() == Spec.SemPost(old(Abs()), e).0
    {
      hide TablesOk, StateOf, EventOk, UnMap, Consistent;
      SemAt(Snap(), e);
      WaitingHighest(eventTbl[e], lowest / 8 + 1);
      var y := UnMap(eventTbl[e].grp);
      var x := UnMap(eventTbl[e].tbl[y]);
      var prio := 8 * y + x;
      TaskAt(Snap(), prio);
      var i := prioTbl[prio].i;
      WakeTask(i, prio);
      EventTaskRemove(i, e, prio);
    }

    method SemPost(pevent: int) returns (err: Err, resched: bool)
      requires Valid() && WellFormed(Abs()) && NIL <= pevent < eventTbl.Length
      modifies this`rdyGrp, rdyTbl, tcbTbl, eventTbl
      ensures Valid()
      ensures pevent == NIL ==> err == ErrPeventNull && !resched && Abs() == old(Abs())
      ensures pevent >= 0 && !IsSem(old(Abs()), pevent) ==> err == ErrEventType && !resched && Abs() == old(Abs())
      ensures pevent >= 0 && IsSem(old(Abs()), pevent) ==> (Abs(), err, resched) == Spec.SemPost(old(Abs()), pevent)
    {
      hide TablesOk, StateOf, EventOk, Consistent;
      resched := false;
      if pevent == NIL {
        return ErrPeventNull, false;
      }
      KindAt(Snap(), pevent);
      if eventTbl[pevent].kind != TYPE_SEM {
        return ErrEventType, false;
      }
      SemAt(Snap(), pevent);
      if eventTbl[pevent].grp != 0 {
        EventTaskRdy(pevent);
        return ErrNone, true;
      }
      if eventTbl[pevent].cnt < SEM_MAX {
        ghost var t := Snap();
        EventCount(t, pevent, eventTbl[pevent].cnt + 1);
        eventTbl[pevent] := eventTbl[pevent].(cnt := eventTbl[pevent].cnt + 1);
        assert Snap() == t.(events := t.events[pevent := eventTbl[pevent]]);
        return ErrNone, false;
      }
      err := ErrSemOvf;
    }

    /** `err` says whether the caller passed a place for the error code; without one nothing happens. */
    method SemPend(pevent: int, timeout: nat, err: bool) returns (out: Option<PendOutcome>)
      requires Valid() && WellFormed(Abs()) && running && NIL <= pevent < eventTbl.Length
      modifies this`rdyGrp, rdyTbl, tcbTbl, eventTbl
      ensures Valid()
      ensures !err ==> out == None && Abs() == old(Abs())
      ensures err && pevent == NIL ==> out == Some(Returned(ErrPeventNull)) && Abs() == old(Abs())
      ensures err && pevent >= 0 && !IsSem(old(Abs()), pevent) ==> out == Some(Returned(ErrEventType)) && Abs() == old(Abs())
      ensures err && pevent >= 0 && IsSem(old(Abs()), pevent) ==>
                out.Some? && (Abs(), out.value) == Spec.SemPend(old(Abs()), pevent, timeout)
    {
      hide TablesOk, StateOf, EventOk, Consistent, StatOk, PendBit, SuspendBit, MasksOk;
      if !err {
        return None;
      }
      if pevent == NIL {
        return Some(Returned(ErrPeventNull));
      }
      KindAt(Snap(), pevent);
      if eventTbl[pevent].kind != TYPE_SEM {
        return Some(Returned(ErrEventType));
      }
      CurIs(Snap());
      StartedFlag(Snap());
      if intNesting > 0 {
        return Some(Returned(ErrPendIsr));
      }
      SemAt(Snap(), pevent);
      if eventTbl[pevent].cnt > 0 {
        ghost var t := Snap();
        EventCount(t, pevent, eventTbl[pevent].cnt - 1);
        eventTbl[pevent] := eventTbl[pevent].(cnt := eventTbl[pevent].cnt - 1);
        assert Snap() == t.(events := t.events[pevent := eventTbl[pevent]]);
        return Some(Returned(ErrNone));
      }
      PendBlock(pevent, timeout);
      out := Some(Blocked);
    }

    // The current task starts to wait: the rest of OSSemPend's first critical section.
    method PendBlock(e: nat, timeout: nat)
      requires Valid() && WellFormed(Abs()) && running && IsSem(Abs(), e)
      requires Abs().intNesting == 0 && Abs().events[e].cnt == 0
      modifies this`rdyGrp, rdyTbl, tcbTbl, eventTbl
      ensures Valid() && Abs() == Spec.SemPend(old(Abs()), e, timeout).0
    {
      hide TablesOk, StateOf, EventOk, Consistent, StatOk, PendBit, SuspendBit, MasksOk;
      CurIs(Snap());
      StartedFlag(Snap());
      TaskAt(Snap(), prioCur);
      StatusBits(tcbTbl[tcbCur].stat);
      StoreTcb(tcbCur, tcbTbl[tcbCur].(stat := tcbTbl[tcbCur].stat | STAT_SEM, statPend := PendOk, dly := timeout));
      CurIs(Snap());
      EventTaskWait(e);
    }

    method SemPendResume(e: nat) returns (err: Err)
      requires Valid() && WellFormed(Abs()) && running && IsSem(Abs(), e)
      modifies tcbTbl, eventTbl
      ensures Valid() && (Abs(), err) == Spec.SemPendResume(old(Abs()), e)
    {
      hide TablesOk, StateOf, EventOk, Consistent, StatOk, PendBit, SuspendBit, MasksOk;
      CurIs(Snap());
      StartedFlag(Snap());
      TaskAt(Snap(), prioCur);
      StatusBits(tcbTbl[tcbCur].stat);
      if tcbTbl[tcbCur].statPend == PendOk {
        StoreTcb(tcbCur, tcbTbl[tcbCur].(stat := tcbTbl[tcbCur].stat & !(STAT_SEM | STAT_PEND_ANY), statPend := PendOk));
        return ErrNone;
      }
      EventTaskRemove(tcbCur, e, prioCur);
      TaskAt(Snap(), prioCur);
      StatusBits(tcbTbl[tcbCur].stat);
      err := if tcbTbl[tcbCur].statPend == PendTimeout then ErrTimeout else ErrPendAbort;
      StoreTcb(tcbCur, tcbTbl[tcbCur].(stat := tcbTbl[tcbCur].stat & !(STAT_SEM | STAT_PEND_ANY), statPend := PendOk));
      assert Abs().tasks == Spec.SemPendResume(old(Abs()), e).0.tasks;
    }

    // Takes the first free event block; a semaphore starts with an empty wait list.
    method SemCreate(cnt: nat) returns (pevent: int)
      requires Valid() && WellFormed(Abs())
      modifies this`eventFreeList, this`freeEvents, eventTbl
      ensures Valid()
      ensures var (k, e) := Spec.SemCreate(old(Abs()), cnt); Abs() == k && pevent == if e.Some? then e.value else NIL
    {
      hide TablesOk, StateOf;
      StartedFlag(Snap());
      FreeEventsAt(Snap());
      if intNesting > 0 {
        return NIL;
      }
      pevent := eventFreeList;
      if pevent == NIL {
        return;
      }
      ghost var t := Snap();
      var tbl := eventTbl[pevent].tbl;
      for i := 0 to |tbl|
        invariant |tbl| == t.lowest / 8 + 1
        invariant forall j :: 0 <= j < i ==> tbl[j] == 0
      {
        tbl := tbl[i := 0];
      }
      NewSemaphore(t, cnt, tbl);
      eventFreeList := eventTbl[pevent].ptr;
      freeEvents := freeEvents[1..];
      eventTbl[pevent] := EventBlock(TYPE_SEM, NIL, cnt, 0, tbl);
      assert Snap() == t.(events := t.events[pevent := EventBlock(TYPE_SEM, NIL, cnt, 0, tbl)],
                          eventFreeList := t.events[pevent].ptr, freeEvents := t.freeEvents[1..]);
    }

    // ---------------------------------------------------------------- suspension

    method TaskSuspend(prio: nat) returns (err: Err, self: bool)
      requires Valid() && WellFormed(Abs()) && running
      modifies this`rdyGrp, rdyTbl, tcbTbl
      ensures Valid() && (Abs(), err, self) == Spec.TaskSuspend(old(Abs()), prio)
    {
      hide TablesOk, StateOf, StatOk, PendBit, SuspendBit, MasksOk, Insert, Remove;
      StartedFlag(Snap());
      CurIs(Snap());
      if prio == lowest {
        return ErrTaskSuspendIdle, false;
      }
      if prio >= lowest {
        if prio != PRIO_SELF {
          return ErrPrioInvalid, false;
        }
      }
      var p := prio;
      if prio == PRIO_SELF {
        p := prioCur;
        self := true;
      } else if prio == prioCur {
        self := true;
      } else {
        self := false;
      }
      TableAt(Snap(), p);
      if prioTbl[p] == NullEntry {
        return ErrTaskSuspendPrio, false;
      }
      if prioTbl[p] == ReservedEntry {
        return ErrTaskNotExist, false;
      }
      MakeSuspended(p);
      err := ErrNone;
    }

    // The rest of OSTaskSuspend's critical section, once the task is known to exist.
    method MakeSuspended(p: nat)
      requires Valid() && p < prioTbl.Length && p in Abs().tasks
      modifies this`rdyGrp, rdyTbl, tcbTbl
      ensures Valid()
      ensures var k := old(Abs());
              Abs() == k.(ready := k.ready - {p}, tasks := k.tasks[p := k.tasks[p].(susp := true)])
    {
      hide TablesOk, StateOf, StatOk, PendBit, SuspendBit, MasksOk, Insert, Remove;
      TaskAt(Snap(), p);
      var i := prioTbl[p].i;
      RemoveReady(Snap(), p);
      ReadyRemove(i);
      StatusBits(tcbTbl[i].stat);
      StoreTcb(i, tcbTbl[i].(stat := tcbTbl[i].stat | STAT_SUSPEND));
    }

    method TaskResume(prio: nat) returns (err: Err, readied: bool)
      requires Valid() && WellFormed(Abs())
      modifies this`rdyGrp, rdyTbl, tcbTbl
      ensures Valid() && (Abs(), err, readied) == Spec.TaskResume(old(Abs()), prio)
    {
      hide TablesOk, StateOf, StatOk, PendBit, SuspendBit, MasksOk, Insert, Remove;
      StartedFlag(Snap());
      readied := false;
      if prio >= lowest {
        return ErrPrioInvalid, false;
      }
      TableAt(Snap(), prio);
      if prioTbl[prio] == NullEntry {
        return ErrTaskResumePrio, false;
      }
      if prioTbl[prio] == ReservedEntry {
        return ErrTaskNotExist, false;
      }
      var i := prioTbl[prio].i;
      TaskAt(Snap(), prio);
      if SuspendBit(tcbTbl[i].stat) {
        StatusBits(tcbTbl[i].stat);
        StoreTcb(i, tcbTbl[i].(stat := tcbTbl[i].stat & !STAT_SUSPEND));
        TaskAt(Snap(), prio);
        if !PendBit(tcbTbl[i].stat) {
          if tcbTbl[i].dly == 0 {
            InsertReady(Snap(), prio);
            ReadyInsert(i);
            readied := true;
          }
        }
        return ErrNone, readied;
      }
      err := ErrTaskNotSuspended;
    }

    // ---------------------------------------------------------------- creation

    method CreateReserve(prio: nat) returns (err: Err)
      requires Valid() && WellFormed(Abs())
      modifies prioTbl
      ensures Valid() && (Abs(), err) == Spec.CreateReserve(old(Abs()), prio)
    {
      hide TablesOk, StateOf;
      StartedFlag(Snap());
      if prio > lowest {
        return ErrPrioInvalid;
      }
      if intNesting > 0 {
        return ErrTaskCreateIsr;
      }
      TableAt(Snap(), prio);
      if prioTbl[prio] == NullEntry {
        ghost var t := Snap();
        ChangeReserved(t, prio, true);
        prioTbl[prio] := ReservedEntry;
        assert Snap() == t.(table := t.table[prio := ReservedEntry]);
        return ErrNone;
      }
      err := ErrPrioExist;
    }

    method CreateRollback(prio: nat)
      requires Valid() && prio in Abs().reserved && prio <= lowest
      modifies prioTbl
      ensures Valid() && Abs() == Spec.CreateRollback(old(Abs()), prio)
    {
      hide TablesOk, StateOf;
      StartedFlag(Snap());
      ghost var t := Snap();
      TableAt(t, prio);
      ChangeReserved(t, prio, false);
      prioTbl[prio] := NullEntry;
      assert Snap() == t.(table := t.table[prio := NullEntry]);
    }

    // OS_TCBInit takes a control block; until it is linked it is in limbo.
    method TcbAlloc() returns (i: int, err: Err)
      requires Valid()
      modifies this`tcbFreeList, this`free, this`limbo
      ensures Valid() && (Abs(), err) == Spec.CreateAlloc(old(Abs()))
      ensures err != ErrNone ==> Snap() == old(Snap())
      ensures err == ErrNone ==>
                0 <= i < tcbTbl.Length && i !in old(limbo) && limbo == old(limbo) + {i as nat}
                && forall p :: 0 <= p < prioTbl.Length ==> prioTbl[p] != TcbEntry(i)
    {
      hide TablesOk, StateOf;
      ghost var t := Snap();
      FreeTcbsAt(t);
      i := tcbFreeList;
      if i != NIL {
        TakeFree(t);
        tcbFreeList := tcbTbl[i].next;
        free := free[1..];
        limbo := limbo + {i as nat};
        assert Snap() == t.(tcbFreeList := t.tcbs[t.tcbFreeList].next, free := t.free[1..], limbo := t.limbo + {t.free[0]});
        return i, ErrNone;
      }
      err := ErrNoMoreTcb;
    }

    method TcbInstall(i: nat, prio: nat)
      requires Valid() && i in limbo && prio <= lowest && prio in Abs().reserved
      requires forall p :: 0 <= p < prioTbl.Length ==> prioTbl[p] != TcbEntry(i)
      modifies tcbTbl, prioTbl
      ensures Valid() && Abs() == Spec.CreateInstall(old(Abs()), prio)
      ensures InstalledAt(Snap(), i) && tcbTbl[i].prio == prio
    {
      hide TablesOk, StateOf;
      StartedFlag(Snap());
      ghost var t := Snap();
      TableAt(t, prio);
      LimboAt(t, i);
      FreshTcbOk(tcbTbl[i], prio);
      InstallTask(t, i, FreshTcb(tcbTbl[i], prio));
      tcbTbl[i] := FreshTcb(tcbTbl[i], prio);
      prioTbl[prio] := TcbEntry(i);
      assert Snap() == t.(tcbs := t.tcbs[i := FreshTcb(t.tcbs[i], prio)], table := t.table[prio := TcbEntry(i)]);
    }

    // The pointers of the new head and of the old one.
    method LinkPointers(i: nat)
      requires i < tcbTbl.Length && NIL <= tcbList < tcbTbl.Length
      modifies tcbTbl
      ensures tcbTbl[..] == LinkFront(old(tcbTbl[..]), tcbList, i)
    {
      tcbTbl[i] := tcbTbl[i].(next := tcbList, prev := NIL);
      if tcbList != NIL {
        tcbTbl[tcbList] := tcbTbl[tcbList].(prev := i);
      }
    }

    // The control block goes in front of the task list.
    method ListInsert(i: nat)
      requires Valid() && i in limbo && InstalledAt(Snap(), i)
      requires Abs().linked == [] ==> tcbTbl[i].prio == lowest
      modifies this`tcbList, this`taskCtr, this`active, this`limbo, tcbTbl
      ensures Valid() && Abs() == old(Abs()).(linked := [old(tcbTbl[i].prio)] + old(Abs()).linked)
      ensures limbo == old(limbo) - {i}
    {
      hide TablesOk, StateOf, LinkFront;
      ghost var t := Snap();
      LinkedAt(t);
      LinkTask(t, i);
      LinkPointers(i);
      tcbList := i;
      active := [i] + active;
      limbo := limbo - {i};
      taskCtr := taskCtr + 1;
      assert Snap() == t.(tcbs := LinkFront(t.tcbs, t.tcbList, i), tcbList := i, active := [i] + t.active,
                          limbo := t.limbo - {i}, taskCtr := t.taskCtr + 1);
    }

    method TcbLink(i: nat)
      requires Valid() && i in limbo && InstalledAt(Snap(), i)
      requires Abs().linked == [] ==> tcbTbl[i].prio == lowest
      modifies this`tcbList, this`taskCtr, this`active, this`limbo, tcbTbl, this`rdyGrp, rdyTbl
      ensures Valid() && Abs() == Spec.CreateLink(old(Abs()), old(tcbTbl[i].prio))
      ensures limbo == old(limbo) - {i}
    {
      hide TablesOk, StateOf, MasksOk, Insert;
      ghost var prio := tcbTbl[i].prio;
      TaskOfEntry(Snap(), prio);
      ListInsert(i);
      TaskAt(Snap(), prio);
      InsertReady(Snap(), prio);
      ReadyInsert(i);
    }

    // OSTaskCreate up to its OS_Sched: a create that finds no control block gives the priority back.
    method TaskInit(prio: nat) returns (err: Err)
      requires Valid() && WellFormed(Abs()) && (Abs().linked == [] ==> prio == lowest)
      modifies this`tcbFreeList, this`free, this`limbo, this`tcbList, this`taskCtr, this`active, this`rdyGrp
      modifies rdyTbl, tcbTbl, prioTbl
      ensures Valid() && (Abs(), err) == Spec.TaskCreate(old(Abs()), prio)
      ensures limbo == old(limbo)
    {
      hide TablesOk, StateOf, WellFormed, InstalledAt;
      StartedFlag(Snap());
      err := CreateReserve(prio);
      if err != ErrNone {
        return;
      }
      var i;
      i, err := TcbAlloc();
      if err == ErrNone {
        TcbInstall(i, prio);
        TcbLink(i);
      } else {
        CreateRollback(prio);
      }
    }

    /** OSTaskCreate without interruption: once the kernel runs, a new task that is more urgent takes over. */
    method TaskCreate(prio: nat) returns (err: Err)
      requires Valid() && WellFormed(Abs()) && (Abs().linked == [] ==> prio == lowest)
      modifies this`tcbFreeList, this`free, this`limbo, this`tcbList, this`taskCtr, this`active, this`rdyGrp
      modifies this`prioCur, this`prioHighRdy, this`tcbCur, this`tcbHighRdy
      modifies rdyTbl, tcbTbl, prioTbl
      ensures Valid() && limbo == old(limbo)
      ensures var (k, e) := Spec.TaskCreate(old(Abs()), prio);
              && err == e
              && (e != ErrNone ==> Abs() == old(Abs()))
              && (e == ErrNone ==> prio in k.ready && Abs() == if k.running then Schedule(k) else k)
    {
      hide TablesOk, StateOf;
      StartedFlag(Snap());
      CreateWellFormed(Abs(), prio);
      hide Spec.TaskCreate, Schedule, WellFormed;
      err := TaskInit(prio);
      StartedFlag(Snap());
      if err == ErrNone {
        if running {
          Sched();
        }
      }
    }
  }
}
