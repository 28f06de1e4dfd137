/** What the kernel's lists promise whoever follows their pointers. */
module KernelLists {
  import opened Prelude
  import opened KernelTables

  /** Following OSTCBNext `steps` times from `head`. */
  function Walk(tcbs: seq<Tcb>, head: int, steps: nat): int
    decreases steps
  {
    if steps == 0 then head
    else
      var i := Walk(tcbs, head, steps - 1);
      if 0 <= i < |tcbs| then tcbs[i].next else NIL
  }

  lemma {:induction false} WalkFollows(tcbs: seq<Tcb>, head: int, nodes: seq<nat>, k: nat)
    requires Chain(tcbs, head, nodes) && k <= |nodes|
    ensures Walk(tcbs, head, k) == if k < |nodes| then nodes[k] else NIL
  {
    if k > 0 {
      WalkFollows(tcbs, head, nodes, k - 1);
    }
  }

  function ToSet(s: seq<nat>): (r: set<nat>)
    ensures forall x :: x in r <==> x in s
  {
    set x | x in s
  }

  lemma {:induction false} DistinctSize(s: seq<nat>)
    requires NoDuplicates(s)
    ensures |ToSet(s)| == |s|
  {
    if s != [] {
      var last := s[|s| - 1];
      DistinctSize(s[..|s| - 1]);
      assert last !in s[..|s| - 1];
      assert ToSet(s) == ToSet(s[..|s| - 1]) + {last};
    }
  }

  ghost function Below(n: nat): (s: set<nat>)
    ensures |s| == n && forall i: nat :: i in s <==> i < n
  {
    if n == 0 then {} else Below(n - 1) + {n - 1}
  }

  lemma PartitionSizes(n: nat, active: seq<nat>, free: seq<nat>, limbo: set<nat>)
    requires Partition(n, active, free, limbo) && NoDuplicates(active) && NoDuplicates(free)
    ensures |active| + |free| + |limbo| == n
  {
    DistinctSize(active);
    DistinctSize(free);
    var a, f := ToSet(active), ToSet(free);
    assert a !! f && a + f !! limbo;
    assert |a + f + limbo| == |a| + |f| + |limbo|;
    assert a + f + limbo == Below(n);
  }

  /** Following OSTCBNext from `head` comes to block `i`. */
  ghost predicate Reaches(tcbs: seq<Tcb>, head: int, i: nat) {
    exists k: nat :: Walk(tcbs, head, k) == i
  }

  lemma {:induction false} WalkEnds(tcbs: seq<Tcb>, head: int, nodes: seq<nat>, k: nat)
    requires Chain(tcbs, head, nodes) && k >= |nodes|
    ensures Walk(tcbs, head, k) == NIL
    decreases k
  {
    if k == |nodes| {
      WalkFollows(tcbs, head, nodes, k);
    } else {
      WalkEnds(tcbs, head, nodes, k - 1);
    }
  }

  /** The blocks a list's pointers come to are exactly its nodes. */
  lemma ReachesNodes(tcbs: seq<Tcb>, head: int, nodes: seq<nat>, i: nat)
    requires Chain(tcbs, head, nodes)
    ensures Reaches(tcbs, head, i) <==> i in nodes
  {
    if i in nodes {
      var k :| 0 <= k < |nodes| && nodes[k] == i;
      WalkFollows(tcbs, head, nodes, k);
    }
    if Reaches(tcbs, head, i) {
      var k: nat :| Walk(tcbs, head, k) == i;
      if k < |nodes| {
        WalkFollows(tcbs, head, nodes, k);
      } else {
        WalkEnds(tcbs, head, nodes, k);
      }
    }
  }

  /**
   * Every control block is found by following pointers from OSTCBList, or from OSTCBFreeList, or belongs to a
   * creation in progress, and only one of these; OSTaskCtr is the number of the first, and nothing is lost.
   */
  lemma TcbsPartitioned(t: Tables, i: nat)
    requires TablesOk(t) && i < |t.tcbs|
    ensures t.taskCtr + |t.free| + |t.limbo| == |t.tcbs|
    ensures var a, f, l := Reaches(t.tcbs, t.tcbList, i), Reaches(t.tcbs, t.tcbFreeList, i), i in t.limbo;
            (a || f || l) && !(a && f) && !(a && l) && !(f && l)
    ensures Reaches(t.tcbs, t.tcbList, i) <==> i in t.active
  {
    ReachesNodes(t.tcbs, t.tcbList, t.active, i);
    ReachesNodes(t.tcbs, t.tcbFreeList, t.free, i);
    hide ReadyOk, TableOk, BackLinks, Installed, NotInstalled, EventsOk, EventChain, Chain, Reaches;
    NoRepeats(t);
    PartitionSizes(|t.tcbs|, t.active, t.free, t.limbo);
  }

  lemma NoRepeats(t: Tables)
    requires TablesOk(t)
    ensures NoDuplicates(t.active) && NoDuplicates(t.free)
  {}

  /**
   * From OSTCBList the pointers visit every listed control block once and end in NULL; each block's
   * OSTCBPrev is the one before it; the last is the idle task's, and no other is. So the walk of
   * OSTimeTick, which stops at the idle priority, sees every other listed task exactly once.
   */
  lemma TaskListWalk(t: Tables)
    requires TablesOk(t) && t.active != []
    ensures forall k: nat :: k < |t.active| ==> Walk(t.tcbs, t.tcbList, k) == t.active[k] < |t.tcbs|
    ensures Walk(t.tcbs, t.tcbList, |t.active|) == NIL
    ensures NoDuplicates(t.active)
    ensures forall k: nat :: 0 < k < |t.active| ==> t.tcbs[Walk(t.tcbs, t.tcbList, k)].prev == Walk(t.tcbs, t.tcbList, k - 1)
    ensures t.tcbs[t.tcbList].prev == NIL
    ensures forall k: nat :: k < |t.active| ==>
              (t.tcbs[Walk(t.tcbs, t.tcbList, k)].prio == t.lowest <==> k == |t.active| - 1)
  {
    hide ReadyOk, TableOk, NotInstalled, Partition, EventsOk, EventChain, NoDuplicates, Walk;
    forall k: nat | k <= |t.active|
      ensures Walk(t.tcbs, t.tcbList, k) == if k < |t.active| then t.active[k] else NIL
    {
      WalkFollows(t.tcbs, t.tcbList, t.active, k);
    }
    forall k: nat | k < |t.active| && t.tcbs[t.active[k]].prio == t.lowest ensures k == |t.active| - 1 {
      assert t.table[t.lowest] == TcbEntry(t.active[k]);
      assert t.table[t.lowest] == TcbEntry(t.active[|t.active| - 1]);
    }
  }
}
