/** Start-up and runs: what a machine that booted can ever look like. */
module KernelRuns {
  import opened Prelude
  import opened KernelSpec
  import opened KernelMachine
  import opened KernelTokens

  // ---------------------------------------------------------------- start-up

  /** A call made between OSInit and OSStart. */
  datatype BootCall = BootTask(prio: nat) | BootSem(cnt: nat)

  datatype Config = Config(lowest: nat, tcbs: nat, events: nat, calls: seq<BootCall>)

  predicate ValidConfig(c: Config) {
    && c.lowest <= 63 && c.tcbs > 0
    && forall i :: 0 <= i < |c.calls| ==> (c.calls[i].BootSem? ==> c.calls[i].cnt <= SEM_MAX)
  }

  function Init(c: Config): State {
    InitState(c.lowest, c.tcbs, c.events)
  }

  /** Before OSStart nothing has blocked and every created task is ready. */
  ghost predicate Idle(k: State) {
    && WellFormed(k) && !k.running && k.intNesting == 0 && k.lockNesting == 0
    && k.reserved == {}
    && k.ready == k.tasks.Keys
    && (forall p :: p in k.tasks <==> p in k.linked)
    && (forall p :: p in k.tasks ==> k.tasks[p] == FRESH_TASK)
    && NoDuplicates(k.linked) && k.linked != [] && k.linked[|k.linked| - 1] == k.lowest
    && (forall e :: 0 <= e < |k.events| && k.events[e].Sem? ==> k.events[e].waiters == {} && k.events[e].cnt <= SEM_MAX)
    && NoDuplicates(k.freeEvents)
    && (forall i :: 0 <= i < |k.freeEvents| ==> k.events[k.freeEvents[i]].Unused?)
  }

  function BootOne(k: State, call: BootCall): State
    requires forall i :: 0 <= i < |k.freeEvents| ==> k.freeEvents[i] < |k.events|
  {
    match call
    case BootTask(prio) => TaskCreate(k, prio).0
    case BootSem(cnt) => SemCreate(k, cnt).0
  }

  ghost function BootAll(k: State, calls: seq<BootCall>): (k': State)
    requires Idle(k)
    requires forall i :: 0 <= i < |calls| ==> (calls[i].BootSem? ==> calls[i].cnt <= SEM_MAX)
    ensures Idle(k') && |k'.linked| + k'.freeTcbs == |k.linked| + k.freeTcbs
    decreases |calls|
  {
    if calls == [] then k
    else
      BootOneKeeps(k, calls[0]);
      BootAll(BootOne(k, calls[0]), calls[1..])
  }

  lemma BootOneKeeps(k: State, call: BootCall)
    requires Idle(k) && (call.BootSem? ==> call.cnt <= SEM_MAX)
    ensures var k' := BootOne(k, call); Idle(k') && |k'.linked| + k'.freeTcbs == |k.linked| + k.freeTcbs
  {
    match call
    case BootTask(prio) =>
      if TaskCreate(k, prio).1 != ErrNone {
        FailedCreateChangesNothing(k, prio);
      } else {
        var k' := BootOne(k, call);
        assert k'.linked == [prio] + k.linked;
        assert k'.reserved == {};
      }
    case BootSem(cnt) =>
  }

  lemma InitIdle(c: Config)
    requires ValidConfig(c)
    ensures Idle(Init(c)) && |Init(c).linked| + Init(c).freeTcbs == c.tcbs
  {
    assert Init(c).linked == [c.lowest];
    assert Init(c).reserved == {};
  }

  /** The machine right after OSStart. */
  ghost function Started(k: State): Machine
    requires Idle(k)
  {
    assert k.linked[0] in k.linked;
    Machine(Start(k), map p | p in k.tasks :: User,
            seq(|k.events|, e requires 0 <= e < |k.events| =>
              Ledger(if k.events[e].Sem? then k.events[e].cnt else 0, 0, 0, 0, 0)), {})
  }

  ghost function Booted(c: Config): Machine
    requires ValidConfig(c)
  {
    InitIdle(c);
    Started(BootAll(Init(c), c.calls))
  }

  ghost predicate Good(m: Machine) {
    Inv(m) && Wins(m)
  }

  lemma StartedStructure(k: State)
    requires Idle(k)
    ensures var m := Started(k); Structure(m) && IdleOk(m) && CurOk(m)
  {
    assert k.linked[0] in k.linked;
    assert k.linked[|k.linked| - 1] in k.linked;
  }

  lemma StartedGood(k: State)
    requires Idle(k)
    ensures Good(Started(k))
  {
    var m := Started(k);
    StartedStructure(k);
    forall p | p in m.k.tasks ensures TaskOk(m, p) {}
    forall p | p in m.pc ensures CreationOk(m, p) {}
    forall e | 0 <= e < |m.k.events| ensures SemOk(m, e) {}
    forall e | 0 <= e < |m.k.events| ensures WinOk(m, e) {
      assert Winners(m, e) == {};
    }
  }

  lemma BootedGood(c: Config)
    requires ValidConfig(c)
    ensures Good(Booted(c))
  {
    InitIdle(c);
    StartedGood(BootAll(Init(c), c.calls));
  }

  // ---------------------------------------------------------------- runs

  /** Any interleaving of enabled steps at all. */
  ghost predicate AnyRun(m: Machine, steps: seq<Step>)
    decreases |steps|
  {
    steps == [] || (Structure(m) && Enabled(m, steps[0]) && AnyRun(Apply(m, steps[0]), steps[1..]))
  }

  /** Any interleaving of enabled steps that never links a task somebody has touched. */
  ghost predicate ValidRun(m: Machine, steps: seq<Step>)
    decreases |steps|
  {
    steps == [] ||
    (Structure(m) && Enabled(m, steps[0]) && LinkSafe(m, steps[0]) && ValidRun(Apply(m, steps[0]), steps[1..]))
  }

  ghost function Run(m: Machine, steps: seq<Step>): Machine
    requires ValidRun(m, steps)
    decreases |steps|
  {
    if steps == [] then m else Run(Apply(m, steps[0]), steps[1..])
  }

  /** Every run keeps the invariant. */
  lemma {:induction false} RunKeepsGood(m: Machine, steps: seq<Step>)
    requires Good(m) && ValidRun(m, steps)
    ensures Good(Run(m, steps))
    decreases |steps|
  {
    if steps != [] {
      StepKeepsWins(m, steps[0]);
      RunKeepsGood(Apply(m, steps[0]), steps[1..]);
    }
  }

  lemma RunOne(m: Machine, s: Step)
    requires Structure(m) && Enabled(m, s) && LinkSafe(m, s)
    ensures ValidRun(m, [s]) && Run(m, [s]) == Apply(m, s)
  {
    assert [s][1..] == [];
    assert ValidRun(Apply(m, s), []);
  }

  lemma {:induction false} RunConcat(m: Machine, a: seq<Step>, b: seq<Step>)
    requires ValidRun(m, a) && ValidRun(Run(m, a), b)
    ensures ValidRun(m, a + b) && Run(m, a + b) == Run(Run(m, a), b)
    decreases |a|
  {
    hide Apply, Enabled, LinkSafe, NoDuplicates;
    if a == [] {
      assert a + b == b;
    } else {
      RunConcat(Apply(m, a[0]), a[1..], b);
      assert (a + b)[1..] == a[1..] + b;
    }
  }

  /** A good state goes one step further along a run. */
  lemma GoodRunStep(m: Machine, steps: seq<Step>, s: Step)
    requires ValidRun(m, steps) && Good(Run(m, steps))
    requires Enabled(Run(m, steps), s) && LinkSafe(Run(m, steps), s)
    ensures ValidRun(m, steps + [s]) && Run(m, steps + [s]) == Apply(Run(m, steps), s)
    ensures Good(Run(m, steps + [s]))
  {
    RunOne(Run(m, steps), s);
    RunConcat(m, steps, [s]);
    StepKeepsWins(Run(m, steps), s);
  }
}
