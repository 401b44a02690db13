/** The tick loop: the counting semaphore, the in-flight map and the timers of
    backend/src/scheduler/scheduler.ts, between the turns of the event loop. */
module Scheduler {
  import opened Arithmetic

  type StrategyId = nat

  /** A run waits for a slot, is granted one by a release, works, has given the slot back, and is
      reported; then it is forgotten. */
  datatype Stage = Waiting | Granted | Working | Finished | Reported

  datatype Run = Run(strategy: StrategyId, stage: Stage)

  /** Runs are numbered as they are asked for, so that two runs for one strategy would be told apart. */
  datatype Machine = Machine(
    limit: nat,
    active: nat,
    waiting: seq<nat>,
    runs: map<nat, Run>,
    nextRun: nat,
    inFlight: map<StrategyId, nat>,
    ticks: nat,
    failures: nat,
    running: bool,
    cycleArmed: bool,
    pending: multiset<StrategyId>)

  function NewMachine(limit: nat): Machine {
    Machine(limit, 0, [], map[], 0, map[], 0, 0, false, false, multiset{})
  }

  predicate At(m: Machine, run: nat, stage: Stage) { run in m.runs && m.runs[run].stage == stage }

  function Moved(m: Machine, run: nat, stage: Stage): Machine
    requires run in m.runs
  {
    m.(runs := m.runs[run := m.runs[run].(stage := stage)])
  }

  /** What can happen in one turn: somebody asks for a tick, a granted run resumes, a run's work
      settles, its outcome is reported, its entry is dropped; a cycle or a tick timer fires; start
      and stop. */
  datatype Step =
    | Request(id: StrategyId)
    | Resume(run: nat)
    | Settle(run: nat)
    | ReportOutcome(run: nat, failed: bool)
    | Forget(run: nat)
    | CycleFires(live: seq<StrategyId>)
    | TimerFires(id: StrategyId)
    | StartLoop(live: seq<StrategyId>)
    | StopLoop

  /** `tick`, with the semaphore's entry: both run in the caller's turn. */
  function Requested(m: Machine, id: StrategyId): Machine {
    if id in m.inFlight then m
    else
      var run, full := m.nextRun, m.active >= m.limit;
      m.(nextRun := run + 1, inFlight := m.inFlight[id := run],
         runs := m.runs[run := Run(id, if full then Waiting else Working)],
         waiting := if full then m.waiting + [run] else m.waiting,
         active := if full then m.active else m.active + 1)
  }

  /** The slot goes straight to the first waiter, or back to the pool. */
  function Released(m: Machine): Machine {
    if m.waiting != [] && m.waiting[0] in m.runs then Moved(m, m.waiting[0], Granted).(waiting := m.waiting[1..])
    else if m.active > 0 then m.(active := m.active - 1)
    else m
  }

  function Armed(m: Machine, live: seq<StrategyId>): Machine {
    m.(pending := m.pending + multiset(live), cycleArmed := true)
  }

  function Next(m: Machine, step: Step): Machine {
    match step
    case Request(id) => Requested(m, id)
    case Resume(run) => if At(m, run, Granted) then Moved(m, run, Working) else m
    case Settle(run) => if At(m, run, Working) then Released(Moved(m, run, Finished)) else m
    case ReportOutcome(run, failed) =>
      if At(m, run, Finished) then
        Moved(m, run, Reported).(ticks := m.ticks + 1, failures := m.failures + if failed then 1 else 0)
      else m
    case Forget(run) =>
      if At(m, run, Reported) then m.(runs := m.runs - {run}, inFlight := m.inFlight - {m.runs[run].strategy}) else m
    case CycleFires(live) =>
      if !m.cycleArmed then m else if m.running then Armed(m, live) else m.(cycleArmed := false)
    case TimerFires(id) =>
      if id !in m.pending then m
      else
        var fired := m.(pending := m.pending - multiset{id});
        if m.running then Requested(fired, id) else fired
    case StartLoop(live) => if m.running then m else Armed(m.(running := true), live)
    case StopLoop => m.(running := false, cycleArmed := false, pending := multiset{})
  }

  function RunSteps(m: Machine, steps: seq<Step>): Machine
    decreases |steps|
  {
    if steps == [] then m else RunSteps(Next(m, steps[0]), steps[1..])
  }

  // ---------------------------------------------------------------- what every interleaving keeps

  /** The runs that hold a slot: at work, or about to resume. */
  function Holders(runs: map<nat, Run>): set<nat> {
    set r | r in runs && runs[r].stage in {Granted, Working}
  }

  ghost predicate LineIsTheWaiting(m: Machine) {
    && (forall i, j :: 0 <= i < j < |m.waiting| ==> m.waiting[i] != m.waiting[j])
    && (forall r :: r in m.waiting <==> At(m, r, Waiting))
  }

  /** The semaphore: slots are held by granted or working runs, never more than the limit, and none
      is free while somebody waits. */
  ghost predicate SlotsAccounted(m: Machine) {
    && m.active == |Holders(m.runs)| <= m.limit
    && (m.waiting != [] ==> m.active == m.limit)
  }

  /** The in-flight map has exactly the live runs, each under its own strategy. */
  ghost predicate OneRunPerStrategy(m: Machine) {
    && (forall r <- m.runs :: r < m.nextRun)
    && (forall r <- m.runs :: m.runs[r].strategy in m.inFlight && m.inFlight[m.runs[r].strategy] == r)
    && (forall id <- m.inFlight :: m.inFlight[id] in m.runs && m.runs[m.inFlight[id]].strategy == id)
  }

  ghost predicate TimersOnlyWhileRunning(m: Machine) {
    && (m.running <==> m.cycleArmed)
    && (!m.running ==> m.pending == multiset{})
  }

  ghost predicate Sound(m: Machine) {
    m.limit >= 1 && LineIsTheWaiting(m) && SlotsAccounted(m) && OneRunPerStrategy(m) && TimersOnlyWhileRunning(m)
  }

  lemma LineIsOld(m: Machine)
    requires LineIsTheWaiting(m) && OneRunPerStrategy(m)
    ensures forall i :: 0 <= i < |m.waiting| ==> m.waiting[i] < m.nextRun && At(m, m.waiting[i], Waiting)
  {
    forall i | 0 <= i < |m.waiting| ensures m.waiting[i] < m.nextRun && At(m, m.waiting[i], Waiting) {
      assert m.waiting[i] in m.waiting;
    }
  }

  lemma RequestedKeepsLine(m: Machine, id: StrategyId)
    requires LineIsTheWaiting(m) && OneRunPerStrategy(m)
    ensures LineIsTheWaiting(Requested(m, id))
  {
    LineIsOld(m);
    assert m.nextRun !in m.runs;
  }

  lemma RequestedKeepsMap(m: Machine, id: StrategyId)
    requires OneRunPerStrategy(m)
    ensures OneRunPerStrategy(Requested(m, id))
    ensures id !in m.inFlight ==>
              Holders(Requested(m, id).runs) == Holders(m.runs) + if m.active >= m.limit then {} else {m.nextRun}
    ensures m.nextRun !in Holders(m.runs)
  {
  }

  lemma RequestedIsSound(m: Machine, id: StrategyId)
    requires Sound(m)
    ensures Sound(Requested(m, id))
  {
    RequestedKeepsLine(m, id);
    RequestedKeepsMap(m, id);
  }

  /** Between two stages past the line, only the slots can change. */
  lemma MovedKeeps(m: Machine, run: nat, stage: Stage)
    requires LineIsTheWaiting(m) && OneRunPerStrategy(m)
    requires run in m.runs && m.runs[run].stage != Waiting && stage != Waiting
    ensures LineIsTheWaiting(Moved(m, run, stage)) && OneRunPerStrategy(Moved(m, run, stage))
    ensures Holders(Moved(m, run, stage).runs) ==
            if stage in {Granted, Working} then Holders(m.runs) + {run} else Holders(m.runs) - {run}
  {
    var m' := Moved(m, run, stage);
    forall r ensures r in m'.waiting <==> At(m', r, Waiting) {
      assert At(m, r, Waiting) <==> At(m', r, Waiting);
    }
  }

  lemma GrantKeeps(m: Machine)
    requires LineIsTheWaiting(m) && OneRunPerStrategy(m) && m.waiting != []
    ensures m.waiting[0] in m.runs && m.waiting[0] !in Holders(m.runs)
    ensures LineIsTheWaiting(Released(m)) && OneRunPerStrategy(Released(m))
    ensures Holders(Released(m).runs) == Holders(m.runs) + {m.waiting[0]}
  {
    LineIsOld(m);
    var m', w, line := Released(m), m.waiting[0], m.waiting[1..];
    assert m.waiting == [w] + line;
    forall r ensures r in line <==> At(m', r, Waiting) {
      assert r in m.waiting <==> r == w || r in line;
      assert At(m', r, Waiting) <==> At(m, r, Waiting) && r != w;
    }
  }

  lemma SettledIsSound(m: Machine, run: nat)
    requires Sound(m) && At(m, run, Working)
    ensures Sound(Next(m, Settle(run)))
  {
    var mid := Moved(m, run, Finished);
    MovedKeeps(m, run, Finished);
    assert run in Holders(m.runs);
    if m.waiting != [] {
      GrantKeeps(mid);
    }
  }

  lemma ForgottenKeeps(m: Machine, run: nat)
    requires LineIsTheWaiting(m) && OneRunPerStrategy(m) && At(m, run, Reported)
    ensures LineIsTheWaiting(Next(m, Forget(run))) && OneRunPerStrategy(Next(m, Forget(run)))
    ensures Holders(Next(m, Forget(run)).runs) == Holders(m.runs)
  {
    var m' := Next(m, Forget(run));
    forall r ensures r in m'.waiting <==> At(m', r, Waiting) {
      assert At(m, r, Waiting) <==> At(m', r, Waiting);
    }
  }

  predicate HoldsSlot(stage: Stage) { stage.Granted? || stage.Working? }

  lemma MovedIsSound(m: Machine, run: nat, stage: Stage)
    requires Sound(m) && run in m.runs && m.runs[run].stage != Waiting && stage != Waiting
    requires HoldsSlot(stage) == HoldsSlot(m.runs[run].stage)
    ensures Sound(Moved(m, run, stage))
  {
    MovedKeeps(m, run, stage);
    assert Holders(Moved(m, run, stage).runs) == Holders(m.runs);
  }

  lemma TimersKeepTheRest(m: Machine, step: Step)
    requires Sound(m)
    requires step.CycleFires? || step.StartLoop? || step.StopLoop?
    ensures Sound(Next(m, step))
  {
  }

  lemma StepIsSound(m: Machine, step: Step)
    requires Sound(m)
    ensures Sound(Next(m, step))
  {
    match step
    case Request(id) => RequestedIsSound(m, id);
    case Settle(run) => if At(m, run, Working) { SettledIsSound(m, run); }
    case Resume(run) => if At(m, run, Granted) { MovedIsSound(m, run, Working); }
    case ReportOutcome(run, failed) =>
      if At(m, run, Finished) {
        MovedIsSound(m.(ticks := m.ticks + 1, failures := m.failures + if failed then 1 else 0), run, Reported);
      }
    case Forget(run) => if At(m, run, Reported) { ForgottenKeeps(m, run); }
    case TimerFires(id) =>
      if id in m.pending && m.running {
        RequestedIsSound(m.(pending := m.pending - multiset{id}), id);
      }
    case _ => TimersKeepTheRest(m, step);
  }

  /** In every interleaving: at most `limit` runs hold a slot, no slot is idle while a run waits, no
      strategy has two runs in flight, and no timer is left once the loop is stopped. */
  lemma {:induction false} EveryRunIsSound(m: Machine, steps: seq<Step>)
    requires Sound(m)
    ensures Sound(RunSteps(m, steps))
    decreases |steps|
  {
    if steps != [] {
      StepIsSound(m, steps[0]);
      EveryRunIsSound(Next(m, steps[0]), steps[1..]);
    }
  }

  lemma NewMachineIsSound(limit: nat)
    requires limit >= 1
    ensures Sound(NewMachine(limit))
  {
    assert Holders(map[]) == {};
  }

  /** Two live runs of one strategy are the same run, and the slots are never oversold. */
  lemma NeverTwoInFlight(limit: nat, steps: seq<Step>, a: nat, b: nat)
    requires limit >= 1
    requires var runs := RunSteps(NewMachine(limit), steps).runs;
             a in runs && b in runs && runs[a].strategy == runs[b].strategy
    ensures a == b
  {
    NewMachineIsSound(limit);
    EveryRunIsSound(NewMachine(limit), steps);
  }

  // ---------------------------------------------------------------- first in, first out

  predicate GivesBack(m: Machine, step: Step) { step.Settle? && At(m, step.run, Working) }

  /** How many of the steps gave a slot back. */
  function Releases(m: Machine, steps: seq<Step>): nat
    decreases |steps|
  {
    if steps == [] then 0
    else (if GivesBack(m, steps[0]) then 1 else 0) + Releases(Next(m, steps[0]), steps[1..])
  }

  lemma OneStepInLine(m: Machine, step: Step)
    requires Sound(m)
    ensures if GivesBack(m, step) then Next(m, step).waiting == if m.waiting == [] then [] else m.waiting[1..]
            else Next(m, step).waiting in {m.waiting, m.waiting + [m.nextRun]}
    ensures m.nextRun <= Next(m, step).nextRun
  {
    if GivesBack(m, step) && m.waiting != [] {
      assert m.waiting[0] in m.waiting;
      assert At(m, m.waiting[0], Waiting);
    }
  }

  /** After `n` releases the line `now` is what stood behind the first `n` of `was`, then newcomers. */
  ghost predicate MovedUp(was: seq<nat>, now: seq<nat>, n: nat, newcomers: nat) {
    if n <= |was| then
      && |was| - n <= |now|
      && (forall i :: 0 <= i < |was| - n ==> now[i] == was[i + n])
      && (forall i :: |was| - n <= i < |now| ==> now[i] >= newcomers)
    else forall i :: 0 <= i < |now| ==> now[i] >= newcomers
  }

  /** Waiting runs move up by one for each release and are overtaken by nobody. */
  lemma {:induction false} FirstComeFirstServed(m: Machine, steps: seq<Step>)
    requires Sound(m)
    ensures MovedUp(m.waiting, RunSteps(m, steps).waiting, Releases(m, steps), m.nextRun)
    decreases |steps|
  {
    if steps != [] {
      StepIsSound(m, steps[0]);
      OneStepInLine(m, steps[0]);
      FirstComeFirstServed(Next(m, steps[0]), steps[1..]);
    }
  }

  /** After `n` releases the waiter that stood at `k` is `n` places further on, or has been granted. */
  predicate Served(was: seq<nat>, now: seq<nat>, n: nat, k: nat)
    requires k < |was|
  {
    && (was[k] in now <==> n <= k)
    && (n <= k ==> k - n < |now| && now[k - n] == was[k])
  }

  /** The waiter at position k still waits after k releases, at the head of those who came no
      earlier, and gets its slot with exactly the (k + 1)-th. */
  lemma GrantedAfterExactly(m: Machine, steps: seq<Step>, k: nat)
    requires Sound(m) && k < |m.waiting|
    ensures Served(m.waiting, RunSteps(m, steps).waiting, Releases(m, steps), k)
  {
    LineIsInOrder(m);
    FirstComeFirstServed(m, steps);
    PlaceInLine(m.waiting, RunSteps(m, steps).waiting, Releases(m, steps), m.nextRun, k);
  }

  /** Everybody in the line once, and before all newcomers. */
  predicate InOrder(line: seq<nat>, newcomers: nat) {
    && (forall i, j :: 0 <= i < j < |line| ==> line[i] != line[j])
    && (forall i :: 0 <= i < |line| ==> line[i] < newcomers)
  }

  lemma LineIsInOrder(m: Machine)
    requires Sound(m)
    ensures InOrder(m.waiting, m.nextRun)
  {
    LineIsOld(m);
  }

  lemma PlaceInLine(was: seq<nat>, now: seq<nat>, n: nat, newcomers: nat, k: nat)
    requires MovedUp(was, now, n, newcomers) && InOrder(was, newcomers) && k < |was|
    ensures Served(was, now, n, k)
  {
    if n <= k {
      assert now[k - n] == was[k];
    } else {
      forall i | 0 <= i < |now| ensures now[i] != was[k] {
        if n <= |was| && i < |was| - n {
          assert now[i] == was[i + n];
        }
      }
    }
  }

  // ---------------------------------------------------------------- timers lead to ticks

  ghost predicate SameRuns(m: Machine, m': Machine, but: set<nat>) {
    forall r <- m.runs :: r !in but ==> r in m'.runs && m'.runs[r] == m.runs[r]
  }

  /** The strategy has joined the run it has in flight, or has a new one, which works at once if a slot was
      free and waits at the end of the line if not. */
  ghost predicate AskedFor(m: Machine, m': Machine, id: StrategyId) {
    && id in m'.inFlight && SameRuns(m, m', {})
    && (if id in m.inFlight then m' == m.(pending := m'.pending)
        else
          var run := m'.inFlight[id];
          && run >= m.nextRun && run !in m.runs && m'.runs.Keys == m.runs.Keys + {run}
          && (if |Holders(m.runs)| < m.limit then At(m', run, Working) && m'.waiting == m.waiting
              else At(m', run, Waiting) && m'.waiting == m.waiting + [run]))
  }

  /** A timer that fires while the loop runs puts its strategy in flight. */
  lemma TimerLeadsToTick(m: Machine, id: StrategyId)
    requires Sound(m) && m.running && id in m.pending
    ensures var m' := Next(m, TimerFires(id));
            AskedFor(m, m', id) && m'.pending == m.pending - multiset{id}
  {
  }

  /** So does whoever asks for a tick, whether the loop runs or not. */
  lemma RequestLeadsToTick(m: Machine, id: StrategyId)
    requires Sound(m)
    ensures AskedFor(m, Next(m, Request(id)), id) && Next(m, Request(id)).pending == m.pending
  {
  }

  predicate NeverStopped(steps: seq<Step>) { forall s <- steps :: !s.StopLoop? }

  /** The timers of a strategy that fire over the steps, and those that cycles arm. */
  function Fired(m: Machine, steps: seq<Step>, id: StrategyId): nat
    decreases |steps|
  {
    if steps == [] then 0
    else (if steps[0] == TimerFires(id) && id in m.pending then 1 else 0) + Fired(Next(m, steps[0]), steps[1..], id)
  }

  predicate Arms(m: Machine, step: Step) {
    (step.CycleFires? && m.cycleArmed && m.running) || (step.StartLoop? && !m.running)
  }

  function ArmedFor(m: Machine, steps: seq<Step>, id: StrategyId): nat
    decreases |steps|
  {
    if steps == [] then 0
    else (if Arms(m, steps[0]) then multiset(steps[0].live)[id] else 0) + ArmedFor(Next(m, steps[0]), steps[1..], id)
  }

  lemma OneStepOfTimers(m: Machine, step: Step, id: StrategyId)
    requires !step.StopLoop?
    ensures Next(m, step).pending[id] + (if step == TimerFires(id) && id in m.pending then 1 else 0)
            == m.pending[id] + (if Arms(m, step) then multiset(step.live)[id] else 0)
    ensures m.running ==> Next(m, step).running
  {
  }

  /** Until the loop is stopped no timer is lost and none appears by itself. */
  lemma {:induction false} TimersAddUp(m: Machine, steps: seq<Step>, id: StrategyId)
    requires NeverStopped(steps)
    ensures RunSteps(m, steps).pending[id] + Fired(m, steps, id) == m.pending[id] + ArmedFor(m, steps, id)
    ensures m.running ==> RunSteps(m, steps).running
    decreases |steps|
  {
    if steps != [] {
      assert steps[0] in steps;
      OneStepOfTimers(m, steps[0], id);
      TimersAddUp(Next(m, steps[0]), steps[1..], id);
    }
  }

  /** Every strategy that is live at a cycle, or when the loop starts, is given a timer, and the next
      cycle is armed. Unless the loop is stopped first the timer stays until it fires, and then the
      strategy is in flight. */
  lemma LiveStrategyIsTicked(m: Machine, cycle: Step, id: StrategyId, steps: seq<Step>)
    requires Sound(m) && Arms(m, cycle) && id in cycle.live
    requires NeverStopped(steps) && Fired(Next(m, cycle), steps, id) == 0
    ensures var waited := RunSteps(Next(m, cycle), steps);
            && waited.running && waited.cycleArmed && id in waited.pending
            && id in Next(waited, TimerFires(id)).inFlight
  {
    var armed := Next(m, cycle);
    assert id in multiset(cycle.live);
    TimersAddUp(armed, steps, id);
    StepIsSound(m, cycle);
    EveryRunIsSound(armed, steps);
    TimerLeadsToTick(RunSteps(armed, steps), id);
  }

  /** Once stopped the loop asks for nothing: no timer is left to fire and no cycle to arm one, until it
      is started again. */
  lemma {:induction false} StoppedAsksForNothing(m: Machine, steps: seq<Step>)
    requires Sound(m) && forall s <- steps :: !s.StartLoop?
    ensures var m' := RunSteps(Next(m, StopLoop), steps); !m'.running && !m'.cycleArmed && m'.pending == multiset{}
  {
    StepIsSound(m, StopLoop);
    StaysStopped(Next(m, StopLoop), steps);
  }

  lemma {:induction false} StaysStopped(m: Machine, steps: seq<Step>)
    requires Sound(m) && !m.running && forall s <- steps :: !s.StartLoop?
    ensures var m' := RunSteps(m, steps); !m'.running && !m'.cycleArmed && m'.pending == multiset{}
    decreases |steps|
  {
    if steps != [] {
      assert steps[0] in steps;
      StepIsSound(m, steps[0]);
      StaysStopped(Next(m, steps[0]), steps[1..]);
    }
  }

  // ---------------------------------------------------------------- the life of a run

  /** A granted run goes to work, and nothing else changes. */
  lemma GrantedGoesToWork(m: Machine, run: nat)
    requires Sound(m) && At(m, run, Granted)
    ensures var m' := Next(m, Resume(run));
            && At(m', run, Working) && m'.runs[run].strategy == m.runs[run].strategy && SameRuns(m, m', {run})
            && m' == m.(runs := m'.runs) && m'.runs.Keys == m.runs.Keys
  {
  }

  /** A run at work that settles, whatever came of it, gives its slot to whoever has waited longest; it
      is counted and forgotten, and its strategy can be ticked again. */
  lemma RunComesToItsEnd(m: Machine, run: nat, failed: bool)
    requires Sound(m) && At(m, run, Working)
    ensures var m' := RunSteps(m, [Settle(run), ReportOutcome(run, failed), Forget(run)]);
            && m'.runs.Keys == m.runs.Keys - {run} && m.runs[run].strategy !in m'.inFlight
            && m'.ticks == m.ticks + 1 && m'.failures == m.failures + (if failed then 1 else 0)
            && (if m.waiting == [] then m'.active == m.active - 1 && m'.waiting == [] && SameRuns(m, m', {run})
                else m'.active == m.active && m'.waiting == m.waiting[1..] && At(m', m.waiting[0], Granted)
                     && SameRuns(m, m', {run, m.waiting[0]}))
  {
    var settled := Next(m, Settle(run));
    SettledRun(m, run);
    StepIsSound(m, Settle(run));
    var reported := Next(settled, ReportOutcome(run, failed));
    StepIsSound(settled, ReportOutcome(run, failed));
    ReportedRun(settled, run, failed);
    ForgottenRun(reported, run);
    ThreeSteps(m, Settle(run), ReportOutcome(run, failed), Forget(run));
  }

  lemma SettledRun(m: Machine, run: nat)
    requires Sound(m) && At(m, run, Working)
    ensures var m' := Next(m, Settle(run));
            && At(m', run, Finished) && m'.runs[run].strategy == m.runs[run].strategy && m'.runs.Keys == m.runs.Keys
            && m'.ticks == m.ticks && m'.failures == m.failures
            && (if m.waiting == [] then m'.active == m.active - 1 && m'.waiting == [] && SameRuns(m, m', {run})
                else m'.active == m.active && m'.waiting == m.waiting[1..] && At(m', m.waiting[0], Granted)
                     && m.waiting[0] != run && SameRuns(m, m', {run, m.waiting[0]}))
  {
    assert run in Holders(m.runs);
    if m.waiting != [] {
      assert m.waiting[0] in m.waiting;
      assert At(m, m.waiting[0], Waiting);
    }
  }

  lemma ReportedRun(m: Machine, run: nat, failed: bool)
    requires At(m, run, Finished)
    ensures var m' := Next(m, ReportOutcome(run, failed));
            && At(m', run, Reported) && m'.runs[run].strategy == m.runs[run].strategy && SameRuns(m, m', {run})
            && m'.runs.Keys == m.runs.Keys && m'.active == m.active && m'.waiting == m.waiting
            && m'.ticks == m.ticks + 1 && m'.failures == m.failures + (if failed then 1 else 0)
  {
  }

  lemma ForgottenRun(m: Machine, run: nat)
    requires At(m, run, Reported)
    ensures var m' := Next(m, Forget(run));
            && m'.runs.Keys == m.runs.Keys - {run} && SameRuns(m, m', {run}) && m.runs[run].strategy !in m'.inFlight
            && m'.active == m.active && m'.waiting == m.waiting && m'.ticks == m.ticks && m'.failures == m.failures
  {
  }

  lemma ThreeSteps(m: Machine, a: Step, b: Step, c: Step)
    ensures RunSteps(m, [a, b, c]) == Next(Next(Next(m, a), b), c)
  {
    assert [a, b, c][1..] == [b, c] && [b, c][1..] == [c] && [c][1..] == [];
    assert RunSteps(Next(Next(m, a), b), [c]) == Next(Next(Next(m, a), b), c);
    assert RunSteps(Next(m, a), [b, c]) == RunSteps(Next(Next(m, a), b), [c]);
  }

  // ---------------------------------------------------------------- every run is counted once

  function Unreported(m: Machine): set<nat> {
    set r | r in m.runs && !m.runs[r].stage.Reported?
  }

  /** Runs asked for that are neither counted nor still to be reported: none. */
  function Uncounted(m: Machine): int { m.nextRun - m.ticks - |Unreported(m)| }

  lemma StepCountsRuns(m: Machine, step: Step)
    requires Sound(m)
    ensures Uncounted(Next(m, step)) == Uncounted(m)
  {
    match step
    case ReportOutcome(run, failed) => ReportingCounts(m, run, failed);
    case Forget(run) => ForgettingCountsNothing(m, run);
    case Settle(run) => SettlingReportsNobody(m, run);
    case Resume(run) => ResumingCountsNothing(m, run);
    case Request(id) => RequestIsOneMore(m, id);
    case TimerFires(id) => TimerCountsItsRequest(m, id);
    case _ => TimersCountNothing(m, step);
  }

  lemma TimerCountsItsRequest(m: Machine, id: StrategyId)
    requires OneRunPerStrategy(m)
    ensures Uncounted(Next(m, TimerFires(id))) == Uncounted(m)
  {
    var fired := m.(pending := m.pending - multiset{id});
    RequestIsOneMore(fired, id);
    assert Unreported(fired) == Unreported(m);
  }

  lemma TimersCountNothing(m: Machine, step: Step)
    requires step.CycleFires? || step.StartLoop? || step.StopLoop?
    ensures Uncounted(Next(m, step)) == Uncounted(m)
  {
    assert Unreported(Next(m, step)) == Unreported(m);
  }

  lemma FailuresAreTicks(m: Machine, step: Step)
    requires m.failures <= m.ticks
    ensures Next(m, step).failures <= Next(m, step).ticks
  {
  }

  lemma ReportingCounts(m: Machine, run: nat, failed: bool)
    ensures Uncounted(Next(m, ReportOutcome(run, failed))) == Uncounted(m)
  {
    if At(m, run, Finished) {
      assert Unreported(Next(m, ReportOutcome(run, failed))) == Unreported(m) - {run} && run in Unreported(m);
    }
  }

  lemma ForgettingCountsNothing(m: Machine, run: nat)
    ensures Uncounted(Next(m, Forget(run))) == Uncounted(m)
  {
    assert Unreported(Next(m, Forget(run))) == Unreported(m);
  }

  lemma ResumingCountsNothing(m: Machine, run: nat)
    ensures Uncounted(Next(m, Resume(run))) == Uncounted(m)
  {
    assert Unreported(Next(m, Resume(run))) == Unreported(m);
  }

  lemma SettlingReportsNobody(m: Machine, run: nat)
    requires Sound(m)
    ensures Uncounted(Next(m, Settle(run))) == Uncounted(m)
    ensures Next(m, Settle(run)).ticks == m.ticks && Next(m, Settle(run)).failures == m.failures
  {
    if At(m, run, Working) {
      SettledRun(m, run);
      if m.waiting != [] {
        assert m.waiting[0] in m.waiting;
        assert At(m, m.waiting[0], Waiting);
      }
      assert Unreported(Next(m, Settle(run))) == Unreported(m);
    }
  }

  lemma RequestIsOneMore(m: Machine, id: StrategyId)
    requires OneRunPerStrategy(m)
    ensures Uncounted(Requested(m, id)) == Uncounted(m)
    ensures Requested(m, id).ticks == m.ticks && Requested(m, id).failures == m.failures
  {
    if id !in m.inFlight {
      assert m.nextRun !in m.runs;
      assert Unreported(Requested(m, id)) == Unreported(m) + {m.nextRun};
    }
  }

  /** Every run ever asked for is either still to be reported or counted, once; a failure is counted
      among the runs. */
  lemma {:induction false} EveryRunIsCounted(m: Machine, steps: seq<Step>)
    requires Sound(m) && Uncounted(m) == 0 && m.failures <= m.ticks
    ensures Uncounted(RunSteps(m, steps)) == 0 && RunSteps(m, steps).failures <= RunSteps(m, steps).ticks
    decreases |steps|
  {
    if steps != [] {
      StepIsSound(m, steps[0]);
      StepCountsRuns(m, steps[0]);
      FailuresAreTicks(m, steps[0]);
      EveryRunIsCounted(Next(m, steps[0]), steps[1..]);
    }
  }

  // ---------------------------------------------------------------- stagger

  function Delay(index: nat, interval: nat, n: nat): int
    requires n > 0
  {
    index * interval / n
  }

  /** A cycle's ticks fall inside the interval, and neighbours are one even share apart, give or take
      the millisecond that rounding moves. */
  lemma StaggeredEvenly(index: nat, interval: nat, n: nat)
    requires index < n && interval > 0
    ensures 0 <= Delay(index, interval, n) < interval
    ensures interval / n <= Delay(index + 1, interval, n) - Delay(index, interval, n) <= interval / n + 1
  {
    var here, next, share := index * interval, (index + 1) * interval, interval / n;
    Distribute(index, 1, interval);
    DivBounds(here, n);
    DivBounds(interval, n);
    MulMonotone(0, index, interval);
    MulMonotone(index + 1, n, interval);
    DivAtLeast(here, n, 0);
    assert interval * n == n * interval;
    DivAtMost(here, n, interval - 1);
    Distribute(here / n, share, n);
    DivAtLeast(next, n, here / n + share);
    Distribute(here / n + share, 2, n);
    DivAtMost(next, n, here / n + share + 1);
  }

  // ---------------------------------------------------------------- the closures

  class TickScheduler {
    const concurrency: nat
    var active: nat
    var waiting: seq<nat>
    var runs: map<nat, Run>
    var nextRun: nat
    var inFlight: map<StrategyId, nat>
    var ticks: nat
    var failures: nat
    var running: bool
    var cycleArmed: bool
    var pending: multiset<StrategyId>

    function State(): Machine
      reads this
    {
      Machine(concurrency, active, waiting, runs, nextRun, inFlight, ticks, failures, running, cycleArmed, pending)
    }

    constructor (concurrency: nat)
      ensures State() == NewMachine(concurrency)
    {
      this.concurrency := concurrency;
      active, waiting, runs, nextRun, inFlight := 0, [], map[], 0, map[];
      ticks, failures, running, cycleArmed, pending := 0, 0, false, false, multiset{};
    }

    method Tick(id: StrategyId)
      modifies this
      ensures State() == Next(old(State()), Request(id))
    {
      if id in inFlight {
        return;
      }
      var run := nextRun;
      nextRun := nextRun + 1;
      if active >= concurrency {
        waiting := waiting + [run];
        runs := runs[run := Run(id, Waiting)];
      } else {
        active := active + 1;
        runs := runs[run := Run(id, Working)];
      }
      inFlight := inFlight[id := run];
    }

    method Resumed(run: nat)
      requires At(State(), run, Granted)
      modifies this
      ensures State() == Next(old(State()), Resume(run))
    {
      runs := runs[run := runs[run].(stage := Working)];
    }

    method Release()
      requires waiting != [] ==> waiting[0] in runs
      requires waiting == [] ==> active > 0
      modifies this
      ensures State() == Released(old(State()))
    {
      if waiting != [] {
        var next := waiting[0];
        waiting := waiting[1..];
        runs := runs[next := runs[next].(stage := Granted)];
      } else {
        active := active - 1;
      }
    }

    method WorkSettled(run: nat)
      requires Sound(State()) && At(State(), run, Working)
      modifies this
      ensures State() == Next(old(State()), Settle(run))
    {
      assert run in Holders(runs);
      assert waiting != [] ==> waiting[0] in waiting && At(State(), waiting[0], Waiting);
      runs := runs[run := runs[run].(stage := Finished)];
      Release();
    }

    method Report(run: nat, failed: bool)
      requires At(State(), run, Finished)
      modifies this
      ensures State() == Next(old(State()), ReportOutcome(run, failed))
    {
      ticks := ticks + 1;
      if failed {
        failures := failures + 1;
      }
      runs := runs[run := runs[run].(stage := Reported)];
    }

    method Cleanup(run: nat)
      requires At(State(), run, Reported)
      modifies this
      ensures State() == Next(old(State()), Forget(run))
    {
      inFlight := inFlight - {runs[run].strategy};
      runs := runs - {run};
    }

    method Cycle(live: seq<StrategyId>)
      requires cycleArmed
      modifies this
      ensures State() == Next(old(State()), CycleFires(live))
    {
      if !running {
        cycleArmed := false;
        return;
      }
      ScheduleAll(live);
      cycleArmed := true;
    }

    method ScheduleAll(live: seq<StrategyId>)
      modifies this`pending
      ensures pending == old(pending) + multiset(live)
    {
      for i := 0 to |live|
        invariant pending == old(pending) + multiset(live[..i])
      {
        assert live[..i + 1] == live[..i] + [live[i]];
        pending := pending + multiset{live[i]};
      }
      assert live[..|live|] == live;
    }

    method TimerFired(id: StrategyId)
      requires id in pending
      modifies this
      ensures State() == Next(old(State()), TimerFires(id))
    {
      pending := pending - multiset{id};
      if !running {
        return;
      }
      if id in inFlight {
        return;
      }
      Tick(id);
    }

    method Start(live: seq<StrategyId>)
      modifies this
      ensures State() == Next(old(State()), StartLoop(live))
    {
      if running {
        return;
      }
      running := true;
      ScheduleAll(live);
      cycleArmed := true;
    }

    method Stop()
      modifies this
      ensures State() == Next(old(State()), StopLoop)
    {
      running := false;
      cycleArmed := false;
      pending := multiset{};
    }
  }
}
