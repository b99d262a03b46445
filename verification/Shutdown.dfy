/**
 Shutdown: once the stop flag is set, every schedule of the remaining steps ends within a
 fixed bound. It ends with every worker gone and every accepted connection served and closed,
 unless the signal came just before a select that has nothing left to wait for but a client.
 */
module Shutdown {
  import opened Protocol
  import opened Invariant
  import opened Handoff

  function PcWeight(pc: WorkerPc): nat {
    match pc
    case Reading => 0
    case Serving(_) => 3
    case Closing(_) => 2
    case Reporting => 1
    case Exited => 0
  }

  /** How many steps a worker can still take on what is in its stream. */
  function SlotWeight(x: Slot): nat {
    4 * CountCmd(x.down, 'p') + CountCmd(x.down, 's') + PcWeight(x.pc)
  }

  function SumWeight(slots: seq<Slot>): nat {
    if slots == [] then 0 else SumWeight(slots[..|slots| - 1]) + SlotWeight(slots[|slots| - 1])
  }

  ghost predicate Draining(s: State) {
    s.pc.Stopping? || s.pc.Waiting? || s.pc.Finished?
  }

  /** An upper bound on the number of steps left, of all processes together. */
  function StepsLeft(s: State): int {
    var n := |s.slots|;
    SumWeight(s.slots) +
    match s.pc
    case Accepting(_, _) => 3 * n + 12
    case Handing(_, _, _) => 3 * n + 11
    case Scanning(i, _, _) => 3 * n - i + 6
    case Selecting => 2 * n + 5
    case Polling(_, _) => 2 * n + 4
    case Selected(_, _) => 2 * n + 3
    case Stopping(i) => 2 * (n - i) + 2
    case Waiting => 1
    case _ => 0
  }

  lemma {:induction false} SumWeightUpdate(slots: seq<Slot>, i: nat, y: Slot)
    requires i < |slots|
    ensures SumWeight(slots[i := y]) + SlotWeight(slots[i]) == SumWeight(slots) + SlotWeight(y)
  {
    var m := |slots| - 1;
    if i == m {
      assert slots[i := y][..m] == slots[..m];
    } else {
      assert slots[i := y][..m] == slots[..m][i := y];
      SumWeightUpdate(slots[..m], i, y);
    }
  }

  lemma {:induction false} SumWeightBound(slots: seq<Slot>)
    requires forall i :: 0 <= i < |slots| ==> SlotWeight(slots[i]) <= 5
    ensures SumWeight(slots) <= 5 * |slots|
  {
    if slots != [] { SumWeightBound(slots[..|slots| - 1]); }
  }

  lemma WorkerStepWeight(x: Slot, y: Slot, stopped: bool)
    requires SlotInv(x, stopped) && WorkerStep(x, y)
    ensures SlotWeight(y) < SlotWeight(x)
  {
    if x.pc.Reading? {
      DownForms(x, stopped);
      assert y.down == x.down[1..];
      assert x.down[0] in x.down;
    }
  }

  /** A hand-off adds a job, and takes the parent further than that costs. */
  lemma HandedWeight(cfg: Config, s: State)
    requires Inv(cfg, s) && s.pc.Handing?
    ensures StepsLeft(Handed(s)) < StepsLeft(s)
  {
    CountFreeZero(s.slots);
    var i := FirstFree(s.slots);
    SumWeightUpdate(s.slots, i, Handed(s).slots[i]);
    CountCmdAppend(s.slots[i].down, Message('p', s.pc.conn), 'p');
    CountCmdAppend(s.slots[i].down, Message('p', s.pc.conn), 's');
  }

  lemma ScannedWeight(cfg: Config, s: State)
    requires Inv(cfg, s) && s.pc.Scanning?
    ensures StepsLeft(Scanned(cfg, s)) < StepsLeft(s)
  {
    var i := s.pc.i;
    if i < |s.slots| && cfg.pipeFd[i] in s.pc.rset {
      SumWeightUpdate(s.slots, i, Scanned(cfg, s).slots[i]);
    }
  }

  lemma StopSentWeight(s: State, i: nat)
    requires i < |s.slots|
    ensures SumWeight(StopSent(s, i).slots) == SumWeight(s.slots) + 1
  {
    SumWeightUpdate(s.slots, i, StopSent(s, i).slots[i]);
    CountCmdAppend(s.slots[i].down, STOP, 'p');
    CountCmdAppend(s.slots[i].down, STOP, 's');
  }

  lemma ParentStepShrinks(cfg: Config, s: State, t: State)
    requires Inv(cfg, s) && s.stop && !s.pc.Starting? && ParentStep(cfg, s, t)
    ensures t.stop && !t.pc.Starting? && StepsLeft(t) < StepsLeft(s)
    ensures NoticesSignal(s.pc) ==> NoticesSignal(t.pc)
    ensures Draining(s) ==> Draining(t)
  {
    match s.pc
    case Handing(_, _, _) => HandedWeight(cfg, s);
    case Scanning(_, _, _) => ScannedWeight(cfg, s);
    case Stopping(i) => if i < |s.slots| { StopSentWeight(s, i); }
    case _ =>
  }

  lemma WorkStepShrinks(cfg: Config, s: State, i: nat, t: State)
    requires Inv(cfg, s) && Next(cfg, s, Work(i), t)
    ensures StepsLeft(t) < StepsLeft(s) && SumWeight(t.slots) < SumWeight(s.slots)
  {
    assert SlotOk(s.slots, i, Stops(s));
    WorkerStepWeight(s.slots[i], t.slots[i], i < Stops(s));
    SumWeightUpdate(s.slots, i, t.slots[i]);
  }

  lemma StepsLeftBound(cfg: Config, s: State)
    requires Inv(cfg, s)
    ensures 0 <= StepsLeft(s) <= 8 * |cfg.pipeFd| + 12
    ensures Draining(s) ==> StepsLeft(s) <= 7 * |cfg.pipeFd| + 2
  {
    forall i | 0 <= i < |s.slots| ensures SlotWeight(s.slots[i]) <= 5 {
      assert SlotOk(s.slots, i, Stops(s));
      DownForms(s.slots[i], i < Stops(s));
    }
    SumWeightBound(s.slots);
  }

  /** Where the parent is sure to test the stop flag next, or has tested it: in a select that the
      signal interrupts, right behind select, or out of the loop. */
  predicate NoticesSignal(pc: ParentPc) {
    pc.Selected? || (pc.Polling? && pc.interrupted) || pc.Stopping? || pc.Waiting? || pc.Finished?
  }

  /** A step of the parent or of a worker. */
  ghost predicate Moves(cfg: Config, s: State, t: State) {
    exists a: Actor :: !a.Interrupt? && Next(cfg, s, a, t)
  }

  /** A schedule of the parent and the workers, in any order. */
  ghost predicate IsSchedule(cfg: Config, sched: seq<State>) {
    sched != [] && forall k :: 0 <= k < |sched| - 1 ==> Moves(cfg, sched[k], sched[k + 1])
  }

  lemma MoveShrinks(cfg: Config, s: State, t: State)
    requires Inv(cfg, s) && s.stop && !s.pc.Starting? && Moves(cfg, s, t)
    ensures Inv(cfg, t) && t.stop && !t.pc.Starting? && StepsLeft(t) < StepsLeft(s)
    ensures NoticesSignal(s.pc) ==> NoticesSignal(t.pc)
  {
    var a: Actor :| !a.Interrupt? && Next(cfg, s, a, t);
    assert Step(cfg, s, t);
    StepInv(cfg, s, t);
    match a
    case Parent => ParentStepShrinks(cfg, s, t);
    case Work(i) => WorkStepShrinks(cfg, s, i, t);
    case Interrupt => assert false;
  }

  lemma {:induction false} ScheduleShrinks(cfg: Config, sched: seq<State>, k: nat)
    requires IsSchedule(cfg, sched) && Inv(cfg, sched[0]) && sched[0].stop && !sched[0].pc.Starting? && k < |sched|
    ensures Inv(cfg, sched[k]) && sched[k].stop && !sched[k].pc.Starting?
    ensures StepsLeft(sched[k]) + k <= StepsLeft(sched[0])
    ensures NoticesSignal(sched[0].pc) ==> NoticesSignal(sched[k].pc)
  {
    if k > 0 {
      ScheduleShrinks(cfg, sched, k - 1);
      assert Moves(cfg, sched[k - 1], sched[k - 1 + 1]);
      MoveShrinks(cfg, sched[k - 1], sched[k]);
    }
  }

  // ---------------------------------------------------------------- progress

  /** A worker with nothing to do: it waits for a message. */
  predicate Idle(x: Slot) {
    x.pc.Reading? && x.down == []
  }

  predicate AllIdle(s: State) {
    forall i :: 0 <= i < |s.slots| ==> Idle(s.slots[i])
  }

  /** Nothing moves until a client comes or a signal: the parent is in select, which was not
      interrupted, no pipe that it tests holds a report, and every worker waits for a job. */
  predicate Parked(cfg: Config, s: State) {
    s.pc.Polling? && !s.pc.interrupted && ReadyPipes(cfg, s) == {} && AllIdle(s)
  }

  /** Only a new client makes select return here. */
  ghost predicate ByClient(cfg: Config, s: State, t: State) {
    s.pc.Polling? && t.pc == Selected({cfg.sockFd}, 1)
  }

  /** Some process can move by itself. */
  ghost predicate CanMove(cfg: Config, s: State) {
    exists a: Actor, t :: !a.Interrupt? && Next(cfg, s, a, t) && !ByClient(cfg, s, t)
  }

  lemma WorkerCanMove(cfg: Config, s: State, i: nat)
    requires Inv(cfg, s) && i < |s.slots| && !s.slots[i].pc.Exited? && !Idle(s.slots[i])
    ensures CanMove(cfg, s)
  {
    var y := WorkerMove(s.slots[i]);
    var t := s.(slots := s.slots[i := y]);
    assert Next(cfg, s, Work(i), t) && !ByClient(cfg, s, t);
  }

  /** What was ready when select began is ready as long as it does not return. */
  lemma StillReady(cfg: Config, s: State)
    requires Inv(cfg, s) && s.pc.Polling? && ReadyPipes(cfg, s) != {}
    ensures SelectReturns(cfg, s, s.pc.ready, ReadyPipes(cfg, s)) && cfg.sockFd !in ReadyPipes(cfg, s)
  {
  }

  lemma SelectCanReturn(cfg: Config, s: State)
    requires Inv(cfg, s) && s.pc.Polling? && (s.pc.interrupted || ReadyPipes(cfg, s) != {})
    ensures CanMove(cfg, s)
  {
    var t := s.(pc := if s.pc.interrupted then Selected(WatchSet(cfg, s), -1)
                      else Selected(ReadyPipes(cfg, s), |ReadyPipes(cfg, s)|));
    if !s.pc.interrupted { StillReady(cfg, s); }
    assert Next(cfg, s, Parent, t) && !ByClient(cfg, s, t);
  }

  lemma ParentCanMove(cfg: Config, s: State)
    requires Inv(cfg, s) && !s.pc.Finished?
    requires s.pc.Polling? ==> s.pc.interrupted || ReadyPipes(cfg, s) != {}
    requires s.pc.Waiting? ==> AllExited(s)
    ensures CanMove(cfg, s)
  {
    if s.pc.Polling? {
      SelectCanReturn(cfg, s);
    } else {
      var t := match s.pc
        case Starting => s.(pc := Selecting, stop := false)
        case Selecting => s.(pc := Polling(ReadyPipes(cfg, s), false))
        case Selected(_, _) => Checked(cfg, s)
        case Accepting(_, _) => AcceptedOne(s)
        case Handing(_, _, _) => Handed(s)
        case Scanning(_, _, _) => Scanned(cfg, s)
        case Stopping(i) => if i < |s.slots| then StopSent(s, i).(pc := Stopping(i + 1)) else s.(pc := Waiting)
        case _ => s.(pc := Finished);
      assert Next(cfg, s, Parent, t) && !ByClient(cfg, s, t);
    }
  }

  /** As long as the parent has not returned, some process can move by itself, unless the
      system is parked. In particular waiting for the workers is no deadlock. */
  lemma Progress(cfg: Config, s: State)
    requires Inv(cfg, s) && !s.pc.Finished? && !Parked(cfg, s)
    ensures CanMove(cfg, s)
  {
    if i: nat :| i < |s.slots| && !s.slots[i].pc.Exited? && !Idle(s.slots[i]) {
      WorkerCanMove(cfg, s, i);
    } else {
      forall i | 0 <= i < |s.slots| ensures s.slots[i].pc.Exited? || !(i < Stops(s)) {
        assert SlotOk(s.slots, i, Stops(s));
      }
      forall i | 0 <= i < |s.slots| && s.slots[i].pc.Exited? ensures i < Stops(s) {
        assert SlotOk(s.slots, i, Stops(s));
      }
      ParentCanMove(cfg, s);
    }
  }

  lemma EndIsStill(cfg: Config, s: State)
    requires Inv(cfg, s) && (s.pc.Finished? || Parked(cfg, s))
    ensures !CanMove(cfg, s)
  {
    if s.pc.Finished? {
      forall i | 0 <= i < |s.slots| ensures s.slots[i].pc.Exited? {
        assert AllExited(s);
      }
    } else {
      forall t | ParentStep(cfg, s, t) ensures ByClient(cfg, s, t) {
        var rset :| SelectReturns(cfg, s, s.pc.ready, rset) && t == s.(pc := Selected(rset, |rset|));
        assert rset == {cfg.sockFd};
      }
    }
  }

  /** The states of all runs in which nothing moves by itself: the parent has returned, or the
      system is parked. */
  lemma StillExactly(cfg: Config, run: seq<State>)
    requires IsRun(cfg, run)
    ensures !CanMove(cfg, Last(run)) <==> Last(run).pc.Finished? || Parked(cfg, Last(run))
  {
    RunInv(cfg, run, |run| - 1);
    if Last(run).pc.Finished? || Parked(cfg, Last(run)) {
      EndIsStill(cfg, Last(run));
    } else {
      Progress(cfg, Last(run));
    }
  }

  /** The parent has returned, every worker is gone, nothing is left in a stream to a worker,
      and every connection ever accepted was served and closed. */
  ghost predicate Drained(s: State) {
    && s.pc.Finished? && AllExited(s)
    && (forall i :: 0 <= i < |s.slots| ==>
          s.slots[i].down == [] && s.slots[i].given == s.slots[i].served == s.slots[i].closed)
    && (forall c :: 0 <= c < s.accepted ==> ClosedSomewhere(s, c))
  }

  ghost predicate ClosedSomewhere(s: State, c: int) {
    exists i: nat :: At(s, c, Done(i))
  }

  /** From any reachable state in which the stop flag is set, no schedule is longer than 8n + 12
      steps, or 7n + 2 once the parent has left its loop. One that cannot go on has drained the
      server or is parked, and it has drained the server for sure if the signal came during
      select, between select and the test of the flag, or later. */
  lemma ShutdownDrains(cfg: Config, run: seq<State>, sched: seq<State>)
    requires IsRun(cfg, run) && Last(run).stop && !Last(run).pc.Starting?
    requires IsSchedule(cfg, sched) && sched[0] == Last(run)
    ensures |sched| - 1 <= 8 * |cfg.pipeFd| + 12
    ensures Draining(Last(run)) ==> |sched| - 1 <= 7 * |cfg.pipeFd| + 2
    ensures !CanMove(cfg, Last(sched)) ==> Drained(Last(sched)) || Parked(cfg, Last(sched))
    ensures !CanMove(cfg, Last(sched)) && NoticesSignal(Last(run).pc) ==> Drained(Last(sched))
  {
    RunInv(cfg, run, |run| - 1);
    ScheduleShrinks(cfg, sched, |sched| - 1);
    StepsLeftBound(cfg, sched[0]);
    StepsLeftBound(cfg, Last(sched));
    if !CanMove(cfg, Last(sched)) && !Parked(cfg, Last(sched)) {
      if !Last(sched).pc.Finished? { Progress(cfg, Last(sched)); }
      FinishedIsDrained(cfg, Last(sched));
    }
  }

  ghost predicate EnteredStopped(run: seq<State>, k: nat, m: nat) {
    k < m < |run| && run[k].pc.Selecting? && run[k].stop && forall j :: k < j <= m ==> run[j].pc.Polling?
  }

  /** The flag is set and select was not interrupted only if the flag was set before select was
      entered: a signal that comes during select is never lost. */
  lemma {:induction false} LostSignalWasEarly(cfg: Config, run: seq<State>, m: nat)
    requires IsRun(cfg, run) && m < |run|
    requires run[m].stop && run[m].pc.Polling? && !run[m].pc.interrupted
    ensures exists k: nat :: EnteredStopped(run, k, m)
    decreases m
  {
    if m > 0 {
      PollingBefore(cfg, run, m - 1);
      if run[m - 1].pc.Selecting? {
        assert EnteredStopped(run, m - 1, m);
      } else {
        LostSignalWasEarly(cfg, run, m - 1);
        var k: nat :| EnteredStopped(run, k, m - 1);
        assert EnteredStopped(run, k, m);
      }
    }
  }

  lemma PollingBefore(cfg: Config, run: seq<State>, m: nat)
    requires IsRun(cfg, run) && m + 1 < |run|
    requires run[m + 1].stop && run[m + 1].pc.Polling? && !run[m + 1].pc.interrupted
    ensures run[m].stop && (run[m].pc.Selecting? || (run[m].pc.Polling? && !run[m].pc.interrupted))
  {
    RunInv(cfg, run, m);
    assert Step(cfg, run[m], run[m + 1]);
    var a :| Next(cfg, run[m], a, run[m + 1]);
  }

  /** That the server is parked with the stop flag set does happen: the signal comes before the
      first select. Then it goes on waiting for a client. */
  lemma SignalCanBeLost(cfg: Config) returns (run: seq<State>)
    requires ValidConfig(cfg)
    ensures IsRun(cfg, run) && Last(run).stop && Parked(cfg, Last(run))
  {
    run := FirstStep(cfg);
    var t := Interrupted(Last(run));
    assert ReadyPipes(cfg, t) == {};
    var u := t.(pc := Polling({}, false));
    assert Next(cfg, Last(run), Interrupt, t) && Next(cfg, t, Parent, u);
    RunAppend(cfg, run, t);
    RunAppend(cfg, run + [t], u);
    assert ReadyPipes(cfg, u) == {};
    run := run + [t] + [u];
  }

  lemma FinishedIsDrained(cfg: Config, s: State)
    requires Inv(cfg, s) && s.pc.Finished?
    ensures Drained(s)
  {
    forall i | 0 <= i < |s.slots|
      ensures s.slots[i].down == [] && s.slots[i].given == s.slots[i].served == s.slots[i].closed
    {
      assert SlotOk(s.slots, i, Stops(s));
    }
    forall c | 0 <= c < s.accepted ensures ClosedSomewhere(s, c) {
      FinishedIsClosed(cfg, s, c);
    }
  }

  lemma FinishedIsClosed(cfg: Config, s: State, c: int)
    requires Inv(cfg, s) && s.pc.Finished? && 0 <= c < s.accepted
    ensures ClosedSomewhere(s, c)
  {
    var i := s.route[c];
    assert SlotOk(s.slots, i, Stops(s));
    PlacesAtSlot(cfg, s, c, i);
    assert At(s, c, Done(i));
  }

  /** A worker that has exited, in any state of any run, had run the callback for and closed
      everything it was ever handed: the stop is behind the last job in its stream. */
  lemma NoneLeftBehind(cfg: Config, run: seq<State>, k: nat, i: nat)
    requires IsRun(cfg, run) && k < |run| && i < |run[k].slots| && run[k].slots[i].pc.Exited?
    ensures run[k].slots[i].given == run[k].slots[i].served == run[k].slots[i].closed
    ensures run[k].slots[i].closed == Assigned(run[k].route, i)
  {
    RunInv(cfg, run, k);
    assert SlotOk(run[k].slots, i, Stops(run[k])) && GivenOk(run[k].slots, i, run[k].route);
  }
}
