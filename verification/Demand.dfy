/**
 A server under load: clients are always waiting, so select reports the listening socket whenever
 that is watched, and no signal comes. How the processes are scheduled is left open.
 */
module Demand {
  import opened Protocol
  import opened Invariant
  import opened Handoff
  import opened Shutdown
  import opened Turns
  import opened Watched
  import opened Acceptance

  /** A step of the parent or of a worker, with a client waiting. */
  ghost predicate EagerStep(cfg: Config, s: State, a: Actor, t: State) {
    && !a.Interrupt? && Next(cfg, s, a, t)
    && (a.Parent? && s.pc.Polling? && cfg.sockFd in WatchSet(cfg, s) ==> t.pc.Selected? && cfg.sockFd in t.pc.rset)
  }

  ghost predicate EagerMove(cfg: Config, s: State, t: State) {
    exists a :: EagerStep(cfg, s, a, t)
  }

  ghost predicate IsEager(cfg: Config, sched: seq<State>) {
    sched != [] && forall k :: 0 <= k < |sched| - 1 ==> EagerMove(cfg, sched[k], sched[k + 1])
  }

  /** An upper bound on the number of steps before the next connection is accepted. */
  function StepsToAccept(cfg: Config, s: State): int {
    var n := |s.slots|;
    SumWeight(s.slots) +
    match s.pc
    case Accepting(_, _) => 1
    case Selected(rset, _) => if cfg.sockFd in rset then 2 else n + 6
    case Polling(_, _) => if 0 < s.avail then 3 else n + 7
    case Selecting => if 0 < s.avail then 4 else n + 8
    case Scanning(i, _, _) => n - i + 5
    case Starting => n + 9
    case Handing(_, _, _) => n + 13
    case _ => 0
  }

  /** A step without an accept brings the next accept nearer. */
  ghost predicate Nearer(cfg: Config, s: State, t: State) {
    s.accepted < t.accepted || (t.accepted == s.accepted && StepsToAccept(cfg, t) < StepsToAccept(cfg, s))
  }

  lemma HandingNearer(cfg: Config, s: State)
    requires Inv(cfg, s) && s.pc.Handing?
    ensures Nearer(cfg, s, Handed(s))
  {
    CountFreeZero(s.slots);
    var i := FirstFree(s.slots);
    SumWeightUpdate(s.slots, i, Handed(s).slots[i]);
    CountCmdAppend(s.slots[i].down, Message('p', s.pc.conn), 'p');
    CountCmdAppend(s.slots[i].down, Message('p', s.pc.conn), 's');
  }

  /** The scan ends with at least one report read, so there is a permit then. */
  lemma ScanningNearer(cfg: Config, s: State)
    requires Inv(cfg, s) && s.pc.Scanning?
    ensures Nearer(cfg, s, Scanned(cfg, s))
  {
    var i := s.pc.i;
    if i < |s.slots| && cfg.pipeFd[i] in s.pc.rset {
      SumWeightUpdate(s.slots, i, Scanned(cfg, s).slots[i]);
    }
  }

  lemma StepNearer(cfg: Config, s: State, a: Actor, t: State)
    requires Inv(cfg, s) && !s.stop && EagerStep(cfg, s, a, t)
    ensures !t.stop && Nearer(cfg, s, t)
  {
    match a
    case Work(i) => WorkStepShrinks(cfg, s, i, t);
    case Interrupt => assert false;
    case Parent =>
      match s.pc
      case Handing(_, _, _) => HandingNearer(cfg, s);
      case Scanning(_, _, _) => ScanningNearer(cfg, s);
      case _ =>
  }

  lemma MoveNearer(cfg: Config, sched: seq<State>, k: nat)
    requires IsEager(cfg, sched) && k + 1 < |sched| && Inv(cfg, sched[k]) && !sched[k].stop
    ensures Inv(cfg, sched[k + 1]) && !sched[k + 1].stop && Nearer(cfg, sched[k], sched[k + 1])
  {
    assert EagerMove(cfg, sched[k], sched[k + 1]);
    var a :| EagerStep(cfg, sched[k], a, sched[k + 1]);
    assert Step(cfg, sched[k], sched[k + 1]);
    StepInv(cfg, sched[k], sched[k + 1]);
    StepNearer(cfg, sched[k], a, sched[k + 1]);
  }

  lemma {:induction false} ScheduleNearer(cfg: Config, sched: seq<State>, k: nat)
    requires IsEager(cfg, sched) && Inv(cfg, sched[0]) && !sched[0].stop && k < |sched|
    ensures Inv(cfg, sched[k]) && !sched[k].stop && sched[0].accepted <= sched[k].accepted
    ensures sched[k].accepted == sched[0].accepted ==>
      StepsToAccept(cfg, sched[k]) + k <= StepsToAccept(cfg, sched[0])
    decreases k
  {
    if k > 0 {
      ScheduleNearer(cfg, sched, k - 1);
      MoveNearer(cfg, sched, k - 1);
    }
  }

  lemma StepsToAcceptBound(cfg: Config, s: State)
    requires Inv(cfg, s) && !s.stop
    ensures 0 <= StepsToAccept(cfg, s) <= 5 * |cfg.pipeFd| + 13
  {
    forall i | 0 <= i < |s.slots| ensures SlotWeight(s.slots[i]) <= 4 {
      assert SlotOk(s.slots, i, 0);
      DownForms(s.slots[i], false);
    }
    WeightsBound(s.slots);
  }

  lemma {:induction false} WeightsBound(slots: seq<Slot>)
    requires forall i :: 0 <= i < |slots| ==> SlotWeight(slots[i]) <= 4
    ensures SumWeight(slots) <= 4 * |slots|
  {
    if slots != [] { WeightsBound(slots[..|slots| - 1]); }
  }

  /** From any reachable state, whatever the scheduler does: a schedule of more than 5n + 13 steps
      accepts another connection. */
  lemma LongScheduleAccepts(cfg: Config, run: seq<State>, sched: seq<State>)
    requires IsRun(cfg, run) && !Last(run).stop
    requires IsEager(cfg, sched) && sched[0] == Last(run) && |sched| - 1 > 5 * |cfg.pipeFd| + 13
    ensures Last(run).accepted < Last(sched).accepted
  {
    RunInv(cfg, run, |run| - 1);
    ScheduleNearer(cfg, sched, |sched| - 1);
    StepsToAcceptBound(cfg, sched[0]);
    StepsToAcceptBound(cfg, Last(sched));
  }

  // ---------------------------------------------------------------- schedules go on

  /** The system rests with the listening socket not watched: nothing helps it any more. */
  ghost predicate UsedUp(cfg: Config, s: State) {
    Parked(cfg, s) && cfg.sockFd !in WatchSet(cfg, s)
  }

  lemma ClientEndsSelect(cfg: Config, s: State)
    requires Inv(cfg, s) && s.pc.Polling? && cfg.sockFd in WatchSet(cfg, s)
    ensures exists t :: EagerMove(cfg, s, t)
  {
    var rset := ReadyPipes(cfg, s) + {cfg.sockFd};
    assert SelectReturns(cfg, s, s.pc.ready, rset);
    var t := s.(pc := Selected(rset, |rset|));
    assert EagerStep(cfg, s, Parent, t);
    assert EagerMove(cfg, s, t);
  }

  /** Under load the system can move in every reachable state of a server that is not stopped,
      unless it is used up; with two or more workers it never is. */
  lemma GoesOnUnlessUsedUp(cfg: Config, run: seq<State>)
    requires IsRun(cfg, run) && !Last(run).stop
    ensures (exists t :: EagerMove(cfg, Last(run), t)) <==> !UsedUp(cfg, Last(run))
    ensures 2 <= |cfg.pipeFd| ==> !UsedUp(cfg, Last(run))
  {
    var s := Last(run);
    RunInv(cfg, run, |run| - 1);
    if Parked(cfg, s) && 2 <= |cfg.pipeFd| { ParkedIsWatched(cfg, run); }
    if s.pc.Polling? && cfg.sockFd in WatchSet(cfg, s) {
      ClientEndsSelect(cfg, s);
    } else if Parked(cfg, s) {
      NothingHelps(cfg, s);
    } else {
      Progress(cfg, s);
      var a: Actor, t :| !a.Interrupt? && Next(cfg, s, a, t) && !ByClient(cfg, s, t);
      assert EagerStep(cfg, s, a, t);
      assert EagerMove(cfg, s, t);
    }
  }

  lemma ParkedIsWatched(cfg: Config, run: seq<State>)
    requires IsRun(cfg, run) && Parked(cfg, Last(run)) && 2 <= |cfg.pipeFd|
    ensures cfg.sockFd in WatchSet(cfg, Last(run))
  {
    ParkedWaitsForClient(cfg, run);
  }

  lemma NothingHelps(cfg: Config, s: State)
    requires Inv(cfg, s) && UsedUp(cfg, s)
    ensures !exists t :: EagerMove(cfg, s, t)
  {
    EndIsStill(cfg, s);
    forall t ensures !EagerMove(cfg, s, t) {
      if a :| EagerStep(cfg, s, a, t) {
        assert ByClient(cfg, s, t);
      }
    }
  }
}
