/**
 When a signal is heard: exactly in which states with the stop flag set the server shuts down by
 itself, however the processes are scheduled, and in which it may go on waiting for a client.
 */
module Signals {
  import opened Protocol
  import opened Invariant
  import opened Handoff
  import opened Shutdown
  import opened Turns
  import opened Watched

  /** The schedule is not one that comes to rest without having shut the server down. */
  ghost predicate EndsDrained(cfg: Config, s: State, sched: seq<State>) {
    IsSchedule(cfg, sched) && sched[0] == s && !CanMove(cfg, Last(sched)) ==> Drained(Last(sched))
  }

  /** Worker w's pipe is in the part of the select result that is still to be scanned. */
  predicate ToScan(cfg: Config, s: State, w: nat)
    requires w < |cfg.pipeFd|
  {
    match s.pc
    case Accepting(rset, _) => cfg.pipeFd[w] in rset
    case Handing(_, rset, _) => cfg.pipeFd[w] in rset
    case Scanning(k, rset, _) => k <= w && cfg.pipeFd[w] in rset
    case _ => false
  }

  /** Worker w has a job, and its report will end the next select. */
  ghost predicate Awaited(cfg: Config, s: State, w: nat) {
    w < |s.slots| == |cfg.pipeFd| && !Unwatched(cfg, w) && s.slots[w].status == 1 && !ToScan(cfg, s, w)
  }

  /** A client was accepted, and the worker that will get it is watched. */
  ghost predicate WillBeAwaited(cfg: Config, s: State) {
    (s.pc.Accepting? || s.pc.Handing?) && FirstFree(s.slots) < |s.slots| && !Unwatched(cfg, FirstFree(s.slots))
  }

  ghost predicate Heard(cfg: Config, s: State) {
    NoticesSignal(s.pc) || (exists w: nat :: Awaited(cfg, s, w)) || WillBeAwaited(cfg, s)
  }

  // ---------------------------------------------------------------- moves neither lose nor gain it

  lemma WorkKeepsHeard(cfg: Config, s: State, i: nat, t: State)
    requires Inv(cfg, s) && Next(cfg, s, Work(i), t)
    ensures Heard(cfg, t) <==> Heard(cfg, s)
  {
    assert SlotOk(s.slots, i, Stops(s));
    WorkerStepSlot(s.slots[i], t.slots[i], i < Stops(s));
    SameFirstFree(s.slots, t.slots, 0);
    forall w: nat ensures Awaited(cfg, t, w) <==> Awaited(cfg, s, w) {
    }
  }

  lemma {:induction false} SameFirstFree(a: seq<Slot>, b: seq<Slot>, from: nat)
    requires from <= |a| == |b| && forall i :: 0 <= i < |a| ==> a[i].status == b[i].status
    ensures FirstFree(a, from) == FirstFree(b, from)
    decreases |a| - from
  {
    if from < |a| { SameFirstFree(a, b, from + 1); }
  }

  /** Handing over: the worker that gets the job was not in the select result, and of the others
      none changes. */
  lemma HandingKeepsHeard(cfg: Config, s: State)
    requires Inv(cfg, s) && s.pc.Handing?
    ensures Heard(cfg, Handed(s)) <==> Heard(cfg, s)
  {
    CountFreeZero(s.slots);
    var t, i := Handed(s), FirstFree(s.slots);
    assert SlotOk(s.slots, i, 0);
    NoneLeft(cfg.pipeFd, s.pc.rset, 0);
    forall w: nat | w != i ensures Awaited(cfg, t, w) <==> Awaited(cfg, s, w) {
    }
    assert Awaited(cfg, t, i) <==> WillBeAwaited(cfg, s);
    assert !Awaited(cfg, s, i);
  }

  /** When the parent has counted all reports of the select result, none is left. */
  lemma {:induction false} NoneLeft(fds: seq<nat>, rset: set<nat>, from: nat)
    requires from <= |fds|
    ensures CountIn(fds, rset, from) == 0 ==> forall j :: from <= j < |fds| ==> fds[j] !in rset
    decreases |fds| - from
  {
    if from < |fds| { NoneLeft(fds, rset, from + 1); }
  }

  lemma ScanKeepsHeard(cfg: Config, s: State)
    requires Inv(cfg, s) && s.pc.Scanning?
    ensures Heard(cfg, Scanned(cfg, s)) <==> Heard(cfg, s)
  {
    var t, k := Scanned(cfg, s), s.pc.i;
    if k < |s.slots| {
      NoneLeft(cfg.pipeFd, s.pc.rset, k + 1);
      forall w: nat ensures Awaited(cfg, t, w) <==> Awaited(cfg, s, w) {
      }
    }
  }

  lemma ReadyIsAwaited(cfg: Config, s: State, fd: nat)
    requires Inv(cfg, s) && s.pc.Polling? && fd in ReadyPipes(cfg, s)
    ensures exists w: nat :: Awaited(cfg, s, w)
  {
    var w: nat :| w < |s.slots| && PipeReady(s.slots[w]) && cfg.pipeFd[w] == fd
                  && cfg.pipeFd[w] < MaxFdp(cfg.sockFd, cfg.pipeFd);
    assert SlotOk(s.slots, w, 0);
    assert Awaited(cfg, s, w);
  }

  lemma NotOnly(rset: set<nat>, x: nat)
    requires rset != {}
    ensures (exists fd :: fd in rset && fd != x) || rset == {x}
  {
    var fd :| fd in rset;
    if fd == x && rset != {x} { assert rset - {x} != {}; }
  }

  lemma SelectKeepsHeard(cfg: Config, s: State, t: State)
    requires Inv(cfg, s) && s.stop && s.pc.Polling? && ParentStep(cfg, s, t)
    ensures Heard(cfg, t) && (!ByClient(cfg, s, t) ==> Heard(cfg, s))
  {
    if !s.pc.interrupted && !ByClient(cfg, s, t) {
      var rset :| SelectReturns(cfg, s, s.pc.ready, rset) && t == s.(pc := Selected(rset, |rset|));
      NotOnly(rset, cfg.sockFd);
      var fd :| fd in rset && fd != cfg.sockFd;
      ReadyIsAwaited(cfg, s, fd);
    }
  }

  lemma ParentKeepsHeard(cfg: Config, s: State, t: State)
    requires Inv(cfg, s) && s.stop && !s.pc.Starting? && ParentStep(cfg, s, t)
    ensures Heard(cfg, s) ==> Heard(cfg, t)
    ensures Heard(cfg, t) && !ByClient(cfg, s, t) ==> Heard(cfg, s)
  {
    match s.pc
    case Selecting =>
      forall w: nat ensures Awaited(cfg, t, w) <==> Awaited(cfg, s, w) {
      }
    case Accepting(_, _) =>
      forall w: nat ensures Awaited(cfg, t, w) <==> Awaited(cfg, s, w) {
      }
    case Handing(_, _, _) => HandingKeepsHeard(cfg, s);
    case Scanning(_, _, _) => ScanKeepsHeard(cfg, s);
    case Polling(_, _) => SelectKeepsHeard(cfg, s, t);
    case _ =>
  }

  /** Whether a signal is heard is decided: only a client can change it, and then for the good. */
  lemma MoveKeepsHeard(cfg: Config, s: State, a: Actor, t: State)
    requires Inv(cfg, s) && s.stop && !s.pc.Starting? && !a.Interrupt? && Next(cfg, s, a, t)
    ensures Heard(cfg, s) ==> Heard(cfg, t)
    ensures Heard(cfg, t) && !ByClient(cfg, s, t) ==> Heard(cfg, s)
  {
    match a
    case Parent => ParentKeepsHeard(cfg, s, t);
    case Work(i) => WorkKeepsHeard(cfg, s, i, t);
    case Interrupt => assert false;
  }

  lemma ParkedIsUnheard(cfg: Config, s: State)
    requires Inv(cfg, s) && Parked(cfg, s)
    ensures !Heard(cfg, s)
  {
    forall w: nat ensures !Awaited(cfg, s, w) {
      if w < |s.slots| {
        assert SlotOk(s.slots, w, 0) && Idle(s.slots[w]);
        ReadyExactly(cfg, s, w);
      }
    }
  }

  // ---------------------------------------------------------------- heard: every schedule drains

  /** A schedule that begins in a reachable state, once the flag was cleared and set again. */
  ghost predicate WithSignal(cfg: Config, sched: seq<State>) {
    IsSchedule(cfg, sched) && Inv(cfg, sched[0]) && sched[0].stop && !sched[0].pc.Starting?
  }

  lemma HeardStays(cfg: Config, sched: seq<State>, k: nat)
    requires WithSignal(cfg, sched) && k + 1 < |sched| && Heard(cfg, sched[k])
    ensures Heard(cfg, sched[k + 1])
  {
    ScheduleShrinks(cfg, sched, k);
    assert Moves(cfg, sched[k], sched[k + 1]);
    var a: Actor :| !a.Interrupt? && Next(cfg, sched[k], a, sched[k + 1]);
    MoveKeepsHeard(cfg, sched[k], a, sched[k + 1]);
  }

  lemma {:induction false} ScheduleKeepsHeard(cfg: Config, sched: seq<State>, k: nat)
    requires WithSignal(cfg, sched) && Heard(cfg, sched[0]) && k < |sched|
    ensures Heard(cfg, sched[k])
    decreases k
  {
    if k > 0 {
      ScheduleKeepsHeard(cfg, sched, k - 1);
      HeardStays(cfg, sched, k - 1);
    }
  }

  lemma HeardDrains(cfg: Config, run: seq<State>, sched: seq<State>)
    requires IsRun(cfg, run) && Last(run).stop && Heard(cfg, Last(run)) && !Last(run).pc.Starting?
    ensures EndsDrained(cfg, Last(run), sched)
  {
    if IsSchedule(cfg, sched) && sched[0] == Last(run) && !CanMove(cfg, Last(sched)) {
      RunInv(cfg, run, |run| - 1);
      ScheduleShrinks(cfg, sched, |sched| - 1);
      ScheduleKeepsHeard(cfg, sched, |sched| - 1);
      ShutdownDrains(cfg, run, sched);
      if Parked(cfg, Last(sched)) { ParkedIsUnheard(cfg, Last(sched)); }
    }
  }

  // ---------------------------------------------------------------- not heard: some schedule parks

  ghost predicate Parks(cfg: Config, s: State, sched: seq<State>) {
    IsSchedule(cfg, sched) && sched[0] == s && Inv(cfg, Last(sched)) && Parked(cfg, Last(sched))
  }

  lemma SchedulePrepend(cfg: Config, s: State, t: State, rest: seq<State>)
    requires Moves(cfg, s, t) && Parks(cfg, t, rest)
    ensures Parks(cfg, s, [s] + rest)
  {
    var sched := [s] + rest;
    forall k | 0 <= k < |sched| - 1 ensures Moves(cfg, sched[k], sched[k + 1]) {
      if k > 0 { assert Moves(cfg, rest[k - 1], rest[k - 1 + 1]); }
    }
  }

  /** Any schedule without clients parks. */
  lemma {:induction false} UnheardParks(cfg: Config, s: State) returns (sched: seq<State>)
    requires Inv(cfg, s) && s.stop && !s.pc.Starting? && !Heard(cfg, s)
    ensures Parks(cfg, s, sched)
    decreases StepsLeft(s) + 1
  {
    StepsLeftBound(cfg, s);
    if Parked(cfg, s) {
      sched := [s];
    } else {
      Progress(cfg, s);
      var a: Actor, t :| !a.Interrupt? && Next(cfg, s, a, t) && !ByClient(cfg, s, t);
      MoveKeepsHeard(cfg, s, a, t);
      assert Moves(cfg, s, t);
      MoveShrinks(cfg, s, t);
      StepsLeftBound(cfg, t);
      var rest := UnheardParks(cfg, t);
      SchedulePrepend(cfg, s, t, rest);
      sched := [s] + rest;
    }
  }

  /** Before the flag is cleared nothing has been accepted, and a signal is forgotten. */
  lemma StartingParks(cfg: Config, s: State) returns (sched: seq<State>)
    requires Inv(cfg, s) && s.pc.Starting?
    ensures Parks(cfg, s, sched) && !Heard(cfg, s)
  {
    forall i: nat | i < |s.slots| ensures Idle(s.slots[i]) && s.slots[i].up == [] && s.slots[i].status == 0 {
      assert SlotOk(s.slots, i, 0) && GivenOk(s.slots, i, s.route);
    }
    var t := s.(pc := Selecting, stop := false);
    assert ReadyPipes(cfg, t) == {};
    var u := t.(pc := Polling({}, false));
    assert ReadyPipes(cfg, u) == {};
    assert Next(cfg, s, Parent, t) && Next(cfg, t, Parent, u);
    assert Moves(cfg, s, t) && Moves(cfg, t, u) && Step(cfg, s, t) && Step(cfg, t, u);
    StepInv(cfg, s, t);
    StepInv(cfg, t, u);
    sched := [s, t, u];
  }

  /** With the stop flag set, every schedule that comes to rest without a client or another signal
      has shut the server down, if and only if the signal is heard: the parent is about to test
      the flag or has left its loop, or some watched worker has a job whose report is not yet in
      the select result, or is about to get one. */
  lemma HeardExactly(cfg: Config, run: seq<State>)
    requires IsRun(cfg, run) && Last(run).stop
    ensures (forall sched :: EndsDrained(cfg, Last(run), sched)) <==> Heard(cfg, Last(run))
  {
    var s := Last(run);
    RunInv(cfg, run, |run| - 1);
    if Heard(cfg, s) {
      if s.pc.Starting? { var _ := StartingParks(cfg, s); }
      forall sched ensures EndsDrained(cfg, s, sched) {
        HeardDrains(cfg, run, sched);
      }
    } else {
      var sched;
      if s.pc.Starting? { sched := StartingParks(cfg, s); } else { sched := UnheardParks(cfg, s); }
      EndIsStill(cfg, Last(sched));
      assert !EndsDrained(cfg, s, sched);
    }
  }

  // ---------------------------------------------------------------- only signals, and each of them

  /** The j-th step is a signal that comes after the flag was cleared. */
  ghost predicate SignalAt(run: seq<State>, j: nat) {
    j + 1 < |run| && !run[j].pc.Starting? && run[j + 1] == Interrupted(run[j])
  }

  ghost predicate SignalBefore(run: seq<State>, k: nat) {
    exists j: nat :: j < k && SignalAt(run, j)
  }

  /** What one step does to the flag: the parent clears it once, in the beginning, and from then on
      only a signal changes it. */
  lemma FlagStep(cfg: Config, run: seq<State>, k: nat)
    requires IsRun(cfg, run) && k + 1 < |run|
    ensures run[k].pc.Starting? && !run[k + 1].pc.Starting? ==> !run[k + 1].stop
    ensures !run[k].pc.Starting? ==> !run[k + 1].pc.Starting?
    ensures !run[k].pc.Starting? ==> (run[k + 1].stop <==> run[k].stop || SignalAt(run, k))
  {
    RunInv(cfg, run, k);
    assert Step(cfg, run[k], run[k + 1]);
    var a :| Next(cfg, run[k], a, run[k + 1]);
    if a.Parent? && !run[k].pc.Starting? { ParentKeepsFlag(cfg, run[k], run[k + 1]); }
  }

  lemma ParentKeepsFlag(cfg: Config, s: State, t: State)
    requires ParentStep(cfg, s, t) && !s.pc.Starting?
    ensures t.stop == s.stop && !t.pc.Starting?
  {
  }

  /** Once the parent has entered its loop, the stop flag is up if and only if a signal has come
      since: whatever the flag was before does not count, no signal is needed twice, and none
      is forgotten. */
  lemma {:induction false} StoppedIffSignalled(cfg: Config, run: seq<State>, k: nat)
    requires IsRun(cfg, run) && k < |run| && !run[k].pc.Starting?
    ensures run[k].stop <==> SignalBefore(run, k)
    decreases k
  {
    if k > 0 {
      FlagStep(cfg, run, k - 1);
      if run[k - 1].pc.Starting? {
        NoSignalYet(cfg, run, k - 1);
      } else {
        StoppedIffSignalled(cfg, run, k - 1);
        SignalBeforeNext(run, k - 1);
      }
    }
  }

  lemma SignalBeforeNext(run: seq<State>, k: nat)
    ensures SignalBefore(run, k + 1) <==> SignalBefore(run, k) || SignalAt(run, k)
  {
    if SignalBefore(run, k + 1) {
      var j: nat :| j < k + 1 && SignalAt(run, j);
      assert j < k || j == k;
    }
  }

  lemma {:induction false} NoSignalYet(cfg: Config, run: seq<State>, k: nat)
    requires IsRun(cfg, run) && k + 1 < |run| && run[k].pc.Starting?
    ensures !SignalBefore(run, k + 1)
  {
    forall j: nat | j < k + 1 ensures !SignalAt(run, j) {
      StartingBefore(cfg, run, j, k);
    }
  }

  lemma {:induction false} StartingBefore(cfg: Config, run: seq<State>, j: nat, k: nat)
    requires IsRun(cfg, run) && j <= k < |run| && run[k].pc.Starting?
    ensures run[j].pc.Starting?
    decreases k - j
  {
    if j < k {
      StartingBefore(cfg, run, j + 1, k);
      FlagStep(cfg, run, j);
    }
  }

  /** In particular the server is never stopped without a signal that came after the flag was
      cleared and turned it up. */
  lemma {:induction false} StoppedBySignal(cfg: Config, run: seq<State>, k: nat) returns (j: nat)
    requires IsRun(cfg, run) && k < |run| && Draining(run[k])
    ensures j < k && SignalAt(run, j) && !run[j].stop && run[j + 1].stop
  {
    RunInv(cfg, run, k);
    j := FirstSignal(cfg, run, k);
  }

  lemma {:induction false} FirstSignal(cfg: Config, run: seq<State>, k: nat) returns (j: nat)
    requires IsRun(cfg, run) && k < |run| && !run[k].pc.Starting? && run[k].stop
    ensures j < k && SignalAt(run, j) && !run[j].stop && run[j + 1].stop
    decreases k
  {
    assert k > 0;
    FlagStep(cfg, run, k - 1);
    if run[k - 1].stop {
      j := FirstSignal(cfg, run, k - 1);
    } else {
      j := k - 1;
    }
  }
}
