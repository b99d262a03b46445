/**
 When the server can go on accepting, and when it never will again because of the pipe that
 select does not test.
 */
module Acceptance {
  import opened Protocol
  import opened Invariant
  import opened Handoff
  import opened Shutdown
  import opened Turns
  import opened Watched

  /** Worker i, left to itself, gets as far as its report. */
  lemma {:induction false} ReportArrives(cfg: Config, run: seq<State>, i: nat) returns (longer: seq<State>)
    requires IsRun(cfg, run) && Last(run).pc.Selecting?
    requires i < |Last(run).slots| && Last(run).slots[i].status != 0
    ensures Extends(cfg, run, longer) && i < |Last(longer).slots| && Last(longer).slots[i].up != []
    ensures Last(longer) == Last(run).(slots := Last(run).slots[i := Last(longer).slots[i]])
    decreases SlotWeight(Last(run).slots[i])
  {
    var s := Last(run);
    var x := s.slots[i];
    RunInv(cfg, run, |run| - 1);
    assert SlotOk(s.slots, i, 0);
    if x.up != [] {
      longer := run;
    } else {
      var y := WorkerMove(x);
      var t := s.(slots := s.slots[i := y]);
      WorkerStepWeight(x, y, false);
      WorkerStepSlot(x, y, false);
      assert Next(cfg, s, Work(i), t);
      RunAppend(cfg, run, t);
      longer := ReportArrives(cfg, run + [t], i);
    }
  }

  lemma FreeMeansAvailable(cfg: Config, run: seq<State>, i: nat)
    requires IsRun(cfg, run) && i < |Last(run).slots| && Last(run).slots[i].status == 0
    ensures 0 < Last(run).avail
  {
    AvailableIsExact(cfg, run, |run| - 1);
    assert i in FreeSet(Last(run).slots);
  }

  /** A busy worker whose pipe is tested can be waited for: then there is a permit. */
  lemma PermitReturns(cfg: Config, run: seq<State>, i: nat) returns (longer: seq<State>)
    requires IsRun(cfg, run) && Last(run).pc.Selecting? && !Last(run).stop
    requires i < |Last(run).slots| && Last(run).slots[i].status != 0 && !Unwatched(cfg, i)
    ensures Extends(cfg, run, longer) && Last(longer).pc.Selecting? && !Last(longer).stop
    ensures Last(longer).accepted == Last(run).accepted && 0 < Last(longer).avail
  {
    var reported := ReportArrives(cfg, run, i);
    SlotsAreN(cfg, run, |run| - 1);
    SlotsAreN(cfg, reported, |reported| - 1);
    longer := FreeWatched(cfg, reported, i);
    FreeMeansAvailable(cfg, longer, i);
  }

  ghost predicate AcceptsMore(cfg: Config, run: seq<State>, longer: seq<State>) {
    run != [] && Extends(cfg, run, longer) && Last(run).accepted < Last(longer).accepted
  }

  ghost predicate CanAcceptMore(cfg: Config, run: seq<State>) {
    exists longer :: AcceptsMore(cfg, run, longer)
  }

  ghost predicate PermitToCome(cfg: Config, s: State) {
    0 < s.avail || exists i: nat :: BusyWatched(cfg, s, i)
  }

  ghost predicate BusyWatched(cfg: Config, s: State, i: nat) {
    i < |s.slots| && s.slots[i].status != 0 && !Unwatched(cfg, i)
  }

  /** A server that is at the top of its loop and is not being stopped will ever accept another
      connection, in some continuation, if and only if it has a permit or a busy worker whose
      pipe is tested. */
  lemma AcceptsMoreIff(cfg: Config, run: seq<State>)
    requires IsRun(cfg, run) && Last(run).pc.Selecting? && !Last(run).stop
    ensures CanAcceptMore(cfg, run) <==> PermitToCome(cfg, Last(run))
  {
    if PermitToCome(cfg, Last(run)) {
      var longer := AcceptAnother(cfg, run);
    } else {
      forall longer ensures !AcceptsMore(cfg, run, longer) {
        if Extends(cfg, run, longer) { NeverAgain(cfg, run, longer); }
      }
    }
  }

  lemma AcceptAnother(cfg: Config, run: seq<State>) returns (longer: seq<State>)
    requires IsRun(cfg, run) && Last(run).pc.Selecting? && !Last(run).stop && PermitToCome(cfg, Last(run))
    ensures AcceptsMore(cfg, run, longer)
  {
    var ready := run;
    if Last(run).avail <= 0 {
      var i: nat :| BusyWatched(cfg, Last(run), i);
      ready := PermitReturns(cfg, run, i);
    }
    var path := AcceptingTurn(cfg, Last(ready));
    longer := RunOn(cfg, ready, path);
  }

  lemma {:induction false} SumCountOnes(slots: seq<Slot>)
    requires forall i :: 0 <= i < |slots| ==> slots[i].count == 1
    ensures SumCount(slots) == |slots|
  {
    if slots != [] { SumCountOnes(slots[..|slots| - 1]); }
  }

  /** With every worker busy and none of them tested, as many connections are accepted as there
      are workers, then and for ever. */
  lemma NeverAgain(cfg: Config, run: seq<State>, longer: seq<State>)
    requires IsRun(cfg, run) && Last(run).pc.Selecting? && Extends(cfg, run, longer)
    requires !PermitToCome(cfg, Last(run))
    ensures Last(longer).accepted == Last(run).accepted == |cfg.pipeFd|
  {
    AllAccepted(cfg, run, run);
    AllAccepted(cfg, run, longer);
  }

  lemma AllAccepted(cfg: Config, run: seq<State>, longer: seq<State>)
    requires IsRun(cfg, run) && Last(run).pc.Selecting? && Extends(cfg, run, longer)
    requires !PermitToCome(cfg, Last(run))
    ensures Last(longer).accepted == |cfg.pipeFd|
  {
    SlotsAreN(cfg, run, |run| - 1);
    SlotsAreN(cfg, longer, |longer| - 1);
    forall i | 0 <= i < |cfg.pipeFd|
      ensures Last(longer).slots[i].status == Last(longer).slots[i].count == 1
    {
      if Last(run).slots[i].status == 0 { FreeMeansAvailable(cfg, run, i); }
      assert !BusyWatched(cfg, Last(run), i);
      UnwatchedStaysBusy(cfg, run, longer, i);
    }
    Ledger(cfg, longer, |longer| - 1);
    SumCountOnes(Last(longer).slots);
    AvailableIsExact(cfg, longer, |longer| - 1);
    assert FreeSet(Last(longer).slots) == {};
  }

  /** Two workers are enough: at most one pipe is not tested. */
  lemma TwoWorkersKeepAccepting(cfg: Config, run: seq<State>)
    requires IsRun(cfg, run) && Last(run).pc.Selecting? && !Last(run).stop && 2 <= |cfg.pipeFd|
    ensures CanAcceptMore(cfg, run)
  {
    SlotsAreN(cfg, run, |run| - 1);
    if Last(run).avail <= 0 {
      var i: nat := if Unwatched(cfg, 0) then 1 else 0;
      WatchedExactly(cfg, 0);
      WatchedExactly(cfg, 1);
      if Last(run).slots[i].status == 0 { FreeMeansAvailable(cfg, run, i); }
      assert BusyWatched(cfg, Last(run), i);
    }
    AcceptsMoreIff(cfg, run);
  }

  /** The first connection, handed to the only worker. */
  lemma FirstHandOff(cfg: Config) returns (run: seq<State>)
    requires ValidConfig(cfg) && |cfg.pipeFd| == 1
    ensures IsRun(cfg, run) && Last(run).pc.Selecting? && !Last(run).stop
    ensures Last(run).accepted == 1 && Last(run).route == [0]
    ensures |Last(run).slots| == 1 && Last(run).slots[0].status == 1
  {
    run := FirstStep(cfg);
    assert ReadyPipes(cfg, Last(run)) == {};
    var path := HandingTurn(cfg, Last(run));
    run := RunOn(cfg, run, path);
  }

  lemma ReportedSlot(x: Slot, stopped: bool)
    requires SlotInv(x, stopped) && x.up != []
    ensures x.up == ['d'] && x.closed == x.given && x.count == |x.given|
  {
  }

  /** What a worker whose report waits has been handed, it has closed. */
  lemma ReportedIsClosed(cfg: Config, run: seq<State>)
    requires IsRun(cfg, run) && |Last(run).slots| == 1 && Last(run).route == [0] && Last(run).slots[0].up != []
    ensures Last(run).slots[0].up == ['d'] && Last(run).slots[0].closed == [0] && Last(run).slots[0].count == 1
  {
    RunInv(cfg, run, |run| - 1);
    assert SlotOk(Last(run).slots, 0, Stops(Last(run))) && GivenOk(Last(run).slots, 0, [0]);
    ReportedSlot(Last(run).slots[0], 0 < Stops(Last(run)));
    AssignedAppend([], 0, 0);
    assert [] + [0] == [0];
  }

  /** One worker, whose pipe lies above the listening socket, does serve one connection: there
      is a run after which its report has arrived, the parent is at the top of its loop, and
      no connection will be accepted in any continuation. */
  lemma OnlyWorkerIsUsedUp(cfg: Config) returns (run: seq<State>)
    requires |cfg.pipeFd| == 1 && cfg.sockFd < cfg.pipeFd[0]
    ensures IsRun(cfg, run) && Last(run).pc.Selecting? && !Last(run).stop && Last(run).accepted == 1
    ensures |Last(run).slots| == 1 && Last(run).slots[0].up == ['d'] && Last(run).slots[0].closed == [0]
    ensures Unwatched(cfg, 0) && !CanAcceptMore(cfg, run)
  {
    assert ValidConfig(cfg);
    WatchedExactly(cfg, 0);
    run := FirstHandOff(cfg);
    run := ReportArrives(cfg, run, 0);
    SlotsAreN(cfg, run, |run| - 1);
    ReportedIsClosed(cfg, run);
    UnwatchedNeverFreed(cfg, run, |run| - 1, 0);
    AcceptsMoreIff(cfg, run);
  }

  /** When the system is parked it waits for a client and for nothing else: every worker whose
      pipe is tested is free and has closed all it was handed, and the listening socket is
      watched, unless there are no workers or the only one has been used up. */
  lemma ParkedWaitsForClient(cfg: Config, run: seq<State>)
    requires IsRun(cfg, run) && Parked(cfg, Last(run))
    ensures |Last(run).slots| == |cfg.pipeFd|
    ensures forall i :: 0 <= i < |cfg.pipeFd| ==> Last(run).slots[i].closed == Last(run).slots[i].given
    ensures forall i :: 0 <= i < |cfg.pipeFd| && !Unwatched(cfg, i) ==> Last(run).slots[i].status == 0
    ensures cfg.sockFd in WatchSet(cfg, Last(run))
      || |cfg.pipeFd| == 0 || (|cfg.pipeFd| == 1 && Unwatched(cfg, 0) && Last(run).slots[0].status == 1)
  {
    var s := Last(run);
    RunInv(cfg, run, |run| - 1);
    forall i | 0 <= i < |cfg.pipeFd|
      ensures s.slots[i].closed == s.slots[i].given && 0 <= s.slots[i].status <= 1
      ensures !Unwatched(cfg, i) ==> s.slots[i].status == 0
    {
      assert SlotOk(s.slots, i, 0) && Idle(s.slots[i]);
      ReadyExactly(cfg, s, i);
    }
    if 2 <= |cfg.pipeFd| {
      WatchedExactly(cfg, 0);
      WatchedExactly(cfg, 1);
      FreeMeansAvailable(cfg, run, if Unwatched(cfg, 0) then 1 else 0);
    } else if |cfg.pipeFd| == 1 && s.slots[0].status == 0 {
      FreeMeansAvailable(cfg, run, 0);
    }
  }
}
