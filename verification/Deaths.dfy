/**
 Deaths that happen: runs that show what the death of a worker does to the next one and to its own
 job, and exactly which killed workers are freed.
 */
module Deaths {
  import opened Protocol
  import opened Invariant
  import opened Handoff
  import opened Turns
  import opened Watched
  import opened Acceptance
  import opened Crashes
  import opened Starvation

  lemma RunIsFaulty(cfg: Config, run: seq<State>)
    requires IsRun(cfg, run)
    ensures IsFaultyRun(cfg, run)
  {
    forall k | 0 <= k < |run| - 1 ensures FaultyStep(cfg, run[k], run[k + 1]) {
      assert Step(cfg, run[k], run[k + 1]);
    }
  }

  /** Two connections, handed to the first two of three workers. */
  lemma TwoHandOffs(cfg: Config) returns (run: seq<State>)
    requires ValidConfig(cfg) && |cfg.pipeFd| == 3
    ensures IsRun(cfg, run) && Last(run).pc.Selecting? && !Last(run).stop && |Last(run).slots| == 3
    ensures Last(run).slots[0].status == Last(run).slots[1].status == 1
    ensures var x := Last(run).slots[0]; x.up == [] && x.pc.Reading? && x.down == [Message('p', 0)]
  {
    run := OneHandOff(cfg);
    var t := Last(run);
    assert ReadyPipes(cfg, t) == {};
    assert FirstFree(t.slots) == FirstFree(t.slots, 1) == 1;
    var path := HandingTurn(cfg, t);
    run := RunOn(cfg, run, path);
  }

  /** A server with two workers that select tests and one that it does not: the first worker is
      killed over its job, the second has reported, and no run that goes on from there ever
      frees it. */
  lemma DeadWorkerStarvesTheNext() returns (cfg: Config, run: seq<State>)
    ensures IsFaultyRun(cfg, run) && Last(run).pc.Selecting? && !Last(run).stop
    ensures 1 < |Last(run).slots| && Last(run).slots[1].up != []
    ensures 1 < |cfg.pipeFd| && cfg.pipeFd[1] < MaxFdp(cfg.sockFd, cfg.pipeFd)
    ensures forall longer :: !FreesIt(cfg, run, longer, 1)
  {
    cfg := Config(3, [4, 5, 6]);
    WatchedExactly(cfg, 0);
    WatchedExactly(cfg, 1);
    run := TwoHandOffs(cfg);
    var r := Last(run).(slots := Last(run).slots[0 := Received(Last(run).slots[0])]);
    assert Next(cfg, Last(run), Work(0), r);
    RunAppend(cfg, run, r);
    run := ReportArrives(cfg, run + [r], 1);
    RunIsFaulty(cfg, run);
    var s := Last(run);
    var t := s.(slots := s.slots[0 := Died(s.slots[0])]);
    assert Crash(s, 0, t);
    FaultyRunAppend(cfg, run, t);
    run := run + [t];
    assert Blocks(cfg, t, 0);
    FreedIffNotBehind(cfg, run, 1);
  }

  /** At the top of the loop of a server that is not being stopped, a busy worker within reach of
      the scan is killed: it can be freed in some continuation if and only if it was not in the
      middle of its job. Then it has either reported, or not yet read the job. */
  lemma KilledIsFreedIff(cfg: Config, run: seq<State>, i: nat, t: State)
    requires IsFaultyRun(cfg, run) && Last(run).pc.Selecting? && !Last(run).stop && Crash(Last(run), i, t)
    requires Last(run).slots[i].status != 0 && i < |cfg.pipeFd| && cfg.pipeFd[i] < MaxFdp(cfg.sockFd, cfg.pipeFd)
    requires forall j: nat :: j < i ==> !Blocks(cfg, Last(run), j)
    ensures IsFaultyRun(cfg, run + [t])
    ensures (exists longer :: FreesIt(cfg, run + [t], longer, i)) <==> !InProgress(Last(run).slots[i].pc)
  {
    var s := Last(run);
    FaultyRunInv(cfg, run, |run| - 1);
    assert BackedAt(s.slots, i);
    FaultyRunAppend(cfg, run, t);
    if t.slots[i].up != [] {
      forall j: nat | j < i ensures !Blocks(cfg, t, j) {
        assert !Blocks(cfg, s, j);
      }
      FreedIffNotBehind(cfg, run + [t], i);
    } else {
      forall longer ensures !FreesIt(cfg, run + [t], longer, i) {
        if FreesIt(cfg, run + [t], longer, i) {
          assert longer[|run|] == t && Lost(t, i);
          LostForGood(cfg, longer, |run|, |longer| - 1, i);
        }
      }
    }
  }

  /** A worker is killed before it reads its job: the parent takes the job for done, and has all
      its permits back, though the connection was never served and never will be. */
  lemma UnreadJobLooksDone() returns (cfg: Config, run: seq<State>)
    ensures IsFaultyRun(cfg, run) && Last(run).pc.Selecting? && !Last(run).stop && Last(run).accepted == 1
    ensures 0 < |Last(run).slots| && Last(run).slots[0].pc.Exited? && Last(run).slots[0].status == 0
    ensures Last(run).slots[0].given == [0] && Last(run).slots[0].served == []
    ensures Last(run).avail == |cfg.pipeFd|
  {
    cfg := Config(3, [4, 5]);
    WatchedExactly(cfg, 0);
    var r := OneHandOff(cfg);
    RunIsFaulty(cfg, r);
    var s := Last(r);
    var t := s.(slots := s.slots[0 := Died(s.slots[0])]);
    assert Crash(s, 0, t);
    FaultyRunAppend(cfg, r, t);
    assert t.slots[0].up == [RESET];
    var path := FreeingTurn(cfg, t, 0);
    run := FaultyRunOn(cfg, r + [t], path);
    FaultyRunInv(cfg, run, |run| - 1);
    AllFree(cfg, run);
  }

  /** The first connection, handed over and still in the stream. */
  lemma OneHandOff(cfg: Config) returns (run: seq<State>)
    requires ValidConfig(cfg) && 0 < |cfg.pipeFd|
    ensures IsRun(cfg, run) && Last(run).pc.Selecting? && !Last(run).stop && Last(run).accepted == 1
    ensures |Last(run).slots| == |cfg.pipeFd| == Last(run).avail + 1
    ensures var x := Last(run).slots[0];
      x == FRESH_SLOT.(status := 1, count := 1, down := [Message('p', 0)], given := [0])
    ensures forall i :: 1 <= i < |cfg.pipeFd| ==> Last(run).slots[i] == FRESH_SLOT
  {
    run := FirstStep(cfg);
    var s := Last(run);
    assert ReadyPipes(cfg, s) == {};
    assert FirstFree(s.slots) == 0;
    var path := HandingTurn(cfg, s);
    run := RunOn(cfg, run, path);
  }

  lemma AllFree(cfg: Config, run: seq<State>)
    requires IsFaultyRun(cfg, run) && 0 < |Last(run).slots| && Last(run).slots[0].status == 0
    requires forall i :: 1 <= i < |Last(run).slots| ==> Last(run).slots[i].count == 0
    ensures Last(run).avail == |cfg.pipeFd|
  {
    FaultyRunInv(cfg, run, |run| - 1);
    forall i | 0 <= i < |Last(run).slots| ensures Last(run).slots[i].status == 0 {
      assert BackedAt(Last(run).slots, i);
    }
    CountFreeAll(Last(run).slots);
  }
}
