/**
 What `select(maxfdp, ...)` can see. The dispatch loop computes
 `maxfdp = max(sock_fd + 1, all pipe descriptors)`, without adding one to the latter, and
 select tests only descriptors below its first argument.
 */
module Watched {
  import opened Protocol
  import opened Invariant
  import opened Handoff
  import opened Turns

  /** Worker i's pipe is in masterset, but select never tests it. */
  ghost predicate Unwatched(cfg: Config, i: nat) {
    i < |cfg.pipeFd| && MaxFdp(cfg.sockFd, cfg.pipeFd) <= cfg.pipeFd[i]
  }

  /** The listening socket is always tested, and so is every pipe except exactly the one with
      the largest descriptor, and that one if and only if it exceeds `sock_fd`. */
  lemma WatchedExactly(cfg: Config, i: nat)
    requires ValidConfig(cfg) && i < |cfg.pipeFd|
    ensures cfg.sockFd < MaxFdp(cfg.sockFd, cfg.pipeFd)
    ensures Unwatched(cfg, i) <==>
      cfg.sockFd < cfg.pipeFd[i] && forall j :: 0 <= j < |cfg.pipeFd| && j != i ==> cfg.pipeFd[j] < cfg.pipeFd[i]
  {
    var m := MaxFdp(cfg.sockFd, cfg.pipeFd);
    MaxFdpIsMax(cfg.sockFd, cfg.pipeFd);
    if m in cfg.pipeFd {
      var k :| 0 <= k < |cfg.pipeFd| && cfg.pipeFd[k] == m;
      assert k != i ==> cfg.pipeFd[k] != cfg.pipeFd[i];
    }
    forall j | Unwatched(cfg, i) && 0 <= j < |cfg.pipeFd| && j != i ensures cfg.pipeFd[j] < cfg.pipeFd[i] {
      assert cfg.pipeFd[j] != cfg.pipeFd[i];
    }
  }

  // ---------------------------------------------------------------- never freed

  lemma StepKeepsUnreaped(cfg: Config, s: State, t: State, i: nat)
    requires Inv(cfg, s) && Step(cfg, s, t) && Unwatched(cfg, i)
    ensures |t.slots| == |s.slots| && t.slots[i].reaped == s.slots[i].reaped
  {
    var a :| Next(cfg, s, a, t);
    if a.Work? && a.i == i {
      assert t.slots[i].reaped == s.slots[i].reaped;
    } else if a.Parent? && s.pc.Scanning? {
      assert s.pc.i == i ==> cfg.pipeFd[i] !in s.pc.rset;
    }
  }

  /** In every run the unwatched worker is never freed: it is given at most one connection,
      and once it has one, at most n - 1 workers are ever available again. */
  lemma {:induction false} UnwatchedNeverFreed(cfg: Config, run: seq<State>, k: nat, i: nat)
    requires IsRun(cfg, run) && k < |run| && Unwatched(cfg, i)
    ensures |run[k].slots| == |cfg.pipeFd|
    ensures run[k].slots[i].reaped == 0 && run[k].slots[i].count <= 1
    ensures run[k].slots[i].count == 1 ==> run[k].slots[i].status == 1 && run[k].avail <= |cfg.pipeFd| - 1
  {
    RunInv(cfg, run, k);
    if k > 0 {
      UnwatchedNeverFreed(cfg, run, k - 1, i);
      RunInv(cfg, run, k - 1);
      assert Step(cfg, run[k - 1], run[k - 1 + 1]);
      StepKeepsUnreaped(cfg, run[k - 1], run[k], i);
    }
    UnreapedIsBusy(cfg, run[k], i);
  }

  lemma UnreapedIsBusy(cfg: Config, s: State, i: nat)
    requires Inv(cfg, s) && i < |s.slots| && s.slots[i].reaped == 0
    ensures 0 <= s.slots[i].count == s.slots[i].status <= 1
    ensures s.slots[i].status == 1 ==> s.avail <= |s.slots| - 1
  {
    assert SlotOk(s.slots, i, Stops(s));
    CountFreeUpdate(s.slots, i, s.slots[i].(status := 0));
  }

  /** A pool of one worker whose pipe lies above the listening socket accepts at most one
      connection in its whole life. */
  lemma SingleWorkerServesOne(cfg: Config, run: seq<State>, k: nat)
    requires IsRun(cfg, run) && k < |run|
    requires |cfg.pipeFd| == 1 && cfg.sockFd < cfg.pipeFd[0]
    ensures run[k].accepted <= 1
  {
    WatchedExactly(cfg, 0);
    UnwatchedNeverFreed(cfg, run, k, 0);
    RunInv(cfg, run, k);
    Ledger(cfg, run, k);
    assert SlotOk(run[k].slots, 0, Stops(run[k]));
    assert SumCount(run[k].slots) == run[k].slots[0].count by {
      assert run[k].slots[..0] == [];
    }
  }


  // ---------------------------------------------------------------- freed if and only if watched

  ghost predicate CanBeFreed(cfg: Config, run: seq<State>, i: nat) {
    exists longer :: Extends(cfg, run, longer) && i < |Last(longer).slots| && Last(longer).slots[i].status == 0
  }

  /** At the top of the loop, a worker whose report has arrived can be freed in some
      continuation if and only if its pipe is watched. */
  lemma FreedIffWatched(cfg: Config, run: seq<State>, i: nat)
    requires IsRun(cfg, run) && Last(run).pc.Selecting? && !Last(run).stop
    requires i < |Last(run).slots| && Last(run).slots[i].up != []
    ensures CanBeFreed(cfg, run, i) <==> !Unwatched(cfg, i)
  {
    RunInv(cfg, run, |run| - 1);
    assert SlotOk(Last(run).slots, i, Stops(Last(run)));
    if Unwatched(cfg, i) {
      forall longer | Extends(cfg, run, longer)
        ensures i < |Last(longer).slots| && Last(longer).slots[i].status != 0
      {
        UnwatchedStaysBusy(cfg, run, longer, i);
      }
    } else {
      var longer := FreeWatched(cfg, run, i);
    }
  }

  /** A busy worker that is not watched is busy in every continuation. */
  lemma UnwatchedStaysBusy(cfg: Config, run: seq<State>, longer: seq<State>, i: nat)
    requires IsRun(cfg, run) && Extends(cfg, run, longer) && Unwatched(cfg, i)
    requires i < |Last(run).slots| && Last(run).slots[i].status != 0
    ensures i < |Last(longer).slots| && Last(longer).slots[i].status == Last(longer).slots[i].count == 1
  {
    UnwatchedNeverFreed(cfg, run, |run| - 1, i);
    UnwatchedNeverFreed(cfg, longer, |longer| - 1, i);
    UnreapedStatus(cfg, run, i);
    assert longer[|run| - 1] == Last(run);
    CountGrows(cfg, longer, |run| - 1, |longer| - 1, i);
  }

  lemma UnreapedStatus(cfg: Config, run: seq<State>, i: nat)
    requires IsRun(cfg, run) && i < |Last(run).slots| && Last(run).slots[i].reaped == 0
    ensures 0 <= Last(run).slots[i].count == Last(run).slots[i].status
  {
    RunInv(cfg, run, |run| - 1);
    UnreapedIsBusy(cfg, Last(run), i);
  }

  lemma SlotsAreN(cfg: Config, run: seq<State>, k: nat)
    requires IsRun(cfg, run) && k < |run|
    ensures |run[k].slots| == |cfg.pipeFd|
  {
    RunInv(cfg, run, k);
  }

  lemma CountStep(cfg: Config, run: seq<State>, k: nat, i: nat)
    requires IsRun(cfg, run) && k + 1 < |run| && i < |cfg.pipeFd|
    ensures |run[k].slots| == |run[k + 1].slots| == |cfg.pipeFd|
    ensures run[k].slots[i].count <= run[k + 1].slots[i].count
  {
    SlotsAreN(cfg, run, k);
    assert Step(cfg, run[k], run[k + 1]);
    var a :| Next(cfg, run[k], a, run[k + 1]);
    StepEffect(cfg, run[k], a, run[k + 1]);
  }

  lemma {:induction false} CountGrows(cfg: Config, run: seq<State>, j: nat, k: nat, i: nat)
    requires IsRun(cfg, run) && j <= k < |run| && i < |cfg.pipeFd|
    ensures |run[j].slots| == |run[k].slots| == |cfg.pipeFd|
    ensures run[j].slots[i].count <= run[k].slots[i].count
    decreases k - j
  {
    if j == k {
      SlotsAreN(cfg, run, j);
    } else {
      CountStep(cfg, run, j, i);
      CountGrows(cfg, run, j + 1, k, i);
    }
  }

  lemma FreeWatched(cfg: Config, run: seq<State>, i: nat) returns (longer: seq<State>)
    requires IsRun(cfg, run) && Last(run).pc.Selecting? && !Last(run).stop
    requires i < |Last(run).slots| && Last(run).slots[i].up != [] && !Unwatched(cfg, i)
    ensures Extends(cfg, run, longer) && BackAtTop(Last(run), Last(longer))
    ensures Last(longer).slots[i].status == 0
  {
    var s := Last(run);
    NoneBlocks(cfg, run);
    SlotsAreN(cfg, run, |run| - 1);
    var path := FreeingTurn(cfg, s, i);
    longer := RunOn(cfg, run, path);
  }

  /** Before the server is stopped no stream ends. */
  lemma NoneBlocks(cfg: Config, run: seq<State>)
    requires IsRun(cfg, run) && Last(run).pc.Selecting?
    ensures forall i: nat :: !Blocks(cfg, Last(run), i)
  {
    RunInv(cfg, run, |run| - 1);
    forall i: nat ensures !Blocks(cfg, Last(run), i) {
      assert SlotOk(Last(run).slots, i, Stops(Last(run)));
    }
  }
}
