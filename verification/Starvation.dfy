/**
 Behind a dead worker. A death costs more than the permit of the job that died with it: a stream
 that has ended is ready for ever, every scan stops there, and no worker with a larger index is
 freed again.
 */
module Starvation {
  import opened Protocol
  import opened Invariant
  import opened Handoff
  import opened Turns
  import opened Crashes

  /** The dead worker i is in the way of every scan from here on. */
  ghost predicate InTheWay(cfg: Config, s: State, i: nat) {
    Blocks(cfg, s, i) &&
    match s.pc
    case Polling(ready, _) => cfg.pipeFd[i] in ready
    case Selected(rset, _) => cfg.pipeFd[i] in rset
    case Accepting(rset, _) => cfg.pipeFd[i] in rset
    case Handing(_, rset, _) => cfg.pipeFd[i] in rset
    case Scanning(k, rset, _) => cfg.pipeFd[i] in rset && k <= i
    case _ => true
  }

  /** Worker w is not freed by this step, whether or not it is handed a job. */
  ghost predicate NotFreed(s: State, t: State, w: nat) {
    && w < |s.slots| && |t.slots| == |s.slots|
    && t.slots[w].reaped == s.slots[w].reaped
    && (s.slots[w].status != 0 ==> t.slots[w].status != 0)
  }

  lemma ScanStopsThere(cfg: Config, s: State, i: nat, w: nat)
    requires ValidConfig(cfg) && |s.slots| == |cfg.pipeFd| && s.pc.Scanning?
    requires InTheWay(cfg, s, i) && i < w < |s.slots|
    ensures InTheWay(cfg, Scanned(cfg, s), i) && NotFreed(s, Scanned(cfg, s), w)
  {
  }

  lemma ParentStaysBehind(cfg: Config, s: State, t: State, i: nat, w: nat)
    requires ValidConfig(cfg) && |s.slots| == |cfg.pipeFd| && ParentStep(cfg, s, t)
    requires InTheWay(cfg, s, i) && i < w < |s.slots|
    ensures InTheWay(cfg, t, i) && NotFreed(s, t, w)
  {
    match s.pc
    case Selecting => ReadyExactly(cfg, s, i);
    case Polling(_, _) => assert cfg.pipeFd[i] in cfg.pipeFd;
    case Scanning(_, _, _) => ScanStopsThere(cfg, s, i, w);
    case _ =>
  }

  lemma StaysBehind(cfg: Config, s: State, t: State, i: nat, w: nat)
    requires ValidConfig(cfg) && |s.slots| == |cfg.pipeFd| && FaultyStep(cfg, s, t)
    requires InTheWay(cfg, s, i) && i < w < |s.slots|
    ensures InTheWay(cfg, t, i) && NotFreed(s, t, w)
  {
    if a :| Next(cfg, s, a, t) {
      if a.Parent? { ParentStaysBehind(cfg, s, t, i, w); }
    }
  }

  lemma FaultyRunStep(cfg: Config, run: seq<State>, k: nat)
    requires IsFaultyRun(cfg, run) && k + 1 < |run|
    ensures CounterInv(cfg, run[k]) && FaultyStep(cfg, run[k], run[k + 1])
  {
    FaultyRunInv(cfg, run, k);
  }

  /** Once worker i is dead, its stream is drained and select tests it, no busy worker with a
      larger index is freed again, from the next time the parent is at the top of its loop. */
  lemma {:induction false} StarvedBehind(cfg: Config, run: seq<State>, j: nat, k: nat, i: nat, w: nat)
    requires IsFaultyRun(cfg, run) && j <= k < |run|
    requires InTheWay(cfg, run[j], i) && i < w < |cfg.pipeFd|
    ensures InTheWay(cfg, run[k], i) && w < |run[j].slots| && NotFreed(run[j], run[k], w)
    decreases k - j
  {
    FaultyRunInv(cfg, run, j);
    if j < k {
      FaultyRunStep(cfg, run, j);
      StaysBehind(cfg, run[j], run[j + 1], i, w);
      StarvedBehind(cfg, run, j + 1, k, i, w);
    }
  }

  /** Worker w's pipe is not tested, and not in any select result. */
  ghost predicate PassedOver(cfg: Config, s: State, w: nat) {
    && w < |s.slots| == |cfg.pipeFd| && MaxFdp(cfg.sockFd, cfg.pipeFd) <= cfg.pipeFd[w]
    && match s.pc
       case Polling(_, interrupted) => interrupted ==> s.stop
       case Selected(rset, _) => s.stop || cfg.pipeFd[w] !in rset
       case Accepting(rset, _) => cfg.pipeFd[w] !in rset
       case Handing(_, rset, _) => cfg.pipeFd[w] !in rset
       case Scanning(_, rset, _) => cfg.pipeFd[w] !in rset
       case _ => true
  }

  lemma ParentPassesOver(cfg: Config, s: State, t: State, w: nat)
    requires ValidConfig(cfg) && ParentStep(cfg, s, t) && PassedOver(cfg, s, w)
    ensures PassedOver(cfg, t, w) && NotFreed(s, t, w)
  {
    if s.pc.Polling? { ReadyExactly(cfg, s, w); }
  }

  lemma StaysPassedOver(cfg: Config, s: State, t: State, w: nat)
    requires ValidConfig(cfg) && FaultyStep(cfg, s, t) && PassedOver(cfg, s, w)
    ensures PassedOver(cfg, t, w) && NotFreed(s, t, w)
  {
    if a :| Next(cfg, s, a, t) {
      if a.Parent? { ParentPassesOver(cfg, s, t, w); }
    }
  }

  lemma {:induction false} NeverReached(cfg: Config, run: seq<State>, j: nat, k: nat, w: nat)
    requires IsFaultyRun(cfg, run) && j <= k < |run| && PassedOver(cfg, run[j], w)
    ensures NotFreed(run[j], run[k], w)
    decreases k - j
  {
    if j < k {
      FaultyRunStep(cfg, run, j);
      StaysPassedOver(cfg, run[j], run[j + 1], w);
      NeverReached(cfg, run, j + 1, k, w);
    }
  }

  ghost predicate FaultyExtends(cfg: Config, run: seq<State>, longer: seq<State>) {
    run <= longer && IsFaultyRun(cfg, longer)
  }

  ghost predicate FreesIt(cfg: Config, run: seq<State>, longer: seq<State>, w: nat) {
    FaultyExtends(cfg, run, longer) && w < |Last(longer).slots| && Last(longer).slots[w].status == 0
  }

  /** At the top of the loop of a server that is not being stopped, a worker whose report has
      arrived can be freed in some continuation if and only if its pipe is tested and no dead
      worker whose pipe is tested and drained has a smaller index. */
  lemma FreedIffNotBehind(cfg: Config, run: seq<State>, w: nat)
    requires IsFaultyRun(cfg, run) && Last(run).pc.Selecting? && !Last(run).stop
    requires w < |Last(run).slots| && Last(run).slots[w].up != []
    ensures (exists longer :: FreesIt(cfg, run, longer, w)) <==>
      w < |cfg.pipeFd| && cfg.pipeFd[w] < MaxFdp(cfg.sockFd, cfg.pipeFd)
      && forall i: nat :: i < w ==> !Blocks(cfg, Last(run), i)
  {
    var s, m := Last(run), |run| - 1;
    FaultyRunInv(cfg, run, m);
    assert BackedAt(s.slots, w);
    if CanFree(cfg, s, w) {
      var path := FreeingTurn(cfg, s, w);
      var longer := FaultyRunOn(cfg, run, path);
      assert FreesIt(cfg, run, longer, w);
    } else {
      forall longer ensures !FreesIt(cfg, run, longer, w) {
        if FreesIt(cfg, run, longer, w) {
          OutOfReach(cfg, run, longer, w);
        }
      }
    }
  }

  lemma OutOfReach(cfg: Config, run: seq<State>, longer: seq<State>, w: nat)
    requires IsFaultyRun(cfg, run) && Last(run).pc.Selecting?
    requires FaultyExtends(cfg, run, longer) && w < |Last(run).slots| == |cfg.pipeFd|
    requires Last(run).slots[w].up != [] && !CanFree(cfg, Last(run), w)
    ensures NotFreed(Last(run), Last(longer), w)
  {
    var m := |run| - 1;
    assert longer[m] == Last(run);
    if MaxFdp(cfg.sockFd, cfg.pipeFd) <= cfg.pipeFd[w] {
      NeverReached(cfg, longer, m, |longer| - 1, w);
    } else {
      var i: nat :| i < w && Blocks(cfg, Last(run), i);
      StarvedBehind(cfg, longer, m, |longer| - 1, i, w);
    }
  }

  lemma {:induction false} FaultyRunOn(cfg: Config, run: seq<State>, path: seq<State>) returns (longer: seq<State>)
    requires IsFaultyRun(cfg, run) && IsPath(cfg, path, Last(run))
    ensures FaultyExtends(cfg, run, longer) && Last(longer) == Last(path)
    decreases |path|
  {
    if |path| == 1 {
      longer := run;
    } else {
      assert ParentStep(cfg, path[0], path[0 + 1]);
      assert Next(cfg, Last(run), Parent, path[1]);
      FaultyRunAppend(cfg, run, path[1]);
      PathTail(cfg, path);
      longer := FaultyRunOn(cfg, run + [path[1]], path[1..]);
    }
  }

  lemma FaultyRunAppend(cfg: Config, run: seq<State>, t: State)
    requires IsFaultyRun(cfg, run) && FaultyStep(cfg, Last(run), t)
    ensures IsFaultyRun(cfg, run + [t])
  {
    var longer := run + [t];
    forall k | 0 <= k < |longer| - 1 ensures FaultyStep(cfg, longer[k], longer[k + 1]) {
      if k < |run| - 1 { assert FaultyStep(cfg, run[k], run[k + 1]); }
    }
  }

  /** The busy workers from i on. */
  ghost function BusyFrom(s: State, i: nat): set<nat> {
    set w | i <= w < |s.slots| && s.slots[w].status != 0
  }

  /** What a death costs: with worker i in the way, the permits of all the workers that are busy
      now and have an index of at least i are gone for good. */
  lemma CostOfDeath(cfg: Config, run: seq<State>, j: nat, k: nat, i: nat)
    requires IsFaultyRun(cfg, run) && j <= k < |run| && InTheWay(cfg, run[j], i)
    ensures run[k].avail + |BusyFrom(run[j], i)| <= |cfg.pipeFd|
  {
    FaultyRunInv(cfg, run, j);
    FaultyRunInv(cfg, run, k);
    forall w | w in BusyFrom(run[j], i) ensures w < |run[k].slots| && run[k].slots[w].status != 0 {
      if w == i {
        assert BackedAt(run[j].slots, i) && Lost(run[j], i);
        LostForGood(cfg, run, j, k, i);
      } else {
        StarvedBehind(cfg, run, j, k, i, w);
      }
    }
    LostAreBusy(run[k].slots, BusyFrom(run[j], i));
  }
}
