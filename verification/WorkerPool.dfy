/**
 The worker pool (src/worker_pool.c): the parent's array of worker records with its loops, and
 the loop body of a worker. Both run against `Kernel.World`, in which the other processes move.
 */
module WorkerPool {
  import opened Protocol
  import opened Invariant
  import opened Handoff
  import opened Kernel
  import opened Shutdown

  datatype Worker = Worker(pipefd: nat, status: int, count: int)

  /** What find_free does to one record when the pipe is in the set. */
  function Freed(w: Worker, rset: set<nat>): Worker {
    if w.pipefd in rset then w.(status := 0) else w
  }

  class Pool {
    var workersN: nat
    var availWorkersN: int
    const worker: array<Worker>

    ghost predicate Valid()
      reads this
    {
      worker.Length == workersN
    }

    /** The parent's fields hold what the step relation says the parent believes. */
    ghost predicate Matches(cfg: Config, s: State)
      reads this, worker
    {
      && Valid()
      && |s.slots| == |cfg.pipeFd| == workersN
      && availWorkersN == s.avail
      && forall i :: 0 <= i < workersN ==> worker[i] == Worker(cfg.pipeFd[i], s.slots[i].status, s.slots[i].count)
    }

    /** The allocator zeroes what it returns. */
    constructor (workersN: nat)
      ensures Valid() && this.workersN == workersN && availWorkersN == workersN
      ensures forall i :: 0 <= i < workersN ==> worker[i] == Worker(0, 0, 0)
      ensures fresh(worker)
    {
      this.workersN := workersN;
      this.availWorkersN := workersN;
      this.worker := new Worker[workersN](_ => Worker(0, 0, 0));
    }

    /** The parent's half of dispatch_worker; the descriptor is the kernel's choice. */
    method DispatchWorker(workerId: nat, pipefd: nat)
      requires Valid() && workerId < workersN
      modifies worker
      ensures worker[workerId] == old(worker[workerId]).(pipefd := pipefd, status := 0)
      ensures forall j :: 0 <= j < workersN && j != workerId ==> worker[j] == old(worker[j])
    {
      worker[workerId] := worker[workerId].(pipefd := pipefd);
      worker[workerId] := worker[workerId].(status := 0);
    }

    /** Hands the connection to the first free worker, and to no other; the loop never runs
        off the end, whatever the workers do meanwhile. */
    method SubmitConn(world: World, conn: int) returns (n: int)
      requires world.Valid() && Matches(world.cfg, world.sys)
      requires world.sys.pc.Handing? && world.sys.pc.conn == conn
      modifies this, worker, world
      ensures world.Valid() && old(world.run) < world.run && Matches(world.cfg, world.sys)
      ensures ParentSees(Handed(old(world.sys)), world.sys)
      ensures workersN == old(workersN) && availWorkersN == old(availWorkersN) - 1 && n == 1
      ensures exists i :: 0 <= i < workersN && IsFirstFree(old(worker[..]), i) && Took(old(worker[..]), worker[..], i)
    {
      AvailableIsExact(world.cfg, world.run, |world.run| - 1);
      ghost var before := worker[..];
      var i := 0;
      while i < workersN
        invariant 0 <= i <= workersN == worker.Length
        invariant forall j :: 0 <= j < i ==> worker[j].status != 0
      {
        if worker[i].status == 0 { break; }
        i := i + 1;
      }
      FirstFreeAt(world.sys.slots, i, 0);

      worker[i] := worker[i].(status := 1);
      worker[i] := worker[i].(count := worker[i].count + 1);
      availWorkersN := availWorkersN - 1;
      n := world.SendConn(i, 'p', conn);
      assert IsFirstFree(before, i) && Took(before, worker[..], i);
      assert forall j :: 0 <= j < workersN ==> SameView(Handed(old(world.sys)).slots[j], world.sys.slots[j]);
    }

    /** The body of the loop of find_free for a worker whose pipe is in the set: one byte is
        read, and unless the stream has ended the worker is free. */
    method TakeReport(world: World, i: nat) returns (n: int)
      requires world.Valid() && Matches(world.cfg, world.sys)
      requires world.sys.pc.Scanning? && i == world.sys.pc.i < workersN && worker[i].pipefd in world.sys.pc.rset
      modifies this, worker, world
      ensures world.Valid() && old(world.run) < world.run && Matches(world.cfg, world.sys)
      ensures world.sys.pc == Next1(old(world.sys).pc.nsel, i + 1, old(world.sys).pc.rset)
      ensures n == 1 && workersN == old(workersN) && availWorkersN == old(availWorkersN) + 1
      ensures worker[..] == old(worker[..])[i := old(worker[i]).(status := 0)]
    {
      NoSilentSkip(world.cfg, world.run, |world.run| - 1, i);
      ghost var before := world.sys;
      var rc;
      n, rc := world.ReadReport(i);
      if n == 0 { return; }
      worker[i] := worker[i].(status := 0);
      availWorkersN := availWorkersN + 1;
      assert forall j :: 0 <= j < workersN && j != i ==> SameView(before.slots[j], world.sys.slots[j]);
    }

    /** Takes every report that select found, and nothing else. Leaving the loop as soon as
        nsel descriptors were seen loses none of them. */
    method FindFree(world: World, nsel: int, rset: set<nat>)
      requires world.Valid() && Matches(world.cfg, world.sys)
      requires world.sys.pc == Scanning(0, rset, nsel)
      modifies this, worker, world
      ensures world.Valid() && old(world.run) <= world.run && Matches(world.cfg, world.sys)
      ensures world.sys.pc.Selecting?
      ensures workersN == old(workersN) && availWorkersN == old(availWorkersN) + nsel
      ensures forall j :: 0 <= j < workersN ==> worker[j] == Freed(old(worker[j]), rset)
      ensures nsel == CountIn(world.cfg.pipeFd, rset, 0)
    {
      ScanStarts(world.cfg, world.run, rset, nsel);
      ghost var before := worker[..];
      var i, left := 0, nsel;
      while i < workersN
        invariant 0 <= i <= workersN == |before| == old(workersN)
        invariant world.Valid() && old(world.run) <= world.run && Matches(world.cfg, world.sys)
        invariant world.sys.pc == Scanning(i, rset, left)
        invariant 1 <= left == CountIn(world.cfg.pipeFd, rset, i)
        invariant availWorkersN - old(availWorkersN) == nsel - left
        invariant FreedUpTo(before, worker[..], rset, i)
      {
        assert worker[i].pipefd == world.cfg.pipeFd[i];
        ghost var soFar := worker[..];
        if worker[i].pipefd in rset {
          var n := TakeReport(world, i);
          if n == 0 { break; }
          FreedNext(before, soFar, worker[..], rset, i);
          left := left - 1;
          if left == 0 {
            NoneFurther(world.cfg.pipeFd, rset, i + 1);
            break;
          }
        } else {
          FreedNext(before, soFar, soFar, rset, i);
          world.PassOver();
        }
        i := i + 1;
      }
      assert forall j :: 0 <= j < workersN ==> worker[j].pipefd == world.cfg.pipeFd[j];
      assert FreedUpTo(before, worker[..], rset, workersN);
    }

    /** Sends every worker a stop and waits for them all, which takes finitely many steps. */
    method Terminate(world: World)
      requires world.Valid() && Matches(world.cfg, world.sys) && world.sys.pc == Stopping(0)
      modifies world
      ensures world.Valid() && old(world.run) < world.run
      ensures world.sys.pc.Finished? && AllExited(world.sys)
      ensures AllStopsSent(world.run, |old(world.run)|, workersN)
    {
      for i := 0 to workersN
        invariant world.Valid() && old(world.run) <= world.run && Matches(world.cfg, world.sys)
        invariant world.sys.pc == Stopping(i)
        invariant AllStopsSent(world.run, |old(world.run)|, i)
      {
        ghost var s, before := world.sys, world.run;
        world.SendStop(i);
        MatchesFrame(this, world.cfg, s, world.sys);
        StopsGrow(before, world.run, |old(world.run)|, i);
      }
      ghost var before := world.run;
      world.WaitAll();
      StopsStaySent(before, world.run, |old(world.run)|, workersN);
    }
  }

  ghost predicate FreedUpTo(before: seq<Worker>, after: seq<Worker>, rset: set<nat>, i: nat) {
    |after| == |before| &&
    forall j :: 0 <= j < |after| ==> after[j] == if j < i then Freed(before[j], rset) else before[j]
  }

  /** The number find_free is called with is the number of pipes in the set, and not 0. */
  lemma ScanStarts(cfg: Config, run: seq<State>, rset: set<nat>, nsel: int)
    requires IsRun(cfg, run) && Last(run).pc == Scanning(0, rset, nsel)
    ensures 1 <= nsel == CountIn(cfg.pipeFd, rset, 0)
  {
    RunInv(cfg, run, |run| - 1);
  }

  lemma FreedNext(before: seq<Worker>, soFar: seq<Worker>, after: seq<Worker>, rset: set<nat>, i: nat)
    requires FreedUpTo(before, soFar, rset, i) && i < |soFar|
    requires after == if soFar[i].pipefd in rset then soFar[i := soFar[i].(status := 0)] else soFar
    ensures FreedUpTo(before, after, rset, i + 1)
  {
  }

  /** A step that the parent does not see leaves its fields right. */
  lemma MatchesFrame(pool: Pool, cfg: Config, s: State, t: State)
    requires pool.Matches(cfg, s)
    requires |t.slots| == |s.slots| && t.avail == s.avail
    requires forall i :: 0 <= i < |s.slots| ==> SameView(s.slots[i], t.slots[i])
    ensures pool.Matches(cfg, t)
  {
    forall i | 0 <= i < pool.workersN
      ensures pool.worker[i] == Worker(cfg.pipeFd[i], t.slots[i].status, t.slots[i].count)
    {
      assert SameView(s.slots[i], t.slots[i]);
    }
  }

  /** The first n workers were sent a stop in this part of the run. */
  ghost predicate AllStopsSent(run: seq<State>, from: nat, n: nat) {
    forall j: nat :: j < n ==> StopWasSent(run, from, j)
  }

  lemma StopsStaySent(run: seq<State>, longer: seq<State>, from: nat, n: nat)
    requires run <= longer && AllStopsSent(run, from, n)
    ensures AllStopsSent(longer, from, n)
  {
    forall j: nat | j < n ensures StopWasSent(longer, from, j) {
      assert StopWasSent(run, from, j);
      var k: nat :| SendsStop(run, from, k, j);
      assert longer[k] == run[k] && longer[k - 1] == run[k - 1];
      assert SendsStop(longer, from, k, j);
    }
  }

  lemma StopsGrow(run: seq<State>, longer: seq<State>, from: nat, n: nat)
    requires from <= |run| && run <= longer && AllStopsSent(run, from, n) && StopWasSent(longer, |run|, n)
    ensures AllStopsSent(longer, from, n + 1)
  {
    StopsStaySent(run, longer, from, n);
    var k: nat :| SendsStop(longer, |run|, k, n);
    assert SendsStop(longer, from, k, n);
    forall j: nat | j < n + 1 ensures StopWasSent(longer, from, j) {
      assert j < n ==> StopWasSent(longer, from, j);
    }
  }

  ghost predicate IsFirstFree(w: seq<Worker>, i: nat) {
    i < |w| && w[i].status == 0 && forall j :: 0 <= j < i ==> w[j].status != 0
  }

  ghost predicate Took(before: seq<Worker>, after: seq<Worker>, i: nat) {
    i < |before| && after == before[i := before[i].(status := 1, count := before[i].count + 1)]
  }

  lemma {:induction false} FirstFreeAt(slots: seq<Slot>, i: nat, from: nat)
    requires from <= i <= |slots| && (i < |slots| ==> slots[i].status == 0)
    requires forall j :: from <= j < i ==> slots[j].status != 0
    ensures FirstFree(slots, from) == i
    decreases i - from
  {
    if from < i { FirstFreeAt(slots, i, from + 1); }
  }

  lemma {:induction false} NoneFurther(fds: seq<nat>, rset: set<nat>, from: nat)
    requires from <= |fds| && CountIn(fds, rset, from) == 0
    ensures forall j :: from <= j < |fds| ==> fds[j] !in rset
    decreases |fds| - from
  {
    if from < |fds| { NoneFurther(fds, rset, from + 1); }
  }

  /** One turn of the endless loop of worker i. If there is something to read it takes that: it
      leaves the loop on a stop, and otherwise serves and closes exactly the connection that
      it was passed before it reports and reads again. */
  method WorkerTurn(world: World, i: nat) returns (exit: bool, hung: bool)
    requires world.Valid() && i < |world.sys.slots| && world.sys.slots[i].pc.Reading?
    modifies world
    ensures world.Valid() && old(world.run) <= world.run && |world.sys.slots| == |old(world.sys).slots|
    ensures var x, y := old(world.sys).slots[i], world.sys.slots[i];
      if hung then Idle(y) && y.served == x.served && y.closed == x.closed && x.down == []
      else if exit then y.pc.Exited? && y.served == x.served && y.closed == x.closed
      else y.pc.Reading? && 'd' in y.up
           && exists c :: 0 <= c && y.served == x.served + [c] && y.closed == x.closed + [c]
    ensures var x, y := old(world.sys).slots[i], world.sys.slots[i];
      x.down != [] ==> !hung && (exit <==> x.down[0].cmd == 's') && (!exit ==> y.served == x.served + [x.down[0].conn])
  {
    var n, cmd, conn;
    n, cmd, conn, hung := world.Recv(i);
    exit := false;
    if hung { return; }
    if n == 0 { return true, false; }
    if cmd == 's' { return true, false; }
    if conn < 0 {
      return;
    } else {
      world.Callback(i, conn);
      world.CloseConn(i, conn);
    }
    world.Report(i, 'd');
  }
}
