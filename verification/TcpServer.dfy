/**
 The server core (src/tcp_server_core.c): the descriptor set and its bound, the dispatch loop,
 and the run loop. Every execution, whatever the workers and signals do between two system
 calls, extends a run of the step relation.
 */
module TcpServer {
  import opened Protocol
  import opened Invariant
  import opened Kernel
  import opened WorkerPool
  import opened Shutdown
  import opened Signals

  /** How one turn of the run loop ends. Hung: select does not return, and the system is parked. */
  datatype Outcome = Again | Stopped | Hung

  class Server {
    const sockFd: nat
    const workersN: nat
    var wp: Pool?
    var masterset: set<nat>
    var maxfdp: nat

    /** The end of tcp_server_init. */
    constructor (sockFd: nat, workersN: nat)
      ensures this.sockFd == sockFd && this.workersN == workersN && wp == null
      ensures masterset == {sockFd} && maxfdp == MaxFdp(sockFd, [])
    {
      this.sockFd := sockFd;
      this.workersN := workersN;
      this.wp := null;
      this.masterset := {sockFd};
      this.maxfdp := sockFd + 1;
    }

    ghost predicate Running(world: World)
      reads this, wp, if wp == null then {} else {wp.worker}, world
    {
      && wp != null
      && world.Valid() && world.cfg.sockFd == sockFd
      && masterset == Pipes(world.cfg.pipeFd) + {sockFd}
      && maxfdp == MaxFdp(sockFd, world.cfg.pipeFd)
      && wp.Matches(world.cfg, world.sys)
    }

    /** Forks the workers; `fds` are the descriptors the kernel gives for the parent's ends. */
    method Dispatch(fds: seq<nat>) returns (world: World)
      requires |fds| == workersN && ValidConfig(Config(sockFd, fds))
      requires masterset == {sockFd} && maxfdp == sockFd + 1
      modifies this
      ensures Running(world) && Init(Config(sockFd, fds), world.sys)
      ensures fresh(wp) && fresh(wp.worker) && fresh(world)
    {
      var pool := new Pool(workersN);
      var i := 0;
      while i < workersN
        invariant 0 <= i <= workersN == pool.workersN == pool.availWorkersN && pool.Valid()
        invariant fresh(pool) && fresh(pool.worker)
        invariant masterset == Pipes(fds[..i]) + {sockFd}
        invariant maxfdp == MaxFdp(sockFd, fds[..i])
        invariant forall j :: 0 <= j < workersN ==> pool.worker[j] == Worker(if j < i then fds[j] else 0, 0, 0)
        modifies this, pool.worker
      {
        pool.DispatchWorker(i, fds[i]);
        masterset := masterset + {pool.worker[i].pipefd};
        OneMorePipe(sockFd, fds, i);
        maxfdp := Max(maxfdp, pool.worker[i].pipefd);
        i := i + 1;
      }
      assert fds[..workersN] == fds;
      wp := pool;
      world := new World(Config(sockFd, fds));
    }

    /** select, and the test of the stop flag behind it. */
    method AwaitEvents(world: World) returns (nsel: int, rset: set<nat>, outcome: Outcome)
      requires Running(world) && world.sys.pc.Selecting?
      modifies world
      ensures Running(world) && old(world.run) < world.run
      ensures outcome.Hung? ==> Parked(world.cfg, world.sys)
      ensures outcome.Stopped? ==> world.sys.pc == Stopping(0) && world.sys.stop
      ensures outcome.Again? ==>
        world.sys.pc == if sockFd in rset then Accepting(rset, nsel) else Scanning(0, rset, nsel)
      ensures outcome.Again? && sockFd in rset ==> 0 < wp.availWorkersN
    {
      rset := masterset;
      if wp.availWorkersN <= 0 {
        rset := rset - {sockFd};
      }
      assert rset == WatchSet(world.cfg, world.sys);
      ghost var s0 := world.sys;
      var hung;
      nsel, rset, hung := world.Select(maxfdp, rset);
      MatchesFrame(wp, world.cfg, s0, world.sys);
      if hung { return nsel, rset, Hung; }

      ghost var s1 := world.sys;
      var stop := world.TestStop();
      MatchesFrame(wp, world.cfg, s1, world.sys);
      RunInv(world.cfg, world.run, |world.run| - 1);
      if stop {
        return nsel, {}, Stopped;
      }
      outcome := Again;
    }

    /** accept, the hand-off to a worker, and the parent's own close. */
    method TakeConnection(world: World)
      requires Running(world) && world.sys.pc.Accepting?
      modifies world, wp, wp.worker
      ensures Running(world) && wp == old(wp) && old(world.run) < world.run
      ensures world.sys.pc == Next1(old(world.sys).pc.nsel, 0, old(world.sys).pc.rset)
      ensures world.sys.accepted == old(world.sys).accepted + 1 == |world.sys.route|
      ensures wp.availWorkersN == old(wp.availWorkersN) - 1
    {
      ghost var s0 := world.sys;
      var conn := world.Accept();
      MatchesFrame(wp, world.cfg, s0, world.sys);
      var n := wp.SubmitConn(world, conn);
      RunInv(world.cfg, world.run, |world.run| - 1);
    }

    /** One turn of the endless loop of tcp_server_run. */
    method Turn(world: World) returns (outcome: Outcome)
      requires Running(world) && world.sys.pc.Selecting?
      modifies world, wp, wp.worker
      ensures Running(world) && wp == old(wp) && old(world.run) < world.run
      ensures outcome.Hung? ==> Parked(world.cfg, world.sys)
      ensures outcome.Again? ==> world.sys.pc.Selecting?
      ensures outcome.Stopped? ==> world.sys.pc == Stopping(0) && world.sys.stop
    {
      var nsel, rset;
      nsel, rset, outcome := AwaitEvents(world);
      if !outcome.Again? { return; }
      if sockFd in rset {
        TakeConnection(world);
        nsel := nsel - 1;
        if nsel == 0 {
          return Again;    // all done with select() results
        }
      }
      wp.FindFree(world, nsel, rset);
    }

    /** The run loop, cut off after `turns` turns. Until it is stopped it goes on, unless nothing
        in the whole system can move without a new client or a signal; and if a signal
        has stopped it, it ends, with every connection ever accepted served and closed. */
    method Run(world: World, turns: nat) returns (outcome: Outcome)
      requires Running(world) && world.sys.pc.Starting?
      modifies world, wp, wp.worker
      ensures world.Valid() && old(world.run) < world.run
      ensures outcome.Again? ==> world.sys.pc.Selecting? && |old(world.run)| + turns <= |world.run|
      ensures outcome.Hung? ==> Parked(world.cfg, world.sys)
      ensures outcome.Stopped? ==> Drained(world.sys) && SignalBefore(world.run, |world.run| - 1)
    {
      ghost var s := world.sys;
      world.ClearStop();
      MatchesFrame(wp, world.cfg, s, world.sys);
      outcome := Again;
      for t := 0 to turns
        invariant Running(world) && wp == old(wp) && old(world.run) < world.run
        invariant outcome.Again? && world.sys.pc.Selecting? && |old(world.run)| + t <= |world.run|
      {
        outcome := Turn(world);
        if !outcome.Again? { break; }
      }
      if !outcome.Stopped? { return; }
      wp.Terminate(world);
      RunInv(world.cfg, world.run, |world.run| - 1);
      FinishedIsDrained(world.cfg, world.sys);
      StoppedIffSignalled(world.cfg, world.run, |world.run| - 1);
    }
  }

  lemma OneMorePipe(sockFd: nat, fds: seq<nat>, i: nat)
    requires i < |fds|
    ensures MaxFdp(sockFd, fds[..i + 1]) == Max(MaxFdp(sockFd, fds[..i]), fds[i])
    ensures Pipes(fds[..i + 1]) == Pipes(fds[..i]) + {fds[i]}
  {
    assert fds[..i + 1][..i] == fds[..i];
    assert fds[..i + 1] == fds[..i] + [fds[i]];
  }
}
