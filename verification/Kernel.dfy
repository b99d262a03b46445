/**
 The world around one process: the streams and the other processes, which may take any number
 of steps before each of its system calls. Every method extends the interleaving `run`, so the
 code written against these calls can only produce runs of the step relation.
 */
module Kernel {
  import opened Protocol
  import opened Invariant
  import opened Handoff
  import opened Shutdown

  /** The parent's step for a given outcome of select, or no step if it cannot move. */
  function ParentMove(cfg: Config, s: State, rset: set<nat>, interrupted: bool): (t: State)
    requires |s.slots| == |cfg.pipeFd|
    ensures t == s || ParentStep(cfg, s, t)
  {
    match s.pc
    case Starting => s.(pc := Selecting, stop := false)
    case Selecting => s.(pc := Polling(ReadyPipes(cfg, s), false))
    case Polling(ready, hit) =>
      if interrupted && hit then s.(pc := Selected(WatchSet(cfg, s), -1))
      else if SelectReturns(cfg, s, ready, rset) then s.(pc := Selected(rset, |rset|))
      else s
    case Selected(_, _) => Checked(cfg, s)
    case Accepting(_, _) => AcceptedOne(s)
    case Handing(_, _, _) => Handed(s)
    case Scanning(_, _, _) => if CanScan(cfg, s) then Scanned(cfg, s) else s
    case Stopping(i) => if i < |s.slots| then StopSent(s, i).(pc := Stopping(i + 1)) else s.(pc := Waiting)
    case Waiting => if AllExited(s) then s.(pc := Finished) else s
    case _ => s
  }

  /** What no step of another process changes in the eyes of the parent. */
  ghost predicate ParentSees(s: State, t: State) {
    && SamePc(s.pc, t.pc) && (s.stop ==> t.stop)
    && t.avail == s.avail && t.accepted == s.accepted && t.route == s.route
    && |t.slots| == |s.slots|
    && (forall i :: 0 <= i < |s.slots| ==> SameView(s.slots[i], t.slots[i]))
  }

  /** The signal interrupts select, and otherwise only sets the flag. */
  ghost predicate SamePc(p: ParentPc, q: ParentPc) {
    q == p || (p.Polling? && q == p.(interrupted := true))
  }

  ghost predicate SameView(x: Slot, y: Slot) {
    y.status == x.status && y.count == x.count && y.given == x.given && y.reaped == x.reaped
    && x.up <= y.up
  }

  /** What no step of another process changes in the eyes of worker i. */
  ghost predicate WorkerSees(s: State, t: State, i: nat) {
    && |t.slots| == |s.slots| && i < |s.slots|
    && t.slots[i].pc == s.slots[i].pc
    && t.slots[i].served == s.slots[i].served && t.slots[i].closed == s.slots[i].closed
    && s.slots[i].down <= t.slots[i].down
  }

  ghost predicate Sees(me: Actor, s: State, t: State) {
    match me
    case Parent => ParentSees(s, t)
    case Work(i) => WorkerSees(s, t, i)
    case Interrupt => |t.slots| == |s.slots|
  }

  lemma OtherStep(cfg: Config, me: Actor, s: State, a: Actor, t: State)
    requires |s.slots| == |cfg.pipeFd| && Next(cfg, s, a, t) && a != me
    requires me.Work? ==> me.i < |s.slots|
    ensures Sees(me, s, t)
  {
    match me
    case Parent =>
    case Work(i) => if a.Parent? { ParentLeavesWorker(cfg, s, t, i); }
    case Interrupt => StepEffect(cfg, s, a, t);
  }

  lemma ParentLeavesWorker(cfg: Config, s: State, t: State, i: nat)
    requires |s.slots| == |cfg.pipeFd| && ParentStep(cfg, s, t) && i < |s.slots|
    ensures WorkerSees(s, t, i)
  {
  }

  class World {
    const cfg: Config
    var sys: State
    ghost var run: seq<State>

    ghost predicate Valid()
      reads this
    {
      IsRun(cfg, run) && Last(run) == sys && |sys.slots| == |cfg.pipeFd|
    }

    constructor (cfg: Config)
      requires ValidConfig(cfg)
      ensures Valid() && this.cfg == cfg && Init(cfg, sys)
    {
      this.cfg := cfg;
      sys := InitialState(cfg);
      run := [InitialState(cfg)];
    }

    /** Takes one step of the system. */
    method Advance(a: Actor, t: State)
      requires Valid() && Next(cfg, sys, a, t)
      modifies this
      ensures Valid() && sys == t && run == old(run) + [t]
    {
      StepSlots(cfg, sys, a, t);
      RunAppend(cfg, run, t);
      sys, run := t, run + [t];
    }

    /** One step of some process, chosen by the scheduler; none if the chosen one is blocked. */
    method Schedule(me: Actor, a: Actor, rset: set<nat>, interrupted: bool)
      requires Valid() && a != me && (me.Work? ==> me.i < |sys.slots|)
      modifies this
      ensures Valid() && old(run) <= run && Sees(me, old(sys), sys)
    {
      var t := sys;
      match a {
        case Parent => t := ParentMove(cfg, sys, rset, interrupted);
        case Work(i) =>
          if i < |sys.slots| && !sys.slots[i].pc.Exited? && (sys.slots[i].pc.Reading? ==> sys.slots[i].down != []) {
            t := sys.(slots := sys.slots[i := WorkerMove(sys.slots[i])]);
          }
        case Interrupt => t := Interrupted(sys);
      }
      if t != sys {
        OtherStep(cfg, me, sys, a, t);
        Advance(a, t);
      }
    }

    /** Any number of steps of the other processes, in any order. */
    method Others(me: Actor)
      requires Valid() && (me.Work? ==> me.i < |sys.slots|)
      modifies this
      ensures Valid() && old(run) <= run && Sees(me, old(sys), sys)
    {
      var steps: int := *;
      while 0 < steps
        invariant Valid() && old(run) <= run && Sees(me, old(sys), sys)
      {
        steps := steps - 1;
        var a: Actor, rset: set<nat>, interrupted: bool := *, *, *;
        if a != me { Schedule(me, a, rset, interrupted); }
      }
    }

    // ------------------------------------------------------------ system calls of the parent

    /** `SERVER_STOP = false`: a signal that came before is forgotten. */
    method ClearStop()
      requires Valid() && sys.pc.Starting?
      modifies this
      ensures Valid() && old(run) < run
      ensures ParentSees(old(sys).(pc := Selecting, stop := false), sys) && !sys.stop
    {
      Others(Parent);
      Advance(Parent, sys.(pc := Selecting, stop := false));
    }

    /** The workers go on until none of them can, or the parent's select can return. */
    method Settle()
      requires Valid() && sys.pc.Polling?
      modifies this
      ensures Valid() && old(run) <= run && ParentSees(old(sys), sys)
      ensures sys.pc.interrupted || ReadyPipes(cfg, sys) != {} || AllIdle(sys)
    {
      while !sys.pc.interrupted && ReadyPipes(cfg, sys) == {} && !AllIdle(sys)
        invariant Valid() && old(run) <= run && ParentSees(old(sys), sys) && sys.pc.Polling?
        decreases SumWeight(sys.slots)
      {
        var i: nat :| i < |sys.slots| && !Idle(sys.slots[i]);
        NotExited(cfg, run, i);
        MoveOn(i);
      }
    }

    /** The next step of worker i. */
    method MoveOn(i: nat)
      requires Valid() && i < |sys.slots| && !sys.slots[i].pc.Exited? && !Idle(sys.slots[i])
      modifies this
      ensures Valid() && old(run) < run && sys == old(sys).(slots := sys.slots)
      ensures ParentSees(old(sys), sys) && SumWeight(sys.slots) < SumWeight(old(sys).slots)
    {
      var t := sys.(slots := sys.slots[i := WorkerMove(sys.slots[i])]);
      RunInv(cfg, run, |run| - 1);
      WorkStepShrinks(cfg, sys, i, t);
      OtherStep(cfg, Parent, sys, Work(i), t);
      Advance(Work(i), t);
    }

    /** Hung means that the call does not return without a new client or another signal, because
        all other processes wait, too. */
    method Select(maxfdp: nat, watched: set<nat>) returns (nsel: int, rset: set<nat>, hung: bool)
      requires Valid() && sys.pc.Selecting?
      requires maxfdp == MaxFdp(cfg.sockFd, cfg.pipeFd) && watched == WatchSet(cfg, sys)
      modifies this
      ensures Valid() && old(run) < run
      ensures hung ==> Parked(cfg, sys) && ParentSees(old(sys).(pc := sys.pc), sys)
      ensures !hung ==> ParentSees(old(sys).(pc := Selected(rset, nsel)), sys)
    {
      Others(Parent);
      Advance(Parent, sys.(pc := Polling(ReadyPipes(cfg, sys), false)));
      Others(Parent);
      nsel, rset, hung := Poll();
    }

    /** Within select. */
    method Poll() returns (nsel: int, rset: set<nat>, hung: bool)
      requires Valid() && sys.pc.Polling?
      modifies this
      ensures Valid() && old(run) <= run
      ensures hung ==> Parked(cfg, sys) && ParentSees(old(sys), sys)
      ensures !hung ==> ParentSees(old(sys).(pc := Selected(rset, nsel)), sys)
    {
      var found: set<nat>, interrupted: bool := *, *;
      var t := ParentMove(cfg, sys, found, interrupted);
      if t == sys {
        Settle();
        RunInv(cfg, run, |run| - 1);
        if ReadyPipes(cfg, sys) != {} { StillReady(cfg, sys); }
        t := ParentMove(cfg, sys, ReadyPipes(cfg, sys), true);
      }
      hung, nsel, rset := true, -1, {};
      if t != sys {
        hung, nsel, rset := false, t.pc.nsel, t.pc.rset;
        Advance(Parent, t);
      }
    }

    method TestStop() returns (stop: bool)
      requires Valid() && sys.pc.Selected?
      modifies this
      ensures Valid() && old(run) < run && stop == sys.stop
      ensures var old_ := old(sys);
        ParentSees(old_.(pc := if stop then Stopping(0)
                               else if cfg.sockFd in old_.pc.rset then Accepting(old_.pc.rset, old_.pc.nsel)
                               else Scanning(0, old_.pc.rset, old_.pc.nsel)), sys)
    {
      Others(Parent);
      stop := sys.stop;
      Advance(Parent, Checked(cfg, sys));
    }

    method Accept() returns (conn: int)
      requires Valid() && sys.pc.Accepting?
      modifies this
      ensures Valid() && old(run) < run && conn == old(sys).accepted
      ensures ParentSees(AcceptedOne(old(sys)), sys)
    {
      Others(Parent);
      conn := sys.accepted;
      Advance(Parent, AcceptedOne(sys));
    }

    /** `ipc_fd_write` on the pipe of worker i. In the step relation the hand-off is one step
        together with the parent's bookkeeping, and picks the first free worker. */
    method SendConn(i: nat, cmd: char, conn: int) returns (n: int)
      requires Valid() && sys.pc.Handing? && sys.pc.conn == conn && cmd == 'p'
      requires i < |sys.slots| && i == FirstFree(sys.slots)
      modifies this
      ensures Valid() && old(run) < run && n == 1
      ensures ParentSees(Handed(old(sys)), sys)
    {
      Others(Parent);
      FirstFreeFrame(old(sys).slots, sys.slots, 0);
      Advance(Parent, Handed(sys));
      n := 1;
    }

    /** One-byte read from the pipe of worker i: 0 when the worker is gone and nothing is left. */
    method ReadReport(i: nat) returns (n: int, rc: char)
      requires Valid() && sys.pc.Scanning? && i == sys.pc.i < |sys.slots| && cfg.pipeFd[i] in sys.pc.rset
      requires sys.slots[i].up != []
      modifies this
      ensures Valid() && old(run) < run && n == 1 && rc == old(sys).slots[i].up[0]
      ensures |sys.slots| == |old(sys).slots|
      ensures sys.pc == Next1(old(sys).pc.nsel, i + 1, old(sys).pc.rset)
      ensures sys.avail == old(sys).avail + 1 && sys.slots[i].status == 0 && sys.slots[i].count == old(sys).slots[i].count
      ensures forall j :: 0 <= j < |sys.slots| && j != i ==> SameView(old(sys).slots[j], sys.slots[j])
    {
      Others(Parent);
      assert SameView(old(sys).slots[i], sys.slots[i]);
      n, rc := 1, sys.slots[i].up[0];
      Advance(Parent, Scanned(cfg, sys));
    }

    /** The loop of find_free passing over a worker that is not in the set. */
    method PassOver()
      requires Valid() && sys.pc.Scanning? && sys.pc.i < |sys.slots| && cfg.pipeFd[sys.pc.i] !in sys.pc.rset
      modifies this
      ensures Valid() && old(run) < run
      ensures sys == old(sys).(pc := Scanning(old(sys).pc.i + 1, old(sys).pc.rset, old(sys).pc.nsel))
    {
      Advance(Parent, Scanned(cfg, sys));
    }

    /** `write(pipefd, "s", 1)`. */
    method SendStop(i: nat)
      requires Valid() && sys.pc == Stopping(i) && i < |sys.slots|
      modifies this
      ensures Valid() && old(run) < run && StopWasSent(run, |old(run)|, i)
      ensures ParentSees(old(sys).(pc := Stopping(i + 1)), sys)
    {
      Others(Parent);
      ghost var before := run;
      Advance(Parent, StopSent(sys, i).(pc := Stopping(i + 1)));
      StopIsInRun(before, Last(before), sys, |old(run)|, i);
    }

    /** `while (wait(NULL) > 0)`: it returns when all workers have ended, and they do. */
    method WaitAll()
      requires Valid() && sys.pc == Stopping(|sys.slots|)
      modifies this
      ensures Valid() && old(run) < run
      ensures sys.pc.Finished? && AllExited(sys)
    {
      Advance(Parent, sys.(pc := Waiting));
      Others(Parent);
      while !AllExited(sys)
        invariant Valid() && old(run) < run && sys.pc.Waiting?
        decreases SumWeight(sys.slots)
      {
        var i: nat :| i < |sys.slots| && !sys.slots[i].pc.Exited?;
        NotIdle(cfg, run, i);
        MoveOn(i);
      }
      Advance(Parent, sys.(pc := Finished));
    }

    // ------------------------------------------------------------ system calls of worker i

    /** A one-byte `ipc_fd_read`; hung means that there is nothing to read. */
    method Recv(i: nat) returns (n: int, cmd: char, conn: int, hung: bool)
      requires Valid() && i < |sys.slots| && sys.slots[i].pc.Reading?
      modifies this
      ensures Valid() && old(run) <= run && |sys.slots| == |old(sys).slots|
      ensures hung ==> Idle(sys.slots[i])
      ensures !hung ==> n == 1 && (cmd == 's' || 0 <= conn)
      ensures !hung ==>
        sys.slots[i].pc == (if cmd == 's' then Exited else if conn < 0 then Reading else Serving(conn))
      ensures old(sys).slots[i].down != [] ==> !hung && Message(cmd, conn) == old(sys).slots[i].down[0]
      ensures sys.slots[i].served == old(sys).slots[i].served && sys.slots[i].closed == old(sys).slots[i].closed
    {
      Others(Work(i));
      hung, n, cmd, conn := sys.slots[i].down == [], 1, '\0', NO_CONN;
      if !hung {
        cmd, conn := sys.slots[i].down[0].cmd, sys.slots[i].down[0].conn;
        NoSilentSkip(cfg, run, |run| - 1, i);
        Advance(Work(i), sys.(slots := sys.slots[i := Received(sys.slots[i])]));
      }
    }

    method Callback(i: nat, conn: int)
      requires Valid() && i < |sys.slots| && sys.slots[i].pc == Serving(conn)
      modifies this
      ensures Valid() && old(run) < run && |sys.slots| == |old(sys).slots|
      ensures sys.slots[i].pc == Closing(conn) && sys.slots[i].served == old(sys).slots[i].served + [conn]
      ensures sys.slots[i].closed == old(sys).slots[i].closed
    {
      Others(Work(i));
      Advance(Work(i), sys.(slots := sys.slots[i := WorkerMove(sys.slots[i])]));
    }

    method CloseConn(i: nat, conn: int)
      requires Valid() && i < |sys.slots| && sys.slots[i].pc == Closing(conn)
      modifies this
      ensures Valid() && old(run) < run && |sys.slots| == |old(sys).slots|
      ensures sys.slots[i].pc == Reporting && sys.slots[i].served == old(sys).slots[i].served
      ensures sys.slots[i].closed == old(sys).slots[i].closed + [conn]
    {
      Others(Work(i));
      Advance(Work(i), sys.(slots := sys.slots[i := WorkerMove(sys.slots[i])]));
    }

    method Report(i: nat, byte: char)
      requires Valid() && i < |sys.slots| && sys.slots[i].pc == Reporting && byte == 'd'
      modifies this
      ensures Valid() && old(run) < run && |sys.slots| == |old(sys).slots|
      ensures sys.slots[i].pc == Reading && 'd' in sys.slots[i].up
      ensures sys.slots[i].served == old(sys).slots[i].served && sys.slots[i].closed == old(sys).slots[i].closed
    {
      Others(Work(i));
      Advance(Work(i), sys.(slots := sys.slots[i := WorkerMove(sys.slots[i])]));
    }
  }

  /** The parent's write of a stop to worker i is in this part of the run. */
  ghost predicate StopWasSent(run: seq<State>, from: nat, i: nat) {
    exists k :: SendsStop(run, from, k, i)
  }

  ghost predicate SendsStop(run: seq<State>, from: nat, k: nat, i: nat) {
    && 1 <= k && from <= k < |run| && i < |run[k - 1].slots| && i < |run[k].slots|
    && run[k].slots[i].down == run[k - 1].slots[i].down + [STOP]
  }

  lemma StopIsInRun(before: seq<State>, s: State, t: State, from: nat, i: nat)
    requires before != [] && s == Last(before) && from <= |before| && i < |s.slots|
    requires t == StopSent(s, i).(pc := t.pc)
    ensures StopWasSent(before + [t], from, i)
  {
    assert SendsStop(before + [t], from, |before|, i);
  }

  lemma NotExited(cfg: Config, run: seq<State>, i: nat)
    requires IsRun(cfg, run) && Last(run).pc.Polling? && i < |Last(run).slots|
    ensures !Last(run).slots[i].pc.Exited?
  {
    RunInv(cfg, run, |run| - 1);
    assert SlotOk(Last(run).slots, i, 0);
  }

  lemma NotIdle(cfg: Config, run: seq<State>, i: nat)
    requires IsRun(cfg, run) && Last(run).pc.Waiting? && i < |Last(run).slots|
    ensures !Last(run).slots[i].pc.Exited? ==> !Idle(Last(run).slots[i])
  {
    RunInv(cfg, run, |run| - 1);
    assert SlotOk(Last(run).slots, i, |Last(run).slots|);
  }

  lemma StepSlots(cfg: Config, s: State, a: Actor, t: State)
    requires |s.slots| == |cfg.pipeFd| && Next(cfg, s, a, t)
    ensures |t.slots| == |s.slots|
  {
    StepEffect(cfg, s, a, t);
  }

  lemma {:induction false} FirstFreeFrame(a: seq<Slot>, b: seq<Slot>, from: nat)
    requires |a| == |b| && from <= |a|
    requires forall i :: 0 <= i < |a| ==> SameView(a[i], b[i])
    ensures FirstFree(a, from) == FirstFree(b, from)
    decreases |a| - from
  {
    if from < |a| {
      assert SameView(a[from], b[from]);
      FirstFreeFrame(a, b, from + 1);
    }
  }
}
