/**
 The inductive invariant of the dispatch protocol: what holds between the parent's private
 counters, the contents of all streams and the program counters of all processes.
 */
module Invariant {
  import opened Protocol

  /** How many workers the parent takes to be free. */
  function CountFree(slots: seq<Slot>): (n: nat)
    ensures n <= |slots|
  {
    if slots == [] then 0
    else CountFree(slots[..|slots| - 1]) + (if slots[|slots| - 1].status == 0 then 1 else 0)
  }

  /** How many of the pipes from index `from` on are in a select result. */
  function CountIn(fds: seq<nat>, rset: set<nat>, from: nat): nat
    requires from <= |fds|
    decreases |fds| - from
  {
    if from == |fds| then 0
    else (if fds[from] in rset then 1 else 0) + CountIn(fds, rset, from + 1)
  }

  /** The connections handed to worker i, oldest first. */
  function Assigned(route: seq<nat>, i: nat): seq<int> {
    if route == [] then []
    else
      var m := |route| - 1;
      Assigned(route[..m], i) + (if route[m] == i then [m] else [])
  }

  /** How many workers were sent a stop; they are the first ones. */
  function Stops(s: State): nat {
    match s.pc
    case Stopping(k) => k
    case Waiting => |s.slots|
    case Finished => |s.slots|
    case _ => 0
  }

  /** The job at the head of the stream to a worker, if there is one. */
  function Queued(x: Slot): seq<int> {
    if x.down != [] && x.down[0].cmd == 'p' then [x.down[0].conn] else []
  }

  function Unserved(pc: WorkerPc): seq<int> {
    match pc case Serving(c) => [c] case _ => []
  }

  function Unclosed(pc: WorkerPc): seq<int> {
    match pc case Closing(c) => [c] case _ => []
  }

  predicate InProgress(pc: WorkerPc) {
    pc.Serving? || pc.Closing? || pc.Reporting?
  }

  /** The stream to a worker holds at most one job, and behind it the stop, if that was sent
      and not yet read. */
  ghost predicate DownIs(x: Slot, stopped: bool) {
    var tail := if stopped && !x.pc.Exited? then [STOP] else [];
    x.down == tail
    || (x.down != [] && 0 <= x.down[0].conn && x.down == [Message('p', x.down[0].conn)] + tail)
  }

  ghost predicate SlotInv(x: Slot, stopped: bool) {
    && x.count == |x.given| == x.reaped + x.status
    && x.status == |Queued(x)| + (if InProgress(x.pc) then 1 else 0) + |x.up| <= 1
    && (x.up == [] || x.up == ['d'])
    && DownIs(x, stopped)
    && (x.pc.Exited? ==> stopped && x.down == [])
    && x.given == x.served + Unserved(x.pc) + Queued(x)
    && x.served == x.closed + Unclosed(x.pc)
  }

  /** The part of a select result that is still to be dealt with from worker `from` on: every
      pipe in it holds a report, and none is at or above maxfdp. */
  ghost predicate Reports(cfg: Config, s: State, rset: set<nat>, from: nat)
    requires |s.slots| == |cfg.pipeFd|
  {
    && (forall fd :: fd in rset ==> fd < MaxFdp(cfg.sockFd, cfg.pipeFd))
    && (forall j :: from <= j < |s.slots| && cfg.pipeFd[j] in rset ==> s.slots[j].up != [])
  }

  ghost predicate ParentInv(cfg: Config, s: State)
    requires |s.slots| == |cfg.pipeFd|
  {
    match s.pc
    case Starting => s.accepted == 0
    case Selecting => true
    case Polling(ready, interrupted) => ready <= ReadyPipes(cfg, s) && (interrupted ==> s.stop)
    case Selected(rset, nsel) =>
      s.stop ||
      (&& Reports(cfg, s, rset, 0)
       && 1 <= nsel == CountIn(cfg.pipeFd, rset, 0) + (if cfg.sockFd in rset then 1 else 0)
       && (cfg.sockFd in rset ==> 0 < s.avail))
    case Accepting(rset, nsel) =>
      && Reports(cfg, s, rset, 0)
      && nsel == CountIn(cfg.pipeFd, rset, 0) + 1
      && 0 < s.avail
    case Handing(conn, rset, nsel) =>
      && Reports(cfg, s, rset, 0)
      && nsel == CountIn(cfg.pipeFd, rset, 0) + 1
      && 0 < s.avail
      && conn == |s.route|
    case Scanning(i, rset, nsel) =>
      && i <= |s.slots|
      && Reports(cfg, s, rset, i)
      && 1 <= nsel == CountIn(cfg.pipeFd, rset, i)
    case Stopping(i) => s.stop && i <= |s.slots|
    case Waiting => s.stop
    case Finished => s.stop && AllExited(s)
    case OutOfBounds => false
  }

  // The invariants of slot i are named, so that a proof unfolds them only where it names them.

  ghost predicate SlotOk(slots: seq<Slot>, i: nat, stops: nat) {
    i < |slots| ==> SlotInv(slots[i], i < stops)
  }

  ghost predicate GivenOk(slots: seq<Slot>, i: nat, route: seq<nat>) {
    i < |slots| ==> slots[i].given == Assigned(route, i)
  }

  ghost predicate SlotsInv(slots: seq<Slot>, stops: nat) {
    forall i :: SlotOk(slots, i, stops)
  }

  ghost predicate RouteInv(slots: seq<Slot>, route: seq<nat>) {
    && (forall c :: 0 <= c < |route| ==> route[c] < |slots|)
    && (forall i :: GivenOk(slots, i, route))
  }

  ghost predicate Inv(cfg: Config, s: State) {
    && ValidConfig(cfg)
    && |s.slots| == |cfg.pipeFd|
    && s.avail == CountFree(s.slots)
    && s.accepted == |s.route| + (if s.pc.Handing? then 1 else 0)
    && RouteInv(s.slots, s.route)
    && SlotsInv(s.slots, Stops(s))
    && ParentInv(cfg, s)
  }

  // ---------------------------------------------------------------- counting

  lemma {:induction false} CountFreeUpdate(slots: seq<Slot>, i: nat, y: Slot)
    requires i < |slots|
    ensures CountFree(slots[i := y]) + (if slots[i].status == 0 then 1 else 0)
         == CountFree(slots) + (if y.status == 0 then 1 else 0)
  {
    var m := |slots| - 1;
    if i == m {
      assert slots[i := y][..m] == slots[..m];
    } else {
      assert slots[i := y][..m] == slots[..m][i := y];
      CountFreeUpdate(slots[..m], i, y);
    }
  }

  lemma {:induction false} CountFreeZero(slots: seq<Slot>)
    ensures CountFree(slots) == 0 <==> FirstFree(slots) == |slots|
  {
    if slots != [] {
      var m := |slots| - 1;
      CountFreeZero(slots[..m]);
      var i, j := FirstFree(slots), FirstFree(slots[..m]);
      if j < m { assert slots[j].status == 0; }
      if i < m { assert slots[..m][i].status == 0; }
    }
  }

  lemma {:induction false} CountFreeAll(slots: seq<Slot>)
    requires forall i :: 0 <= i < |slots| ==> slots[i].status == 0
    ensures CountFree(slots) == |slots|
  {
    if slots != [] { CountFreeAll(slots[..|slots| - 1]); }
  }

  /** The number select returns is the number of descriptors left in the set. */
  lemma {:induction false} SelectCount(fds: seq<nat>, rset: set<nat>, from: nat)
    requires from <= |fds| && forall i, j :: from <= i < j < |fds| ==> fds[i] != fds[j]
    requires forall fd :: fd in rset ==> fd in fds[from..]
    ensures |rset| == CountIn(fds, rset, from)
    decreases |fds| - from
  {
    if from < |fds| {
      var fd, rest := fds[from], rset - {fds[from]};
      assert fds[from..] == [fd] + fds[from + 1..];
      SelectCount(fds, rest, from + 1);
      CountInFrame(fds, rset, rest, from + 1);
      if fd in rset { assert rset == rest + {fd}; } else { assert rset == rest; }
    } else {
      assert fds[from..] == [];
    }
  }

  lemma {:induction false} CountInFrame(fds: seq<nat>, a: set<nat>, b: set<nat>, from: nat)
    requires from <= |fds|
    requires forall j :: from <= j < |fds| ==> (fds[j] in a <==> fds[j] in b)
    ensures CountIn(fds, a, from) == CountIn(fds, b, from)
    decreases |fds| - from
  {
    if from < |fds| { CountInFrame(fds, a, b, from + 1); }
  }

  lemma AssignedAppend(route: seq<nat>, w: nat, i: nat)
    ensures Assigned(route + [w], i) == Assigned(route, i) + (if w == i then [|route|] else [])
  {
    assert (route + [w])[..|route|] == route;
  }

  lemma {:induction false} MaxFdpIsMax(sockFd: nat, pipeFd: seq<nat>)
    ensures sockFd + 1 <= MaxFdp(sockFd, pipeFd)
    ensures forall i :: 0 <= i < |pipeFd| ==> pipeFd[i] <= MaxFdp(sockFd, pipeFd)
    ensures MaxFdp(sockFd, pipeFd) == sockFd + 1 || MaxFdp(sockFd, pipeFd) in pipeFd
  {
    if pipeFd != [] { MaxFdpIsMax(sockFd, pipeFd[..|pipeFd| - 1]); }
  }

  // ---------------------------------------------------------------- preservation

  lemma InitInv(cfg: Config, s: State)
    requires ValidConfig(cfg) && Init(cfg, s)
    ensures Inv(cfg, s)
  {
    CountFreeAll(s.slots);
  }

  lemma WithAndWithout(rset: set<nat>, fd: nat)
    ensures |rset| == |rset - {fd}| + (if fd in rset then 1 else 0)
  {
    if fd in rset { assert rset == rset - {fd} + {fd}; } else { assert rset == rset - {fd}; }
  }

  lemma SelectedCount(cfg: Config, rset: set<nat>)
    requires ValidConfig(cfg)
    requires forall fd :: fd in rset ==> fd == cfg.sockFd || fd in cfg.pipeFd
    ensures |rset| == CountIn(cfg.pipeFd, rset, 0) + (if cfg.sockFd in rset then 1 else 0)
  {
    var pipes := rset - {cfg.sockFd};
    assert cfg.pipeFd[0..] == cfg.pipeFd;
    SelectCount(cfg.pipeFd, pipes, 0);
    CountInFrame(cfg.pipeFd, rset, pipes, 0);
    WithAndWithout(rset, cfg.sockFd);
  }

  lemma SelectedReport(cfg: Config, s: State, ready: set<nat>, rset: set<nat>, j: nat)
    requires Inv(cfg, s) && s.pc.Polling? && SelectReturns(cfg, s, ready, rset)
    requires j < |s.slots| && cfg.pipeFd[j] in rset
    ensures s.slots[j].up != []
  {
    var i :| 0 <= i < |s.slots| && cfg.pipeFd[i] == cfg.pipeFd[j] && PipeReady(s.slots[i]);
    assert i == j;
    assert SlotOk(s.slots, j, 0);
  }

  lemma SelectInv(cfg: Config, s: State, ready: set<nat>, rset: set<nat>)
    requires Inv(cfg, s) && s.pc.Polling? && SelectReturns(cfg, s, ready, rset)
    ensures Inv(cfg, s.(pc := Selected(rset, |rset|)))
  {
    SelectedCount(cfg, rset);
    MaxFdpIsMax(cfg.sockFd, cfg.pipeFd);
    forall j | 0 <= j < |s.slots| && cfg.pipeFd[j] in rset ensures s.slots[j].up != [] {
      SelectedReport(cfg, s, ready, rset, j);
    }
  }

  /** Replacing one slot keeps the slots' invariant if the new slot has it. */
  lemma SlotsUpdate(slots: seq<Slot>, stops: nat, stops': nat, i: nat, y: Slot)
    requires SlotsInv(slots, stops) && i < |slots| && SlotInv(y, i < stops')
    requires stops == stops' || (stops == i && stops' == i + 1)
    ensures SlotsInv(slots[i := y], stops')
  {
    var slots' := slots[i := y];
    forall j: nat ensures SlotOk(slots', j, stops') {
      assert SlotOk(slots, j, stops);
    }
  }

  lemma RouteUpdate(slots: seq<Slot>, route: seq<nat>, i: nat, y: Slot)
    requires RouteInv(slots, route) && i < |slots| && y.given == slots[i].given
    ensures RouteInv(slots[i := y], route)
  {
    var slots' := slots[i := y];
    forall j: nat ensures GivenOk(slots', j, route) {
      assert GivenOk(slots, j, route);
    }
  }

  lemma HandedSlot(x: Slot, conn: int)
    requires SlotInv(x, false) && x.status == 0 && 0 <= conn
    ensures x.down == []
    ensures SlotInv(x.(status := 1, count := x.count + 1,
                       down := x.down + [Message('p', conn)], given := x.given + [conn]), false)
  {
  }

  lemma ReapedSlot(x: Slot)
    requires SlotInv(x, false) && x.up != []
    ensures x.status == 1
    ensures SlotInv(x.(status := 0, up := x.up[1..], reaped := x.reaped + 1), false)
  {
  }

  lemma StoppedSlot(x: Slot)
    requires SlotInv(x, false)
    ensures SlotInv(x.(down := x.down + [STOP]), true)
  {
  }

  lemma HandedInv(cfg: Config, s: State)
    requires Inv(cfg, s) && s.pc.Handing?
    ensures Inv(cfg, Handed(s))
  {
    CountFreeZero(s.slots);
    var i := FirstFree(s.slots);
    var t := Handed(s);
    assert SlotOk(s.slots, i, 0);
    HandedSlot(s.slots[i], s.pc.conn);
    SlotsUpdate(s.slots, 0, 0, i, t.slots[i]);
    CountFreeUpdate(s.slots, i, t.slots[i]);
    forall j: nat ensures GivenOk(t.slots, j, t.route) {
      assert GivenOk(s.slots, j, s.route);
      AssignedAppend(s.route, i, j);
    }
  }

  lemma ScannedInv(cfg: Config, s: State)
    requires Inv(cfg, s) && s.pc.Scanning?
    ensures Inv(cfg, Scanned(cfg, s))
  {
    var i := s.pc.i;
    var t := Scanned(cfg, s);
    if i < |s.slots| && cfg.pipeFd[i] in s.pc.rset {
      assert SlotOk(s.slots, i, 0);
      ReapedSlot(s.slots[i]);
      SlotsUpdate(s.slots, 0, 0, i, t.slots[i]);
      RouteUpdate(s.slots, s.route, i, t.slots[i]);
      CountFreeUpdate(s.slots, i, t.slots[i]);
    }
  }

  lemma StopSentInv(cfg: Config, s: State)
    requires Inv(cfg, s) && s.pc.Stopping? && s.pc.i < |s.slots|
    ensures Inv(cfg, StopSent(s, s.pc.i).(pc := Stopping(s.pc.i + 1)))
  {
    var i := s.pc.i;
    var t := StopSent(s, i);
    assert SlotOk(s.slots, i, i);
    StoppedSlot(s.slots[i]);
    SlotsUpdate(s.slots, i, i + 1, i, t.slots[i]);
    RouteUpdate(s.slots, s.route, i, t.slots[i]);
    CountFreeUpdate(s.slots, i, t.slots[i]);
  }

  lemma ParentStepInv(cfg: Config, s: State, t: State)
    requires Inv(cfg, s) && ParentStep(cfg, s, t)
    ensures Inv(cfg, t)
  {
    match s.pc
    case Starting =>
    case Selecting =>
    case Polling(ready, interrupted) =>
      if !(interrupted && t == s.(pc := Selected(WatchSet(cfg, s), -1))) {
        var rset :| SelectReturns(cfg, s, ready, rset) && t == s.(pc := Selected(rset, |rset|));
        SelectInv(cfg, s, ready, rset);
      }
    case Selected(_, _) =>
    case Accepting(_, _) =>
    case Handing(_, _, _) => HandedInv(cfg, s);
    case Scanning(_, _, _) => ScannedInv(cfg, s);
    case Stopping(i) => if i < |s.slots| { StopSentInv(cfg, s); }
    case Waiting =>
    case Finished =>
    case OutOfBounds =>
  }

  /** One step of a worker keeps its own invariant and leaves the parent's view alone. */
  lemma WorkerStepSlot(x: Slot, y: Slot, stopped: bool)
    requires SlotInv(x, stopped) && WorkerStep(x, y)
    ensures SlotInv(y, stopped)
    ensures y.status == x.status && y.given == x.given && x.up <= y.up
    ensures x.pc.Reading? ==> y.pc.Serving? || y.pc.Exited?
  {
  }

  lemma WorkerStepInv(cfg: Config, s: State, i: nat, t: State)
    requires Inv(cfg, s) && Next(cfg, s, Work(i), t)
    ensures Inv(cfg, t)
  {
    assert SlotOk(s.slots, i, Stops(s));
    WorkerStepSlot(s.slots[i], t.slots[i], i < Stops(s));
    SlotsUpdate(s.slots, Stops(s), Stops(s), i, t.slots[i]);
    RouteUpdate(s.slots, s.route, i, t.slots[i]);
    CountFreeUpdate(s.slots, i, t.slots[i]);
    ParentFrame(cfg, s, t);
  }

  /** The parent's invariant survives any step that keeps its own state and takes no report. */
  lemma ParentFrame(cfg: Config, s: State, t: State)
    requires |s.slots| == |t.slots| == |cfg.pipeFd| && ParentInv(cfg, s)
    requires t == s.(slots := t.slots)
    requires forall j :: 0 <= j < |s.slots| ==> s.slots[j].up <= t.slots[j].up
    requires forall j :: 0 <= j < |s.slots| ==> s.slots[j].pc.Exited? ==> t.slots[j].pc.Exited?
    ensures ParentInv(cfg, t)
  {
  }

  lemma StepInv(cfg: Config, s: State, t: State)
    requires Inv(cfg, s) && Step(cfg, s, t)
    ensures Inv(cfg, t)
  {
    var a :| Next(cfg, s, a, t);
    match a
    case Parent => ParentStepInv(cfg, s, t);
    case Work(i) => WorkerStepInv(cfg, s, i, t);
    case Interrupt =>
  }

  /** Every state of every interleaving satisfies the invariant. */
  lemma {:induction false} RunInv(cfg: Config, run: seq<State>, k: nat)
    requires IsRun(cfg, run) && k < |run|
    ensures Inv(cfg, run[k])
  {
    if k == 0 {
      InitInv(cfg, run[0]);
    } else {
      RunInv(cfg, run, k - 1);
      assert Step(cfg, run[k - 1], run[k - 1 + 1]);
      StepInv(cfg, run[k - 1], run[k]);
    }
  }

  lemma RunPrefix(cfg: Config, run: seq<State>, m: nat)
    requires IsRun(cfg, run) && 0 < m <= |run|
    ensures IsRun(cfg, run[..m])
  {
    var front := run[..m];
    forall k | 0 <= k < |front| - 1 ensures Step(cfg, front[k], front[k + 1]) {
      assert Step(cfg, run[k], run[k + 1]);
    }
  }

  lemma RunAppend(cfg: Config, run: seq<State>, t: State)
    requires IsRun(cfg, run) && Step(cfg, Last(run), t)
    ensures IsRun(cfg, run + [t])
  {
    var longer := run + [t];
    forall k | 0 <= k < |longer| - 1 ensures Step(cfg, longer[k], longer[k + 1]) {
      if k < |run| - 1 { assert Step(cfg, run[k], run[k + 1]); }
    }
  }

  /** The shortest run to the top of the loop. */
  lemma FirstStep(cfg: Config) returns (run: seq<State>)
    requires ValidConfig(cfg)
    ensures IsRun(cfg, run) && Last(run) == InitialState(cfg).(pc := Selecting, stop := false)
  {
    var s := InitialState(cfg);
    var t := s.(pc := Selecting, stop := false);
    assert Next(cfg, s, Parent, t);
    RunAppend(cfg, [s], t);
    run := [s] + [t];
  }

  lemma ParentEffect(cfg: Config, s: State, t: State)
    requires |s.slots| == |cfg.pipeFd| && ParentStep(cfg, s, t) && !s.pc.Handing?
    ensures |t.slots| == |s.slots| && t.route == s.route
    ensures forall i :: 0 <= i < |s.slots| ==> t.slots[i].count == s.slots[i].count
    ensures t.avail == s.avail || (s.pc.Scanning? && t.avail == s.avail + 1)
    ensures if s.pc.Accepting? then t == AcceptedOne(s) else t.accepted == s.accepted && !t.pc.Handing?
  {
  }

  /** Only a hand-off changes what a worker was given; only find_free makes a worker free. */
  lemma StepEffect(cfg: Config, s: State, a: Actor, t: State)
    requires |s.slots| == |cfg.pipeFd| && Next(cfg, s, a, t)
    ensures |t.slots| == |s.slots|
    ensures a.Parent? && s.pc.Handing? ==> t == Handed(s)
    ensures !(a.Parent? && s.pc.Handing?) ==>
      (t.route == s.route && s.avail <= t.avail
       && forall i :: 0 <= i < |s.slots| ==> t.slots[i].count == s.slots[i].count)
    ensures s.avail < t.avail ==>
      (a.Parent? && s.pc.Scanning? && t.avail == s.avail + 1 && t.accepted == s.accepted)
    ensures t.accepted != s.accepted ==> (a.Parent? && s.pc.Accepting? && t == AcceptedOne(s))
    ensures a.Work? ==> t.pc == s.pc
    ensures t.pc.Handing? && !s.pc.Handing? ==> t.accepted != s.accepted
  {
    if a.Parent? && !s.pc.Handing? { ParentEffect(cfg, s, t); }
  }
}
