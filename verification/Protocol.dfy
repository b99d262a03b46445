/**
 The dispatch protocol as a step relation: one parent, n workers, and between the parent
 and each worker a two-way FIFO stream. Nothing else is shared. A step is one system call
 of one process together with the local work up to its next system call.

 Connections are named by the order in which `accept` returned them (0, 1, 2, ...), because
 descriptor numbers are reused while the open connection behind them is not.
 */
module Protocol {

  const NO_CONN: int := -1

  /** What one one-byte read of the worker yields: a command and a descriptor (or NO_CONN). */
  datatype Message = Message(cmd: char, conn: int)

  const STOP: Message := Message('s', NO_CONN)

  /** The descriptors the parent watches, as they are after the workers were dispatched. */
  datatype Config = Config(sockFd: nat, pipeFd: seq<nat>)

  ghost predicate ValidConfig(cfg: Config) {
    && cfg.sockFd !in cfg.pipeFd
    && (forall i, j :: 0 <= i < j < |cfg.pipeFd| ==> cfg.pipeFd[i] != cfg.pipeFd[j])
  }

  function Max(a: nat, b: nat): nat {
    if a > b then a else b
  }

  /** The running maximum of the dispatch loop, starting at `sock_fd + 1`. */
  function MaxFdp(sockFd: nat, pipeFd: seq<nat>): nat {
    if pipeFd == [] then sockFd + 1
    else Max(MaxFdp(sockFd, pipeFd[..|pipeFd| - 1]), pipeFd[|pipeFd| - 1])
  }

  /** Where a worker stands in its endless loop. */
  datatype WorkerPc =
    | Reading
    | Serving(conn: int)
    | Closing(conn: int)
    | Reporting
    | Exited

  /** Everything that belongs to one worker. `status` and `count` are the parent's private view,
      `down` and `up` the two directions of the stream, `pc` the worker process. The last four
      fields are history: what was handed to it, what it served, what it closed, and how many
      reports the parent has read from it. */
  datatype Slot = Slot(
    status: int, count: int,
    down: seq<Message>, up: seq<char>,
    pc: WorkerPc,
    given: seq<int>, served: seq<int>, closed: seq<int>, reaped: nat)

  datatype ParentPc =
    | Starting                                          // about to clear the stop flag
    | Selecting                                         // top of the loop, up to the call of select
    | Polling(ready: set<nat>, interrupted: bool)       // in select
    | Selected(rset: set<nat>, nsel: int)               // select returned
    | Accepting(rset: set<nat>, nsel: int)              // the listening socket is ready
    | Handing(conn: int, rset: set<nat>, nsel: int)     // accept returned
    | Scanning(i: nat, rset: set<nat>, nsel: int)       // in find_free, at worker i
    | Stopping(i: nat)                                  // in terminate, about to stop worker i
    | Waiting                                           // every worker was sent a stop
    | Finished
    | OutOfBounds                                       // indexed worker[workers_n]

  /** `route` is history: `route[c]` is the worker that connection c was handed to. */
  datatype State = State(
    slots: seq<Slot>, avail: int,
    pc: ParentPc, stop: bool,
    accepted: nat, route: seq<nat>)

  const FRESH_SLOT: Slot := Slot(0, 0, [], [], Reading, [], [], [], 0)

  /** The stop flag is up until the parent clears it. */
  function InitialState(cfg: Config): State {
    State(seq(|cfg.pipeFd|, _ => FRESH_SLOT), |cfg.pipeFd|, Starting, true, 0, [])
  }

  ghost predicate Init(cfg: Config, s: State) {
    s == InitialState(cfg)
  }

  // ---------------------------------------------------------------- the parent

  /** The first index at or after `from` whose status is 0, or the number of workers. */
  function FirstFree(slots: seq<Slot>, from: nat := 0): (i: nat)
    requires from <= |slots|
    ensures from <= i <= |slots|
    ensures i < |slots| ==> slots[i].status == 0
    ensures forall j :: from <= j < i ==> slots[j].status != 0
    decreases |slots| - from
  {
    if from == |slots| || slots[from].status == 0 then from else FirstFree(slots, from + 1)
  }

  function Pipes(fds: seq<nat>): set<nat> {
    set fd | fd in fds
  }

  /** The copy of masterset handed to select: the listening socket only when the parent
      believes that a worker is free. */
  function WatchSet(cfg: Config, s: State): set<nat> {
    Pipes(cfg.pipeFd) + (if s.avail <= 0 then {} else {cfg.sockFd})
  }

  /** A read from this worker's pipe would not block. */
  predicate PipeReady(x: Slot) {
    x.up != [] || x.pc.Exited?
  }

  /** The pipes that select tests and finds ready: those below its first argument. */
  function ReadyPipes(cfg: Config, s: State): set<nat> {
    set i | 0 <= i < |cfg.pipeFd| && i < |s.slots| && PipeReady(s.slots[i])
            && cfg.pipeFd[i] < MaxFdp(cfg.sockFd, cfg.pipeFd) :: cfg.pipeFd[i]
  }

  /** What a successful select can report: at least one descriptor (the timeout is NULL), every
      pipe that was ready when it began, and nothing that is not ready when it returns; select
      looks at one descriptor after the other. The listening socket can be among them whenever
      it is watched: whether a client is waiting is up to the environment. */
  predicate SelectReturns(cfg: Config, s: State, ready: set<nat>, rset: set<nat>) {
    rset != {} && ready <= rset <= WatchSet(cfg, s) * (ReadyPipes(cfg, s) + {cfg.sockFd})
  }

  function Submitted(s: State, conn: int, i: nat): State
    requires i < |s.slots|
  {
    var x := s.slots[i];
    s.(slots := s.slots[i := x.(status := 1, count := x.count + 1,
                                down := x.down + [Message('p', conn)], given := x.given + [conn])],
       avail := s.avail - 1,
       route := s.route + [i])
  }

  /** The control flow after one more descriptor of the select result was dealt with. */
  function Next1(nsel: int, i: nat, rset: set<nat>): ParentPc {
    if nsel - 1 == 0 then Selecting else Scanning(i, rset, nsel - 1)
  }

  function Reaped(s: State, i: nat): State
    requires i < |s.slots| && s.slots[i].up != []
  {
    var x := s.slots[i];
    s.(slots := s.slots[i := x.(status := 0, up := x.up[1..], reaped := x.reaped + 1)],
       avail := s.avail + 1)
  }

  function StopSent(s: State, i: nat): State
    requires i < |s.slots|
  {
    s.(slots := s.slots[i := s.slots[i].(down := s.slots[i].down + [STOP])])
  }

  /** Where the parent goes after select: out of the loop, to accept, or to look for reports. */
  function Checked(cfg: Config, s: State): State
    requires s.pc.Selected?
  {
    if s.stop then s.(pc := Stopping(0))
    else if cfg.sockFd in s.pc.rset then s.(pc := Accepting(s.pc.rset, s.pc.nsel))
    else s.(pc := Scanning(0, s.pc.rset, s.pc.nsel))
  }

  function AcceptedOne(s: State): State
    requires s.pc.Accepting?
  {
    s.(pc := Handing(s.accepted, s.pc.rset, s.pc.nsel), accepted := s.accepted + 1)
  }

  function Handed(s: State): State
    requires s.pc.Handing?
  {
    var i := FirstFree(s.slots);
    if i == |s.slots| then s.(pc := OutOfBounds)
    else Submitted(s, s.pc.conn, i).(pc := Next1(s.pc.nsel, 0, s.pc.rset))
  }

  /** One turn of the loop of find_free; defined when the read it may do does not block. */
  predicate CanScan(cfg: Config, s: State)
    requires s.pc.Scanning?
  {
    var i := s.pc.i;
    |s.slots| == |cfg.pipeFd| &&
    (i < |s.slots| && cfg.pipeFd[i] in s.pc.rset ==> s.slots[i].up != [] || s.slots[i].pc.Exited?)
  }

  function Scanned(cfg: Config, s: State): State
    requires s.pc.Scanning? && |s.slots| == |cfg.pipeFd|
  {
    var i := s.pc.i;
    if i >= |s.slots| then s.(pc := Selecting)
    else if cfg.pipeFd[i] !in s.pc.rset then s.(pc := Scanning(i + 1, s.pc.rset, s.pc.nsel))
    else if s.slots[i].up == [] then s.(pc := Selecting)    // read returned 0
    else Reaped(s, i).(pc := Next1(s.pc.nsel, i + 1, s.pc.rset))
  }

  predicate AllExited(s: State) {
    forall i :: 0 <= i < |s.slots| ==> s.slots[i].pc.Exited?
  }

  ghost predicate ParentStep(cfg: Config, s: State, t: State) {
    match s.pc
    case Starting => t == s.(pc := Selecting, stop := false)
    case Selecting => t == s.(pc := Polling(ReadyPipes(cfg, s), false))
    case Polling(ready, interrupted) =>
      (exists rset :: SelectReturns(cfg, s, ready, rset) && t == s.(pc := Selected(rset, |rset|)))
      || (interrupted && t == s.(pc := Selected(WatchSet(cfg, s), -1)))    // the set is left alone
    case Selected(_, _) => t == Checked(cfg, s)
    case Accepting(_, _) => t == AcceptedOne(s)
    case Handing(_, _, _) => t == Handed(s)
    case Scanning(_, _, _) => CanScan(cfg, s) && t == Scanned(cfg, s)
    case Stopping(i) =>
      if i < |s.slots| then t == StopSent(s, i).(pc := Stopping(i + 1)) else t == s.(pc := Waiting)
    case Waiting => AllExited(s) && t == s.(pc := Finished)
    case Finished => false
    case OutOfBounds => false
  }

  // ---------------------------------------------------------------- the workers

  function Received(x: Slot): Slot
    requires x.down != []
  {
    var m := x.down[0];
    var y := x.(down := x.down[1..]);
    if m.cmd == 's' then y.(pc := Exited)
    else if m.conn < 0 then y
    else y.(pc := Serving(m.conn))
  }

  predicate WorkerStep(x: Slot, y: Slot) {
    match x.pc
    case Reading => x.down != [] && y == Received(x)
    case Serving(c) => y == x.(pc := Closing(c), served := x.served + [c])
    case Closing(c) => y == x.(pc := Reporting, closed := x.closed + [c])
    case Reporting => y == x.(pc := Reading, up := x.up + ['d'])
    case Exited => false
  }

  /** The one step of a worker that is not done and, if it is about to read, has something to read. */
  function WorkerMove(x: Slot): (y: Slot)
    requires !x.pc.Exited? && (x.pc.Reading? ==> x.down != [])
    ensures WorkerStep(x, y)
  {
    match x.pc
    case Reading => Received(x)
    case Serving(c) => x.(pc := Closing(c), served := x.served + [c])
    case Closing(c) => x.(pc := Reporting, closed := x.closed + [c])
    case Reporting => x.(pc := Reading, up := x.up + ['d'])
  }

  // ---------------------------------------------------------------- the system

  /** SIGINT at the parent sets the stop flag, and interrupts select if that is being called. A
      signal that comes before does not: then only what select waits for ends it. */
  function Interrupted(s: State): State {
    s.(stop := true, pc := if s.pc.Polling? then s.pc.(interrupted := true) else s.pc)
  }

  datatype Actor = Parent | Work(i: nat) | Interrupt

  ghost predicate Next(cfg: Config, s: State, a: Actor, t: State) {
    match a
    case Parent => ParentStep(cfg, s, t)
    case Work(i) =>
      i < |s.slots| && i < |t.slots| && WorkerStep(s.slots[i], t.slots[i])
      && t == s.(slots := s.slots[i := t.slots[i]])
    case Interrupt => t == Interrupted(s)
  }

  ghost predicate Step(cfg: Config, s: State, t: State) {
    exists a :: Next(cfg, s, a, t)
  }

  function Last(run: seq<State>): State
    requires run != []
  {
    run[|run| - 1]
  }

  /** A finite interleaving from the initial state. */
  ghost predicate IsRun(cfg: Config, run: seq<State>) {
    && ValidConfig(cfg)
    && run != []
    && Init(cfg, run[0])
    && (forall k :: 0 <= k < |run| - 1 ==> Step(cfg, run[k], run[k + 1]))
  }
}
