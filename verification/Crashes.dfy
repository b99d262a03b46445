/**
 Workers that die. The parent's counter stays exact whatever the workers do: also when one of
 them is killed in the middle of a job, and across the early end of find_free that reading the
 end of its stream causes. A job that dies with its worker
 costs a permit for good, and a worker that dies before it reads its job is taken to have done it.

 A write to a dead worker kills the source's parent, which ends the run there; the runs
 considered here may go on, so they include the source's.
 */
module Crashes {
  import opened Protocol
  import opened Invariant
  import opened Handoff
  import opened FirstFit

  /** One failed read, in the place of a byte. When a local stream is closed with data unread, the
      peer's next read on an empty stream fails once (ECONNRESET on Linux), and then the
      stream is at its end. find_free tests only for 0, and takes the failure for a report. */
  const RESET: char := '\0'

  /** The process is gone, and what it did not read with it. An unread stop is not noticed: after
      it the parent reads no more. */
  function Died(x: Slot): Slot {
    x.(pc := Exited, down := [], up := if 0 < CountCmd(x.down, 'p') then x.up + [RESET] else x.up)
  }

  /** Worker i is killed, wherever it stands. */
  ghost predicate Crash(s: State, i: nat, t: State) {
    i < |s.slots| && !s.slots[i].pc.Exited? && t == s.(slots := s.slots[i := Died(s.slots[i])])
  }

  ghost predicate FaultyStep(cfg: Config, s: State, t: State) {
    Step(cfg, s, t) || exists i: nat :: Crash(s, i, t)
  }

  ghost predicate IsFaultyRun(cfg: Config, run: seq<State>) {
    && ValidConfig(cfg) && run != [] && Init(cfg, run[0])
    && (forall k :: 0 <= k < |run| - 1 ==> FaultyStep(cfg, run[k], run[k + 1]))
  }

  /** A death may destroy a token; none comes from nowhere. */
  ghost predicate Backed(x: Slot) {
    && TokensOf(x) <= x.status <= 1
    && (!x.pc.Exited? ==> TokensOf(x) == x.status)
    && x.count == x.reaped + x.status
    && (forall m :: m in x.down ==> m == STOP || (m.cmd == 'p' && 0 <= m.conn))
  }

  ghost predicate BackedAt(slots: seq<Slot>, i: nat) {
    i < |slots| ==> Backed(slots[i])
  }

  ghost predicate AllBacked(slots: seq<Slot>) {
    forall i :: BackedAt(slots, i)
  }

  ghost predicate CounterInv(cfg: Config, s: State) {
    && ValidConfig(cfg) && |s.slots| == |cfg.pipeFd|
    && s.avail == CountFree(s.slots)
    && AllBacked(s.slots)
    && match s.pc
       case Selected(rset, _) => !s.stop && cfg.sockFd in rset ==> 0 < s.avail
       case Accepting(_, _) => 0 < s.avail
       case Handing(conn, _, _) => 0 < s.avail && 0 <= conn
       case OutOfBounds => false
       case _ => true
  }

  lemma SentSlot(x: Slot, m: Message)
    requires Backed(x) && (m == STOP || (m.cmd == 'p' && 0 <= m.conn && x.status == 0))
    ensures Backed(if m == STOP then x.(down := x.down + [m])
                   else x.(status := 1, count := x.count + 1, down := x.down + [m], given := x.given + [m.conn]))
  {
    CountCmdAppend(x.down, m, 'p');
  }

  lemma DiedSlot(x: Slot)
    requires Backed(x)
    ensures Backed(Died(x)) && Died(x).status == x.status
  {
  }

  lemma WorkerSlot(x: Slot, y: Slot)
    requires Backed(x) && WorkerStep(x, y)
    ensures Backed(y) && y.status == x.status
  {
  }

  lemma BackedUpdate(slots: seq<Slot>, i: nat, y: Slot)
    requires AllBacked(slots) && i < |slots| && Backed(y)
    ensures AllBacked(slots[i := y])
  {
    var slots' := slots[i := y];
    forall j: nat ensures BackedAt(slots', j) {
      assert BackedAt(slots, j);
    }
  }

  lemma UpdateInv(cfg: Config, s: State, i: nat, y: Slot)
    requires CounterInv(cfg, s) && i < |s.slots| && Backed(y) && y.status == s.slots[i].status
    ensures CounterInv(cfg, s.(slots := s.slots[i := y]))
  {
    BackedUpdate(s.slots, i, y);
    CountFreeUpdate(s.slots, i, y);
  }

  lemma HandedCounter(cfg: Config, s: State)
    requires CounterInv(cfg, s) && s.pc.Handing?
    ensures CounterInv(cfg, Handed(s))
  {
    CountFreeZero(s.slots);
    var i := FirstFree(s.slots);
    assert BackedAt(s.slots, i);
    SentSlot(s.slots[i], Message('p', s.pc.conn));
    BackedUpdate(s.slots, i, Handed(s).slots[i]);
    CountFreeUpdate(s.slots, i, Handed(s).slots[i]);
  }

  lemma ScannedCounter(cfg: Config, s: State)
    requires CounterInv(cfg, s) && s.pc.Scanning?
    ensures CounterInv(cfg, Scanned(cfg, s))
  {
    var i := s.pc.i;
    if i < |s.slots| && cfg.pipeFd[i] in s.pc.rset && s.slots[i].up != [] {
      assert BackedAt(s.slots, i);
      BackedUpdate(s.slots, i, Scanned(cfg, s).slots[i]);
      CountFreeUpdate(s.slots, i, Scanned(cfg, s).slots[i]);
    }
  }

  lemma StopSentCounter(cfg: Config, s: State)
    requires CounterInv(cfg, s) && s.pc.Stopping? && s.pc.i < |s.slots|
    ensures CounterInv(cfg, StopSent(s, s.pc.i).(pc := Stopping(s.pc.i + 1)))
  {
    var i := s.pc.i;
    assert BackedAt(s.slots, i);
    SentSlot(s.slots[i], STOP);
    UpdateInv(cfg, s, i, StopSent(s, i).slots[i]);
  }

  lemma ParentInvStep(cfg: Config, s: State, t: State)
    requires CounterInv(cfg, s) && ParentStep(cfg, s, t)
    ensures CounterInv(cfg, t)
  {
    match s.pc
    case Handing(_, _, _) => HandedCounter(cfg, s);
    case Scanning(_, _, _) => ScannedCounter(cfg, s);
    case Stopping(i) => if i < |s.slots| { StopSentCounter(cfg, s); }
    case _ =>
  }

  lemma FaultyStepInv(cfg: Config, s: State, t: State)
    requires CounterInv(cfg, s) && FaultyStep(cfg, s, t)
    ensures CounterInv(cfg, t)
  {
    if Step(cfg, s, t) {
      var a :| Next(cfg, s, a, t);
      match a
      case Parent => ParentInvStep(cfg, s, t);
      case Work(i) =>
        assert BackedAt(s.slots, i);
        WorkerSlot(s.slots[i], t.slots[i]);
        UpdateInv(cfg, s, i, t.slots[i]);
      case Interrupt =>
    } else {
      var i: nat :| Crash(s, i, t);
      assert BackedAt(s.slots, i);
      DiedSlot(s.slots[i]);
      UpdateInv(cfg, s, i, t.slots[i]);
    }
  }

  lemma {:induction false} FaultyRunInv(cfg: Config, run: seq<State>, k: nat)
    requires IsFaultyRun(cfg, run) && k < |run|
    ensures CounterInv(cfg, run[k])
  {
    if k == 0 {
      CountFreeAll(run[0].slots);
    } else {
      FaultyRunInv(cfg, run, k - 1);
      assert FaultyStep(cfg, run[k - 1], run[k - 1 + 1]);
      FaultyStepInv(cfg, run[k - 1], run[k]);
    }
  }

  /** Worker i died over a job: it is gone, it owes a report, and there is none to come. */
  ghost predicate Lost(s: State, i: nat) {
    i < |s.slots| && s.slots[i].pc.Exited? && s.slots[i].up == [] && s.slots[i].status == 1
  }

  ghost function LostSet(s: State): set<nat> {
    set i | 0 <= i < |s.slots| && Lost(s, i)
  }

  lemma LostStays(cfg: Config, s: State, t: State, i: nat)
    requires CounterInv(cfg, s) && FaultyStep(cfg, s, t) && Lost(s, i)
    ensures Lost(t, i) && t.slots[i].count == s.slots[i].count
  {
    if a :| Next(cfg, s, a, t) {
      StepEffect(cfg, s, a, t);
      if a.Parent? && s.pc.Handing? { CountFreeZero(s.slots); }
    }
  }

  lemma LostOneStep(cfg: Config, run: seq<State>, k: nat, i: nat)
    requires IsFaultyRun(cfg, run) && k + 1 < |run| && Lost(run[k], i)
    ensures Lost(run[k + 1], i) && run[k + 1].slots[i].count == run[k].slots[i].count
  {
    FaultyRunInv(cfg, run, k);
    assert FaultyStep(cfg, run[k], run[k + 1]);
    LostStays(cfg, run[k], run[k + 1], i);
  }

  /** A lost job's permit never comes back, and the worker is handed nothing more. */
  lemma {:induction false} LostForGood(cfg: Config, run: seq<State>, j: nat, k: nat, i: nat)
    requires IsFaultyRun(cfg, run) && j <= k < |run| && Lost(run[j], i)
    ensures Lost(run[k], i)
    ensures run[k].slots[i].count == run[j].slots[i].count
    decreases k - j
  {
    if j < k {
      LostOneStep(cfg, run, j, i);
      LostForGood(cfg, run, j + 1, k, i);
    }
  }

  lemma LostAreBusy(slots: seq<Slot>, lost: set<nat>)
    requires forall i :: i in lost ==> i < |slots| && slots[i].status != 0
    ensures CountFree(slots) + |lost| <= |slots|
  {
    CountFreeIsCardinality(slots);
    SubsetSize(FreeSet(slots) + lost, Upto(|slots|));
    assert FreeSet(slots) !! lost;
  }

  /** However many workers die, and whenever: the counter is the number of workers the parent
      takes to be free, the search under the guard of the run loop finds one, and a worker that
      is taken to be free has no job anywhere. Every worker that died over a job costs a permit. */
  lemma AvailableDespiteCrashes(cfg: Config, run: seq<State>, k: nat)
    requires IsFaultyRun(cfg, run) && k < |run|
    ensures run[k].avail == |FreeSet(run[k].slots)| && 0 <= run[k].avail <= |cfg.pipeFd|
    ensures run[k].avail + |LostSet(run[k])| <= |cfg.pipeFd|
    ensures run[k].pc != OutOfBounds
    ensures run[k].pc.Handing? ==> FirstFree(run[k].slots) < |run[k].slots|
    ensures forall i :: 0 <= i < |run[k].slots| && run[k].slots[i].status == 0 ==> TokensOf(run[k].slots[i]) == 0
    ensures forall i :: 0 <= i < |run[k].slots| && !run[k].slots[i].pc.Exited? ==>
      TokensOf(run[k].slots[i]) == run[k].slots[i].status
  {
    FaultyRunInv(cfg, run, k);
    CountFreeIsCardinality(run[k].slots);
    CountFreeZero(run[k].slots);
    LostAreBusy(run[k].slots, LostSet(run[k]));
    forall i | 0 <= i < |run[k].slots| ensures Backed(run[k].slots[i]) {
      assert BackedAt(run[k].slots, i);
    }
  }
}
