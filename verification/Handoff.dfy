/**
 Tokens, bounded streams, exactly-once hand-off and the ledger, for every state of every run.
 Messages and places are counted here from the raw contents of the streams.
 */
module Handoff {
  import opened Protocol
  import opened Invariant

  function CountCmd(ms: seq<Message>, cmd: char): nat {
    if ms == [] then 0 else (if ms[0].cmd == cmd then 1 else 0) + CountCmd(ms[1..], cmd)
  }

  lemma {:induction false} CountCmdAppend(ms: seq<Message>, m: Message, cmd: char)
    ensures CountCmd(ms + [m], cmd) == CountCmd(ms, cmd) + (if m.cmd == cmd then 1 else 0)
  {
    if ms == [] {
      assert [] + [m] == [m];
    } else {
      assert (ms + [m])[1..] == ms[1..] + [m];
      CountCmdAppend(ms[1..], m, cmd);
    }
  }

  /** The tokens of worker i: jobs on their way, a job in progress, reports on their way. */
  function TokensOf(x: Slot): nat {
    CountCmd(x.down, 'p') + (if InProgress(x.pc) then 1 else 0) + |x.up|
  }

  lemma DownForms(x: Slot, stopped: bool)
    requires SlotInv(x, stopped)
    ensures CountCmd(x.down, 'p') == |Queued(x)|
    ensures CountCmd(x.down, 's') == if stopped && !x.pc.Exited? then 1 else 0
    ensures |x.down| == CountCmd(x.down, 'p') + CountCmd(x.down, 's') <= 2
    ensures stopped && !x.pc.Exited? ==> x.down[|x.down| - 1] == STOP
    ensures forall m :: m in x.down ==> m == STOP || (m.cmd == 'p' && 0 <= m.conn && [m.conn] == Queued(x))
    ensures forall c :: Queued(x) == [c] ==> Message('p', c) in x.down
  {
    var tail := if stopped && !x.pc.Exited? then [STOP] else [];
    if x.down == tail {
      if tail != [] { assert x.down == [STOP] && x.down[1..] == []; }
    } else {
      var m := Message('p', x.down[0].conn);
      assert x.down == [m] + tail && x.down[0] == m && m in x.down;
      assert x.down[1..] == tail;
      assert tail == [STOP] ==> tail[1..] == [] && CountCmd(tail, 'p') == 0 && CountCmd(tail, 's') == 1;
    }
  }

  /** Status is the number of tokens, so the parent's private flag tells the truth about both
      streams and the worker's program counter, and a stream with room for two messages
      never blocks its writer. */
  lemma TokenInvariant(cfg: Config, run: seq<State>, k: nat, i: nat)
    requires IsRun(cfg, run) && k < |run| && i < |run[k].slots|
    ensures var x := run[k].slots[i];
      && (x.status == 1 <==> TokensOf(x) == 1)
      && (x.status == 0 <==> TokensOf(x) == 0)
      && (x.status == 0 || x.status == 1)
  {
    RunInv(cfg, run, k);
    assert SlotOk(run[k].slots, i, Stops(run[k]));
    DownForms(run[k].slots[i], i < Stops(run[k]));
  }

  lemma StreamsBounded(cfg: Config, run: seq<State>, k: nat, i: nat)
    requires IsRun(cfg, run) && k < |run| && i < |run[k].slots|
    ensures var x := run[k].slots[i];
      && CountCmd(x.down, 'p') <= 1
      && CountCmd(x.down, 's') == (if i < Stops(run[k]) && !x.pc.Exited? then 1 else 0)
      && |x.down| == CountCmd(x.down, 'p') + CountCmd(x.down, 's')
      && (forall j :: 0 <= j < |x.down| - 1 ==> x.down[j].cmd == 'p')
      && (x.up == [] || x.up == ['d'])
  {
    RunInv(cfg, run, k);
    assert SlotOk(run[k].slots, i, Stops(run[k]));
    DownForms(run[k].slots[i], i < Stops(run[k]));
  }

  /** The worker's "no descriptor" branch, which goes back to reading without a report, is never
      taken; and the read in find_free never blocks and never sees the end of the stream. */
  lemma NoSilentSkip(cfg: Config, run: seq<State>, k: nat, i: nat)
    requires IsRun(cfg, run) && k < |run| && i < |run[k].slots|
    ensures var x := run[k].slots[i];
      x.pc.Reading? && x.down != [] ==> Received(x).pc == (if x.down[0] == STOP then Exited else Serving(x.down[0].conn))
    ensures i < |cfg.pipeFd| &&
      (run[k].pc.Scanning? && run[k].pc.i == i && cfg.pipeFd[i] in run[k].pc.rset ==> run[k].slots[i].up != [])
  {
    RunInv(cfg, run, k);
    assert SlotOk(run[k].slots, i, Stops(run[k]));
    DownForms(run[k].slots[i], i < Stops(run[k]));
  }

  /** Why that matters: a job that came without its connection would be dropped, no report would
      follow, and the worker would stay busy in the parent's view for ever. */
  lemma SkipLosesToken(x: Slot)
    requires x.pc.Reading? && x.down != [] && x.down[0].cmd == 'p' && x.down[0].conn < 0
    ensures WorkerMove(x).pc.Reading? && WorkerMove(x).up == x.up && WorkerMove(x).served == x.served
    ensures TokensOf(WorkerMove(x)) == TokensOf(x) - 1
  {
  }

  // ---------------------------------------------------------------- the counter of free workers

  function FreeSet(slots: seq<Slot>): set<nat> {
    set i | 0 <= i < |slots| && slots[i].status == 0
  }

  lemma FreeSetSplit(slots: seq<Slot>)
    requires slots != []
    ensures var m := |slots| - 1; var front := FreeSet(slots[..m]);
      FreeSet(slots) == (if slots[m].status == 0 then front + {m} else front) && m !in front
  {
    var m := |slots| - 1;
    assert forall i :: 0 <= i < m ==> slots[..m][i] == slots[i];
  }

  lemma {:induction false} CountFreeIsCardinality(slots: seq<Slot>)
    ensures CountFree(slots) == |FreeSet(slots)|
  {
    if slots != [] {
      FreeSetSplit(slots);
      CountFreeIsCardinality(slots[..|slots| - 1]);
    }
  }

  /** The counter is exact, and under the guard of the run loop the search always finds a
      worker: the "no available children" case and the index past the end are unreachable. */
  lemma AvailableIsExact(cfg: Config, run: seq<State>, k: nat)
    requires IsRun(cfg, run) && k < |run|
    ensures run[k].avail == |FreeSet(run[k].slots)|
    ensures 0 <= run[k].avail <= |cfg.pipeFd|
    ensures run[k].pc != OutOfBounds
    ensures run[k].pc.Handing? ==>
      var i := FirstFree(run[k].slots); i < |run[k].slots| && run[k].slots[i].status == 0
  {
    RunInv(cfg, run, k);
    CountFreeIsCardinality(run[k].slots);
    CountFreeZero(run[k].slots);
  }

  /** The worker picked in an iteration is not among those freed in the same iteration. */
  lemma PickedIsNotReaped(cfg: Config, run: seq<State>, k: nat)
    requires IsRun(cfg, run) && k < |run| && run[k].pc.Handing?
    ensures var i := FirstFree(run[k].slots);
      i < |cfg.pipeFd| && cfg.pipeFd[i] !in run[k].pc.rset
  {
    RunInv(cfg, run, k);
    CountFreeZero(run[k].slots);
    var i := FirstFree(run[k].slots);
    assert SlotOk(run[k].slots, i, 0);
  }

  // ---------------------------------------------------------------- exactly once

  datatype Place = AtParent | InStream(i: nat) | AtWorker(i: nat) | Done(i: nat)

  /** Connection c is at place p, read off the raw state. */
  ghost predicate At(s: State, c: int, p: Place) {
    match p
    case AtParent => s.pc.Handing? && s.pc.conn == c
    case InStream(i) => i < |s.slots| && Message('p', c) in s.slots[i].down
    case AtWorker(i) => i < |s.slots| && (s.slots[i].pc == Serving(c) || s.slots[i].pc == Closing(c))
    case Done(i) => i < |s.slots| && c in s.slots[i].closed
  }

  ghost predicate Increasing(cs: seq<int>) {
    forall j, k :: 0 <= j < k < |cs| ==> cs[j] < cs[k]
  }

  lemma {:induction false} AssignedMember(route: seq<nat>, i: nat, c: int)
    ensures c in Assigned(route, i) <==> 0 <= c < |route| && route[c] == i
  {
    if route != [] { AssignedMember(route[..|route| - 1], i, c); }
  }

  lemma {:induction false} AssignedIncreasing(route: seq<nat>, i: nat)
    ensures Increasing(Assigned(route, i))
  {
    if route != [] {
      var m := |route| - 1;
      AssignedIncreasing(route[..m], i);
      var front := Assigned(route[..m], i);
      forall j | 0 <= j < |front| ensures front[j] < m {
        AssignedMember(route[..m], i, front[j]);
      }
    }
  }

  /** Where the connections of one worker are, in terms of what was handed to it. */
  lemma PlacesOfSlot(x: Slot, stopped: bool, c: int)
    requires SlotInv(x, stopped) && Increasing(x.given)
    ensures c in x.given <==> Message('p', c) in x.down || x.pc == Serving(c) || x.pc == Closing(c) || c in x.closed
    ensures !(Message('p', c) in x.down && (x.pc == Serving(c) || x.pc == Closing(c) || c in x.closed))
    ensures !((x.pc == Serving(c) || x.pc == Closing(c)) && c in x.closed)
  {
    var open := Unclosed(x.pc) + Unserved(x.pc) + Queued(x);
    DownForms(x, stopped);
    assert Message('p', c) in x.down <==> Queued(x) == [c];
    assert c in open <==> Queued(x) == [c] || x.pc == Serving(c) || x.pc == Closing(c);
    LastIsApart(x.closed, open, x.given, c);
  }

  lemma LastIsApart(front: seq<int>, back: seq<int>, all: seq<int>, c: int)
    requires all == front + back && |back| <= 1 && Increasing(all)
    ensures c in all <==> c in front || c in back
    ensures !(c in front && c in back)
  {
    if back != [] {
      assert forall j :: 0 <= j < |front| ==> all[j] == front[j] && all[j] < all[|front|];
    }
  }

  ghost predicate AtSlot(s: State, c: int, i: nat) {
    At(s, c, InStream(i)) || At(s, c, AtWorker(i)) || At(s, c, Done(i))
  }

  lemma PlacesAtSlot(cfg: Config, s: State, c: int, i: nat)
    requires Inv(cfg, s) && i < |s.slots|
    ensures AtSlot(s, c, i) <==> 0 <= c < |s.route| && s.route[c] == i
    ensures !(At(s, c, InStream(i)) && (At(s, c, AtWorker(i)) || At(s, c, Done(i))))
    ensures !(At(s, c, AtWorker(i)) && At(s, c, Done(i)))
  {
    assert SlotOk(s.slots, i, Stops(s)) && GivenOk(s.slots, i, s.route);
    AssignedIncreasing(s.route, i);
    AssignedMember(s.route, i, c);
    PlacesOfSlot(s.slots[i], i < Stops(s), c);
  }

  lemma PlacesDiffer(cfg: Config, s: State, c: int, p: Place, q: Place)
    requires Inv(cfg, s) && At(s, c, p) && At(s, c, q)
    ensures p == q
  {
    if !p.AtParent? { PlacesAtSlot(cfg, s, c, p.i); }
    if !q.AtParent? { PlacesAtSlot(cfg, s, c, q.i); }
  }

  /** The connections accepted so far are, at every moment, each at exactly one place: with the
      parent, in one stream, with one worker, or served and closed. None is lost, duplicated
      or given to two workers. */
  lemma ExactlyOnce(cfg: Config, run: seq<State>, k: nat, c: int)
    requires IsRun(cfg, run) && k < |run|
    ensures 0 <= c < run[k].accepted <==> exists p :: At(run[k], c, p)
    ensures forall p, q :: At(run[k], c, p) && At(run[k], c, q) ==> p == q
  {
    RunInv(cfg, run, k);
    var s := run[k];
    if 0 <= c < |s.route| {
      PlacesAtSlot(cfg, s, c, s.route[c]);
    } else if c == |s.route| && s.pc.Handing? {
      assert At(s, c, AtParent);
    } else if p :| At(s, c, p) {
      if !p.AtParent? { PlacesAtSlot(cfg, s, c, p.i); }
    }
    forall p, q | At(s, c, p) && At(s, c, q) ensures p == q {
      PlacesDiffer(cfg, s, c, p, q);
    }
  }

  /** Each worker runs the callback once per connection handed to it, in the order of acceptance,
      closes in the same order, and lags by at most one connection. When it has reported, and
      when it is taken to be free, it has closed them all. */
  lemma ServedInOrder(cfg: Config, run: seq<State>, k: nat, i: nat)
    requires IsRun(cfg, run) && k < |run| && i < |run[k].slots|
    ensures var x := run[k].slots[i];
      && x.closed <= x.served <= x.given == Assigned(run[k].route, i)
      && |x.given| <= |x.closed| + 1
      && Increasing(x.served) && Increasing(x.closed)
      && (x.up != [] || x.status == 0 ==> x.closed == x.given)
  {
    RunInv(cfg, run, k);
    assert SlotOk(run[k].slots, i, Stops(run[k])) && GivenOk(run[k].slots, i, run[k].route);
    AssignedIncreasing(run[k].route, i);
  }

  // ---------------------------------------------------------------- the ledger

  function SumCount(slots: seq<Slot>): int {
    if slots == [] then 0 else SumCount(slots[..|slots| - 1]) + slots[|slots| - 1].count
  }

  function SumReaped(slots: seq<Slot>): int {
    if slots == [] then 0 else SumReaped(slots[..|slots| - 1]) + slots[|slots| - 1].reaped
  }

  function SumAssigned(route: seq<nat>, n: nat): nat {
    if n == 0 then 0 else SumAssigned(route, n - 1) + |Assigned(route, n - 1)|
  }

  lemma {:induction false} SumAssignedAppend(route: seq<nat>, w: nat, n: nat)
    ensures SumAssigned(route + [w], n) == SumAssigned(route, n) + (if w < n then 1 else 0)
  {
    if n != 0 {
      SumAssignedAppend(route, w, n - 1);
      AssignedAppend(route, w, n - 1);
    }
  }

  lemma {:induction false} SumAssignedIsAll(route: seq<nat>, n: nat)
    requires forall c :: 0 <= c < |route| ==> route[c] < n
    ensures SumAssigned(route, n) == |route|
  {
    if route == [] {
      SumAssignedNone(n);
    } else {
      var m := |route| - 1;
      SumAssignedIsAll(route[..m], n);
      SumAssignedAppend(route[..m], route[m], n);
      assert route == route[..m] + [route[m]];
    }
  }

  lemma {:induction false} SumAssignedNone(n: nat)
    ensures SumAssigned([], n) == 0
  {
    if n != 0 { SumAssignedNone(n - 1); }
  }

  lemma {:induction false} SumsAgree(slots: seq<Slot>, route: seq<nat>)
    requires forall i :: 0 <= i < |slots| ==> 0 <= slots[i].status <= 1 && slots[i].count == slots[i].reaped + slots[i].status
    requires forall i :: 0 <= i < |slots| ==> slots[i].count == |Assigned(route, i)|
    ensures SumCount(slots) == SumAssigned(route, |slots|)
    ensures SumCount(slots) == SumReaped(slots) + |slots| - CountFree(slots)
  {
    if slots != [] { SumsAgree(slots[..|slots| - 1], route); }
  }

  /** The books balance in every state: what was submitted is what the counts add up to, each
      count is what was reaped plus what is outstanding, and the free workers are the rest. */
  lemma Ledger(cfg: Config, run: seq<State>, k: nat)
    requires IsRun(cfg, run) && k < |run|
    ensures var s := run[k];
      && SumCount(s.slots) == |s.route| == s.accepted - (if s.pc.Handing? then 1 else 0)
      && (forall i :: 0 <= i < |s.slots| ==> s.slots[i].count == s.slots[i].reaped + s.slots[i].status)
      && |s.route| - SumReaped(s.slots) == |s.slots| - s.avail
  {
    RunInv(cfg, run, k);
    var s := run[k];
    forall i | 0 <= i < |s.slots|
      ensures 0 <= s.slots[i].status <= 1 && s.slots[i].count == s.slots[i].reaped + s.slots[i].status
      ensures s.slots[i].count == |Assigned(s.route, i)|
    {
      assert SlotOk(s.slots, i, Stops(s)) && GivenOk(s.slots, i, s.route);
    }
    SumsAgree(s.slots, s.route);
    SumAssignedIsAll(s.route, |s.slots|);
  }
}
