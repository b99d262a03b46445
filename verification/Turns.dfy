/**
 Turns of the run loop that the parent takes on its own, while no other process moves: what it
 can do from the top of the loop, with a select that reports every pipe that is ready.
 */
module Turns {
  import opened Protocol
  import opened Invariant

  ghost predicate IsPath(cfg: Config, path: seq<State>, s: State) {
    && path != [] && path[0] == s
    && forall k :: 0 <= k < |path| - 1 ==> ParentStep(cfg, path[k], path[k + 1])
  }

  lemma PathPrepend(cfg: Config, s: State, path: seq<State>, t: State)
    requires ParentStep(cfg, s, t) && IsPath(cfg, path, t)
    ensures IsPath(cfg, [s] + path, s) && Last([s] + path) == Last(path)
  {
    var longer := [s] + path;
    forall k | 0 <= k < |longer| - 1 ensures ParentStep(cfg, longer[k], longer[k + 1]) {
      if k > 0 { assert ParentStep(cfg, path[k - 1], path[k - 1 + 1]); }
    }
  }

  /** The select result holds only pipes that are ready, and as many as the parent counts. */
  ghost predicate ScansReady(cfg: Config, s: State) {
    && s.pc.Scanning? && s.pc.i <= |s.slots| == |cfg.pipeFd|
    && 1 <= s.pc.nsel == CountIn(cfg.pipeFd, s.pc.rset, s.pc.i)
    && (forall j :: s.pc.i <= j < |s.slots| && cfg.pipeFd[j] in s.pc.rset ==> PipeReady(s.slots[j]))
  }

  /** The scan will free worker w, or has done so: no pipe before it in the result has ended. */
  ghost predicate WillFree(cfg: Config, s: State, w: nat)
    requires s.pc.Scanning? && |s.slots| == |cfg.pipeFd|
  {
    w < |s.slots| &&
    if w < s.pc.i then s.slots[w].status == 0
    else cfg.pipeFd[w] in s.pc.rset
         && forall j :: s.pc.i <= j <= w && cfg.pipeFd[j] in s.pc.rset ==> s.slots[j].up != []
  }

  /** What a turn without accept leaves alone. */
  ghost predicate BackAtTop(s: State, t: State) {
    t.pc.Selecting? && OnlyFreed(s, t)
  }

  /** Between the two states reports were read, and nothing else happened. */
  ghost predicate OnlyFreed(s: State, t: State) {
    && t.stop == s.stop && t.accepted == s.accepted && t.route == s.route && |t.slots| == |s.slots|
    && forall i :: 0 <= i < |s.slots| ==>
         var x, y := s.slots[i], t.slots[i];
         y == x.(status := y.status, up := y.up, reaped := y.reaped)
  }

  lemma ScanStep(cfg: Config, s: State, w: nat)
    requires ScansReady(cfg, s) && WillFree(cfg, s, w)
    ensures var t := Scanned(cfg, s);
      && ParentStep(cfg, s, t)
      && OnlyFreed(s, t)
      && if t.pc.Selecting? then t.slots[w].status == 0
         else ScansReady(cfg, t) && WillFree(cfg, t, w) && t.pc.i == s.pc.i + 1
  {
    var i := s.pc.i;
    if s.pc.nsel == 1 && i < w < |s.slots| && cfg.pipeFd[i] in s.pc.rset {
      CountsOne(cfg.pipeFd, s.pc.rset, i + 1, w);
    }
  }

  lemma {:induction false} CountsOne(fds: seq<nat>, rset: set<nat>, from: nat, w: nat)
    requires from <= w < |fds| && fds[w] in rset
    ensures 1 <= CountIn(fds, rset, from)
    decreases w - from
  {
    if from < w { CountsOne(fds, rset, from + 1, w); }
  }

  lemma {:induction false} ScanPath(cfg: Config, s: State, w: nat) returns (path: seq<State>)
    requires ScansReady(cfg, s) && WillFree(cfg, s, w)
    ensures IsPath(cfg, path, s) && BackAtTop(s, Last(path))
    ensures Last(path).slots[w].status == 0
    decreases |s.slots| - s.pc.i
  {
    var t := Scanned(cfg, s);
    ScanStep(cfg, s, w);
    if t.pc.Selecting? {
      path := [s, t];
    } else {
      assert s.pc.i < |s.slots|;
      path := ScanPath(cfg, t, w);
      PathPrepend(cfg, s, path, t);
      path := [s] + path;
    }
  }

  /** Worker w's stream has ended before its report was sent, and select tests it. */
  ghost predicate Blocks(cfg: Config, s: State, i: nat) {
    i < |s.slots| && i < |cfg.pipeFd| && s.slots[i].pc.Exited? && s.slots[i].up == []
    && cfg.pipeFd[i] < MaxFdp(cfg.sockFd, cfg.pipeFd)
  }

  ghost predicate CanFree(cfg: Config, s: State, w: nat) {
    && w < |s.slots| && w < |cfg.pipeFd| && s.slots[w].up != []
    && cfg.pipeFd[w] < MaxFdp(cfg.sockFd, cfg.pipeFd)
    && forall i: nat :: i < w ==> !Blocks(cfg, s, i)
  }

  lemma ReadyExactly(cfg: Config, s: State, j: nat)
    requires ValidConfig(cfg) && |s.slots| == |cfg.pipeFd| && j < |s.slots|
    ensures cfg.pipeFd[j] in ReadyPipes(cfg, s) <==>
      PipeReady(s.slots[j]) && cfg.pipeFd[j] < MaxFdp(cfg.sockFd, cfg.pipeFd)
  {
    if cfg.pipeFd[j] in ReadyPipes(cfg, s) {
      var i :| 0 <= i < |cfg.pipeFd| && cfg.pipeFd[i] == cfg.pipeFd[j] && PipeReady(s.slots[i]);
      assert i == j;
    }
  }

  /** Every pipe that is ready is reported, and one of them is worker w's. */
  lemma SelectsAll(cfg: Config, s: State, w: nat) returns (t: State)
    requires ValidConfig(cfg) && |s.slots| == |cfg.pipeFd| && CanFree(cfg, s, w)
    ensures var rset := ReadyPipes(cfg, s);
      t == s.(pc := Scanning(0, rset, |rset|)) && ScansReady(cfg, t) && WillFree(cfg, t, w)
  {
    var rset := ReadyPipes(cfg, s);
    t := s.(pc := Scanning(0, rset, |rset|));
    SelectedCount(cfg, rset);
    assert cfg.sockFd !in rset;
    forall j | 0 <= j < |s.slots| ensures cfg.pipeFd[j] in rset <==>
      PipeReady(s.slots[j]) && cfg.pipeFd[j] < MaxFdp(cfg.sockFd, cfg.pipeFd)
    {
      ReadyExactly(cfg, s, j);
    }
    CountsOne(cfg.pipeFd, rset, 0, w);
    forall j | 0 <= j <= w && cfg.pipeFd[j] in rset ensures s.slots[j].up != [] {
      assert !Blocks(cfg, s, j) || j == w;
    }
  }

  /** One whole turn, with a select that reports all that is ready, frees worker w. */
  lemma FreeingTurn(cfg: Config, s: State, w: nat) returns (path: seq<State>)
    requires ValidConfig(cfg) && |s.slots| == |cfg.pipeFd| && s.pc.Selecting? && !s.stop && CanFree(cfg, s, w)
    ensures IsPath(cfg, path, s) && BackAtTop(s, Last(path))
    ensures Last(path).slots[w].status == 0
  {
    var rset := ReadyPipes(cfg, s);
    var u := s.(pc := Polling(rset, false));
    var v := s.(pc := Selected(rset, |rset|));
    ReadyExactly(cfg, s, w);
    assert ReadyPipes(cfg, u) == rset && cfg.sockFd !in rset;
    assert SelectReturns(cfg, u, rset, rset);
    var t := SelectsAll(cfg, s, w);
    path := ScanPath(cfg, t, w);
    PathPrepend(cfg, v, path, t);
    PathPrepend(cfg, u, [v] + path, v);
    PathPrepend(cfg, s, [u] + ([v] + path), u);
    path := [s] + ([u] + ([v] + path));
  }

  /** A client comes, and is accepted. */
  lemma AcceptingTurn(cfg: Config, s: State) returns (path: seq<State>)
    requires s.pc.Selecting? && !s.stop && 0 < s.avail
    ensures IsPath(cfg, path, s) && |path| == 5
    ensures var rset := ReadyPipes(cfg, s) + {cfg.sockFd};
      Last(path) == s.(pc := Handing(s.accepted, rset, |rset|), accepted := s.accepted + 1)
  {
    var rset := ReadyPipes(cfg, s) + {cfg.sockFd};
    var u := s.(pc := Polling(ReadyPipes(cfg, s), false));
    var v := s.(pc := Selected(rset, |rset|));
    var w := s.(pc := Accepting(rset, |rset|));
    assert ReadyPipes(cfg, u) == ReadyPipes(cfg, s);
    assert SelectReturns(cfg, u, ReadyPipes(cfg, s), rset);
    path := [s, u, v, w, AcceptedOne(w)];
  }

  /** And, if no report is waiting, it is handed over before the parent is at the top again. */
  lemma HandingTurn(cfg: Config, s: State) returns (path: seq<State>)
    requires s.pc.Selecting? && !s.stop && 0 < s.avail && ReadyPipes(cfg, s) == {}
    requires FirstFree(s.slots) < |s.slots|
    ensures IsPath(cfg, path, s)
    ensures Last(path) == Submitted(s, s.accepted, FirstFree(s.slots)).(accepted := s.accepted + 1)
  {
    path := AcceptingTurn(cfg, s);
    var t := Last(path);
    assert ReadyPipes(cfg, s) + {cfg.sockFd} == {cfg.sockFd};
    assert ParentStep(cfg, t, Handed(t));
    path := PathAppend(cfg, s, path, Handed(t));
  }

  lemma PathAppend(cfg: Config, s: State, path: seq<State>, t: State) returns (longer: seq<State>)
    requires IsPath(cfg, path, s) && ParentStep(cfg, Last(path), t)
    ensures IsPath(cfg, longer, s) && Last(longer) == t
  {
    longer := path + [t];
    forall k | 0 <= k < |longer| - 1 ensures ParentStep(cfg, longer[k], longer[k + 1]) {
      if k < |path| - 1 { assert ParentStep(cfg, path[k], path[k + 1]); }
    }
  }

  ghost predicate Extends(cfg: Config, run: seq<State>, longer: seq<State>) {
    run <= longer && IsRun(cfg, longer)
  }

  lemma {:induction false} RunOn(cfg: Config, run: seq<State>, path: seq<State>) returns (longer: seq<State>)
    requires IsRun(cfg, run) && IsPath(cfg, path, Last(run))
    ensures Extends(cfg, run, longer) && Last(longer) == Last(path)
    decreases |path|
  {
    if |path| == 1 {
      longer := run;
    } else {
      assert ParentStep(cfg, path[0], path[0 + 1]);
      assert Next(cfg, Last(run), Parent, path[1]);
      RunAppend(cfg, run, path[1]);
      PathTail(cfg, path);
      longer := RunOn(cfg, run + [path[1]], path[1..]);
    }
  }

  lemma PathTail(cfg: Config, path: seq<State>)
    requires |path| > 1 && IsPath(cfg, path, path[0])
    ensures IsPath(cfg, path[1..], path[1]) && Last(path[1..]) == Last(path)
  {
    var rest := path[1..];
    forall k | 0 <= k < |rest| - 1 ensures ParentStep(cfg, rest[k], rest[k + 1]) {
      assert ParentStep(cfg, path[k + 1], path[k + 1 + 1]);
    }
  }
}
