/**
 The whole system of parent, streams and workers simulates a server with n permits.
 */
module Permits {
  import opened Protocol
  import opened Invariant
  import opened Handoff
  import opened Turns

  datatype Server = Server(permits: int, outstanding: int)

  datatype Event = Acquire | Release | Internal

  ghost predicate ServerStep(a: Server, e: Event, b: Server) {
    match e
    case Acquire => 0 < a.permits && b == Server(a.permits - 1, a.outstanding + 1)
    case Release => 0 < a.outstanding && b == Server(a.permits + 1, a.outstanding - 1)
    case Internal => b == a
  }

  function SumTokens(slots: seq<Slot>): nat {
    if slots == [] then 0 else SumTokens(slots[..|slots| - 1]) + TokensOf(slots[|slots| - 1])
  }

  /** A permit is what the parent has left to accept with. Outstanding are the jobs that exist
      anywhere: just accepted, in a stream, in progress, or reported and not yet reaped. */
  function Abs(s: State): Server {
    var accepting := if s.pc.Handing? then 1 else 0;
    Server(s.avail - accepting, SumTokens(s.slots) + accepting)
  }

  /** The event of a step is read off what it visibly does: accept a connection, or reap. */
  function EventOf(s: State, t: State): Event {
    if s.accepted < t.accepted then Acquire
    else if s.avail < t.avail then Release
    else Internal
  }

  lemma {:induction false} SumTokensIsBusy(slots: seq<Slot>)
    requires forall i :: 0 <= i < |slots| ==> slots[i].status == TokensOf(slots[i]) <= 1
    ensures SumTokens(slots) == |slots| - CountFree(slots)
  {
    if slots != [] { SumTokensIsBusy(slots[..|slots| - 1]); }
  }

  lemma InvTokens(cfg: Config, s: State)
    requires Inv(cfg, s)
    ensures SumTokens(s.slots) == |s.slots| - s.avail
  {
    forall i | 0 <= i < |s.slots| ensures s.slots[i].status == TokensOf(s.slots[i]) <= 1 {
      assert SlotOk(s.slots, i, Stops(s));
      DownForms(s.slots[i], i < Stops(s));
    }
    SumTokensIsBusy(s.slots);
  }

  lemma StepSimulates(cfg: Config, s: State, t: State)
    requires Inv(cfg, s) && Step(cfg, s, t)
    ensures ServerStep(Abs(s), EventOf(s, t), Abs(t))
  {
    var a :| Next(cfg, s, a, t);
    StepEffect(cfg, s, a, t);
    StepInv(cfg, s, t);
    InvTokens(cfg, s);
    InvTokens(cfg, t);
    CountFreeZero(s.slots);
  }

  /** Forward simulation over every run: each step is the permit server's step for its event,
      and permits and outstanding jobs always make n. */
  lemma SimulatesPermits(cfg: Config, run: seq<State>, k: nat)
    requires IsRun(cfg, run) && k < |run|
    ensures Abs(run[0]) == Server(|cfg.pipeFd|, 0)
    ensures Abs(run[k]).permits + Abs(run[k]).outstanding == |cfg.pipeFd|
    ensures 0 <= Abs(run[k]).permits && 0 <= Abs(run[k]).outstanding
    ensures k + 1 < |run| ==> ServerStep(Abs(run[k]), EventOf(run[k], run[k + 1]), Abs(run[k + 1]))
  {
    RunInv(cfg, run, 0);
    InvTokens(cfg, run[0]);
    RunInv(cfg, run, k);
    InvTokens(cfg, run[k]);
    if k + 1 < |run| {
      assert Step(cfg, run[k], run[k + 1]);
      StepSimulates(cfg, run[k], run[k + 1]);
    }
  }

  /** The parent's next four steps can be: it enters select, select returns, the stop flag is
      tested, and a connection is accepted. */
  ghost predicate CanAccept(cfg: Config, s: State) {
    exists path :: AcceptsAlong(cfg, s, path)
  }

  ghost predicate AcceptsAlong(cfg: Config, s: State, path: seq<State>) {
    IsPath(cfg, path, s) && |path| == 5 && Last(path).accepted == s.accepted + 1
  }

  /** At the top of the loop of a server that is not being stopped, the parent can go on to
      accept if and only if a permit is left. */
  lemma AcceptNeedsPermit(cfg: Config, run: seq<State>)
    requires IsRun(cfg, run) && Last(run).pc.Selecting? && !Last(run).stop
    ensures 0 < Abs(Last(run)).permits <==> CanAccept(cfg, Last(run))
  {
    var s := Last(run);
    if 0 < s.avail {
      var path := AcceptingTurn(cfg, s);
      assert AcceptsAlong(cfg, s, path);
    } else {
      forall path ensures !AcceptsAlong(cfg, s, path) {
        NoPermitNoAccept(cfg, s, path);
      }
    }
  }

  lemma NotWatched(cfg: Config, s: State, u: State, v: State)
    requires ValidConfig(cfg) && s.pc.Selecting? && !s.stop && s.avail <= 0
    requires ParentStep(cfg, s, u) && ParentStep(cfg, u, v)
    ensures v == s.(pc := v.pc) && v.pc.Selected? && cfg.sockFd !in v.pc.rset
  {
    var rset :| SelectReturns(cfg, u, u.pc.ready, rset) && v == u.(pc := Selected(rset, |rset|));
  }

  lemma NoPermitNoAccept(cfg: Config, s: State, path: seq<State>)
    requires ValidConfig(cfg) && s.pc.Selecting? && !s.stop && s.avail <= 0
    ensures !AcceptsAlong(cfg, s, path)
  {
    if IsPath(cfg, path, s) && |path| == 5 {
      assert ParentStep(cfg, path[0], path[0 + 1]) && ParentStep(cfg, path[1], path[1 + 1]);
      assert ParentStep(cfg, path[2], path[2 + 1]) && ParentStep(cfg, path[3], path[3 + 1]);
      NotWatched(cfg, s, path[1], path[2]);
      ScanAcceptsNothing(cfg, path[3], path[4]);
    }
  }

  lemma ScanAcceptsNothing(cfg: Config, v: State, t: State)
    requires v.pc.Scanning? && ParentStep(cfg, v, t)
    ensures t.accepted == v.accepted
  {
  }
}
