/**
 First-fit hand-off over whole runs: the workers that were ever used are a prefix, exactly as
 long as the largest number of workers that were ever busy at once in the parent's view.
 */
module FirstFit {
  import opened Protocol
  import opened Invariant
  import opened Handoff

  function Busy(s: State): int {
    |s.slots| - s.avail
  }

  function Peak(run: seq<State>): int
    requires run != []
  {
    var last := Busy(run[|run| - 1]);
    if |run| == 1 then last
    else if Peak(run[..|run| - 1]) > last then Peak(run[..|run| - 1]) else last
  }

  /** The peak is what its name says: reached in the run, and never exceeded. */
  lemma {:induction false} PeakIsMaximum(run: seq<State>)
    requires run != []
    ensures forall k :: 0 <= k < |run| ==> Busy(run[k]) <= Peak(run)
    ensures exists k :: 0 <= k < |run| && Busy(run[k]) == Peak(run)
  {
    if |run| == 1 {
      assert Busy(run[0]) == Peak(run);
    } else {
      var front := run[..|run| - 1];
      PeakIsMaximum(front);
      var k :| 0 <= k < |front| && Busy(front[k]) == Peak(front);
      assert Busy(run[k]) == Peak(front) && Busy(run[|run| - 1]) == Busy(run[|run| - 1]);
      forall j | 0 <= j < |run| ensures Busy(run[j]) <= Peak(run) {
        if j < |front| { assert run[j] == front[j]; }
      }
    }
  }

  ghost predicate UsedIs(slots: seq<Slot>, k: int) {
    forall i :: 0 <= i < |slots| ==> (slots[i].count > 0 <==> i < k)
  }

  function Upto(n: nat): (r: set<nat>)
    ensures forall i: nat :: i in r <==> i < n
    ensures |r| == n
  {
    if n == 0 then {}
    else
      var below := Upto(n - 1);
      assert below * {n - 1} == {};
      below + {n - 1}
  }

  function BusySet(slots: seq<Slot>): set<nat> {
    set i | 0 <= i < |slots| && slots[i].status != 0
  }

  lemma BusySize(cfg: Config, s: State)
    requires Inv(cfg, s)
    ensures |BusySet(s.slots)| == Busy(s)
  {
    CountFreeIsCardinality(s.slots);
    assert Upto(|s.slots|) == BusySet(s.slots) + FreeSet(s.slots);
    assert BusySet(s.slots) !! FreeSet(s.slots);
  }

  lemma SubsetSize(a: set<nat>, b: set<nat>)
    requires a <= b
    ensures |a| <= |b|
  {
    assert b == a + (b - a);
  }

  /** Every busy worker was used, and the first free one is not busy. */
  lemma BusyAreUsed(cfg: Config, s: State, peak: nat, i: nat)
    requires Inv(cfg, s) && UsedIs(s.slots, peak) && i < |s.slots| && s.slots[i].status == 0
    ensures BusySet(s.slots) <= Upto(peak) - {i}
  {
    forall j | j in BusySet(s.slots) ensures j in Upto(peak) - {i} {
      assert SlotOk(s.slots, j, Stops(s));
    }
  }

  /** The first free worker either was used before, and then the peak is not exceeded, or is
      the first unused one, and then all the used ones are busy. */
  lemma FirstFreeBound(cfg: Config, s: State, peak: int)
    requires Inv(cfg, s) && s.pc.Handing?
    requires UsedIs(s.slots, peak) && 0 <= Busy(s) <= peak <= |s.slots|
    ensures var i := FirstFree(s.slots);
      i < |s.slots| && (if i < peak then Busy(s) + 1 <= peak else i == peak == Busy(s))
  {
    CountFreeZero(s.slots);
    BusySize(cfg, s);
    var i := FirstFree(s.slots);
    BusyAreUsed(cfg, s, peak, i);
    SubsetSize(BusySet(s.slots), Upto(peak) - {i});
    if peak <= i {
      SubsetSize(Upto(i), BusySet(s.slots));
    }
  }

  lemma StepKeepsPrefix(cfg: Config, s: State, t: State, peak: int)
    requires Inv(cfg, s) && Step(cfg, s, t)
    requires UsedIs(s.slots, peak) && 0 <= Busy(s) <= peak <= |s.slots|
    ensures |t.slots| == |s.slots|
    ensures UsedIs(t.slots, if peak > Busy(t) then peak else Busy(t))
  {
    var a :| Next(cfg, s, a, t);
    StepEffect(cfg, s, a, t);
    if a.Parent? && s.pc.Handing? {
      FirstFreeBound(cfg, s, peak);
      var i := FirstFree(s.slots);
      assert SlotOk(s.slots, i, 0);
      assert forall j :: 0 <= j < |s.slots| && j != i ==> t.slots[j] == s.slots[j];
    }
  }

  lemma PeakExtends(cfg: Config, front: seq<State>, t: State)
    requires front != [] && Inv(cfg, front[|front| - 1]) && Inv(cfg, t) && Step(cfg, front[|front| - 1], t)
    requires 0 <= Peak(front) <= |cfg.pipeFd| && UsedIs(front[|front| - 1].slots, Peak(front))
    ensures 0 <= Peak(front + [t]) <= |cfg.pipeFd| && UsedIs(t.slots, Peak(front + [t]))
  {
    PeakIsMaximum(front);
    assert Busy(front[|front| - 1]) <= Peak(front);
    StepKeepsPrefix(cfg, front[|front| - 1], t, Peak(front));
    assert (front + [t])[..|front|] == front;
  }

  /** First-fit never uses more workers than were ever needed at once, over every run. */
  lemma {:induction false} UsedWorkersArePeak(cfg: Config, run: seq<State>)
    requires IsRun(cfg, run)
    ensures |run[|run| - 1].slots| == |cfg.pipeFd|
    ensures 0 <= Peak(run) <= |cfg.pipeFd| && UsedIs(run[|run| - 1].slots, Peak(run))
  {
    var m := |run| - 1;
    RunInv(cfg, run, m);
    if m > 0 {
      RunPrefix(cfg, run, m);
      UsedWorkersArePeak(cfg, run[..m]);
      RunInv(cfg, run, m - 1);
      assert Step(cfg, run[m - 1], run[m - 1 + 1]);
      PeakExtends(cfg, run[..m], run[m]);
      assert run == run[..m] + [run[m]];
    }
  }
}
