/**
 Underscore's throttle (docs/_static/underscore.js). An invocation of the throttled function
 begins when control enters it and ends when it returns; in between it may call the throttled
 wrapper again, while timers cannot fire. Times are integers.
 */
module Throttle {
  import opened Wrappers

  type Args = int

  datatype Options = Options(wait: int, leading: bool, trailing: bool)

  /** Of the wrapper or of the function; the latter is passed what `args` then holds. */
  datatype Invocation = Invocation(time: int, args: Option<Args>)

  /** The closure's variables `timeout` (when it is due), `previous` and `args`; then the clock,
      how many invocations are in progress, and all that began. */
  datatype State = State(
    timeout: Option<int>, previous: int, args: Option<Args>,
    clock: int, running: nat, log: seq<Invocation>)

  /** The clock never goes back; a timer fires when it is due or later, and not while the
      function is running. */
  datatype Event = Call(now: int, args: Args) | Timer(now: int) | Return

  predicate Enabled(s: State, e: Event) {
    match e
    case Call(now, _) => s.clock <= now
    case Timer(now) => s.timeout.Some? && s.timeout.value <= now && s.clock <= now && s.running == 0
    case Return => 0 < s.running
  }

  function Initial(clock: int): State {
    State(None, 0, None, clock, 0, [])
  }

  function Began(s: State, now: int): State {
    s.(running := s.running + 1, log := s.log + [Invocation(now, s.args)])
  }

  /** A call of the wrapper, up to the point where it enters the function or returns. */
  function Called(o: Options, s0: State, now: int, args: Args): State {
    var previous := if s0.previous == 0 && !o.leading then now else s0.previous;
    var remaining := o.wait - (now - previous);
    var s := s0.(previous := previous, args := Some(args), clock := now);
    if remaining <= 0 || remaining > o.wait then Began(s.(timeout := None, previous := now), now)
    else if s.timeout.None? && o.trailing then s.(timeout := Some(now + remaining))
    else s
  }

  /** The timer, up to the point where it enters the function. */
  function Fired(o: Options, s: State, now: int): State {
    Began(s.(previous := if o.leading then now else 0, timeout := None, clock := now), now)
  }

  /** The function returns: the arguments are forgotten unless a timer still needs them. */
  function Returned(s: State): State
    requires 0 < s.running
  {
    s.(running := s.running - 1, args := if s.timeout.None? then None else s.args)
  }

  function Step(o: Options, s: State, e: Event): State
    requires Enabled(s, e)
  {
    match e
    case Call(now, args) => Called(o, s, now, args)
    case Timer(now) => Fired(o, s, now)
    case Return => Returned(s)
  }

  ghost predicate IsStep(o: Options, s: State, e: Event, t: State) {
    Enabled(s, e) && t == Step(o, s, e)
  }

  ghost predicate IsRun(o: Options, run: seq<State>, events: seq<Event>) {
    && |run| == |events| + 1
    && (exists clock :: run[0] == Initial(clock))
    && forall k :: 0 <= k < |events| ==> IsStep(o, run[k], events[k], run[k + 1])
  }

  /** The last call of the wrapper among the events. */
  function LastCall(events: seq<Event>): Option<Invocation> {
    if events == [] then None
    else
      match events[|events| - 1]
      case Call(now, args) => Some(Invocation(now, Some(args)))
      case _ => LastCall(events[..|events| - 1])
  }

  // ---------------------------------------------------------------- all runs

  /** A negative wait is none. */
  function Gap(o: Options): nat {
    if o.wait > 0 then o.wait else 0
  }

  ghost predicate Spaced(o: Options, log: seq<Invocation>) {
    forall i, j :: 0 <= i < j < |log| ==> Gap(o) <= log[j].time - log[i].time
  }

  /** The last call was served: it is not later than the last invocation, which passed its
      arguments; or a timer is pending, due within `wait` of it, and will pass them. */
  predicate Served(o: Options, s: State, call: Invocation) {
    if s.timeout.None? then
      s.log != [] && s.log[|s.log| - 1].args == call.args && call.time <= s.log[|s.log| - 1].time
    else
      s.args == call.args && s.timeout.value <= call.time + o.wait
  }

  /** What `timeout`, `previous` and `args` mean, `call` being the last call. The second case of
      `previous` is its use as "not set" when the leading edge is off. */
  ghost predicate Inv(o: Options, s: State, call: Option<Invocation>) {
    && Spaced(o, s.log)
    && (s.log != [] ==>
          var last := s.log[|s.log| - 1].time;
          && last <= s.clock
          && (last <= s.previous <= s.clock || (!o.leading && s.previous == 0))
          && (o.leading ==> s.previous == last)
          && (s.timeout.Some? ==> last + o.wait <= s.timeout.value))
    && (o.leading && s.log == [] ==> s.previous == 0)
    && (call.Some? ==> call.value.time <= s.clock && call.value.args.Some?)
    && (s.timeout.Some? ==> o.trailing && call.Some?)
    && (o.trailing && call.Some? ==> Served(o, s, call.value))
  }

  function After(call: Option<Invocation>, e: Event): Option<Invocation> {
    match e
    case Call(now, args) => Some(Invocation(now, Some(args)))
    case _ => call
  }

  lemma SpacedAppend(o: Options, log: seq<Invocation>, x: Invocation)
    requires Spaced(o, log)
    requires log != [] ==> log[|log| - 1].time + Gap(o) <= x.time
    ensures Spaced(o, log + [x])
  {
  }

  lemma StepInv(o: Options, s: State, call: Option<Invocation>, e: Event)
    requires Inv(o, s, call) && Enabled(s, e)
    ensures Inv(o, Step(o, s, e), After(call, e))
  {
    match e
    case Call(now, args) =>
      if |Called(o, s, now, args).log| > |s.log| { SpacedAppend(o, s.log, Invocation(now, Some(args))); }
    case Timer(now) => SpacedAppend(o, s.log, Invocation(now, s.args));
    case Return =>
  }

  lemma LastCallStep(events: seq<Event>, k: nat)
    requires k < |events|
    ensures LastCall(events[..k + 1]) == After(LastCall(events[..k]), events[k])
  {
    assert events[..k + 1][..k] == events[..k];
  }

  lemma {:induction false} RunInv(o: Options, run: seq<State>, events: seq<Event>, k: nat)
    requires IsRun(o, run, events) && k < |run|
    ensures Inv(o, run[k], LastCall(events[..k]))
  {
    if k > 0 {
      RunInv(o, run, events, k - 1);
      assert IsStep(o, run[k - 1], events[k - 1], run[k - 1 + 1]);
      StepInv(o, run[k - 1], LastCall(events[..k - 1]), events[k - 1]);
      LastCallStep(events, k - 1);
    }
  }

  /** Any two invocations begin at least `wait` apart, for every setting of leading and
      trailing and every nesting of calls inside the function. */
  lemma InvocationsAreSpaced(o: Options, run: seq<State>, events: seq<Event>, k: nat, i: nat, j: nat)
    requires IsRun(o, run, events) && k < |run|
    requires i < j < |run[k].log|
    ensures Gap(o) <= run[k].log[j].time - run[k].log[i].time
  {
    RunInv(o, run, events, k);
  }

  /** With trailing on no last call is lost: after any number of events the last call has been
      followed by an invocation with its arguments, or run at once, or a timer is pending that
      will pass them. */
  lemma LatestCallIsServed(o: Options, run: seq<State>, events: seq<Event>, k: nat)
    requires o.trailing && IsRun(o, run, events) && k < |run|
    ensures var call := LastCall(events[..k]); call.Some? ==> Served(o, run[k], call.value)
  {
    RunInv(o, run, events, k);
  }

  /** A timer that fires passes the arguments of the last call; it never finds them forgotten. */
  lemma TimerPassesLatest(o: Options, run: seq<State>, events: seq<Event>, k: nat)
    requires IsRun(o, run, events) && k < |events| && events[k].Timer?
    ensures var call := LastCall(events[..k]);
      && call.Some? && call.value.args.Some?
      && run[k + 1].log == run[k].log + [Invocation(events[k].now, call.value.args)]
  {
    RunInv(o, run, events, k);
    assert IsStep(o, run[k], events[k], run[k + 1]);
  }

  /** With trailing off there is never a timer: a call runs at once or not at all. */
  lemma {:induction false} NoTimerWithoutTrailing(o: Options, run: seq<State>, events: seq<Event>, k: nat)
    requires !o.trailing && IsRun(o, run, events) && k < |run|
    ensures run[k].timeout.None?
  {
    RunInv(o, run, events, k);
  }

  /** What becomes of a call: it runs at once, or a timer will pass its arguments, if there is
      to be a trailing edge. With the leading edge on, the function runs as often as the spacing
      allows: at once if and only if `wait` has passed since the last invocation began. */
  lemma CallMeans(o: Options, run: seq<State>, events: seq<Event>, k: nat)
    requires IsRun(o, run, events) && k < |events| && events[k].Call?
    ensures var s, e, t := run[k], events[k], run[k + 1];
      && (t.log == s.log || t.log == s.log + [Invocation(e.now, Some(e.args))])
      && (t.log == s.log && o.trailing ==>
            t.timeout.Some? && t.timeout.value <= e.now + o.wait && t.args == Some(e.args))
      && (o.leading && s.log != [] ==> (t.log != s.log <==> o.wait <= e.now - s.log[|s.log| - 1].time))
  {
    RunInv(o, run, events, k);
    RunInv(o, run, events, k + 1);
    LastCallStep(events, k);
    assert IsStep(o, run[k], events[k], run[k + 1]);
  }

  // ---------------------------------------------------------------- exactly when a call runs

  /** The time from which `wait` is counted: the last invocation; or, with the leading edge off, the
      first call since the timer fired last, or since the beginning. Before there is one, it is
      absent; with the leading edge on it starts with the clock's 0. */
  function Since(o: Options, run: seq<State>, events: seq<Event>, k: nat): Option<int>
    requires k < |run| == |events| + 1
  {
    if k == 0 then (if o.leading then Some(0) else None)
    else
      var before := Since(o, run, events, k - 1);
      match events[k - 1]
      case Timer(now) => if o.leading then Some(now) else None
      case Call(now, _) => if run[k].log != run[k - 1].log || before.None? then Some(now) else before
      case Return => before
  }

  lemma {:induction false} SinceIs(o: Options, run: seq<State>, events: seq<Event>, k: nat)
    requires IsRun(o, run, events) && k < |run| && 0 < run[0].clock
    ensures 0 < run[k].clock
    ensures match Since(o, run, events, k)
      case None => !o.leading && run[k].previous == 0 && run[k].timeout.None?
      case Some(t) => run[k].previous == t <= run[k].clock && (if o.leading then 0 <= t else 0 < t)
                      && (run[k].timeout.Some? ==> run[k].timeout.value == t + o.wait)
    decreases k
  {
    if k > 0 {
      SinceIs(o, run, events, k - 1);
      assert IsStep(o, run[k - 1], events[k - 1], run[k - 1 + 1]);
    }
  }

  /** A call runs at once if and only if `wait` has passed since then, a first call counting from
      itself. If it does not, and there is to be a trailing edge, the timer is due as soon as
      `wait` will have passed. */
  lemma CallRunsIff(o: Options, run: seq<State>, events: seq<Event>, k: nat)
    requires IsRun(o, run, events) && k < |events| && events[k].Call? && 0 < run[0].clock
    ensures var s, e, t := run[k], events[k], run[k + 1];
            var since := match Since(o, run, events, k) case None => e.now case Some(x) => x;
      if o.wait <= e.now - since
      then t.log == s.log + [Invocation(e.now, Some(e.args))] && t.timeout == None
      else t.log == s.log && t.timeout == if o.trailing then Some(since + o.wait) else None
  {
    SinceIs(o, run, events, k);
    RunInv(o, run, events, k);
    assert IsStep(o, run[k], events[k], run[k + 1]);
  }

  /** With the leading edge off, the first call after a timer, or of all, never runs at once: it
      is put off by `wait`, or dropped if there is no trailing edge. */
  lemma {:induction false} FirstCallWaits(o: Options, run: seq<State>, events: seq<Event>, m: nat, k: nat)
    requires IsRun(o, run, events) && !o.leading && 0 < o.wait
    requires m <= k < |events| && events[k].Call? && (m == 0 || events[m - 1].Timer?)
    requires forall i :: m <= i < k ==> !events[i].Call?
    ensures run[k + 1].log == run[k].log
    ensures run[k + 1].timeout == if o.trailing then Some(events[k].now + o.wait) else None
  {
    StillUnset(o, run, events, m, k);
    assert IsStep(o, run[k], events[k], run[k + 1]);
  }

  lemma {:induction false} StillUnset(o: Options, run: seq<State>, events: seq<Event>, m: nat, k: nat)
    requires IsRun(o, run, events) && !o.leading
    requires m <= k < |run| && (m == 0 || events[m - 1].Timer?)
    requires forall i :: m <= i < k ==> !events[i].Call?
    ensures run[k].previous == 0 && run[k].timeout.None?
    decreases k
  {
    if k > 0 {
      assert IsStep(o, run[k - 1], events[k - 1], run[k - 1 + 1]);
      if m < k { StillUnset(o, run, events, m, k - 1); }
    }
  }

  // ---------------------------------------------------------------- the closure

  class Throttled {
    const o: Options
    var timeout: Option<int>
    var previous: int
    var args: Option<Args>
    // Not in the source: what an observer sees, and the run so far.
    var clock: int
    var running: nat
    var log: seq<Invocation>
    ghost var run: seq<State>
    ghost var events: seq<Event>

    function View(): State
      reads this
    {
      State(timeout, previous, args, clock, running, log)
    }

    ghost predicate Valid()
      reads this
    {
      IsRun(o, run, events) && run[|events|] == View()
    }

    constructor (o: Options, clock: int)
      ensures Valid() && this.o == o && events == [] && this.clock == clock
    {
      this.o := o;
      timeout, previous, args := None, 0, None;
      this.clock, running, log := clock, 0, [];
      run, events := [Initial(clock)], [];
    }

    /** The call runs the function at once, or a timer has been or was set, if there is to be a
        trailing edge. */
    method Call(now: int, a: Args) returns (enters: bool)
      requires Valid() && Enabled(View(), Event.Call(now, a))
      modifies this
      ensures Valid() && events == old(events) + [Event.Call(now, a)] && run == old(run) + [View()]
      ensures log == if enters then old(log) + [Invocation(now, Some(a))] else old(log)
      ensures !enters && o.trailing ==> timeout.Some? && timeout.value <= now + o.wait && args == Some(a)
      ensures o.leading && old(log) != [] ==> (enters <==> o.wait <= now - old(log)[|old(log)| - 1].time)
    {
      ghost var before := View();
      enters := Enter(now, a);
      Record(before, Event.Call(now, a));
      CallMeans(o, run, events, |old(events)|);
    }

    /** The body of the wrapper, up to where it enters the function or returns. */
    method Enter(now: int, a: Args) returns (enters: bool)
      modifies `timeout, `previous, `args, `clock, `running, `log
      ensures View() == Called(o, old(View()), now, a) && (enters <==> log != old(log))
    {
      clock := now;
      if previous == 0 && !o.leading { previous := now; }
      var remaining := o.wait - (now - previous);
      args := Some(a);
      enters := false;
      if remaining <= 0 || remaining > o.wait {
        if timeout.Some? {
          timeout := None;
        }
        previous := now;
        enters := true;
        running, log := running + 1, log + [Invocation(now, args)];
      } else if timeout.None? && o.trailing {
        timeout := Some(now + remaining);
      }
    }

    /** The timer runs the function with the arguments of the last call. */
    method Later(now: int)
      requires Valid() && Enabled(View(), Timer(now))
      modifies this
      ensures Valid() && events == old(events) + [Timer(now)] && run == old(run) + [View()]
      ensures LastCall(old(events)).Some?
      ensures log == old(log) + [Invocation(now, LastCall(old(events)).value.args)]
    {
      ghost var before := View();
      clock := now;
      previous := if !o.leading then 0 else now;
      timeout := None;
      running, log := running + 1, log + [Invocation(now, args)];
      Record(before, Timer(now));
      TimerPassesLatest(o, run, events, |old(events)|);
      assert events[..|old(events)|] == old(events);
    }

    method Return()
      requires Valid() && Enabled(View(), Event.Return)
      modifies this
      ensures Valid() && events == old(events) + [Event.Return] && run == old(run) + [View()]
      ensures log == old(log) && timeout == old(timeout) && args == if timeout.None? then None else old(args)
    {
      ghost var before := View();
      running := running - 1;
      if timeout.None? { args := None; }
      Record(before, Event.Return);
    }

    /** What happened since the last recorded state was this event. */
    ghost method Record(before: State, e: Event)
      requires IsRun(o, run, events) && run[|events|] == before && IsStep(o, before, e, View())
      modifies `run, `events
      ensures Valid() && events == old(events) + [e] && run == old(run) + [View()]
    {
      RunExtends(o, run, events, e, View());
      run, events := run + [View()], events + [e];
    }
  }

  lemma RunExtends(o: Options, run: seq<State>, events: seq<Event>, e: Event, t: State)
    requires IsRun(o, run, events) && IsStep(o, run[|events|], e, t)
    ensures IsRun(o, run + [t], events + [e])
  {
    var longer, more := run + [t], events + [e];
    assert longer[0] == run[0];
    forall k | 0 <= k < |more| ensures IsStep(o, longer[k], more[k], longer[k + 1]) {
      if k < |events| { assert IsStep(o, run[k], events[k], run[k + 1]); }
    }
  }

  /** The events of a script that the clock, the timer and the function allow, in order. */
  function Happened(o: Options, clock: int, script: seq<Event>): (r: (State, seq<Event>))
  {
    if script == [] then (Initial(clock), [])
    else
      var (s, events) := Happened(o, clock, script[..|script| - 1]);
      var e := script[|script| - 1];
      if Enabled(s, e) then (Step(o, s, e), events + [e]) else (s, events)
  }

  /** Any use of the closure: the invocations are spaced, and with trailing on the last call is
      not lost. */
  method Use(o: Options, clock: int, script: seq<Event>) returns (log: seq<Invocation>, end: State)
    ensures end == Happened(o, clock, script).0 && log == end.log
    ensures Spaced(o, log)
    ensures var call := LastCall(Happened(o, clock, script).1); o.trailing && call.Some? ==> Served(o, end, call.value)
  {
    var t := new Throttled(o, clock);
    for i := 0 to |script|
      invariant fresh(t) && t.o == o && t.Valid()
      invariant (t.View(), t.events) == Happened(o, clock, script[..i])
    {
      assert script[..i + 1][..i] == script[..i];
      if Enabled(t.View(), script[i]) {
        ghost var s, n := t.View(), |t.events|;
        match script[i] {
          case Call(now, a) => var enters := t.Call(now, a);
          case Timer(now) => t.Later(now);
          case Return => t.Return();
        }
        assert IsStep(o, t.run[n], t.events[n], t.run[n + 1]) && t.run[n] == s;
      }
    }
    assert script[..|script|] == script;
    log, end := t.log, t.View();
    RunInv(o, t.run, t.events, |t.events|);
    assert t.events[..|t.events|] == t.events;
  }
}
