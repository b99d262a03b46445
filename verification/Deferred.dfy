/**
 jQuery's Deferred (docs/_static/jquery.js): two callback lists, built with the options "once"
 and "memory", that disable each other. Callbacks are user code that may call the Deferred
 again; as each registration runs at most once, what it does is given as a script of calls.
 */
module Deferred {
  import opened Wrappers

  /** The context and arguments of a settlement. */
  type Value = int

  datatype Side = OnDone | OnFail

  datatype Call = Resolve(value: Value) | Reject(value: Value) | Done(cb: Callback) | Fail(cb: Callback)

  datatype Callback = Callback(name: int, script: seq<Call>)

  /** The functions in a list: the built-in ones that record the state, disable the opposite
      list and act on the handler and progress lists, and the registered ones. */
  datatype Entry = Settle(side: Side) | DisableOther(side: Side) | Elsewhere | User(cb: Callback)

  function BuiltIn(side: Side): seq<Entry> {
    [Settle(side), DisableOther(side), Elsewhere, Elsewhere, Elsewhere, Elsewhere]
  }

  function Users(cbs: seq<Callback>): seq<Entry> {
    seq(|cbs|, k requires 0 <= k < |cbs| => User(cbs[k]))
  }

  // ---------------------------------------------------------------- the reference semantics

  /** What is registered on the winning side by the calls of a script, in order. */
  function Added(side: Side, script: seq<Call>): seq<Callback> {
    if script == [] then []
    else
      var rest := Added(side, script[1..]);
      match script[0]
      case Done(cb) => if side == OnDone then [cb] + rest else rest
      case Fail(cb) => if side == OnFail then [cb] + rest else rest
      case _ => rest
  }

  function Weight(cb: Callback): nat {
    1 + ScriptWeight(cb.script)
  }

  function CallWeight(call: Call): nat {
    match call
    case Done(cb) => Weight(cb)
    case Fail(cb) => Weight(cb)
    case _ => 0
  }

  function ScriptWeight(script: seq<Call>): nat {
    if script == [] then 0 else CallWeight(script[0]) + ScriptWeight(script[1..])
  }

  function TotalWeight(cbs: seq<Callback>): nat {
    if cbs == [] then 0 else Weight(cbs[0]) + TotalWeight(cbs[1..])
  }

  lemma {:induction false} TotalWeightAppend(a: seq<Callback>, b: seq<Callback>)
    ensures TotalWeight(a + b) == TotalWeight(a) + TotalWeight(b)
  {
    if a == [] {
      assert a + b == b;
    } else {
      assert (a + b)[1..] == a[1..] + b;
      TotalWeightAppend(a[1..], b);
    }
  }

  lemma AddedOne(side: Side, call: Call)
    ensures Added(side, [call]) ==
      if (call.Done? && side == OnDone) || (call.Fail? && side == OnFail) then [call.cb] else []
  {
    assert [call][1..] == [];
  }

  lemma {:induction false} AddedWeight(side: Side, script: seq<Call>)
    ensures TotalWeight(Added(side, script)) <= ScriptWeight(script)
  {
    if script != [] {
      AddedWeight(side, script[1..]);
      var rest := Added(side, script[1..]);
      match script[0]
      case Done(cb) => assert ([cb] + rest)[1..] == rest;
      case Fail(cb) => assert ([cb] + rest)[1..] == rest;
      case _ =>
    }
  }

  /** A worklist: run the first waiting callback, and put what it registers at the end. */
  function Burst(side: Side, waiting: seq<Callback>): seq<Callback>
    decreases TotalWeight(waiting)
  {
    if waiting == [] then []
    else
      AddedWeight(side, waiting[0].script);
      TotalWeightAppend(waiting[1..], Added(side, waiting[0].script));
      [waiting[0]] + Burst(side, waiting[1..] + Added(side, waiting[0].script))
  }

  /** Running the first of what waits leads to the same end, with less left to do. */
  lemma BurstStep(side: Side, waiting: seq<Callback>, ran: seq<Callback>)
    requires waiting != []
    ensures var left := waiting[1..] + Added(side, waiting[0].script);
      && TotalWeight(left) < TotalWeight(waiting)
      && ran + [waiting[0]] + Burst(side, left) == ran + Burst(side, waiting)
  {
    AddedWeight(side, waiting[0].script);
    TotalWeightAppend(waiting[1..], Added(side, waiting[0].script));
    var left := waiting[1..] + Added(side, waiting[0].script);
    assert ran + [waiting[0]] + Burst(side, left) == ran + ([waiting[0]] + Burst(side, left));
  }

  /** A promise without lists, queues and flags: the first settlement, what waits on each
      side, and what has run. */
  datatype Promise = Promise(outcome: Option<(Side, Value)>, onDone: seq<Callback>, onFail: seq<Callback>, ran: seq<Callback>)

  const FRESH: Promise := Promise(None, [], [], [])

  function Settled(p: Promise, side: Side, v: Value): Promise {
    if p.outcome.Some? then p
    else p.(outcome := Some((side, v)), ran := Burst(side, if side == OnDone then p.onDone else p.onFail))
  }

  function Registered(p: Promise, side: Side, cb: Callback): Promise {
    match p.outcome
    case None => if side == OnDone then p.(onDone := p.onDone + [cb]) else p.(onFail := p.onFail + [cb])
    case Some(o) => if o.0 == side then p.(ran := p.ran + Burst(side, [cb])) else p
  }

  function After(p: Promise, call: Call): Promise {
    match call
    case Resolve(v) => Settled(p, OnDone, v)
    case Reject(v) => Settled(p, OnFail, v)
    case Done(cb) => Registered(p, OnDone, cb)
    case Fail(cb) => Registered(p, OnFail, cb)
  }

  function AfterAll(p: Promise, calls: seq<Call>): Promise {
    if calls == [] then p else After(AfterAll(p, calls[..|calls| - 1]), calls[|calls| - 1])
  }

  // ---------------------------------------------------------------- the lists

  /** `list` is None where the source stores an empty string, which switches `add` off. */
  class Callbacks {
    var list: Option<seq<Entry>>
    var queue: seq<Value>
    var locked: bool
    var memory: Option<Value>
    var firing: bool
    var fired: bool
    var firingIndex: int

    constructor (entries: seq<Entry>)
      ensures list == Some(entries) && queue == [] && !locked && memory == None
      ensures !firing && !fired && firingIndex == -1
    {
      list, queue, locked, memory, firing, fired, firingIndex := Some(entries), [], false, None, false, false, -1;
    }

    function Length(): nat
      reads `list
    {
      match list case None => 0 case Some(l) => |l|
    }

    method Disable()
      modifies this
      ensures list == None && queue == [] && locked && memory == None
      ensures firing == old(firing) && fired == old(fired) && firingIndex == old(firingIndex)
    {
      locked, queue := true, [];
      list, memory := None, None;
    }

    ghost predicate IsPending(side: Side, waiting: seq<Callback>)
      reads this
    {
      && list == Some(BuiltIn(side) + Users(waiting)) && queue == []
      && !locked && memory == None && !firing && !fired && firingIndex == -1
    }

    ghost predicate IsDisabled()
      reads this
    {
      list == None && queue == [] && locked && memory == None && !firing && !fired
    }

    ghost predicate IsFired(v: Value)
      reads this
    {
      list == Some([]) && queue == [] && locked && memory == Some(v) && !firing && fired && firingIndex == -1
    }

    /** In the middle of firing: what is behind the current entry is still waiting. */
    ghost predicate IsFiring(v: Value, waiting: seq<Callback>)
      reads this
    {
      && list.Some? && -1 <= firingIndex < |list.value| && list.value[firingIndex + 1..] == Users(waiting)
      && queue == [] && locked && memory == Some(v) && firing && fired
    }
  }

  datatype State = Pending | Resolved | Rejected

  /** A call of a callback: with what value, and in what state of the Deferred. */
  datatype Ran = Ran(side: Side, cb: Callback, value: Value, seen: State)

  function Runs(side: Side, cbs: seq<Callback>, v: Value): seq<Ran> {
    seq(|cbs|, k requires 0 <= k < |cbs| => Ran(side, cbs[k], v, StateOf(side)))
  }

  /** A call of done or fail. */
  datatype Registration = Registration(side: Side, cb: Callback)

  function OnSide(side: Side, made: seq<Registration>): seq<Callback> {
    if made == [] then []
    else
      var r := made[|made| - 1];
      OnSide(side, made[..|made| - 1]) + (if r.side == side then [r.cb] else [])
  }

  lemma OnSideAppend(side: Side, made: seq<Registration>, r: Registration)
    ensures OnSide(side, made + [r]) == OnSide(side, made) + (if r.side == side then [r.cb] else [])
  {
    assert (made + [r])[..|made|] == made;
  }

  /** How many entries come before the registered callbacks. */
  function Lead(side: Side, p: Promise): nat {
    if p.outcome == None then |BuiltIn(side)| else 0
  }

  function Other(side: Side): Side {
    if side == OnDone then OnFail else OnDone
  }

  function StateOf(side: Side): State {
    if side == OnDone then Resolved else Rejected
  }

  /** Where a call comes from: outside of any callback, or from a callback of the winning side. */
  datatype Context =
    | Top(p: Promise)
    | Within(side: Side, v: Value, waiting: seq<Callback>, ran: seq<Callback>)

  function Then(ctx: Context, call: Call): Context {
    match ctx
    case Top(p) => Top(After(p, call))
    case Within(side, v, waiting, ran) => Within(side, v, waiting + Added(side, [call]), ran)
  }

  lemma BuiltInTail(side: Side, waiting: seq<Callback>)
    ensures (BuiltIn(side) + Users(waiting))[|BuiltIn(side)|..] == Users(waiting)
  {
  }

  lemma AppendNothing(ctx: Context, call: Call)
    ensures ctx.Within? && Added(ctx.side, [call]) == [] ==> Then(ctx, call) == ctx
    ensures ctx.Within? ==>
      (Added(ctx.side, [call]) ==
       if (call.Done? && ctx.side == OnDone) || (call.Fail? && ctx.side == OnFail) then [call.cb] else [])
  {
    if ctx.Within? {
      AddedOne(ctx.side, call);
      assert ctx.waiting + [] == ctx.waiting;
    }
  }

  /** The callbacks of one side that wait to be run, as the context has them. */
  function Waiting(ctx: Context, side: Side): seq<Callback> {
    match ctx
    case Top(p) => if side == OnDone then p.onDone else p.onFail
    case Within(_, _, waiting, _) => waiting
  }

  /** Appending to a list appends to what waits in it. */
  lemma AppendUser(side: Side, list: seq<Entry>, k: int, cb: Callback, waiting: seq<Callback>)
    requires 0 <= k <= |list|
    ensures list[k..] == Users(waiting) ==> (list + [User(cb)])[k..] == Users(waiting + [cb])
    ensures list == BuiltIn(side) + Users(waiting) ==> list + [User(cb)] == BuiltIn(side) + Users(waiting + [cb])
  {
    assert Users(waiting + [cb]) == Users(waiting) + [User(cb)];
    assert (list + [User(cb)])[k..] == list[k..] + [User(cb)];
  }

  class Deferred {
    const done: Callbacks
    const fail: Callbacks
    var state: State
    // Not in the source: the callbacks that were called, and all registrations, in order.
    var log: seq<Ran>
    var made: seq<Registration>

    function ListOf(side: Side): Callbacks {
      if side == OnDone then done else fail
    }

    ghost predicate Made(side: Side, cbs: seq<Callback>)
      reads `made
    {
      OnSide(side, made) == cbs
    }

    /** The fields hold what the reference semantics says, and the log is what has run. What was
        registered on a side is what has run there and then what waits, in that order. */
    ghost predicate Holds(ctx: Context)
      reads this, done, fail
    {
      done != fail &&
      match ctx
      case Top(p) => (
        match p.outcome
        case None => state == Pending && done.IsPending(OnDone, p.onDone) && fail.IsPending(OnFail, p.onFail)
                     && log == [] && p.ran == [] && Made(OnDone, p.onDone) && Made(OnFail, p.onFail)
        case Some((side, v)) => state == StateOf(side) && ListOf(side).IsFired(v) && ListOf(Other(side)).IsDisabled()
                                && log == Runs(side, p.ran, v) && Made(side, p.ran))
      case Within(side, v, waiting, ran) =>
        state == StateOf(side) && ListOf(side).IsFiring(v, waiting) && ListOf(Other(side)).IsDisabled()
        && log == Runs(side, ran, v) && Made(side, ran + waiting)
    }

    constructor ()
      ensures Holds(Top(FRESH)) && fresh(done) && fresh(fail)
    {
      done := new Callbacks(BuiltIn(OnDone));
      fail := new Callbacks(BuiltIn(OnFail));
      state, log, made := Pending, [], [];
      assert forall side :: BuiltIn(side) + Users([]) == BuiltIn(side);
    }

    /** Any of resolve, reject, done and fail, from outside or from within a callback. */
    method Perform(call: Call, ghost ctx: Context)
      requires Holds(ctx)
      modifies this, done, fail
      ensures Holds(Then(ctx, call))
      ensures ctx.Within? ==> ListOf(ctx.side).firingIndex == old(ListOf(ctx.side).firingIndex)
      decreases if ctx.Top? then 1 else 0, CallWeight(call), 4
    {
      match call {
        case Resolve(v) => FireWith(OnDone, v, ctx);
        case Reject(v) => FireWith(OnFail, v, ctx);
        case Done(cb) => Add(OnDone, cb, ctx);
        case Fail(cb) => Add(OnFail, cb, ctx);
      }
    }

    method FireWith(side: Side, v: Value, ghost ctx: Context)
      requires Holds(ctx)
      modifies this, done, fail
      ensures Holds(Then(ctx, if side == OnDone then Resolve(v) else Reject(v)))
      ensures ctx.Within? ==> ListOf(ctx.side).firingIndex == old(ListOf(ctx.side).firingIndex)
      decreases if ctx.Top? then 1 else 0, 0, 3
    {
      if !ListOf(side).locked {
        FireNow(side, v, ctx);
      } else {
        AppendNothing(ctx, if side == OnDone then Resolve(v) else Reject(v));
      }
    }

    method FireNow(side: Side, v: Value, ghost ctx: Context)
      requires Holds(ctx) && !ListOf(side).locked
      modifies this, done, fail
      ensures ctx.Top? && Holds(Top(Settled(ctx.p, side, v)))
      decreases 1, 0, 2
    {
      var l := ListOf(side);
      assert ctx.Top? && ctx.p.outcome == None;
      l.queue := l.queue + [v];
      if !l.firing {
        assert [] + ctx.p.onDone == ctx.p.onDone && [] + ctx.p.onFail == ctx.p.onFail;
        Fire(side, v, if side == OnDone then ctx.p.onDone else ctx.p.onFail, ctx);
      }
    }

    method Add(side: Side, cb: Callback, ghost ctx: Context)
      requires Holds(ctx)
      modifies this, done, fail
      ensures Holds(Then(ctx, if side == OnDone then Done(cb) else Fail(cb)))
      ensures ctx.Within? ==> ListOf(ctx.side).firingIndex == old(ListOf(ctx.side).firingIndex)
      decreases if ctx.Top? then 1 else 0, Weight(cb), 3
    {
      var l := ListOf(side);
      if l.list.Some? {
        if l.memory.Some? && !l.firing {
          AddAndFire(side, cb, ctx);
        } else {
          Push(side, cb, ctx);
        }
      } else {
        Drop(side, cb, ctx);
      }
    }

    /** A callback for the losing side. */
    method Drop(side: Side, cb: Callback, ghost ctx: Context)
      requires Holds(ctx) && ListOf(side).list.None?
      modifies `made
      ensures Holds(Then(ctx, if side == OnDone then Done(cb) else Fail(cb)))
    {
      assert if ctx.Top? then ctx.p.outcome.Some? && ctx.p.outcome.value.0 == Other(side) else ctx.side == Other(side);
      Record(side, cb);
      AppendNothing(ctx, if side == OnDone then Done(cb) else Fail(cb));
    }

    method Push(side: Side, cb: Callback, ghost ctx: Context)
      requires Holds(ctx) && ListOf(side).list.Some? && (ListOf(side).memory.Some? ==> ListOf(side).firing)
      modifies `made, ListOf(side)
      ensures Holds(Then(ctx, if side == OnDone then Done(cb) else Fail(cb)))
      ensures ListOf(side).firingIndex == old(ListOf(side).firingIndex)
    {
      if ListOf(side).firing {
        AppendInTurn(cb, ctx, side);
      } else {
        Append(side, cb, ctx.p);
      }
      AppendNothing(ctx, if side == OnDone then Done(cb) else Fail(cb));
    }

    /** The callback waits in the list until that is fired. */
    method Append(side: Side, cb: Callback, ghost p: Promise)
      requires Holds(Top(p)) && p.outcome == None
      modifies `made, ListOf(side)
      ensures Holds(Top(Registered(p, side, cb)))
      ensures ListOf(side).firingIndex == old(ListOf(side).firingIndex)
    {
      var l := ListOf(side);
      AppendUser(side, l.list.value, 0, cb, if side == OnDone then p.onDone else p.onFail);
      Record(side, cb);
      l.list := Some(l.list.value + [User(cb)]);
    }

    /** The callback waits in the list that is being fired, until its turn. */
    method AppendInTurn(cb: Callback, ghost ctx: Context, side: Side)
      requires ctx.Within? && ctx.side == side && Holds(ctx)
      modifies `made, ListOf(side)
      ensures Holds(ctx.(waiting := ctx.waiting + [cb]))
      ensures ListOf(side).firingIndex == old(ListOf(side).firingIndex)
    {
      var l := ListOf(side);
      AppendUser(side, l.list.value, l.firingIndex + 1, cb, ctx.waiting);
      Record(side, cb);
      l.list := Some(l.list.value + [User(cb)]);
      assert ctx.ran + ctx.waiting + [cb] == ctx.ran + (ctx.waiting + [cb]);
    }

    method Record(side: Side, cb: Callback)
      modifies `made
      ensures OnSide(side, made) == OnSide(side, old(made)) + [cb]
      ensures OnSide(Other(side), made) == OnSide(Other(side), old(made))
    {
      OnSideAppend(side, made, Registration(side, cb));
      OnSideAppend(Other(side), made, Registration(side, cb));
      made := made + [Registration(side, cb)];
    }

    /** The case of `add` on a list that was fired before: the memorized value is queued, and
        after the callback is in the list it is fired from there. */
    method AddAndFire(side: Side, cb: Callback, ghost ctx: Context)
      requires Holds(ctx) && ListOf(side).list.Some? && ListOf(side).memory.Some? && !ListOf(side).firing
      modifies this, done, fail
      ensures ctx.Top? && Holds(Top(Registered(ctx.p, side, cb)))
      decreases 1, 0, 2
    {
      var l := ListOf(side);
      Record(side, cb);
      l.firingIndex := |l.list.value| - 1;
      l.queue := l.queue + [l.memory.value];
      l.list := Some(l.list.value + [User(cb)]);
      assert [] + [User(cb)] == Users([cb]);
      Fire(side, l.memory.value, [cb], ctx);
    }

    /** The state in which fire is entered: one value in the queue, and in the list the
        built-in functions, if it was never fired, and the callbacks that wait. */
    ghost predicate Loaded(side: Side, v: Value, waiting: seq<Callback>, p: Promise)
      reads this, done, fail
    {
      ListOf(side).queue == [v] && ListOf(side).firingIndex == -1 && Unfired(side, v, waiting, p)
    }

    ghost predicate Unfired(side: Side, v: Value, waiting: seq<Callback>, p: Promise)
      reads this, ListOf(side)`list, ListOf(Other(side))
    {
      done != fail && Made(side, p.ran + waiting) &&
      match p.outcome
      case None =>
        && ListOf(side).list == Some(BuiltIn(side) + Users(waiting))
        && waiting == (if side == OnDone then p.onDone else p.onFail)
        && state == Pending && log == [] && p.ran == []
        && ListOf(Other(side)).IsPending(Other(side), if side == OnDone then p.onFail else p.onDone)
      case Some((s, w)) =>
        && ListOf(side).list == Some(Users(waiting))
        && s == side && w == v && state == StateOf(side) && log == Runs(side, p.ran, v)
        && ListOf(Other(side)).IsDisabled()
    }

    /** At entry k of the built-in functions. */
    ghost predicate AtBuiltIn(side: Side, waiting: seq<Callback>, p: Promise, k: int)
      reads this, ListOf(side)`list, ListOf(Other(side))
    {
      && done != fail && p.outcome == None && 0 <= k < |BuiltIn(side)| && Made(side, p.ran + waiting)
      && ListOf(side).list == Some(BuiltIn(side) + Users(waiting))
      && state == (if k == 0 then Pending else StateOf(side)) && log == [] && p.ran == []
      && (if k <= 1 then ListOf(Other(side)).IsPending(Other(side), if side == OnDone then p.onFail else p.onDone)
          else ListOf(Other(side)).IsDisabled())
    }

    /** At entry k, with only registered callbacks from there on. */
    ghost predicate AtUser(side: Side, v: Value, waiting: seq<Callback>, ran: seq<Callback>, k: int)
      reads this, ListOf(side)`list, ListOf(Other(side))
    {
      && done != fail && ListOf(side).list.Some? && 0 <= k <= |ListOf(side).list.value|
      && ListOf(side).list.value[k..] == Users(waiting)
      && state == StateOf(side) && log == Runs(side, ran, v) && ListOf(Other(side)).IsDisabled()
      && Made(side, ran + waiting)
    }

    /** The one loop of `fire` that the queue drives: it holds one value, and calls from
        callbacks add none. */
    method Fire(side: Side, ghost v: Value, ghost waiting: seq<Callback>, ghost ctx: Context)
      requires ctx.Top? && Loaded(side, v, waiting, ctx.p)
      modifies this, done, fail
      ensures Holds(Top(ctx.p.(outcome := Some((side, v)), ran := ctx.p.ran + Burst(side, waiting))))
      decreases 1, 0, 1
    {
      var l := ListOf(side);
      l.locked := true;
      l.fired, l.firing := true, true;
      ghost var ran := ctx.p.ran + Burst(side, waiting);
      while |l.queue| > 0
        invariant l.fired && l.locked && l.firing && l.firingIndex == -1
        invariant l.queue == [v] || l.queue == []
        invariant l.queue == [v] ==> Unfired(side, v, waiting, ctx.p)
        invariant l.queue == [] ==> l.memory == Some(v) && AtUser(side, v, [], ran, l.Length())
        decreases |l.queue|
      {
        l.memory, l.queue := Some(l.queue[0]), l.queue[1..];
        RunList(side, v, waiting, ctx.p);
        l.firingIndex := -1;
      }
      l.firing := false;
      if l.locked {
        l.list := if l.memory.Some? then Some([]) else None;
      }
    }

    /** The flags while `fire` runs. */
    ghost predicate Running(side: Side, v: Value)
      reads this, done, fail
    {
      var l := ListOf(side);
      l.queue == [] && l.locked && l.fired && l.firing && l.memory == Some(v)
    }

    /** Before entry k of the list: `left` still waits, `ran` has run, and running what waits
        ends where running everything from the start would. */
    ghost predicate AtEntry(side: Side, v: Value, waiting: seq<Callback>, p: Promise,
                            left: seq<Callback>, ran: seq<Callback>, k: int)
      reads this, ListOf(side)`list, ListOf(Other(side))
    {
      && 0 <= k <= ListOf(side).Length()
      && ran + Burst(side, left) == p.ran + Burst(side, waiting)
      && if k < Lead(side, p) then AtBuiltIn(side, waiting, p, k) && left == waiting && ran == p.ran
         else AtUser(side, v, left, ran, k)
    }

    /** The inner loop of `fire`: every entry of the list, including those added meanwhile. */
    method RunList(side: Side, ghost v: Value, ghost waiting: seq<Callback>, ghost p: Promise)
      requires Unfired(side, v, waiting, p) && Running(side, v) && ListOf(side).firingIndex == -1
      modifies this, done, fail
      ensures Running(side, v)
      ensures AtUser(side, v, [], p.ran + Burst(side, waiting), ListOf(side).Length())
      decreases 1, 0, 0
    {
      var l := ListOf(side);
      ghost var left, ran := waiting, p.ran;
      AtFirst(this, side, v, waiting, p);
      l.firingIndex := l.firingIndex + 1;
      while l.firingIndex < l.Length()
        invariant Running(side, v) && AtEntry(side, v, waiting, p, left, ran, l.firingIndex)
        decreases if l.firingIndex < Lead(side, p) then Lead(side, p) - l.firingIndex else 0, TotalWeight(left)
      {
        left, ran := CallEntry(l.list.value[l.firingIndex], side, v, waiting, p, left, ran);
        l.firingIndex := l.firingIndex + 1;
      }
      AtLast(this, side, v, waiting, p, left, ran);
    }

    method CallEntry(entry: Entry, side: Side, ghost v: Value, ghost waiting: seq<Callback>, ghost p: Promise,
                     ghost left: seq<Callback>, ghost ran: seq<Callback>)
      returns (ghost left': seq<Callback>, ghost ran': seq<Callback>)
      requires Running(side, v) && AtEntry(side, v, waiting, p, left, ran, ListOf(side).firingIndex)
      requires ListOf(side).list.Some? && ListOf(side).firingIndex < ListOf(side).Length()
      requires entry == ListOf(side).list.value[ListOf(side).firingIndex]
      modifies this, done, fail
      ensures Running(side, v) && ListOf(side).firingIndex == old(ListOf(side).firingIndex)
      ensures AtEntry(side, v, waiting, p, left', ran', ListOf(side).firingIndex + 1)
      ensures if ListOf(side).firingIndex < Lead(side, p) then left' == left else TotalWeight(left') < TotalWeight(left)
      decreases 0, TotalWeight(left), 5
    {
      ghost var k := ListOf(side).firingIndex;
      left', ran' := left, ran;
      BuiltInTail(side, waiting);
      assert Lead(side, p) <= k ==> ListOf(side).list.value[k..][0] == entry == User(left[0]);
      if entry.User? {
        BurstStep(side, left, ran);
        CallUser(entry.cb, side, v, left, ran);
        left', ran' := left[1..] + Added(side, entry.cb.script), ran + [entry.cb];
      } else {
        CallBuiltIn(entry, side, waiting, p);
      }
    }

    method CallBuiltIn(entry: Entry, ghost side: Side, ghost waiting: seq<Callback>, ghost p: Promise)
      requires AtBuiltIn(side, waiting, p, ListOf(side).firingIndex)
      requires entry == BuiltIn(side)[ListOf(side).firingIndex]
      modifies this`state, ListOf(Other(side))
      ensures ListOf(Other(side)).list == None || ListOf(side).firingIndex < 1
      ensures var k := ListOf(side).firingIndex + 1;
        if k < |BuiltIn(side)| then AtBuiltIn(side, waiting, p, k)
        else ListOf(side).list == Some(BuiltIn(side) + Users(waiting)) && state == StateOf(side)
             && log == [] && p.ran == [] && ListOf(Other(side)).IsDisabled() && Made(side, p.ran + waiting)
    {
      match entry {
        case Settle(s) => state := StateOf(s);
        case DisableOther(s) => ListOf(Other(s)).Disable();
        case Elsewhere =>
        case User(_) =>
      }
    }

    /** A callback is called: it is logged, and its script is performed. */
    method CallUser(cb: Callback, side: Side, ghost v: Value, ghost left: seq<Callback>, ghost ran: seq<Callback>)
      requires var l := ListOf(side);
        l.queue == [] && l.locked && l.fired && l.firing && l.memory == Some(v) && 0 <= l.firingIndex < l.Length()
      requires AtUser(side, v, left, ran, ListOf(side).firingIndex) && left != [] && cb == left[0]
      modifies this, done, fail
      ensures var l := ListOf(side);
        && l.queue == [] && l.locked && l.fired && l.firing && l.memory == Some(v)
        && l.firingIndex == old(ListOf(side).firingIndex) < l.Length()
      ensures AtUser(side, v, left[1..] + Added(side, cb.script), ran + [cb], ListOf(side).firingIndex + 1)
      decreases 0, Weight(cb), 4
    {
      var l := ListOf(side);
      assert l.list.value[l.firingIndex..][1..] == l.list.value[l.firingIndex + 1..];
      assert Users(left)[1..] == Users(left[1..]);
      assert Runs(side, ran + [cb], v) == Runs(side, ran, v) + [Ran(side, cb, v, state)];
      assert ran + [cb] + left[1..] == ran + left;
      log := log + [Ran(side, cb, l.memory.value, state)];
      RunScript(cb.script, Within(side, v, left[1..], ran + [cb]));
    }

    /** A callback running: its calls, one after the other. */
    method RunScript(script: seq<Call>, ghost ctx: Context)
      requires ctx.Within? && Holds(ctx)
      modifies this, done, fail
      ensures Holds(ctx.(waiting := ctx.waiting + Added(ctx.side, script)))
      ensures ListOf(ctx.side).firingIndex == old(ListOf(ctx.side).firingIndex)
      decreases 0, ScriptWeight(script), 5, |script|
    {
      if script != [] {
        Perform(script[0], ctx);
        RunScript(script[1..], Then(ctx, script[0]));
        assert ctx.waiting + Added(ctx.side, [script[0]]) + Added(ctx.side, script[1..])
            == ctx.waiting + Added(ctx.side, script);
      }
    }
  }

  lemma AtFirst(d: Deferred, side: Side, v: Value, waiting: seq<Callback>, p: Promise)
    requires d.Unfired(side, v, waiting, p)
    ensures d.AtEntry(side, v, waiting, p, waiting, p.ran, 0)
  {
    assert p.outcome.Some? ==> d.ListOf(side).list.value[0..] == Users(waiting);
  }

  lemma AtLast(d: Deferred, side: Side, v: Value, waiting: seq<Callback>, p: Promise, left: seq<Callback>, ran: seq<Callback>)
    requires d.AtEntry(side, v, waiting, p, left, ran, d.ListOf(side).Length())
    ensures d.AtUser(side, v, [], p.ran + Burst(side, waiting), d.ListOf(side).Length())
  {
    assert |BuiltIn(side) + Users(waiting)| >= |BuiltIn(side)|;
    assert |Users(left)| == |left|;
  }

  // ---------------------------------------------------------------- what the reference promises

  /** The settlement that counts: the first one among the calls from outside. */
  function FirstSettlement(calls: seq<Call>): Option<(Side, Value)> {
    if calls == [] then None
    else match calls[0]
      case Resolve(v) => Some((OnDone, v))
      case Reject(v) => Some((OnFail, v))
      case _ => FirstSettlement(calls[1..])
  }

  /** Every registration a callback leads to on one side, however deep: the callback, then all
      that its script registers. */
  function Registrations(side: Side, cbs: seq<Callback>): seq<Callback>
    decreases TotalWeight(cbs)
  {
    if cbs == [] then []
    else
      AddedWeight(side, cbs[0].script);
      [cbs[0]] + Registrations(side, Added(side, cbs[0].script)) + Registrations(side, cbs[1..])
  }

  lemma {:induction false} RegistrationsAppend(side: Side, a: seq<Callback>, b: seq<Callback>)
    ensures Registrations(side, a + b) == Registrations(side, a) + Registrations(side, b)
  {
    if a == [] {
      assert a + b == b;
    } else {
      assert (a + b)[1..] == a[1..] + b;
      RegistrationsAppend(side, a[1..], b);
    }
  }

  /** The worklist runs every registration exactly once, though in another order. */
  lemma {:induction false} BurstRunsEachOnce(side: Side, waiting: seq<Callback>)
    ensures multiset(Burst(side, waiting)) == multiset(Registrations(side, waiting))
    decreases TotalWeight(waiting)
  {
    if waiting != [] {
      var added := Added(side, waiting[0].script);
      AddedWeight(side, waiting[0].script);
      TotalWeightAppend(waiting[1..], added);
      BurstRunsEachOnce(side, waiting[1..] + added);
      RegistrationsAppend(side, waiting[1..], added);
    }
  }

  lemma {:induction false} AddedAppend(side: Side, a: seq<Call>, call: Call)
    ensures Added(side, a + [call]) == Added(side, a) + Added(side, [call])
  {
    if a == [] {
      assert a + [call] == [call];
    } else {
      assert (a + [call])[1..] == a[1..] + [call];
      AddedAppend(side, a[1..], call);
    }
  }

  lemma {:induction false} FirstSettlementAppend(a: seq<Call>, call: Call)
    ensures FirstSettlement(a + [call]) ==
      if FirstSettlement(a).Some? then FirstSettlement(a) else FirstSettlement([call])
  {
    if a == [] {
      assert a + [call] == [call];
    } else {
      assert (a + [call])[1..] == a[1..] + [call];
      FirstSettlementAppend(a[1..], call);
    }
  }

  /** What is promised after these calls: the first settlement decides; on the winning side what
      has run is every registration, once each, and before it nothing has run. */
  ghost predicate Promised(p: Promise, calls: seq<Call>) {
    && p.outcome == FirstSettlement(calls)
    && match p.outcome
       case None => p.ran == [] && p.onDone == Added(OnDone, calls) && p.onFail == Added(OnFail, calls)
       case Some((side, v)) => multiset(p.ran) == multiset(Registrations(side, Added(side, calls)))
  }

  lemma PromisedPending(p: Promise, calls: seq<Call>, call: Call)
    requires Promised(p, calls) && p.outcome.None?
    ensures Promised(After(p, call), calls + [call])
  {
    FirstSettlementAppend(calls, call);
    AddedGrows(OnDone, calls, call);
    AddedGrows(OnFail, calls, call);
    match call
    case Resolve(_) => BurstRunsEachOnce(OnDone, p.onDone);
    case Reject(_) => BurstRunsEachOnce(OnFail, p.onFail);
    case Done(_) =>
    case Fail(_) =>
  }

  lemma AddedGrows(side: Side, calls: seq<Call>, call: Call)
    ensures if (call.Done? && side == OnDone) || (call.Fail? && side == OnFail)
            then Added(side, calls + [call]) == Added(side, calls) + [call.cb]
            else Added(side, calls + [call]) == Added(side, calls)
  {
    AddedAppend(side, calls, call);
    AddedOne(side, call);
  }

  lemma PromisedSettled(p: Promise, calls: seq<Call>, call: Call)
    requires Promised(p, calls) && p.outcome.Some?
    ensures Promised(After(p, call), calls + [call])
  {
    var side := p.outcome.value.0;
    FirstSettlementAppend(calls, call);
    AddedAppend(side, calls, call);
    AddedOne(side, call);
    RegistrationsAppend(side, Added(side, calls), Added(side, [call]));
    BurstRunsEachOnce(side, Added(side, [call]));
  }

  /** Settle once, run exactly once: whatever is called in whatever order, also from within
      callbacks, the first settlement decides the outcome for good; then every registration on
      the winning side, made before or after it, from outside or within, runs exactly once. */
  lemma {:induction false} SettlesOnceRunsOnce(calls: seq<Call>)
    ensures Promised(AfterAll(FRESH, calls), calls)
  {
    if calls != [] {
      var front, call := calls[..|calls| - 1], calls[|calls| - 1];
      assert calls == front + [call];
      SettlesOnceRunsOnce(front);
      if AfterAll(FRESH, front).outcome.None? {
        PromisedPending(AfterAll(FRESH, front), front, call);
      } else {
        PromisedSettled(AfterAll(FRESH, front), front, call);
      }
    }
  }

  // ---------------------------------------------------------------- in which order

  /** What the scripts of these callbacks register, one after the other. */
  function AddedByAll(side: Side, cbs: seq<Callback>): seq<Callback> {
    if cbs == [] then [] else Added(side, cbs[0].script) + AddedByAll(side, cbs[1..])
  }

  lemma InOrder(first: Callback, waiting: seq<Callback>, added: seq<Callback>, more: seq<Callback>)
    ensures [first] + (waiting + added + more) == [first] + waiting + (added + more)
  {
  }

  lemma AddedByFirst(side: Side, first: Callback, rest: seq<Callback>)
    ensures AddedByAll(side, [first] + rest) == Added(side, first.script) + AddedByAll(side, rest)
  {
    assert ([first] + rest)[1..] == rest;
  }

  /** First come, first served: what runs is what waited, in that order, and then what the
      callbacks registered, in the order in which they ran. */
  lemma {:induction false} BurstInOrder(side: Side, waiting: seq<Callback>)
    ensures Burst(side, waiting) == waiting + AddedByAll(side, Burst(side, waiting))
    decreases TotalWeight(waiting)
  {
    if waiting != [] {
      var first, left := waiting[0], waiting[1..];
      var added := Added(side, first.script);
      AddedWeight(side, first.script);
      TotalWeightAppend(left, added);
      BurstInOrder(side, left + added);
      var rest := Burst(side, left + added);
      AddedByFirst(side, first, rest);
      InOrder(first, left, added, AddedByAll(side, rest));
      assert waiting == [first] + left;
    }
  }

  /** The position of the first settlement among the calls from outside. */
  function Settling(calls: seq<Call>): (j: nat)
    ensures j <= |calls| && (j < |calls| <==> FirstSettlement(calls).Some?)
  {
    if calls == [] || calls[0].Resolve? || calls[0].Reject? then 0 else 1 + Settling(calls[1..])
  }

  lemma {:induction false} SettlingAppend(a: seq<Call>, call: Call)
    ensures Settling(a + [call]) ==
      if Settling(a) < |a| || call.Resolve? || call.Reject? then Settling(a) else |a| + 1
  {
    if a == [] {
      assert a + [call] == [call];
    } else {
      assert (a + [call])[1..] == a[1..] + [call];
      SettlingAppend(a[1..], call);
    }
  }

  /** What has run has run; and a callback registered on the winning side after the settlement
      runs at once. */
  lemma RanGrows(p: Promise, call: Call)
    requires p.outcome.Some?
    ensures After(p, call).outcome == p.outcome && p.ran <= After(p, call).ran
    ensures (call.Done? && p.outcome.value.0 == OnDone) || (call.Fail? && p.outcome.value.0 == OnFail) ==>
      p.ran + [call.cb] <= After(p, call).ran
  {
    if call.Done? || call.Fail? {
      BurstInOrder(p.outcome.value.0, [call.cb]);
    }
  }

  /** The callbacks that were registered from outside before the settlement run first, in the
      order in which they were registered. */
  lemma {:induction false} OutsideFirst(calls: seq<Call>)
    requires FirstSettlement(calls).Some?
    ensures AfterAll(FRESH, calls).outcome == FirstSettlement(calls)
    ensures Added(FirstSettlement(calls).value.0, calls[..Settling(calls)]) <= AfterAll(FRESH, calls).ran
  {
    var front, call := calls[..|calls| - 1], calls[|calls| - 1];
    var p := AfterAll(FRESH, front);
    assert calls == front + [call];
    SettlesOnceRunsOnce(front);
    SettlesOnceRunsOnce(calls);
    SettlingAppend(front, call);
    if p.outcome.Some? {
      OutsideFirst(front);
      FirstSettlementAppend(front, call);
      assert calls[..Settling(calls)] == front[..Settling(front)];
      RanGrows(p, call);
    } else {
      var side := FirstSettlement(calls).value.0;
      assert calls[..Settling(calls)] == front;
      FirstSettlementAppend(front, call);
      BurstInOrder(side, if side == OnDone then p.onDone else p.onFail);
    }
  }

  // ---------------------------------------------------------------- what was called for it

  /** Somewhere among the calls, or in the script of a callback, however deep, there is the call
      done(cb), or fail(cb). */
  ghost predicate CalledFor(done: bool, cb: Callback, calls: seq<Call>) {
    exists k :: 0 <= k < |calls| && CalledIn(done, cb, calls[k])
  }

  ghost predicate CalledIn(done: bool, cb: Callback, call: Call) {
    match call
    case Done(c) => (done && c == cb) || CalledFor(done, cb, c.script)
    case Fail(c) => (!done && c == cb) || CalledFor(done, cb, c.script)
    case _ => false
  }

  lemma {:induction false} AddedIsCalled(side: Side, calls: seq<Call>, c: Callback)
    ensures c in Added(side, calls) <==> (if side == OnDone then Done(c) else Fail(c)) in calls
  {
    if calls != [] {
      AddedIsCalled(side, calls[1..], c);
      assert calls == [calls[0]] + calls[1..];
    }
  }

  lemma {:induction false} RegistrationIsCalled(side: Side, cbs: seq<Callback>, cb: Callback, calls: seq<Call>)
    requires forall c :: c in cbs ==> (if side == OnDone then Done(c) else Fail(c)) in calls
    requires cb in Registrations(side, cbs)
    ensures CalledFor(side == OnDone, cb, calls)
    decreases TotalWeight(cbs)
  {
    var first := cbs[0];
    var call := if side == OnDone then Done(first) else Fail(first);
    assert first in cbs && call in calls;
    var k :| 0 <= k < |calls| && calls[k] == call;
    AddedWeight(side, first.script);
    if cb == first {
      assert CalledIn(side == OnDone, cb, calls[k]);
    } else if cb in Registrations(side, Added(side, first.script)) {
      forall c | c in Added(side, first.script) ensures (if side == OnDone then Done(c) else Fail(c)) in first.script {
        AddedIsCalled(side, first.script, c);
      }
      RegistrationIsCalled(side, Added(side, first.script), cb, first.script);
      assert CalledIn(side == OnDone, cb, calls[k]);
    } else {
      RegistrationIsCalled(side, cbs[1..], cb, calls);
    }
  }

  lemma {:induction false} AllRegistered(side: Side, cbs: seq<Callback>, cb: Callback)
    requires cb in cbs
    ensures cb in Registrations(side, cbs)
  {
    if cb != cbs[0] { AllRegistered(side, cbs[1..], cb); }
  }

  /** In the terms of the calls alone: what runs was passed to done if the Deferred was resolved, to
      fail if it was rejected; and what was passed from outside does run. */
  lemma RunsWhatWasCalledFor(side: Side, calls: seq<Call>, ran: seq<Callback>, cb: Callback)
    requires multiset(ran) == multiset(Registrations(side, Added(side, calls)))
    ensures cb in ran ==> CalledFor(side == OnDone, cb, calls)
    ensures (if side == OnDone then Done(cb) else Fail(cb)) in calls ==> cb in ran
  {
    var all := Registrations(side, Added(side, calls));
    assert cb in ran <==> cb in multiset(ran);
    assert cb in all <==> cb in multiset(all);
    if cb in ran {
      forall c | c in Added(side, calls) ensures (if side == OnDone then Done(c) else Fail(c)) in calls {
        AddedIsCalled(side, calls, c);
      }
      RegistrationIsCalled(side, Added(side, calls), cb, calls);
    }
    AddedIsCalled(side, calls, cb);
    if cb in Added(side, calls) { AllRegistered(side, Added(side, calls), cb); }
  }

  /** A sequence of calls from outside, on a new Deferred: the state at the end, every call of a
      callback, and every registration, from outside or from within a callback. The first
      settlement decides the state. On the winning side the callbacks are called in the order
      in which they were registered, each exactly once, with the value of that settlement, and
      they find the state settled; nothing else is called. Those that were registered from
      outside before the settlement come first. */
  method Program(calls: seq<Call>) returns (state: State, log: seq<Ran>, made: seq<Registration>)
    ensures FirstSettlement(calls).None? ==> state == Pending && log == []
    ensures FirstSettlement(calls).None? ==> forall side :: OnSide(side, made) == Added(side, calls)
    ensures FirstSettlement(calls).Some? ==>
      var (side, v) := FirstSettlement(calls).value;
      && state == StateOf(side)
      && log == Runs(side, OnSide(side, made), v)
      && Added(side, calls[..Settling(calls)]) <= OnSide(side, made)
      && multiset(OnSide(side, made)) == multiset(Registrations(side, Added(side, calls)))
      && OnSide(side, made) == AfterAll(FRESH, calls).ran
    ensures state == match FirstSettlement(calls)
      case None => Pending
      case Some((side, _)) => if side == OnDone then Resolved else Rejected
    ensures state == Resolved ==> forall cb ::
      && (cb in OnSide(OnDone, made) ==> CalledFor(true, cb, calls))
      && (Done(cb) in calls ==> cb in OnSide(OnDone, made))
    ensures state == Rejected ==> forall cb ::
      && (cb in OnSide(OnFail, made) ==> CalledFor(false, cb, calls))
      && (Fail(cb) in calls ==> cb in OnSide(OnFail, made))
  {
    var d := new Deferred();
    for i := 0 to |calls|
      invariant fresh(d) && fresh(d.done) && fresh(d.fail)
      invariant d.Holds(Top(AfterAll(FRESH, calls[..i])))
    {
      assert calls[..i + 1][..i] == calls[..i];
      d.Perform(calls[i], Top(AfterAll(FRESH, calls[..i])));
    }
    assert calls[..|calls|] == calls;
    SettlesOnceRunsOnce(calls);
    state, log, made := d.state, d.log, d.made;
    if FirstSettlement(calls).Some? {
      OutsideFirst(calls);
      ghost var side := FirstSettlement(calls).value.0;
      forall cb
        ensures cb in OnSide(side, made) ==> CalledFor(side == OnDone, cb, calls)
        ensures (if side == OnDone then Done(cb) else Fail(cb)) in calls ==> cb in OnSide(side, made)
      {
        RunsWhatWasCalledFor(side, calls, OnSide(side, made), cb);
      }
    }
  }
}
