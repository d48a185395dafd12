/** `useAsync`: the snapshot `{status, data, error, isLoading}` and the `trigger` that drives it.
    A trigger is split at its `await`: a `Start` event is the synchronous part (status becomes
    WORKING, `fn` is invoked), and a later `Succeed` or `Fail` event is the settlement of that
    call's promise. Overlapping triggers are just interleaved events. */
module AsyncRunner {
  import opened Values
  import opened States

  /** The snapshot the hook returns. `isLoading` is kept alongside `status` and recomputed
      whenever `status` is written, as the memo in the source does. */
  datatype AsyncState = AsyncState(status: Status, data: Value, error: Value, isLoading: bool)

  /** The snapshot before any trigger. */
  const InitialState: AsyncState := AsyncState(Initial, Null, Null, false)

  /** `setStatus`, with the memo on `status` recomputing `isLoading`. */
  function SetStatus(s: AsyncState, status: Status): (updated: AsyncState)
  {
    s.(status := status, isLoading := status == Working)
  }

  /** What a user callback does when called: return, or throw a value. */
  datatype CallbackOutcome = Returns | Throws(exception: Value)

  /** `onDone(result, {args})` or `onError(error, {args})`; the context object is its `args`. */
  type Callback = (Value, seq<Value>) -> CallbackOutcome

  /** The default callback, `() => undefined`. */
  function NoOp(value: Value, args: seq<Value>): (outcome: CallbackOutcome)
  {
    Returns
  }

  datatype Callbacks = Callbacks(onDone: Callback, onError: Callback)

  /** Destructuring with defaults: an omitted callback becomes `NoOp`. */
  function WithDefaults(onDone: Option<Callback>, onError: Option<Callback>): (cbs: Callbacks)
  {
    Callbacks(
      if onDone.Some? then onDone.value else NoOp,
      if onError.Some? then onError.value else NoOp)
  }

  /** How the promise returned by `fn` settles. */
  datatype FnOutcome = Resolves(result: Value) | Rejects(reason: Value)

  /** How the promise returned by `trigger` settles: `return result`, `return;` (None), or a
      rejection that escaped the `catch` block. In JavaScript `Fulfilled(None)` and
      `Fulfilled(Some(Undefined))` are the same outcome (fulfilled with undefined); they are kept
      apart here only to record which `return` produced it. */
  datatype Settlement = Fulfilled(value: Option<Value>) | Rejected(reason: Value)

  /** The state, the settlement of `trigger` and the callback calls once `fn` has settled. */
  datatype Completion = Completion(state: AsyncState, settlement: Settlement, effects: seq<Effect>)

  /** The value that reaches the `catch` block once `fn` has settled, if any: `fn`'s rejection,
      or else whatever `onDone` throws, since `onDone` is called inside the `try`. */
  function Thrown(cbs: Callbacks, args: seq<Value>, outcome: FnOutcome): (thrown: Option<Value>)
  {
    match outcome
    case Rejects(e) => Some(e)
    case Resolves(r) =>
      match cbs.onDone(r, args)
      case Returns => None
      case Throws(x) => Some(x)
  }

  /** The `catch` block: clear `data`, store the thrown value verbatim, go FAILED, then call
      `onError`. An exception from `onError` is not caught and rejects `trigger`. */
  function Catch(cbs: Callbacks, s: AsyncState, args: seq<Value>, thrown: Value): (c: Completion)
    ensures c.state.status == Failed && !c.state.isLoading
    ensures c.state.data == Null && c.state.error == thrown
    ensures c.effects == [ErrorCalled(thrown, args)]
    ensures c.settlement.Rejected? <==> cbs.onError(thrown, args).Throws?
    ensures c.settlement.Fulfilled? ==> c.settlement.value == None
    ensures c.settlement.Rejected? ==> c.settlement.reason == cbs.onError(thrown, args).exception
  {
    var failed := SetStatus(s.(data := Null, error := thrown), Failed);
    match cbs.onError(thrown, args)
    case Returns => Completion(failed, Fulfilled(None), [ErrorCalled(thrown, args)])
    case Throws(x) => Completion(failed, Rejected(x), [ErrorCalled(thrown, args)])
  }

  /** The part of `trigger` after `await fn(...args)`, starting from snapshot `s`. */
  function Finish(cbs: Callbacks, s: AsyncState, args: seq<Value>, outcome: FnOutcome): (c: Completion)
    ensures c.state.status in {Done, Failed} && !c.state.isLoading
    ensures c.state.status == Done <==> Thrown(cbs, args, outcome).None?
    // success: data is the result, error is left as it was, onDone once, trigger returns the result
    ensures c.state.status == Done ==>
              && outcome.Resolves?
              && c.state.data == outcome.result
              && c.state.error == s.error
              && c.effects == [DoneCalled(outcome.result, args)]
              && c.settlement == Fulfilled(Some(outcome.result))
    // failure, whether from fn or from onDone: data cleared, error verbatim, onError once
    ensures c.state.status == Failed ==>
              && c.state.data == Null
              && c.state.error == Thrown(cbs, args, outcome).value
              && c.effects ==
                 (if outcome.Resolves? then [DoneCalled(outcome.result, args)] else [])
                 + [ErrorCalled(c.state.error, args)]
              && (c.settlement.Rejected? <==> cbs.onError(c.state.error, args).Throws?)
              && (c.settlement.Fulfilled? ==> c.settlement.value == None)
    // only an exception from onError escapes trigger
    ensures c.settlement.Rejected? ==>
              c.state.status == Failed && cbs.onError(c.state.error, args).Throws?
  {
    match outcome
    case Rejects(e) => Catch(cbs, s, args, e)
    case Resolves(r) =>
      var done := SetStatus(s.(data := r), Done);
      match cbs.onDone(r, args)
      case Returns => Completion(done, Fulfilled(Some(r)), [DoneCalled(r, args)])
      case Throws(x) =>
        var c := Catch(cbs, done, args, x);
        c.(effects := [DoneCalled(r, args)] + c.effects)
  }

  /** One hook instance: its snapshot, the calls whose `fn` promise has not settled yet
      (with their arguments), and the id the next trigger gets. */
  datatype Runner = Runner(state: AsyncState, pending: map<nat, seq<Value>>, next: nat)

  /** A freshly constructed hook; construction invokes nothing. */
  const Fresh: Runner := Runner(InitialState, map[], 0)

  /** `Start(args)` is a call `trigger(...args)` (its id is the number of earlier starts);
      `Succeed(id, r)` / `Fail(id, e)` is call `id`'s `fn` promise resolving with `r` / rejecting with `e`. */
  datatype Event = Start(args: seq<Value>) | Succeed(id: nat, result: Value) | Fail(id: nat, error: Value)

  /** A promise settles once and only after its call started. */
  predicate Enabled(rn: Runner, ev: Event)
  {
    ev.Start? || ev.id in rn.pending
  }

  function OutcomeOf(ev: Event): (outcome: FnOutcome)
    requires !ev.Start?
  {
    if ev.Succeed? then Resolves(ev.result) else Rejects(ev.error)
  }

  datatype StepResult = StepResult(runner: Runner, settled: Option<(nat, Settlement)>, effects: seq<Effect>)

  /** How `trigger` settles once the `catch` block has called `onError(thrown, {args})`: it
      fulfils with undefined when `onError` returns, and rejects with `onError`'s exception
      when it throws. */
  predicate SettlesAfterOnError(cbs: Callbacks, thrown: Value, args: seq<Value>, st: Settlement)
  {
    match cbs.onError(thrown, args)
    case Returns => st == Fulfilled(None)
    case Throws(x) => st == Rejected(x)
  }

  /** One event. */
  function Step(cbs: Callbacks, rn: Runner, ev: Event): (r: StepResult)
    requires Enabled(rn, ev)
    ensures ev.Start? ==>
              // only status moves: data and error keep their values
              && r.runner.state.status == Working && r.runner.state.isLoading
              && r.runner.state.data == rn.state.data
              && r.runner.state.error == rn.state.error
              // fn is invoked at once, exactly with the caller's arguments; nothing settles
              && r.effects == [FnInvoked(ev.args)]
              && r.settled == None
              && r.runner.next == rn.next + 1
              && r.runner.pending == rn.pending[rn.next := ev.args]
    ensures !ev.Start? ==>
              && r.runner.state.status in {Done, Failed}
              && r.runner.pending == rn.pending - {ev.id}
              && r.runner.next == rn.next
              && r.settled.Some? && r.settled.value.0 == ev.id
              && FnCalls(r.effects) == []
    // the callbacks get the arguments this very call was started with, and what they do decides
    // the outcome
    ensures !ev.Start? ==>
              var args := rn.pending[ev.id];
              var s := r.runner.state;
              && (forall e :: e in r.effects ==> (e.DoneCalled? || e.ErrorCalled?) && e.args == args)
              && (ev.Succeed? ==>
                    && |r.effects| > 0 && r.effects[0] == DoneCalled(ev.result, args)
                    && (s.status == Done <==> cbs.onDone(ev.result, args).Returns?))
              && (ev.Succeed? && cbs.onDone(ev.result, args).Returns? ==>
                    && r.effects == [DoneCalled(ev.result, args)]
                    && s.data == ev.result && s.error == rn.state.error
                    && r.settled.value.1 == Fulfilled(Some(ev.result)))
              && (ev.Succeed? && cbs.onDone(ev.result, args).Throws? ==>
                    var x := cbs.onDone(ev.result, args).exception;
                    && r.effects == [DoneCalled(ev.result, args), ErrorCalled(x, args)]
                    && s.status == Failed && s.data == Null && s.error == x
                    && SettlesAfterOnError(cbs, x, args, r.settled.value.1))
              && (ev.Fail? ==>
                    && r.effects == [ErrorCalled(ev.error, args)]
                    && s.status == Failed && s.data == Null && s.error == ev.error
                    && SettlesAfterOnError(cbs, ev.error, args, r.settled.value.1)
                    && (r.settled.value.1.Rejected? <==> cbs.onError(ev.error, args).Throws?))
  {
    match ev
    case Start(args) =>
      var s := SetStatus(rn.state, Working);
      StepResult(Runner(s, rn.pending[rn.next := args], rn.next + 1), None, [FnInvoked(args)])
    case _ =>
      var args := rn.pending[ev.id];
      var c := Finish(cbs, rn.state, args, OutcomeOf(ev));
      StepResult(Runner(c.state, rn.pending - {ev.id}, rn.next), Some((ev.id, c.settlement)), c.effects)
  }

  function Prefix<T>(t: seq<T>): (p: seq<T>)
    requires |t| > 0
  {
    t[..|t| - 1]
  }

  function Last<T>(t: seq<T>): (e: T)
    requires |t| > 0
  {
    t[|t| - 1]
  }

  /** Every event of `t` can happen in turn, starting from `rn`. */
  predicate Valid(cbs: Callbacks, rn: Runner, t: seq<Event>)
    decreases |t|, 0
  {
    |t| == 0 || (Valid(cbs, rn, Prefix(t)) && Enabled(Run(cbs, rn, Prefix(t)).runner, Last(t)))
  }

  datatype RunResult = RunResult(runner: Runner, settled: seq<(nat, Settlement)>, effects: seq<Effect>)

  /** The events of `t`, in order, from `rn`: the final runner, the settlements of `trigger`
      calls in settling order, and every observable call made. */
  function Run(cbs: Callbacks, rn: Runner, t: seq<Event>): (r: RunResult)
    requires Valid(cbs, rn, t)
    decreases |t|, 1
  {
    if |t| == 0 then RunResult(rn, [], [])
    else
      var before := Run(cbs, rn, Prefix(t));
      var r := Step(cbs, before.runner, Last(t));
      RunResult(r.runner, before.settled + (if r.settled.Some? then [r.settled.value] else []),
                before.effects + r.effects)
  }

  /** The arguments of the `Start` events of `t`, in order. */
  function StartArgs(t: seq<Event>): (starts: seq<seq<Value>>)
  {
    if |t| == 0 then []
    else StartArgs(Prefix(t)) + (if Last(t).Start? then [Last(t).args] else [])
  }

  /** The arguments call `id` was started with, read off the trace alone. */
  function CallArgs(t: seq<Event>, id: nat): (args: seq<Value>)
  {
    var starts := StartArgs(t);
    if id < |starts| then starts[id] else []
  }

  /** Call ids are handed out in start order, and the pending calls are started calls that
      remember exactly the arguments they were started with. */
  lemma {:induction false} PendingMatchesStarts(cbs: Callbacks, t: seq<Event>)
    requires Valid(cbs, Fresh, t)
    ensures var rn := Run(cbs, Fresh, t).runner;
            && rn.next == |StartArgs(t)|
            && forall id :: id in rn.pending ==> id < rn.next && rn.pending[id] == StartArgs(t)[id]
  {
    if |t| > 0 {
      PendingMatchesStarts(cbs, Prefix(t));
    }
  }

  /** When call `id` settles, whatever happened in between, `onDone` and `onError` receive the
      arguments of the `id`-th trigger of the trace, never those of a later one. */
  lemma {:induction false} SettlementCallbackArgs(cbs: Callbacks, t: seq<Event>)
    requires Valid(cbs, Fresh, t) && |t| > 0 && !Last(t).Start?
    ensures Last(t).id < |StartArgs(Prefix(t))|
    ensures var r := Step(cbs, Run(cbs, Fresh, Prefix(t)).runner, Last(t));
            forall e :: e in r.effects ==>
              (e.DoneCalled? || e.ErrorCalled?) && e.args == StartArgs(Prefix(t))[Last(t).id]
  {
    PendingMatchesStarts(cbs, Prefix(t));
  }

  /** `fn` is invoked once per trigger, with exactly that trigger's arguments, in trigger order,
      and never on construction or on settlement. */
  lemma {:induction false} FnInvokedOncePerTrigger(cbs: Callbacks, t: seq<Event>)
    requires Valid(cbs, Fresh, t)
    ensures FnCalls(Run(cbs, Fresh, t).effects) == StartArgs(t)
  {
    if |t| > 0 {
      var before := Run(cbs, Fresh, Prefix(t));
      var r := Step(cbs, before.runner, Last(t));
      FnInvokedOncePerTrigger(cbs, Prefix(t));
      FnCallsAppend(before.effects, r.effects);
      if Last(t).Start? {
        assert FnCalls(r.effects) == [Last(t).args] by {
          assert r.effects == [FnInvoked(Last(t).args)];
          assert r.effects[1..] == [];
        }
      }
    }
  }

  /** Facts that hold in every snapshot a hook can publish: `isLoading` is exactly
      `status == WORKING`; the status is INITIAL until the first trigger and never again;
      while INITIAL, `data` and `error` are both null; FAILED always comes with `data` cleared. */
  lemma {:induction false} ReachableSnapshot(cbs: Callbacks, t: seq<Event>)
    requires Valid(cbs, Fresh, t)
    ensures var s := Run(cbs, Fresh, t).runner.state;
            && (s.isLoading <==> s.status == Working)
            && (s.status == Initial <==> |StartArgs(t)| == 0)
            && (s.status == Initial ==> s.data == Null && s.error == Null)
            && (s.status == Failed ==> s.data == Null)
  {
    if |t| > 0 {
      ReachableSnapshot(cbs, Prefix(t));
      PendingMatchesStarts(cbs, Prefix(t));
    }
  }

  /** Reference reading of the status: decided by the last event alone. */
  function ExpectedStatus(cbs: Callbacks, t: seq<Event>): (status: Status)
  {
    if |t| == 0 then Initial
    else if Last(t).Start? then Working
    else if Thrown(cbs, CallArgs(Prefix(t), Last(t).id), OutcomeOf(Last(t))).None? then Done
    else Failed
  }

  /** Reference reading of `data`: decided by the last settlement, whichever call it belongs to. */
  function ExpectedData(cbs: Callbacks, t: seq<Event>): (data: Value)
  {
    if |t| == 0 then Null
    else if Last(t).Start? then ExpectedData(cbs, Prefix(t))
    else if Thrown(cbs, CallArgs(Prefix(t), Last(t).id), OutcomeOf(Last(t))).None? then Last(t).result
    else Null
  }

  /** Reference reading of `error`: the value thrown in the last failed settlement; successes
      and starts leave it alone. */
  function ExpectedError(cbs: Callbacks, t: seq<Event>): (error: Value)
  {
    if |t| == 0 then Null
    else if Last(t).Start? then ExpectedError(cbs, Prefix(t))
    else
      match Thrown(cbs, CallArgs(Prefix(t), Last(t).id), OutcomeOf(Last(t)))
      case Some(e) => e
      case None => ExpectedError(cbs, Prefix(t))
  }

  /** No guard against overlapping triggers: the snapshot is whatever the last writers left,
      regardless of the order in which the calls were started. */
  lemma {:induction false} LastWriterWins(cbs: Callbacks, t: seq<Event>)
    requires Valid(cbs, Fresh, t)
    ensures var s := Run(cbs, Fresh, t).runner.state;
            && s.status == ExpectedStatus(cbs, t)
            && s.data == ExpectedData(cbs, t)
            && s.error == ExpectedError(cbs, t)
  {
    if |t| > 0 {
      LastWriterWins(cbs, Prefix(t));
      PendingMatchesStarts(cbs, Prefix(t));
    }
  }

  /** An `onDone` that never throws has no influence on any snapshot, settlement or call: over
      every trace it behaves exactly like the default an omitted `onDone` gets, whatever `onError` is. */
  lemma {:induction false} NonThrowingOnDoneIsDefault(onDone: Callback, onError: Callback, t: seq<Event>)
    requires forall v, a :: onDone(v, a) == Returns
    requires Valid(Callbacks(onDone, onError), Fresh, t)
    ensures Valid(WithDefaults(None, Some(onError)), Fresh, t)
    ensures Run(Callbacks(onDone, onError), Fresh, t) == Run(WithDefaults(None, Some(onError)), Fresh, t)
  {
    if |t| > 0 {
      NonThrowingOnDoneIsDefault(onDone, onError, Prefix(t));
    }
  }

  /** The same for `onError`: one that never throws is the default, whatever `onDone` is. */
  lemma {:induction false} NonThrowingOnErrorIsDefault(onDone: Callback, onError: Callback, t: seq<Event>)
    requires forall v, a :: onError(v, a) == Returns
    requires Valid(Callbacks(onDone, onError), Fresh, t)
    ensures Valid(WithDefaults(Some(onDone), None), Fresh, t)
    ensures Run(Callbacks(onDone, onError), Fresh, t) == Run(WithDefaults(Some(onDone), None), Fresh, t)
  {
    if |t| > 0 {
      NonThrowingOnErrorIsDefault(onDone, onError, Prefix(t));
    }
  }

  /** `trigger()` with `fn = async () => 1` and no callbacks resolves with 1 and leaves
      DONE, data 1, error null, not loading. */
  lemma ResolvedScenario()
    ensures var t := [Start([]), Succeed(0, Num(1))];
            && Valid(WithDefaults(None, None), Fresh, t)
            && Run(WithDefaults(None, None), Fresh, t).runner.state == AsyncState(Done, Num(1), Null, false)
            && Run(WithDefaults(None, None), Fresh, t).settled == [(0, Fulfilled(Some(Num(1))))]
  {
  }

  /** `fn` throwing the string "X" leaves FAILED, data null, error "X", and `trigger` fulfils
      with undefined rather than rejecting; `onError` sees the thrown string and the arguments. */
  lemma RejectedScenario()
    ensures var t := [Start([Num(1), Num(2), Num(3)]), Fail(0, Str("X"))];
            && Valid(WithDefaults(None, None), Fresh, t)
            && Run(WithDefaults(None, None), Fresh, t).runner.state == AsyncState(Failed, Null, Str("X"), false)
            && Run(WithDefaults(None, None), Fresh, t).settled == [(0, Fulfilled(None))]
            && Run(WithDefaults(None, None), Fresh, t).effects ==
               [FnInvoked([Num(1), Num(2), Num(3)]), ErrorCalled(Str("X"), [Num(1), Num(2), Num(3)])]
  {
  }

  /** A success does not clear the error of an earlier failure: the snapshot can be DONE with
      a non-null `error`. */
  lemma StaleErrorSurvivesSuccess()
    ensures var t := [Start([]), Fail(0, Str("X")), Start([]), Succeed(1, Num(1))];
            && Valid(WithDefaults(None, None), Fresh, t)
            && Run(WithDefaults(None, None), Fresh, t).runner.state == AsyncState(Done, Num(1), Str("X"), false)
  {
    var cbs := WithDefaults(None, None);
    var t1 := [Start([])];
    var t2 := t1 + [Fail(0, Str("X"))];
    var t3 := t2 + [Start([])];
    var t := t3 + [Succeed(1, Num(1))];
    assert Prefix(t1) == [] && Prefix(t2) == t1 && Prefix(t3) == t2 && Prefix(t) == t3;
    assert Valid(cbs, Fresh, t1);
    assert Run(cbs, Fresh, t1).runner == Runner(AsyncState(Working, Null, Null, true), map[0 := []], 1);
    assert Valid(cbs, Fresh, t2);
    assert Run(cbs, Fresh, t2).runner == Runner(AsyncState(Failed, Null, Str("X"), false), map[], 1);
    assert Valid(cbs, Fresh, t3);
    assert Run(cbs, Fresh, t3).runner == Runner(AsyncState(Working, Null, Str("X"), true), map[1 := []], 2);
    assert Valid(cbs, Fresh, t);
    assert t == [Start([]), Fail(0, Str("X")), Start([]), Succeed(1, Num(1))];
  }

  /** Two overlapping triggers where the first-started call settles last: its stale result
      overwrites the newer one. */
  lemma OverlappingTriggersRace()
    ensures var t := [Start([Num(1)]), Start([Num(2)]), Succeed(1, Str("new")), Succeed(0, Str("old"))];
            && Valid(WithDefaults(None, None), Fresh, t)
            && Run(WithDefaults(None, None), Fresh, t).runner.state.data == Str("old")
            && Run(WithDefaults(None, None), Fresh, t).runner.state.status == Done
  {
    var cbs := WithDefaults(None, None);
    var t1 := [Start([Num(1)])];
    var t2 := t1 + [Start([Num(2)])];
    var t3 := t2 + [Succeed(1, Str("new"))];
    var t := t3 + [Succeed(0, Str("old"))];
    assert Prefix(t1) == [] && Prefix(t2) == t1 && Prefix(t3) == t2 && Prefix(t) == t3;
    assert Valid(cbs, Fresh, t1);
    var r1 := Run(cbs, Fresh, t1).runner;
    assert r1.pending == map[0 := [Num(1)]] && r1.next == 1;
    assert Valid(cbs, Fresh, t2);
    var r2 := Run(cbs, Fresh, t2).runner;
    assert 0 in r2.pending && 1 in r2.pending;
    assert Valid(cbs, Fresh, t3);
    var r3 := Run(cbs, Fresh, t3).runner;
    assert r3.pending == r2.pending - {1};
    assert 0 in r3.pending;
    assert Valid(cbs, Fresh, t);
    assert t == [Start([Num(1)]), Start([Num(2)]), Succeed(1, Str("new")), Succeed(0, Str("old"))];
  }

  /** An exception thrown by `onDone` is caught by the same `catch` as a rejection of `fn`:
      FAILED, data cleared, the exception in `error`, `onError` called with it. */
  lemma OnDoneThrowScenario()
    ensures var cbs := Callbacks((v, a) => Throws(Str("boom")), NoOp);
            var t := [Start([]), Succeed(0, Num(1))];
            && Valid(cbs, Fresh, t)
            && Run(cbs, Fresh, t).runner.state == AsyncState(Failed, Null, Str("boom"), false)
            && Run(cbs, Fresh, t).settled == [(0, Fulfilled(None))]
            && Run(cbs, Fresh, t).effects ==
               [FnInvoked([]), DoneCalled(Num(1), []), ErrorCalled(Str("boom"), [])]
  {
  }
}
