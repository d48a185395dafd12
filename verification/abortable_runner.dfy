/** `useAbortableAsync`: a `useAsync` whose `fn` takes a `{ abortSignal }` lifecycle object in
    front of the caller's arguments, one `AbortController` per trigger, and an `abort` that
    aborts the controller created last. A controller is modelled by its aborted flag, and is
    named by its creation index. */
module AbortableRunner {
  import opened Values
  import States
  import A = AsyncRunner

  /** One hook instance: the inner `useAsync`, the aborted flag of every controller created so
      far, and the controller the ref currently holds. */
  datatype Abortable = Abortable(inner: A.Runner, controllers: seq<bool>, current: Option<nat>)

  /** A freshly constructed hook: the ref is null and nothing has been invoked. */
  const Fresh: Abortable := Abortable(A.Fresh, [], None)

  /** The ref holds the controller created last (none before the first trigger), and
      controller `k` was created for inner call `k`. */
  predicate Wf(a: Abortable)
  {
    && |a.controllers| == a.inner.next
    && a.current == (if |a.controllers| == 0 then None else Some(|a.controllers| - 1))
  }

  /** `Trigger(args)` is `trigger(...args)`; `Abort` is `abort()`; `Teardown` is the effect
      cleanup on unmount; `Succeed`/`Fail` settle inner call `id`'s `fn` promise. */
  datatype Event =
    | Trigger(args: seq<Value>)
    | Abort
    | Teardown
    | Succeed(id: nat, result: Value)
    | Fail(id: nat, error: Value)

  predicate Enabled(a: Abortable, ev: Event)
  {
    (ev.Succeed? || ev.Fail?) ==> ev.id in a.inner.pending
  }

  function InnerEvent(ev: Event): (inner: A.Event)
    requires ev.Succeed? || ev.Fail?
  {
    if ev.Succeed? then A.Succeed(ev.id, ev.result) else A.Fail(ev.id, ev.error)
  }

  datatype StepResult = StepResult(state: Abortable, settled: Option<(nat, A.Settlement)>, effects: seq<Effect>)

  /** `abortControllerRef.current?.abort()`: nothing without a controller, otherwise abort the
      current one and no other. The inner snapshot is not touched. */
  function AbortCurrent(a: Abortable): (r: StepResult)
    requires Wf(a)
    ensures Wf(r.state)
    ensures r.state.inner == a.inner && r.state.current == a.current && r.settled == None
    ensures |r.state.controllers| == |a.controllers|
    ensures a.current.None? ==> r.state == a && r.effects == []
    ensures a.current.Some? ==>
              r.state.controllers[a.current.value] && r.effects == [AbortCalled(a.current.value)]
    ensures forall i :: 0 <= i < |a.controllers| && Some(i) != a.current ==>
              r.state.controllers[i] == a.controllers[i]
  {
    match a.current
    case None => StepResult(a, None, [])
    case Some(c) => StepResult(a.(controllers := a.controllers[c := true]), None, [AbortCalled(c)])
  }

  /** One event. */
  function Step(cbs: A.Callbacks, a: Abortable, ev: Event): (r: StepResult)
    requires Wf(a) && Enabled(a, ev)
    ensures Wf(r.state)
    // the aborted flag is one-shot: no event clears it
    ensures |a.controllers| <= |r.state.controllers|
    ensures forall i :: 0 <= i < |a.controllers| && a.controllers[i] ==> r.state.controllers[i]
    // a fresh controller becomes current, the superseded one is left as it was, and fn gets
    // the lifecycle object first and the caller's arguments after it
    ensures ev.Trigger? ==>
              var c := |a.controllers|;
              && r.state.controllers == a.controllers + [false]
              && r.state.current == Some(c)
              && r.effects == [FnInvoked([Lifecycle(c)] + ev.args)]
              && r.settled == None
              && r.state.inner.state.status == States.Working
              && r.state.inner.state.data == a.inner.state.data
              && r.state.inner.state.error == a.inner.state.error
    // teardown is abort
    ensures ev.Abort? || ev.Teardown? ==> r == AbortCurrent(a)
    // a settlement leaves the controllers alone
    ensures ev.Succeed? || ev.Fail? ==>
              && r.state.controllers == a.controllers
              && r.state.current == a.current
              && AbortCalls(r.effects) == []
  {
    match ev
    case Trigger(args) =>
      var c := |a.controllers|;
      var r := A.Step(cbs, a.inner, A.Start([Lifecycle(c)] + args));
      StepResult(Abortable(r.runner, a.controllers + [false], Some(c)), r.settled, r.effects)
    case Abort => AbortCurrent(a)
    case Teardown => AbortCurrent(a)
    case _ => Settle(cbs, a, ev)
  }

  /** The settlement of inner call `ev.id`: `useAsync` settles it; the controllers and the
      ref are not touched and no controller is aborted. */
  function Settle(cbs: A.Callbacks, a: Abortable, ev: Event): (r: StepResult)
    requires Wf(a) && Enabled(a, ev) && (ev.Succeed? || ev.Fail?)
    ensures Wf(r.state)
    ensures r.state.controllers == a.controllers && r.state.current == a.current
    ensures AbortCalls(r.effects) == []
  {
    var r := A.Step(cbs, a.inner, InnerEvent(ev));
    assert AbortCalls(r.effects) == [] by {
      NoAbortCalls(r.effects);
    }
    StepResult(a.(inner := r.runner), r.settled, r.effects)
  }

  lemma {:induction false} NoAbortCalls(effects: seq<Effect>)
    requires forall e :: e in effects ==> !e.AbortCalled?
    ensures AbortCalls(effects) == []
  {
    if |effects| > 0 {
      assert forall e :: e in effects[1..] ==> e in effects;
      NoAbortCalls(effects[1..]);
    }
  }

  /** Every event of `t` can happen in turn, starting from `a`. */
  predicate Valid(cbs: A.Callbacks, a: Abortable, t: seq<Event>)
    decreases |t|, 0
  {
    && Wf(a)
    && (|t| == 0 || (Valid(cbs, a, A.Prefix(t)) && Enabled(Run(cbs, a, A.Prefix(t)).state, A.Last(t))))
  }

  datatype RunResult = RunResult(state: Abortable, settled: seq<(nat, A.Settlement)>, effects: seq<Effect>)

  function Run(cbs: A.Callbacks, a: Abortable, t: seq<Event>): (r: RunResult)
    requires Valid(cbs, a, t)
    ensures Wf(r.state)
    decreases |t|, 1
  {
    if |t| == 0 then RunResult(a, [], [])
    else
      var before := Run(cbs, a, A.Prefix(t));
      var r := Step(cbs, before.state, A.Last(t));
      RunResult(r.state, before.settled + (if r.settled.Some? then [r.settled.value] else []),
                before.effects + r.effects)
  }

  /** The number of `trigger` calls in `t`. */
  function Triggers(t: seq<Event>): (n: nat)
  {
    if |t| == 0 then 0
    else Triggers(A.Prefix(t)) + (if A.Last(t).Trigger? then 1 else 0)
  }

  /** The caller's arguments of the `trigger` calls in `t`, in order, one per trigger. */
  function TriggerArgs(t: seq<Event>): (args: seq<seq<Value>>)
    ensures |args| == Triggers(t)
  {
    if |t| == 0 then []
    else TriggerArgs(A.Prefix(t)) + (if A.Last(t).Trigger? then [A.Last(t).args] else [])
  }

  lemma {:induction false} TriggersOfPrefix(t: seq<Event>, k: nat)
    requires k <= |t|
    ensures Triggers(t[..k]) <= Triggers(t)
    decreases |t|
  {
    if k < |t| {
      assert t[..k] == A.Prefix(t)[..k];
      TriggersOfPrefix(A.Prefix(t), k);
    } else {
      assert t[..k] == t;
    }
  }

  /** What the inner `useAsync` sees of one event, when `c` controllers exist: a trigger
      becomes a start whose arguments are the new controller's lifecycle object followed by
      the caller's; an abort is invisible to it; a settlement passes through. */
  function Translated(ev: Event, c: nat): (inner: seq<A.Event>)
  {
    match ev
    case Trigger(args) => [A.Start([Lifecycle(c)] + args)]
    case Abort => []
    case Teardown => []
    case _ => [InnerEvent(ev)]
  }

  /** The events the inner `useAsync` sees of a whole trace. */
  function Translate(t: seq<Event>): (inner: seq<A.Event>)
  {
    if |t| == 0 then []
    else Translate(A.Prefix(t)) + Translated(A.Last(t), Triggers(A.Prefix(t)))
  }

  /** Inner call `k` is started by the `k`-th trigger, with controller `k`'s lifecycle object
      in front of that trigger's arguments. */
  lemma {:induction false} StartsOfTranslate(t: seq<Event>)
    ensures |A.StartArgs(Translate(t))| == Triggers(t)
    ensures forall k :: 0 <= k < Triggers(t) ==>
              A.StartArgs(Translate(t))[k] == [Lifecycle(k)] + TriggerArgs(t)[k]
  {
    if |t| > 0 {
      var p := A.Prefix(t);
      StartsOfTranslate(p);
      var x := Translated(A.Last(t), Triggers(p));
      assert Translate(t) == Translate(p) + x;
      if x == [] {
        assert Translate(t) == Translate(p);
      } else {
        assert A.Prefix(Translate(t)) == Translate(p) && A.Last(Translate(t)) == x[0];
      }
    }
  }

  /** The calls made, leaving out those to `abort`. */
  function WithoutAborts(effects: seq<Effect>): (kept: seq<Effect>)
  {
    if |effects| == 0 then []
    else (if effects[0].AbortCalled? then [] else [effects[0]]) + WithoutAborts(effects[1..])
  }

  lemma {:induction false} WithoutAbortsAppend(a: seq<Effect>, b: seq<Effect>)
    ensures WithoutAborts(a + b) == WithoutAborts(a) + WithoutAborts(b)
  {
    if |a| == 0 {
      assert a + b == b;
    } else {
      assert (a + b)[0] == a[0];
      assert (a + b)[1..] == a[1..] + b;
      WithoutAbortsAppend(a[1..], b);
    }
  }

  lemma {:induction false} NoAbortsKept(effects: seq<Effect>)
    requires forall i :: 0 <= i < |effects| ==> !effects[i].AbortCalled?
    ensures WithoutAborts(effects) == effects
  {
    if |effects| > 0 {
      NoAbortsKept(effects[1..]);
      assert effects == [effects[0]] + effects[1..];
    }
  }

  /** One event of the abortable hook is the translated event (if any) of the inner one. */
  lemma StepSimulates(cbs: A.Callbacks, a: Abortable, ev: Event)
    requires Wf(a) && Enabled(a, ev)
    ensures var r := Step(cbs, a, ev);
            var x := Translated(ev, |a.controllers|);
            && (x == [] ==> r.state.inner == a.inner && r.settled == None && WithoutAborts(r.effects) == [])
            && (|x| == 1 ==>
                  && A.Enabled(a.inner, x[0])
                  && r.state.inner == A.Step(cbs, a.inner, x[0]).runner
                  && r.settled == A.Step(cbs, a.inner, x[0]).settled
                  && WithoutAborts(r.effects) == A.Step(cbs, a.inner, x[0]).effects)
  {
    var r := Step(cbs, a, ev);
    if AbortLike(ev) {
      if a.current.Some? {
        assert r.effects == [AbortCalled(a.current.value)];
        assert r.effects[1..] == [];
      }
    } else {
      var x := Translated(ev, |a.controllers|)[0];
      var ir := A.Step(cbs, a.inner, x);
      assert r.effects == ir.effects;
      NoAbortsKept(r.effects);
    }
  }

  /** One controller per trigger. */
  lemma {:induction false} ControllerPerTrigger(cbs: A.Callbacks, t: seq<Event>)
    requires Valid(cbs, Fresh, t)
    ensures |Run(cbs, Fresh, t).state.controllers| == Triggers(t)
  {
    if |t| > 0 {
      ControllerPerTrigger(cbs, A.Prefix(t));
    }
  }

  /** The abortable hook is exactly `useAsync` run on the translated events: same snapshot, same
      pending calls, the same settlements of `trigger` (so `trigger` returns what the inner
      trigger returns), and the same calls apart from those to `abort`. In particular
      `abort` and teardown never change `status`, `data` or `error`. */
  lemma {:induction false} InnerIsUseAsync(cbs: A.Callbacks, t: seq<Event>)
    requires Valid(cbs, Fresh, t)
    ensures A.Valid(cbs, A.Fresh, Translate(t))
    ensures var r := Run(cbs, Fresh, t);
            var inner := A.Run(cbs, A.Fresh, Translate(t));
            && r.state.inner == inner.runner
            && r.settled == inner.settled
            && WithoutAborts(r.effects) == inner.effects
  {
    if |t| > 0 {
      var p, e := A.Prefix(t), A.Last(t);
      InnerIsUseAsync(cbs, p);
      ControllerPerTrigger(cbs, p);
      var before := Run(cbs, Fresh, p);
      var r := Step(cbs, before.state, e);
      StepSimulates(cbs, before.state, e);
      WithoutAbortsAppend(before.effects, r.effects);
      var x := Translated(e, Triggers(p));
      assert Translate(t) == Translate(p) + x;
      if x == [] {
        assert Translate(t) == Translate(p);
      } else {
        assert A.Prefix(Translate(t)) == Translate(p) && A.Last(Translate(t)) == x[0];
      }
    }
  }

  predicate AbortLike(ev: Event)
  {
    ev.Abort? || ev.Teardown?
  }

  /** Controller `i` (created by the (i+1)-th trigger) is aborted exactly when `abort` or
      teardown ran while it was the current controller, i.e. after the (i+1)-th trigger and
      before the next one. A superseded controller is never aborted by later calls. */
  lemma {:induction false} AbortedExactlyWhileCurrent(cbs: A.Callbacks, t: seq<Event>, i: nat)
    requires Valid(cbs, Fresh, t)
    requires i < |Run(cbs, Fresh, t).state.controllers|
    ensures Run(cbs, Fresh, t).state.controllers[i] <==>
            exists k :: 0 <= k < |t| && AbortLike(t[k]) && Triggers(t[..k]) == i + 1
  {
    var p, e := A.Prefix(t), A.Last(t);
    ControllerPerTrigger(cbs, t);
    ControllerPerTrigger(cbs, p);
    var before := Run(cbs, Fresh, p);
    var after := Run(cbs, Fresh, t);
    assert t[..|p|] == p;
    assert forall k :: 0 <= k < |p| ==> t[k] == p[k] && t[..k] == p[..k];
    if i < |before.state.controllers| {
      AbortedExactlyWhileCurrent(cbs, p, i);
      if AbortLike(e) && i + 1 == |before.state.controllers| {
        assert after.state.controllers[i];
        assert AbortLike(t[|p|]) && Triggers(t[..|p|]) == i + 1;
      } else {
        assert after.state.controllers[i] == before.state.controllers[i];
        if exists k :: 0 <= k < |t| && AbortLike(t[k]) && Triggers(t[..k]) == i + 1 {
          var k :| 0 <= k < |t| && AbortLike(t[k]) && Triggers(t[..k]) == i + 1;
          if k == |p| {
            assert false;
          }
        }
      }
    } else {
      assert e.Trigger? && i == Triggers(p);
      assert !after.state.controllers[i];
      forall k | 0 <= k < |t| && AbortLike(t[k])
        ensures Triggers(t[..k]) != i + 1
      {
        TriggersOfPrefix(p, k);
      }
    }
  }

  /** `abort()` before any trigger: no call, no state change. */
  lemma AbortBeforeTriggerIsNoOp(cbs: A.Callbacks)
    ensures Step(cbs, Fresh, Abort) == StepResult(Fresh, None, [])
    ensures Step(cbs, Fresh, Teardown) == StepResult(Fresh, None, [])
  {
  }

  /** One trigger followed by one abort makes exactly one abort call, on the new controller;
      every older controller keeps its flag, and the inner snapshot is the one the trigger left. */
  lemma TriggerThenAbort(cbs: A.Callbacks, a: Abortable, args: seq<Value>)
    requires Wf(a)
    ensures var t := Step(cbs, a, Trigger(args));
            var b := Step(cbs, t.state, Abort);
            && AbortCalls(t.effects + b.effects) == [|a.controllers|]
            && b.state.controllers == a.controllers + [true]
            && b.state.inner == t.state.inner
  {
  }

  /** `onDone` and `onError` are handed over unchanged, so when call `k` settles, after any
      interleaving of triggers, aborts and other settlements, their `args` context is what `fn`
      received: controller `k`'s lifecycle object first, then the arguments of the `k`-th
      trigger. What the callbacks do on that context decides the outcome. */
  lemma {:induction false} CallbackContextHoldsLifecycle(cbs: A.Callbacks, t: seq<Event>)
    requires Valid(cbs, Fresh, t) && |t| > 0
    requires A.Last(t).Succeed? || A.Last(t).Fail?
    ensures A.Last(t).id < Triggers(A.Prefix(t))
    ensures var ev, k := A.Last(t), A.Last(t).id;
            var ctx := [Lifecycle(k)] + TriggerArgs(A.Prefix(t))[k];
            var d := Step(cbs, Run(cbs, Fresh, A.Prefix(t)).state, ev);
            var s := d.state.inner.state;
            && (forall e :: e in d.effects ==> (e.DoneCalled? || e.ErrorCalled?) && e.args == ctx)
            && (ev.Succeed? ==>
                  && |d.effects| > 0 && d.effects[0] == DoneCalled(ev.result, ctx)
                  && (s.status == States.Done <==> cbs.onDone(ev.result, ctx).Returns?))
            // onDone returns: trigger returns the result
            && (ev.Succeed? && cbs.onDone(ev.result, ctx).Returns? ==>
                  && d.effects == [DoneCalled(ev.result, ctx)]
                  && s.data == ev.result
                  && d.settled.value.1 == A.Fulfilled(Some(ev.result)))
            // onDone throws x: x is caught, stored, and handed to onError with the same context
            && (ev.Succeed? && cbs.onDone(ev.result, ctx).Throws? ==>
                  var x := cbs.onDone(ev.result, ctx).exception;
                  && d.effects == [DoneCalled(ev.result, ctx), ErrorCalled(x, ctx)]
                  && s.status == States.Failed && s.data == Null && s.error == x
                  && A.SettlesAfterOnError(cbs, x, ctx, d.settled.value.1))
            && (ev.Fail? ==>
                  && d.effects == [ErrorCalled(ev.error, ctx)]
                  && s.status == States.Failed && s.data == Null && s.error == ev.error
                  && A.SettlesAfterOnError(cbs, ev.error, ctx, d.settled.value.1)
                  && (d.settled.value.1.Rejected? <==> cbs.onError(ev.error, ctx).Throws?))
  {
    var p := A.Prefix(t);
    InnerIsUseAsync(cbs, p);
    A.PendingMatchesStarts(cbs, Translate(p));
    StartsOfTranslate(p);
  }
}
