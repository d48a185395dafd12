/** The older `useAbortableAsync` kept in src/index.ts. Its trigger, abort and teardown are
    those of the newer hook; it differs only in the callbacks it hands to `useAsync`:
    `handleOnDone` and `handleOnError` drop the first element of `args` (the lifecycle object)
    before calling the user's callbacks, so the user sees only the caller's arguments. */
module LegacyAbortable {
  import opened Values
  import States
  import A = AsyncRunner
  import R = AbortableRunner

  /** `args?.slice(1)` on an argument array. */
  function DropFirst(args: seq<Value>): (r: seq<Value>)
    ensures |args| > 0 ==> [args[0]] + r == args
    ensures |args| == 0 ==> r == []
  {
    if |args| == 0 then [] else args[1..]
  }

  /** `handleOnDone` and `handleOnError`: the result or error goes through unchanged, the
      context loses its first argument, and whatever the user's callback does (return or
      throw) is what the handler does. */
  function Handlers(user: A.Callbacks): (h: A.Callbacks)
    ensures forall v, lc, args :: h.onDone(v, [lc] + args) == user.onDone(v, args)
    ensures forall e, lc, args :: h.onError(e, [lc] + args) == user.onError(e, args)
  {
    assert forall lc, args :: DropFirst([lc] + args) == args by {
      forall lc, args ensures DropFirst([lc] + args) == args {
        DropFirstUndoesPrepend(lc, args);
      }
    }
    A.Callbacks(
      (v, args) => user.onDone(v, DropFirst(args)),
      (e, args) => user.onError(e, DropFirst(args)))
  }

  /** A call as the user observes it: a callback call carries the context the user's callback
      receives, not the one the handler received. */
  function UserView(e: Effect): (seen: Effect)
  {
    match e
    case DoneCalled(r, args) => DoneCalled(r, DropFirst(args))
    case ErrorCalled(x, args) => ErrorCalled(x, DropFirst(args))
    case _ => e
  }

  function UserViews(effects: seq<Effect>): (r: seq<Effect>)
    ensures |r| == |effects|
    ensures forall i :: 0 <= i < |effects| ==> r[i] == UserView(effects[i])
  {
    seq(|effects|, i requires 0 <= i < |effects| => UserView(effects[i]))
  }

  /** One event of the older hook. */
  function Step(user: A.Callbacks, a: R.Abortable, ev: R.Event): (r: R.StepResult)
    requires R.Wf(a) && R.Enabled(a, ev)
    ensures R.Wf(r.state)
    // a fresh controller becomes current and fn itself still receives its lifecycle object first
    ensures ev.Trigger? ==>
              && r.state.controllers == a.controllers + [false]
              && r.state.current == Some(|a.controllers|)
              && r.effects == [FnInvoked([Lifecycle(|a.controllers|)] + ev.args)]
    ensures ev.Abort? || ev.Teardown? ==> r == R.AbortCurrent(a)
  {
    var r := R.Step(Handlers(user), a, ev);
    r.(effects := UserViews(r.effects))
  }

  /** Dropping the first argument undoes putting the lifecycle object in front. */
  lemma DropFirstUndoesPrepend(lc: Value, args: seq<Value>)
    ensures DropFirst([lc] + args) == args
  {
  }

  /** Every event of `t` can happen in turn, starting from a freshly constructed older hook. */
  predicate Valid(user: A.Callbacks, t: seq<R.Event>)
    decreases |t|, 0
  {
    |t| == 0 || (Valid(user, A.Prefix(t)) && R.Enabled(Run(user, A.Prefix(t)).state, A.Last(t)))
  }

  /** The events of `t`, in order, on a freshly constructed older hook. */
  function Run(user: A.Callbacks, t: seq<R.Event>): (r: R.RunResult)
    requires Valid(user, t)
    ensures R.Wf(r.state)
    decreases |t|, 1
  {
    if |t| == 0 then R.RunResult(R.Fresh, [], [])
    else
      var before := Run(user, A.Prefix(t));
      var r := Step(user, before.state, A.Last(t));
      R.RunResult(r.state, before.settled + (if r.settled.Some? then [r.settled.value] else []),
                  before.effects + r.effects)
  }

  /** Over any trace the older hook is the newer one given the wrapping handlers: the same
      controllers, snapshots and settlements, and the same calls once each callback call is
      read as the user's callback sees it. */
  lemma {:induction false} RunsAsNewerWithHandlers(user: A.Callbacks, t: seq<R.Event>)
    requires Valid(user, t)
    ensures R.Valid(Handlers(user), R.Fresh, t)
    ensures var r, n := Run(user, t), R.Run(Handlers(user), R.Fresh, t);
            && r.state == n.state
            && r.settled == n.settled
            && r.effects == UserViews(n.effects)
  {
    if |t| > 0 {
      var p, ev := A.Prefix(t), A.Last(t);
      RunsAsNewerWithHandlers(user, p);
      var mine, theirs := Run(user, p), R.Run(Handlers(user), R.Fresh, p);
      assert R.Valid(Handlers(user), R.Fresh, t);
      var step := R.Step(Handlers(user), theirs.state, ev);
      assert Step(user, mine.state, ev) == step.(effects := UserViews(step.effects));
      UserViewsAppend(theirs.effects, step.effects);
    }
  }

  lemma UserViewsAppend(a: seq<Effect>, b: seq<Effect>)
    ensures UserViews(a + b) == UserViews(a) + UserViews(b)
  {
    assert forall i :: 0 <= i < |a + b| ==> UserViews(a + b)[i] == (UserViews(a) + UserViews(b))[i];
  }

  /** One settlement as the user sees it: every callback call carries the arguments the call
      was started with, minus the first. */
  lemma SettlementArgsSeenByUser(user: A.Callbacks, a: R.Abortable, ev: R.Event)
    requires R.Wf(a) && R.Enabled(a, ev)
    requires ev.Succeed? || ev.Fail?
    ensures var args := DropFirst(a.inner.pending[ev.id]);
            forall e :: e in Step(user, a, ev).effects ==> (e.DoneCalled? || e.ErrorCalled?) && e.args == args
  {
    var inner := A.Step(Handlers(user), a.inner, R.InnerEvent(ev));
    assert Step(user, a, ev).effects == UserViews(inner.effects);
    UserViewsOfCallbacks(inner.effects, a.inner.pending[ev.id]);
  }

  /** Callback calls that all carry `ctx` are seen by the user as carrying `ctx` minus its
      first element. */
  lemma UserViewsOfCallbacks(effects: seq<Effect>, ctx: seq<Value>)
    requires forall e :: e in effects ==> (e.DoneCalled? || e.ErrorCalled?) && e.args == ctx
    ensures forall e :: e in UserViews(effects) ==> (e.DoneCalled? || e.ErrorCalled?) && e.args == DropFirst(ctx)
  {
    forall i | 0 <= i < |effects|
      ensures var e := UserViews(effects)[i]; (e.DoneCalled? || e.ErrorCalled?) && e.args == DropFirst(ctx)
    {
      assert effects[i] in effects;
    }
  }

  /** A success as the user sees it: the user's `onDone` gets the result and the call's
      arguments minus the first; if it returns, `trigger` returns the result, and if it throws
      `x`, the user's `onError` gets `x` with the same arguments. */
  lemma SuccessSeenByUser(user: A.Callbacks, a: R.Abortable, ev: R.Event)
    requires R.Wf(a) && R.Enabled(a, ev)
    requires ev.Succeed?
    ensures var args := DropFirst(a.inner.pending[ev.id]);
            var d := Step(user, a, ev);
            var s := d.state.inner.state;
            && |d.effects| > 0 && d.effects[0] == DoneCalled(ev.result, args)
            && (s.status == States.Done <==> user.onDone(ev.result, args).Returns?)
            && (user.onDone(ev.result, args).Returns? ==>
                  && d.effects == [DoneCalled(ev.result, args)]
                  && s.data == ev.result
                  && d.settled.value.1 == A.Fulfilled(Some(ev.result)))
            && (user.onDone(ev.result, args).Throws? ==>
                  var x := user.onDone(ev.result, args).exception;
                  && d.effects == [DoneCalled(ev.result, args), ErrorCalled(x, args)]
                  && s.status == States.Failed && s.data == Null && s.error == x
                  && A.SettlesAfterOnError(user, x, args, d.settled.value.1))
  {
    var ctx, args := a.inner.pending[ev.id], DropFirst(a.inner.pending[ev.id]);
    var inner := A.Step(Handlers(user), a.inner, R.InnerEvent(ev));
    var d := Step(user, a, ev);
    assert d.effects == UserViews(inner.effects) && d.state.inner == inner.runner && d.settled == inner.settled;
    assert Handlers(user).onDone(ev.result, ctx) == user.onDone(ev.result, args);
    if user.onDone(ev.result, args).Returns? {
      assert inner.effects == [DoneCalled(ev.result, ctx)];
    } else {
      var x := user.onDone(ev.result, args).exception;
      assert Handlers(user).onError(x, ctx) == user.onError(x, args);
      assert inner.effects == [DoneCalled(ev.result, ctx), ErrorCalled(x, ctx)];
    }
  }

  /** A failure as the user sees it: the user's `onError` gets the rejection and the call's
      arguments minus the first, and `trigger` rejects exactly when it throws. */
  lemma FailureSeenByUser(user: A.Callbacks, a: R.Abortable, ev: R.Event)
    requires R.Wf(a) && R.Enabled(a, ev)
    requires ev.Fail?
    ensures var args := DropFirst(a.inner.pending[ev.id]);
            var d := Step(user, a, ev);
            var s := d.state.inner.state;
            && d.effects == [ErrorCalled(ev.error, args)]
            && s.status == States.Failed && s.data == Null && s.error == ev.error
            && A.SettlesAfterOnError(user, ev.error, args, d.settled.value.1)
            && (d.settled.value.1.Rejected? <==> user.onError(ev.error, args).Throws?)
  {
    var ctx, args := a.inner.pending[ev.id], DropFirst(a.inner.pending[ev.id]);
    var inner := A.Step(Handlers(user), a.inner, R.InnerEvent(ev));
    var d := Step(user, a, ev);
    assert d.effects == UserViews(inner.effects) && d.state.inner == inner.runner && d.settled == inner.settled;
    assert Handlers(user).onError(ev.error, ctx) == user.onError(ev.error, args);
    assert inner.effects == [ErrorCalled(ev.error, ctx)];
  }

  /** When call `k` settles, after any interleaving of triggers, aborts and other settlements,
      the user's `onDone` gets the result unchanged and the user's `onError` the thrown value
      unchanged, each with exactly the arguments of the `k`-th trigger; the snapshot and the
      settlement of `trigger` follow what the user's callbacks do on those arguments. */
  lemma {:induction false} CallbacksSeeCallerArgs(user: A.Callbacks, t: seq<R.Event>)
    requires Valid(user, t) && |t| > 0
    requires A.Last(t).Succeed? || A.Last(t).Fail?
    ensures A.Last(t).id < R.Triggers(A.Prefix(t))
    ensures var ev := A.Last(t);
            var args := R.TriggerArgs(A.Prefix(t))[ev.id];
            var d := Step(user, Run(user, A.Prefix(t)).state, ev);
            var s := d.state.inner.state;
            && (forall e :: e in d.effects ==> (e.DoneCalled? || e.ErrorCalled?) && e.args == args)
            && (ev.Succeed? ==>
                  && |d.effects| > 0 && d.effects[0] == DoneCalled(ev.result, args)
                  && (s.status == States.Done <==> user.onDone(ev.result, args).Returns?))
            // the user's onDone returns: trigger returns the result
            && (ev.Succeed? && user.onDone(ev.result, args).Returns? ==>
                  && d.effects == [DoneCalled(ev.result, args)]
                  && s.data == ev.result
                  && d.settled.value.1 == A.Fulfilled(Some(ev.result)))
            // the user's onDone throws x: the user's onError gets x, again with the caller's args
            && (ev.Succeed? && user.onDone(ev.result, args).Throws? ==>
                  var x := user.onDone(ev.result, args).exception;
                  && d.effects == [DoneCalled(ev.result, args), ErrorCalled(x, args)]
                  && s.status == States.Failed && s.data == Null && s.error == x
                  && A.SettlesAfterOnError(user, x, args, d.settled.value.1))
            && (ev.Fail? ==>
                  && d.effects == [ErrorCalled(ev.error, args)]
                  && s.status == States.Failed && s.data == Null && s.error == ev.error
                  && A.SettlesAfterOnError(user, ev.error, args, d.settled.value.1)
                  && (d.settled.value.1.Rejected? <==> user.onError(ev.error, args).Throws?))
  {
    var p, ev := A.Prefix(t), A.Last(t);
    var cbs := Handlers(user);
    RunsAsNewerWithHandlers(user, p);
    R.InnerIsUseAsync(cbs, p);
    A.PendingMatchesStarts(cbs, R.Translate(p));
    R.StartsOfTranslate(p);
    var a := Run(user, p).state;
    assert a.inner.pending[ev.id] == [Lifecycle(ev.id)] + R.TriggerArgs(p)[ev.id];
    DropFirstUndoesPrepend(Lifecycle(ev.id), R.TriggerArgs(p)[ev.id]);
    SettlementArgsSeenByUser(user, a, ev);
    if ev.Succeed? {
      SuccessSeenByUser(user, a, ev);
    } else {
      FailureSeenByUser(user, a, ev);
    }
  }

  /** With callbacks that never throw (the defaults among them), the older hook goes through
      the same snapshots, controllers and settlements as the newer one. */
  lemma SameTransitionsAsNewer(user: A.Callbacks, a: R.Abortable, ev: R.Event)
    requires R.Wf(a) && R.Enabled(a, ev)
    requires forall v, args :: user.onDone(v, args) == A.Returns
    requires forall v, args :: user.onError(v, args) == A.Returns
    ensures Step(user, a, ev).state == R.Step(user, a, ev).state
    ensures Step(user, a, ev).settled == R.Step(user, a, ev).settled
  {
  }
}
