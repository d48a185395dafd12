# react-use-async-fn: the async-operation state machine, in Dafny

This project models the two hooks of `react-use-async-fn` as pure transitions over an explicit
trace of events, and proves what those hooks promise.

- `useAsync` holds the snapshot `{status, data, error, isLoading}`. Its `trigger(...args)` sets
  `status` to `WORKING`, calls `fn(...args)` and awaits it. On fulfilment it stores `data`, goes
  `DONE`, calls `onDone(result, {args})` and returns the result. On rejection it clears `data`,
  stores the thrown value in `error`, goes `FAILED`, calls `onError(error, {args})` and returns
  `undefined`.
- `useAbortableAsync` wraps `useAsync`. Each trigger makes a new `AbortController` the current one.
  The trigger puts `{abortSignal}` in front of the caller's arguments. `abort()` aborts the
  current controller, if there is one. Teardown runs `abort`.

Modules, one per concept:

- `Values` (values.dfy): JavaScript values as opaque data, and the observable calls (`Effect`):
  the call into `fn`, the calls into `onDone` and `onError`, and the calls to
  `AbortController.abort`.
- `States` (states.dfy): the four status tags of `STATES`.
- `AsyncRunner` (async_runner.dfy): `useAsync`. The model splits a trigger at its `await`.
  - `Start(args)` is the synchronous part. Its call id is the number of earlier starts.
  - `Succeed(id, r)` and `Fail(id, e)` settle call `id`'s `fn` promise.
  - Overlapping triggers are interleaved events.
  - User callbacks are functions that either return or throw a value.
  - `useAsync` in src/index.ts:49-87 is the same code as src/async.ts:7-45, so it is modelled once
    here.
- `AbortableRunner` (abortable_runner.dfy): `useAbortableAsync` from src/abortable.ts. A controller
  is its one-shot aborted flag, named by its creation index. The hook is proved to be `useAsync` run
  on a translated trace (`InnerIsUseAsync`).
- `LegacyAbortable` (legacy_abortable.dfy): the older `useAbortableAsync` in src/index.ts. It is
  the newer hook with `handleOnDone` and `handleOnError` wrapped around the user's callbacks. These
  handlers strip the first element of `args`.

Points where the code behaves differently from what a reader might expect. The model follows the code:

- Neither the start of a trigger nor a success clears `error`. A snapshot can therefore be `DONE`
  with a stale non-null `error` (`StaleErrorSurvivesSuccess`). "DONE implies no error" does not
  hold. "FAILED implies no data" does hold (`ReachableSnapshot`).
- `onDone` is called inside the `try`. An exception it throws is caught and the call ends `FAILED`.
  Only an exception from `onError` escapes `trigger` (`Finish`, `OnDoneThrowScenario`).
- Only the older variant in src/index.ts hides the lifecycle object from the callbacks. The variant
  in src/abortable.ts passes the callbacks through unchanged, so their `args` start with the
  lifecycle object (`CallbackContextHoldsLifecycle`).
- At run time the lifecycle object is the first argument of `fn`. Two other files put it last:
  src/types.ts:47-49 types it as the last argument, and test/abortable.test.ts:119-122 expects it
  last. The model follows the run-time code.

## Model

| member | source | states |
|---|---|---|
| States.ExactlyFourTags | src/index.ts:3-8 | a status is published as exactly one of "INITIAL", "WORKING", "DONE", "FAILED", and distinct statuses have distinct tags |
| AsyncRunner.Catch | src/async.ts:31-38 | the catch block clears `data`, stores the thrown value verbatim in `error`, ends FAILED and not loading, and calls `onError` once with that value and the args. `trigger` then fulfils with undefined, or rejects with `onError`'s exception exactly when `onError` throws |
| AsyncRunner.Finish | src/async.ts:22-39 | after `fn` settles, the call ends DONE exactly when `fn` resolved and `onDone` did not throw. On DONE, `data` is the result, `error` keeps its old value, `onDone` is called once, and `trigger` returns the result. Otherwise the call ends FAILED with `data` null and `error` set to `fn`'s rejection or `onDone`'s exception, and `onError` is called once. A rejection of `trigger` implies `onError` threw |
| AsyncRunner.Step | src/async.ts:18-42 | a start sets only `status := WORKING`, keeps `data` and `error`, invokes `fn` once with exactly the caller's args, and settles nothing. A settlement ends DONE or FAILED, retires exactly that call, invokes no `fn`, and settles exactly that call. Its callbacks get the args that call was started with. A success calls `onDone` first. If `onDone` returns, the call ends DONE with the result in `data`, `error` untouched, and `trigger` returns the result. If `onDone` throws x, `onError` gets x with the same args, the call ends FAILED with `data` null and x in `error`, and `trigger` rejects with `onError`'s exception exactly when `onError` throws, else fulfils with undefined. A failure calls only `onError`, ends FAILED with the rejection in `error`, and settles by the same `onError` rule |
| AsyncRunner.SettlementCallbackArgs | src/async.ts:19-37 | over any trace, when call k settles, `onDone` and `onError` receive the args of the k-th trigger, whatever other triggers started or settled in between |
| AsyncRunner.PendingMatchesStarts | src/async.ts:18-23 | call ids are given out in start order, and every unsettled call remembers exactly the args it was started with |
| AsyncRunner.FnInvokedOncePerTrigger | src/async.ts:18-23 | over any trace, the list of `fn` invocations is exactly the list of the triggers' argument lists, in order. So construction invokes nothing and each trigger invokes `fn` once |
| AsyncRunner.ReachableSnapshot | src/async.ts:12-16 | in every reachable snapshot, `isLoading` holds exactly when status is WORKING. Status is INITIAL exactly until the first trigger, and while INITIAL, `data` and `error` are both null. FAILED always has `data` null |
| AsyncRunner.LastWriterWins | src/async.ts:25-34 | with no guard against overlap, status is decided by the last event, `data` by the last settlement of any call, and `error` by the last failed settlement, whatever order the calls were started in |
| AsyncRunner.NonThrowingOnDoneIsDefault | src/async.ts:5-9 | over any trace, an `onDone` that never throws gives the same snapshots, settlements and calls as an omitted `onDone` (which defaults to `noOp`), whatever `onError` is |
| AsyncRunner.NonThrowingOnErrorIsDefault | src/async.ts:5-10 | over any trace, an `onError` that never throws gives the same snapshots, settlements and calls as an omitted `onError` (which defaults to `noOp`), whatever `onDone` is |
| AsyncRunner.ResolvedScenario | src/async.ts:23-30 | `fn = async () => 1` with no args: `trigger` fulfils with 1 and the snapshot is DONE, data 1, error null, not loading |
| AsyncRunner.RejectedScenario | src/async.ts:31-38 | `fn` throwing the string "X": `trigger` fulfils with undefined (it does not reject). The snapshot is FAILED, data null, error "X", and `onError` gets "X" and the args |
| AsyncRunner.StaleErrorSurvivesSuccess | src/async.ts:21-26 | a failure followed by a successful trigger leaves status DONE with the earlier error still in `error` |
| AsyncRunner.OverlappingTriggersRace | src/async.ts:25-26 | when the first-started call settles last, its stale result overwrites the newer one |
| AsyncRunner.OnDoneThrowScenario | src/async.ts:22-39 | an `onDone` that throws turns a fulfilled `fn` into FAILED with that exception in `error`, and `onError` receives it |
| AbortableRunner.AbortCurrent | src/abortable.ts:50-52 | with no controller, `abort` changes nothing and calls nothing. Otherwise it aborts the current controller with one abort call and leaves every other controller and the inner snapshot unchanged |
| AbortableRunner.Step | src/abortable.ts:32-56 | a trigger adds a fresh unaborted controller and makes it current, leaves the older flags alone, and invokes `fn` with the lifecycle object first and the caller's args after it. Teardown is `abort`. Settlements leave the controllers alone. No event clears an aborted flag |
| AbortableRunner.ControllerPerTrigger | src/abortable.ts:34 | over any trace, exactly one controller is created per trigger |
| AbortableRunner.InnerIsUseAsync | src/abortable.ts:26-45 | the hook is `useAsync` run on the trace with each trigger turned into a start with the lifecycle object prepended and aborts removed. The snapshots and settlements are the same, so `trigger` returns what the inner trigger returns and `abort` never changes status, data or error. The calls are the same apart from the abort calls |
| AbortableRunner.AbortedExactlyWhileCurrent | src/abortable.ts:32-56 | controller i is aborted exactly when `abort` or teardown ran while it was current, between its trigger and the next one. A superseded controller is never aborted later |
| AbortableRunner.AbortBeforeTriggerIsNoOp | src/abortable.ts:50-52 | `abort` or teardown before any trigger changes nothing and calls nothing |
| AbortableRunner.TriggerThenAbort | src/abortable.ts:32-52 | one trigger followed by one abort makes exactly one abort call, on the new controller. Older controllers keep their flags and the inner snapshot is unchanged by the abort |
| AbortableRunner.StartsOfTranslate | src/abortable.ts:32-43 | the k-th trigger starts inner call k with controller k's lifecycle object in front of that trigger's args |
| AbortableRunner.Settle | src/abortable.ts:26-45 | a settlement is the inner `useAsync` settlement. It leaves the controllers and the ref alone and aborts nothing |
| AbortableRunner.CallbackContextHoldsLifecycle | src/abortable.ts:26-43 | the callbacks are passed through unchanged. So over any trace, when call k settles, `onDone` and `onError` get controller k's lifecycle object followed by the k-th trigger's args. If `onDone` returns, `trigger` returns the result. If it throws x, `onError` gets x with the same context, `error` is x, and `trigger` rejects exactly when `onError` throws. A failure settles by the same `onError` rule |
| LegacyAbortable.DropFirst | src/index.ts:129 | `args?.slice(1)` gives everything after the first element, and the empty list for an empty list |
| LegacyAbortable.Handlers | src/index.ts:125-145 | `handleOnDone` and `handleOnError` call the user's callback with the result or error unchanged and the context minus its first element, and return or throw exactly as the user's callback does |
| LegacyAbortable.DropFirstUndoesPrepend | src/index.ts:125-145 | stripping the first argument undoes prepending the lifecycle object: `([lc] + args)[1..] == args` |
| LegacyAbortable.Step | src/index.ts:153-177 | the older trigger also makes a fresh controller current and invokes `fn` with its lifecycle object first. Its abort and teardown are exactly those of the newer hook |
| LegacyAbortable.RunsAsNewerWithHandlers | src/index.ts:125-177 | over any trace, the older hook is the newer one given `handleOnDone` and `handleOnError`: the same controllers, snapshots and settlements, and the same calls once each callback call is read as the user's callback receives it |
| LegacyAbortable.SettlementArgsSeenByUser | src/index.ts:125-151 | on any settlement, every call into the user's callbacks carries the call's args minus the first |
| LegacyAbortable.SuccessSeenByUser | src/index.ts:125-151 | on a success, the user's `onDone` gets the result unchanged. If it returns, `trigger` returns the result. If it throws x, the user's `onError` gets x with the same args, `error` is x, and `trigger` rejects exactly when the user's `onError` throws |
| LegacyAbortable.FailureSeenByUser | src/index.ts:136-151 | on a failure, the user's `onError` gets the rejection unchanged, the call ends FAILED with it in `error`, and `trigger` rejects exactly when the user's `onError` throws |
| LegacyAbortable.CallbacksSeeCallerArgs | src/index.ts:125-164 | over any trace, when call k settles, every call into the user's callbacks carries exactly the k-th trigger's args. The user's `onDone` gets the result unchanged. If it throws x, the user's `onError` gets x. On a failure, the user's `onError` gets the rejection unchanged. The final status, `data`, `error` and how `trigger` settles follow what the user's callbacks do on those args |
| LegacyAbortable.SameTransitionsAsNewer | src/index.ts:110-151 | with callbacks that never throw (the defaults included), the older hook has the same snapshots, controllers and settlements as the newer one |

## Left out

- React plumbing is not modelled: `useState`, `useMemo`, `useCallback`, `useRef`, `useEffect`,
  callback identity across re-renders, and render scheduling. The model never observes the
  intermediate snapshots between the `set...` calls of one settlement. It also does not model
  that React drops state updates made after unmount.
- React's state setters call a function argument as an updater and store what it returns.
  `Value` has no function values, so the model always stores `fn`'s result in `data` and the
  thrown value in `error` as they are. A function-valued result or thrown value would be stored
  as the updater's return value instead.
- Promises and timers become explicit `Start`/`Succeed`/`Fail` events. A `fn` that throws
  synchronously is the same as `Start` immediately followed by `Fail`.
- `AbortController` and `AbortSignal` internals are not modelled: no events and no listeners.
  A controller is only its aborted flag. How `fn` reacts to the signal belongs to `fn` and shows
  up only as the `Fail` it chooses to produce.
- User callbacks are deterministic functions of their arguments. A callback with its own state
  is not modelled.
- The model treats a callback passed as `null` like an omitted one. In the source, `null` does
  not trigger the default: in `useAsync` the call then throws, and the older hook's
  `if (onDone)` guard skips it. The types do not allow `null`.
- src/state.ts is not part of this model. The tags are those of `STATES` in src/index.ts.
- src/types.ts is not modelled: it has no run-time behaviour. Only its lifecycle position is
  noted above.
- The example application and the `dist` declarations are not modelled.
