/** Values the runners pass around, and the calls they make that an observer can see. */
module Values {

  datatype Option<+T> = None | Some(value: T)

  /** A JavaScript value as far as the runners are concerned: they store, forward and
      return values but never look inside them. */
  datatype Value =
    | Undefined
    | Null
    | Bool(b: bool)
    | Num(n: int)
    | Str(s: string)
      /** The `{ abortSignal }` object that the abortable runner puts in front of the caller's
          arguments; `controller` names the `AbortController` whose signal it carries. */
    | Lifecycle(controller: nat)
      /** Any other non-function object, identified by reference. */
    | Object(ref: nat)

  /** An observable call made by a runner: into the wrapped `fn`, into `onDone` or `onError`
      (with the `args` of their context object), or into `AbortController.prototype.abort`. */
  datatype Effect =
    | FnInvoked(args: seq<Value>)
    | DoneCalled(result: Value, args: seq<Value>)
    | ErrorCalled(error: Value, args: seq<Value>)
    | AbortCalled(controller: nat)

  /** The argument lists `fn` was invoked with, in invocation order. */
  function FnCalls(effects: seq<Effect>): (calls: seq<seq<Value>>)
    ensures |calls| <= |effects|
    ensures (forall i :: 0 <= i < |effects| ==> !effects[i].FnInvoked?) ==> calls == []
  {
    if |effects| == 0 then []
    else (if effects[0].FnInvoked? then [effects[0].args] else []) + FnCalls(effects[1..])
  }

  lemma {:induction false} FnCallsAppend(a: seq<Effect>, b: seq<Effect>)
    ensures FnCalls(a + b) == FnCalls(a) + FnCalls(b)
  {
    if |a| == 0 {
      assert a + b == b;
    } else {
      assert (a + b)[0] == a[0];
      assert (a + b)[1..] == a[1..] + b;
      FnCallsAppend(a[1..], b);
    }
  }

  /** The controllers `abort()` was called on, in call order. */
  function AbortCalls(effects: seq<Effect>): (calls: seq<nat>)
    ensures |calls| <= |effects|
  {
    if |effects| == 0 then []
    else (if effects[0].AbortCalled? then [effects[0].controller] else []) + AbortCalls(effects[1..])
  }
}
