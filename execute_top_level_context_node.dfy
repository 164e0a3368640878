/**
 * The top-level driver loop (`ExecuteTopLevelContextNode`): it runs the
 * active context and, depending on how the run ended, resumes the sender
 * (local return), a new process's context (process switch), or unwinds the
 * sender chain towards a target context (non-local and non-virtual
 * returns). Control-flow exceptions are `Outcome` values; the
 * `cannotReturn:` and `aboutToReturn:through:` sends are outcomes rather
 * than real sends.
 *
 * A sender chain is passed as a ghost sequence: the contexts reached from
 * its first element by following senders, ending with a nil sender.
 */
module ExecuteTopLevelContextNode {
  import opened ContextObjects

  datatype Outcome =
    | Resume(context: Context)                                  // the context that becomes active
    | TopLevelReturn(value: Value)                              // leaves the loop with `value`
    | CannotReturn(start: Context, value: Value)                // `start cannotReturn: value`
    | AboutToReturn(start: Context, value: Value, marked: Context) // `start aboutToReturn: value through: marked`
    | ClassCastFailure                                          // nil used where a context was expected

  /** How the call of the active context ended. */
  datatype ControlSignal =
    | Returned(result: Value)
    | ProcessSwitch(newContext: Context)
    | NonLocalReturn(target: Context, value: Value)
    | NonVirtualReturn(current: Context, target: Context, value: Value)

  /** `chain[k+1]` is the sender of `chain[k]`, and the last context's sender is nil. */
  ghost predicate SenderChain(chain: seq<Context>)
    reads chain
  {
    |chain| > 0 &&
    (forall k :: 0 <= k < |chain| - 1 ==> chain[k].senderMaterialized && chain[k].sender == chain[k + 1]) &&
    chain[|chain| - 1].senderMaterialized && chain[|chain| - 1].sender == null &&
    (forall a, b :: 0 <= a < b < |chain| ==> chain[a] != chain[b])
  }

  /** The position of `c` on `chain`, or `|chain|` when `c` is not on it. */
  function PositionIn(chain: seq<Context>, c: Context): (r: nat)
    ensures r <= |chain| && (r < |chain| ==> chain[r] == c)
    ensures forall k :: 0 <= k < r ==> chain[k] != c
  {
    if |chain| == 0 then 0 else if chain[0] == c then 0 else 1 + PositionIn(chain[1..], c)
  }

  /** A closure-less context whose method is marked for unwinding (`ensure:`/`ifCurtailed:`). */
  predicate Marked(c: Context) {
    !c.hasClosure && c.unwindMarked
  }

  /** The first marked context among `chain[i..p]`, or `p` when there is none. */
  function FirstMarked(chain: seq<Context>, i: nat, p: nat): (r: nat)
    requires i <= p <= |chain|
    ensures i <= r <= p && (r < p ==> Marked(chain[r]))
    ensures forall k :: i <= k < r ==> !Marked(chain[k])
    decreases p - i
  {
    if i == p then p else if Marked(chain[i]) then i else FirstMarked(chain, i + 1, p)
  }

  /** The contexts `returnTo` may push onto. */
  function ReturnToFrame(sender: Context?): set<Context>
    reads sender
  {
    if sender == null then {} else if sender.isPrimitive && sender.sender != null then {sender.sender} else {sender}
  }

  /**
   * `returnTo`: a nil sender ends the loop with the value; a primitive
   * context is skipped in favour of its own sender; the value is pushed
   * onto the chosen context, which becomes active.
   */
  method ReturnTo(activeContext: Context, sender: Context?, returnValue: Value) returns (r: Outcome)
    modifies ReturnToFrame(sender)
    ensures sender == null ==> r == TopLevelReturn(returnValue)
    ensures sender != null && !sender.isPrimitive ==>
      r == Resume(sender) && sender.stack == old(sender.stack) + [returnValue]
    ensures sender != null && sender.isPrimitive && old(sender.sender) == null ==> r == ClassCastFailure && unchanged(sender)
    ensures sender != null && sender.isPrimitive && old(sender.sender) != null ==>
      r == Resume(old(sender.sender)) && old(sender.sender).stack == old(sender.sender.stack) + [returnValue]
  {
    if sender == null {
      return TopLevelReturn(returnValue);
    }
    var targetContext := sender;
    var context: Context;
    if targetContext.isPrimitive {
      if targetContext.sender == null {
        return ClassCastFailure;
      }
      context := targetContext.sender;
    } else {
      context := targetContext;
    }
    context.Push(returnValue);
    return Resume(context);
  }

  /**
   * `commonNLReturn` as written: the nil guard inside the loop tests the
   * loop's `sender` argument, which is known to be a context there, instead
   * of `currentSender`. When the target is not on the sender chain, every
   * context of the chain is terminated and the cast of the final nil sender
   * fails.
   */
  method CommonNLReturnAsWritten(sender: Context?, targetContext: Context, returnValue: Value, ghost chain: seq<Context>)
    returns (r: Outcome)
    requires sender != null ==> SenderChain(chain) && chain[0] == sender
    modifies chain, targetContext
    ensures sender == null ==> r == TopLevelReturn(returnValue) && unchanged(targetContext)
    ensures sender != null && PositionIn(chain, targetContext) < |chain| ==>
      r == Resume(targetContext) &&
      (forall k :: 0 <= k < PositionIn(chain, targetContext) ==> chain[k].Terminated()) &&
      (forall k :: PositionIn(chain, targetContext) < k < |chain| ==> unchanged(chain[k])) &&
      targetContext.stack == old(targetContext.stack) + [returnValue]
    ensures sender != null && PositionIn(chain, targetContext) == |chain| ==>
      r == ClassCastFailure && unchanged(targetContext) &&
      (forall k :: 0 <= k < |chain| ==> chain[k].Terminated())
  {
    if sender == null {
      return TopLevelReturn(returnValue);
    }
    var context: Context := sender;
    ghost var k := 0;
    ghost var p := PositionIn(chain, targetContext);
    while context != targetContext
      invariant 0 <= k < |chain| && k <= p && context == chain[k]
      invariant forall i :: 0 <= i < k ==> chain[i].Terminated()
      invariant forall i :: k <= i < |chain| ==> unchanged(chain[i])
      invariant unchanged(targetContext)
      decreases |chain| - k
    {
      var currentSender := context.sender;
      assert k < |chain| - 1 ==> currentSender == chain[k + 1];
      if sender == null {
        break;
      }
      context.Terminate();
      if currentSender == null {
        assert k == |chain| - 1 && p == |chain|;
        return ClassCastFailure;
      }
      context := currentSender;
      k := k + 1;
    }
    targetContext.Push(returnValue);
    return Resume(targetContext);
  }

  /**
   * `commonNLReturn` with the guard testing `currentSender`: the unwind
   * terminates each context from the sender up to the target and stops
   * short of one whose sender is nil; the value is pushed on the target,
   * which becomes active.
   */
  method CommonNLReturn(sender: Context?, targetContext: Context, returnValue: Value, ghost chain: seq<Context>)
    returns (r: Outcome)
    requires sender != null ==> SenderChain(chain) && chain[0] == sender
    modifies chain, targetContext
    ensures sender == null ==> r == TopLevelReturn(returnValue) && unchanged(targetContext)
    ensures sender != null ==> r == Resume(targetContext) && targetContext.stack == old(targetContext.stack) + [returnValue]
    ensures sender != null && PositionIn(chain, targetContext) < |chain| ==>
      (forall k :: 0 <= k < PositionIn(chain, targetContext) ==> chain[k].Terminated()) &&
      (forall k :: PositionIn(chain, targetContext) < k < |chain| ==> unchanged(chain[k]))
    ensures sender != null && PositionIn(chain, targetContext) == |chain| ==>
      (forall k :: 0 <= k < |chain| - 1 ==> chain[k].Terminated()) && unchanged(chain[|chain| - 1])
  {
    if sender == null {
      return TopLevelReturn(returnValue);
    }
    var context: Context := sender;
    ghost var k := 0;
    ghost var p := PositionIn(chain, targetContext);
    while context != targetContext
      invariant 0 <= k < |chain| && k <= p && context == chain[k]
      invariant forall i :: 0 <= i < k ==> chain[i].Terminated()
      invariant forall i :: k <= i < |chain| ==> unchanged(chain[i])
      invariant unchanged(targetContext)
      decreases |chain| - k
    {
      var currentSender := context.sender;
      assert k < |chain| - 1 ==> currentSender == chain[k + 1];
      if currentSender == null {
        assert k == |chain| - 1 && p == |chain|;
        break;
      }
      context.Terminate();
      context := currentSender;
      k := k + 1;
    }
    targetContext.Push(returnValue);
    return Resume(targetContext);
  }

  /** Neither closure nor a sender to return through: `canBeReturnedTo` fails for a closure-less target. */
  predicate Returnable(targetContext: Context)
    reads targetContext
  {
    targetContext.hasClosure || targetContext.CanBeReturnedTo()
  }

  /**
   * `commonReturn`: a non-returnable target ends the loop (when it is the
   * start) or makes the start send `cannotReturn:`. Otherwise the chain
   * from the start is scanned: reaching nil before the target is a
   * `cannotReturn:`, a marked context on the way is sent
   * `aboutToReturn:through:`, and in both cases nothing changes. With no
   * unwinding to do, every context from the start up to but excluding the
   * target is terminated and the value is pushed on the target.
   */
  method CommonReturn(startContext: Context, targetContext: Context, returnValue: Value, ghost chain: seq<Context>)
    returns (r: Outcome)
    requires SenderChain(chain) && chain[0] == startContext
    modifies chain, targetContext
    ensures !old(Returnable(targetContext)) ==>
      r == (if startContext == targetContext then TopLevelReturn(returnValue) else CannotReturn(startContext, returnValue)) &&
      unchanged(targetContext) && (forall k :: 0 <= k < |chain| ==> unchanged(chain[k]))
    ensures old(Returnable(targetContext)) ==>
      var p := PositionIn(chain, targetContext);
      var m := FirstMarked(chain, 0, p);
      (m < p ==> r == AboutToReturn(startContext, returnValue, chain[m])) &&
      (m == p == |chain| ==> r == CannotReturn(startContext, returnValue)) &&
      (m < p || p == |chain| ==> unchanged(targetContext) && forall k :: 0 <= k < |chain| ==> unchanged(chain[k])) &&
      (m == p < |chain| ==>
        r == Resume(targetContext) && targetContext.stack == old(targetContext.stack) + [returnValue] &&
        (forall k :: 0 <= k < p ==> chain[k].Terminated()) &&
        (forall k :: p < k < |chain| ==> unchanged(chain[k])))
  {
    if !targetContext.hasClosure && !targetContext.CanBeReturnedTo() {
      if startContext == targetContext {
        return TopLevelReturn(returnValue);
      }
      return CannotReturn(startContext, returnValue);
    }
    ghost var p := PositionIn(chain, targetContext);
    var contextOrNil: Context? := startContext;
    ghost var k := 0;
    while contextOrNil != targetContext
      invariant 0 <= k <= p
      invariant k < |chain| ==> contextOrNil == chain[k]
      invariant k == |chain| ==> contextOrNil == null
      invariant forall i :: 0 <= i < k ==> !Marked(chain[i])
      decreases |chain| - k
    {
      if contextOrNil == null {
        return CannotReturn(startContext, returnValue);
      }
      var context := contextOrNil;
      if !context.hasClosure && context.unwindMarked {
        return AboutToReturn(startContext, returnValue, context);
      }
      contextOrNil := context.sender;
      k := k + 1;
    }
    var currentContext := startContext;
    ghost var n := 0;
    while currentContext != targetContext
      invariant 0 <= n <= p < |chain| && currentContext == chain[n]
      invariant forall i :: 0 <= i < n ==> chain[i].Terminated()
      invariant forall i :: n <= i < |chain| ==> unchanged(chain[i])
      decreases p - n
    {
      assert old(chain[n].sender) == chain[n + 1];
      var sender: Context := currentContext.sender;
      currentContext.Terminate();
      currentContext := sender;
      n := n + 1;
    }
    targetContext.Push(returnValue);
    return Resume(targetContext);
  }

  /**
   * `ensureCachedContextCanRunAgain`: a context that has run before (its
   * instruction pointer is not 0) gets its initial pc and its temporaries'
   * stack pointer back; a fresh one is left alone.
   */
  method EnsureCachedContextCanRunAgain(activeContext: Context)
    modifies activeContext
    ensures old(activeContext.ip) != 0 ==>
      activeContext.ip == activeContext.initialPC && activeContext.sp == activeContext.numTemps
    ensures old(activeContext.ip) == 0 ==> activeContext.ip == 0 && activeContext.sp == old(activeContext.sp)
    ensures activeContext.sender == old(activeContext.sender) && activeContext.stack == old(activeContext.stack)
    ensures activeContext.senderMaterialized == old(activeContext.senderMaterialized)
    ensures activeContext.escaped == old(activeContext.escaped)
  {
    if activeContext.ip != 0 {
      activeContext.ip := activeContext.initialPC;
      activeContext.sp := activeContext.numTemps;
    }
  }

  /** The contexts one round of the loop may change. */
  function StepFrame(activeContext: Context, signal: ControlSignal): set<Context>
    reads activeContext, activeContext.sender
  {
    ReturnToFrame(activeContext.sender) + (if signal.NonLocalReturn? || signal.NonVirtualReturn? then {signal.target} else {})
  }

  /**
   * One round of the driver loop: the sender is read, the materialisation
   * pointer is reset, the context runs (`signal` says how it ended) and the
   * next active context is chosen. A non-local return goes through
   * `commonNLReturn` as written, so one aimed off the sender chain fails.
   */
  method ExecuteLoopStep(image: Image, activeContext: Context, signal: ControlSignal, ghost chain: seq<Context>)
    returns (r: Outcome)
    requires signal.NonLocalReturn? && activeContext.sender != null ==> SenderChain(chain) && chain[0] == activeContext.sender
    requires signal.NonVirtualReturn? ==> SenderChain(chain) && chain[0] == signal.current
    modifies image, chain, StepFrame(activeContext, signal)
    ensures image.lastSeenContext == null
    ensures signal.ProcessSwitch? ==>
      r == Resume(signal.newContext) && unchanged(chain) && unchanged(old(ReturnToFrame(activeContext.sender)))
    ensures signal.Returned? && old(activeContext.sender) == null ==> r == TopLevelReturn(signal.result) && unchanged(chain)
    ensures signal.Returned? && old(activeContext.sender) != null && !old(activeContext.sender).isPrimitive ==>
      var s := old(activeContext.sender);
      r == Resume(s) && s.stack == old(s.stack) + [signal.result]
    ensures signal.Returned? && old(activeContext.sender) != null && old(activeContext.sender).isPrimitive ==>
      var s := old(activeContext.sender);
      if old(s.sender) == null then r == ClassCastFailure && unchanged(s)
      else r == Resume(old(s.sender)) && old(s.sender).stack == old(s.sender.stack) + [signal.result]
    ensures signal.NonLocalReturn? && old(activeContext.sender) == null ==>
      r == TopLevelReturn(signal.value) && unchanged(signal.target)
    ensures signal.NonLocalReturn? && old(activeContext.sender) != null ==>
      var p := PositionIn(chain, signal.target);
      (forall k :: 0 <= k < p ==> chain[k].Terminated()) &&
      (p < |chain| ==>
        r == Resume(signal.target) && signal.target.stack == old(signal.target.stack) + [signal.value] &&
        forall k :: p < k < |chain| ==> unchanged(chain[k])) &&
      (p == |chain| ==> r == ClassCastFailure && unchanged(signal.target))
    ensures signal.NonVirtualReturn? && !old(Returnable(signal.target)) ==>
      r == (if signal.current == signal.target then TopLevelReturn(signal.value) else CannotReturn(signal.current, signal.value)) &&
      unchanged(signal.target) && unchanged(chain)
    ensures signal.NonVirtualReturn? && old(Returnable(signal.target)) ==>
      var p := PositionIn(chain, signal.target);
      var m := FirstMarked(chain, 0, p);
      (m < p ==> r == AboutToReturn(signal.current, signal.value, chain[m])) &&
      (m == p == |chain| ==> r == CannotReturn(signal.current, signal.value)) &&
      (m < p || p == |chain| ==> unchanged(signal.target) && unchanged(chain)) &&
      (m == p < |chain| ==>
        r == Resume(signal.target) && signal.target.stack == old(signal.target.stack) + [signal.value] &&
        (forall k :: 0 <= k < p ==> chain[k].Terminated()) &&
        (forall k :: p < k < |chain| ==> unchanged(chain[k])))
  {
    var sender := activeContext.sender;
    image.lastSeenContext := null;
    match signal
    case Returned(result) =>
      r := ReturnTo(activeContext, sender, result);
    case ProcessSwitch(newContext) =>
      r := Resume(newContext);
    case NonLocalReturn(target, value) =>
      r := CommonNLReturnAsWritten(sender, target, value, chain);
    case NonVirtualReturn(current, target, value) =>
      r := CommonReturn(current, target, value, chain);
  }

  /** A single context with a nil sender, unwound towards a context that is not its sender. */
  method NLReturnAsWrittenFailsOffChain() returns (r: Outcome, startTerminated: bool)
    ensures r == ClassCastFailure && startTerminated
  {
    var start := new Context(false, false, false, 0, 0);
    var target := new Context(false, false, false, 0, 0);
    r := CommonNLReturnAsWritten(start, target, Obj(1), [start]);
    startTerminated := start.Terminated();
  }

  /** The same unwind with the intended guard stops at the nil sender and returns to the target. */
  method NLReturnStopsAtNilSender() returns (r: Outcome, startTerminated: bool, targetStack: seq<Value>)
    ensures r.Resume? && !startTerminated && targetStack == [Obj(1)]
  {
    var start := new Context(false, false, false, 0, 0);
    var target := new Context(false, false, false, 0, 0);
    r := CommonNLReturn(start, target, Obj(1), [start]);
    startTerminated := start.Terminated();
    targetStack := target.stack;
  }
}
