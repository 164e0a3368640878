/**
 * `ReturnBytecodes`: the return bytecodes of the older engine. A return is
 * local (the frame returns to its caller directly) when there is no closure
 * and the frame is virtualised or its context is not dirty; otherwise it is
 * a non-local return that unwinds to a target context. The value returned
 * is a constant, the receiver, or the popped top of the stack.
 *
 * The `FreshReturn` exceptions are values of `ReturnSignal`.
 */
module ReturnBytecodes {
  import opened Wrappers

  datatype Value = Nil | Long(n: int) | Obj(id: nat) | ContextRef(id: nat)

  /** A block closure, seen only through its home context. */
  datatype Closure = Closure(homeContext: Value)

  /**
   * The frame as the return nodes see it: the closure argument (`None` when
   * `null`), whether the context is still virtualised, whether the
   * materialised context is dirty, the frame's own context, the receiver
   * and the operand stack (top last).
   */
  datatype Frame = Frame(
    closure: Option<Closure>,
    virtualized: bool,
    dirty: bool,
    thisContext: Value,
    receiver: Value,
    stack: seq<Value>)

  datatype ReturnNode =
    | ReturnConstant(constant: Value)
    | ReturnReceiver
    | ReturnTopFromMethod
    | ReturnTopFromBlock

  datatype ReturnSignal =
    | LocalReturn(value: Value)
    | NonLocalReturn(value: Value, targetContext: Value)

  /** `hasClosure(frame)`; the block return overrides it to say there is none. */
  function HasClosure(node: ReturnNode, frame: Frame): (r: bool)
    ensures r ==> frame.closure.Some?
    ensures !node.ReturnTopFromBlock? ==> (r <==> frame.closure.Some?)
    ensures node.ReturnTopFromBlock? ==> !r
  {
    if node.ReturnTopFromBlock? then false else frame.closure.Some?
  }

  /** The guard of `executeLocalReturn`. */
  predicate IsLocalReturn(node: ReturnNode, frame: Frame) {
    !HasClosure(node, frame) && (frame.virtualized || !frame.dirty)
  }

  /** The guard of `executeNonLocalReturn`. */
  predicate IsNonLocalReturn(node: ReturnNode, frame: Frame) {
    (HasClosure(node, frame) || !frame.virtualized) && (HasClosure(node, frame) || frame.dirty)
  }

  /** Exactly one of the two specialisations applies to every frame. */
  lemma GuardsPartition(node: ReturnNode, frame: Frame)
    ensures IsNonLocalReturn(node, frame) <==> !IsLocalReturn(node, frame)
  {
  }

  /** The block return's choice depends only on whether the frame is virtualised or dirty. */
  lemma BlockReturnIgnoresClosure(frame: Frame, closure: Option<Closure>)
    ensures IsLocalReturn(ReturnTopFromBlock, frame) == IsLocalReturn(ReturnTopFromBlock, frame.(closure := closure))
    ensures IsLocalReturn(ReturnTopFromBlock, frame) <==> frame.virtualized || !frame.dirty
  {
  }

  /** A node that pops needs a value on the stack. */
  predicate CanReturn(node: ReturnNode, frame: Frame) {
    (node.ReturnTopFromMethod? || node.ReturnTopFromBlock?) ==> |frame.stack| > 0
  }

  /** `getReturnValue`: the value returned and the stack left behind. */
  function ReturnValue(node: ReturnNode, frame: Frame): (r: (Value, seq<Value>))
    requires CanReturn(node, frame)
    ensures node.ReturnConstant? ==> r == (node.constant, frame.stack)
    ensures node.ReturnReceiver? ==> r == (frame.receiver, frame.stack)
    ensures node.ReturnTopFromMethod? || node.ReturnTopFromBlock? ==>
      r.1 + [r.0] == frame.stack
  {
    match node
    case ReturnConstant(constant) => (constant, frame.stack)
    case ReturnReceiver => (frame.receiver, frame.stack)
    case _ => (frame.stack[|frame.stack| - 1], frame.stack[..|frame.stack| - 1])
  }

  /**
   * `executeNonLocalReturn`'s target as written: the home context of the
   * closure argument if there is one, else the frame's own context. It reads
   * the closure argument directly, not through the overridden `hasClosure`.
   */
  function NonLocalTargetAsWritten(frame: Frame): (r: Value)
    ensures frame.closure.Some? ==> r == frame.closure.value.homeContext
    ensures frame.closure.None? ==> r == frame.thisContext
  {
    if frame.closure.Some? then frame.closure.value.homeContext else frame.thisContext
  }

  /** The target consistent with the node's own `hasClosure`. */
  function NonLocalTarget(node: ReturnNode, frame: Frame): (r: Value)
    ensures HasClosure(node, frame) ==> r == frame.closure.value.homeContext
    ensures !HasClosure(node, frame) ==> r == frame.thisContext
  {
    if HasClosure(node, frame) then frame.closure.value.homeContext else frame.thisContext
  }

  /** Executing a return bytecode as written: the signal it raises and the stack after the pop. */
  function ExecuteAsWritten(node: ReturnNode, frame: Frame): (r: (ReturnSignal, seq<Value>))
    requires CanReturn(node, frame)
    ensures r.0.LocalReturn? <==> IsLocalReturn(node, frame)
    ensures r.0.value == ReturnValue(node, frame).0 && r.1 == ReturnValue(node, frame).1
    ensures r.0.NonLocalReturn? && frame.closure.Some? ==> r.0.targetContext == frame.closure.value.homeContext
    ensures r.0.NonLocalReturn? && frame.closure.None? ==> r.0.targetContext == frame.thisContext
  {
    var (value, stack) := ReturnValue(node, frame);
    if IsLocalReturn(node, frame) then (LocalReturn(value), stack)
    else (NonLocalReturn(value, NonLocalTargetAsWritten(frame)), stack)
  }

  /** Executing a return bytecode with the non-local target chosen by the node's own `hasClosure`. */
  function Execute(node: ReturnNode, frame: Frame): (r: (ReturnSignal, seq<Value>))
    requires CanReturn(node, frame)
    ensures r.0.LocalReturn? <==> IsLocalReturn(node, frame)
    ensures r.0.value == ReturnValue(node, frame).0 && r.1 == ReturnValue(node, frame).1
    ensures r.0.NonLocalReturn? && HasClosure(node, frame) ==> r.0.targetContext == frame.closure.value.homeContext
    ensures r.0.NonLocalReturn? && !HasClosure(node, frame) ==> r.0.targetContext == frame.thisContext
  {
    var (value, stack) := ReturnValue(node, frame);
    if IsLocalReturn(node, frame) then (LocalReturn(value), stack)
    else (NonLocalReturn(value, NonLocalTarget(node, frame)), stack)
  }

  /** Only the block return is affected: for every other node the two agree. */
  lemma ExecuteAgreesExceptBlockReturn(node: ReturnNode, frame: Frame)
    requires CanReturn(node, frame) && !node.ReturnTopFromBlock?
    ensures Execute(node, frame) == ExecuteAsWritten(node, frame)
  {
  }

  /**
   * A block return from a materialised, dirty block frame: as written it
   * unwinds to the block's home context, although the node declared that
   * it has no closure, so that the frame's own context is the target.
   */
  lemma BlockReturnAsWrittenTargetsHome()
    ensures var frame := Frame(Some(Closure(ContextRef(1))), false, true, ContextRef(2), Nil, [Long(7)]);
      ExecuteAsWritten(ReturnTopFromBlock, frame) == (NonLocalReturn(Long(7), ContextRef(1)), []) &&
      Execute(ReturnTopFromBlock, frame) == (NonLocalReturn(Long(7), ContextRef(2)), [])
  {
    var frame := Frame(Some(Closure(ContextRef(1))), false, true, ContextRef(2), Nil, [Long(7)]);
    assert frame.stack[..0] == [];
  }
}
