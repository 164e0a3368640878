/**
 * Contexts (activation records) as the interpreter's return, unwind and
 * materialisation code sees them. A context has a sender (another context,
 * or nil once it is at the bottom or terminated), an instruction pointer
 * that is negative once the context is dead, a stack pointer, and an
 * operand stack. What a context's compiled code says about it (closure,
 * primitive, unwind mark, initial pc and number of temporaries) is fixed.
 */
module ContextObjects {
  /** The values the modelled code moves between contexts and frames. */
  datatype Value =
    | Nil
    | Long(n: int)
    | Boolean(b: bool)
    | Obj(id: nat)      // any other object

  class Context {
    /** The sender; `null` is nil. Only meaningful when `senderMaterialized`. */
    var sender: Context?
    /** False while the sender is still only a frame marker. */
    var senderMaterialized: bool
    var ip: int
    var sp: int
    var stack: seq<Value>
    var escaped: bool
    const hasClosure: bool
    const isPrimitive: bool
    const unwindMarked: bool
    const initialPC: nat
    const numTemps: nat

    constructor(hasClosure: bool, isPrimitive: bool, unwindMarked: bool, initialPC: nat, numTemps: nat)
      ensures this.hasClosure == hasClosure && this.isPrimitive == isPrimitive && this.unwindMarked == unwindMarked
      ensures this.initialPC == initialPC && this.numTemps == numTemps
      ensures sender == null && senderMaterialized && ip == 0 && sp == 0 && stack == [] && !escaped
    {
      this.hasClosure := hasClosure;
      this.isPrimitive := isPrimitive;
      this.unwindMarked := unwindMarked;
      this.initialPC := initialPC;
      this.numTemps := numTemps;
      sender := null;
      senderMaterialized := true;
      ip := 0;
      sp := 0;
      stack := [];
      escaped := false;
    }

    /** `isTerminated()`: no pc and no sender. */
    predicate Terminated()
      reads this
      ensures Terminated() ==> !CanBeReturnedTo()
    {
      ip < 0 && senderMaterialized && sender == null
    }

    /** `canBeReturnedTo()`: alive and with a sender to return through. */
    predicate CanBeReturnedTo()
      reads this
    {
      ip >= 0 && senderMaterialized && sender != null
    }

    /** `terminate()`: removes the pc and the sender. */
    method Terminate()
      modifies this
      ensures Terminated() && ip == -1
      ensures sp == old(sp) && stack == old(stack) && escaped == old(escaped)
    {
      ip := -1;
      sender := null;
      senderMaterialized := true;
    }

    /** `push(value)`. */
    method Push(value: Value)
      modifies this
      ensures stack == old(stack) + [value] && sp == old(sp) + 1
      ensures sender == old(sender) && senderMaterialized == old(senderMaterialized)
      ensures ip == old(ip) && escaped == old(escaped)
    {
      stack := stack + [value];
      sp := sp + 1;
    }

    /** `setSender(context)`. */
    method SetSender(context: Context?)
      modifies this
      ensures sender == context && senderMaterialized
      ensures ip == old(ip) && sp == old(sp) && stack == old(stack) && escaped == old(escaped)
    {
      sender := context;
      senderMaterialized := true;
    }
  }

  /** The part of the image state that the materialisation mechanism shares. */
  class Image {
    var lastSeenContext: Context?

    constructor()
      ensures lastSeenContext == null
    {
      lastSeenContext := null;
    }
  }
}
