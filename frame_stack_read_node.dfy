/**
 * `FrameStackReadNode`: reading a value of a frame's operand stack, which
 * starts with the receiver's arguments (held in the frame's arguments) and
 * continues with temporaries and stack values (held in frame slots). The
 * factory chooses between an argument read, a slot read that clears the
 * slot, and a slot read that keeps it; only stack values above the
 * temporaries may be cleared.
 */
module FrameStackReadNode {
  import opened Wrappers

  datatype Value = Nil | Boolean(b: bool) | Long(n: int) | Double(bits: int) | Obj(id: nat)

  /** The parts of a frame's code that decide where its stack begins. */
  datatype CodeShape = CodeShape(numTemps: nat, numArgs: nat)
  datatype ClosureShape = ClosureShape(numTemps: nat, numArgs: nat, numCopied: nat)

  /**
   * What `create` asks of a frame: its number of arguments (after the
   * receiver), its code and its closure (`None` for a method activation),
   * and where the frame's argument array holds the first argument.
   */
  datatype FrameShape = FrameShape(numArguments: nat, code: CodeShape, closure: Option<ClosureShape>, argumentStart: nat)

  /** The node `create` returns. */
  datatype ReadNode =
    | ArgumentRead(argumentIndex: int)       // `FrameArgumentNode`: reads `arguments[argumentIndex]`
    | SlotRead(slotIndex: int, clear: bool)  // `FrameSlotReadClearNode` / `FrameSlotReadNoClearNode`

  /** The stack pointer at which the frame's stack values begin: the temporaries of its closure, or else of its code. */
  function InitialSP(frame: FrameShape): nat {
    if frame.closure.None? then frame.code.numTemps else frame.closure.value.numTemps
  }

  /** `FrameAccess.toStackSlotIndex`: stack index `index` lives in frame slot `index - numArguments`. */
  function ToStackSlotIndex(frame: FrameShape, index: int): int {
    index - frame.numArguments
  }

  /** `create(frame, index, clear)`. */
  function Create(frame: FrameShape, index: int, clear: bool): (r: ReadNode)
    ensures r.ArgumentRead? <==> index < frame.numArguments
    ensures r.ArgumentRead? ==> r.argumentIndex == frame.argumentStart + index
    ensures r.SlotRead? ==> r.slotIndex == ToStackSlotIndex(frame, index)
    ensures r.SlotRead? ==> (r.clear <==> clear && index >= InitialSP(frame))
  {
    if index < frame.numArguments then
      ArgumentRead(frame.argumentStart + index)
    else if clear && index >= InitialSP(frame) then
      SlotRead(ToStackSlotIndex(frame, index), true)
    else
      SlotRead(ToStackSlotIndex(frame, index), false)
  }

  /** `createTemporaryReadNode(frame, index)`. */
  function CreateTemporaryReadNode(frame: FrameShape, index: int): (r: ReadNode)
    ensures r.SlotRead? ==> !r.clear
  {
    if index < frame.numArguments then
      ArgumentRead(frame.argumentStart + index)
    else
      SlotRead(ToStackSlotIndex(frame, index), false)
  }

  /** A temporary read node is the non-clearing node `create` makes for the same index. */
  lemma TemporaryReadIsNonClearingCreate(frame: FrameShape, index: int)
    ensures CreateTemporaryReadNode(frame, index) == Create(frame, index, false)
  {
  }

  /** Arguments and temporaries are never read by a clearing node. */
  lemma NoClearBelowInitialSP(frame: FrameShape, index: int, clear: bool)
    requires index < InitialSP(frame)
    ensures !(Create(frame, index, clear).SlotRead? && Create(frame, index, clear).clear)
  {
  }

  /**
   * The asserted shape of a frame: a method's arguments are its code's, a
   * block's are its closure's arguments and copied values, and there are at
   * least as many temporaries as arguments.
   */
  predicate WellShaped(frame: FrameShape) {
    (frame.closure.None? ==> frame.numArguments == frame.code.numArgs) &&
    (frame.closure.Some? ==> frame.numArguments == frame.closure.value.numArgs + frame.closure.value.numCopied) &&
    InitialSP(frame) >= frame.numArguments
  }

  /** In a well-shaped frame every clearing read is of a slot above the temporaries, hence never an argument. */
  lemma ClearingReadsAreStackValues(frame: FrameShape, index: int, clear: bool)
    requires WellShaped(frame)
    requires Create(frame, index, clear).SlotRead? && Create(frame, index, clear).clear
    ensures ToStackSlotIndex(frame, index) >= InitialSP(frame) - frame.numArguments >= 0
  {
  }

  // ---------------------------------------------------------------------
  // Executing a read node

  /** A frame slot: cleared (`null`), holding an object, or holding a primitive in a primitive slot kind. */
  datatype Slot = Cleared | ObjectSlot(value: Value) | PrimitiveSlot(value: Value)

  /** What reading a slot returns; `None` is Java's `null`. */
  function SlotValue(s: Slot): Option<Value> {
    if s.Cleared? then None else Some(s.value)
  }

  /** `frame.setObject(slot, frame.getValue(slot))`: the slot's value, now stored as an object. */
  function AsObjectSlot(s: Slot): (r: Slot)
    ensures SlotValue(r) == SlotValue(s) && !r.PrimitiveSlot?
  {
    if s.PrimitiveSlot? then ObjectSlot(s.value) else s
  }

  class Frame {
    var arguments: seq<Value>
    var slots: seq<Slot>

    constructor(arguments: seq<Value>, slots: seq<Slot>)
      ensures this.arguments == arguments && this.slots == slots
    {
      this.arguments := arguments;
      this.slots := slots;
    }
  }

  /**
   * `executeReadUnsafe`. A slot read node starts with its primitive
   * specialisations (`readBoolean`, `readLong`, `readDouble`) active; while
   * they are, a slot holding a primitive is read without being touched. The
   * first read of a slot holding an object or `null` activates `readObject`
   * (`readAndClearObject` for a clearing node), which replaces them for good:
   * a non-clearing read then returns the slot's value and re-stores a
   * primitive as an object; a clearing read returns the slot's prior value
   * and leaves the slot cleared. An argument read returns the argument.
   * `primitiveActive` and `primitiveActiveAfter` are the node's state before
   * and after the read.
   */
  method ExecuteRead(node: ReadNode, primitiveActive: bool, frame: Frame) returns (v: Option<Value>, primitiveActiveAfter: bool)
    requires node.ArgumentRead? ==> 0 <= node.argumentIndex < |frame.arguments|
    requires node.SlotRead? ==> 0 <= node.slotIndex < |frame.slots|
    modifies frame
    ensures frame.arguments == old(frame.arguments)
    ensures node.ArgumentRead? ==>
      v == Some(frame.arguments[node.argumentIndex]) && frame.slots == old(frame.slots) && primitiveActiveAfter == primitiveActive
    ensures node.SlotRead? ==> v == SlotValue(old(frame.slots[node.slotIndex]))
    ensures node.SlotRead? ==> (primitiveActiveAfter <==> primitiveActive && old(frame.slots[node.slotIndex]).PrimitiveSlot?)
    ensures node.SlotRead? && primitiveActiveAfter ==> frame.slots == old(frame.slots)
    ensures node.SlotRead? && !primitiveActiveAfter && node.clear ==> frame.slots == old(frame.slots)[node.slotIndex := Cleared]
    ensures node.SlotRead? && !primitiveActiveAfter && !node.clear ==>
      frame.slots == old(frame.slots)[node.slotIndex := AsObjectSlot(old(frame.slots[node.slotIndex]))]
  {
    match node
    case ArgumentRead(argumentIndex) =>
      v := Some(frame.arguments[argumentIndex]);
      primitiveActiveAfter := primitiveActive;
    case SlotRead(slotIndex, clear) =>
      var slot := frame.slots[slotIndex];
      if primitiveActive && slot.PrimitiveSlot? {
        v := Some(slot.value);
        primitiveActiveAfter := true;
      } else if clear {
        v := SlotValue(slot);
        frame.slots := frame.slots[slotIndex := Cleared];
        primitiveActiveAfter := false;
      } else if slot.PrimitiveSlot? {
        v := Some(slot.value);
        frame.slots := frame.slots[slotIndex := ObjectSlot(slot.value)];
        primitiveActiveAfter := false;
      } else {
        v := SlotValue(slot);
        primitiveActiveAfter := false;
      }
  }

  /** A non-clearing read changes no slot's value, so reading twice gives the same result. */
  method ReadTwiceNoClear(frame: Frame, slotIndex: int, primitiveActive: bool) returns (first: Option<Value>, second: Option<Value>)
    requires 0 <= slotIndex < |frame.slots|
    modifies frame
    ensures first == second == SlotValue(old(frame.slots[slotIndex]))
  {
    var active;
    first, active := ExecuteRead(SlotRead(slotIndex, false), primitiveActive, frame);
    second, active := ExecuteRead(SlotRead(slotIndex, false), active, frame);
  }

  /**
   * A clearing read through `readAndClearObject` hands the value out once and
   * the slot then reads as `null`; a primitive read through an active
   * primitive specialisation leaves the value for the next read.
   */
  method ReadTwiceClear(frame: Frame, slotIndex: int, primitiveActive: bool) returns (first: Option<Value>, second: Option<Value>)
    requires 0 <= slotIndex < |frame.slots|
    modifies frame
    ensures first == SlotValue(old(frame.slots[slotIndex]))
    ensures primitiveActive && old(frame.slots[slotIndex]).PrimitiveSlot? ==> second == first && frame.slots == old(frame.slots)
    ensures !(primitiveActive && old(frame.slots[slotIndex]).PrimitiveSlot?) ==> second == None
  {
    var active;
    first, active := ExecuteRead(SlotRead(slotIndex, true), primitiveActive, frame);
    second, active := ExecuteRead(SlotRead(slotIndex, true), active, frame);
  }
}
