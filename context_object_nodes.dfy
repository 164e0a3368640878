/**
 * `ContextObjectNodes`: reading and writing the fields of a context that may
 * still live only as a Truffle frame. A frame marker stands for the context;
 * when the marker is the current frame's own, the named fields map onto
 * frame slots and frame arguments (virtualised access), otherwise the
 * access goes to the marker's materialised context.
 *
 * Context field indices: sender 0, instruction pointer 1, stack pointer 2,
 * method 3, closure 4, receiver 5, and the stack from 6 on.
 */
module ContextObjectNodes {
  import opened Wrappers
  import opened JavaInts

  const SENDER_OR_NIL: int := 0
  const INSTRUCTION_POINTER: int := 1
  const STACKPOINTER: int := 2
  const METHOD: int := 3
  const CLOSURE_OR_NIL: int := 4
  const RECEIVER: int := 5
  const TEMP_FRAME_START: int := 6

  datatype Value =
    | Nil
    | Long(n: int)
    | Marker(id: nat)     // a frame marker standing for a context
    | Code(id: nat)       // a compiled method or block
    | Closure(id: nat)    // a block closure
    | Obj(id: nat)        // any other object

  /** The `SqueakException("Unexpected values:", ...)` of the fallback specialisations. */
  datatype AccessError = UnexpectedValues

  /** A materialised context, seen only through `at0`/`atput0` on its field indices. */
  class MaterializedContext {
    var fields: map<int, Value>

    constructor()
      ensures fields == map[]
    {
      fields := map[];
    }

    /** `at0(index)`; a field never written reads as nil. */
    function At0(index: int): (v: Value)
      reads this
      ensures index in fields ==> v == fields[index]
      ensures index !in fields ==> v == Nil
    {
      if index in fields then fields[index] else Nil
    }

    /** `atput0(index, value)`. */
    method Atput0(index: int, value: Value)
      modifies this
      ensures fields == old(fields)[index := value]
      ensures At0(index) == value
    {
      fields := fields[index := value];
    }
  }

  class FrameMarker {
    const context: MaterializedContext

    constructor(context: MaterializedContext)
      ensures this.context == context
    {
      this.context := context;
    }
  }

  /** The frame slots and arguments a virtualised context lives in. */
  datatype FrameState = FrameState(
    ip: int,                  // instruction pointer slot, relative to the initial pc
    sp: int,                  // stack pointer slot
    stack: seq<Value>,        // the code's stack slots (`numStackSlots` of them)
    senderOrMarker: Value,    // a context, or the sender's frame marker
    code: Value,
    closure: Option<Value>,   // `null` when the frame runs a method
    receiver: Value)

  class Frame {
    /** The marker that `matches` this frame. */
    const marker: FrameMarker
    /** The initial pc of the frame's method or block. */
    const initialPC: int
    var ip: int
    var sp: int
    var stack: seq<Value>
    var senderOrMarker: Value
    var code: Value
    var closure: Option<Value>
    var receiver: Value

    constructor(marker: FrameMarker, initialPC: int, state: FrameState)
      ensures this.marker == marker && this.initialPC == initialPC && State() == state
    {
      this.marker := marker;
      this.initialPC := initialPC;
      ip := state.ip;
      sp := state.sp;
      stack := state.stack;
      senderOrMarker := state.senderOrMarker;
      code := state.code;
      closure := state.closure;
      receiver := state.receiver;
    }

    function State(): FrameState
      reads this
    {
      FrameState(ip, sp, stack, senderOrMarker, code, closure, receiver)
    }
  }

  /** The pc a virtualised context reports for instruction pointer slot `ip`: nil once `ip` is negative. */
  function PCValue(ip: int, initialPC: int): (r: Value)
    ensures r == Nil <==> ip < 0
    ensures r != Nil ==> r.Long? && IsInt32(r.n)
  {
    if ip < 0 then Nil else Long(Int32(initialPC + ip))
  }

  /** The instruction pointer slot a written pc `v` is stored as: `(int) v - initialPC`. */
  function PCSlot(v: int, initialPC: int): (r: int)
    ensures IsInt32(r)
    ensures IsInt32(v) && IsInt32(v - initialPC) ==> r == v - initialPC
  {
    Int32(Int32(v) - initialPC)
  }

  /** Reading a virtualised stack field: nil past the stack slots, an error for a negative slot index. */
  function StackValue(stack: seq<Value>, stackIndex: int): (r: Result<Value, AccessError>)
    ensures r.Failure? <==> stackIndex < 0
    ensures 0 <= stackIndex < |stack| ==> r == Success(stack[stackIndex])
  {
    if stackIndex >= |stack| then Success(Nil)
    else if stackIndex < 0 then Failure(UnexpectedValues)
    else Success(stack[stackIndex])
  }

  /** The stack slot a field index denotes: `(int) (index - TEMP_FRAME_START)`. */
  function StackIndex(index: int): int {
    Int32(index - TEMP_FRAME_START)
  }

  /** The read node. */
  function Read(frame: Frame, obj: FrameMarker, index: int): (r: Result<Value, AccessError>)
    reads frame, obj, obj.context
    ensures obj != frame.marker ==> r == Success(obj.context.At0(index))
    ensures r.Failure? ==> r.error == UnexpectedValues && obj == frame.marker
    ensures obj == frame.marker && index >= TEMP_FRAME_START && 0 <= StackIndex(index) < |frame.stack| ==>
      r == Success(frame.stack[StackIndex(index)])
  {
    if obj != frame.marker then Success(obj.context.At0(index))
    else if index == SENDER_OR_NIL then
      if frame.senderOrMarker.Marker? then Success(obj.context.At0(index)) else Success(frame.senderOrMarker)
    else if index == INSTRUCTION_POINTER then Success(PCValue(frame.ip, frame.initialPC))
    else if index == STACKPOINTER then Success(Long(frame.sp))
    else if index == METHOD then Success(frame.code)
    else if index == CLOSURE_OR_NIL then Success(if frame.closure.None? then Nil else frame.closure.value)
    else if index == RECEIVER then Success(frame.receiver)
    else if index >= TEMP_FRAME_START then StackValue(frame.stack, StackIndex(index))
    else Failure(UnexpectedValues)
  }

  /**
   * The write node. Writes through a foreign marker, and every write of the
   * sender, go to the materialised context. A virtualised pc accepts nil
   * (stored as -1) or a non-negative integer (stored relative to the initial
   * pc); the stack pointer an integer; the method a compiled code object;
   * the closure nil or a closure; the receiver anything; a stack field a
   * value for one of the stack slots. Everything else is the fallback's error
   * and changes nothing.
   */
  method Write(frame: Frame, obj: FrameMarker, index: int, value: Value) returns (r: Result<(), AccessError>)
    modifies frame, obj.context
    ensures obj != frame.marker || index == SENDER_OR_NIL ==>
      r.Success? && obj.context.fields == old(obj.context.fields)[index := value] && unchanged(frame)
    ensures obj == frame.marker && index != SENDER_OR_NIL ==> unchanged(obj.context)
    ensures obj == frame.marker && index == INSTRUCTION_POINTER ==>
      (value == Nil ==> r.Success? && frame.State() == old(frame.State()).(ip := -1)) &&
      (value.Long? && value.n >= 0 ==>
        r.Success? && frame.State() == old(frame.State()).(ip := PCSlot(value.n, frame.initialPC))) &&
      (value != Nil && !(value.Long? && value.n >= 0) ==> r.Failure? && unchanged(frame))
    ensures obj == frame.marker && index == STACKPOINTER ==>
      (value.Long? ==> r.Success? && frame.State() == old(frame.State()).(sp := Int32(value.n))) &&
      (!value.Long? ==> r.Failure? && unchanged(frame))
    ensures obj == frame.marker && index == METHOD ==>
      (value.Code? ==> r.Success? && frame.State() == old(frame.State()).(code := value)) &&
      (!value.Code? ==> r.Failure? && unchanged(frame))
    ensures obj == frame.marker && index == CLOSURE_OR_NIL ==>
      (value == Nil ==> r.Success? && frame.State() == old(frame.State()).(closure := None)) &&
      (value.Closure? ==> r.Success? && frame.State() == old(frame.State()).(closure := Some(value))) &&
      (value != Nil && !value.Closure? ==> r.Failure? && unchanged(frame))
    ensures obj == frame.marker && index == RECEIVER ==>
      r.Success? && frame.State() == old(frame.State()).(receiver := value)
    ensures obj == frame.marker && index >= TEMP_FRAME_START ==>
      var stackIndex := StackIndex(index);
      (0 <= stackIndex < old(|frame.stack|) ==>
        r.Success? && frame.State() == old(frame.State()).(stack := old(frame.stack)[stackIndex := value])) &&
      (!(0 <= stackIndex < old(|frame.stack|)) ==> r.Failure? && unchanged(frame))
    ensures obj == frame.marker && index < SENDER_OR_NIL ==> r.Failure? && unchanged(frame)
  {
    if obj != frame.marker || index == SENDER_OR_NIL {
      obj.context.Atput0(index, value);
      r := Success(());
    } else if index == INSTRUCTION_POINTER {
      if value == Nil {
        frame.ip := -1;
        r := Success(());
      } else if value.Long? && value.n >= 0 {
        frame.ip := Int32(Int32(value.n) - frame.initialPC);
        r := Success(());
      } else {
        r := Failure(UnexpectedValues);
      }
    } else if index == STACKPOINTER {
      if value.Long? {
        frame.sp := Int32(value.n);
        r := Success(());
      } else {
        r := Failure(UnexpectedValues);
      }
    } else if index == METHOD {
      if value.Code? {
        frame.code := value;
        r := Success(());
      } else {
        r := Failure(UnexpectedValues);
      }
    } else if index == CLOSURE_OR_NIL {
      if value == Nil {
        frame.closure := None;
        r := Success(());
      } else if value.Closure? {
        frame.closure := Some(value);
        r := Success(());
      } else {
        r := Failure(UnexpectedValues);
      }
    } else if index == RECEIVER {
      frame.receiver := value;
      r := Success(());
    } else if index >= TEMP_FRAME_START {
      var stackIndex := Int32(index - TEMP_FRAME_START);
      if 0 <= stackIndex < |frame.stack| {
        frame.stack := frame.stack[stackIndex := value];
        r := Success(());
      } else {
        r := Failure(UnexpectedValues);
      }
    } else {
      r := Failure(UnexpectedValues);
    }
  }

  // ---------------------------------------------------------------------
  // Properties of the encodings

  /** Only a negative index, or a stack index that wraps negative, makes a virtualised read fail. */
  lemma ReadFailsOnlyOnBadIndex(frame: Frame, obj: FrameMarker, index: int)
    ensures Read(frame, obj, index).Failure? <==>
      obj == frame.marker && (index < 0 || (index >= TEMP_FRAME_START && StackIndex(index) < 0))
  {
  }

  /** A stack field past the code's stack slots reads as nil. */
  lemma ReadPastStackIsNil(frame: Frame, index: int)
    requires index >= TEMP_FRAME_START && StackIndex(index) >= |frame.stack|
    ensures Read(frame, frame.marker, index) == Success(Nil)
  {
  }

  /** A nil pc is stored as -1, which reads back as nil. */
  lemma NilPCRoundTrip(initialPC: int)
    ensures PCValue(-1, initialPC) == Nil
  {
  }

  /** A pc at or above the initial pc is stored relative to it and reads back unchanged. */
  lemma PCRoundTrip(v: int, initialPC: int)
    requires IsInt32(v) && 0 <= initialPC <= v
    ensures PCSlot(v, initialPC) == v - initialPC
    ensures PCValue(PCSlot(v, initialPC), initialPC) == Long(v)
  {
    Int32InRange(v);
    Int32InRange(v - initialPC);
  }

  /** A non-negative pc below the initial pc is stored negative: the context reads as having no pc. */
  lemma PCBelowInitialReadsNil(v: int, initialPC: int)
    requires IsInt32(initialPC) && 0 <= v < initialPC
    ensures PCValue(PCSlot(v, initialPC), initialPC) == Nil
  {
    Int32InRange(v);
    Int32InRange(v - initialPC);
  }

  /** A stack pointer that fits a Java `int` reads back unchanged. */
  lemma SPRoundTrip(frame: Frame, v: int)
    requires IsInt32(v) && frame.sp == Int32(v)
    ensures Read(frame, frame.marker, STACKPOINTER) == Success(Long(v))
  {
    Int32InRange(v);
  }

  /** Writing then reading a field through a foreign marker gives the value back. */
  method MaterializedRoundTrip(frame: Frame, obj: FrameMarker, index: int, value: Value) returns (v: Result<Value, AccessError>)
    requires obj != frame.marker
    modifies frame, obj.context
    ensures v == Success(value)
  {
    var _ := Write(frame, obj, index, value);
    v := Read(frame, obj, index);
  }

  /** Writing a pc through the frame's own marker and reading it back. */
  method VirtualPCRoundTrip(frame: Frame, v: int) returns (r: Result<Value, AccessError>)
    requires IsInt32(v) && 0 <= frame.initialPC <= v
    modifies frame, frame.marker.context
    ensures r == Success(Long(v))
  {
    var _ := Write(frame, frame.marker, INSTRUCTION_POINTER, Long(v));
    PCRoundTrip(v, frame.initialPC);
    r := Read(frame, frame.marker, INSTRUCTION_POINTER);
  }
}
