/**
 * `SqueakBytecodeNode`: the base of the older engine's bytecode nodes. A
 * node knows how many bytes its bytecode takes and the index of the
 * bytecode after it; all of this is Java `int` arithmetic. `push` writes a
 * value into the frame's stack slot above the stack pointer and moves the
 * pointer there.
 */
module SqueakBytecodeNode {
  import opened Wrappers
  import opened JavaInts

  datatype Value = Nil | Long(n: int) | Obj(id: nat)

  /** The `RuntimeException` of `executeInt` for a node without a successor. */
  datatype ExecuteError = InnerNodeExecuted

  class BytecodeNode {
    const numBytecodes: int
    const successorIndex: int

    /** `SqueakBytecodeNode(code, index, numBytecodes)`. */
    constructor(index: int, numBytecodes: int)
      requires IsInt32(index) && IsInt32(numBytecodes)
      ensures this.numBytecodes == numBytecodes && successorIndex == Int32(index + numBytecodes)
      ensures GetIndex() == index
    {
      this.numBytecodes := numBytecodes;
      this.successorIndex := Int32(index + numBytecodes);
      new;
      IndexRecovered(index, numBytecodes);
    }

    /** `SqueakBytecodeNode(code, index)`: a one-byte bytecode. */
    constructor OneByte(index: int)
      requires IsInt32(index)
      ensures numBytecodes == 1 && successorIndex == Int32(index + 1)
      ensures GetIndex() == index
    {
      numBytecodes := 1;
      successorIndex := Int32(index + 1);
      new;
      IndexRecovered(index, 1);
    }

    /** The copy constructor. */
    constructor CopyOf(original: BytecodeNode)
      ensures numBytecodes == original.numBytecodes && successorIndex == original.successorIndex
      ensures GetIndex() == original.GetIndex()
    {
      numBytecodes := original.numBytecodes;
      successorIndex := original.successorIndex;
    }

    /** `getIndex()`: the successor index minus the width. */
    function GetIndex(): (r: int)
      ensures IsInt32(r)
      ensures IsInt32(successorIndex - numBytecodes) ==> r == successorIndex - numBytecodes
    {
      Int32(successorIndex - numBytecodes)
    }

    /** `executeInt`: a node with a negative successor index may not be executed; otherwise the successor index is next. */
    function ExecuteInt(): (r: Result<int, ExecuteError>)
      ensures r.Failure? <==> successorIndex < 0
      ensures r.Success? ==> r.value == successorIndex && r.value >= 0
    {
      if successorIndex < 0 then Failure(InnerNodeExecuted) else Success(successorIndex)
    }
  }

  /** For Java ints, `getIndex()` gives back the index the node was built with, even when `index + numBytecodes` wraps. */
  lemma IndexRecovered(index: int, numBytecodes: int)
    requires IsInt32(index) && IsInt32(numBytecodes)
    ensures Int32(Int32(index + numBytecodes) - numBytecodes) == index
  {
    var s := Int32(index + numBytecodes);
    var r := Int32(s - numBytecodes);
    var k1 := (s - (index + numBytecodes)) / 0x1_0000_0000;
    var k2 := (r - (s - numBytecodes)) / 0x1_0000_0000;
    assert s - (index + numBytecodes) == k1 * 0x1_0000_0000;
    assert r - (s - numBytecodes) == k2 * 0x1_0000_0000;
    assert r - index == (k1 + k2) * 0x1_0000_0000;
  }

  /** A frame's stack slots and stack pointer; the stack holds `slots[0..sp]`. */
  class Frame {
    var slots: seq<Value>
    var sp: int

    constructor(slots: seq<Value>, sp: int)
      ensures this.slots == slots && this.sp == sp
    {
      this.slots := slots;
      this.sp := sp;
    }

    /** The values on the stack, bottom first. */
    function Contents(): seq<Value>
      requires -1 <= sp < |slots|
      reads this
    {
      slots[..sp + 1]
    }

    /** `push(frame, value)`: slot `sp + 1` gets the value and becomes the top; the result is nil. */
    method Push(value: Value) returns (r: Value)
      requires -1 <= sp && sp + 1 < |slots| && IsInt32(sp + 1)
      modifies this
      ensures sp == old(sp) + 1 && slots == old(slots)[sp := value]
      ensures Contents() == old(Contents()) + [value]
      ensures r == Nil
    {
      var newSP := Int32(sp + 1);
      Int32InRange(sp + 1);
      slots := slots[newSP := value];
      sp := newSP;
      r := Nil;
    }
  }
}
