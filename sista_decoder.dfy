/**
 * The SistaV1 bytecode set of a compiled method: instruction widths, the
 * position of the method trailer, the decoding of one instruction with its
 * extension prefixes (`extA`, `extB`), and the walks over a method's bytes
 * that find line numbers, the previous pc and the lines of a listing.
 *
 * A method's bytes are a sequence of unsigned bytes. A Java
 * `ArrayIndexOutOfBoundsException` is the `IndexOutOfBounds` failure, and the
 * "Undefined method encoding" exception is `UndefinedMethodEncoding`.
 */
module SistaV1Decoder {
  import opened Wrappers
  import opened JavaInts

  datatype DecodeError = IndexOutOfBounds | UndefinedMethodEncoding

  type Decoded<T> = Result<T, DecodeError>

  // ---------------------------------------------------------------------
  // Instruction widths

  /** decodeNumBytes: the width of the instruction whose opcode is `b`. */
  function NumBytes(b: Byte): (n: int)
    ensures n == 1 <==> b < 0xE0
    ensures n == 2 <==> 0xE0 <= b < 0xF8
    ensures n == 3 <==> 0xF8 <= b
  {
    if b <= 223 then 1 else if b <= 247 then 2 else 3
  }

  /** isSistaV1Extension: the two extension prefixes `extA` (0xE0) and `extB` (0xE1). */
  predicate IsExtension(b: Byte) {
    0xE0 <= b <= 0xE1
  }

  // ---------------------------------------------------------------------
  // Trailer position

  /**
   * The value `decodeLengthField` has accumulated after `i` rounds: the bytes
   * `bytes[first]`, `bytes[first - 1]`, ... read most significant first,
   * in Java `int` arithmetic (`(length << 8) + byte`).
   */
  function Accumulated(bytes: seq<Byte>, first: int, i: nat): int
    requires i <= first + 1 && first < |bytes|
  {
    if i == 0 then 0 else Int32(Accumulated(bytes, first, i - 1) * 256 + bytes[first - (i - 1)])
  }

  /** The same bytes read as an unbounded unsigned big-endian number. */
  function BigEndianDown(bytes: seq<Byte>, first: int, n: nat): (v: nat)
    requires n <= first + 1 && first < |bytes|
  {
    if n == 0 then 0 else BigEndianDown(bytes, first, n - 1) * 256 + bytes[first - (n - 1)]
  }

  /** The number of length bytes a length-field trailer uses: `(flag & 3) + 1`. */
  function LengthBytes(flag: Byte): (n: int)
    ensures 1 <= n <= 4
  {
    flag % 4 + 1
  }

  /** decodeLengthField as a value: the trailer starts `1 + numBytes + length` bytes before the end. */
  function LengthFieldOf(bytes: seq<Byte>, flag: Byte): (r: Decoded<int>)
    ensures r.Failure? <==> |bytes| < LengthBytes(flag) + 1
    ensures r.Failure? ==> r.error == IndexOutOfBounds
    ensures r.Success? ==> IsInt32(r.value)
  {
    var n := LengthBytes(flag);
    var first := |bytes| - 2;
    if first - (n - 1) < 0 then Failure(IndexOutOfBounds)
    else Success(Int32(|bytes| - (1 + n + Accumulated(bytes, first, n))))
  }

  /** The case-9 scan: the nearest index at or below `pos` whose byte has its high bit clear. */
  function ScanBack(bytes: seq<Byte>, pos: int): (r: Decoded<int>)
    requires pos < |bytes|
    ensures r.Failure? ==> r.error == IndexOutOfBounds
    decreases pos + 1
  {
    if pos < 0 then Failure(IndexOutOfBounds)
    else if bytes[pos] >= 0x80 then ScanBack(bytes, pos - 1)
    else Success(pos)
  }

  /** trailerPosition(byte[]): chosen by `(flag >> 2) + 1` of the last byte. */
  function TrailerPositionOf(bytes: seq<Byte>): (r: Decoded<int>)
    ensures |bytes| == 0 ==> r == Failure(IndexOutOfBounds)
    ensures r == Failure(UndefinedMethodEncoding) <==>
      |bytes| > 0 && 10 <= bytes[|bytes| - 1] / 4 + 1 <= 63
  {
    if |bytes| == 0 then Failure(IndexOutOfBounds)
    else
      var len := |bytes|;
      var flag := bytes[len - 1];
      var index := flag / 4 + 1;
      if index == 1 || index == 5 then Success(len - 1)
      else if 2 <= index <= 4 || 6 <= index <= 8 then LengthFieldOf(bytes, flag)
      else if index == 9 then ScanBack(bytes, len - 2)
      else if index == 64 then Success(len - 4)
      else Failure(UndefinedMethodEncoding)
  }

  /** trailerPosition(code): a compiled block has no trailer. */
  function CodeTrailerPositionOf(bytes: seq<Byte>, isCompiledBlock: bool): (r: Decoded<int>)
    ensures isCompiledBlock ==> r == Success(|bytes|)
    ensures !isCompiledBlock ==> r == TrailerPositionOf(bytes)
  {
    if isCompiledBlock then Success(|bytes|) else TrailerPositionOf(bytes)
  }

  /** decodeLengthField, with its loop over the length bytes. */
  method DecodeLengthField(bytes: seq<Byte>, flag: Byte) returns (r: Decoded<int>)
    ensures r == LengthFieldOf(bytes, flag)
  {
    var numBytes := flag % 4 + 1;
    var first := |bytes| - 2;
    if first - (numBytes - 1) < 0 {
      return Failure(IndexOutOfBounds);
    }
    var length := 0;
    var i := 0;
    while i < numBytes
      invariant 0 <= i <= numBytes
      invariant length == Accumulated(bytes, first, i)
    {
      length := Int32(length * 256 + bytes[first - i]);
      i := i + 1;
    }
    r := Success(Int32(|bytes| - (1 + numBytes + length)));
  }

  /** trailerPosition(code), with the backward scan of case 9 as a loop. */
  method TrailerPosition(bytes: seq<Byte>, isCompiledBlock: bool) returns (r: Decoded<int>)
    ensures r == CodeTrailerPositionOf(bytes, isCompiledBlock)
  {
    if isCompiledBlock {
      return Success(|bytes|);
    }
    if |bytes| == 0 {
      return Failure(IndexOutOfBounds);
    }
    var len := |bytes|;
    var flag := bytes[len - 1];
    var index := flag / 4 + 1;
    if index == 1 || index == 5 {
      r := Success(len - 1);
    } else if 2 <= index <= 4 || 6 <= index <= 8 {
      r := DecodeLengthField(bytes, flag);
    } else if index == 9 {
      var pos := len - 2;
      while pos >= 0 && bytes[pos] >= 0x80
        invariant -1 <= pos <= len - 2
        invariant ScanBack(bytes, pos) == ScanBack(bytes, len - 2)
      {
        pos := pos - 1;
      }
      r := if pos < 0 then Failure(IndexOutOfBounds) else Success(pos);
    } else if index == 64 {
      r := Success(len - 4);
    } else {
      r := Failure(UndefinedMethodEncoding);
    }
  }

  /** Flags 0..3 and 16..19 (`flag >> 2` in {0, 4}) leave only the flag byte as trailer. */
  lemma NoTrailerCase(bytes: seq<Byte>)
    requires |bytes| > 0 && bytes[|bytes| - 1] / 4 in {0, 4}
    ensures TrailerPositionOf(bytes) == Success(|bytes| - 1)
  {
  }

  /** `flag >> 2` of 63 is a four-byte source pointer. */
  lemma SourcePointerCase(bytes: seq<Byte>)
    requires |bytes| > 0 && bytes[|bytes| - 1] / 4 == 63
    ensures TrailerPositionOf(bytes) == Success(|bytes| - 4)
  {
  }

  /** Every `flag >> 2` outside {0..8, 63} is an undefined encoding. */
  lemma UndefinedEncodingCase(bytes: seq<Byte>)
    requires |bytes| > 0
    ensures TrailerPositionOf(bytes) == Failure(UndefinedMethodEncoding)
        <==> (9 <= bytes[|bytes| - 1] / 4 < 63)
  {
  }

  /** A length that fits a Java `int` is accumulated without truncation. */
  lemma {:induction false} AccumulatedExact(bytes: seq<Byte>, first: int, n: nat)
    requires n <= first + 1 && first < |bytes|
    requires BigEndianDown(bytes, first, n) < TWO_31
    ensures Accumulated(bytes, first, n) == BigEndianDown(bytes, first, n)
  {
    if n > 0 {
      assert BigEndianDown(bytes, first, n - 1) * 256 <= BigEndianDown(bytes, first, n);
      AccumulatedExact(bytes, first, n - 1);
      Int32InRange(BigEndianDown(bytes, first, n));
    }
  }

  /** Up to three length bytes always fit a Java `int`. */
  lemma {:induction false} BigEndianBound(bytes: seq<Byte>, first: int, n: nat)
    requires n <= first + 1 && first < |bytes| && n <= 3
    ensures BigEndianDown(bytes, first, n) < 0x100_0000
  {
    if n > 0 {
      BigEndianBound(bytes, first, n - 1);
      var p := BigEndianDown(bytes, first, n - 1);
      if n == 1 {
        assert p == 0;
      } else if n == 2 {
        assert p < 0x100;
      } else {
        assert p < 0x1_0000 by {
          BigEndianBoundTwo(bytes, first);
        }
      }
    }
  }

  lemma BigEndianBoundTwo(bytes: seq<Byte>, first: int)
    requires 2 <= first + 1 && first < |bytes|
    ensures BigEndianDown(bytes, first, 2) < 0x1_0000
  {
    assert BigEndianDown(bytes, first, 1) == bytes[first];
  }

  /**
   * A length-field trailer (`flag >> 2` in {1, 2, 3, 5, 6, 7}) whose length
   * fits a Java `int`: the trailer position, one flag byte, the length bytes
   * and the payload make up the whole method.
   */
  lemma LengthFieldCase(bytes: seq<Byte>)
    requires 0 < |bytes| < TWO_31
    requires var flag := bytes[|bytes| - 1]; flag / 4 in {1, 2, 3, 5, 6, 7}
    ensures var flag := bytes[|bytes| - 1];
            var n := LengthBytes(flag);
            (TrailerPositionOf(bytes).Failure? <==> |bytes| < n + 1) &&
            (|bytes| >= n + 1 && BigEndianDown(bytes, |bytes| - 2, n) < TWO_31 ==>
               TrailerPositionOf(bytes).Success? &&
               TrailerPositionOf(bytes).value + 1 + n + BigEndianDown(bytes, |bytes| - 2, n) == |bytes|)
  {
    var flag := bytes[|bytes| - 1];
    var n := LengthBytes(flag);
    if |bytes| >= n + 1 && BigEndianDown(bytes, |bytes| - 2, n) < TWO_31 {
      AccumulatedExact(bytes, |bytes| - 2, n);
      Int32InRange(|bytes| - (1 + n + BigEndianDown(bytes, |bytes| - 2, n)));
    }
  }

  /** With one to three length bytes the length never overflows. */
  lemma ShortLengthFieldFits(bytes: seq<Byte>)
    requires 0 < |bytes| && bytes[|bytes| - 1] % 4 < 3 && |bytes| >= LengthBytes(bytes[|bytes| - 1]) + 1
    ensures BigEndianDown(bytes, |bytes| - 2, LengthBytes(bytes[|bytes| - 1])) < TWO_31
  {
    BigEndianBound(bytes, |bytes| - 2, LengthBytes(bytes[|bytes| - 1]));
  }

  /** The backward scan stops at the last byte with the high bit clear, or fails when there is none. */
  lemma {:induction false} ScanBackFinds(bytes: seq<Byte>, pos: int)
    requires pos < |bytes|
    ensures ScanBack(bytes, pos).Success? ==>
              var p := ScanBack(bytes, pos).value;
              0 <= p <= pos && bytes[p] < 0x80 && forall k :: p < k <= pos ==> bytes[k] >= 0x80
    ensures ScanBack(bytes, pos).Failure? <==> forall k :: 0 <= k <= pos ==> bytes[k] >= 0x80
    decreases pos + 1
  {
    if pos >= 0 && bytes[pos] >= 0x80 {
      ScanBackFinds(bytes, pos - 1);
    }
  }

  /** A variable-length source pointer (`flag >> 2` == 8) starts at the last clear-high-bit byte before the flag. */
  lemma VarLengthSourcePointerCase(bytes: seq<Byte>)
    requires |bytes| > 0 && bytes[|bytes| - 1] / 4 == 8
    ensures TrailerPositionOf(bytes).Success? ==>
              var p := TrailerPositionOf(bytes).value;
              0 <= p <= |bytes| - 2 && bytes[p] < 0x80 &&
              forall k :: p < k <= |bytes| - 2 ==> bytes[k] >= 0x80
    ensures TrailerPositionOf(bytes).Failure? <==> forall k :: 0 <= k <= |bytes| - 2 ==> bytes[k] >= 0x80
  {
    ScanBackFinds(bytes, |bytes| - 2);
  }

  // ---------------------------------------------------------------------
  // Decoding one instruction

  /** What a decoded instruction does, with the operands the decoder unpacks. */
  datatype Op =
    | PushReceiverVariable(varIndex: int)
    | PushLiteralVariable(literalIndex: int)
    | PushLiteralConstant(literalIndex: int)
    | PushTemporary(tempIndex: int)
    | PushReceiver | PushTrue | PushFalse | PushNil | PushZero | PushOne
    | PushActiveContext
    | Dup
    | ReturnReceiver | ReturnTrue | ReturnFalse | ReturnNil | ReturnTopFromMethod
    | ReturnNilFromBlock | ReturnTopFromBlock
    | Nop
    | SendSpecialSelector(selectorIndex: int)
    | SelfSend(literalIndex: int, numArgs: int)
    | TrapSend
    | ShortJump(opcode: Byte) | ShortJumpOnTrue(opcode: Byte) | ShortJumpOnFalse(opcode: Byte)
    | PopIntoReceiverVariable(varIndex: int)
    | PopIntoTemporary(tempIndex: int)
    | Pop
    | PushNewArray(param: int)
    | PushSmallInteger(value: int)
    | PushCharacter(codePoint: int)
    | SuperSend(literalIndex: int, numArgs: int)
    | DirectedSuperSend(literalIndex: int, numArgs: int)
    | LongJump(offsetByte: int, extB: int)
    | LongJumpOnTrue(offsetByte: int, extB: int)
    | LongJumpOnFalse(offsetByte: int, extB: int)
    | PopIntoLiteralVariable(literalIndex: int)
    | StoreIntoReceiverVariable(varIndex: int)
    | StoreIntoLiteralVariable(literalIndex: int)
    | StoreIntoTemporary(tempIndex: int)
    | CallPrimitive(primitiveIndex: int)
    | InlinePrimitive(primitiveIndex: int)
    | PushFullClosure(extA: int, literalByte: int, flagsByte: int)
    | PushClosure(extA: int, extB: int, byte1: int, byte2: int)
    | PushRemoteTemp(tempByte: int, vectorByte: int)
    | StoreIntoRemoteTemp(tempByte: int, vectorByte: int)
    | PopIntoRemoteTemp(tempByte: int, vectorByte: int)
    | Unknown(opcode: Byte)

  /** A bytecode node: where it starts (its first prefix), how many bytes it spans, and what it does. */
  datatype Instruction = Instruction(index: int, width: int, op: Op)

  /** The inline primitives of the 0xF8 call-primitive bytecode. */
  predicate IsInlinePrimitive(p: int) {
    || 1000 <= p <= 1006 || 1020 <= p <= 1024 || 1030 <= p <= 1032
    || 2000 <= p <= 2006 || 2016 <= p <= 2020 || 2032 <= p <= 2037
    || 2065 <= p <= 2068 || 3001 <= p <= 3004 || p == 3021 || p == 4000
  }

  /** The primitive index of 0xF8: `b1 + ((b2 & 31) << 8)`. */
  function PrimitiveIndex(b1: Byte, b2: Byte): (p: int)
    ensures 0 <= p < 0x2000
  {
    b1 + (b2 % 32) * 256
  }

  /** The call-primitive bytecode 0xF8 at `index` with operand bytes `b1`, `b2`. */
  function CallPrimitiveAt(index: int, b1: Byte, b2: Byte): (ins: Instruction)
    ensures ins.index == index && ins.width == 3
    ensures ins.op.CallPrimitive? || ins.op.InlinePrimitive? || ins.op == Unknown(0xF8)
    ensures ins.op.CallPrimitive? <==> PrimitiveIndex(b1, b2) < 1000
    ensures ins.op.InlinePrimitive? <==> IsInlinePrimitive(PrimitiveIndex(b1, b2))
    ensures !ins.op.Unknown? ==> ins.op.primitiveIndex == PrimitiveIndex(b1, b2)
  {
    var p := PrimitiveIndex(b1, b2);
    if p < 1000 then Instruction(index, 3, CallPrimitive(p))
    else if IsInlinePrimitive(p) then Instruction(index, 3, InlinePrimitive(p))
    else Instruction(index, 3, Unknown(0xF8))
  }

  /** The new `extA` after an 0xE0 prefix with byte `v`: `(extA << 8) + v`. */
  function ExtendA(extA: int, v: Byte): int {
    Int32(extA * 256 + v)
  }

  /** The new `extB` after an 0xE1 prefix with byte `v`: the first one is sign-extended. */
  function ExtendB(extB: int, numExtB: nat, v: Byte): int {
    if numExtB == 0 && v > 127 then v - 256 else Int32(extB * 256 + v)
  }

  /** The one-byte opcodes 0x00..0xDF. */
  function DecodeOneByte(index: int, b: Byte, extA: int, extB: int): (ins: Instruction)
    requires b < 0xE0
    ensures ins.index == index && ins.width == 1
    ensures !ins.op.PushClosure?
    ensures ins.op in {ReturnNilFromBlock, ReturnTopFromBlock} <==> b == 0x5D || (b == 0x5E && extA == 0)
  {
    if b < 0x10 then Instruction(index, 1, PushReceiverVariable(b % 16))
    else if b < 0x20 then Instruction(index, 1, PushLiteralVariable(b % 16))
    else if b < 0x40 then Instruction(index, 1, PushLiteralConstant(b % 32))
    else if b < 0x48 then Instruction(index, 1, PushTemporary(b % 8))
    else if b < 0x4C then Instruction(index, 1, PushTemporary(b % 4 + 8))
    else if b < 0x58 then Instruction(index, 1, DecodePushOrMisc(b, extB))
    else if b < 0x60 then Instruction(index, 1, DecodeReturn(b, extA))
    else if b < 0x80 then Instruction(index, 1, SendSpecialSelector(b - 96))
    else if b < 0x90 then Instruction(index, 1, SelfSend(b % 16, 0))
    else if b < 0xA0 then Instruction(index, 1, SelfSend(b % 16, 1))
    else if b < 0xB0 then Instruction(index, 1, SelfSend(b % 16, 2))
    else if b < 0xB8 then Instruction(index, 1, ShortJump(b))
    else if b < 0xC0 then Instruction(index, 1, ShortJumpOnTrue(b))
    else if b < 0xC8 then Instruction(index, 1, ShortJumpOnFalse(b))
    else if b < 0xD0 then Instruction(index, 1, PopIntoReceiverVariable(b % 8))
    else if b < 0xD8 then Instruction(index, 1, PopIntoTemporary(b % 8))
    else if b == 0xD8 then Instruction(index, 1, Pop)
    else if b == 0xD9 then Instruction(index, 1, TrapSend)
    else Instruction(index, 1, Unknown(b))
  }

  /** Opcodes 0x4C..0x57: receiver, constants, thisContext, dup. */
  function DecodePushOrMisc(b: Byte, extB: int): (op: Op)
    requires 0x4C <= b < 0x58
    ensures op == PushActiveContext <==> b == 0x52 && extB == 0
    ensures op.Unknown? <==> b >= 0x54 || (b == 0x52 && extB != 0)
    ensures op.Unknown? ==> op.opcode == b
  {
    if b == 0x4C then PushReceiver
    else if b == 0x4D then PushTrue
    else if b == 0x4E then PushFalse
    else if b == 0x4F then PushNil
    else if b == 0x50 then PushZero
    else if b == 0x51 then PushOne
    else if b == 0x52 then (if extB == 0 then PushActiveContext else Unknown(b))
    else if b == 0x53 then Dup
    else Unknown(b)
  }

  /** Opcodes 0x58..0x5F: the returns and nop. */
  function DecodeReturn(b: Byte, extA: int): (op: Op)
    requires 0x58 <= b < 0x60
    ensures op in {ReturnNilFromBlock, ReturnTopFromBlock} <==> b == 0x5D || (b == 0x5E && extA == 0)
    ensures op.Unknown? <==> b == 0x5E && extA != 0
    ensures op == Nop <==> b == 0x5F
  {
    if b == 0x58 then ReturnReceiver
    else if b == 0x59 then ReturnTrue
    else if b == 0x5A then ReturnFalse
    else if b == 0x5B then ReturnNil
    else if b == 0x5C then ReturnTopFromMethod
    else if b == 0x5D then ReturnNilFromBlock
    else if b == 0x5E then (if extA == 0 then ReturnTopFromBlock else Unknown(b))
    else Nop
  }

  /** The two-byte opcodes 0xE2..0xF7 with operand byte `u1`, behind `extBytes` bytes of prefixes. */
  function DecodeTwoByte(index: int, extBytes: nat, b: Byte, u1: Byte, extA: int, extB: int): (ins: Instruction)
    requires 0xE2 <= b < 0xF8 && b !in {0xE6, 0xEC, 0xF6, 0xF7}
    ensures ins.index == index && ins.width >= 2
    ensures !ins.op.PushClosure? && ins.op !in {ReturnNilFromBlock, ReturnTopFromBlock}
  {
    var w := 2 + extBytes;
    if b == 0xE2 then Instruction(index, w, PushReceiverVariable(ExtendA(extA, u1)))
    else if b == 0xE3 then Instruction(index, w, PushLiteralVariable(ExtendA(extA, u1)))
    else if b == 0xE4 then Instruction(index, w, PushLiteralConstant(ExtendA(extA, u1)))
    else if b == 0xE5 then Instruction(index, 2, PushTemporary(u1))
    else if b == 0xE7 then Instruction(index, 2, PushNewArray(Signed(u1)))
    else if b == 0xE8 then Instruction(index, w, PushSmallInteger(Int32(u1 + extB * 256)))
    else if b == 0xE9 then Instruction(index, w, PushCharacter(ExtendA(extA, u1)))
    else if b == 0xEA then Instruction(index, w, SelfSend(Int32(u1 / 8 + extA * 32), Int32(u1 % 8 + extB * 8)))
    else if b == 0xEB then Instruction(index, w, DecodeSuperSend(u1, extA, extB))
    else if b == 0xED then Instruction(index, w, LongJump(Signed(u1), extB))
    else if b == 0xEE then Instruction(index, w, LongJumpOnTrue(Signed(u1), extB))
    else if b == 0xEF then Instruction(index, w, LongJumpOnFalse(Signed(u1), extB))
    else if b == 0xF0 then Instruction(index, w, PopIntoReceiverVariable(ExtendA(extA, u1)))
    else if b == 0xF1 then Instruction(index, w, PopIntoLiteralVariable(ExtendA(extA, u1)))
    else if b == 0xF2 then Instruction(index, w, PopIntoTemporary(Signed(u1)))
    else if b == 0xF3 then Instruction(index, w, StoreIntoReceiverVariable(ExtendA(extA, u1)))
    else if b == 0xF4 then Instruction(index, w, StoreIntoLiteralVariable(ExtendA(extA, u1)))
    else Instruction(index, w, StoreIntoTemporary(Signed(u1)))
  }

  /** 0xEB: an `extB` of 64 or more marks a directed super send and keeps only its low six bits. */
  function DecodeSuperSend(u1: Byte, extA: int, extB: int): (op: Op)
    ensures op.SuperSend? || op.DirectedSuperSend?
    ensures op.DirectedSuperSend? <==> extB >= 64
    ensures op.literalIndex == Int32(u1 / 8 + extA * 32)
  {
    var directed := extB >= 64;
    var extBValue := if directed then extB % 64 else extB;
    var literalIndex := Int32(u1 / 8 + extA * 32);
    var numArgs := Int32(u1 % 8 + extBValue * 8);
    if directed then DirectedSuperSend(literalIndex, numArgs) else SuperSend(literalIndex, numArgs)
  }

  /** The three-byte opcodes 0xF8..0xFD with operand bytes `u1`, `u2`. */
  function DecodeThreeByte(index: int, extBytes: nat, b: Byte, u1: Byte, u2: Byte, extA: int, extB: int): (ins: Instruction)
    requires 0xF8 <= b <= 0xFD
    ensures ins.index == index && ins.width >= 3
    ensures ins.op.PushClosure? <==> b == 0xFA
    ensures ins.op !in {ReturnNilFromBlock, ReturnTopFromBlock}
  {
    if b == 0xF8 then CallPrimitiveAt(index, u1, u2)
    else if b == 0xF9 then Instruction(index, 3, PushFullClosure(extA, Signed(u1), Signed(u2)))
    else if b == 0xFA then Instruction(index, 3 + extBytes, PushClosure(extA, extB, Signed(u1), Signed(u2)))
    else if b == 0xFB then Instruction(index, 3, PushRemoteTemp(Signed(u1), Signed(u2)))
    else if b == 0xFC then Instruction(index, 3, StoreIntoRemoteTemp(Signed(u1), Signed(u2)))
    else Instruction(index, 3, PopIntoRemoteTemp(Signed(u1), Signed(u2)))
  }

  /**
   * decodeBytecode(frame, code, index, extBytes, extA, extB, numExtB): the
   * instruction starting at `index`, whose opcode sits after `extBytes`
   * bytes of extension prefixes already folded into `extA` and `extB`.
   * Operand bytes past the end of the method are an out-of-bounds failure.
   */
  function DecodeAt(bytes: seq<Byte>, index: int, extBytes: nat, extA: int, extB: int, numExtB: nat): (r: Decoded<Instruction>)
    ensures r.Success? ==> r.value.index == index && r.value.width >= 1 && 0 <= index + extBytes < |bytes|
    ensures r.Failure? ==> r.error == IndexOutOfBounds
    decreases |bytes| - (index + extBytes)
  {
    var at := index + extBytes;
    if !(0 <= at < |bytes|) then Failure(IndexOutOfBounds)
    else
      var b := bytes[at];
      if b < 0xE0 then Success(DecodeOneByte(index, b, extA, extB))
      else if b == 0xE6 || b == 0xEC then Success(Instruction(index, 1, Unknown(b)))
      else if b == 0xF6 || b == 0xF7 then Success(Instruction(index, 2, Unknown(b)))
      else if b == 0xFE || b == 0xFF then Success(Instruction(index, 3, Unknown(b)))
      else if at + 1 >= |bytes| then Failure(IndexOutOfBounds)
      else if b == 0xE0 then
        DecodeAt(bytes, index, extBytes + 2, ExtendA(extA, bytes[at + 1]), extB, numExtB)
      else if b == 0xE1 then
        DecodeAt(bytes, index, extBytes + 2, extA, ExtendB(extB, numExtB, bytes[at + 1]), numExtB + 1)
      else if b < 0xF8 then Success(DecodeTwoByte(index, extBytes, b, bytes[at + 1], extA, extB))
      else if at + 2 >= |bytes| then Failure(IndexOutOfBounds)
      else Success(DecodeThreeByte(index, extBytes, b, bytes[at + 1], bytes[at + 2], extA, extB))
  }

  /** decodeBytecode(frame, code, index): decoding starts with no prefixes and zero extensions. */
  function Decode(bytes: seq<Byte>, index: int): (r: Decoded<Instruction>)
    ensures r.Success? ==> r.value.index == index && r.value.width >= 1 && 0 <= index < |bytes|
    ensures r.Failure? ==> r.error == IndexOutOfBounds
    ensures !(0 <= index < |bytes|) ==> r == Failure(IndexOutOfBounds)
  {
    DecodeAt(bytes, index, 0, 0, 0, 0)
  }

  /** Whether the opcode's node spans its prefixes: these take `extBytes` into their width. */
  predicate SpansPrefixes(b: Byte) {
    b in {0xE2, 0xE3, 0xE4, 0xE8, 0xE9, 0xEA, 0xEB, 0xED, 0xEE, 0xEF, 0xF0, 0xF1, 0xF2, 0xF3, 0xF4, 0xF5, 0xFA}
  }

  /**
   * Without prefixes, a decoded node's width is `decodeNumBytes` of its
   * opcode, except for the unknown opcodes 0xE6 and 0xEC, whose nodes are
   * one byte wide although `decodeNumBytes` gives them two.
   */
  lemma DecodeWidthAgrees(bytes: seq<Byte>, index: int)
    requires 0 <= index < |bytes| && !IsExtension(bytes[index])
    ensures Decode(bytes, index).Success? ==>
              Decode(bytes, index).value.index == index &&
              (Decode(bytes, index).value.width == NumBytes(bytes[index]) <==> bytes[index] !in {0xE6, 0xEC})
  {
  }

  /** Behind `extBytes` bytes of prefixes, the nodes that span them are `extBytes + decodeNumBytes` wide. */
  lemma DecodeWidthWithPrefixes(bytes: seq<Byte>, index: int, extBytes: nat, extA: int, extB: int, numExtB: nat)
    requires 0 <= index && index + extBytes < |bytes| && SpansPrefixes(bytes[index + extBytes])
    ensures DecodeAt(bytes, index, extBytes, extA, extB, numExtB).Success? ==>
              DecodeAt(bytes, index, extBytes, extA, extB, numExtB).value.width == extBytes + NumBytes(bytes[index + extBytes])
  {
  }

  /** An instruction whose operand bytes run past the end of the method fails to decode. */
  lemma DecodeNeedsOperands(bytes: seq<Byte>, index: int)
    requires 0 <= index < |bytes| && Decode(bytes, index).Success?
    requires !IsExtension(bytes[index]) && bytes[index] !in {0xE6, 0xEC, 0xF6, 0xF7, 0xFE, 0xFF}
    ensures index + NumBytes(bytes[index]) <= |bytes|
  {
  }

  /**
   * An `extA` prefix followed by an `extB` prefix and a send: the literal
   * index is `(c >> 3) + (a << 5)` and the argument count `(c & 7) + (extB << 3)`,
   * where the first `extB` byte is sign-extended.
   */
  lemma ExtendedSendOperands(bytes: seq<Byte>, index: int, a: Byte, b: Byte, c: Byte)
    requires 0 <= index && index + 6 <= |bytes|
    requires bytes[index..index + 6] == [0xE0, a, 0xE1, b, 0xEA, c]
    ensures Decode(bytes, index) == Success(Instruction(index, 6, SelfSend(c / 8 + a * 32, c % 8 + Signed(b) * 8)))
  {
    assert bytes[index] == 0xE0 && bytes[index + 1] == a;
    assert bytes[index + 2] == 0xE1 && bytes[index + 3] == b;
    assert bytes[index + 4] == 0xEA && bytes[index + 5] == c;
    assert ExtendA(0, a) == a by { Int32InRange(a); }
    assert ExtendB(0, 0, b) == Signed(b) by { Int32InRange(b); }
    Int32InRange(c / 8 + a * 32);
    Int32InRange(c % 8 + Signed(b) * 8);
    assert DecodeAt(bytes, index, 4, a, Signed(b), 1)
        == Success(Instruction(index, 6, SelfSend(c / 8 + a * 32, c % 8 + Signed(b) * 8)));
    assert DecodeAt(bytes, index, 2, a, 0, 0) == DecodeAt(bytes, index, 4, a, Signed(b), 1);
  }

  /**
   * A super send behind one `extB` prefix: a prefix byte of 64..127 marks a
   * directed super send and contributes only its low six bits to the
   * argument count.
   */
  lemma SuperSendOperands(bytes: seq<Byte>, index: int, b: Byte, c: Byte)
    requires 0 <= index && index + 4 <= |bytes|
    requires bytes[index..index + 4] == [0xE1, b, 0xEB, c]
    ensures 64 <= b <= 127 ==>
              Decode(bytes, index) == Success(Instruction(index, 4, DirectedSuperSend(c / 8, c % 8 + (b - 64) * 8)))
    ensures !(64 <= b <= 127) ==>
              Decode(bytes, index) == Success(Instruction(index, 4, SuperSend(c / 8, c % 8 + Signed(b) * 8)))
  {
    assert bytes[index] == 0xE1 && bytes[index + 1] == b;
    assert bytes[index + 2] == 0xEB && bytes[index + 3] == c;
    assert ExtendB(0, 0, b) == Signed(b) by { Int32InRange(b); }
    assert Decode(bytes, index) == DecodeAt(bytes, index, 2, 0, Signed(b), 1);
    assert DecodeAt(bytes, index, 2, 0, Signed(b), 1) == Success(DecodeTwoByte(index, 2, 0xEB, c, 0, Signed(b)));
    var op := DecodeSuperSend(c, 0, Signed(b));
    assert DecodeTwoByte(index, 2, 0xEB, c, 0, Signed(b)) == Instruction(index, 4, op);
    assert Int32(c / 8 + 0 * 32) == c / 8 by { Int32InRange(c / 8 + 0 * 32); }
    if 64 <= b <= 127 {
      assert Signed(b) % 64 == b - 64;
      assert Int32(c % 8 + (b - 64) * 8) == c % 8 + (b - 64) * 8 by { Int32InRange(c % 8 + (b - 64) * 8); }
      assert op == DirectedSuperSend(c / 8, c % 8 + (b - 64) * 8);
    } else {
      assert Int32(c % 8 + Signed(b) * 8) == c % 8 + Signed(b) * 8 by { Int32InRange(c % 8 + Signed(b) * 8); }
      assert op == SuperSend(c / 8, c % 8 + Signed(b) * 8);
    }
  }

  /** Only the first `extB` prefix is sign-extended; a second one shifts the first up by eight bits. */
  lemma TwoExtBPrefixes(bytes: seq<Byte>, index: int, b1: Byte, b2: Byte, c: Byte)
    requires 0 <= index && index + 6 <= |bytes|
    requires bytes[index..index + 6] == [0xE1, b1, 0xE1, b2, 0xE8, c]
    ensures Decode(bytes, index) == Success(Instruction(index, 6, PushSmallInteger(c + (Signed(b1) * 256 + b2) * 256)))
  {
    assert bytes[index] == 0xE1 && bytes[index + 1] == b1;
    assert bytes[index + 2] == 0xE1 && bytes[index + 3] == b2;
    assert bytes[index + 4] == 0xE8 && bytes[index + 5] == c;
    assert ExtendB(0, 0, b1) == Signed(b1) by { Int32InRange(b1); }
    assert ExtendB(Signed(b1), 1, b2) == Signed(b1) * 256 + b2 by { Int32InRange(Signed(b1) * 256 + b2); }
    Int32InRange(c + (Signed(b1) * 256 + b2) * 256);
    assert Decode(bytes, index) == DecodeAt(bytes, index, 2, 0, Signed(b1), 1);
    assert DecodeAt(bytes, index, 2, 0, Signed(b1), 1) == DecodeAt(bytes, index, 4, 0, Signed(b1) * 256 + b2, 2);
    assert DecodeAt(bytes, index, 4, 0, Signed(b1) * 256 + b2, 2)
        == Success(DecodeTwoByte(index, 4, 0xE8, c, 0, Signed(b1) * 256 + b2));
  }

  /** Call primitive: indices below 1000 are numbered primitives, the rest inline primitives or unknown. */
  lemma CallPrimitiveOperands(bytes: seq<Byte>, index: int, b1: Byte, b2: Byte)
    requires 0 <= index && index + 3 <= |bytes|
    requires bytes[index..index + 3] == [0xF8, b1, b2]
    ensures var p := b1 + (b2 % 32) * 256;
            Decode(bytes, index) == Success(Instruction(index, 3,
              if p < 1000 then CallPrimitive(p)
              else if IsInlinePrimitive(p) then InlinePrimitive(p)
              else Unknown(0xF8)))
  {
    assert bytes[index] == 0xF8 && bytes[index + 1] == b1 && bytes[index + 2] == b2;
  }

  // ---------------------------------------------------------------------
  // Walks over the bytecodes

  /**
   * The number of instructions `findLineNumber`'s loop steps over to get
   * from `index` to `target`, or `None` when it runs off the end of the
   * bytes (the target is not an instruction boundary reachable from `index`).
   */
  function Steps(bytes: seq<Byte>, index: nat, target: int): Option<nat>
    decreases |bytes| - index
  {
    if index == target then Some(0)
    else if index >= |bytes| then None
    else match Steps(bytes, index + NumBytes(bytes[index]), target)
      case None => None
      case Some(k) => Some(k + 1)
  }

  /** findLineNumber as a value: the trailer position must be computable; the line is one more than the steps. */
  function LineNumberOf(bytes: seq<Byte>, isCompiledBlock: bool, target: int): (r: Decoded<int>)
    ensures r.Success? ==> r.value >= 1 && CodeTrailerPositionOf(bytes, isCompiledBlock).Success?
    ensures r.Failure? ==> r.error == IndexOutOfBounds || CodeTrailerPositionOf(bytes, isCompiledBlock).Failure?
  {
    if CodeTrailerPositionOf(bytes, isCompiledBlock).Failure? then Failure(CodeTrailerPositionOf(bytes, isCompiledBlock).error)
    else match Steps(bytes, 0, target)
      case None => Failure(IndexOutOfBounds)
      case Some(k) => Success(k + 1)
  }

  /** findLineNumber: walks from offset 0 one instruction at a time, counting lines from 1. */
  method FindLineNumber(bytes: seq<Byte>, isCompiledBlock: bool, target: int) returns (r: Decoded<int>)
    ensures r == LineNumberOf(bytes, isCompiledBlock, target)
  {
    var trailer := TrailerPosition(bytes, isCompiledBlock);
    if trailer.Failure? {
      return Failure(trailer.error);
    }
    var index: nat := 0;
    var lineNumber := 1;
    while index != target
      invariant lineNumber >= 1
      invariant Steps(bytes, 0, target) ==
                (match Steps(bytes, index, target) case None => None case Some(k) => Some(k + lineNumber - 1))
      decreases |bytes| - index
    {
      if index >= |bytes| {
        return Failure(IndexOutOfBounds);
      }
      index := index + NumBytes(bytes[index]);
      lineNumber := lineNumber + 1;
    }
    r := Success(lineNumber);
  }

  lemma {:induction false} StepsForward(bytes: seq<Byte>, index: nat, target: int)
    requires Steps(bytes, index, target).Some?
    ensures index <= target
    decreases |bytes| - index
  {
    if index != target {
      StepsForward(bytes, index + NumBytes(bytes[index]), target);
    }
  }

  /** One more instruction past a reachable boundary is one more step. */
  lemma {:induction false} StepsExtend(bytes: seq<Byte>, index: nat, target: nat)
    requires target < |bytes| && Steps(bytes, index, target).Some?
    ensures Steps(bytes, index, target + NumBytes(bytes[target])) == Some(Steps(bytes, index, target).value + 1)
    decreases |bytes| - index
  {
    var next := target + NumBytes(bytes[target]);
    if index == target {
      assert Steps(bytes, next, next) == Some(0);
    } else {
      StepsForward(bytes, index, target);
      StepsExtend(bytes, index + NumBytes(bytes[index]), target);
    }
  }

  /** Offset 0 is line 1 whenever the trailer position is defined. */
  lemma FirstLine(bytes: seq<Byte>, isCompiledBlock: bool)
    requires CodeTrailerPositionOf(bytes, isCompiledBlock).Success?
    ensures LineNumberOf(bytes, isCompiledBlock, 0) == Success(1)
  {
  }

  /** Each decoded instruction adds one line. */
  lemma NextLine(bytes: seq<Byte>, isCompiledBlock: bool, target: nat)
    requires target < |bytes| && LineNumberOf(bytes, isCompiledBlock, target).Success?
    ensures LineNumberOf(bytes, isCompiledBlock, target + NumBytes(bytes[target]))
         == Success(LineNumberOf(bytes, isCompiledBlock, target).value + 1)
  {
    StepsExtend(bytes, 0, target);
  }

  /**
   * pcPreviousTo's inner do-while loop from a stop at offset `o`: step over
   * the instruction at `o`, then over every extension prefix that follows,
   * and land on the next byte that is not a prefix.
   */
  function SkipPrefixes(bytes: seq<Byte>, o: int): (r: Decoded<int>)
    requires o >= 0
    ensures r.Failure? ==> r.error == IndexOutOfBounds
    decreases |bytes| - o
  {
    if o >= |bytes| then Failure(IndexOutOfBounds)
    else if IsExtension(bytes[o]) then SkipPrefixes(bytes, o + NumBytes(bytes[o]))
    else Success(o)
  }

  function NextStop(bytes: seq<Byte>, o: int): (r: Decoded<int>)
    requires o >= 0
    ensures r.Failure? ==> r.error == IndexOutOfBounds
  {
    if o >= |bytes| then Failure(IndexOutOfBounds) else SkipPrefixes(bytes, o + NumBytes(bytes[o]))
  }

  lemma {:induction false} SkipPrefixesAdvances(bytes: seq<Byte>, o: int)
    requires o >= 0 && SkipPrefixes(bytes, o).Success?
    ensures o <= SkipPrefixes(bytes, o).value < |bytes| && !IsExtension(bytes[SkipPrefixes(bytes, o).value])
    decreases |bytes| - o
  {
    if o < |bytes| && IsExtension(bytes[o]) {
      SkipPrefixesAdvances(bytes, o + NumBytes(bytes[o]));
    }
  }

  /** The stops before pc `pc`, as absolute pcs; `previous` is the last stop seen. */
  function PreviousStop(bytes: seq<Byte>, initialPC: int, current: int, pc: int, previous: int): (r: Decoded<int>)
    requires current >= initialPC
    ensures r.Failure? ==> r.error == IndexOutOfBounds
    decreases pc - current
  {
    if current >= pc then Success(previous)
    else match NextStop(bytes, current - initialPC)
      case Failure(e) => Failure(e)
      case Success(o) =>
        SkipPrefixesAdvances(bytes, current - initialPC + NumBytes(bytes[current - initialPC]));
        PreviousStop(bytes, initialPC, o + initialPC, pc, current)
  }

  /** pcPreviousTo as a value: the walk starts at `initialPC` with no previous pc (-1). */
  function PcPreviousToOf(bytes: seq<Byte>, initialPC: int, pc: int): (r: Decoded<int>)
    ensures pc <= initialPC ==> r == Success(-1)
    ensures r.Failure? ==> r.error == IndexOutOfBounds
  {
    PreviousStop(bytes, initialPC, initialPC, pc, -1)
  }

  /** pcPreviousTo, with its nested while and do-while loops. */
  method PcPreviousTo(bytes: seq<Byte>, initialPC: int, pc: int) returns (r: Decoded<int>)
    ensures r == PcPreviousToOf(bytes, initialPC, pc)
  {
    var currentPC := initialPC;
    var previousPC := -1;
    while currentPC < pc
      invariant currentPC >= initialPC
      invariant PreviousStop(bytes, initialPC, currentPC, pc, previousPC) == PcPreviousToOf(bytes, initialPC, pc)
      decreases pc - currentPC
    {
      if currentPC - initialPC >= |bytes| {
        return Failure(IndexOutOfBounds);
      }
      ghost var stop := currentPC;
      previousPC := currentPC;
      currentPC := currentPC + NumBytes(bytes[currentPC - initialPC]);
      while true
        invariant currentPC > stop
        invariant NextStop(bytes, stop - initialPC) == SkipPrefixes(bytes, currentPC - initialPC)
        decreases |bytes| - (currentPC - initialPC)
      {
        if currentPC - initialPC >= |bytes| {
          return Failure(IndexOutOfBounds);
        }
        if !IsExtension(bytes[currentPC - initialPC]) {
          break;
        }
        currentPC := currentPC + NumBytes(bytes[currentPC - initialPC]);
      }
    }
    r := Success(previousPC);
  }

  /**
   * A successful pcPreviousTo for `pc > initialPC` returns a stop below `pc`
   * whose next stop is at or above `pc`: the start of the instruction that
   * covers `pc - 1`.
   */
  lemma {:induction false} PreviousStopCharacterized(bytes: seq<Byte>, initialPC: int, current: int, pc: int, previous: int)
    requires current >= initialPC && PreviousStop(bytes, initialPC, current, pc, previous).Success?
    requires current < pc || (initialPC <= previous < pc && NextStop(bytes, previous - initialPC) == Success(current - initialPC))
    ensures var r := PreviousStop(bytes, initialPC, current, pc, previous).value;
            initialPC <= r < pc && NextStop(bytes, r - initialPC).Success? &&
            NextStop(bytes, r - initialPC).value + initialPC >= pc
    decreases pc - current
  {
    if current < pc {
      var o := NextStop(bytes, current - initialPC).value;
      SkipPrefixesAdvances(bytes, current - initialPC + NumBytes(bytes[current - initialPC]));
      PreviousStopCharacterized(bytes, initialPC, o + initialPC, pc, current);
    }
  }

  lemma PcPreviousToCharacterized(bytes: seq<Byte>, initialPC: int, pc: int)
    requires initialPC < pc && PcPreviousToOf(bytes, initialPC, pc).Success?
    ensures var r := PcPreviousToOf(bytes, initialPC, pc).value;
            initialPC <= r < pc && NextStop(bytes, r - initialPC).Success? &&
            NextStop(bytes, r - initialPC).value + initialPC >= pc
  {
    PreviousStopCharacterized(bytes, initialPC, initialPC, pc, -1);
  }

  /** One line of `decodeToString`'s listing: its number, byte offset, indentation and width. */
  datatype Line = Line(number: int, offset: int, indent: int, width: int)

  /**
   * How a line changes the indentation of the following lines: one deeper
   * after a block-creating closure push (0xFA), one shallower after a block
   * return (0x5D, 0x5E).
   */
  function IndentStep(b: Byte): int {
    if b == 0xFA then 1 else if b == 0x5D || b == 0x5E then -1 else 0
  }

  /**
   * The corrected indentation follows the decoder: it deepens exactly on
   * opcodes that decode to a closure push and becomes shallower exactly on
   * those that decode to a block return.
   */
  lemma IndentStepFollowsDecoder(b: Byte)
    ensures Decode([b, 0, 0], 0).Success?
    ensures IndentStep(b) == 1 <==> Decode([b, 0, 0], 0).value.op.PushClosure?
    ensures IndentStep(b) == -1 <==> Decode([b, 0, 0], 0).value.op in {ReturnNilFromBlock, ReturnTopFromBlock}
  {
    var bytes: seq<Byte> := [b, 0, 0];
    assert bytes[0] == b && bytes[1] == 0 && bytes[2] == 0;
    if b < 0xE0 {
      var ins := DecodeOneByte(0, b, 0, 0);
      assert Decode(bytes, 0) == Success(ins);
    } else if b == 0xE0 {
      var ins := DecodeOneByte(0, 0, 0, 0);
      assert ExtendA(0, bytes[1]) == 0;
      assert DecodeAt(bytes, 0, 2, 0, 0, 0) == Success(ins);
      assert Decode(bytes, 0) == DecodeAt(bytes, 0, 2, 0, 0, 0);
    } else if b == 0xE1 {
      var ins := DecodeOneByte(0, 0, 0, 0);
      assert ExtendB(0, 0, bytes[1]) == 0;
      assert DecodeAt(bytes, 0, 2, 0, 0, 1) == Success(ins);
      assert Decode(bytes, 0) == DecodeAt(bytes, 0, 2, 0, 0, 1);
    } else if b in {0xE6, 0xEC, 0xF6, 0xF7, 0xFE, 0xFF} {
      assert Decode(bytes, 0).value.op == Unknown(b);
    } else if b < 0xF8 {
      var ins := DecodeTwoByte(0, 0, b, 0, 0, 0);
      assert Decode(bytes, 0) == Success(ins);
    } else {
      var ins := DecodeThreeByte(0, 0, b, 0, 0, 0, 0);
      assert Decode(bytes, 0) == Success(ins);
    }
  }


  /** Whether decodeBytecodeToString can read the operand bytes of the instruction at `o`. */
  predicate OperandsReadable(bytes: seq<Byte>, o: nat)
    requires o < |bytes|
  {
    (bytes[o] == 231 ==> o + 1 < |bytes|) && (bytes[o] == 248 ==> o + 2 < |bytes|)
  }

  /** The indentation step of the listing as written (`asWritten`) or corrected. */
  function IndentStepOf(asWritten: bool, b: Byte): int {
    if asWritten then IndentStepAsWritten(b) else IndentStep(b)
  }

  /**
   * The lines of the listing from offset `o` on, while `o` is below the
   * trailer position, indenting by the rule as written or by the corrected one.
   */
  function ListingFrom(bytes: seq<Byte>, o: nat, trailer: int, number: int, indent: int, asWritten: bool): (r: Decoded<seq<Line>>)
    ensures r.Failure? ==> r.error == IndexOutOfBounds
    decreases |bytes| - o
  {
    if o >= trailer then Success([])
    else if o >= |bytes| || !OperandsReadable(bytes, o) then Failure(IndexOutOfBounds)
    else
      var width := NumBytes(bytes[o]);
      match ListingFrom(bytes, o + width, trailer, number + 1, indent + IndentStepOf(asWritten, bytes[o]), asWritten)
      case Failure(e) => Failure(e)
      case Success(rest) => Success([Line(number, o, indent, width)] + rest)
  }

  /** decodeToString's walk: every line of the listing, starting at offset 0, line 1 and indentation 0. */
  function ListingOf(bytes: seq<Byte>, isCompiledBlock: bool, asWritten: bool): (r: Decoded<seq<Line>>)
    ensures CodeTrailerPositionOf(bytes, isCompiledBlock).Failure? ==> r == Failure(CodeTrailerPositionOf(bytes, isCompiledBlock).error)
    ensures r.Failure? && CodeTrailerPositionOf(bytes, isCompiledBlock).Success? ==> r.error == IndexOutOfBounds
    ensures CodeTrailerPositionOf(bytes, isCompiledBlock) == Success(0) ==> r == Success([])
  {
    match CodeTrailerPositionOf(bytes, isCompiledBlock)
    case Failure(e) => Failure(e)
    case Success(trailer) => ListingFrom(bytes, 0, trailer, 1, 0, asWritten)
  }

  /** decodeToString's loop as written, producing the lines instead of their text. */
  method DecodeToString(bytes: seq<Byte>, isCompiledBlock: bool) returns (r: Decoded<seq<Line>>)
    ensures r == ListingOf(bytes, isCompiledBlock, true)
  {
    var trailer := TrailerPosition(bytes, isCompiledBlock);
    if trailer.Failure? {
      return Failure(trailer.error);
    }
    var trailerPosition := trailer.value;
    var bytecodeIndex: nat := 0;
    var lineIndex := 1;
    var indent := 0;
    var lines: seq<Line> := [];
    ghost var whole := ListingFrom(bytes, 0, trailerPosition, 1, 0, true);
    assert whole.Success? ==> [] + whole.value == whole.value;
    while bytecodeIndex < trailerPosition
      invariant ListingOf(bytes, isCompiledBlock, true) ==
                (match ListingFrom(bytes, bytecodeIndex, trailerPosition, lineIndex, indent, true)
                 case Failure(e) => Failure(e)
                 case Success(rest) => Success(lines + rest))
      decreases |bytes| - bytecodeIndex
    {
      if bytecodeIndex >= |bytes| || !OperandsReadable(bytes, bytecodeIndex) {
        return Failure(IndexOutOfBounds);
      }
      var currentByte := bytes[bytecodeIndex];
      var numBytecodes := NumBytes(currentByte);
      var line := Line(lineIndex, bytecodeIndex, indent, numBytecodes);
      ghost var linesBefore := lines;
      lines := lines + [line];
      if currentByte == 143 {
        indent := indent + 1;
      } else if currentByte == 125 {
        indent := indent - 1;
      }
      lineIndex := lineIndex + 1;
      bytecodeIndex := bytecodeIndex + numBytecodes;
      ghost var after := ListingFrom(bytes, bytecodeIndex, trailerPosition, lineIndex, indent, true);
      assert after.Success? ==> lines + after.value == linesBefore + ([line] + after.value);
    }
    assert lines + [] == lines;
    r := Success(lines);
  }

  /**
   * The listing visits instructions exactly while the offset is below the
   * trailer: it is empty exactly when the walk starts at or past the
   * trailer, it starts at the first offset, each line starts where the
   * previous one ended, and the last one ends at or past the trailer.
   */
  lemma {:induction false} ListingFromShape(bytes: seq<Byte>, o: nat, trailer: int, number: int, indent: int, asWritten: bool)
    requires ListingFrom(bytes, o, trailer, number, indent, asWritten).Success?
    ensures var ls := ListingFrom(bytes, o, trailer, number, indent, asWritten).value;
            (|ls| == 0 <==> o >= trailer) &&
            (|ls| > 0 ==> ls[0].offset == o && ls[|ls| - 1].offset + ls[|ls| - 1].width >= trailer) &&
            (forall i :: 0 <= i < |ls| - 1 ==> ls[i + 1].offset == ls[i].offset + ls[i].width)
    decreases |bytes| - o
  {
    if o < trailer {
      var width := NumBytes(bytes[o]);
      var next := indent + IndentStepOf(asWritten, bytes[o]);
      ListingFromShape(bytes, o + width, trailer, number + 1, next, asWritten);
      var rest := ListingFrom(bytes, o + width, trailer, number + 1, next, asWritten).value;
      var ls := ListingFrom(bytes, o, trailer, number, indent, asWritten).value;
      assert ls == [Line(number, o, indent, width)] + rest;
      forall i | 0 <= i < |ls| - 1
        ensures ls[i + 1].offset == ls[i].offset + ls[i].width
      {
        assert ls[i + 1] == rest[i];
        if i > 0 {
          assert ls[i] == rest[i - 1];
        }
      }
      if |rest| > 0 {
        assert ls[|ls| - 1] == rest[|rest| - 1];
      }
    }
  }

  /**
   * Every line of the listing is numbered consecutively from the first
   * number, lies below the trailer and inside the bytes, and is as wide as
   * its opcode.
   */
  lemma {:induction false} ListingFromLines(bytes: seq<Byte>, o: nat, trailer: int, number: int, indent: int, asWritten: bool)
    requires ListingFrom(bytes, o, trailer, number, indent, asWritten).Success?
    ensures var ls := ListingFrom(bytes, o, trailer, number, indent, asWritten).value;
            forall i :: 0 <= i < |ls| ==> ls[i].number == number + i && 0 <= ls[i].offset < trailer &&
                                           ls[i].offset < |bytes| && ls[i].width == NumBytes(bytes[ls[i].offset])
    decreases |bytes| - o
  {
    if o < trailer {
      var width := NumBytes(bytes[o]);
      var next := indent + IndentStepOf(asWritten, bytes[o]);
      ListingFromLines(bytes, o + width, trailer, number + 1, next, asWritten);
      var rest := ListingFrom(bytes, o + width, trailer, number + 1, next, asWritten).value;
      var ls := ListingFrom(bytes, o, trailer, number, indent, asWritten).value;
      assert ls == [Line(number, o, indent, width)] + rest;
      forall i | 0 <= i < |ls|
        ensures ls[i].number == number + i && 0 <= ls[i].offset < trailer &&
                ls[i].offset < |bytes| && ls[i].width == NumBytes(bytes[ls[i].offset])
      {
        if i > 0 {
          assert ls[i] == rest[i - 1];
        }
      }
    }
  }

  /**
   * The first line has the starting indentation, and each later line's
   * indentation is the previous one's changed by the step of the previous
   * line's opcode.
   */
  lemma {:induction false} ListingFromIndents(bytes: seq<Byte>, o: nat, trailer: int, number: int, indent: int, asWritten: bool)
    requires ListingFrom(bytes, o, trailer, number, indent, asWritten).Success?
    ensures var ls := ListingFrom(bytes, o, trailer, number, indent, asWritten).value;
            (|ls| > 0 ==> ls[0].indent == indent) &&
            (forall i :: 0 <= i < |ls| - 1 ==>
               0 <= ls[i].offset < |bytes| &&
               ls[i + 1].indent == ls[i].indent + IndentStepOf(asWritten, bytes[ls[i].offset]))
    decreases |bytes| - o
  {
    if o < trailer {
      var width := NumBytes(bytes[o]);
      var next := indent + IndentStepOf(asWritten, bytes[o]);
      ListingFromIndents(bytes, o + width, trailer, number + 1, next, asWritten);
      var rest := ListingFrom(bytes, o + width, trailer, number + 1, next, asWritten).value;
      var ls := ListingFrom(bytes, o, trailer, number, indent, asWritten).value;
      assert ls == [Line(number, o, indent, width)] + rest;
      forall i | 0 <= i < |ls| - 1
        ensures 0 <= ls[i].offset < |bytes| && ls[i + 1].indent == ls[i].indent + IndentStepOf(asWritten, bytes[ls[i].offset])
      {
        assert ls[i + 1] == rest[i];
        if i > 0 {
          assert ls[i] == rest[i - 1];
        }
      }
    }
  }

  lemma ListingShape(bytes: seq<Byte>, isCompiledBlock: bool, asWritten: bool)
    requires ListingOf(bytes, isCompiledBlock, asWritten).Success?
    ensures var ls := ListingOf(bytes, isCompiledBlock, asWritten).value;
            var trailer := CodeTrailerPositionOf(bytes, isCompiledBlock).value;
            (|ls| == 0 <==> trailer <= 0) &&
            (|ls| > 0 ==> ls[0].offset == 0 && ls[0].indent == 0 && ls[|ls| - 1].offset + ls[|ls| - 1].width >= trailer) &&
            (forall i :: 0 <= i < |ls| ==> ls[i].number == i + 1 && 0 <= ls[i].offset < trailer && ls[i].offset < |bytes|) &&
            (forall i :: 0 <= i < |ls| - 1 ==>
               ls[i + 1].offset == ls[i].offset + ls[i].width &&
               ls[i + 1].indent == ls[i].indent + IndentStepOf(asWritten, bytes[ls[i].offset]))
  {
    var trailer := CodeTrailerPositionOf(bytes, isCompiledBlock).value;
    ListingFromShape(bytes, 0, trailer, 1, 0, asWritten);
    ListingFromLines(bytes, 0, trailer, 1, 0, asWritten);
    ListingFromIndents(bytes, 0, trailer, 1, 0, asWritten);
  }

  /** The listing as written and the corrected one differ only in their indentation. */
  lemma {:induction false} ListingsAgreeButForIndent(bytes: seq<Byte>, o: nat, trailer: int, number: int, indent1: int, indent2: int)
    ensures ListingFrom(bytes, o, trailer, number, indent1, true).Success? <==>
            ListingFrom(bytes, o, trailer, number, indent2, false).Success?
    ensures ListingFrom(bytes, o, trailer, number, indent1, true).Success? ==>
            var ls1 := ListingFrom(bytes, o, trailer, number, indent1, true).value;
            var ls2 := ListingFrom(bytes, o, trailer, number, indent2, false).value;
            |ls1| == |ls2| &&
            forall i :: 0 <= i < |ls1| ==> ls1[i].(indent := 0) == ls2[i].(indent := 0)
    decreases |bytes| - o
  {
    if o < trailer && o < |bytes| && OperandsReadable(bytes, o) {
      var width := NumBytes(bytes[o]);
      ListingsAgreeButForIndent(bytes, o + width, trailer, number + 1,
                                indent1 + IndentStepOf(true, bytes[o]), indent2 + IndentStepOf(false, bytes[o]));
    }
  }

  /** In a block `8F 5C` the listing as written indents the line after the send; the corrected one does not. */
  lemma ListingIndentsAfterSend()
    ensures ListingOf([0x8F, 0x5C], true, true) == Success([Line(1, 0, 0, 1), Line(2, 1, 1, 1)])
    ensures ListingOf([0x8F, 0x5C], true, false) == Success([Line(1, 0, 0, 1), Line(2, 1, 0, 1)])
  {
    var bytes: seq<Byte> := [0x8F, 0x5C];
    assert bytes[0] == 0x8F && bytes[1] == 0x5C;
    assert NumBytes(0x8F) == 1 && NumBytes(0x5C) == 1;
    assert OperandsReadable(bytes, 0) && OperandsReadable(bytes, 1);
    assert IndentStepOf(true, 0x8F) == 1 && IndentStepOf(true, 0x5C) == 0;
    assert IndentStepOf(false, 0x8F) == 0 && IndentStepOf(false, 0x5C) == 0;
    assert [Line(2, 1, 1, 1)] + [] == [Line(2, 1, 1, 1)] && [Line(2, 1, 0, 1)] + [] == [Line(2, 1, 0, 1)];
    assert [Line(1, 0, 0, 1)] + [Line(2, 1, 1, 1)] == [Line(1, 0, 0, 1), Line(2, 1, 1, 1)];
    assert [Line(1, 0, 0, 1)] + [Line(2, 1, 0, 1)] == [Line(1, 0, 0, 1), Line(2, 1, 0, 1)];
    assert ListingFrom(bytes, 2, 2, 3, 1, true) == Success([]);
    assert ListingFrom(bytes, 1, 2, 2, 1, true) == Success([Line(2, 1, 1, 1)]);
    assert ListingFrom(bytes, 0, 2, 1, 0, true) == Success([Line(1, 0, 0, 1), Line(2, 1, 1, 1)]);
    assert ListingFrom(bytes, 2, 2, 3, 0, false) == Success([]);
    assert ListingFrom(bytes, 1, 2, 2, 0, false) == Success([Line(2, 1, 0, 1)]);
    assert ListingFrom(bytes, 0, 2, 1, 0, false) == Success([Line(1, 0, 0, 1), Line(2, 1, 0, 1)]);
  }

  // ---------------------------------------------------------------------
  // As written: the listing's indentation and two operand labels

  /** The indentation change decodeToString applies as written: on 143 and 125. */
  function IndentStepAsWritten(b: Byte): (r: int)
    ensures r != 0 <==> b == 143 || b == 125
    ensures r == 1 ==> Decode([b], 0) == Success(Instruction(0, 1, SelfSend(15, 0)))
    ensures r == -1 ==> Decode([b], 0) == Success(Instruction(0, 1, SendSpecialSelector(29)))
  {
    if b == 143 then 1 else if b == 125 then -1 else 0
  }

  /**
   * As written, the opcodes that change the indentation are a self send
   * (143) and a special-selector send (125), while the closure push and the
   * block returns leave it alone.
   */
  lemma IndentAsWrittenMisses()
    ensures IndentStepAsWritten(143) == 1 && Decode([143], 0) == Success(Instruction(0, 1, SelfSend(15, 0)))
    ensures IndentStepAsWritten(125) == -1 && Decode([125], 0) == Success(Instruction(0, 1, SendSpecialSelector(29)))
    ensures IndentStepAsWritten(0xFA) == 0 && IndentStep(0xFA) == 1
    ensures IndentStepAsWritten(0x5E) == 0 && IndentStep(0x5E) == -1
  {
  }

  /** The primitive index decodeBytecodeToString prints for 0xF8 as written: `b1 + (b2 & 31)`. */
  function PrintedPrimitiveIndexAsWritten(b1: Byte, b2: Byte): (p: int)
    ensures p == PrimitiveIndex(b1, b2) <==> b2 % 32 == 0
  {
    b1 + b2 % 32
  }

  /** The primitive index the listing should print: the one the decoder uses. */
  function PrintedPrimitiveIndex(b1: Byte, b2: Byte): (p: int)
    ensures p < 1000 ==> Decode([0xF8, b1, b2], 0) == Success(Instruction(0, 3, CallPrimitive(p)))
    ensures IsInlinePrimitive(p) ==> Decode([0xF8, b1, b2], 0) == Success(Instruction(0, 3, InlinePrimitive(p)))
  {
    PrimitiveIndex(b1, b2)
  }

  /** The bytes F8 00 01 call primitive 256, but the listing as written prints 1. */
  lemma PrintedPrimitiveIndexDiffers()
    ensures Decode([0xF8, 0, 1], 0) == Success(Instruction(0, 3, CallPrimitive(256)))
    ensures PrintedPrimitiveIndexAsWritten(0, 1) == 1
    ensures PrintedPrimitiveIndex(0, 1) == 256
  {
  }

  /** The decimal digits of a natural number. */
  function Digits(n: nat): (s: string)
    ensures |s| >= 1
    decreases n
  {
    var d := ['0', '1', '2', '3', '4', '5', '6', '7', '8', '9'][n % 10];
    if n < 10 then [d] else Digits(n / 10) + [d]
  }

  /** Different numbers print differently: the decimal text determines the number. */
  lemma {:induction false} DigitsInjective(m: nat, n: nat)
    requires Digits(m) == Digits(n)
    ensures m == n
    decreases m
  {
    var table := ['0', '1', '2', '3', '4', '5', '6', '7', '8', '9'];
    var dm, dn := Digits(m), Digits(n);
    assert dm[|dm| - 1] == table[m % 10] && dn[|dn| - 1] == table[n % 10];
    assert m % 10 == n % 10;
    if m >= 10 && n >= 10 {
      assert Digits(m / 10) == dm[..|dm| - 1] == dn[..|dn| - 1] == Digits(n / 10);
      DigitsInjective(m / 10, n / 10);
    } else {
      assert |dm| == 1 <==> m < 10;
      assert |dn| == 1 <==> n < 10;
    }
  }

  /** The label of opcodes 72..75 as written: `"pushTemp: " + (b & 3) + 8` concatenates two numbers. */
  function PushTempLabelAsWritten(b: Byte): (s: string)
    requires 72 <= b <= 75
    ensures s != PushTempLabel(b)
  {
    var written := "pushTemp: " + Digits(b % 4) + Digits(8);
    assert written[10] == Digits(b % 4)[0] && PushTempLabel(b)[10] == Digits(b % 4 + 8)[0];
    assert Digits(1) == ['1'];
    assert Digits(b % 4)[0] in {'0', '1', '2', '3'} && Digits(b % 4 + 8)[0] in {'8', '9', '1'};
    assert b % 4 >= 2 ==> Digits(b % 4)[0] in {'2', '3'} && Digits(b % 4 + 8)[0] == '1';
    written
  }

  /** The label naming the temporary the decoder pushes. */
  function PushTempLabel(b: Byte): (s: string)
    requires 72 <= b <= 75
    ensures Decode([b], 0) == Success(Instruction(0, 1, PushTemporary(b % 4 + 8)))
    ensures s == "pushTemp: " + Digits(Decode([b], 0).value.op.tempIndex)
  {
    "pushTemp: " + Digits(b % 4 + 8)
  }

  /** Opcode 72 pushes temporary 8, but its label as written reads "pushTemp: 08". */
  lemma PushTempLabelDiffers()
    ensures PushTempLabelAsWritten(72) == "pushTemp: 08"
    ensures PushTempLabel(72) == "pushTemp: 8"
  {
  }
}
