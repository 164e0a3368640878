# TruffleSqueak execution-engine core in Dafny

This project models the execution-engine logic of TruffleSqueak, a Squeak/Smalltalk virtual machine written in Java on top of Truffle, and proves properties of that model. The Java modelled here comes from three snapshots of the repository. Each Java file is modelled on its own terms, as one Dafny module, and the modules are not joined into one runtime.

- **SistaV1 decoder** (`SistaV1Decoder`):
  - instruction widths;
  - the position of a compiled method's trailer (flag byte, length fields, backward scan of a variable-length source pointer);
  - decoding one instruction, with the `extA`/`extB` extension prefixes threaded through the recursion;
  - the loops that find a line number, find the previous pc and produce the lines of a listing.
- **Array conversions** (`ArrayConversions`): packing and unpacking of Java `short`, `int` and `long` arrays to and from bytes, big-endian and byte-reversed. Each of the ten conversions is a method over `array`s, proved equal to a specification function. Round trips and layouts are proved about those functions.
- **Class metadata** (`ClassObjects`):
  - the format word and its `is*` classification;
  - the three stability tokens (class hierarchy, method dictionary, class format), as epoch counters;
  - the setters, `become`, the `at0`/`atput0` index routing, `size` and `listMethods` along the superclass chain.
- **Object field access** (`PointersObjectNodes`, `PointersObjects`, `WeakPointersObjects`):
  - layouts: each named field sits at an uninitialised, primitive or generic location, and a class's layout only evolves towards more general locations;
  - the read and write nodes, with layout refresh and evolution;
  - the named/variable index split;
  - `PointersObject` linked-list operations;
  - the weak variable part of `WeakPointersObject`, with swap-become and one-way become.
- **Returns, unwinding and materialisation** (`ContextObjects`, `ExecuteTopLevelContextNode`, `MaterializeContextOnMethodExitNode`, `ContextObjectNodes`, `FrameStackReadNode`, `CheckForInterruptsQuickNode`):
  - the driver loop's local, non-local and non-virtual returns over a sender chain;
  - the `lastSeenContext` materialisation pointer;
  - virtualised and materialised context field access;
  - which stack reads clear their slot;
  - interrupt polling.
- **Older engine** (`ReturnBytecodes`, `SqueakBytecodeNode`, `EnterCodeNode`): the local/non-local return choice, successor-index bookkeeping and `push`, and frame set-up on entry.
- **Tables and bit tricks** (`UUIDPlugin`, `FFIConstants`):
  - version-4 UUID stamping (RFC 4122, sections 4.1.1, 4.1.3 and 4.4);
  - the FFI type table and its flag masks.

Shared modules:
- `Wrappers` holds `Option` and `Result`.
- `JavaInts` models Java's two's-complement wrap-around for `byte`, `short`, `int` and `long`.

Java exceptions are `Result` failures or outcome variants. Truffle assumptions are epoch counters. Weak references are `Option` values that the environment may clear. Clocks and random bytes are inputs.

## Model

| member | source | states |
|---|---|---|
| SistaV1Decoder.NumBytes | src/de.hpi.swa.trufflesqueak/src/de/hpi/swa/trufflesqueak/nodes/bytecodes/SqueakBytecodeSistaV1Decoder.java:398-407 | the width is 1 exactly for opcodes below 0xE0, 2 exactly for 0xE0..0xF7, 3 exactly for 0xF8 and above |
| SistaV1Decoder.LengthBytes | src/de.hpi.swa.trufflesqueak/src/de/hpi/swa/trufflesqueak/nodes/bytecodes/SqueakBytecodeSistaV1Decoder.java:68 | a trailer length field is 1 to 4 bytes wide |
| SistaV1Decoder.LengthFieldOf | src/de.hpi.swa.trufflesqueak/src/de/hpi/swa/trufflesqueak/nodes/bytecodes/SqueakBytecodeSistaV1Decoder.java:67-75 | the length field fails (out of bounds) exactly when the method is shorter than its length bytes plus the flag byte, and otherwise gives a Java int |
| SistaV1Decoder.ScanBack | src/de.hpi.swa.trufflesqueak/src/de/hpi/swa/trufflesqueak/nodes/bytecodes/SqueakBytecodeSistaV1Decoder.java:54-60 | the backward scan can fail only by running off the front of the bytes |
| SistaV1Decoder.TrailerPositionOf | src/de.hpi.swa.trufflesqueak/src/de/hpi/swa/trufflesqueak/nodes/bytecodes/SqueakBytecodeSistaV1Decoder.java:42-65 | an empty method is out of bounds, and the undefined-encoding error is raised exactly for the flag indices 10 to 63 |
| SistaV1Decoder.CodeTrailerPositionOf | src/de.hpi.swa.trufflesqueak/src/de/hpi/swa/trufflesqueak/nodes/bytecodes/SqueakBytecodeSistaV1Decoder.java:37-40 | a compiled block has no trailer, so its code runs to the end of its bytes; a method uses the trailer of its bytes |
| SistaV1Decoder.DecodeLengthField | src/de.hpi.swa.trufflesqueak/src/de/hpi/swa/trufflesqueak/nodes/bytecodes/SqueakBytecodeSistaV1Decoder.java:67-75 | the loop computes the length-field trailer position of its specification function |
| SistaV1Decoder.TrailerPosition | src/de.hpi.swa.trufflesqueak/src/de/hpi/swa/trufflesqueak/nodes/bytecodes/SqueakBytecodeSistaV1Decoder.java:37-65 | the trailer position of a method or block, including the in-place backward scan, equals its specification; a block has no trailer |
| SistaV1Decoder.NoTrailerCase | src/de.hpi.swa.trufflesqueak/src/de/hpi/swa/trufflesqueak/nodes/bytecodes/SqueakBytecodeSistaV1Decoder.java:46-48 | flag>>2 in {0, 4} puts the trailer at len-1 |
| SistaV1Decoder.SourcePointerCase | src/de.hpi.swa.trufflesqueak/src/de/hpi/swa/trufflesqueak/nodes/bytecodes/SqueakBytecodeSistaV1Decoder.java:62 | flag>>2 == 63 puts the trailer at len-4 |
| SistaV1Decoder.UndefinedEncodingCase | src/de.hpi.swa.trufflesqueak/src/de/hpi/swa/trufflesqueak/nodes/bytecodes/SqueakBytecodeSistaV1Decoder.java:63 | every flag>>2 from 9 to 62 is the undefined-encoding error |
| SistaV1Decoder.AccumulatedExact | src/de.hpi.swa.trufflesqueak/src/de/hpi/swa/trufflesqueak/nodes/bytecodes/SqueakBytecodeSistaV1Decoder.java:69-73 | the wrapping `(length << 8) + byte` accumulation equals the big-endian value for up to 3 bytes |
| SistaV1Decoder.BigEndianBound | src/de.hpi.swa.trufflesqueak/src/de/hpi/swa/trufflesqueak/nodes/bytecodes/SqueakBytecodeSistaV1Decoder.java:69-73 | a 3-byte big-endian length is below 2^24 |
| SistaV1Decoder.LengthFieldCase | src/de.hpi.swa.trufflesqueak/src/de/hpi/swa/trufflesqueak/nodes/bytecodes/SqueakBytecodeSistaV1Decoder.java:52 | for flag>>2 in {1,2,3,5,6,7}, position + 1 + numBytes + length == len, with numBytes = (flag&3)+1 and the length read big-endian downward from len-2 |
| SistaV1Decoder.ShortLengthFieldFits | src/de.hpi.swa.trufflesqueak/src/de/hpi/swa/trufflesqueak/nodes/bytecodes/SqueakBytecodeSistaV1Decoder.java:67-75 | a length field of up to 3 bytes fits a Java int, so the accumulation does not wrap |
| SistaV1Decoder.ScanBackFinds | src/de.hpi.swa.trufflesqueak/src/de/hpi/swa/trufflesqueak/nodes/bytecodes/SqueakBytecodeSistaV1Decoder.java:54-60 | the scan stops at the last byte below 0x80 at or before the start, with every byte after it at 0x80 or above; it fails exactly when no such byte exists |
| SistaV1Decoder.VarLengthSourcePointerCase | src/de.hpi.swa.trufflesqueak/src/de/hpi/swa/trufflesqueak/nodes/bytecodes/SqueakBytecodeSistaV1Decoder.java:54-60 | for flag>>2 == 8 the trailer is the last byte before len-1 that is below 0x80; it fails iff all those bytes have the high bit set |
| SistaV1Decoder.PrimitiveIndex | src/de.hpi.swa.trufflesqueak/src/de/hpi/swa/trufflesqueak/nodes/bytecodes/SqueakBytecodeSistaV1Decoder.java:199-201 | the call-primitive index b1 + ((b2&31)<<8) lies in 0..8191 |
| SistaV1Decoder.CallPrimitiveAt | src/de.hpi.swa.trufflesqueak/src/de/hpi/swa/trufflesqueak/nodes/bytecodes/SqueakBytecodeSistaV1Decoder.java:196-252 | 0xF8 spans three bytes; it is a numbered call-primitive exactly for indices below 1000, an inline primitive exactly for the listed inline indices, and unknown otherwise, carrying the decoded index |
| SistaV1Decoder.DecodeOneByte | src/de.hpi.swa.trufflesqueak/src/de/hpi/swa/trufflesqueak/nodes/bytecodes/SqueakBytecodeSistaV1Decoder.java:95-148 | a one-byte instruction has width 1 and is never a closure push; it is a block return exactly for 0x5D, and for 0x5E without extA |
| SistaV1Decoder.DecodePushOrMisc | src/de.hpi.swa.trufflesqueak/src/de/hpi/swa/trufflesqueak/nodes/bytecodes/SqueakBytecodeSistaV1Decoder.java:103-117 | 0x52 pushes thisContext exactly when extB is 0; the opcode is unknown exactly for 0x54..0x57 and for 0x52 with a non-zero extB |
| SistaV1Decoder.DecodeReturn | src/de.hpi.swa.trufflesqueak/src/de/hpi/swa/trufflesqueak/nodes/bytecodes/SqueakBytecodeSistaV1Decoder.java:118-131 | 0x58..0x5F decode to a block return exactly for 0x5D and for 0x5E with extA 0, to unknown exactly for 0x5E with a non-zero extA, and to nop exactly for 0x5F |
| SistaV1Decoder.DecodeTwoByte | src/de.hpi.swa.trufflesqueak/src/de/hpi/swa/trufflesqueak/nodes/bytecodes/SqueakBytecodeSistaV1Decoder.java:154-195 | a two-byte instruction keeps its index and is neither a closure push nor a block return |
| SistaV1Decoder.DecodeSuperSend | src/de.hpi.swa.trufflesqueak/src/de/hpi/swa/trufflesqueak/nodes/bytecodes/SqueakBytecodeSistaV1Decoder.java:169-184 | 0xEB is always a super send; it is directed exactly when extB >= 64, and its literal index (b1>>3)+(extA<<5) does not depend on that |
| SistaV1Decoder.DecodeThreeByte | src/de.hpi.swa.trufflesqueak/src/de/hpi/swa/trufflesqueak/nodes/bytecodes/SqueakBytecodeSistaV1Decoder.java:196-258 | a three-byte instruction is a closure push exactly for 0xFA and is never a block return |
| SistaV1Decoder.DecodeAt | src/de.hpi.swa.trufflesqueak/src/de/hpi/swa/trufflesqueak/nodes/bytecodes/SqueakBytecodeSistaV1Decoder.java:88-260 | a decoded instruction starts at the first prefix, is at least one byte wide, and its opcode lies inside the bytes; every failure is an out-of-bounds read |
| SistaV1Decoder.Decode | src/de.hpi.swa.trufflesqueak/src/de/hpi/swa/trufflesqueak/nodes/bytecodes/SqueakBytecodeSistaV1Decoder.java:84-86 | decoding from an index outside the bytes fails out of bounds; a decoded instruction starts at the index and is at least one byte wide; every failure is an out-of-bounds read |
| SistaV1Decoder.DecodeWidthAgrees | src/de.hpi.swa.trufflesqueak/src/de/hpi/swa/trufflesqueak/nodes/bytecodes/SqueakBytecodeSistaV1Decoder.java:158 | without prefixes, a decoded instruction's width is the opcode's width, except for 0xE6 and 0xEC, which decode with width 1 |
| SistaV1Decoder.DecodeWidthWithPrefixes | src/de.hpi.swa.trufflesqueak/src/de/hpi/swa/trufflesqueak/nodes/bytecodes/SqueakBytecodeSistaV1Decoder.java:149-153 | after prefixes, a decoded instruction starts at the first prefix and is at least as wide as the prefixes it consumed |
| SistaV1Decoder.DecodeNeedsOperands | src/de.hpi.swa.trufflesqueak/src/de/hpi/swa/trufflesqueak/nodes/bytecodes/SqueakBytecodeSistaV1Decoder.java:88-94 | a successful decode had all of its opcode's operand bytes in range |
| SistaV1Decoder.ExtendedSendOperands | src/de.hpi.swa.trufflesqueak/src/de/hpi/swa/trufflesqueak/nodes/bytecodes/SqueakBytecodeSistaV1Decoder.java:149-168 | with an extA and an extB prefix, a send has literal index (b1>>3)+(extA<<5), argument count (b1&7)+(extB<<3) with the first extB byte sign-extended, and width 6 |
| SistaV1Decoder.SuperSendOperands | src/de.hpi.swa.trufflesqueak/src/de/hpi/swa/trufflesqueak/nodes/bytecodes/SqueakBytecodeSistaV1Decoder.java:169-184 | a super send with extB >= 64 is directed and uses extB&63; otherwise it is an ordinary super send that uses extB |
| SistaV1Decoder.TwoExtBPrefixes | src/de.hpi.swa.trufflesqueak/src/de/hpi/swa/trufflesqueak/nodes/bytecodes/SqueakBytecodeSistaV1Decoder.java:150-153 | two extB prefixes sign-extend the first byte and shift it left by 8 under the second, as seen by a push of a small integer |
| SistaV1Decoder.CallPrimitiveOperands | src/de.hpi.swa.trufflesqueak/src/de/hpi/swa/trufflesqueak/nodes/bytecodes/SqueakBytecodeSistaV1Decoder.java:196-251 | for 0xF8, index b1 + ((b2&31)<<8) below 1000 decodes to a numbered call-primitive; a listed index decodes to its inline primitive; any other is unknown; the width is 3 |
| SistaV1Decoder.FindLineNumber | src/de.hpi.swa.trufflesqueak/src/de/hpi/swa/trufflesqueak/nodes/bytecodes/SqueakBytecodeSistaV1Decoder.java:24-35 | the loop computes the specification's line number: one plus the number of instructions before the target |
| SistaV1Decoder.LineNumberOf | src/de.hpi.swa.trufflesqueak/src/de/hpi/swa/trufflesqueak/nodes/bytecodes/SqueakBytecodeSistaV1Decoder.java:24-35 | a line number is at least 1 and exists only when the trailer position does; a failure is the trailer's or an out-of-bounds walk |
| SistaV1Decoder.StepsExtend | src/de.hpi.swa.trufflesqueak/src/de/hpi/swa/trufflesqueak/nodes/bytecodes/SqueakBytecodeSistaV1Decoder.java:29-32 | stepping over one more instruction adds one step |
| SistaV1Decoder.FirstLine | src/de.hpi.swa.trufflesqueak/src/de/hpi/swa/trufflesqueak/nodes/bytecodes/SqueakBytecodeSistaV1Decoder.java:27-28 | offset 0 is line 1 |
| SistaV1Decoder.NextLine | src/de.hpi.swa.trufflesqueak/src/de/hpi/swa/trufflesqueak/nodes/bytecodes/SqueakBytecodeSistaV1Decoder.java:29-32 | the instruction after a reachable offset is on the next line |
| SistaV1Decoder.SkipPrefixesAdvances | src/de.hpi.swa.trufflesqueak/src/de/hpi/swa/trufflesqueak/nodes/bytecodes/SqueakBytecodeSistaV1Decoder.java:386-388 | skipping extension prefixes moves forward and stops at a byte that is not a prefix |
| SistaV1Decoder.PcPreviousTo | src/de.hpi.swa.trufflesqueak/src/de/hpi/swa/trufflesqueak/nodes/bytecodes/SqueakBytecodeSistaV1Decoder.java:379-392 | the nested loops compute the specification's previous pc |
| SistaV1Decoder.PcPreviousToOf | src/de.hpi.swa.trufflesqueak/src/de/hpi/swa/trufflesqueak/nodes/bytecodes/SqueakBytecodeSistaV1Decoder.java:379-392 | for pc at or below the initial pc the loop does not run and the result is -1; every failure is an out-of-bounds read |
| SistaV1Decoder.PreviousStopCharacterized | src/de.hpi.swa.trufflesqueak/src/de/hpi/swa/trufflesqueak/nodes/bytecodes/SqueakBytecodeSistaV1Decoder.java:384-389 | the walk's result is an instruction start below pc whose next instruction start is at pc or beyond |
| SistaV1Decoder.PcPreviousToCharacterized | src/de.hpi.swa.trufflesqueak/src/de/hpi/swa/trufflesqueak/nodes/bytecodes/SqueakBytecodeSistaV1Decoder.java:379-392 | the previous pc is at least the initial pc, below pc, and the next instruction after it reaches pc or beyond |
| SistaV1Decoder.IndentStepFollowsDecoder | src/de.hpi.swa.trufflesqueak/src/de/hpi/swa/trufflesqueak/nodes/bytecodes/SqueakBytecodeSistaV1Decoder.java:290-294 | the corrected listing indents exactly where the decoder sees a closure push and outdents exactly where it sees a block return |
| SistaV1Decoder.DecodeToString | src/de.hpi.swa.trufflesqueak/src/de/hpi/swa/trufflesqueak/nodes/bytecodes/SqueakBytecodeSistaV1Decoder.java:264-302 | the listing loop as written produces the listing with the indentation rule of lines 290-294 (143 and 125) |
| SistaV1Decoder.ListingOf | src/de.hpi.swa.trufflesqueak/src/de/hpi/swa/trufflesqueak/nodes/bytecodes/SqueakBytecodeSistaV1Decoder.java:264-302 | a failing trailer position is the listing's error, any other failure is an out-of-bounds read, and a trailer at 0 gives no lines |
| SistaV1Decoder.ListingFromShape | src/de.hpi.swa.trufflesqueak/src/de/hpi/swa/trufflesqueak/nodes/bytecodes/SqueakBytecodeSistaV1Decoder.java:272-300 | the walk visits instructions exactly while the offset is below the trailer: each line starts where the previous one ended, and the last ends at or past the trailer |
| SistaV1Decoder.ListingFromLines | src/de.hpi.swa.trufflesqueak/src/de/hpi/swa/trufflesqueak/nodes/bytecodes/SqueakBytecodeSistaV1Decoder.java:272-300 | lines are numbered consecutively, each lies below the trailer and inside the method's bytes, and each is as wide as its opcode |
| SistaV1Decoder.ListingFromIndents | src/de.hpi.swa.trufflesqueak/src/de/hpi/swa/trufflesqueak/nodes/bytecodes/SqueakBytecodeSistaV1Decoder.java:290-294 | the first line has the starting indentation, and each next line's indentation is the previous one's changed by the step of the previous line's opcode |
| SistaV1Decoder.ListingShape | src/de.hpi.swa.trufflesqueak/src/de/hpi/swa/trufflesqueak/nodes/bytecodes/SqueakBytecodeSistaV1Decoder.java:264-302 | the listing starts at offset 0 on line 1 with indentation 0, visits instructions exactly while the offset is below the trailer position, ends at or past it, and changes the indentation line by line by the opcode's step |
| SistaV1Decoder.ListingsAgreeButForIndent | src/de.hpi.swa.trufflesqueak/src/de/hpi/swa/trufflesqueak/nodes/bytecodes/SqueakBytecodeSistaV1Decoder.java:264-302 | the listing as written and the corrected one succeed together, have the same length and differ only in their indentation |
| SistaV1Decoder.ListingIndentsAfterSend | src/de.hpi.swa.trufflesqueak/src/de/hpi/swa/trufflesqueak/nodes/bytecodes/SqueakBytecodeSistaV1Decoder.java:290-294 | the bytes 8F 5C (a self send, then a return of the top) are listed as written with the return line indented by 1, and by the corrected rule at indentation 0 |
| SistaV1Decoder.IndentAsWrittenMisses | src/de.hpi.swa.trufflesqueak/src/de/hpi/swa/trufflesqueak/nodes/bytecodes/SqueakBytecodeSistaV1Decoder.java:290-294 | the indent rule as written reacts to opcodes 143 and 125, which are sends, and ignores 0xFA and 0x5E |
| SistaV1Decoder.IndentStepAsWritten | src/de.hpi.swa.trufflesqueak/src/de/hpi/swa/trufflesqueak/nodes/bytecodes/SqueakBytecodeSistaV1Decoder.java:290-294 | the indentation changes exactly on opcodes 143 and 125, which decode to a self send and a special-selector send |
| SistaV1Decoder.PrintedPrimitiveIndex | src/de.hpi.swa.trufflesqueak/src/de/hpi/swa/trufflesqueak/nodes/bytecodes/SqueakBytecodeSistaV1Decoder.java:363-367 | the corrected printed index is the index the decoder calls |
| SistaV1Decoder.PrintedPrimitiveIndexDiffers | src/de.hpi.swa.trufflesqueak/src/de/hpi/swa/trufflesqueak/nodes/bytecodes/SqueakBytecodeSistaV1Decoder.java:363-367 | bytes F8 00 01 call primitive 256, but the listing prints 1 |
| SistaV1Decoder.PrintedPrimitiveIndexAsWritten | src/de.hpi.swa.trufflesqueak/src/de/hpi/swa/trufflesqueak/nodes/bytecodes/SqueakBytecodeSistaV1Decoder.java:365 | the printed index equals the decoded one exactly when b2 & 31 is 0 |
| SistaV1Decoder.Digits | src/de.hpi.swa.trufflesqueak/src/de/hpi/swa/trufflesqueak/nodes/bytecodes/SqueakBytecodeSistaV1Decoder.java:310 | Java's decimal text of a natural number is never empty |
| SistaV1Decoder.DigitsInjective | src/de.hpi.swa.trufflesqueak/src/de/hpi/swa/trufflesqueak/nodes/bytecodes/SqueakBytecodeSistaV1Decoder.java:310 | two naturals with the same decimal text are equal, so a printed operand identifies its value |
| SistaV1Decoder.PushTempLabel | src/de.hpi.swa.trufflesqueak/src/de/hpi/swa/trufflesqueak/nodes/bytecodes/SqueakBytecodeSistaV1Decoder.java:311 | the corrected label of opcodes 72..75 names the temporary the decoder pushes, (b&3)+8 |
| SistaV1Decoder.PushTempLabelDiffers | src/de.hpi.swa.trufflesqueak/src/de/hpi/swa/trufflesqueak/nodes/bytecodes/SqueakBytecodeSistaV1Decoder.java:311 | opcode 72 is printed "pushTemp: 08" where "pushTemp: 8" is meant |
| SistaV1Decoder.PushTempLabelAsWritten | src/de.hpi.swa.trufflesqueak/src/de/hpi/swa/trufflesqueak/nodes/bytecodes/SqueakBytecodeSistaV1Decoder.java:311 | the label as written differs from the label naming the pushed temporary, for every opcode 72..75 |
| ArrayConversions.IntToBytes | src/de.hpi.swa.graal.squeak/src/de/hpi/swa/graal/squeak/util/ArrayConversionUtils.java:14-17 | an int gives 4 bytes |
| ArrayConversions.LongToBytes | src/de.hpi.swa.graal.squeak/src/de/hpi/swa/graal/squeak/util/ArrayConversionUtils.java:28-35 | a long gives 8 bytes |
| ArrayConversions.ShortToBytes | src/de.hpi.swa.graal.squeak/src/de/hpi/swa/graal/squeak/util/ArrayConversionUtils.java:64-65 | a short gives 2 bytes |
| ArrayConversions.ShiftSteps | src/de.hpi.swa.graal.squeak/src/de/hpi/swa/graal/squeak/util/ArrayConversionUtils.java:28-35 | each 8-bit shift of a long is one further division by 256 |
| ArrayConversions.IntBytesHoldLowBits | src/de.hpi.swa.graal.squeak/src/de/hpi/swa/graal/squeak/util/ArrayConversionUtils.java:14-17 | the four bytes of an int spell its low 32 bits |
| ArrayConversions.Int32Unwrap | src/de.hpi.swa.graal.squeak/src/de/hpi/swa/graal/squeak/util/ArrayConversionUtils.java:74-76 | wrapping the unsigned 32-bit reading gives back the int |
| ArrayConversions.IntRoundTrip | src/de.hpi.swa.graal.squeak/src/de/hpi/swa/graal/squeak/util/ArrayConversionUtils.java:14-17 | decoding an int's 4 bytes gives the int back |
| ArrayConversions.IntTopByteSign | src/de.hpi.swa.graal.squeak/src/de/hpi/swa/graal/squeak/util/ArrayConversionUtils.java:14 | an int is negative iff its first (most significant) byte has the high bit set |
| ArrayConversions.ShortRoundTrip | src/de.hpi.swa.graal.squeak/src/de/hpi/swa/graal/squeak/util/ArrayConversionUtils.java:112-120 | decoding a short's 2 bytes gives the short back |
| ArrayConversions.Int64Unwrap | src/de.hpi.swa.graal.squeak/src/de/hpi/swa/graal/squeak/util/ArrayConversionUtils.java:94-96 | wrapping the unsigned 64-bit reading gives back the long |
| ArrayConversions.LongBytesHoldLowBits | src/de.hpi.swa.graal.squeak/src/de/hpi/swa/graal/squeak/util/ArrayConversionUtils.java:28-35 | the eight bytes of a long spell its low 64 bits |
| ArrayConversions.LongRoundTrip | src/de.hpi.swa.graal.squeak/src/de/hpi/swa/graal/squeak/util/ArrayConversionUtils.java:22-38 | decoding a long's 8 bytes gives the long back |
| ArrayConversions.LongFromBytesIsTruncation | src/de.hpi.swa.graal.squeak/src/de/hpi/swa/graal/squeak/util/ArrayConversionUtils.java:90-99 | for any integer, encoding then decoding is its 64-bit truncation |
| ArrayConversions.BytesFromIntsOf | src/de.hpi.swa.graal.squeak/src/de/hpi/swa/graal/squeak/util/ArrayConversionUtils.java:9 | the packed ints are 4 bytes each |
| ArrayConversions.BytesFromLongsOf | src/de.hpi.swa.graal.squeak/src/de/hpi/swa/graal/squeak/util/ArrayConversionUtils.java:23 | the packed longs are 8 bytes each |
| ArrayConversions.BytesFromLongsReversedOf | src/de.hpi.swa.graal.squeak/src/de/hpi/swa/graal/squeak/util/ArrayConversionUtils.java:41 | the reversed packed longs are 8 bytes each |
| ArrayConversions.BytesFromShortsOf | src/de.hpi.swa.graal.squeak/src/de/hpi/swa/graal/squeak/util/ArrayConversionUtils.java:59 | the packed shorts are 2 bytes each |
| ArrayConversions.IntsFromBytesOf | src/de.hpi.swa.graal.squeak/src/de/hpi/swa/graal/squeak/util/ArrayConversionUtils.java:71 | there are bytes.length / 4 ints |
| ArrayConversions.IntsFromBytesReversedOf | src/de.hpi.swa.graal.squeak/src/de/hpi/swa/graal/squeak/util/ArrayConversionUtils.java:81 | there are bytes.length / 4 ints |
| ArrayConversions.LongsFromBytesOf | src/de.hpi.swa.graal.squeak/src/de/hpi/swa/graal/squeak/util/ArrayConversionUtils.java:91 | there are bytes.length / 8 longs |
| ArrayConversions.LongsFromBytesReversedOf | src/de.hpi.swa.graal.squeak/src/de/hpi/swa/graal/squeak/util/ArrayConversionUtils.java:102 | there are bytes.length / 8 longs |
| ArrayConversions.ShortsFromBytesOf | src/de.hpi.swa.graal.squeak/src/de/hpi/swa/graal/squeak/util/ArrayConversionUtils.java:113 | there are bytes.length / 2 shorts |
| ArrayConversions.ShortsFromBytesReversedOf | src/de.hpi.swa.graal.squeak/src/de/hpi/swa/graal/squeak/util/ArrayConversionUtils.java:123 | there are bytes.length / 2 shorts |
| ArrayConversions.ReversedGroup | src/de.hpi.swa.graal.squeak/src/de/hpi/swa/graal/squeak/util/ArrayConversionUtils.java:104-107 | an 8-byte group read backwards has 8 bytes |
| ArrayConversions.ReverseGroups | src/de.hpi.swa.graal.squeak/src/de/hpi/swa/graal/squeak/util/ArrayConversionUtils.java:80-88 | reversing each group keeps the length |
| ArrayConversions.GroupSourceInRange | src/de.hpi.swa.graal.squeak/src/de/hpi/swa/graal/squeak/util/ArrayConversionUtils.java:80-88 | the mirrored index inside a whole group is in range |
| ArrayConversions.GroupOffset8 | src/de.hpi.swa.graal.squeak/src/de/hpi/swa/graal/squeak/util/ArrayConversionUtils.java:28-35 | byte k of long i sits at 8i+k |
| ArrayConversions.GroupOffset4 | src/de.hpi.swa.graal.squeak/src/de/hpi/swa/graal/squeak/util/ArrayConversionUtils.java:14-17 | byte k of int i sits at 4i+k |
| ArrayConversions.BytesFromIntsLayout | src/de.hpi.swa.graal.squeak/src/de/hpi/swa/graal/squeak/util/ArrayConversionUtils.java:8-20 | bytesFromInts gives 4n bytes, and bytes 4i..4i+3 are ints[i] big-endian, its most significant byte at 4i |
| ArrayConversions.IntsRoundTrip | src/de.hpi.swa.graal.squeak/src/de/hpi/swa/graal/squeak/util/ArrayConversionUtils.java:70-78 | intsFromBytes(bytesFromInts(a)) == a |
| ArrayConversions.BytesFromLongsLayout | src/de.hpi.swa.graal.squeak/src/de/hpi/swa/graal/squeak/util/ArrayConversionUtils.java:22-38 | bytes 8i..8i+7 are longs[i] big-endian |
| ArrayConversions.LongsRoundTrip | src/de.hpi.swa.graal.squeak/src/de/hpi/swa/graal/squeak/util/ArrayConversionUtils.java:90-99 | longsFromBytes(bytesFromLongs(a)) == a |
| ArrayConversions.BytesFromShortsLayout | src/de.hpi.swa.graal.squeak/src/de/hpi/swa/graal/squeak/util/ArrayConversionUtils.java:58-68 | bytes 2i and 2i+1 are shorts[i] big-endian |
| ArrayConversions.ShortsRoundTrip | src/de.hpi.swa.graal.squeak/src/de/hpi/swa/graal/squeak/util/ArrayConversionUtils.java:112-120 | shortsFromBytes(bytesFromShorts(a)) == a |
| ArrayConversions.LongsReversedIsGroupReversal | src/de.hpi.swa.graal.squeak/src/de/hpi/swa/graal/squeak/util/ArrayConversionUtils.java:40-56 | bytesFromLongsReversed is bytesFromLongs with each 8-byte group reversed |
| ArrayConversions.ReversedGroupOfReversedBytes | src/de.hpi.swa.graal.squeak/src/de/hpi/swa/graal/squeak/util/ArrayConversionUtils.java:101-110 | reading a reversed long group backwards gives the long's big-endian bytes |
| ArrayConversions.LongsReversedRoundTrip | src/de.hpi.swa.graal.squeak/src/de/hpi/swa/graal/squeak/util/ArrayConversionUtils.java:101-110 | longsFromBytesReversed(bytesFromLongsReversed(a)) == a |
| ArrayConversions.IntsReversedIsGroupReversal | src/de.hpi.swa.graal.squeak/src/de/hpi/swa/graal/squeak/util/ArrayConversionUtils.java:80-88 | intsFromBytesReversed(b) is intsFromBytes of b with each 4-byte group reversed: it reads little-endian |
| ArrayConversions.ShortsReversedIsGroupReversal | src/de.hpi.swa.graal.squeak/src/de/hpi/swa/graal/squeak/util/ArrayConversionUtils.java:122-130 | shortsFromBytesReversed(b) is shortsFromBytes of b with each byte pair swapped |
| ArrayConversions.IntsIgnoreTrailingBytes | src/de.hpi.swa.graal.squeak/src/de/hpi/swa/graal/squeak/util/ArrayConversionUtils.java:71 | fewer than 4 trailing bytes do not change the decoded ints |
| ArrayConversions.LongsIgnoreTrailingBytes | src/de.hpi.swa.graal.squeak/src/de/hpi/swa/graal/squeak/util/ArrayConversionUtils.java:91 | fewer than 8 trailing bytes do not change the decoded longs |
| ArrayConversions.ShortsIgnoreTrailingBytes | src/de.hpi.swa.graal.squeak/src/de/hpi/swa/graal/squeak/util/ArrayConversionUtils.java:113 | fewer than 2 trailing bytes do not change the decoded shorts |
| ArrayConversions.BytesFromLongsReversedLayout | src/de.hpi.swa.graal.squeak/src/de/hpi/swa/graal/squeak/util/ArrayConversionUtils.java:40-56 | bytes 8i..8i+7 are longs[i] little-endian |
| ArrayConversions.LongBytesReversed | src/de.hpi.swa.graal.squeak/src/de/hpi/swa/graal/squeak/util/ArrayConversionUtils.java:45-52 | a long's bytes read backwards are its little-endian bytes, least significant first |
| ArrayConversions.BytesFromInts | src/de.hpi.swa.graal.squeak/src/de/hpi/swa/graal/squeak/util/ArrayConversionUtils.java:8-20 | the loop fills a fresh array with exactly the specification's bytes |
| ArrayConversions.BytesFromLongs | src/de.hpi.swa.graal.squeak/src/de/hpi/swa/graal/squeak/util/ArrayConversionUtils.java:22-38 | the loop fills a fresh array with exactly the specification's bytes |
| ArrayConversions.StoreLong | src/de.hpi.swa.graal.squeak/src/de/hpi/swa/graal/squeak/util/ArrayConversionUtils.java:28-35 | one loop body writes a long's 8 big-endian bytes at its offset and nothing else |
| ArrayConversions.BytesFromLongsReversed | src/de.hpi.swa.graal.squeak/src/de/hpi/swa/graal/squeak/util/ArrayConversionUtils.java:40-56 | the loop fills a fresh array with exactly the specification's bytes |
| ArrayConversions.StoreLongReversed | src/de.hpi.swa.graal.squeak/src/de/hpi/swa/graal/squeak/util/ArrayConversionUtils.java:45-52 | one loop body writes a long's 8 little-endian bytes at its offset and nothing else |
| ArrayConversions.BytesFromShorts | src/de.hpi.swa.graal.squeak/src/de/hpi/swa/graal/squeak/util/ArrayConversionUtils.java:58-68 | the loop fills a fresh array with exactly the specification's bytes |
| ArrayConversions.IntsFromBytes | src/de.hpi.swa.graal.squeak/src/de/hpi/swa/graal/squeak/util/ArrayConversionUtils.java:70-78 | the loop fills a fresh array with exactly the specification's ints |
| ArrayConversions.IntsFromBytesReversed | src/de.hpi.swa.graal.squeak/src/de/hpi/swa/graal/squeak/util/ArrayConversionUtils.java:80-88 | the loop fills a fresh array with exactly the specification's ints |
| ArrayConversions.LongsFromBytes | src/de.hpi.swa.graal.squeak/src/de/hpi/swa/graal/squeak/util/ArrayConversionUtils.java:90-99 | the loop fills a fresh array with exactly the specification's longs |
| ArrayConversions.LongsFromBytesReversed | src/de.hpi.swa.graal.squeak/src/de/hpi/swa/graal/squeak/util/ArrayConversionUtils.java:101-110 | the loop fills a fresh array with exactly the specification's longs |
| ArrayConversions.ShortsFromBytes | src/de.hpi.swa.graal.squeak/src/de/hpi/swa/graal/squeak/util/ArrayConversionUtils.java:112-120 | the loop fills a fresh array with exactly the specification's shorts |
| ArrayConversions.ShortsFromBytesReversed | src/de.hpi.swa.graal.squeak/src/de/hpi/swa/graal/squeak/util/ArrayConversionUtils.java:122-130 | the loop fills a fresh array with exactly the specification's shorts |
| ClassObjects.BasicInstanceSizeOf | src/de.hpi.swa.graal.squeak/src/de/hpi/swa/graal/squeak/model/ClassObject.java:358-360 | the basic instance size is in 0..65535 |
| ClassObjects.InstanceSpecificationOf | src/de.hpi.swa.graal.squeak/src/de/hpi/swa/graal/squeak/model/ClassObject.java:362-364 | the instance specification is in 0..31 |
| ClassObjects.FormatFields | src/de.hpi.swa.graal.squeak/src/de/hpi/swa/graal/squeak/model/ClassObject.java:358-364 | a format word is its high bits, its spec field and its size field put back together |
| ClassObjects.FormatRoundTrip | src/de.hpi.swa.graal.squeak/src/de/hpi/swa/graal/squeak/model/ClassObject.java:358-364 | a format word built from a spec below 32 and a size below 65536 decodes to them |
| ClassObjects.ClassObject.constructor | src/de.hpi.swa.graal.squeak/src/de/hpi/swa/graal/squeak/model/ClassObject.java:82-85 | a new class has no superclass, method dictionary, instance variables or organisation; its format is -1 and its size-5 other pointers are nil |
| ClassObjects.ClassObject.BasicInstanceSize | src/de.hpi.swa.graal.squeak/src/de/hpi/swa/graal/squeak/model/ClassObject.java:358-360 | the class's basic instance size is in 0..65535 |
| ClassObjects.ClassObject.InstanceSpecification | src/de.hpi.swa.graal.squeak/src/de/hpi/swa/graal/squeak/model/ClassObject.java:362-364 | the class's instance specification is in 0..31 |
| ClassObjects.ClassObject.Size | src/de.hpi.swa.graal.squeak/src/de/hpi/swa/graal/squeak/model/ClassObject.java:607-610 | size is the 5 class-description fields plus the other pointers |
| ClassObjects.ClassObject.GetOtherPointer | src/de.hpi.swa.graal.squeak/src/de/hpi/swa/graal/squeak/model/ClassObject.java:311-313 | index i names pointers[i - 5] and fails exactly outside that range |
| ClassObjects.ClassObject.At0 | src/de.hpi.swa.graal.squeak/src/de/hpi/swa/graal/squeak/model/ClassObject.java:505-552 | the superclass reads as nil when null, the format as a long, indices from 5 on as other pointers; a read succeeds exactly for 0 <= index < size |
| ClassObjects.ClassObject.SetFormat | src/de.hpi.swa.graal.squeak/src/de/hpi/swa/graal/squeak/model/ClassObject.java:242-245 | the format is stored and only the class-format token is invalidated |
| ClassObjects.ClassObject.SetSuperclass | src/de.hpi.swa.graal.squeak/src/de/hpi/swa/graal/squeak/model/ClassObject.java:331-334 | the superclass is stored and only the class-hierarchy token is invalidated |
| ClassObjects.ClassObject.SetMethodDict | src/de.hpi.swa.graal.squeak/src/de/hpi/swa/graal/squeak/model/ClassObject.java:336-339 | the method dictionary is stored and only the method-dictionary token is invalidated |
| ClassObjects.ClassObject.InvalidateMethodDictStableAssumption | src/de.hpi.swa.graal.squeak/src/de/hpi/swa/graal/squeak/model/ClassObject.java:427-429 | only the method-dictionary token is invalidated; no field changes |
| ClassObjects.ClassObject.SetInstanceVariables | src/de.hpi.swa.graal.squeak/src/de/hpi/swa/graal/squeak/model/ClassObject.java:295-297 | the instance variables are stored and no token changes |
| ClassObjects.ClassObject.SetOrganization | src/de.hpi.swa.graal.squeak/src/de/hpi/swa/graal/squeak/model/ClassObject.java:307-309 | the organisation is stored and no token changes |
| ClassObjects.ClassObject.SetOtherPointers | src/de.hpi.swa.graal.squeak/src/de/hpi/swa/graal/squeak/model/ClassObject.java:323-325 | the other pointers are stored and no token changes |
| ClassObjects.ClassObject.Atput0 | src/de.hpi.swa.graal.squeak/src/de/hpi/swa/graal/squeak/model/ClassObject.java:554-600 | a write succeeds exactly when a specialisation accepts the index and value kind, and then reads back the value (nil for a null superclass); a failed write changes nothing; each token moves only when its own field is written; every other field, and every pointer slot other than the one written, is unchanged |
| ClassObjects.ClassObject.Become | src/de.hpi.swa.graal.squeak/src/de/hpi/swa/graal/squeak/model/ClassObject.java:389-417 | two distinct classes swap superclass, method dictionary, format, instance variables, organisation and pointers, and each token is invalidated on both sides |
| ClassObjects.ClassObject.ListMethods | src/de.hpi.swa.graal.squeak/src/de/hpi/swa/graal/squeak/model/ClassObject.java:341-356 | the loop up the superclass chain yields the specification's selector list |
| ClassObjects.Selectors | src/de.hpi.swa.graal.squeak/src/de/hpi/swa/graal/squeak/model/ClassObject.java:345-352 | the collected selectors contain no nil |
| ClassObjects.SelectorsMembers | src/de.hpi.swa.graal.squeak/src/de/hpi/swa/graal/squeak/model/ClassObject.java:345-352 | a value is collected iff it is a non-nil slot from METHOD_DICT.NAMES up |
| ClassObjects.MethodsOfChainMembers | src/de.hpi.swa.graal.squeak/src/de/hpi/swa/graal/squeak/model/ClassObject.java:341-356 | the listing fails iff some class on the chain has no method dictionary; otherwise a value is listed iff it is a selector of some class on the chain |
| ClassObjects.ListingStartsWithOwnClass | src/de.hpi.swa.graal.squeak/src/de/hpi/swa/graal/squeak/model/ClassObject.java:343-348 | the listing starts with the receiver's own selectors |
| ClassObjects.FormatClassification | src/de.hpi.swa.graal.squeak/src/de/hpi/swa/graal/squeak/model/ClassObject.java:113-176 | isVariable iff spec in {2,3,4} or spec >= 9; isFixed is its negation; isPointers iff spec < 7; isCompiledMethodClassType implies isBytes implies isBits |
| ClassObjects.BecomeTwice | src/de.hpi.swa.graal.squeak/src/de/hpi/swa/graal/squeak/model/ClassObject.java:389-417 | become done twice restores both classes' fields |
| PointersObjectNodes.Evolve | src/de.hpi.swa.graal.squeak/src/de/hpi/swa/graal/squeak/nodes/accessing/AbstractPointersObjectNodes.java:124 | the evolved location can store the value, is at least as general as the old one, and equals it when it could already store the value |
| PointersObjectNodes.ReadLocation | src/de.hpi.swa.graal.squeak/src/de/hpi/swa/graal/squeak/nodes/accessing/AbstractPointersObjectNodes.java:54 | a location reads the value it holds |
| PointersObjectNodes.StoreHolds | src/de.hpi.swa.graal.squeak/src/de/hpi/swa/graal/squeak/nodes/accessing/AbstractPointersObjectNodes.java:122 | a value a location can store is then held by it |
| PointersObjectNodes.HoldsUnderGeneralisation | src/de.hpi.swa.graal.squeak/src/de/hpi/swa/graal/squeak/nodes/accessing/AbstractPointersObjectNodes.java:66 | moving a field to a more general location keeps its value representable |
| PointersObjectNodes.LayoutGeneralisesTransitive | src/de.hpi.swa.graal.squeak/src/de/hpi/swa/graal/squeak/nodes/accessing/AbstractPointersObjectNodes.java:124 | successive layout evolutions still generalise the first layout |
| PointersObjectNodes.ClassLayout.constructor | src/de.hpi.swa.graal.squeak/src/de/hpi/swa/graal/squeak/nodes/accessing/AbstractPointersObjectNodes.java:105-110 | a class's first layout has only uninitialised locations |
| PointersObjectNodes.AbstractPointersObject.constructor | src/de.hpi.swa.graal.squeak/src/de/hpi/swa/graal/squeak/model/PointersObject.java:26-28 | a new object takes its class's layout and all its fields are nil |
| PointersObjectNodes.AbstractPointersObject.CopyOf | src/de.hpi.swa.graal.squeak/src/de/hpi/swa/graal/squeak/model/PointersObject.java:30-32 | a copy has the original's class, layout and field values |
| PointersObjectNodes.AbstractPointersObject.UpdateLayout | src/de.hpi.swa.graal.squeak/src/de/hpi/swa/graal/squeak/nodes/accessing/AbstractPointersObjectNodes.java:66 | the object moves to its class's current layout and keeps every value |
| PointersObjectNodes.AbstractPointersObject.UpdateLayoutFor | src/de.hpi.swa.graal.squeak/src/de/hpi/swa/graal/squeak/nodes/accessing/AbstractPointersObjectNodes.java:124 | the class's location for the index evolves to store the value, only that location changes, and the object moves to the new layout with its values kept |
| PointersObjectNodes.AbstractPointersObject.WriteLocation | src/de.hpi.swa.graal.squeak/src/de/hpi/swa/graal/squeak/nodes/accessing/AbstractPointersObjectNodes.java:122 | a write the location accepts stores the value and keeps the layout |
| PointersObjectNodes.Read | src/de.hpi.swa.graal.squeak/src/de/hpi/swa/graal/squeak/nodes/accessing/AbstractPointersObjectNodes.java:57-68 | an invalid layout is refreshed first; the field's value is returned; the values are unchanged; a valid layout stays the same |
| PointersObjectNodes.Write | src/de.hpi.swa.graal.squeak/src/de/hpi/swa/graal/squeak/nodes/accessing/AbstractPointersObjectNodes.java:118-135 | after the write the layout is valid, the field holds the value, its location can store it, and the class's layout changes exactly by evolving that location |
| PointersObjectNodes.WriteKeepsLayoutWhenStorable | src/de.hpi.swa.graal.squeak/src/de/hpi/swa/graal/squeak/nodes/accessing/AbstractPointersObjectNodes.java:118-122 | a write the current location accepts leaves the class's layout alone |
| PointersObjectNodes.WriteIntoUninitializedEvolves | src/de.hpi.swa.graal.squeak/src/de/hpi/swa/graal/squeak/nodes/accessing/AbstractPointersObjectNodes.java:102-116 | a write into an uninitialised location always gives the class a new, more general layout |
| PointersObjectNodes.VariablePointersObject.constructor | src/de.hpi.swa.graal.squeak/src/de/hpi/swa/graal/squeak/nodes/accessing/AbstractPointersObjectNodes.java:143 | a variable object, as the read and write nodes see it, is its named part and its variable part |
| PointersObjectNodes.VariableRead | src/de.hpi.swa.graal.squeak/src/de/hpi/swa/graal/squeak/nodes/accessing/AbstractPointersObjectNodes.java:145-161 | an index below instsize reads the named field; any other reads the variable part at index - instsize |
| PointersObjectNodes.VariableWrite | src/de.hpi.swa.graal.squeak/src/de/hpi/swa/graal/squeak/nodes/accessing/AbstractPointersObjectNodes.java:175-191 | an index below instsize writes only the named field; any other writes only the variable part at index - instsize |
| PointersObjects.At0 | src/de.hpi.swa.graal.squeak/src/de/hpi/swa/graal/squeak/model/PointersObject.java:53-58 | an invalid layout is refreshed; the field's value is returned and nothing else changes |
| PointersObjects.Atput0 | src/de.hpi.swa.graal.squeak/src/de/hpi/swa/graal/squeak/model/PointersObject.java:60-66 | the field holds the value; the layout evolves exactly when the location could not store it, and then the write succeeds |
| PointersObjects.Size | src/de.hpi.swa.graal.squeak/src/de/hpi/swa/graal/squeak/model/PointersObject.java:68-71 | size() is instsize() |
| PointersObjects.Create | src/de.hpi.swa.graal.squeak/src/de/hpi/swa/graal/squeak/model/PointersObject.java:34-40 | the new object's field i holds pointers[i] and the rest are nil |
| PointersObjects.IsEmptyList | src/de.hpi.swa.graal.squeak/src/de/hpi/swa/graal/squeak/model/PointersObject.java:81-83 | a list is empty iff its first link is nil |
| PointersObjects.RemoveFirstLinkOfList | src/de.hpi.swa.graal.squeak/src/de/hpi/swa/graal/squeak/model/PointersObject.java:93-105 | the old first link is returned with its next link cleared; a one-link list becomes empty; otherwise the first link becomes the old first's successor and the last link is kept; a nil first link fails the cast and changes nothing |
| PointersObjects.SetLink | src/de.hpi.swa.graal.squeak/src/de/hpi/swa/graal/squeak/model/PointersObject.java:98-101 | writing a list field keeps the first link (which may share the class) valid and unchanged |
| PointersObjects.ClearNextLink | src/de.hpi.swa.graal.squeak/src/de/hpi/swa/graal/squeak/model/PointersObject.java:103 | clearing the link's next field keeps the list valid and unchanged |
| WeakPointersObjects.WeakPointersObject.constructor | src/de.hpi.swa.graal.squeak/src/de/hpi/swa/graal/squeak/model/WeakPointersObject.java:30-34 | a new object has variableSize variable slots, all reading as nil, and size is instsize plus variableSize |
| WeakPointersObjects.WeakPointersObject.GetFromVariablePart | src/de.hpi.swa.graal.squeak/src/de/hpi/swa/graal/squeak/model/WeakPointersObject.java:90-92 | a cleared slot reads as nil and a live one as its referent |
| WeakPointersObjects.WeakPointersObject.CopyOf | src/de.hpi.swa.graal.squeak/src/de/hpi/swa/graal/squeak/model/WeakPointersObject.java:36-39 | the copy has fresh storage with the original's named values and variable slots |
| WeakPointersObjects.WeakPointersObject.PutIntoVariablePart | src/de.hpi.swa.graal.squeak/src/de/hpi/swa/graal/squeak/model/WeakPointersObject.java:98-100 | only the slot is replaced, and it reads back the value |
| WeakPointersObjects.WeakPointersObject.ClearReferent | src/de.hpi.swa.graal.squeak/src/de/hpi/swa/graal/squeak/model/WeakPointersObject.java:90-92 | a slot whose referent the collector cleared reads as nil |
| WeakPointersObjects.WeakPointersObject.BecomeAsWritten | src/de.hpi.swa.graal.squeak/src/de/hpi/swa/graal/squeak/model/WeakPointersObject.java:57-66 | as written, both objects end with this object's old slots |
| WeakPointersObjects.WeakPointersObject.Become | src/de.hpi.swa.graal.squeak/src/de/hpi/swa/graal/squeak/model/WeakPointersObject.java:57-66 | the corrected become swaps the variable-part contents in place and keeps both arrays |
| WeakPointersObjects.WeakPointersObject.PointersBecomeOneWay | src/de.hpi.swa.graal.squeak/src/de/hpi/swa/graal/squeak/model/WeakPointersObject.java:73-88 | the nested loops compute the specification's slot replacement |
| WeakPointersObjects.WeakPointersObject.PointsTo | src/de.hpi.swa.graal.squeak/src/de/hpi/swa/graal/squeak/model/WeakPointersObject.java:102-104 | true iff a named field or a live variable slot holds the value |
| WeakPointersObjects.WeakPointersObject.VariablePartPointsTo | src/de.hpi.swa.graal.squeak/src/de/hpi/swa/graal/squeak/model/WeakPointersObject.java:106-113 | true iff some slot's referent is the value |
| WeakPointersObjects.WeakPointersObject.ShallowCopy | src/de.hpi.swa.graal.squeak/src/de/hpi/swa/graal/squeak/model/WeakPointersObject.java:121-123 | the copy is fresh and has equal named values and slots |
| WeakPointersObjects.WeakPointersObject.Fillin | src/de.hpi.swa.graal.squeak/src/de/hpi/swa/graal/squeak/model/WeakPointersObject.java:42-55 | the first instsize chunk values become the named fields, the rest become fresh weak slots, and size equals the chunk length |
| WeakPointersObjects.WeakRead | src/de.hpi.swa.graal.squeak/src/de/hpi/swa/graal/squeak/nodes/accessing/AbstractPointersObjectNodes.java:201-219 | the named/variable split of the weak read node, with a cleared slot reading as nil |
| WeakPointersObjects.WeakWrite | src/de.hpi.swa.graal.squeak/src/de/hpi/swa/graal/squeak/nodes/accessing/AbstractPointersObjectNodes.java:233-249 | the named/variable split of the weak write node |
| WeakPointersObjects.ArrayCopy | src/de.hpi.swa.graal.squeak/src/de/hpi/swa/graal/squeak/model/WeakPointersObject.java:64-65 | System.arraycopy copies the source's old contents over the destination's front and keeps the rest |
| WeakPointersObjects.BecomeAsWrittenLosesSlots | src/de.hpi.swa.graal.squeak/src/de/hpi/swa/graal/squeak/model/WeakPointersObject.java:57-66 | one-slot objects holding nil and another object both end with nil |
| WeakPointersObjects.BecomeSwapsSlots | src/de.hpi.swa.graal.squeak/src/de/hpi/swa/graal/squeak/model/WeakPointersObject.java:57-66 | the same inputs are swapped by the corrected become |
| WeakPointersObjects.ShallowCopyIsIndependent | src/de.hpi.swa.graal.squeak/src/de/hpi/swa/graal/squeak/model/WeakPointersObject.java:36-39 | a write into the copy's variable part leaves the original's slots unchanged |
| WeakPointersObjects.ReplacePass | src/de.hpi.swa.graal.squeak/src/de/hpi/swa/graal/squeak/model/WeakPointersObject.java:79-85 | one pass over the slots keeps their number |
| WeakPointersObjects.BecomeOneWayLength | src/de.hpi.swa.graal.squeak/src/de/hpi/swa/graal/squeak/model/WeakPointersObject.java:73-88 | one-way become keeps the number of slots |
| WeakPointersObjects.BecomeOneWayKeepsUnmatched | src/de.hpi.swa.graal.squeak/src/de/hpi/swa/graal/squeak/model/WeakPointersObject.java:73-88 | a slot that is no from-entry and no to-entry it could become is unchanged |
| WeakPointersObjects.BecomeOneWayRedirectsMatched | src/de.hpi.swa.graal.squeak/src/de/hpi/swa/graal/squeak/model/WeakPointersObject.java:77-85 | a slot equal to some from[i] ends holding some to-entry |
| WeakPointersObjects.BecomeOneWayKeepsUnmatchedOrRedirected | src/de.hpi.swa.graal.squeak/src/de/hpi/swa/graal/squeak/model/WeakPointersObject.java:73-88 | every slot ends either unchanged or holding some to-entry |
| WeakPointersObjects.BecomeOneWayOneToOne | src/de.hpi.swa.graal.squeak/src/de/hpi/swa/graal/squeak/model/WeakPointersObject.java:77-85 | when the from-entries are distinct and no to-entry is a from-entry, slot j == from[i] ends as to[i] |
| ExecuteTopLevelContextNode.PositionIn | src/de.hpi.swa.trufflesqueak/src/de/hpi/swa/trufflesqueak/nodes/ExecuteTopLevelContextNode.java:132 | the position of a context on the sender chain is its first occurrence, or the chain length when absent |
| ExecuteTopLevelContextNode.FirstMarked | src/de.hpi.swa.trufflesqueak/src/de/hpi/swa/trufflesqueak/nodes/ExecuteTopLevelContextNode.java:162-174 | the first closure-less unwind-marked context in a chain segment, or the segment end |
| ExecuteTopLevelContextNode.ReturnTo | src/de.hpi.swa.trufflesqueak/src/de/hpi/swa/trufflesqueak/nodes/ExecuteTopLevelContextNode.java:111-124 | a nil sender is a top-level return with the value; a primitive-context sender is skipped, and fails the cast without changing it when its own sender is nil; the value is pushed on the chosen context, which becomes active |
| ExecuteTopLevelContextNode.CommonNLReturnAsWritten | src/de.hpi.swa.trufflesqueak/src/de/hpi/swa/trufflesqueak/nodes/ExecuteTopLevelContextNode.java:127-144 | as written, an on-chain target is reached by terminating everything before it; an off-chain target terminates the whole chain and the cast of the final nil sender fails |
| ExecuteTopLevelContextNode.CommonNLReturn | src/de.hpi.swa.trufflesqueak/src/de/hpi/swa/trufflesqueak/nodes/ExecuteTopLevelContextNode.java:127-144 | a nil sender is a top-level return; otherwise each context from the sender to the target is terminated (stopping at a nil sender), the value is pushed on the target and the target becomes active |
| ExecuteTopLevelContextNode.CommonReturn | src/de.hpi.swa.trufflesqueak/src/de/hpi/swa/trufflesqueak/nodes/ExecuteTopLevelContextNode.java:147-187 | a non-returnable target gives a top-level return (start == target) or cannotReturn; a walk reaching nil gives cannotReturn; the first marked context gets aboutToReturn; these change nothing; otherwise the contexts before the target are terminated and the value is pushed on it |
| ExecuteTopLevelContextNode.EnsureCachedContextCanRunAgain | src/de.hpi.swa.trufflesqueak/src/de/hpi/swa/trufflesqueak/nodes/ExecuteTopLevelContextNode.java:214-227 | ip and sp are reset to the initial pc and numTemps exactly when ip is not 0 |
| ContextObjects.Context.Terminated | src/de.hpi.swa.trufflesqueak/src/de/hpi/swa/trufflesqueak/nodes/MaterializeContextOnMethodExitNode.java:43 | a terminated context (no pc, no sender) can never be returned to |
| ContextObjects.Context.Terminate | src/de.hpi.swa.trufflesqueak/src/de/hpi/swa/trufflesqueak/nodes/ExecuteTopLevelContextNode.java:139 | the context becomes terminated with pc -1; its stack and escape flag are unchanged |
| ContextObjects.Context.SetSender | src/de.hpi.swa.trufflesqueak/src/de/hpi/swa/trufflesqueak/nodes/MaterializeContextOnMethodExitNode.java:41 | the sender becomes the given context and is materialised; nothing else changes |
| ExecuteTopLevelContextNode.ExecuteLoopStep | src/de.hpi.swa.trufflesqueak/src/de/hpi/swa/trufflesqueak/nodes/ExecuteTopLevelContextNode.java:88-107 | one round of the driver resets lastSeenContext and, for each control signal, gives the outcome and the new state: a process switch resumes the new context and changes no context; a local return pushes the result on the sender, or on the sender's sender when the sender is a primitive context, and resumes it, or fails the cast at nil and changes nothing; a non-local return terminates the chain up to the target, pushes the value there and resumes it, leaving the chain past it unchanged, and when the target is off the chain terminates the whole chain and fails the cast (the unwind as written); a non-virtual return does the same unwind after checking for unwind-marked contexts, and an aboutToReturn or cannotReturn outcome changes nothing |
| ExecuteTopLevelContextNode.NLReturnAsWrittenFailsOffChain | src/de.hpi.swa.trufflesqueak/src/de/hpi/swa/trufflesqueak/nodes/ExecuteTopLevelContextNode.java:135 | a lone context unwound towards a stranger is terminated, and the cast fails |
| ExecuteTopLevelContextNode.NLReturnStopsAtNilSender | src/de.hpi.swa.trufflesqueak/src/de/hpi/swa/trufflesqueak/nodes/ExecuteTopLevelContextNode.java:133-138 | with the currentSender guard, the same unwind stops at the nil sender and returns the value to the target |
| MaterializeContextOnMethodExitNode.Execute | src/de.hpi.swa.trufflesqueak/src/de/hpi/swa/trufflesqueak/nodes/MaterializeContextOnMethodExitNode.java:25-59 | with nothing pending an escaped context starts materialisation; a pending context gets a different current context as sender if its own is unmaterialised, and the pointer moves on iff that context is alive and escaped; otherwise nothing changes; the pending context is always escaped |
| MaterializeContextOnMethodExitNode.ExitFrames | src/de.hpi.swa.trufflesqueak/src/de/hpi/swa/trufflesqueak/nodes/MaterializeContextOnMethodExitNode.java:36-49 | exiting a stack of escaped frames links each to the next one out, one link per exit, and leaves the outermost pending |
| ContextObjectNodes.MaterializedContext.At0 | src/de.hpi.swa.graal.squeak/src/de/hpi/swa/graal/squeak/nodes/accessing/ContextObjectNodes.java:37-38 | a field of the materialised context reads as the value last stored at that index, and as nil if none was |
| ContextObjectNodes.MaterializedContext.Atput0 | src/de.hpi.swa.graal.squeak/src/de/hpi/swa/graal/squeak/nodes/accessing/ContextObjectNodes.java:125-128 | a materialised field write stores the value at that index only |
| ContextObjectNodes.PCValue | src/de.hpi.swa.graal.squeak/src/de/hpi/swa/graal/squeak/nodes/accessing/ContextObjectNodes.java:52-67 | the pc reads as nil iff the slot is negative, and otherwise as a Java int |
| ContextObjectNodes.PCSlot | src/de.hpi.swa.graal.squeak/src/de/hpi/swa/graal/squeak/nodes/accessing/ContextObjectNodes.java:142-153 | a written pc is stored as the int (int) v - initialPC |
| ContextObjectNodes.StackValue | src/de.hpi.swa.graal.squeak/src/de/hpi/swa/graal/squeak/nodes/accessing/ContextObjectNodes.java:99-108 | a stack read fails iff the slot index is negative and returns the slot for an index inside the stack |
| ContextObjectNodes.Read | src/de.hpi.swa.graal.squeak/src/de/hpi/swa/graal/squeak/nodes/accessing/ContextObjectNodes.java:28-113 | a read through a foreign marker is the materialised context's field; only a virtualised read can fail, and then with the unexpected-values error; a virtualised stack field inside the stack reads its slot |
| ContextObjectNodes.Write | src/de.hpi.swa.graal.squeak/src/de/hpi/swa/graal/squeak/nodes/accessing/ContextObjectNodes.java:116-196 | foreign-marker and sender writes go to the materialised context; each virtualised field accepts only its specialisations' value kinds and changes only its own frame slot; everything else fails and changes nothing |
| ContextObjectNodes.ReadFailsOnlyOnBadIndex | src/de.hpi.swa.graal.squeak/src/de/hpi/swa/graal/squeak/nodes/accessing/ContextObjectNodes.java:36-113 | a read fails iff it is virtualised and its index is negative or denotes a negative stack slot |
| ContextObjectNodes.ReadPastStackIsNil | src/de.hpi.swa.graal.squeak/src/de/hpi/swa/graal/squeak/nodes/accessing/ContextObjectNodes.java:103-104 | a stack field past the stack slots reads as nil |
| ContextObjectNodes.NilPCRoundTrip | src/de.hpi.swa.graal.squeak/src/de/hpi/swa/graal/squeak/nodes/accessing/ContextObjectNodes.java:137-140 | a nil pc is stored as -1, which reads as nil |
| ContextObjectNodes.PCRoundTrip | src/de.hpi.swa.graal.squeak/src/de/hpi/swa/graal/squeak/nodes/accessing/ContextObjectNodes.java:142-153 | a pc v >= initialPC is stored as v - initialPC and reads back as v |
| ContextObjectNodes.PCBelowInitialReadsNil | src/de.hpi.swa.graal.squeak/src/de/hpi/swa/graal/squeak/nodes/accessing/ContextObjectNodes.java:142-153 | a pc written below the initial pc is stored negative and reads as nil |
| ContextObjectNodes.SPRoundTrip | src/de.hpi.swa.graal.squeak/src/de/hpi/swa/graal/squeak/nodes/accessing/ContextObjectNodes.java:70-73 | a stack pointer that fits an int reads back unchanged |
| ContextObjectNodes.MaterializedRoundTrip | src/de.hpi.swa.graal.squeak/src/de/hpi/swa/graal/squeak/nodes/accessing/ContextObjectNodes.java:36-39 | through a foreign marker, a written field reads back |
| ContextObjectNodes.VirtualPCRoundTrip | src/de.hpi.swa.graal.squeak/src/de/hpi/swa/graal/squeak/nodes/accessing/ContextObjectNodes.java:142-153 | through the frame's own marker, a written pc at or above the initial pc reads back |
| FrameStackReadNode.Create | src/de.hpi.swa.trufflesqueak/src/de/hpi/swa/trufflesqueak/nodes/context/frame/FrameStackReadNode.java:31-52 | an index below numArgs is an argument read at argumentStart + index; otherwise a slot read at index - numArgs that clears iff clear and index >= initialSP |
| FrameStackReadNode.CreateTemporaryReadNode | src/de.hpi.swa.trufflesqueak/src/de/hpi/swa/trufflesqueak/nodes/context/frame/FrameStackReadNode.java:54-61 | a temporary read never clears |
| FrameStackReadNode.TemporaryReadIsNonClearingCreate | src/de.hpi.swa.trufflesqueak/src/de/hpi/swa/trufflesqueak/nodes/context/frame/FrameStackReadNode.java:31-61 | a temporary read node is the non-clearing create node |
| FrameStackReadNode.NoClearBelowInitialSP | src/de.hpi.swa.trufflesqueak/src/de/hpi/swa/trufflesqueak/nodes/context/frame/FrameStackReadNode.java:47-51 | arguments and temporaries are never read by a clearing node |
| FrameStackReadNode.ClearingReadsAreStackValues | src/de.hpi.swa.trufflesqueak/src/de/hpi/swa/trufflesqueak/nodes/context/frame/FrameStackReadNode.java:37-51 | in a frame of the asserted shape, a clearing read's slot lies above the temporaries |
| FrameStackReadNode.AsObjectSlot | src/de.hpi.swa.trufflesqueak/src/de/hpi/swa/trufflesqueak/nodes/context/frame/FrameStackReadNode.java:105-109 | re-storing a slot as an object keeps its value |
| FrameStackReadNode.ExecuteRead | src/de.hpi.swa.trufflesqueak/src/de/hpi/swa/trufflesqueak/nodes/context/frame/FrameStackReadNode.java:63-161 | an argument read returns the argument; a slot read returns the slot's value; the primitive specialisations stay active exactly while they meet primitives, leaving the slot untouched; once replaced, a non-clearing read re-stores the value as an object and a clearing read clears the slot |
| FrameStackReadNode.ReadTwiceNoClear | src/de.hpi.swa.trufflesqueak/src/de/hpi/swa/trufflesqueak/nodes/context/frame/FrameStackReadNode.java:93-113 | two non-clearing reads return the same value |
| FrameStackReadNode.ReadTwiceClear | src/de.hpi.swa.trufflesqueak/src/de/hpi/swa/trufflesqueak/nodes/context/frame/FrameStackReadNode.java:116-136 | a clearing read hands out the value once and the next one reads null, except that a primitive read by the still active primitive specialisations leaves value and slots for the next read |
| CheckForInterruptsQuickNode.CreateForLoop | src/de.hpi.swa.trufflesqueak/src/de/hpi/swa/trufflesqueak/nodes/interrupts/CheckForInterruptsQuickNode.java:43-45 | a loop always gets the polling node |
| CheckForInterruptsQuickNode.CreateForSend | src/de.hpi.swa.trufflesqueak/src/de/hpi/swa/trufflesqueak/nodes/interrupts/CheckForInterruptsQuickNode.java:26-41 | a send polls iff interrupts are enabled and the code has no primitive, at least 32 bytes, and is neither a block nor has an outer method |
| CheckForInterruptsQuickNode.InterruptState.constructor | src/de.hpi.swa.trufflesqueak/src/de/hpi/swa/trufflesqueak/nodes/interrupts/CheckForInterruptsQuickNode.java:89 | the interrupt state holds the given flags and queue |
| CheckForInterruptsQuickNode.ExternalSignals | src/de.hpi.swa.trufflesqueak/src/de/hpi/swa/trufflesqueak/nodes/interrupts/CheckForInterruptsQuickNode.java:116-120 | queue entry k signals external object queue[k] - 1 |
| CheckForInterruptsQuickNode.ExternalSignalsAppend | src/de.hpi.swa.trufflesqueak/src/de/hpi/swa/trufflesqueak/nodes/interrupts/CheckForInterruptsQuickNode.java:118-120 | draining a queue in two parts signals the parts in order |
| CheckForInterruptsQuickNode.PollSignals | src/de.hpi.swa.trufflesqueak/src/de/hpi/swa/trufflesqueak/nodes/interrupts/CheckForInterruptsQuickNode.java:97-122 | a poll signals one semaphore per pending source and one per queued index (unless the external objects are of empty type), the interrupt semaphore first and the external ones last, in queue order |
| CheckForInterruptsQuickNode.Execute | src/de.hpi.swa.trufflesqueak/src/de/hpi/swa/trufflesqueak/nodes/interrupts/CheckForInterruptsQuickNode.java:49-123 | the no-op node and an untriggered state change nothing; a triggered poll resets the trigger, clears each fired source and signals interrupt, timer, finalisation, then external semaphores; the queue is drained unless the external array is of empty type |
| CheckForInterruptsQuickNode.DrainSemaphores | src/de.hpi.swa.trufflesqueak/src/de/hpi/swa/trufflesqueak/nodes/interrupts/CheckForInterruptsQuickNode.java:117-120 | every queued semaphore is signalled in queue order, and the queue ends empty |
| ReturnBytecodes.HasClosure | trufflesqueak/de.hpi.swa.trufflesqueak/src/de/hpi/swa/trufflesqueak/nodes/bytecodes/ReturnBytecodes.java:36-38 | a node reports a closure only when the frame has one; every node but the block return reports exactly the frame's closure, and the block return (lines 122-125) never does |
| ReturnBytecodes.GuardsPartition | trufflesqueak/de.hpi.swa.trufflesqueak/src/de/hpi/swa/trufflesqueak/nodes/bytecodes/ReturnBytecodes.java:44-50 | the non-local guard is exactly the negation of the local guard |
| ReturnBytecodes.BlockReturnIgnoresClosure | trufflesqueak/de.hpi.swa.trufflesqueak/src/de/hpi/swa/trufflesqueak/nodes/bytecodes/ReturnBytecodes.java:112-125 | the block return is local iff the frame is virtualised or not dirty, whatever its closure |
| ReturnBytecodes.ReturnValue | trufflesqueak/de.hpi.swa.trufflesqueak/src/de/hpi/swa/trufflesqueak/nodes/bytecodes/ReturnBytecodes.java:78-81 | a constant or the receiver is returned with the stack untouched; otherwise the top is popped and returned |
| ReturnBytecodes.NonLocalTarget | trufflesqueak/de.hpi.swa.trufflesqueak/src/de/hpi/swa/trufflesqueak/nodes/bytecodes/ReturnBytecodes.java:51-58 | the target is the closure's home context with a closure and the frame's own context without one |
| ReturnBytecodes.NonLocalTargetAsWritten | trufflesqueak/de.hpi.swa.trufflesqueak/src/de/hpi/swa/trufflesqueak/nodes/bytecodes/ReturnBytecodes.java:51-58 | as written the target is the closure argument's home context whenever the frame has a closure, and the frame's own context otherwise |
| ReturnBytecodes.ExecuteAsWritten | trufflesqueak/de.hpi.swa.trufflesqueak/src/de/hpi/swa/trufflesqueak/nodes/bytecodes/ReturnBytecodes.java:44-59 | as written a return is local iff the local guard holds and carries the return value and popped stack; a non-local return targets the closure argument's home context whenever the frame has one |
| ReturnBytecodes.Execute | trufflesqueak/de.hpi.swa.trufflesqueak/src/de/hpi/swa/trufflesqueak/nodes/bytecodes/ReturnBytecodes.java:44-59 | a return is local iff the local guard holds; it carries the return value and leaves the popped stack; a non-local return targets the node's own closure choice |
| ReturnBytecodes.ExecuteAgreesExceptBlockReturn | trufflesqueak/de.hpi.swa.trufflesqueak/src/de/hpi/swa/trufflesqueak/nodes/bytecodes/ReturnBytecodes.java:51-58 | for every node but the block return, the corrected and as-written returns agree |
| ReturnBytecodes.BlockReturnAsWrittenTargetsHome | trufflesqueak/de.hpi.swa.trufflesqueak/src/de/hpi/swa/trufflesqueak/nodes/bytecodes/ReturnBytecodes.java:122-125 | as written, a dirty block frame's block return targets the home context although the node reports no closure |
| SqueakBytecodeNode.BytecodeNode.constructor | trufflesqueak/de.hpi.swa.trufflesqueak/src/de/hpi/swa/trufflesqueak/nodes/bytecodes/SqueakBytecodeNode.java:31-35 | successorIndex is the int index + numBytecodes, and getIndex() recovers index even when that sum wraps |
| SqueakBytecodeNode.BytecodeNode.OneByte | trufflesqueak/de.hpi.swa.trufflesqueak/src/de/hpi/swa/trufflesqueak/nodes/bytecodes/SqueakBytecodeNode.java:37-39 | the two-argument constructor uses width 1 |
| SqueakBytecodeNode.BytecodeNode.CopyOf | trufflesqueak/de.hpi.swa.trufflesqueak/src/de/hpi/swa/trufflesqueak/nodes/bytecodes/SqueakBytecodeNode.java:24-29 | the copy keeps numBytecodes, successorIndex and hence the index |
| SqueakBytecodeNode.BytecodeNode.GetIndex | trufflesqueak/de.hpi.swa.trufflesqueak/src/de/hpi/swa/trufflesqueak/nodes/bytecodes/SqueakBytecodeNode.java:61-63 | the index is a Java int, and equals successorIndex - numBytecodes whenever that difference fits |
| SqueakBytecodeNode.BytecodeNode.ExecuteInt | trufflesqueak/de.hpi.swa.trufflesqueak/src/de/hpi/swa/trufflesqueak/nodes/bytecodes/SqueakBytecodeNode.java:41-47 | fails iff successorIndex < 0 and otherwise returns successorIndex |
| SqueakBytecodeNode.IndexRecovered | trufflesqueak/de.hpi.swa.trufflesqueak/src/de/hpi/swa/trufflesqueak/nodes/bytecodes/SqueakBytecodeNode.java:61-63 | in Java int arithmetic, (index + n) - n == index |
| SqueakBytecodeNode.Frame.Push | trufflesqueak/de.hpi.swa.trufflesqueak/src/de/hpi/swa/trufflesqueak/nodes/bytecodes/SqueakBytecodeNode.java:95-100 | slot sp+1 gets the value and becomes the top; the stack contents grow by exactly the value; other slots are unchanged |
| EnterCodeNode.InitialDepth | trufflesqueak/de.hpi.swa.trufflesqueak/src/de/hpi/swa/trufflesqueak/nodes/EnterCodeNode.java:37-40 | the initial depth is the larger of numArgsAndCopied and numTemps: at least both, and equal to one of them |
| EnterCodeNode.EnterVirtualized | trufflesqueak/de.hpi.swa.trufflesqueak/src/de/hpi/swa/trufflesqueak/nodes/EnterCodeNode.java:31-42 | the marker is set, the first max(numTemps - numArgsAndCopied, 0) slots become nil and the others are untouched, ip is 0, sp is the initial depth |
| EnterCodeNode.Enter | trufflesqueak/de.hpi.swa.trufflesqueak/src/de/hpi/swa/trufflesqueak/nodes/EnterCodeNode.java:46-62 | ip and sp start at 0; a fresh context gets the arguments after the receiver, in order, then the missing temporaries as nils |
| EnterCodeNode.EntriesAgreeOnDepth | trufflesqueak/de.hpi.swa.trufflesqueak/src/de/hpi/swa/trufflesqueak/nodes/EnterCodeNode.java:35-60 | with numArgsAndCopied arguments after the receiver, both entries leave the same stack depth |
| UUIDPlugin.Stamp | src/de.hpi.swa.trufflesqueak/src/de/hpi/swa/trufflesqueak/nodes/plugins/UUIDPlugin.java:36-39 | stamping keeps 16 bytes |
| UUIDPlugin.StampFields | src/de.hpi.swa.trufflesqueak/src/de/hpi/swa/trufflesqueak/nodes/plugins/UUIDPlugin.java:35-39 | byte 6's high nibble is 4 and byte 8's top bits are 10; their other bits and every other byte keep the random values |
| UUIDPlugin.StampIdempotent | src/de.hpi.swa.trufflesqueak/src/de/hpi/swa/trufflesqueak/nodes/plugins/UUIDPlugin.java:37-39 | stamping a stamped UUID changes nothing |
| UUIDPlugin.VersionByteFixed | src/de.hpi.swa.trufflesqueak/src/de/hpi/swa/trufflesqueak/nodes/plugins/UUIDPlugin.java:37 | a byte is unchanged by the version mask iff its high nibble is 4 |
| UUIDPlugin.VariantByteFixed | src/de.hpi.swa.trufflesqueak/src/de/hpi/swa/trufflesqueak/nodes/plugins/UUIDPlugin.java:39 | a byte is unchanged by the variant mask iff its top two bits are 10 |
| UUIDPlugin.StampedIffFixed | src/de.hpi.swa.trufflesqueak/src/de/hpi/swa/trufflesqueak/nodes/plugins/UUIDPlugin.java:35-39 | 16 bytes are a version-4 RFC 4122 UUID iff stamping leaves them alone |
| UUIDPlugin.NativeObject.constructor | src/de.hpi.swa.trufflesqueak/src/de/hpi/swa/trufflesqueak/nodes/plugins/UUIDPlugin.java:32 | a receiver has a byte-type flag and a byte storage |
| UUIDPlugin.MakeUUID | src/de.hpi.swa.trufflesqueak/src/de/hpi/swa/trufflesqueak/nodes/plugins/UUIDPlugin.java:32-41 | a 16-byte byte-type receiver is filled with the random bytes, stamped in place and returned; any other receiver fails and is left alone |
| FFIConstants.TypeNamed | src/de.hpi.swa.graal.squeak/src/de/hpi/swa/graal/squeak/nodes/plugins/ffi/FFIConstants.java:134-141 | a found type is in the table with that name; none is found iff no entry has the name |
| FFIConstants.NameOfKey | src/de.hpi.swa.graal.squeak/src/de/hpi/swa/graal/squeak/nodes/plugins/ffi/FFIConstants.java:143-150 | a found name belongs to an entry with that key; none is found iff no entry has the key |
| FFIConstants.FromString | src/de.hpi.swa.graal.squeak/src/de/hpi/swa/graal/squeak/nodes/plugins/ffi/FFIConstants.java:134-141 | the linear search returns the first entry with the name, else null |
| FFIConstants.FromInteger | src/de.hpi.swa.graal.squeak/src/de/hpi/swa/graal/squeak/nodes/plugins/ffi/FFIConstants.java:143-150 | the linear search returns the name of the first entry with the key, else null |
| FFIConstants.KeysArePositions | src/de.hpi.swa.graal.squeak/src/de/hpi/swa/graal/squeak/nodes/plugins/ffi/FFIConstants.java:103-120 | the table has 14 entries and entry k has key k |
| FFIConstants.NameOfPositionalKey | src/de.hpi.swa.graal.squeak/src/de/hpi/swa/graal/squeak/nodes/plugins/ffi/FFIConstants.java:143-150 | in a table keyed by position, looking up a key finds the entry at that position |
| FFIConstants.FromIntegerTable | src/de.hpi.swa.graal.squeak/src/de/hpi/swa/graal/squeak/nodes/plugins/ffi/FFIConstants.java:143-150 | fromInteger(k) is entry k's name for k in 0..13 and null for every other k |
| FFIConstants.NamesDistinct | src/de.hpi.swa.graal.squeak/src/de/hpi/swa/graal/squeak/nodes/plugins/ffi/FFIConstants.java:103-120 | no two entries share a name |
| FFIConstants.TypeNamedFindsEntry | src/de.hpi.swa.graal.squeak/src/de/hpi/swa/graal/squeak/nodes/plugins/ffi/FFIConstants.java:134-141 | with distinct names, looking up an entry's name finds that entry |
| FFIConstants.NameKeyRoundTrip | src/de.hpi.swa.graal.squeak/src/de/hpi/swa/graal/squeak/nodes/plugins/ffi/FFIConstants.java:103-150 | fromString(fromInteger(k)).key == k for every k in 0..13 |
| FFIConstants.UnknownName | src/de.hpi.swa.graal.squeak/src/de/hpi/swa/graal/squeak/nodes/plugins/ffi/FFIConstants.java:134-141 | fromString of a name not in the table is null |
| FFIConstants.SignedIffOdd | src/de.hpi.swa.graal.squeak/src/de/hpi/swa/graal/squeak/nodes/plugins/ffi/FFIConstants.java:60-75 | for the integer types 2..11, a type is signed iff its code is odd |
| FFIConstants.EnumKeysMatchCodes | src/de.hpi.swa.graal.squeak/src/de/hpi/swa/graal/squeak/nodes/plugins/ffi/FFIConstants.java:56-79 | each enum key equals the FFI_TYPE constant of the same name |
| FFIConstants.FlagsDisjoint | src/de.hpi.swa.graal.squeak/src/de/hpi/swa/graal/squeak/nodes/plugins/ffi/FFIConstants.java:82-88 | the atomic, pointer and structure flags, the structure size mask and the atomic type mask occupy pairwise disjoint bits |

## Left out

- Framework mechanics are not modelled: Truffle caching and specialisation limits, `CompilerDirectives`, condition profiles, frame-slot kinds beyond object/primitive, logging and the `LogUtils` calls. Every cached specialisation is modelled by the uncached path it agrees with, except the primitive specialisations of `FrameStackReadNode` (`readBoolean`, `readLong`, `readDouble`), whose active-or-replaced state is an explicit argument and result of `ExecuteRead`.
- Java `assert` statements are not modelled as run-time checks. Where the code relies on one, a precondition or a well-formedness predicate states it (`FrameStackReadNode.WellShaped`, the sender-chain shape).
- Index ranges that Java would check by throwing `ArrayIndexOutOfBoundsException` are preconditions of the object-access methods (`PointersObjectNodes`, `PointersObjects`, `WeakPointersObjects`, `ArrayConversions`, `SqueakBytecodeNode.Frame.Push`), and so is the range of the queued semaphore indices of `CheckForInterruptsQuickNode.Execute`, `DrainSemaphores` and `PollSignals` (`IndicesInRange`). Elsewhere the bytes the decoder reads are checked and missing ones give `IndexOutOfBounds`.
- ArrayConversions: array lengths are unbounded, so the Java `int` overflow of the byte counts `length * 8`, `length * 4` and `length * 2` for very large arrays is not modelled.
- ContextObject, VariablePointersObject, FrameAccess, CompiledCodeObject, CheckForInterruptsState, SignalSemaphoreNode, GetOrCreateContextNode and FrameStackWriteNode are not part of this model. Contexts are reduced to the fields the modelled code reads and writes (`ContextObjects`). The semaphores a poll signals are returned as a sequence. A virtualised stack write is modelled as a plain slot write that fails out of range.
- CheckForInterruptsQuickNode.Execute: whether the timer's wake-up tick has passed depends on the clock, so it is an input (`timerDue`).
- UUIDPlugin.MakeUUID: the random fill (`ArrayUtils.fillRandomly`) is an input sequence.
- ExecuteTopLevelContextNode:
  - The `while (true)` driver loop is modelled as one round (`ExecuteLoopStep`).
  - The sender chain is a ghost argument describing the heap.
  - `cannotReturn:` and `aboutToReturn:through:` are outcomes, not message sends, and a `NonVirtualReturn` thrown out of `aboutToReturn:through:` is not followed.
  - The `finally` block's display and interrupt shutdown is left out.
  - The `DoIt` assertion of `returnToTopLevel` is left out.
- MaterializeContextOnMethodExitNode.Execute: `GetOrCreateContextNode` is modelled by the `created` argument, the context it would return for a frame without one.
- ClassObject `fillin`, `pointsTo`, `shallowCopyWithInstVars`, `instantiate`, the class-name helpers and the method-dictionary and format constant specialisations are not modelled. The hash swap and `becomeOtherClass` part of `become` are also left out: they need the object header, which is not part of this model.
- WeakPointersObject: `becomeLayout`, `layoutValuesBecomeOneWay` and `layoutValuesPointTo` are in `AbstractPointersObject`, which is not part of this model, so become and pointsTo model only the variable part and the named values. The identity-hash update of `pointersBecomeOneWay` is left out. The garbage collector is the environment: it may clear any slot (`ClearReferent`).
- FFIConstants: `getTypeObject` has an empty body in the source and is not modelled.
- SistaV1Decoder:
  - The decoded nodes are values (`Op`), not node objects.
  - Literal lookups, special selectors and the text of `decodeBytecodeToString` are not modelled. `DecodeToString` yields the listing's lines (number, offset, indent, width), not its text; the label helpers model only the two labels named under Findings.
  - Nodes whose constructors are not given a width (call-primitive, inline primitives, one-byte nodes) are taken to have their opcode's `decodeNumBytes` width, because those node classes are outside this model.
- ContextObjectNodes.MaterializedContext.At0: a materialised context is a map from field index to value, and a field never written reads as nil.
- ContextObjectNodes.Read: a virtualised stack field whose index wraps to a negative `int` slot gives `UnexpectedValues`, where Java would throw `ArrayIndexOutOfBoundsException` from the frame-slot access.
- WeakPointersObjects.WeakPointersObject.PointsTo, VariablePartPointsTo and PointersBecomeOneWay: Java compares objects by reference (`==`); the model compares values by value. The two agree on objects (`Ref`, `Other`), but the model treats two equal boxed numbers, characters or booleans as the same where Java may see two boxes.
- Constants defined outside the modelled classes are taken from the standard Squeak object layouts:
  - class description: superclass 0, method dictionary 1, format 2, instance variables 3, organisation 4, size 5;
  - the first selector slot of a method dictionary: 2;
  - linked list: first link 0, last link 1;
  - process: next link 0;
  - context fields: 0 to 6;
  - `FrameAccess.RCVR_AND_ARGS_START`: 2.

## Findings

| source | as written | input that shows it | evidently intended | confidence | as-written member | corrected member |
|---|---|---|---|---|---|---|
| src/de.hpi.swa.trufflesqueak/src/de/hpi/swa/trufflesqueak/nodes/ExecuteTopLevelContextNode.java:135 | the unwind loop's nil guard tests `sender`, which is already known to be a context, so it never fires | a context whose sender is nil, unwound by a non-local return towards a context that is not on its chain: it is terminated, and the cast of its nil sender fails | test `currentSender`, so the unwind stops at the bottom of the chain and returns to the target | not executed | ExecuteTopLevelContextNode.NLReturnAsWrittenFailsOffChain | ExecuteTopLevelContextNode.NLReturnStopsAtNilSender |
| src/de.hpi.swa.trufflesqueak/src/de/hpi/swa/trufflesqueak/nodes/bytecodes/SqueakBytecodeSistaV1Decoder.java:365 | the listing prints the primitive index as `b1 + (b2 & 31)`, without the shift by 8 that the decoder applies at line 201 | bytes F8 00 01 call primitive 256 but print `callPrimitive: 1` | print `b1 + ((b2 & 31) << 8)` | not executed | SistaV1Decoder.PrintedPrimitiveIndexDiffers | SistaV1Decoder.PrintedPrimitiveIndex |
| src/de.hpi.swa.trufflesqueak/src/de/hpi/swa/trufflesqueak/nodes/bytecodes/SqueakBytecodeSistaV1Decoder.java:311 | `"pushTemp: " + (b & 3) + 8` concatenates the digit and then the 8 | opcode 72 prints `pushTemp: 08`, but the decoder pushes temporary 8 | print `(b & 3) + 8` as one number | not executed | SistaV1Decoder.PushTempLabelDiffers | SistaV1Decoder.PushTempLabel |
| src/de.hpi.swa.trufflesqueak/src/de/hpi/swa/trufflesqueak/nodes/bytecodes/SqueakBytecodeSistaV1Decoder.java:290-294 | the listing indents after opcode 143 and outdents after opcode 125, which in SistaV1 are a literal send and a special-selector send | a method containing 0x8F indents every following line; its closure push 0xFA and block return 0x5E leave the indent alone | indent on the closure push 0xFA and outdent on the block returns 0x5D and 0x5E | not executed | SistaV1Decoder.ListingIndentsAfterSend | SistaV1Decoder.IndentStepFollowsDecoder |
| src/de.hpi.swa.graal.squeak/src/de/hpi/swa/graal/squeak/model/WeakPointersObject.java:57-66 | `otherVariablePart` aliases `other.variablePart`, so the second `arraycopy` copies this object's slots back over themselves | two one-slot objects holding nil and another object: after `become` both hold nil | copy the other object's slots aside before overwriting them, so that the contents are swapped | not executed | WeakPointersObjects.BecomeAsWrittenLosesSlots | WeakPointersObjects.BecomeSwapsSlots |
| trufflesqueak/de.hpi.swa.trufflesqueak/src/de/hpi/swa/trufflesqueak/nodes/bytecodes/ReturnBytecodes.java:51-58 | `executeNonLocalReturn` takes the target from the closure argument directly, while `ReturnTopFromBlock` (lines 122-125) declares through `hasClosure` that it has none | a dirty, materialised block frame with a closure whose home context differs from the frame's own context: the block return unwinds to the home context | the target consistent with `hasClosure`: the frame's own context | not executed; low, the overriding may be deliberate | ReturnBytecodes.BlockReturnAsWrittenTargetsHome | ReturnBytecodes.ExecuteAgreesExceptBlockReturn |
