/**
 * `EnterCodeNode`: the root node that sets up a frame when compiled code is
 * entered. While the code needs no context, the frame itself is initialised:
 * a fresh marker, nil temporaries, instruction pointer 0 and the stack
 * pointer above arguments and temporaries. Otherwise a context is
 * materialised for the frame and the arguments and nil temporaries are
 * pushed onto it. Both entries leave the same stack depth.
 */
module EnterCodeNode {
  import opened ContextObjects

  /** `FrameAccess.RCVR_AND_ARGS_START`: the index of the receiver in a frame's arguments. */
  const RCVR_AND_ARGS_START: nat := 2

  /** The stack depth after entry: arguments and copied values, then any further temporaries. */
  function InitialDepth(numTemps: nat, numArgsAndCopied: nat): (r: nat)
    ensures r >= numArgsAndCopied && r >= numTemps
    ensures r == numArgsAndCopied || r == numTemps
  {
    numArgsAndCopied + (if numTemps > numArgsAndCopied then numTemps - numArgsAndCopied else 0)
  }

  /** A virtualised frame: its context-or-marker slot, ip and sp slots, and stack slots. */
  class VirtualFrame {
    var contextOrMarker: Value
    var ip: int
    var sp: int
    const stackSlots: array<Value>

    constructor(stackSlots: array<Value>)
      ensures this.stackSlots == stackSlots && contextOrMarker == Nil && ip == 0 && sp == 0
    {
      this.stackSlots := stackSlots;
      contextOrMarker := Nil;
      ip := 0;
      sp := 0;
    }
  }

  /**
   * `enterVirtualized`: the marker slot gets `marker`; the first
   * `max(numTemps - numArgsAndCopied, 0)` stack slots become nil; ip is 0 and
   * sp is the initial depth. The other stack slots are untouched.
   */
  method EnterVirtualized(frame: VirtualFrame, numTemps: nat, numArgsAndCopied: nat, marker: Value)
    requires InitialDepth(numTemps, numArgsAndCopied) - numArgsAndCopied <= frame.stackSlots.Length
    modifies frame, frame.stackSlots
    ensures frame.contextOrMarker == marker && frame.ip == 0
    ensures frame.sp == InitialDepth(numTemps, numArgsAndCopied)
    ensures var k := InitialDepth(numTemps, numArgsAndCopied) - numArgsAndCopied;
      (forall i :: 0 <= i < k ==> frame.stackSlots[i] == Nil) &&
      frame.stackSlots[k..] == old(frame.stackSlots[k..])
  {
    frame.contextOrMarker := marker;
    var numTempsToInitialize := if numTemps - numArgsAndCopied > 0 then numTemps - numArgsAndCopied else 0;
    for i := 0 to numTempsToInitialize
      invariant forall j :: 0 <= j < i ==> frame.stackSlots[j] == Nil
      invariant frame.contextOrMarker == marker
      invariant frame.stackSlots[numTempsToInitialize..] == old(frame.stackSlots[numTempsToInitialize..])
    {
      frame.stackSlots[i] := Nil;
    }
    frame.ip := 0;
    frame.sp := numArgsAndCopied + numTempsToInitialize;
  }

  /** A frame whose code needs a context: its ip and sp slots and context slot. */
  class MaterializedFrame {
    var ip: int
    var sp: int
    var context: Context?

    constructor()
      ensures ip == 0 && sp == 0 && context == null
    {
      ip := 0;
      sp := 0;
      context := null;
    }
  }

  /**
   * `enter`: ip and sp become 0 and a new context is installed; the
   * arguments after the receiver are pushed onto it in order, then
   * `numTemps - numArgsAndCopied` nils (none when that is not positive).
   */
  method Enter(frame: MaterializedFrame, numTemps: nat, numArgsAndCopied: nat, arguments: seq<Value>)
    returns (newContext: Context)
    requires |arguments| >= RCVR_AND_ARGS_START + 1
    modifies frame
    ensures fresh(newContext) && frame.context == newContext && frame.ip == 0 && frame.sp == 0
    ensures newContext.stack ==
      arguments[RCVR_AND_ARGS_START + 1..] + seq(InitialDepth(numTemps, numArgsAndCopied) - numArgsAndCopied, _ => Nil)
    ensures newContext.sp == |arguments| - (RCVR_AND_ARGS_START + 1) + InitialDepth(numTemps, numArgsAndCopied) - numArgsAndCopied
  {
    frame.ip := 0;
    frame.sp := 0;
    newContext := new Context(false, false, false, 0, numTemps);
    frame.context := newContext;
    var i := RCVR_AND_ARGS_START + 1;
    while i < |arguments|
      invariant RCVR_AND_ARGS_START + 1 <= i <= |arguments|
      invariant newContext.stack == arguments[RCVR_AND_ARGS_START + 1..i]
      invariant newContext.sp == i - (RCVR_AND_ARGS_START + 1)
      invariant frame.context == newContext && frame.ip == 0 && frame.sp == 0
    {
      newContext.Push(arguments[i]);
      i := i + 1;
    }
    var numTempsToInitialize := numTemps - numArgsAndCopied;
    ghost var pushed := newContext.stack;
    for j := 0 to if numTempsToInitialize > 0 then numTempsToInitialize else 0
      invariant newContext.stack == pushed + seq(j, _ => Nil)
      invariant newContext.sp == |pushed| + j
      invariant frame.context == newContext && frame.ip == 0 && frame.sp == 0
    {
      newContext.Push(Nil);
    }
  }

  /** With as many arguments after the receiver as the code expects, both entries leave the same stack depth. */
  method EntriesAgreeOnDepth(vframe: VirtualFrame, mframe: MaterializedFrame, numTemps: nat, numArgsAndCopied: nat,
                             marker: Value, arguments: seq<Value>)
    returns (virtualDepth: int, materializedDepth: int)
    requires InitialDepth(numTemps, numArgsAndCopied) - numArgsAndCopied <= vframe.stackSlots.Length
    requires |arguments| == RCVR_AND_ARGS_START + 1 + numArgsAndCopied
    modifies vframe, vframe.stackSlots, mframe
    ensures virtualDepth == materializedDepth == InitialDepth(numTemps, numArgsAndCopied)
  {
    EnterVirtualized(vframe, numTemps, numArgsAndCopied, marker);
    virtualDepth := vframe.sp;
    var context := Enter(mframe, numTemps, numArgsAndCopied, arguments);
    materializedDepth := context.sp;
  }
}
