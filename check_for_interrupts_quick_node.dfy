/**
 * `CheckForInterruptsQuickNode`: which activations poll for interrupts, and
 * what a poll does when the interrupt state has been triggered. The
 * semaphores signalled by a poll are returned, in order, as a sequence;
 * `SignalSemaphoreNode` itself is not modelled. Whether the timer's wake-up
 * tick has passed depends on the clock and is an input (`timerDue`).
 */
module CheckForInterruptsQuickNode {
  const MIN_NUMBER_OF_BYTECODE_FOR_INTERRUPT_CHECKS: nat := 32

  datatype Value = Nil | Semaphore(id: nat) | Obj(id: nat)

  /** The node installed in an activation: the no-op node or the polling node. */
  datatype CheckNode = NoCheck | QuickCheck

  /** What `createForSend` asks of a compiled code object and its image. */
  datatype CodeInfo = CodeInfo(
    interruptHandlerDisabled: bool,
    hasPrimitive: bool,
    numBytes: nat,
    isCompiledBlock: bool,
    hasOuterMethod: bool)

  /** `createForSend`: primitive methods, short methods and blocks get no check, nor does anything while interrupts are disabled. */
  function CreateForSend(code: CodeInfo): (r: CheckNode)
    ensures r == QuickCheck <==>
      !code.interruptHandlerDisabled && !code.hasPrimitive && code.numBytes >= 32 &&
      !code.isCompiledBlock && !code.hasOuterMethod
  {
    if code.interruptHandlerDisabled || code.hasPrimitive ||
       code.numBytes < MIN_NUMBER_OF_BYTECODE_FOR_INTERRUPT_CHECKS ||
       code.isCompiledBlock || code.hasOuterMethod
    then NoCheck
    else QuickCheck
  }

  /** `createForLoop`: a loop always polls. */
  function CreateForLoop(): (r: CheckNode)
    ensures r == QuickCheck
  {
    QuickCheck
  }

  /** The external objects array of the special objects: of empty type, or holding objects. */
  datatype ExternalObjects = EmptyType | Objects(objects: seq<Value>)

  /** The semaphores of the special objects array that a poll may signal. */
  datatype SpecialSemaphores = SpecialSemaphores(
    interruptSemaphore: Value,
    timerSemaphore: Value,
    finalizationSemaphore: Value,
    externalObjects: ExternalObjects)

  /** The flags and queue of `CheckForInterruptsState` that a poll consumes. */
  class InterruptState {
    var trigger: bool
    var interruptPending: bool
    var nextWakeupTick: int
    var pendingFinalizations: bool
    /** 1-based indices into the external objects array, oldest first. */
    var semaphoresToSignal: seq<int>

    constructor(trigger: bool, interruptPending: bool, nextWakeupTick: int, pendingFinalizations: bool, semaphoresToSignal: seq<int>)
      ensures this.trigger == trigger && this.interruptPending == interruptPending
      ensures this.nextWakeupTick == nextWakeupTick && this.pendingFinalizations == pendingFinalizations
      ensures this.semaphoresToSignal == semaphoresToSignal
    {
      this.trigger := trigger;
      this.interruptPending := interruptPending;
      this.nextWakeupTick := nextWakeupTick;
      this.pendingFinalizations := pendingFinalizations;
      this.semaphoresToSignal := semaphoresToSignal;
    }
  }

  /** Every queued index names an element of the external objects. */
  predicate IndicesInRange(queue: seq<int>, objects: seq<Value>) {
    forall k :: 0 <= k < |queue| ==> 1 <= queue[k] <= |objects|
  }

  /** The external semaphores that draining `queue` signals, in queue order. */
  function ExternalSignals(queue: seq<int>, objects: seq<Value>): (r: seq<Value>)
    requires IndicesInRange(queue, objects)
    ensures |r| == |queue|
    ensures forall k :: 0 <= k < |queue| ==> r[k] == objects[queue[k] - 1]
  {
    if queue == [] then [] else [objects[queue[0] - 1]] + ExternalSignals(queue[1..], objects)
  }

  /** Draining a queue in two parts signals the first part's semaphores, then the second's. */
  lemma {:induction false} ExternalSignalsAppend(a: seq<int>, b: seq<int>, objects: seq<Value>)
    requires IndicesInRange(a, objects) && IndicesInRange(b, objects)
    ensures IndicesInRange(a + b, objects)
    ensures ExternalSignals(a + b, objects) == ExternalSignals(a, objects) + ExternalSignals(b, objects)
  {
    assert IndicesInRange(a + b, objects);
    if a != [] {
      assert (a + b)[1..] == a[1..] + b;
      ExternalSignalsAppend(a[1..], b, objects);
    }
  }

  /** The semaphores one triggered poll signals, in order: interrupt, timer, finalisation, external. */
  function PollSignals(interruptPending: bool, timerDue: bool, pendingFinalizations: bool,
                       queue: seq<int>, special: SpecialSemaphores): (r: seq<Value>)
    requires special.externalObjects.Objects? ==> IndicesInRange(queue, special.externalObjects.objects)
    ensures var fixed := (if interruptPending then 1 else 0) + (if timerDue then 1 else 0) + (if pendingFinalizations then 1 else 0);
      |r| == fixed + (if special.externalObjects.Objects? then |queue| else 0) &&
      (special.externalObjects.Objects? ==> r[fixed..] == ExternalSignals(queue, special.externalObjects.objects))
    ensures interruptPending ==> r[0] == special.interruptSemaphore
    ensures pendingFinalizations ==> special.finalizationSemaphore in r
  {
    (if interruptPending then [special.interruptSemaphore] else []) +
    (if timerDue then [special.timerSemaphore] else []) +
    (if pendingFinalizations then [special.finalizationSemaphore] else []) +
    (if queue != [] && special.externalObjects.Objects? then ExternalSignals(queue, special.externalObjects.objects) else [])
  }

  /**
   * `execute`: the no-op node and an untriggered state do nothing. A
   * triggered poll resets the trigger, then clears and signals each pending
   * source in turn; the queue of external semaphores is drained unless the
   * external objects array is of empty type.
   */
  method Execute(node: CheckNode, istate: InterruptState, timerDue: bool, special: SpecialSemaphores)
    returns (signalled: seq<Value>)
    requires special.externalObjects.Objects? ==> IndicesInRange(istate.semaphoresToSignal, special.externalObjects.objects)
    modifies istate
    ensures node == NoCheck || !old(istate.trigger) ==> signalled == [] && unchanged(istate)
    ensures node == QuickCheck && old(istate.trigger) ==>
      signalled == PollSignals(old(istate.interruptPending), timerDue, old(istate.pendingFinalizations),
                               old(istate.semaphoresToSignal), special) &&
      !istate.trigger && !istate.interruptPending && !istate.pendingFinalizations &&
      istate.nextWakeupTick == (if timerDue then 0 else old(istate.nextWakeupTick)) &&
      istate.semaphoresToSignal == (if special.externalObjects.EmptyType? then old(istate.semaphoresToSignal) else [])
  {
    signalled := [];
    if node == NoCheck || !istate.trigger {
      return;
    }
    istate.trigger := false;
    ghost var interruptPending, pendingFinalizations := istate.interruptPending, istate.pendingFinalizations;
    var fired: seq<Value> := [];
    if istate.interruptPending {
      istate.interruptPending := false;
      fired := fired + [special.interruptSemaphore];
    }
    if timerDue {
      istate.nextWakeupTick := 0;
      fired := fired + [special.timerSemaphore];
    }
    if istate.pendingFinalizations {
      istate.pendingFinalizations := false;
      fired := fired + [special.finalizationSemaphore];
    }
    assert fired == (if interruptPending then [special.interruptSemaphore] else []) +
      (if timerDue then [special.timerSemaphore] else []) +
      (if pendingFinalizations then [special.finalizationSemaphore] else []);
    var external: seq<Value> := [];
    if istate.semaphoresToSignal != [] {
      if special.externalObjects.Objects? {
        external := DrainSemaphores(istate, special.externalObjects.objects);
      }
    }
    signalled := fired + external;
  }

  /** The `nextSemaphoreToSignal` loop: every queued semaphore is signalled in queue order and the queue ends empty. */
  method DrainSemaphores(istate: InterruptState, semaphores: seq<Value>) returns (signalled: seq<Value>)
    requires IndicesInRange(istate.semaphoresToSignal, semaphores)
    modifies istate
    ensures signalled == ExternalSignals(old(istate.semaphoresToSignal), semaphores)
    ensures istate.semaphoresToSignal == []
    ensures istate.trigger == old(istate.trigger) && istate.interruptPending == old(istate.interruptPending)
    ensures istate.nextWakeupTick == old(istate.nextWakeupTick)
    ensures istate.pendingFinalizations == old(istate.pendingFinalizations)
  {
    signalled := [];
    ghost var queue := istate.semaphoresToSignal;
    ghost var k := 0;
    while istate.semaphoresToSignal != []
      invariant 0 <= k <= |queue| && istate.semaphoresToSignal == queue[k..]
      invariant signalled == ExternalSignals(queue[..k], semaphores)
      invariant istate.trigger == old(istate.trigger) && istate.interruptPending == old(istate.interruptPending)
      invariant istate.nextWakeupTick == old(istate.nextWakeupTick)
      invariant istate.pendingFinalizations == old(istate.pendingFinalizations)
      decreases |istate.semaphoresToSignal|
    {
      var semaIndex := istate.semaphoresToSignal[0];
      istate.semaphoresToSignal := istate.semaphoresToSignal[1..];
      ExternalSignalsAppend(queue[..k], [semaIndex], semaphores);
      assert queue[..k + 1] == queue[..k] + [semaIndex];
      signalled := signalled + [semaphores[semaIndex - 1]];
      k := k + 1;
    }
    assert queue[..k] == queue;
  }
}
