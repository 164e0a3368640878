/**
 * `MaterializeContextOnMethodExitNode`: the image keeps one pending
 * context (`lastSeenContext`) whose sender is still only a frame marker.
 * Each time a method exits, the pending context gets the exiting frame's
 * context as its sender, and the pointer moves on to that context if it too
 * has escaped. Materialisation thus spreads one frame per method exit.
 *
 * A frame may have no context yet. `frameContext` is the frame's context, or
 * `null` when it has none; `created` is the context that
 * `GetOrCreateContextNode` would allocate for the frame in that case.
 */
module MaterializeContextOnMethodExitNode {
  import opened ContextObjects

  /** The pending context, if any, has escaped: it is only ever set to escaped contexts. */
  predicate PendingEscaped(image: Image)
    reads image, image.lastSeenContext
  {
    image.lastSeenContext != null ==> image.lastSeenContext.escaped
  }

  /**
   * The three specialisations, tried in order: with no pending context, an
   * escaped frame context starts the chain; with a pending context, a
   * different current context becomes the pending context's sender (if
   * that sender is not materialised yet) and the pointer moves on to it
   * exactly when it is alive and has escaped; otherwise nothing happens.
   */
  method Execute(image: Image, frameContext: Context?, created: Context)
    modifies image, image.lastSeenContext
    ensures old(image.lastSeenContext) == null && frameContext != null && frameContext.escaped ==>
      image.lastSeenContext == frameContext
    ensures old(image.lastSeenContext) == null && (frameContext == null || !frameContext.escaped) ==>
      image.lastSeenContext == null
    ensures old(image.lastSeenContext) != null ==>
      var pending := old(image.lastSeenContext);
      var context := if frameContext != null then frameContext else created;
      (context == pending ==> image.lastSeenContext == pending && unchanged(pending)) &&
      (context != pending ==>
        (old(pending.senderMaterialized) ==> unchanged(pending)) &&
        (!old(pending.senderMaterialized) ==>
          pending.sender == context && pending.senderMaterialized &&
          pending.ip == old(pending.ip) && pending.sp == old(pending.sp) &&
          pending.stack == old(pending.stack) && pending.escaped == old(pending.escaped)) &&
        image.lastSeenContext == (if !context.Terminated() && context.escaped then context else null))
    ensures old(PendingEscaped(image)) ==> PendingEscaped(image)
  {
    if image.lastSeenContext == null && frameContext != null && frameContext.escaped {
      // doStartMaterialization
      image.lastSeenContext := frameContext;
    } else if image.lastSeenContext != null {
      // doMaterialize
      var lastSeenContext := image.lastSeenContext;
      var context := if frameContext != null then frameContext else created;
      if context != lastSeenContext {
        if !lastSeenContext.senderMaterialized {
          lastSeenContext.SetSender(context);
        }
        if !context.Terminated() && context.escaped {
          image.lastSeenContext := context;
        } else {
          image.lastSeenContext := null;
        }
      }
    }
    // doNothing otherwise
  }

  /**
   * A stack of escaped frames with unmaterialised senders, exiting from the
   * innermost (`frames[0]`) outwards while nothing else is pending: every
   * frame but the outermost gets the next one out as its sender, and the
   * outermost is left pending.
   */
  method ExitFrames(image: Image, frames: seq<Context>)
    requires |frames| > 0 && image.lastSeenContext == null
    requires forall i :: 0 <= i < |frames| ==> frames[i].escaped && !frames[i].senderMaterialized
    requires forall a, b :: 0 <= a < b < |frames| ==> frames[a] != frames[b]
    modifies image, frames
    ensures image.lastSeenContext == frames[|frames| - 1]
    ensures forall i :: 0 <= i < |frames| - 1 ==> frames[i].senderMaterialized && frames[i].sender == frames[i + 1]
    ensures unchanged(frames[|frames| - 1])
    ensures forall i :: 0 <= i < |frames| ==>
      frames[i].ip == old(frames[i].ip) && frames[i].stack == old(frames[i].stack) && frames[i].escaped
  {
    Execute(image, frames[0], frames[0]);
    var n := 1;
    while n < |frames|
      invariant 1 <= n <= |frames|
      invariant image.lastSeenContext == frames[n - 1]
      invariant forall i :: 0 <= i < n - 1 ==> frames[i].senderMaterialized && frames[i].sender == frames[i + 1]
      invariant forall i :: n - 1 <= i < |frames| ==> unchanged(frames[i])
      invariant forall i :: 0 <= i < |frames| ==>
        frames[i].ip == old(frames[i].ip) && frames[i].stack == old(frames[i].stack) && frames[i].escaped
    {
      Execute(image, frames[n], frames[n]);
      n := n + 1;
    }
  }
}
