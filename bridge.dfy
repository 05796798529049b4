/** The response-body bridge as objects: the AtomicReference slot, the two
    nested helper classes and the bridge itself, whose fields are the three
    futures. Every public method is proved to do exactly what one event of
    `BridgeSpec.Step` does to the abstract state, and to keep `BridgeSpec.Inv`. */
module Bridge {
  import opened Flow
  import opened BridgeSpec

  /** The holder of the accepted subscriber. `clear` nulls it, after which it
      stays null; `owner` remembers, for the proofs, whom it was made for. */
  class SubscriberRef {
    ghost const owner: Subscriber
    var ref: Option<Subscriber>

    constructor (subscriber: Subscriber)
      ensures owner == subscriber && ref == Some(subscriber)
    {
      owner := subscriber;
      ref := Some(subscriber);
    }

    method Get() returns (r: Option<Subscriber>)
      ensures r == ref
    {
      r := ref;
    }

    /** Hands back the subscriber it held, if any, and nulls the reference. */
    method Clear() returns (r: Option<Subscriber>)
      modifies this
      ensures r == old(ref) && ref == None
    {
      r := ref;
      ref := None;
    }
  }

  /** The handle given to the accepted subscriber: it passes demand upstream only
      while the slot still holds the subscriber, and cancel always reaches
      upstream and clears the slot. Each method returns the calls it made on the
      upstream subscription. */
  class SubscriptionRef {
    const subscription: Upstream
    const subscriberRef: SubscriberRef

    constructor (subscription: Upstream, subscriberRef: SubscriberRef)
      ensures this.subscription == subscription && this.subscriberRef == subscriberRef
    {
      this.subscription := subscription;
      this.subscriberRef := subscriberRef;
    }

    method Request(n: int) returns (calls: seq<UpstreamCall>)
      ensures calls == if subscriberRef.ref.Some? then [RequestCall(n)] else []
    {
      var subscriber := subscriberRef.Get();
      calls := if subscriber.Some? then [RequestCall(n)] else [];
    }

    method Cancel() returns (calls: seq<UpstreamCall>)
      modifies subscriberRef
      ensures calls == [CancelCall] && subscriberRef.ref == None
    {
      calls := [CancelCall];
      var _ := subscriberRef.Clear();
    }

    /** Calls onSubscribe(this) on the subscriber still held, reporting the signal
        sent and what the subscriber's callback threw. */
    method Subscribe() returns (sent: Option<Signal>, raised: Option<Error>)
      ensures sent == if subscriberRef.ref.Some? then Some(OnSubscribe(Live)) else None
      ensures raised == if subscriberRef.ref.Some? && subscriberRef.ref.value.throwsOnSubscribe
                        then Some(subscriberRef.ref.value.fault) else None
    {
      var subscriber := subscriberRef.Get();
      if subscriber.Some? {
        sent := Some(OnSubscribe(Live));
        raised := if subscriber.value.throwsOnSubscribe then Some(subscriber.value.fault) else None;
      } else {
        sent, raised := None, None;
      }
    }
  }

  class BodySubscriberProxy {
    var subscriptionCF: Option<Upstream>
    var subscribedCF: Option<SubscriberRef>
    var subscriberRef: SubscriberRef?           // the AtomicReference, null until a subscriber is accepted
    var completionCF: Option<Outcome>
    var pendingCancels: nat                     // cancel continuations waiting on subscriptionCF
    var handle: SubscriptionRef?                // the handle given to the accepted subscriber
    var delivered: seq<Signal>
    var rejected: seq<Rejection>
    var upstreamCalls: seq<UpstreamCall>

    /** The abstract state of `BridgeSpec`. */
    ghost function Abs(): State
      reads this, subscriberRef
    {
      State(subscriptionCF, subscribedCF.Some?,
            if subscriberRef == null then Empty else Installed(subscriberRef.owner, subscriberRef.ref.Some?),
            completionCF, pendingCancels, delivered, rejected, upstreamCalls)
    }

    /** How the objects are linked: the slot only ever holds its owner, the handle
        exists with the slot and wraps the known upstream subscription, and
        subscribedCF can only hold the slot's reference. */
    ghost predicate Wired()
      reads this, subscriberRef, handle
    {
      && (subscriberRef != null && subscriberRef.ref.Some? ==> subscriberRef.ref.value == subscriberRef.owner)
      && (handle == null <==> subscriberRef == null)
      && (handle != null ==> handle.subscriberRef == subscriberRef && subscriptionCF == Some(handle.subscription))
      && (subscribedCF.Some? ==> subscribedCF.value == subscriberRef)
    }

    ghost predicate Valid()
      reads this, subscriberRef, handle
    {
      Wired() && Inv(Abs())
    }

    constructor ()
      ensures Valid() && Abs() == Init && subscriberRef == null
    {
      subscriptionCF := None;
      subscribedCF := None;
      subscriberRef := null;
      completionCF := None;
      pendingCancels := 0;
      handle := null;
      delivered := [];
      rejected := [];
      upstreamCalls := [];
      InitInv();
    }

    // -------------------------------------------------------------------------
    // Upstream, called by the JDK client

    method OnSubscribe(subscription: Upstream)
      requires Valid()
      modifies this
      ensures Valid() && Abs() == Step(old(Abs()), UpstreamSubscribe(subscription))
      ensures subscriberRef == old(subscriberRef)
    {
      ghost var s0 := Abs();
      StepInv(s0, UpstreamSubscribe(subscription));
      if subscriptionCF.None? {
        subscriptionCF := Some(subscription);
        // run the cancel continuations registered while the future was pending
        while pendingCancels > 0
          invariant upstreamCalls + Cancels(pendingCancels) == s0.upstream + Cancels(s0.pendingCancels)
          invariant subscriberRef == old(subscriberRef) && handle == old(handle)
          invariant Abs() == s0.(subscription := Some(subscription), upstream := upstreamCalls, pendingCancels := pendingCancels)
          decreases pendingCancels
        {
          assert Cancels(pendingCancels) == [CancelCall] + Cancels(pendingCancels - 1);
          upstreamCalls := upstreamCalls + [CancelCall];
          pendingCancels := pendingCancels - 1;
        }
        assert upstreamCalls == s0.upstream + Cancels(s0.pendingCancels);
      }
    }

    method OnNext(items: seq<Buffer>)
      requires Valid()
      modifies this, subscriberRef
      ensures Valid() && Abs() == Step(old(Abs()), UpstreamNext(items))
      ensures subscriberRef == old(subscriberRef)
    {
      ghost var s0 := Abs();
      StepInv(s0, UpstreamNext(items));
      if subscriberRef == null {
        // ref.get() on a null ref throws NullPointerException
        SignalError(Some(NullPointer));
        CancelWhenKnown();
        return;
      }
      var subscriber := subscriberRef.Get();
      if subscriber.Some? {
        var sub := subscriber.value;
        var i := 0;
        while i < |items|
          invariant 0 <= i <= |items|
          invariant Wired() && subscriberRef == old(subscriberRef) && handle == old(handle)
          invariant subscriberRef.ref == Some(sub)
          invariant Forward(Abs(), sub, items[i..]) == Forward(s0, sub, items)
        {
          ghost var before := Abs();
          delivered := delivered + [Signal.OnNext(items[i])];
          if items[i] in sub.rejects {
            assert Forward(before, sub, items[i..]) == CancelUpstream(RecordError(Abs(), Some(sub.fault)));
            SignalError(Some(sub.fault));
            CancelWhenKnown();
            return;
          }
          assert items[i..][1..] == items[i + 1..];
          i := i + 1;
        }
      }
    }

    method OnError(throwable: Option<Error>)
      requires Valid()
      modifies this, subscriberRef
      ensures Valid() && Abs() == Step(old(Abs()), UpstreamError(throwable))
      ensures subscriberRef == old(subscriberRef)
    {
      StepInv(Abs(), UpstreamError(throwable));
      SignalError(throwable);
    }

    method OnComplete()
      requires Valid()
      modifies this, subscriberRef
      ensures Valid() && Abs() == Step(old(Abs()), UpstreamComplete)
      ensures subscriberRef == old(subscriberRef)
    {
      StepInv(Abs(), UpstreamComplete);
      if subscriptionCF.None? {
        SignalError(Some(EarlyComplete));
      } else {
        Complete(Completed);
      }
    }

    // -------------------------------------------------------------------------
    // Downstream, called by the consumer of the body publisher

    /** subscribe(subscriber), reached through the publisher the body future
        yields; that future resolves together with subscriptionCF. The result is
        what the call throws back at its caller. */
    method Subscribe(subscriber: Option<Subscriber>) returns (raised: Option<Error>)
      requires Valid() && subscriptionCF.Some?
      modifies this
      ensures Valid() && Abs() == Step(old(Abs()), DownstreamSubscribe(subscriber))
      ensures raised == SubscribeRaises(old(Abs()), subscriber)
      ensures subscriberRef == old(subscriberRef) || (old(subscriberRef) == null && fresh(subscriberRef))
    {
      StepInv(Abs(), DownstreamSubscribe(subscriber));
      if subscriber.None? {
        return Some(NullSubscriber);
      }
      var sub := subscriber.value;
      var ref := new SubscriberRef(sub);
      if subscriberRef == null {
        subscriberRef := ref;
        Attach(ref);
        raised := None;
      } else {
        raised := RejectLate(sub);
      }
    }

    /** request(n) on the handle the accepted subscriber holds. */
    method Request(n: int)
      requires Valid()
      modifies this
      ensures Valid() && Abs() == Step(old(Abs()), DownstreamRequest(n))
      ensures subscriberRef == old(subscriberRef)
    {
      StepInv(Abs(), DownstreamRequest(n));
      if handle != null {
        var calls := handle.Request(n);
        upstreamCalls := upstreamCalls + calls;
      }
    }

    /** cancel() on the handle the accepted subscriber holds. */
    method Cancel()
      requires Valid()
      modifies this, subscriberRef
      ensures Valid() && Abs() == Step(old(Abs()), DownstreamCancel)
      ensures subscriberRef == old(subscriberRef)
    {
      StepInv(Abs(), DownstreamCancel);
      if handle != null {
        var calls := handle.Cancel();
        upstreamCalls := upstreamCalls + calls;
      }
    }

    // -------------------------------------------------------------------------
    // Internal steps

    /** The subscriptionCF.thenAccept continuation of an accepted subscribe: wrap
        the upstream subscription in a SubscriptionRef and hand it over; if the
        subscriber's onSubscribe throws, cancel through that handle, otherwise
        confirm the subscriber in subscribedCF. */
    method Attach(ref: SubscriberRef)
      requires ref == subscriberRef && handle == null && subscriptionCF.Some?
      requires ref.ref == Some(ref.owner) && subscribedCF.None?
      modifies this, ref
      ensures Wired() && subscriberRef == old(subscriberRef) && handle != null
      ensures Abs() == BridgeSpec.Attach(old(Abs()))
    {
      var subscription := new SubscriptionRef(subscriptionCF.value, ref);
      handle := subscription;
      var sent, threw := subscription.Subscribe();
      delivered := delivered + [sent.value];
      if threw.Some? {
        var calls := subscription.Cancel();
        upstreamCalls := upstreamCalls + calls;
      } else {
        MarkSubscribed(ref);
      }
    }

    /** A subscribe call that lost the compare-and-set: a do-nothing subscription,
        then the "already subscribed" error, unless onSubscribe throws back; what
        onError throws goes back to the caller as well. */
    method RejectLate(sub: Subscriber) returns (raised: Option<Error>)
      modifies this
      ensures subscriberRef == old(subscriberRef) && handle == old(handle)
      ensures Abs() == Reject(old(Abs()), sub)
      ensures raised == if sub.throwsOnSubscribe || sub.throwsOnError then Some(sub.fault) else None
      ensures Wired() <==> old(Wired())
    {
      rejected := rejected + [Rejection(sub, Signal.OnSubscribe(NoOp))];
      if sub.throwsOnSubscribe {
        return Some(sub.fault);
      }
      rejected := rejected + [Rejection(sub, Signal.OnError(AlreadySubscribed))];
      raised := if sub.throwsOnError then Some(sub.fault) else None;
    }

    /** complete(ref, t), the subscribedCF continuation: clear the slot and send
        the terminal signal to whoever it still held. */
    method Deliver(ref: SubscriberRef)
      requires Wired() && ref == subscriberRef && completionCF.Some?
      modifies this, ref
      ensures Wired() && subscriberRef == old(subscriberRef) && handle == old(handle)
      ensures Abs() == BridgeSpec.Deliver(old(Abs()))
    {
      var s := ref.Clear();
      if s.None? {
        return;
      }
      match completionCF.value
      case Failed(e) =>
        delivered := delivered + [Signal.OnError(e)];
      case Completed =>
        // onComplete, and onError with what it threw
        if s.value.throwsOnComplete {
          delivered := delivered + [Signal.OnComplete, Signal.OnError(s.value.fault)];
        } else {
          delivered := delivered + [Signal.OnComplete];
        }
    }

    /** completionCF.complete / completeExceptionally: the first outcome wins, and
        the whenComplete continuation delivers it once subscribedCF holds the ref. */
    method Complete(outcome: Outcome)
      requires Wired()
      modifies this, subscriberRef
      ensures Wired() && subscriberRef == old(subscriberRef) && handle == old(handle)
      ensures Abs() == Resolve(old(Abs()), outcome)
    {
      if completionCF.None? {
        completionCF := Some(outcome);
        if subscribedCF.Some? {
          Deliver(subscribedCF.value);
        }
      }
    }

    /** signalError: a null throwable is replaced by IllegalArgumentException. */
    method SignalError(throwable: Option<Error>)
      requires Wired()
      modifies this, subscriberRef
      ensures Wired() && subscriberRef == old(subscriberRef) && handle == old(handle)
      ensures Abs() == RecordError(old(Abs()), throwable)
    {
      Complete(Failed(if throwable.Some? then throwable.value else NullThrowable));
    }

    /** subscriptionCF.thenAccept(Subscription::cancel): cancel now if the upstream
        subscription is known, otherwise when it arrives. */
    method CancelWhenKnown()
      requires Wired()
      modifies this
      ensures Wired() && subscriberRef == old(subscriberRef) && handle == old(handle)
      ensures Abs() == CancelUpstream(old(Abs()))
    {
      if subscriptionCF.Some? {
        upstreamCalls := upstreamCalls + [CancelCall];
      } else {
        pendingCancels := pendingCancels + 1;
      }
    }

    /** subscribedCF.complete(ref), which runs completionCF's continuation when the
        outcome is already known. */
    method MarkSubscribed(ref: SubscriberRef)
      requires Wired() && ref == subscriberRef
      modifies this, ref
      ensures Wired() && subscriberRef == old(subscriberRef) && handle == old(handle)
      ensures Abs() == BridgeSpec.MarkSubscribed(old(Abs()))
    {
      if subscribedCF.None? {
        subscribedCF := Some(ref);
        if completionCF.Some? {
          Deliver(ref);
        }
      }
    }
  }

  // ---------------------------------------------------------------------------
  // Runs of the bridge

  /** A subscriber that asks for unbounded demand and accepts every buffer sees
      onSubscribe, every buffer of every batch in arrival order, and one
      onComplete; upstream sees only its demand. */
  method DeliverInOrder(up: Upstream, sub: Subscriber, batches: seq<seq<Buffer>>)
    returns (seen: seq<Signal>, calls: seq<UpstreamCall>)
    requires !sub.throwsOnSubscribe && !sub.throwsOnComplete
    requires forall j :: 0 <= j < |batches| ==> FirstRejected(sub, batches[j]) == |batches[j]|
    ensures seen == [OnSubscribe(Live)] + Nexts(Flatten(batches)) + [OnComplete]
    ensures calls == [RequestCall(UnboundedDemand)]
  {
    var p := NewSubscribed(up, sub);
    p.Request(UnboundedDemand);
    assert p.Abs() == State(Some(up), true, Installed(sub, true), None, 0, [OnSubscribe(Live)], [],
                            [RequestCall(UnboundedDemand)]);
    Feed(p, sub, batches);
    assert [OnSubscribe(Live)] + Nexts(Flatten(batches)) == p.delivered;
    ghost var drained := p.Abs();
    p.OnComplete();
    assert p.delivered == drained.delivered + [OnComplete];
    seen, calls := p.delivered, p.upstreamCalls;
  }

  /** The state right after onSubscribe and an accepted subscribe. */
  lemma {:induction false} SubscribedState(up: Upstream, sub: Subscriber)
    requires !sub.throwsOnSubscribe
    ensures Step(Step(Init, UpstreamSubscribe(up)), DownstreamSubscribe(Some(sub))) ==
      State(Some(up), true, Installed(sub, true), None, 0, [OnSubscribe(Live)], [], [])
  {
  }

  /** A new bridge that has received its upstream subscription and accepted `sub`. */
  method NewSubscribed(up: Upstream, sub: Subscriber) returns (p: BodySubscriberProxy)
    requires !sub.throwsOnSubscribe
    ensures fresh(p) && p.subscriberRef != null && fresh(p.subscriberRef) && p.Valid()
    ensures p.Abs() == State(Some(up), true, Installed(sub, true), None, 0, [OnSubscribe(Live)], [], [])
  {
    p := new BodySubscriberProxy();
    p.OnSubscribe(up);
    var _ := p.Subscribe(Some(sub));
    SubscribedState(up, sub);
  }

  /** Upstream sends the batches one onNext call at a time to a live subscriber
      that accepts every buffer. */
  method Feed(p: BodySubscriberProxy, sub: Subscriber, batches: seq<seq<Buffer>>)
    requires p.Valid() && p.Abs().slot == Installed(sub, true)
    requires forall j :: 0 <= j < |batches| ==> FirstRejected(sub, batches[j]) == |batches[j]|
    modifies p, p.subscriberRef
    ensures p.Valid() && p.subscriberRef == old(p.subscriberRef)
    ensures p.Abs() == old(p.Abs()).(delivered := old(p.delivered) + Nexts(Flatten(batches)))
  {
    ghost var s0 := p.Abs();
    var j := 0;
    while j < |batches|
      invariant 0 <= j <= |batches|
      invariant p.Valid() && p.subscriberRef == old(p.subscriberRef)
      invariant p.Abs() == s0.(delivered := s0.delivered + Nexts(Flatten(batches[..j])))
    {
      p.OnNext(batches[j]);
      FeedStep(s0, sub, batches, j);
      j := j + 1;
    }
    assert batches[..j] == batches;
  }

  lemma {:induction false} FeedStep(s0: State, sub: Subscriber, batches: seq<seq<Buffer>>, j: nat)
    requires s0.slot == Installed(sub, true) && j < |batches|
    requires FirstRejected(sub, batches[j]) == |batches[j]|
    ensures var before := s0.(delivered := s0.delivered + Nexts(Flatten(batches[..j])));
      Step(before, UpstreamNext(batches[j])) == s0.(delivered := s0.delivered + Nexts(Flatten(batches[..j + 1])))
  {
    var before := s0.(delivered := s0.delivered + Nexts(Flatten(batches[..j])));
    assert Step(before, UpstreamNext(batches[j])) == Forward(before, sub, batches[j]);
    ForwardAll(before, sub, batches[j]);
    assert Flatten(batches[..j + 1]) == Flatten(batches[..j]) + batches[j] by {
      assert batches[..j + 1] == batches[..j] + [batches[j]];
      FlattenSnoc(batches[..j], batches[j]);
    }
    NextsAppend(Flatten(batches[..j]), batches[j]);
    assert before.delivered + Nexts(batches[j]) == s0.delivered + Nexts(Flatten(batches[..j + 1]));
  }

  lemma {:induction false} FlattenSnoc(batches: seq<seq<Buffer>>, last: seq<Buffer>)
    ensures Flatten(batches + [last]) == Flatten(batches) + last
    decreases |batches|
  {
    if batches == [] {
      assert [] + [last] == [last];
    } else {
      assert (batches + [last])[1..] == batches[1..] + [last];
      FlattenSnoc(batches[1..], last);
    }
  }

  /** An error that arrives before anyone subscribes waits for the subscriber and
      reaches it right after its onSubscribe. */
  method ErrorWaitsForSubscriber(up: Upstream, sub: Subscriber, e: Error)
    returns (seen: seq<Signal>, calls: seq<UpstreamCall>)
    requires !sub.throwsOnSubscribe
    ensures seen == [OnSubscribe(Live), OnError(e)]
    ensures calls == []
  {
    var p := new BodySubscriberProxy();
    p.OnSubscribe(up);
    p.OnError(Some(e));
    var _ := p.Subscribe(Some(sub));
    p.Request(1);
    seen, calls := p.delivered, p.upstreamCalls;
  }

  /** Only the first subscriber is accepted: a second one gets a no-op handle and
      the "already subscribed" error, and the first one's stream is untouched. */
  method SecondSubscriberRejected(up: Upstream, first: Subscriber, second: Subscriber, item: Buffer)
    returns (firstSeen: seq<Signal>, secondSeen: seq<Rejection>, raised: Option<Error>)
    requires !first.throwsOnSubscribe && item !in first.rejects
    ensures firstSeen == [OnSubscribe(Live), OnNext(item)]
    ensures secondSeen == [Rejection(second, OnSubscribe(NoOp))]
                          + (if second.throwsOnSubscribe then [] else [Rejection(second, OnError(AlreadySubscribed))])
    ensures raised == if second.throwsOnSubscribe || second.throwsOnError then Some(second.fault) else None
  {
    var p := NewSubscribed(up, first);
    ghost var accepted := p.Abs();
    LateSubscriberRejected(accepted, second);
    raised := p.Subscribe(Some(second));
    ghost var before := p.Abs();
    assert before == accepted.(rejected := p.rejected);
    p.OnNext([item]);
    ForwardAll(before, first, [item]);
    assert Nexts([item]) == [OnNext(item)];
    firstSeen, secondSeen := p.delivered, p.rejected;
  }

  /** After cancel, neither data, nor the outcome, nor further demand gets through. */
  method CancelSilences(up: Upstream, sub: Subscriber, items: seq<Buffer>)
    returns (seen: seq<Signal>, calls: seq<UpstreamCall>)
    requires !sub.throwsOnSubscribe
    ensures seen == [OnSubscribe(Live)]
    ensures calls == [RequestCall(1), CancelCall]
  {
    var p := NewSubscribed(up, sub);
    ghost var accepted := p.Abs();
    p.Request(1);
    assert p.Abs() == accepted.(upstream := [RequestCall(1)]);
    p.Cancel();
    ghost var cancelled := p.Abs();
    assert cancelled == State(Some(up), true, Installed(sub, false), None, 0, [OnSubscribe(Live)], [],
                              [RequestCall(1), CancelCall]);
    p.Request(1);
    assert p.Abs() == cancelled;
    p.OnNext(items);
    assert p.Abs() == cancelled;
    p.OnComplete();
    assert p.Abs() == cancelled.(completion := Some(Completed));
    seen, calls := p.delivered, p.upstreamCalls;
  }

  /** onNext with no subscriber attached fails: the error becomes the outcome and
      the upstream cancel, registered before onSubscribe, runs when it arrives. */
  method DataWithoutSubscriber(up: Upstream, items: seq<Buffer>)
    returns (outcome: Option<Outcome>, calls: seq<UpstreamCall>)
    ensures outcome == Some(Failed(NullPointer))
    ensures calls == [CancelCall]
  {
    var p := new BodySubscriberProxy();
    p.OnNext(items);
    p.OnSubscribe(up);
    p.OnComplete();
    assert Cancels(1) == [CancelCall];
    outcome, calls := p.completionCF, p.upstreamCalls;
  }

  /** A subscriber whose onComplete throws is sent onError with what it threw,
      right after the onComplete. */
  method CompleteThrowsThenError(up: Upstream, sub: Subscriber)
    returns (seen: seq<Signal>, calls: seq<UpstreamCall>)
    requires !sub.throwsOnSubscribe && sub.throwsOnComplete
    ensures seen == [OnSubscribe(Live), OnComplete, OnError(sub.fault)]
    ensures calls == []
  {
    var p := NewSubscribed(up, sub);
    p.OnComplete();
    seen, calls := p.delivered, p.upstreamCalls;
  }

  /** A subscriber whose onSubscribe throws is cancelled and never hears the outcome. */
  method ThrowingSubscriberCancelled(up: Upstream, sub: Subscriber)
    returns (seen: seq<Signal>, calls: seq<UpstreamCall>, raised: Option<Error>)
    requires sub.throwsOnSubscribe
    ensures seen == [OnSubscribe(Live)]
    ensures calls == [CancelCall]
    ensures raised == None
  {
    var p := new BodySubscriberProxy();
    p.OnSubscribe(up);
    raised := p.Subscribe(Some(sub));
    p.Request(5);
    p.OnComplete();
    seen, calls := p.delivered, p.upstreamCalls;
  }
}
