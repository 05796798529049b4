/** The response-body bridge (BodySubscriberProxy) as a pure state machine.

    The bridge is driven by three independent sources: the JDK client upstream
    (onSubscribe, onNext, onError, onComplete), the AWS SDK consumer downstream
    (subscribe), and that consumer again through the subscription handle it was
    given (request, cancel). A race between them is an arbitrary order of the
    events below; `Step` says what one event does and `Run` plays a sequence.

    The three CompletableFutures are write-once `Option` fields, and each
    continuation runs at the moment its future resolves: `Resolve` (the terminal
    outcome) and `MarkSubscribed` (the accepted subscriber is confirmed) each fire
    the terminal delivery when the other one already holds. */
module BridgeSpec {
  import opened Flow

  const NullThrowable: Error := IllegalArgument("null throwable")
  const NullSubscriber: Error := IllegalArgument("subscriber must not be null")
  const AlreadySubscribed: Error := IllegalState("This publisher has already one subscriber")
  const EarlyComplete: Error := Internal("onComplete called before onSubscribed")

  /** Long.MAX_VALUE, the conventional "unbounded" demand. */
  const UnboundedDemand: int := 0x7fff_ffff_ffff_ffff

  /** How completionCF resolves: normally, or exceptionally with a throwable. */
  datatype Outcome = Completed | Failed(error: Error)

  /** subscriberRef together with the inner SubscriberRef.ref: no subscriber
      accepted yet, or the accepted one, `live` while ref has not been cleared. */
  datatype Slot = Empty | Installed(subscriber: Subscriber, live: bool)

  datatype State = State(
    subscription: Option<Upstream>,   // subscriptionCF
    subscribed: bool,                 // subscribedCF (it only ever holds the slot's ref)
    slot: Slot,                       // subscriberRef
    completion: Option<Outcome>,      // completionCF
    pendingCancels: nat,              // Subscription::cancel continuations waiting on subscriptionCF
    delivered: seq<Signal>,           // calls made on the accepted subscriber
    rejected: seq<Rejection>,         // calls made on late subscribers
    upstream: seq<UpstreamCall>)      // calls made on the upstream subscription

  const Init: State := State(None, false, Empty, None, 0, [], [], [])

  datatype Event =
    | UpstreamSubscribe(subscription: Upstream)
    | UpstreamNext(items: seq<Buffer>)
    | UpstreamError(error: Option<Error>)   // None is a null throwable
    | UpstreamComplete
    | DownstreamSubscribe(subscriber: Option<Subscriber>)   // None is a null subscriber
    | DownstreamRequest(n: int)
    | DownstreamCancel

  /** The body future resolves to the publisher once the upstream subscription is
      known; only then can anyone call subscribe. */
  predicate BodyReady(s: State) { s.subscription.Some? }

  /** The accepted subscriber holds a SubscriptionRef. */
  predicate HasHandle(s: State) { s.slot.Installed? && s.subscription.Some? }

  function Cancels(k: nat): seq<UpstreamCall> { seq(k, _ => CancelCall) }

  function Nexts(items: seq<Buffer>): (r: seq<Signal>)
    ensures |r| == |items|
    ensures forall i {:trigger r[i]} :: 0 <= i < |items| ==> r[i] == OnNext(items[i])
  {
    if items == [] then [] else [OnNext(items[0])] + Nexts(items[1..])
  }

  /** The position of the first buffer on which the subscriber's onNext throws,
      or the length of the batch when there is none. */
  function FirstRejected(sub: Subscriber, items: seq<Buffer>): (k: nat)
    ensures k <= |items|
    ensures forall i :: 0 <= i < k ==> items[i] !in sub.rejects
    ensures k < |items| ==> items[k] in sub.rejects
  {
    if items == [] || items[0] in sub.rejects then 0 else 1 + FirstRejected(sub, items[1..])
  }

  // ---------------------------------------------------------------------------
  // The pieces of behaviour the events are made of

  /** complete(ref, t): clear the slot and send the one terminal signal, unless the
      slot was already cleared. A throwing onComplete is answered with onError.
      This runs as a subscribedCF continuation, so whatever the subscriber's
      onError throws here stays in that continuation's stage. */
  function Deliver(s: State): State
    requires s.slot.Installed? && s.completion.Some?
  {
    if !s.slot.live then s
    else
      var sub := s.slot.subscriber;
      var cleared := s.(slot := Installed(sub, false));
      match s.completion.value
      case Failed(e) => cleared.(delivered := s.delivered + [OnError(e)])
      case Completed =>
        if sub.throwsOnComplete then cleared.(delivered := s.delivered + [OnComplete, OnError(sub.fault)])
        else cleared.(delivered := s.delivered + [OnComplete])
  }

  /** completionCF.complete / completeExceptionally, and its whenComplete continuation. */
  function Resolve(s: State, o: Outcome): State {
    if s.completion.Some? then s
    else
      var s' := s.(completion := Some(o));
      if s'.subscribed && s'.slot.Installed? then Deliver(s') else s'
  }

  /** signalError: a null throwable becomes an IllegalArgumentException. */
  function RecordError(s: State, t: Option<Error>): State {
    Resolve(s, Failed(if t.Some? then t.value else NullThrowable))
  }

  /** subscriptionCF.thenAccept(Subscription::cancel). */
  function CancelUpstream(s: State): State {
    if s.subscription.Some? then s.(upstream := s.upstream + [CancelCall])
    else s.(pendingCancels := s.pendingCancels + 1)
  }

  /** subscribedCF.complete(ref), and the continuation completionCF registered on it. */
  function MarkSubscribed(s: State): State {
    if s.subscribed then s
    else
      var s' := s.(subscribed := true);
      if s'.completion.Some? && s'.slot.Installed? then Deliver(s') else s'
  }

  /** The subscriptionCF.thenAccept continuation of a successful subscribe: hand the
      subscriber its SubscriptionRef; if its onSubscribe throws, cancel through that
      handle, otherwise confirm it in subscribedCF. */
  function Attach(s: State): State
    requires s.slot.Installed?
  {
    var s' := s.(delivered := s.delivered + [OnSubscribe(Live)]);
    if s.slot.subscriber.throwsOnSubscribe then
      s'.(upstream := s'.upstream + [CancelCall], slot := Installed(s.slot.subscriber, false))
    else MarkSubscribed(s')
  }

  /** A subscribe call that lost the compare-and-set. */
  function Reject(s: State, sub: Subscriber): State {
    var r := s.rejected + [Rejection(sub, OnSubscribe(NoOp))];
    if sub.throwsOnSubscribe then s.(rejected := r)
    else s.(rejected := r + [Rejection(sub, OnError(AlreadySubscribed))])
  }

  /** item.forEach(subscriber::onNext) inside onNext's try block. */
  function Forward(s: State, sub: Subscriber, items: seq<Buffer>): State
    decreases |items|
  {
    if items == [] then s
    else
      var s' := s.(delivered := s.delivered + [OnNext(items[0])]);
      if items[0] in sub.rejects then CancelUpstream(RecordError(s', Some(sub.fault)))
      else Forward(s', sub, items[1..])
  }

  // ---------------------------------------------------------------------------
  // Events

  function Step(s: State, e: Event): State {
    match e
    case UpstreamSubscribe(up) =>
      if s.subscription.Some? then s
      else s.(subscription := Some(up), upstream := s.upstream + Cancels(s.pendingCancels), pendingCancels := 0)
    case UpstreamNext(items) =>
      (match s.slot
       case Empty => CancelUpstream(RecordError(s, Some(NullPointer)))
       case Installed(sub, live) => if live then Forward(s, sub, items) else s)
    case UpstreamError(t) => RecordError(s, t)
    case UpstreamComplete =>
      if s.subscription.None? then RecordError(s, Some(EarlyComplete)) else Resolve(s, Completed)
    case DownstreamSubscribe(subscriber) =>
      if subscriber.None? || !BodyReady(s) then s
      else if s.slot.Empty? then Attach(s.(slot := Installed(subscriber.value, true)))
      else Reject(s, subscriber.value)
    case DownstreamRequest(n) =>
      if HasHandle(s) && s.slot.live then s.(upstream := s.upstream + [RequestCall(n)]) else s
    case DownstreamCancel =>
      if HasHandle(s) then s.(upstream := s.upstream + [CancelCall], slot := Installed(s.slot.subscriber, false))
      else s
  }

  /** What a subscribe call throws back at its caller. The accepted subscriber's
      onSubscribe runs under a try block inside a subscriptionCF continuation, so
      only a late subscriber's own onSubscribe or onError can throw back. */
  function SubscribeRaises(s: State, subscriber: Option<Subscriber>): Option<Error> {
    match subscriber
    case None => Some(NullSubscriber)
    case Some(sub) =>
      if BodyReady(s) && s.slot.Installed? && (sub.throwsOnSubscribe || sub.throwsOnError) then Some(sub.fault)
      else None
  }

  function Run(s: State, events: seq<Event>): State
    decreases |events|
  {
    if events == [] then s else Run(Step(s, events[0]), events[1..])
  }

  // ---------------------------------------------------------------------------
  // What the accepted subscriber sees: onSubscribe, data, at most one ending

  predicate AllData(t: seq<Signal>) { forall i :: 0 <= i < |t| ==> t[i].OnNext? }

  predicate IsTerminal(x: Signal) { x.OnComplete? || x.OnError? }

  /** Data, then nothing, one terminal signal, or an onComplete that threw and was
      followed by onError. */
  predicate DataThenEnd(t: seq<Signal>) {
    || AllData(t)
    || (|t| >= 1 && AllData(t[..|t| - 1]) && IsTerminal(t[|t| - 1]))
    || (|t| >= 2 && AllData(t[..|t| - 2]) && t[|t| - 2] == OnComplete && t[|t| - 1].OnError?)
  }

  predicate Stream(d: seq<Signal>) {
    |d| >= 1 && d[0] == OnSubscribe(Live) && DataThenEnd(d[1..])
  }

  predicate Ended(d: seq<Signal>) { |d| >= 2 && IsTerminal(d[|d| - 1]) }

  /** The terminal signal sent is the recorded outcome. */
  predicate Agrees(d: seq<Signal>, c: Option<Outcome>)
    requires Ended(d)
  {
    && c.Some?
    && match c.value
       case Completed => d[|d| - 1] == OnComplete || d[|d| - 2] == OnComplete
       case Failed(e) => d[|d| - 1] == OnError(e) && d[|d| - 2] != OnComplete
  }

  predicate IsRejection(x: Signal) { x == OnSubscribe(NoOp) || x == OnError(AlreadySubscribed) }

  /** The invariant of every reachable state. */
  ghost predicate Inv(s: State) {
    && (s.pendingCancels > 0 ==> s.subscription.None?)
    && (s.completion == Some(Completed) ==> s.subscription.Some?)
    && (s.slot.Empty? ==> s.delivered == [] && !s.subscribed)
    && (s.slot.Installed? ==> s.subscription.Some? && Stream(s.delivered))
    && (s.slot.Installed? && s.slot.live ==> s.subscribed && s.completion.None? && AllData(s.delivered[1..]))
    && (Ended(s.delivered) ==> s.subscribed && Agrees(s.delivered, s.completion))
    && (forall i :: 0 <= i < |s.rejected| ==> IsRejection(s.rejected[i].signal))
  }

  // ---------------------------------------------------------------------------
  // Proofs

  lemma {:induction false} EndAfterData(d: seq<Signal>, tail: seq<Signal>)
    requires |d| >= 1 && d[0] == OnSubscribe(Live) && AllData(d[1..])
    requires tail == [] || (|tail| == 1 && IsTerminal(tail[0]))
             || (|tail| == 2 && tail[0] == OnComplete && tail[1].OnError?)
    ensures Stream(d + tail)
    ensures (d + tail)[1..] == d[1..] + tail
  {
    var t := d[1..] + tail;
    assert (d + tail)[1..] == t;
    if |tail| == 1 {
      assert t[..|t| - 1] == d[1..];
    } else if |tail| == 2 {
      assert t[..|t| - 2] == d[1..];
    }
  }

  lemma {:induction false} InitInv()
    ensures Inv(Init)
  {
  }

  /** Forwarding a batch whose first part the subscriber accepts is forwarding
      that part, then the rest. */
  lemma {:induction false} ForwardSplit(s: State, sub: Subscriber, pre: seq<Buffer>, rest: seq<Buffer>)
    requires FirstRejected(sub, pre) == |pre|
    ensures Forward(s, sub, pre + rest) == Forward(s.(delivered := s.delivered + Nexts(pre)), sub, rest)
    decreases |pre|
  {
    if pre == [] {
      assert pre + rest == rest;
      assert s.delivered + Nexts(pre) == s.delivered;
    } else {
      var s1 := s.(delivered := s.delivered + [OnNext(pre[0])]);
      assert Forward(s, sub, pre + rest) == Forward(s1, sub, pre[1..] + rest) by {
        assert (pre + rest)[0] == pre[0];
        assert (pre + rest)[1..] == pre[1..] + rest;
        assert pre[0] !in sub.rejects;
      }
      ForwardSplit(s1, sub, pre[1..], rest);
      assert s.delivered + Nexts(pre) == s1.delivered + Nexts(pre[1..]) by {
        assert Nexts(pre) == [OnNext(pre[0])] + Nexts(pre[1..]);
      }
    }
  }

  /** onNext on a live slot with no throwing buffer forwards the whole batch, in
      order, and changes nothing else. */
  lemma {:induction false} ForwardAll(s: State, sub: Subscriber, items: seq<Buffer>)
    requires FirstRejected(sub, items) == |items|
    ensures Forward(s, sub, items) == s.(delivered := s.delivered + Nexts(items))
  {
    ForwardSplit(s, sub, items, []);
    assert items + [] == items;
  }

  /** onNext on a live slot whose subscriber throws on the k-th buffer forwards the
      buffers before it and that buffer; the thrown error becomes the outcome and
      is delivered at once, the slot is cleared and upstream is cancelled. */
  lemma {:induction false} ForwardFails(s: State, sub: Subscriber, items: seq<Buffer>)
    requires s.slot == Installed(sub, true) && s.subscribed && s.completion.None? && s.subscription.Some?
    requires FirstRejected(sub, items) < |items|
    ensures var k := FirstRejected(sub, items);
      Forward(s, sub, items) ==
        s.(delivered := s.delivered + Nexts(items[..k]) + [OnNext(items[k]), OnError(sub.fault)],
           completion := Some(Failed(sub.fault)),
           slot := Installed(sub, false),
           upstream := s.upstream + [CancelCall])
  {
    var k := FirstRejected(sub, items);
    assert items == items[..k] + items[k..];
    assert FirstRejected(sub, items[..k]) == k by {
      FirstRejectedOfPrefix(sub, items[..k]);
    }
    ForwardSplit(s, sub, items[..k], items[k..]);
    var s1 := s.(delivered := s.delivered + Nexts(items[..k]));
    var s2 := s1.(delivered := s1.delivered + [OnNext(items[k])]);
    assert items[k..][0] == items[k];
    assert Forward(s1, sub, items[k..]) == CancelUpstream(RecordError(s2, Some(sub.fault)));
    assert s2.delivered + [OnError(sub.fault)] == s.delivered + Nexts(items[..k]) + [OnNext(items[k]), OnError(sub.fault)];
  }

  lemma {:induction false} FirstRejectedOfPrefix(sub: Subscriber, items: seq<Buffer>)
    requires forall i :: 0 <= i < |items| ==> items[i] !in sub.rejects
    ensures FirstRejected(sub, items) == |items|
    decreases |items|
  {
    if items != [] {
      FirstRejectedOfPrefix(sub, items[1..]);
    }
  }

  lemma {:induction false} NextsKeepData(d: seq<Signal>, items: seq<Buffer>)
    requires |d| >= 1 && AllData(d[1..])
    ensures AllData((d + Nexts(items))[1..])
    ensures (d + Nexts(items))[0] == d[0]
  {
    assert (d + Nexts(items))[1..] == d[1..] + Nexts(items);
  }

  lemma {:induction false} StepForwardInv(s: State, items: seq<Buffer>)
    requires Inv(s) && s.slot.Installed? && s.slot.live
    ensures Inv(Step(s, UpstreamNext(items)))
  {
    if FirstRejected(s.slot.subscriber, items) == |items| {
      ForwardAllInv(s, items);
    } else {
      ForwardFailsInv(s, items);
    }
  }

  lemma {:induction false} ForwardAllInv(s: State, items: seq<Buffer>)
    requires Inv(s) && s.slot.Installed? && s.slot.live
    requires FirstRejected(s.slot.subscriber, items) == |items|
    ensures Inv(Forward(s, s.slot.subscriber, items))
  {
    ForwardAll(s, s.slot.subscriber, items);
    NextsKeepData(s.delivered, items);
    EndAfterData(s.delivered + Nexts(items), []);
  }

  lemma {:induction false} ForwardFailsInv(s: State, items: seq<Buffer>)
    requires Inv(s) && s.slot.Installed? && s.slot.live
    requires FirstRejected(s.slot.subscriber, items) < |items|
    ensures Inv(Forward(s, s.slot.subscriber, items))
  {
    var sub := s.slot.subscriber;
    var k := FirstRejected(sub, items);
    ForwardFails(s, sub, items);
    var d := s.delivered + Nexts(items[..k]) + [OnNext(items[k])];
    assert AllData(d[1..]) && d[0] == OnSubscribe(Live) by {
      NextsKeepData(s.delivered, items[..k] + [items[k]]);
      NextsAppend(items[..k], [items[k]]);
    }
    EndAfterData(d, [OnError(sub.fault)]);
    assert d + [OnError(sub.fault)] == s.delivered + Nexts(items[..k]) + [OnNext(items[k]), OnError(sub.fault)];
    assert d[|d| - 1] == OnNext(items[k]);
  }

  /** When the confirmed subscriber still holds the slot and no outcome was known,
      recording one sends it at once and clears the slot: onError(e), or
      onComplete, followed by onError with what onComplete threw. Otherwise the
      subscriber is sent nothing. */
  lemma {:induction false} ResolveDelivers(s: State, o: Outcome)
    ensures s.completion.None? && s.subscribed && s.slot.Installed? && s.slot.live ==>
      var sub := s.slot.subscriber;
      var t := Resolve(s, o);
      && t.completion == Some(o)
      && t.slot == Installed(sub, false)
      && t.delivered == s.delivered + (match o
                                       case Failed(e) => [OnError(e)]
                                       case Completed =>
                                         if sub.throwsOnComplete then [OnComplete, OnError(sub.fault)] else [OnComplete])
    ensures !(s.completion.None? && s.subscribed && s.slot.Installed? && s.slot.live) ==>
      Resolve(s, o).delivered == s.delivered
  {
  }

  /** Recording an outcome keeps the invariant. */
  lemma {:induction false} ResolveInv(s: State, o: Outcome)
    requires Inv(s)
    requires o == Completed ==> s.subscription.Some?
    ensures Inv(Resolve(s, o))
    ensures Resolve(s, o).rejected == s.rejected && Resolve(s, o).subscription == s.subscription
  {
    if s.completion.None? && s.subscribed && s.slot.Installed? && s.slot.live {
      var sub := s.slot.subscriber;
      match o
      case Failed(e) => EndAfterData(s.delivered, [OnError(e)]);
      case Completed =>
        if sub.throwsOnComplete {
          EndAfterData(s.delivered, [OnComplete, OnError(sub.fault)]);
        } else {
          EndAfterData(s.delivered, [OnComplete]);
        }
    }
  }

  lemma {:induction false} SubscribeInv(s: State, sub: Subscriber)
    requires Inv(s) && BodyReady(s)
    ensures Inv(Step(s, DownstreamSubscribe(Some(sub))))
  {
    if s.slot.Empty? {
      AcceptInv(s, sub);
    } else {
      var r := Step(s, DownstreamSubscribe(Some(sub)));
      assert forall i :: 0 <= i < |r.rejected| ==> IsRejection(r.rejected[i].signal);
    }
  }

  /** The subscriber that wins the compare-and-set is handed the live handle. */
  lemma {:induction false} AcceptInv(s: State, sub: Subscriber)
    requires Inv(s) && BodyReady(s) && s.slot.Empty?
    ensures Inv(Attach(s.(slot := Installed(sub, true))))
  {
    var s2 := s.(slot := Installed(sub, true), delivered := [OnSubscribe(Live)]);
    EndAfterData([OnSubscribe(Live)], []);
    assert [OnSubscribe(Live)][1..] == [];
    if !sub.throwsOnSubscribe {
      ConfirmInv(s2);
    }
  }

  /** Confirming a subscriber that has only seen onSubscribe delivers a recorded
      outcome at once, and otherwise only marks it confirmed. */
  lemma {:induction false} ConfirmInv(s: State)
    requires s.slot.Installed? && s.slot.live && !s.subscribed && s.delivered == [OnSubscribe(Live)]
    requires s.subscription.Some? && s.pendingCancels == 0
    requires forall i :: 0 <= i < |s.rejected| ==> IsRejection(s.rejected[i].signal)
    ensures Inv(MarkSubscribed(s))
    ensures MarkSubscribed(s).subscribed
    ensures s.completion.None? ==> MarkSubscribed(s) == s.(subscribed := true)
    ensures s.completion.Some? ==>
      var sub := s.slot.subscriber;
      var t := MarkSubscribed(s);
      && t.slot == Installed(sub, false)
      && t.delivered == [OnSubscribe(Live)] + (match s.completion.value
                                               case Failed(e) => [OnError(e)]
                                               case Completed =>
                                                 if sub.throwsOnComplete then [OnComplete, OnError(sub.fault)] else [OnComplete])
  {
    var sub := s.slot.subscriber;
    assert s.delivered[1..] == [];
    if s.completion.Some? {
      match s.completion.value
      case Failed(e) => EndAfterData(s.delivered, [OnError(e)]);
      case Completed =>
        if sub.throwsOnComplete {
          EndAfterData(s.delivered, [OnComplete, OnError(sub.fault)]);
        } else {
          EndAfterData(s.delivered, [OnComplete]);
        }
    }
  }

  /** Every event keeps the invariant. */
  lemma {:induction false} StepInv(s: State, e: Event)
    requires Inv(s)
    ensures Inv(Step(s, e))
  {
    match e
    case UpstreamSubscribe(up) =>
    case UpstreamNext(items) =>
      if s.slot.Empty? {
        ResolveInv(s, Failed(NullPointer));
      } else if s.slot.live {
        StepForwardInv(s, items);
      }
    case UpstreamError(t) => ResolveInv(s, Failed(if t.Some? then t.value else NullThrowable));
    case UpstreamComplete =>
      if s.subscription.None? { ResolveInv(s, Failed(EarlyComplete)); } else { ResolveInv(s, Completed); }
    case DownstreamSubscribe(subscriber) =>
      if subscriber.Some? && BodyReady(s) { SubscribeInv(s, subscriber.value); }
    case DownstreamRequest(n) =>
    case DownstreamCancel =>
  }

  lemma {:induction false} RunInv(s: State, events: seq<Event>)
    requires Inv(s)
    ensures Inv(Run(s, events))
    decreases |events|
  {
    if events != [] {
      StepInv(s, events[0]);
      RunInv(Step(s, events[0]), events[1..]);
    }
  }

  /** Whatever order the three sources call in, the accepted subscriber sees
      onSubscribe with the live handle, then data only, then at most one terminal
      signal, which is the recorded outcome and comes only once the subscriber was
      confirmed; late subscribers only ever see the no-op handle and the
      "already subscribed" error; success is never recorded before onSubscribe. */
  lemma {:induction false} ReachableBehaviour(events: seq<Event>)
    ensures var s := Run(Init, events);
      && (s.slot.Empty? ==> s.delivered == [])
      && (s.slot.Installed? ==> Stream(s.delivered))
      && (Ended(s.delivered) ==> s.subscribed && Agrees(s.delivered, s.completion))
      && (s.subscribed && s.completion.Some? ==> s.slot.Installed? && !s.slot.live)
      && (forall i :: 0 <= i < |s.rejected| ==> IsRejection(s.rejected[i].signal))
      && (s.completion == Some(Completed) ==> s.subscription.Some?)
  {
    InitInv();
    RunInv(Init, events);
  }

  /** The terminal signal goes out in the step that makes both "outcome recorded"
      and "subscriber confirmed" true, unless the slot was already cleared, and
      never earlier. */
  lemma {:induction false} TerminalWaitsForBoth(s: State, e: Event)
    requires Inv(s)
    ensures var t := Step(s, e);
      && (Ended(t.delivered) && !Ended(s.delivered) ==>
            t.subscribed && t.completion.Some? && t.slot.Installed? && !t.slot.live)
      && (t.subscribed && t.completion.Some? ==> t.slot.Installed? && !t.slot.live)
      && ((s.slot.Empty? || s.slot.live) && t.subscribed && t.completion.Some? ==>
            Ended(t.delivered) && Agrees(t.delivered, t.completion))
  {
    StepInv(s, e);
    var t := Step(s, e);
    if (s.slot.Empty? || s.slot.live) && t.subscribed && t.completion.Some? {
      match e
      case UpstreamNext(items) =>
        if s.slot.Installed? {
          var sub := s.slot.subscriber;
          if FirstRejected(sub, items) == |items| {
            ForwardAll(s, sub, items);
          } else {
            ForwardFails(s, sub, items);
          }
        }
      case UpstreamError(err) => ResolveDelivers(s, Failed(if err.Some? then err.value else NullThrowable));
      case UpstreamComplete =>
        if s.subscription.None? { ResolveDelivers(s, Failed(EarlyComplete)); } else { ResolveDelivers(s, Completed); }
      case DownstreamSubscribe(subscriber) =>
        if s.slot.Empty? && subscriber.Some? && BodyReady(s) && !subscriber.value.throwsOnSubscribe {
          ConfirmInv(s.(slot := Installed(subscriber.value, true), delivered := [OnSubscribe(Live)]));
        }
      case _ =>
    }
  }

  /** The first subscribe after the body is available installs its subscriber;
      nothing ever replaces it. */
  lemma {:induction false} AcceptedSubscriberStays(s: State, events: seq<Event>)
    requires s.slot.Installed?
    ensures Run(s, events).slot.Installed?
    ensures Run(s, events).slot.subscriber == s.slot.subscriber
    ensures !s.slot.live ==> !Run(s, events).slot.live
    decreases |events|
  {
    if events != [] {
      var e := events[0];
      var t := Step(s, e);
      if e.UpstreamNext? && s.slot.live {
        StepKeepsSlot(s, s.slot.subscriber, e.items);
      }
      AcceptedSubscriberStays(t, events[1..]);
    }
  }

  lemma {:induction false} StepKeepsSlot(s: State, sub: Subscriber, items: seq<Buffer>)
    requires s.slot.Installed? && s.slot.subscriber == sub
    ensures Forward(s, sub, items).slot.Installed?
    ensures Forward(s, sub, items).slot.subscriber == sub
    ensures !s.slot.live ==> !Forward(s, sub, items).slot.live
    ensures Forward(s, sub, items).subscription == s.subscription
    ensures s.completion.Some? ==> Forward(s, sub, items).completion == s.completion
    decreases |items|
  {
    if items != [] {
      var s1 := s.(delivered := s.delivered + [OnNext(items[0])]);
      if items[0] !in sub.rejects {
        StepKeepsSlot(s1, sub, items[1..]);
      }
    }
  }

  /** The first subscribe, once the body is available, wins the compare-and-set. */
  lemma {:induction false} FirstSubscribeWins(s: State, sub: Subscriber, events: seq<Event>)
    requires BodyReady(s) && s.slot.Empty?
    ensures Run(s, [DownstreamSubscribe(Some(sub))] + events).slot.Installed?
    ensures Run(s, [DownstreamSubscribe(Some(sub))] + events).slot.subscriber == sub
  {
    var t := Step(s, DownstreamSubscribe(Some(sub)));
    assert ([DownstreamSubscribe(Some(sub))] + events)[1..] == events;
    AcceptedSubscriberStays(t, events);
  }

  /** A late subscriber gets a no-op handle and then the "already subscribed"
      error (unless its onSubscribe throws); what either of its callbacks throws
      propagates to its caller; the accepted subscriber and the upstream see
      nothing of it. */
  lemma {:induction false} LateSubscriberRejected(s: State, sub: Subscriber)
    requires BodyReady(s) && s.slot.Installed?
    ensures var t := Step(s, DownstreamSubscribe(Some(sub)));
      && t.(rejected := s.rejected) == s
      && t.rejected == s.rejected + [Rejection(sub, OnSubscribe(NoOp))]
                       + (if sub.throwsOnSubscribe then [] else [Rejection(sub, OnError(AlreadySubscribed))])
      && SubscribeRaises(s, Some(sub)) == (if sub.throwsOnSubscribe || sub.throwsOnError then Some(sub.fault) else None)
  {
  }

  /** subscribe(null) throws IllegalArgumentException and changes nothing. */
  lemma {:induction false} NullSubscriberRefused(s: State)
    ensures Step(s, DownstreamSubscribe(None)) == s
    ensures SubscribeRaises(s, None) == Some(NullSubscriber)
  {
  }

  /** The terminal outcome is write-once: the first terminal signal wins. */
  lemma {:induction false} OutcomeWriteOnce(s: State, events: seq<Event>)
    requires s.completion.Some?
    ensures Run(s, events).completion == s.completion
    decreases |events|
  {
    if events != [] {
      var e := events[0];
      if e.UpstreamNext? && s.slot.Installed? && s.slot.live {
        StepKeepsSlot(s, s.slot.subscriber, e.items);
      }
      OutcomeWriteOnce(Step(s, e), events[1..]);
    }
  }

  /** The upstream subscription is write-once: a second onSubscribe is ignored. */
  lemma {:induction false} SubscriptionWriteOnce(s: State, events: seq<Event>)
    requires s.subscription.Some?
    ensures Run(s, events).subscription == s.subscription
    decreases |events|
  {
    if events != [] {
      var e := events[0];
      if e.UpstreamNext? && s.slot.Installed? && s.slot.live {
        StepKeepsSlot(s, s.slot.subscriber, e.items);
      }
      SubscriptionWriteOnce(Step(s, e), events[1..]);
    }
  }

  /** A null throwable from upstream is recorded as IllegalArgumentException. */
  lemma {:induction false} NullErrorReplaced(s: State)
    requires s.completion.None?
    ensures Step(s, UpstreamError(None)).completion == Some(Failed(NullThrowable))
  {
  }

  /** onComplete before onSubscribe records an InternalError, never success. */
  lemma {:induction false} PrematureCompleteFails(s: State)
    requires s.subscription.None? && s.completion.None?
    ensures Step(s, UpstreamComplete).completion == Some(Failed(EarlyComplete))
  {
  }

  /** The three behaviours of onNext: forward to a live subscriber, drop silently
      on a cleared slot, fail with nobody attached. */
  lemma {:induction false} OnNextBehaviour(s: State, items: seq<Buffer>)
    requires Inv(s)
    ensures var t := Step(s, UpstreamNext(items));
      && (s.slot.Installed? && s.slot.live && FirstRejected(s.slot.subscriber, items) == |items| ==>
            t == s.(delivered := s.delivered + Nexts(items)))
      && (s.slot.Installed? && !s.slot.live ==> t == s)
      && (s.slot.Empty? ==>
            && t.delivered == s.delivered
            && t.completion == (if s.completion.None? then Some(Failed(NullPointer)) else s.completion)
            && (if s.subscription.Some? then t.upstream == s.upstream + [CancelCall] && t.pendingCancels == s.pendingCancels
                else t.upstream == s.upstream && t.pendingCancels == s.pendingCancels + 1))
  {
    if s.slot.Installed? && s.slot.live && FirstRejected(s.slot.subscriber, items) == |items| {
      ForwardAll(s, s.slot.subscriber, items);
    }
  }

  /** After the slot is cleared (cancel, delivered terminal, or a throwing
      onSubscribe), the subscriber is sent nothing more and no demand reaches
      upstream, whatever happens next. */
  lemma {:induction false} ClearedSlotIsSilent(s: State, events: seq<Event>)
    requires s.slot.Installed? && !s.slot.live
    ensures var r := Run(s, events);
      && r.delivered == s.delivered
      && |s.upstream| <= |r.upstream| && r.upstream[..|s.upstream|] == s.upstream
      && forall i :: |s.upstream| <= i < |r.upstream| ==> r.upstream[i] == CancelCall
    decreases |events|
  {
    if events == [] {
      assert s.upstream[..|s.upstream|] == s.upstream;
    } else {
      var t := Step(s, events[0]);
      assert t.delivered == s.delivered && |s.upstream| <= |t.upstream|;
      assert t.upstream[..|s.upstream|] == s.upstream;
      assert forall i :: |s.upstream| <= i < |t.upstream| ==> t.upstream[i] == CancelCall;
      ClearedSlotIsSilent(t, events[1..]);
      var r := Run(t, events[1..]);
      assert r.upstream[..|s.upstream|] == r.upstream[..|t.upstream|][..|s.upstream|];
      forall i | |s.upstream| <= i < |r.upstream|
        ensures r.upstream[i] == CancelCall
      {
        if i < |t.upstream| {
          assert r.upstream[i] == r.upstream[..|t.upstream|][i];
        }
      }
    }
  }

  /** request(n) reaches upstream exactly when the accepted subscriber still
      holds a live slot; cancel always reaches upstream and clears the slot. */
  lemma {:induction false} HandleGates(s: State, n: int)
    requires HasHandle(s)
    ensures Step(s, DownstreamRequest(n)).upstream ==
              if s.slot.live then s.upstream + [RequestCall(n)] else s.upstream
    ensures Step(s, DownstreamCancel).upstream == s.upstream + [CancelCall]
    ensures !Step(s, DownstreamCancel).slot.live
    ensures Step(s, DownstreamCancel).delivered == s.delivered
  {
  }

  /** A subscriber whose onSubscribe throws is cancelled and never confirmed, so it
      never receives a terminal signal. */
  lemma {:induction false} ThrowingOnSubscribeNeverCompletes(s: State, sub: Subscriber, events: seq<Event>)
    requires Inv(s) && BodyReady(s) && s.slot.Empty? && sub.throwsOnSubscribe
    ensures var t := Step(s, DownstreamSubscribe(Some(sub)));
      && t.delivered == [OnSubscribe(Live)]
      && t.upstream == s.upstream + [CancelCall]
      && !Run(t, events).subscribed
      && Run(t, events).delivered == [OnSubscribe(Live)]
  {
    var t := Step(s, DownstreamSubscribe(Some(sub)));
    NeverConfirmed(t, events);
    ClearedSlotIsSilent(t, events);
  }

  lemma {:induction false} NeverConfirmed(s: State, events: seq<Event>)
    requires s.slot.Installed? && !s.subscribed
    ensures !Run(s, events).subscribed
    decreases |events|
  {
    if events != [] {
      var e := events[0];
      if e.UpstreamNext? && s.slot.live {
        ForwardKeepsSubscribed(s, s.slot.subscriber, e.items);
      }
      AcceptedSubscriberStays(s, [e]);
      assert Run(s, [e]) == Run(Step(s, e), []);
      NeverConfirmed(Step(s, e), events[1..]);
    }
  }

  lemma {:induction false} ForwardKeepsSubscribed(s: State, sub: Subscriber, items: seq<Buffer>)
    requires s.slot.Installed? && !s.subscribed
    ensures !Forward(s, sub, items).subscribed
    decreases |items|
  {
    if items != [] {
      var s1 := s.(delivered := s.delivered + [OnNext(items[0])]);
      if items[0] !in sub.rejects {
        ForwardKeepsSubscribed(s1, sub, items[1..]);
      }
    }
  }

  /** The buffers of successive onNext batches, in arrival order. */
  function Flatten(batches: seq<seq<Buffer>>): seq<Buffer>
    decreases |batches|
  {
    if batches == [] then [] else batches[0] + Flatten(batches[1..])
  }

  lemma {:induction false} NextsAppend(a: seq<Buffer>, b: seq<Buffer>)
    ensures Nexts(a + b) == Nexts(a) + Nexts(b)
  {
  }
}
