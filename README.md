# j11_aws_http_client: the reactive-stream bridge and request building, in Dafny

This project models the core of an adapter that runs the AWS SDK's asynchronous
HTTP abstraction on the JDK 11 `java.net.http.HttpClient`:

- **`BodySubscriberProxy`**: the JDK `BodySubscriber` that receives the
  response body as `List<ByteBuffer>` batches. It publishes the body as a
  single-subscriber `Publisher<ByteBuffer>`. It holds three `CompletableFuture`s:
  - `subscriptionCF`, the upstream subscription;
  - `subscribedCF`, the accepted subscriber, confirmed;
  - `completionCF`, the terminal outcome.

  It also holds the `AtomicReference` slot and two nested classes:
  - `SubscriberRef`, a clearable holder of the subscriber;
  - `SubscriptionRef`, the handle given to the subscriber.
- **The request half of `J11SdkAsyncClient.execute`**: it turns an SDK request into a
  JDK `HttpRequest`:
  - GET and DELETE are sent without a body, and every other method carries the
    content publisher (wrapped by `BodyPublisherProxy.of`);
  - header entries whose name is on the case-insensitive `DISALLOWED_HEADERS`
    list are dropped;
  - the remaining entries are added one value at a time;
  - the URI is copied.

Files:

- `flow.dfy`: the vocabulary both halves share, meaning subscribers, signals,
  upstream calls and errors. A subscriber is a value: an identity plus how its
  callbacks behave (whether `onSubscribe` throws, which buffers its `onNext`
  throws on, and whether `onComplete` throws).
- `bridge_spec.dfy`: the bridge as a state machine. `Step` applies one event from
  one of the three independent callers:
  - the JDK client: `onSubscribe`, `onNext`, `onError`, `onComplete`;
  - the SDK consumer: `subscribe`;
  - the consumer again, through its handle: `request`, `cancel`.

  `Run` plays any order of events, so every interleaving of the three callers
  is covered. `Inv` is the invariant that every event preserves. The effects the
  bridge has are recorded in three logs:
  - the calls made on the accepted subscriber;
  - those made on late subscribers;
  - those made on the upstream subscription.

  The lemmas state the publisher contract over those logs.
- `bridge.dfy`: the three classes, with their fields. Each public method of
  `BodySubscriberProxy` is proved to change the abstract state exactly as one
  `Step` does, and to keep `Inv`. The file ends with whole runs of the bridge, as
  methods that build a bridge, drive it, and state what the subscriber and the
  upstream subscription saw.
- `request.dfy`: the deny-list, the header filter and expansion, a model of the JDK
  request builder as a class, and `BuildRequest`, the part of `execute` that
  drives that builder.

The bridge follows the code where the reactive-streams rules would ask for
more. Every `cancel()` on the handle is forwarded upstream, not only the first
(`BridgeSpec.HandleGates`). An `onComplete` that throws is followed by an
`onError` to the same subscriber.

## Model

| member | source | states |
|---|---|---|
| BridgeSpec.Nexts | src/main/java/com/rmcsoft/aws/http/proxy/BodySubscriberProxy.java:172 | forwarding a batch calls onNext once per buffer, in batch order |
| BridgeSpec.FirstRejected | src/main/java/com/rmcsoft/aws/http/proxy/BodySubscriberProxy.java:172 | forEach stops at the first buffer the subscriber throws on: every buffer before it is accepted, and the one at that position throws |
| BridgeSpec.InitInv | src/main/java/com/rmcsoft/aws/http/proxy/BodySubscriberProxy.java:24-40 | a new bridge (no subscription, no subscriber, no outcome) satisfies the invariant |
| BridgeSpec.ForwardAll | src/main/java/com/rmcsoft/aws/http/proxy/BodySubscriberProxy.java:168-173 | when the subscriber accepts every buffer, onNext forwards the whole batch in order and changes nothing else |
| BridgeSpec.ForwardFails | src/main/java/com/rmcsoft/aws/http/proxy/BodySubscriberProxy.java:168-177 | when the subscriber throws on the k-th buffer, buffers 0..k are forwarded. What it threw becomes the outcome and goes to it as onError, its slot is cleared, and upstream is cancelled once |
| BridgeSpec.ResolveInv | src/main/java/com/rmcsoft/aws/http/proxy/BodySubscriberProxy.java:124-130 | recording an outcome (success only after onSubscribe) keeps the invariant, and leaves the late-subscriber log and the subscription unchanged |
| BridgeSpec.ResolveDelivers | src/main/java/com/rmcsoft/aws/http/proxy/BodySubscriberProxy.java:106-122 | when no outcome was known and the confirmed subscriber still holds the slot, recording an outcome clears the slot and sends, at once, onError(e) for a failure, or onComplete for success. An onComplete that throws is followed by onError with what it threw. In every other case the subscriber is sent nothing |
| BridgeSpec.SubscribeInv | src/main/java/com/rmcsoft/aws/http/proxy/BodySubscriberProxy.java:132-159 | an accepted or a rejected subscribe keeps the invariant |
| BridgeSpec.AcceptInv | src/main/java/com/rmcsoft/aws/http/proxy/BodySubscriberProxy.java:137-146 | handing the live handle to the compare-and-set winner keeps the invariant, whether its onSubscribe throws or not |
| BridgeSpec.ConfirmInv | src/main/java/com/rmcsoft/aws/http/proxy/BodySubscriberProxy.java:142 | confirming the subscriber in subscribedCF keeps the invariant. An outcome recorded earlier is sent at once (onError(e), onComplete, or onComplete then onError when onComplete throws) and the slot is cleared. With no outcome yet, only the confirmation changes |
| BridgeSpec.StepInv | src/main/java/com/rmcsoft/aws/http/proxy/BodySubscriberProxy.java:104-198 | every event from any of the three callers preserves the invariant |
| BridgeSpec.RunInv | src/main/java/com/rmcsoft/aws/http/proxy/BodySubscriberProxy.java:104-198 | every sequence of events, in any interleaving, preserves the invariant |
| BridgeSpec.ReachableBehaviour | src/main/java/com/rmcsoft/aws/http/proxy/BodySubscriberProxy.java:104-198 | in every reachable state, see the list below the table |
| BridgeSpec.TerminalWaitsForBoth | src/main/java/com/rmcsoft/aws/http/proxy/BodySubscriberProxy.java:37-39 | the terminal signal is never sent before both "outcome recorded" and "subscriber confirmed" hold, and by then the slot is cleared. In the step where both become true on a slot that was not cleared, the terminal signal is sent, and it is the recorded outcome |
| BridgeSpec.AcceptedSubscriberStays | src/main/java/com/rmcsoft/aws/http/proxy/BodySubscriberProxy.java:137 | once a subscriber is installed, no later event replaces it, and a cleared slot never becomes live again |
| BridgeSpec.FirstSubscribeWins | src/main/java/com/rmcsoft/aws/http/proxy/BodySubscriberProxy.java:136-137 | the first non-null subscribe after the body is available installs its subscriber for good |
| BridgeSpec.LateSubscriberRejected | src/main/java/com/rmcsoft/aws/http/proxy/BodySubscriberProxy.java:147-158 | a later subscriber gets the no-op handle, then the "already subscribed" IllegalStateException. It gets nothing more if its onSubscribe throws. What its onSubscribe or onError throws reaches its caller. No other state changes |
| BridgeSpec.NullSubscriberRefused | src/main/java/com/rmcsoft/aws/http/proxy/BodySubscriberProxy.java:133-135 | subscribe(null) throws IllegalArgumentException("subscriber must not be null") and changes nothing |
| BridgeSpec.OutcomeWriteOnce | src/main/java/com/rmcsoft/aws/http/proxy/BodySubscriberProxy.java:124-130 | once recorded, the outcome is never changed by any later events |
| BridgeSpec.SubscriptionWriteOnce | src/main/java/com/rmcsoft/aws/http/proxy/BodySubscriberProxy.java:162-164 | once recorded, the upstream subscription is never changed, so a second onSubscribe is ignored |
| BridgeSpec.NullErrorReplaced | src/main/java/com/rmcsoft/aws/http/proxy/BodySubscriberProxy.java:124-126 | onError(null) records IllegalArgumentException("null throwable") |
| BridgeSpec.PrematureCompleteFails | src/main/java/com/rmcsoft/aws/http/proxy/BodySubscriberProxy.java:188-192 | onComplete before onSubscribe records InternalError("onComplete called before onSubscribed"), not success |
| BridgeSpec.OnNextBehaviour | src/main/java/com/rmcsoft/aws/http/proxy/BodySubscriberProxy.java:167-178 | onNext does one of three things. To a live subscriber it forwards the batch. On a cleared slot it changes nothing. With no subscriber it records NullPointerException and cancels upstream, at once or, before onSubscribe, as a pending cancel |
| BridgeSpec.ClearedSlotIsSilent | src/main/java/com/rmcsoft/aws/http/proxy/BodySubscriberProxy.java:171 | after the slot is cleared, no later events send anything to the subscriber, and the only upstream calls added are cancels |
| BridgeSpec.HandleGates | src/main/java/com/rmcsoft/aws/http/proxy/BodySubscriberProxy.java:77-87 | request(n) reaches upstream exactly when the slot still holds the subscriber. cancel() always reaches upstream, clears the slot, and sends nothing to the subscriber |
| BridgeSpec.ThrowingOnSubscribeNeverCompletes | src/main/java/com/rmcsoft/aws/http/proxy/BodySubscriberProxy.java:140-145 | a winner whose onSubscribe throws is cancelled upstream, never confirmed, and sees nothing beyond onSubscribe, whatever follows |
| BridgeSpec.NeverConfirmed | src/main/java/com/rmcsoft/aws/http/proxy/BodySubscriberProxy.java:141-142 | an installed subscriber that was not confirmed is never confirmed later |
| Bridge.SubscriberRef.constructor | src/main/java/com/rmcsoft/aws/http/proxy/BodySubscriberProxy.java:50-52 | a new holder holds its subscriber |
| Bridge.SubscriberRef.Get | src/main/java/com/rmcsoft/aws/http/proxy/BodySubscriberProxy.java:54-56 | get returns the held subscriber, or null once cleared |
| Bridge.SubscriberRef.Clear | src/main/java/com/rmcsoft/aws/http/proxy/BodySubscriberProxy.java:58-62 | clear returns what was held and leaves the holder empty |
| Bridge.SubscriptionRef.constructor | src/main/java/com/rmcsoft/aws/http/proxy/BodySubscriberProxy.java:70-74 | the handle wraps the upstream subscription and the subscriber's holder |
| Bridge.SubscriptionRef.Request | src/main/java/com/rmcsoft/aws/http/proxy/BodySubscriberProxy.java:77-81 | request(n) is passed upstream exactly when the holder is not cleared |
| Bridge.SubscriptionRef.Cancel | src/main/java/com/rmcsoft/aws/http/proxy/BodySubscriberProxy.java:84-87 | cancel() cancels upstream and clears the holder |
| Bridge.SubscriptionRef.Subscribe | src/main/java/com/rmcsoft/aws/http/proxy/BodySubscriberProxy.java:89-94 | onSubscribe(this) is called exactly when the holder is not cleared, and what it throws is passed on |
| Bridge.BodySubscriberProxy.constructor | src/main/java/com/rmcsoft/aws/http/proxy/BodySubscriberProxy.java:36-40 | the new bridge is in the initial state, linked consistently, and satisfies the invariant |
| Bridge.BodySubscriberProxy.OnSubscribe | src/main/java/com/rmcsoft/aws/http/proxy/BodySubscriberProxy.java:162-164 | the first subscription is recorded and the cancels waiting on it run; a second one changes nothing. The result equals `Step` for that event, and the invariant is kept |
| Bridge.BodySubscriberProxy.OnNext | src/main/java/com/rmcsoft/aws/http/proxy/BodySubscriberProxy.java:167-178 | the forEach loop ends in the same state as `Step` for that batch, and the invariant is kept |
| Bridge.BodySubscriberProxy.OnError | src/main/java/com/rmcsoft/aws/http/proxy/BodySubscriberProxy.java:181-185 | the error, with null replaced, becomes the outcome if none was recorded. The result equals `Step`, and the invariant is kept |
| Bridge.BodySubscriberProxy.OnComplete | src/main/java/com/rmcsoft/aws/http/proxy/BodySubscriberProxy.java:188-198 | success is recorded, or InternalError before onSubscribe. The result equals `Step`, and the invariant is kept |
| Bridge.BodySubscriberProxy.Subscribe | src/main/java/com/rmcsoft/aws/http/proxy/BodySubscriberProxy.java:132-159 | the compare-and-set, attach-or-reject and exceptions thrown back to the caller equal `Step` and `SubscribeRaises`, and the invariant is kept |
| Bridge.BodySubscriberProxy.Request | src/main/java/com/rmcsoft/aws/http/proxy/BodySubscriberProxy.java:77-81 | request(n) on the accepted subscriber's handle equals `Step`, and the invariant is kept |
| Bridge.BodySubscriberProxy.Cancel | src/main/java/com/rmcsoft/aws/http/proxy/BodySubscriberProxy.java:84-87 | cancel() on the accepted subscriber's handle equals `Step`, and the invariant is kept |
| Bridge.BodySubscriberProxy.Attach | src/main/java/com/rmcsoft/aws/http/proxy/BodySubscriberProxy.java:138-146 | the subscriptionCF continuation of a winning subscribe wraps the handle and calls onSubscribe. It then cancels through the handle if onSubscribe throws, and confirms the subscriber otherwise |
| Bridge.BodySubscriberProxy.RejectLate | src/main/java/com/rmcsoft/aws/http/proxy/BodySubscriberProxy.java:147-158 | a losing subscriber gets the no-op handle, then the IllegalStateException, unless onSubscribe throws. What onSubscribe or onError throws goes back to the caller |
| Bridge.BodySubscriberProxy.Deliver | src/main/java/com/rmcsoft/aws/http/proxy/BodySubscriberProxy.java:106-122 | complete(ref, t) clears the slot and sends onError(t), or onComplete followed by onError when onComplete throws. It sends nothing if the slot was already cleared |
| Bridge.BodySubscriberProxy.Complete | src/main/java/com/rmcsoft/aws/http/proxy/BodySubscriberProxy.java:37-39 | completing completionCF records the first outcome only, and delivers it when subscribedCF already holds the subscriber |
| Bridge.BodySubscriberProxy.SignalError | src/main/java/com/rmcsoft/aws/http/proxy/BodySubscriberProxy.java:124-126 | completes exceptionally with the throwable, or IllegalArgumentException("null throwable") for null |
| Bridge.BodySubscriberProxy.CancelWhenKnown | src/main/java/com/rmcsoft/aws/http/proxy/BodySubscriberProxy.java:176 | cancels upstream now when the subscription is known, and otherwise once it arrives |
| Bridge.BodySubscriberProxy.MarkSubscribed | src/main/java/com/rmcsoft/aws/http/proxy/BodySubscriberProxy.java:142 | subscribedCF.complete(ref) confirms the subscriber once, and delivers an outcome recorded earlier |
| Bridge.DeliverInOrder | src/main/java/com/rmcsoft/aws/http/proxy/BodySubscriberProxy.java:166-198 | a subscriber with unbounded demand that accepts everything sees onSubscribe, every buffer of every batch in arrival order, then one onComplete. Upstream sees only the demand |
| Bridge.ErrorWaitsForSubscriber | src/main/java/com/rmcsoft/aws/http/proxy/BodySubscriberProxy.java:181-185 | an error that arrives before anyone subscribes reaches the subscriber right after its onSubscribe, and upstream sees nothing |
| Bridge.SecondSubscriberRejected | src/main/java/com/rmcsoft/aws/http/proxy/BodySubscriberProxy.java:137-158 | the second subscriber is rejected, and the first one's data still arrives |
| Bridge.CancelSilences | src/main/java/com/rmcsoft/aws/http/proxy/BodySubscriberProxy.java:77-87 | after cancel, no later data, outcome or demand gets through |
| Bridge.DataWithoutSubscriber | src/main/java/com/rmcsoft/aws/http/proxy/BodySubscriberProxy.java:167-177 | onNext before onSubscribe and before any subscriber records NullPointerException, and the cancel runs when the subscription arrives. A later onComplete does not override the outcome |
| Bridge.CompleteThrowsThenError | src/main/java/com/rmcsoft/aws/http/proxy/BodySubscriberProxy.java:117-121 | a subscriber whose onComplete throws sees onSubscribe, onComplete, then onError with what it threw. Upstream sees nothing |
| Bridge.ThrowingSubscriberCancelled | src/main/java/com/rmcsoft/aws/http/proxy/BodySubscriberProxy.java:140-145 | a subscriber whose onSubscribe throws is cancelled upstream, its demand is dropped, it never hears the outcome, and its caller sees no exception |
| RequestBuilding.LowerCase | src/main/java/com/rmcsoft/aws/http/J11SdkAsyncClient.java:27 | folding keeps the length and leaves no ASCII capital. Each capital becomes its small letter (code + 32), dotted capital I and dotless i become i, long s becomes s, and the Kelvin sign becomes k. Every other character is unchanged |
| RequestBuilding.LowerCaseIdempotent | src/main/java/com/rmcsoft/aws/http/J11SdkAsyncClient.java:27 | folding a folded name changes nothing |
| RequestBuilding.EqualsIgnoringCaseIsLowerEquality | src/main/java/com/rmcsoft/aws/http/J11SdkAsyncClient.java:27 | two names compare equal under CASE_INSENSITIVE_ORDER exactly when their folded spellings are equal |
| RequestBuilding.ContainsIgnoringCaseMeans | src/main/java/com/rmcsoft/aws/http/J11SdkAsyncClient.java:27-40 | membership in the case-insensitive TreeSet means being equal, ignoring case, to one of its elements |
| RequestBuilding.DenyListLowerCase | src/main/java/com/rmcsoft/aws/http/J11SdkAsyncClient.java:29-39 | the eleven names of the set literal, folded, are exactly the eleven lower-case names |
| RequestBuilding.DenyListExactly | src/main/java/com/rmcsoft/aws/http/J11SdkAsyncClient.java:27-40 | a header name is refused exactly when its folded spelling is one of the eleven |
| RequestBuilding.NonAsciiSpellingsRefused | src/main/java/com/rmcsoft/aws/http/J11SdkAsyncClient.java:80 | "Hoſt", "Orıgin", "Connectıon", "vıa", "Orİgin" and "VİA" are refused, because the comparator folds long s onto s and both dotless i and dotted capital I onto i |
| RequestBuilding.DenyListIgnoresCase | src/main/java/com/rmcsoft/aws/http/J11SdkAsyncClient.java:27 | two spellings that differ only in letter case are refused alike, in both directions |
| RequestBuilding.PublisherOf | src/main/java/com/rmcsoft/aws/http/proxy/BodyPublisherProxy.java:20-26 | a null content publisher fails with IllegalArgumentException("publisher must not be null"), and any other one is wrapped |
| RequestBuilding.ContentLength | src/main/java/com/rmcsoft/aws/http/proxy/BodyPublisherProxy.java:33-35 | the length is -1 exactly when the content publisher declares none, and otherwise it is the declared length |
| RequestBuilding.Allowed | src/main/java/com/rmcsoft/aws/http/J11SdkAsyncClient.java:80 | the filter never adds entries |
| RequestBuilding.Values | src/main/java/com/rmcsoft/aws/http/J11SdkAsyncClient.java:81 | one entry yields one header line per value, in list order, each under the entry's name |
| RequestBuilding.AllowedAppend | src/main/java/com/rmcsoft/aws/http/J11SdkAsyncClient.java:80 | the filter works entry by entry: filtering a concatenation is concatenating the filtered parts |
| RequestBuilding.ExpandAppend | src/main/java/com/rmcsoft/aws/http/J11SdkAsyncClient.java:81 | the expansion works entry by entry, in order |
| RequestBuilding.AllowedMembership | src/main/java/com/rmcsoft/aws/http/J11SdkAsyncClient.java:80 | an entry survives the filter exactly when it is in the map and its name is not refused |
| RequestBuilding.ExpandMembership | src/main/java/com/rmcsoft/aws/http/J11SdkAsyncClient.java:81 | a line (name, value) is produced exactly when some entry has that name and holds that value |
| RequestBuilding.AllowedLinesMembership | src/main/java/com/rmcsoft/aws/http/J11SdkAsyncClient.java:75-81 | a header line is in the built request exactly when its name is not refused and the map holds that value under that name |
| RequestBuilding.NoDisallowedLine | src/main/java/com/rmcsoft/aws/http/J11SdkAsyncClient.java:80 | no refused name, in any letter case, reaches the built request |
| RequestBuilding.SingleEntry | src/main/java/com/rmcsoft/aws/http/J11SdkAsyncClient.java:80-81 | a single entry is kept unless refused, and expands to its own values |
| RequestBuilding.EntryContribution | src/main/java/com/rmcsoft/aws/http/J11SdkAsyncClient.java:75-81 | each entry contributes at its own place in map order: a refused entry contributes nothing, and an allowed one contributes its values in list order |
| RequestBuilding.EmptyEntryContributesNothing | src/main/java/com/rmcsoft/aws/http/J11SdkAsyncClient.java:81 | an entry with no values adds no header, whatever its name |
| RequestBuilding.RequestBuilder.constructor | src/main/java/com/rmcsoft/aws/http/J11SdkAsyncClient.java:59 | a new builder sends GET without a body, with no headers and no URI |
| RequestBuilding.RequestBuilder.SetGet | src/main/java/com/rmcsoft/aws/http/J11SdkAsyncClient.java:64-66 | GET() sets the method and no body, and leaves headers and URI alone |
| RequestBuilding.RequestBuilder.SetDelete | src/main/java/com/rmcsoft/aws/http/J11SdkAsyncClient.java:67-69 | DELETE() sets the method and no body, and leaves headers and URI alone |
| RequestBuilding.RequestBuilder.SetMethod | src/main/java/com/rmcsoft/aws/http/J11SdkAsyncClient.java:70-72 | method(name, publisher) sets both, and leaves headers and URI alone |
| RequestBuilding.RequestBuilder.AddHeader | src/main/java/com/rmcsoft/aws/http/J11SdkAsyncClient.java:81 | header(name, value) appends one line, and changes nothing else |
| RequestBuilding.RequestBuilder.SetUri | src/main/java/com/rmcsoft/aws/http/J11SdkAsyncClient.java:82-83 | uri(u) sets the URI, and changes nothing else |
| RequestBuilding.AddValues | src/main/java/com/rmcsoft/aws/http/J11SdkAsyncClient.java:81 | the inner forEach appends exactly the entry's lines, in order, and changes nothing else |
| RequestBuilding.AddHeaders | src/main/java/com/rmcsoft/aws/http/J11SdkAsyncClient.java:75-81 | the outer forEach appends the expansion of the kept entries, in order, and changes nothing else |
| RequestBuilding.BuildRequest | src/main/java/com/rmcsoft/aws/http/J11SdkAsyncClient.java:59-83 | see the list below the table |

`BridgeSpec.ReachableBehaviour` states, for every reachable state:

- the accepted subscriber sees onSubscribe with the live handle, then only data,
  then at most one ending;
- that ending is the recorded outcome, and it is sent only after the subscriber
  was confirmed;
- once the outcome is known and the subscriber confirmed, the slot is cleared;
- late subscribers only ever see the no-op handle and the "already subscribed"
  error;
- success is never recorded before onSubscribe.

`RequestBuilding.BuildRequest` states:

- it fails exactly when the method carries a body and there is no content
  publisher, and then the error is the IllegalArgumentException;
- otherwise the method name is the enum's name;
- there is no body for GET and DELETE, and the wrapped publisher otherwise;
- the headers are exactly the lines of the allowed entries;
- the URI is unchanged.

## Left out

- The HTTP exchange itself is not modelled: `sendAsync`, the response half of
  `execute` (`thenApply`, `onStream` and `exceptionally`), and `close`. They are
  calls into the JDK client and the SDK handler. `BuildRequest` ends with the built
  request.
- `getBody` is not modelled as a future. `subscribe` is reachable only through
  the publisher that the body future yields, and that future resolves when
  `subscriptionCF` does, so `Bridge.BodySubscriberProxy.Subscribe` requires the
  subscription to be known. As a result, the attach continuation always runs at
  once.
- Threads and reentrancy are not modelled. Each bridge method runs to completion
  as one `Step`, and a race is an arbitrary order of steps. A subscriber callback
  that calls back into the bridge from inside onNext is not modelled.
- The order in which `CompletableFuture` runs several dependents is not modelled.
  The JDK leaves it unspecified. Cancels registered by a failed onNext before
  onSubscribe are kept as a count and run when the subscription arrives. They are
  the only dependents on `subscriptionCF` whose effects are ordered among
  themselves, and all of them are upstream cancels.
- What the accepted subscriber's onError throws at
  src/main/java/com/rmcsoft/aws/http/proxy/BodySubscriberProxy.java:113 and :120
  stays in the stage of the subscribedCF continuation, so it changes nothing the
  model records. Only a late subscriber's onError (line 157) throws back to the
  caller of subscribe, and the model reports that.
- The anonymous no-op subscription handed to late subscribers is not an object
  here. Its request and cancel do nothing, and the model records the handle as
  `NoOp`.
- `SubscriptionRef.toString` is diagnostics only.
- Case-insensitive comparison is `Character.toLowerCase(Character.toUpperCase(c))`
  only for the characters that fold onto an ASCII letter. Those are the ASCII
  letters, dotted capital I, dotless small i, long s and the Kelvin sign. Other
  non-ASCII letters are not folded, so `EqualsIgnoringCase` treats, say, "É" and
  "é" as different where the comparator treats them as equal. This does not
  change which names the deny-list refuses, because every name on it is made of
  ASCII letters and '-'.
- The JDK builder's own validation is not modelled: restricted header names,
  illegal characters, and a missing or relative URI. Neither is the way
  `build()` groups repeated header names. The model keeps the sequence of
  `header` calls.
- The SDK header map is a sequence of entries in the map's iteration order. Key
  uniqueness is not modelled, and nothing in the model depends on it.
- `BodyPublisherProxy.subscribe` is not modelled. It forwards to the SDK
  publisher through `FlowAdapters`, which is code outside this model.
- Not part of this model: `HttpClientBuilderBase.java`, `AsyncHttpClientBuilder.java`,
  `SdkHttpHeadersProxy.java` and `BodyHandlerProxy.java`. They are client
  configuration and response-header conversion.
