/** Vocabulary shared by the response bridge and the request builder: the values
    that cross the reactive-stream boundary between the JDK HTTP client (upstream)
    and the AWS SDK consumer (downstream). */
module Flow {

  datatype Option<+T> = None | Some(value: T)

  /** The content of one ByteBuffer of the response body. */
  type Buffer = seq<bv8>

  /** The throwables the bridge creates or passes on. `Raised` stands for any other
      throwable, from the HTTP client or from a subscriber's own callbacks. */
  datatype Error =
    | IllegalArgument(message: string)
    | IllegalState(message: string)
    | Internal(message: string)
    | NullPointer
    | Raised(code: nat)

  datatype Result<+T> = Success(value: T) | Failure(error: Error)

  /** A downstream subscriber, as far as the bridge can observe it: an identity and
      how its callbacks behave. `rejects` holds the buffers on which its onNext
      throws; `fault` is what any of its callbacks throws. */
  datatype Subscriber = Subscriber(
    id: nat,
    throwsOnSubscribe: bool,
    rejects: set<Buffer>,
    throwsOnComplete: bool,
    throwsOnError: bool,
    fault: Error)

  /** The subscription handle passed to a subscriber's onSubscribe: the bridge's
      SubscriptionRef for the accepted subscriber, a do-nothing one for a late one. */
  datatype Handle = Live | NoOp

  /** A call the bridge makes on a downstream subscriber. */
  datatype Signal =
    | OnSubscribe(handle: Handle)
    | OnNext(buffer: Buffer)
    | OnError(error: Error)
    | OnComplete

  /** A call the bridge makes on the upstream (JDK) subscription. */
  datatype UpstreamCall = RequestCall(n: int) | CancelCall

  /** The upstream subscription object handed to onSubscribe. */
  datatype Upstream = Upstream(id: nat)

  /** A signal sent to a subscriber whose subscribe call lost the race. */
  datatype Rejection = Rejection(to: Subscriber, signal: Signal)
}
