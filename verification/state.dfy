/** The state one service instance keeps, the records it exchanges, and the
    shape of every modelled request: a result, the state after it, and the
    outbound HTTP calls it made. */
module ServiceState {
  import opened Wrappers
  import opened NodeModel

  /** The injected configuration: `server.name`, `server.port`,
      `server.timeout`, `register.host`, `register.port`. */
  datatype Config = Config(
    name: string,
    port: int,
    timeout: int,
    registerHost: string,
    registerPort: int)

  /** One hop's attestation of the payload it saw. */
  datatype Signature = Signature(
    name: string,
    hash: string,
    contentType: string,
    contentLength: int)

  /** The in-flight message at the origin and, once it is back, its verdict. */
  datatype PlayResponse = PlayResponse(
    contentResult: string,
    originalContentType: string,
    originalLength: int,
    originalHash: string,
    receivedHash: string,
    receivedLength: int,
    receivedContentType: string,
    signatures: seq<Signature>)

  /** The fields of one service instance.
      `nodes` is the registry (used when this instance is the controller),
      `nextNode` the downstream this instance joined with (absent at an origin),
      `xGameTimestamp` the causal clock, `waiting` the message awaiting its round
      trip (`currentMessageWaiting`), `response` the last completed one
      (`currentMessageResponse`) and `resultReady` whether the latch was
      counted down. */
  datatype NodeState = NodeState(
    config: Config,
    salt: string,
    uuid: Uuid,
    nodes: seq<Node>,
    nextNode: Option<RegisterResponse>,
    xGameTimestamp: int,
    waiting: Option<PlayResponse>,
    response: Option<PlayResponse>,
    resultReady: bool)

  /** The exceptions the modelled requests end with. */
  datatype ApiError =
    | BadRequest(reason: string)
    | NotFound
    | NullValue                    // `!!` applied to an absent value
    | IndexOutOfBounds(index: int) // a list read outside the list
    | ServiceUnavailable           // relay failed, fallback delivery succeeded
    | TransportError               // an outbound call that failed, propagated
    | StillWaiting                 // the latch was never counted down
    | InvalidMediaType             // a content type `MediaType.parseMediaType` rejects

  datatype Address = Address(host: string, port: int)

  /** Outbound HTTP requests: a `/relay` post and a `/reconfigure` post. */
  datatype Call =
    | RelayCall(to: Address, body: string, contentType: string,
                signatures: seq<Signature>, timestamp: int)
    | ReconfigureCall(to: Address, uuid: Uuid, salt: string,
                      nextHost: string, nextPort: int, timestamp: int)

  /** The network: whether an outbound call returns normally, given the call
      and its attempt number within the request (0 for the first post, 1 for
      the fallback), so a retry of the very same post may fare differently. */
  type Transport = (Call, nat) -> bool

  /** `doHash`: a salted content digest of a text, `(salt, text) -> digest`. */
  type Hasher = (string, string) -> string

  /** What one request produces. */
  datatype Step<+T> = Step(out: Result<T, ApiError>, post: NodeState, calls: seq<Call>)

  /** The entry the controller synthesises for itself: the address the inbound
      request was sent to, and its own timeout, clock, salt and uuid. */
  function ControllerEntry(s: NodeState, requestHost: string): Node {
    Node(requestHost, s.config.port, s.config.timeout, s.xGameTimestamp, s.salt, s.uuid)
  }

  /** The address an entry stands for. */
  function AddressOf(n: Node): Address {
    Address(n.nextHost, n.nextPort)
  }
}
