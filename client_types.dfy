/** Values declared in the client's header: the connection states, the error
    kinds, the endpoint descriptor and its defaults, the worker run states and
    the receive buffer size, together with the two logs the model keeps in
    place of callbacks and syscalls. */
module ClientTypes {

  datatype Option<T> = None | Some(value: T)

  /** The connection lifecycle states, in declaration order. */
  datatype ClientState = NotConnected | Opening | Connected | Closing

  /** The error kinds reported through the error callback, in declaration order. */
  datatype Error =
    | SocketOpenFailure
    | SocketCloseFailure
    | SocketSendFailure
    | SocketReadFailure
    | SocketConnectFailure

  datatype SocketMode = TcpIpv4 | UnixDomain | Undefined

  datatype WorkerThreadState = Starting | Running | Ending | Inactive

  /** Size of the buffer handed to each blocking read. */
  const RX_BUFFER_SIZE: nat := 1024

  const DEFAULT_IP_ADDRESS: string := "0.0.0.0"
  const DEFAULT_UNIX_SOCKET_PATH: string := "/"

  /** A 16-bit unsigned port number. */
  type Port = p: int | 0 <= p < 0x1_0000

  datatype Endpoint = Endpoint(
    socketMode: SocketMode,
    ipAddress: string,
    port: Port,
    unixSocketPath: string)

  /** The value of a default-initialised endpoint. */
  function DefaultEndpoint(): (e: Endpoint)
    ensures e.socketMode == Undefined && e.port == 0
    ensures e.ipAddress == DEFAULT_IP_ADDRESS && e.unixSocketPath == DEFAULT_UNIX_SOCKET_PATH
  {
    Endpoint(Undefined, DEFAULT_IP_ADDRESS, 0, DEFAULT_UNIX_SOCKET_PATH)
  }

  /** The endpoint built by the TCP constructor: the designated initialiser
      names mode, address and port, so the socket path keeps its default. */
  function TcpEndpoint(ipv4Address: string, port: Port): (e: Endpoint)
    ensures e.socketMode == TcpIpv4 && e.ipAddress == ipv4Address && e.port == port
    ensures e.unixSocketPath == DefaultEndpoint().unixSocketPath
  {
    DefaultEndpoint().(socketMode := TcpIpv4, ipAddress := ipv4Address, port := port)
  }

  /** The endpoint built by the domain-socket constructor: address and port
      keep their defaults. */
  function UnixEndpoint(unixSocketPath: string): (e: Endpoint)
    ensures e.socketMode == UnixDomain && e.unixSocketPath == unixSocketPath
    ensures e.ipAddress == DefaultEndpoint().ipAddress && e.port == DefaultEndpoint().port
  {
    DefaultEndpoint().(socketMode := UnixDomain, unixSocketPath := unixSocketPath)
  }

  /** The underlying value of each connection state (declaration order). */
  function ClientStateValue(s: ClientState): (v: nat)
    ensures v < 4
  {
    match s
    case NotConnected => 0
    case Opening => 1
    case Connected => 2
    case Closing => 3
  }

  /** The underlying value of each error kind (declaration order). */
  function ErrorValue(e: Error): (v: nat)
    ensures v < 5
  {
    match e
    case SocketOpenFailure => 0
    case SocketCloseFailure => 1
    case SocketSendFailure => 2
    case SocketReadFailure => 3
    case SocketConnectFailure => 4
  }

  /** The connection state with a given underlying value: every value
      in 0..3 names one. */
  function ClientStateFromValue(v: nat): (s: ClientState)
    requires v < 4
    ensures ClientStateValue(s) == v
  {
    if v == 0 then NotConnected else if v == 1 then Opening
    else if v == 2 then Connected else Closing
  }

  /** The error kind with a given underlying value: every value in 0..4
      names one. */
  function ErrorFromValue(v: nat): (e: Error)
    requires v < 5
    ensures ErrorValue(e) == v
  {
    if v == 0 then SocketOpenFailure else if v == 1 then SocketCloseFailure
    else if v == 2 then SocketSendFailure else if v == 3 then SocketReadFailure
    else SocketConnectFailure
  }

  /** Distinct connection states have distinct values, so with
      ClientStateFromValue there are exactly four of them. */
  lemma ClientStateValueInjective(s: ClientState, t: ClientState)
    ensures ClientStateValue(s) == ClientStateValue(t) ==> s == t
  {
  }

  /** Distinct error kinds have distinct values, so with ErrorFromValue
      there are exactly five of them. */
  lemma ErrorValueInjective(e: Error, f: Error)
    ensures ErrorValue(e) == ErrorValue(f) ==> e == f
  {
  }

  /** One invocation of a callback, in the order the callbacks were fired. */
  datatype Event =
    | OnConnected
    | OnDisconnected
    | OnRx(rxBytes: seq<char>)
    | OnError(error: Error, failedTxPayload: Option<seq<char>>)

  /** One call into the transport, with the answer the transport gave.
      `sent` is the byte count a send call reported (negative: failure). */
  datatype Syscall =
    | SocketCall(mode: SocketMode, result: int)
    | ConnectCall(fd: int, target: Endpoint, ok: bool)
    | SendCall(fd: int, bytes: seq<char>, sent: int)
    | CloseCall(fd: int)

  /** The error reports the client can make: a send failure always carries
      the failed payload, every other kind carries none, and a close failure
      is never reported. */
  predicate Reportable(e: Event) {
    e.OnError? ==>
      e.error != SocketCloseFailure &&
      (e.failedTxPayload.Some? <==> e.error == SocketSendFailure)
  }

  /** Every callback invocation in a log is one the client can make. */
  predicate AllReportable(events: seq<Event>) {
    forall k :: 0 <= k < |events| ==> Reportable(events[k])
  }

  /** No entry of an outbound queue is empty. */
  predicate NoEmptyPayloads(queue: seq<seq<char>>) {
    forall k :: 0 <= k < |queue| ==> queue[k] != []
  }

  /** The concatenation of a sequence of byte strings, front first. */
  function Concat(parts: seq<seq<char>>): seq<char> {
    if parts == [] then [] else parts[0] + Concat(parts[1..])
  }
}
