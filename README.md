# ApplicationClient — a Dafny model of the client's sequential core

`ApplicationClient` is an asynchronous byte-stream client over a single
outbound connection, to a TCP/IPv4 endpoint or a Unix domain socket. Callers
request that the connection be opened or closed, queue outbound byte
payloads for in-order delivery, and get callbacks for connection, disconnection,
received bytes and errors. This project models the sequential logic of the
client object and proves properties of it:

- **Connection-state guards.** `RequestOpen` is accepted only from
  NOT_CONNECTED. `RequestClose` is accepted only from CONNECTED. A rejected
  request changes nothing.
- **Outbound queue.** `EnqueuePayload` turns away an empty payload. Otherwise
  it appends a copy and wakes the transmit dispatcher. `Clear` empties the queue.
- **Send loop.** `SendNextPayload` removes the front entry, then keeps offering
  the unsent suffix to the transport until all of it has been accepted or a
  call fails.
- **Transmit dispatcher.** One wake of the dispatcher drains the whole queue
  front-first, unless the state has become CLOSING.
- **Error reporting.** The open, connect, send and read failure paths each
  report their own error kind.

How the model is built:

- The client is a class (`Client.ApplicationClient`). Its fields are the
  state, the queue, the wake flags, the descriptors and the worker run states.
  Each operation is a method whose `modifies` clause names only the fields the
  source changes.
- Callbacks are recorded in the field `events`. The default callbacks do
  nothing, so recording an invocation is the only effect of firing one.
- Calls into the transport are recorded in `calls`, each with its answer.
- Every transport answer is a parameter: the result of `socket()`, whether
  `connect()` succeeded, the successive results of `send()`, the result of a
  `read()`. The `send()` results of one drain are grouped by queue entry:
  `answers[k]` answers the send calls for the k-th entry drained.
- A binary semaphore is a boolean. Releasing it sets it (at most one pending
  permit). Acquiring it needs it set and clears it.
- The worker loops are modelled one pass at a time. `ProcessTxWake` runs from
  the semaphore wait to the end of the loop body. `ProcessRxRead` runs from
  the blocking read to the end of the loop body. Both start after the loop
  head has seen a state other than CLOSING. Other methods (such as
  `RequestClose`) can run between two passes, so the source's second CLOSING
  check after the wait or the read is a live branch.
- The send loop and the drain are also defined as functions over values
  (`Transmit.SendPayload`, `Transmit.Drain`). The methods are proved equal to
  these functions, and the lemmas about the functions carry the properties:
  - a successful send delivers exactly the payload, and a failed one a proper prefix of it;
  - every call resumes at the first unsent byte;
  - FIFO order;
  - one send failure per failed entry, carrying the whole entry.
- `Valid()` is the class invariant, and every method keeps it:
  - no queued payload is empty;
  - no error reported is SOCKET_CLOSE_FAILURE;
  - an error carries a payload exactly when it is SOCKET_SEND_FAILURE.

The class runs two corrected routines, listed under "## Findings":
`OpenConnection` connects after opening the socket, and the receive callback
gets exactly the bytes read. As written, the source does neither, and modules
`Opening` and `Receive` model that behaviour. Everywhere else the model follows
the code, including where the code and the intended lifecycle differ:

- No code shown ever sets CONNECTED. `MonitorConnection` is an empty body.
  So even with the corrected open, a successful connect fires the connected
  callback but leaves the state at OPENING. As written, the connect step is
  never reached at all.
- No method of the class moves the state to CONNECTED. From any other state,
  every sequence of façade calls and worker passes keeps it away from
  CONNECTED, so every `RequestClose` is refused (`Client.NeverConnected`). A
  fresh client is NOT_CONNECTED, so this holds from construction on. The
  connect-and-disconnect test polls for CONNECTED, which never comes.
- An open or connect failure also leaves the state at OPENING. Nothing
  returns it to NOT_CONNECTED, and CLOSING is never left either.
- `RequestClose` closes the socket itself. It does not leave that to a
  monitor thread.
- The descriptor keeps its value after `close`.
- The header declares `ClearOutboundPayloads`, but the only queue-clearing
  body is `Clear`, which is what this model covers.

## Model

| member | source | states |
|---|---|---|
| `ClientTypes.DefaultEndpoint` | lib/application_client.h:87-93 | the default endpoint has mode UNDEFINED, address "0.0.0.0", port 0, path "/" |
| `ClientTypes.TcpEndpoint` | lib/application_client.cpp:10-13 | the TCP constructor's endpoint has mode TCP_IPV4 and the given address and port, and keeps the default path |
| `ClientTypes.UnixEndpoint` | lib/application_client.cpp:15-18 | the domain-socket constructor's endpoint has mode UNIX_DOMAIN and the given path, and keeps the default address and port |
| `ClientTypes.ClientStateValue` | lib/application_client.h:20-26 | every connection state's underlying value is below 4 |
| `ClientTypes.ClientStateFromValue` | lib/application_client.h:20-26 | every value 0..3 is the underlying value of some connection state |
| `ClientTypes.ClientStateValueInjective` | lib/application_client.h:20-26 | distinct states have distinct values, so there are exactly four states |
| `ClientTypes.ErrorValue` | lib/application_client.h:28-35 | every error kind's underlying value is below 5 |
| `ClientTypes.ErrorFromValue` | lib/application_client.h:28-35 | every value 0..4 is the underlying value of some error kind |
| `ClientTypes.ErrorValueInjective` | lib/application_client.h:28-35 | distinct error kinds have distinct values, so there are exactly five kinds |
| `Client.ApplicationClient.Tcp` | lib/application_client.h:105-130 | a new TCP client: state NOT_CONNECTED, empty queue, no pending wakes, descriptors -1, worker threads not started, both worker states INACTIVE, no callbacks fired, no transport calls |
| `Client.ApplicationClient.Unix` | lib/application_client.cpp:15-18 | the same initial state for a domain-socket client, with the domain-socket endpoint |
| `Client.ApplicationClient.GetClientState` | lib/application_client.cpp:40-44 | returns the current connection state |
| `Client.ApplicationClient.RequestOpen` | lib/application_client.cpp:46-59 | accepted iff the state was NOT_CONNECTED. A rejection changes nothing. Once accepted it returns true whatever the attempt did and leaves the state at OPENING. On a socket failure: one SOCKET_OPEN_FAILURE with no payload, descriptor unchanged. On a new socket: that descriptor, then (through the corrected `OpenConnection`; as written, line 142 opens another socket instead, see `Opening`) a connect whose outcome fires the connected callback or one SOCKET_CONNECT_FAILURE. Queue and wake untouched |
| `Client.ApplicationClient.RequestClose` | lib/application_client.cpp:61-76 | accepted iff the state was CONNECTED. A rejection changes nothing. Once accepted: state CLOSING, one close of the descriptor, exactly one disconnected callback, transmit wake raised, returns true |
| `Client.ApplicationClient.EnqueuePayload` | lib/application_client.cpp:78-93 | an empty payload is refused with queue and wake untouched. Otherwise the queue becomes the old queue followed by the payload, the wake is raised, and it returns true |
| `Client.ApplicationClient.Clear` | lib/application_client.cpp:95-99 | the queue becomes empty and nothing else changes |
| `Client.ApplicationClient.OpenConnection` | lib/application_client.cpp:135-148 | corrected (open the socket, then connect): succeeds iff the mode is defined, the socket opened and the connect succeeded. States the resulting descriptor, transport calls and callbacks in each case. The state is OPENING |
| `Client.ApplicationClient.OpenSocket` | lib/application_client.cpp:150-202 | sets OPENING first. With a defined mode: one socket call. On failure: one SOCKET_OPEN_FAILURE with no payload, descriptor unchanged. On success: descriptor set, no callback. With the UNDEFINED mode: false and no other effect |
| `Client.ApplicationClient.Connect` | lib/application_client.cpp:204-259 | with a defined mode: one connect call to the endpoint. Success fires the connected callback. Failure reports one SOCKET_CONNECT_FAILURE with no payload. With the UNDEFINED mode: false and no effect |
| `Client.ApplicationClient.CloseSocket` | lib/application_client.cpp:261-265 | one close of the current descriptor and exactly one disconnected callback |
| `Client.ApplicationClient.SendNextPayload` | lib/application_client.cpp:296-318 | the queue always loses exactly its front entry. The send calls made, the result and the answers consumed equal `Transmit.SendPayload` of that entry. A failure adds exactly one SOCKET_SEND_FAILURE carrying the whole entry |
| `Client.ApplicationClient.ProcessTxWake` | lib/application_client.cpp:272-294 | without a permit nothing happens. With one, the permit is consumed. If the state is then CLOSING, it stops with the queue untouched. Otherwise the queue ends empty, and the calls and reports are those of `Transmit.Drain` on the old queue |
| `Client.ApplicationClient.ProcessRxRead` | lib/application_client.cpp:320-345 | a failed read stops the loop when the state is CLOSING. Otherwise it reports one SOCKET_READ_FAILURE with no payload and the loop goes on. A successful read fires the receive callback once, with the chunk `Receive.RxChunk` gives: the corrected line 343, which hands over exactly the bytes read (as written, the whole 1024-byte buffer, see `Receive.ShortReadIsPadded`) |
| `Client.SendBeforeConnect` | lib/application_client.cpp:272-311 | a payload queued on a fresh client, whose sends all fail, leads to exactly one error: SOCKET_SEND_FAILURE with that payload, byte for byte |
| `Client.OpenThenClose` | lib/application_client.cpp:46-76 | on a fresh client, `RequestOpen` with a new socket and a successful connect is accepted, `RequestClose` is then refused and the state stays OPENING, because nothing sets CONNECTED. The single connected callback comes from the corrected `OpenConnection` |
| `Client.NeverConnected` | lib/application_client.cpp:46-76 | from any state other than CONNECTED, every sequence of open, close, enqueue and clear requests and transmit and receive passes keeps the state other than CONNECTED and keeps `Valid()`, and every close request in it is refused |
| `Transmit.SendPayload` | lib/application_client.cpp:296-318 | the send loop on values: one call per answer consumed, never more answers than supplied, no call for an empty payload, and the first call is offered the whole payload |
| `Transmit.SendRound` | lib/application_client.cpp:302-315 | one loop round: there is an answer for this round's call. A negative answer ends the send as a failure right after that call. A non-negative answer stays within the unsent bytes |
| `Transmit.SendAccepted` | lib/application_client.cpp:315 | a round whose call accepted bytes advances the offset past them and moves on to the next answer, and the rest of the send, from the new offset, still completes the whole send (the loop invariant is kept) |
| `Transmit.SendPayloadFailsLast` | lib/application_client.cpp:302-317 | every call but the last accepted bytes, and the send fails iff its last call reported failure |
| `Transmit.SendPayloadDelivers` | lib/application_client.cpp:302-317 | on success the bytes accepted by the successive calls concatenate to exactly the payload. On failure they form a proper prefix of it |
| `Transmit.SendPayloadResumes` | lib/application_client.cpp:302-315 | call i is a send on the descriptor, is offered the payload from the first byte not yet accepted, and reports the i-th answer |
| `Transmit.SendReport` | lib/application_client.cpp:306-311 | an entry yields at most one report: none on success, and on failure one SOCKET_SEND_FAILURE carrying the payload it is given. That this is the whole entry is stated by `SendNextPayload`, whose ensures passes it the front entry |
| `Transmit.Drain` | lib/application_client.cpp:287-292 | the drain loop on values: each entry is sent on its own answers, and there are never more reports than entries |
| `Transmit.DrainRound` | lib/application_client.cpp:289-292 | one round of the drain loop: sending the front entry on its answers and appending its calls and report keeps what is left of the queue, drained on the answers left, completing the whole drain |
| `Transmit.DrainSplits` | lib/application_client.cpp:289-292 | FIFO order: draining q1 + q2 attempts all of q1 before any of q2, and its calls and reports are q1's followed by q2's |
| `Transmit.DrainDeliversInOrder` | lib/application_client.cpp:289-317 | when no send fails, the transport receives exactly the concatenation of the queue in insertion order |
| `Transmit.DrainReportsSendFailures` | lib/application_client.cpp:289-311 | a drain reports only SOCKET_SEND_FAILURE errors, each carrying one of the queued payloads |
| `Transmit.DrainWithoutConnection` | lib/application_client.cpp:289-311 | when every send fails, each non-empty entry gets one send call and is reported once, as itself and in order, and nothing is delivered |
| `Receive.ReadIntoBuffer` | lib/application_client.cpp:324-327 | the buffer after a read holds 1024 bytes: the bytes read, then zeros |
| `Receive.RxChunkAsWritten` | lib/application_client.cpp:343 | as written, the chunk handed to the receive callback is the whole 1024-byte buffer: the bytes read, then zeros |
| `Receive.ShortReadIsPadded` | lib/application_client.cpp:343 | as written, a 5-byte read reaches the receive callback as 1024 bytes, padded with zeros |
| `Receive.RxChunk` | lib/application_client.cpp:343 | corrected: the chunk handed to the callback is exactly the bytes read |
| `Receive.ChunksReassemble` | lib/application_client.cpp:320-344 | with the correction, the chunks of successive reads concatenate to exactly the bytes received. This follows read by read from `RxChunk` being the identity on the bytes read |
| `Receive.ChunksAsWrittenDoNotReassemble` | lib/application_client.cpp:343 | as written, two 2-byte reads reach the callback as 2048 bytes, which differ from the 4 bytes sent |
| `Opening.OpenConnectionAsWritten` | lib/application_client.cpp:135-148 | the routine as written, over the successive `socket()` answers (each socket opened as at lines 168-202). An UNDEFINED mode returns false with nothing done. Otherwise a run that returns has made at least one socket call and at most one per answer, and holds exactly one event. That the event is the open failure, and that the routine never returns while `socket()` keeps succeeding, are `OpenConnectionAsWrittenReturnsOnFailure` and `OpenConnectionAsWrittenNeverReturns` |
| `Opening.OpenConnectionAsWrittenNeverSucceeds` | lib/application_client.cpp:135-148 | as written, opening a connection never returns true, whatever the transport answers |
| `Opening.OpenConnectionAsWrittenNeverReturns` | lib/application_client.cpp:135-148 | as written, while socket() keeps succeeding the routine keeps opening sockets and never returns |
| `Opening.OpenConnectionAsWrittenReturnsOnFailure` | lib/application_client.cpp:135-183 | as written, when it returns it has reported exactly one SOCKET_OPEN_FAILURE, made one socket call per answer up to the first failing one (every earlier answer opened a socket), and kept the last descriptor it opened |

## Left out

- Socket syscalls. `socket`, `connect`, `send`, `read` and `close` are reduced to their answers. Address building (`htons`, `inet_pton`, `strncpy` into `sun_path`), `perror` and the error-message strings are not modelled.
- In the domain-socket connect, line 246 has `inet_pton` write the 4-byte binary form of the default address 0.0.0.0, which is four NUL bytes, into `sun_path[0..4]`. So the connect goes to an address whose path starts with NUL, never to the configured path. `ConnectCall` records the configured endpoint as the target, because address structures are outside the model.
- Threads and locking. Threads, `JoinThreads`, the destructor, the mutexes and shared locks, and blocking on the semaphores are left out. Each method runs as one atomic step. So a `RequestClose` that closes the descriptor between two sends of a drain does not appear as a `CloseCall` among that drain's `SendCall`s. Such a close reaches the model only through the send answers it causes.
- Empty stubs and undefined members. `Start`, `IsRunning`, `ClearOutboundPayloads` and the worker-state setters and getters are declared but not defined. `StartThreads` and `MonitorConnection` have empty bodies, so `StartThreads` is a comment in `RequestOpen`.
- Undeclared bodies. `Clear` (line 95) and `StartThreads` (line 101) have bodies in the implementation file, but the class declaration in the header declares neither. The file as shown would not compile. The model takes both bodies as members of the class anyway.
- Callback setters. The handlers are caller code. The model records each invocation instead of running a handler.
- Zero-byte sends. `Transmit.Answers` admits only send answers that are negative or between 1 and the bytes offered. A send that accepts 0 bytes would make the source loop forever, and a count above the bytes offered is not a valid answer.
- `Client.ApplicationClient.SendNextPayload` requires a non-empty queue. `front()` on an empty list is undefined, and its only caller checks first.
- Releasing a binary semaphore that already holds a permit is undefined in C++. The model keeps it at one permit.
- Integer widths. `ssize_t` and the descriptors are unbounded integers, because no arithmetic on them can overflow. Ports are limited to 0..65535.
- Bytes are `char`s, as the source treats them.
- The receive loop is modelled one read at a time, and reads are not recorded in `calls`. After a 0-byte read (end of stream) the source keeps reading. The model takes that read as an empty chunk and leaves out the endless loop.

## Findings

| source | as written | input that shows it | evidently intended | confidence | as-written member | corrected member |
|---|---|---|---|---|---|---|
| lib/application_client.cpp:142 | `OpenConnection` calls itself where the connect step belongs | any run in which `socket()` succeeds: another socket is opened, and the routine returns (false) only after some `socket()` fails | call `Connect()` after `OpenSocket()` | not executed; high | `Opening.OpenConnectionAsWritten` | `Client.ApplicationClient.OpenConnection` |
| lib/application_client.cpp:343 | the receive callback is handed a view of the whole 1024-byte buffer | a read returning the 5 bytes "hello" reaches the callback as 1024 bytes | hand over the first `read_bytes` bytes | not executed; high | `Receive.RxChunkAsWritten` | `Receive.RxChunk` |
