/** The client object: its connection state, outbound queue and wake flag
    are fields that the façade operations and the worker-loop bodies update
    in place. Callbacks are recorded in `events` (the default callbacks do
    nothing else), calls into the transport in `calls`, and each transport
    answer is a parameter. A binary semaphore is a boolean: releasing sets
    it, acquiring needs it set and clears it. */
module Client {
  import opened ClientTypes
  import opened Transmit
  import Receive

  /** What one wake of the transmit dispatcher did. */
  datatype TxStep = StillWaiting | Stopped | Drained

  /** What the transport answered to one blocking read. */
  datatype ReadResult = ReadFailed | ReadBytes(bytes: seq<char>)

  /** Whether the receive loop goes round again after a read. */
  datatype RxStep = RxStopped | RxContinues

  /** One thing that can happen to a client: a façade call, or one pass of
      a worker loop with the transport's answers. */
  datatype Operation =
    | Open(socketResult: int, connectOk: bool)
    | Close
    | Enqueue(txBytes: seq<char>)
    | ClearQueue
    | TxWake(answers: seq<seq<int>>)
    | RxRead(read: ReadResult)

  class ApplicationClient {
    const endpoint: Endpoint
    var clientState: ClientState
    /** Pending outbound payloads, front first. */
    var txQueue: seq<seq<char>>
    /** The transmit dispatcher's semaphore holds a permit. */
    var txWake: bool
    /** The connection monitor's semaphore holds a permit. */
    var monitorWake: bool
    var clientFd: int
    var serverFd: int
    var workerThreadsStarted: bool
    var monitorThreadState: WorkerThreadState
    var txThreadState: WorkerThreadState
    /** Every callback invocation so far, in order. */
    var events: seq<Event>
    /** Every transport call so far, in order, with its answer. */
    var calls: seq<Syscall>

    /** No queued payload is empty, and every error reported so far is one
        the client can report (never a close failure; a payload exactly on
        send failures). */
    ghost predicate Valid()
      reads this
    {
      NoEmptyPayloads(txQueue) && AllReportable(events)
    }

    /** The state right after construction. */
    ghost predicate Initial()
      reads this
    {
      && clientState == NotConnected
      && txQueue == [] && !txWake && !monitorWake
      && clientFd == -1 && serverFd == -1
      && !workerThreadsStarted
      && monitorThreadState == Inactive && txThreadState == Inactive
      && events == [] && calls == []
    }

    /** A client for a TCP/IPv4 endpoint. */
    constructor Tcp(ipv4Address: string, port: Port)
      ensures endpoint == TcpEndpoint(ipv4Address, port)
      ensures Initial() && Valid()
    {
      endpoint := TcpEndpoint(ipv4Address, port);
      clientState := NotConnected;
      txQueue, txWake, monitorWake := [], false, false;
      clientFd, serverFd := -1, -1;
      workerThreadsStarted := false;
      monitorThreadState, txThreadState := Inactive, Inactive;
      events, calls := [], [];
    }

    /** A client for a domain-socket endpoint. */
    constructor Unix(unixSocketPath: string)
      ensures endpoint == UnixEndpoint(unixSocketPath)
      ensures Initial() && Valid()
    {
      endpoint := UnixEndpoint(unixSocketPath);
      clientState := NotConnected;
      txQueue, txWake, monitorWake := [], false, false;
      clientFd, serverFd := -1, -1;
      workerThreadsStarted := false;
      monitorThreadState, txThreadState := Inactive, Inactive;
      events, calls := [], [];
    }

    method GetClientState() returns (s: ClientState)
      ensures s == clientState
    {
      s := clientState;
    }

    /** Accepted only from NOT_CONNECTED; then it tries to open the
        connection and reports acceptance whatever the attempt did. A
        rejected request changes nothing. */
    method RequestOpen(socketResult: int, connectOk: bool) returns (accepted: bool)
      requires Valid()
      modifies this`clientState, this`clientFd, this`calls, this`events
      ensures Valid()
      ensures accepted <==> old(clientState) == NotConnected
      ensures !accepted ==>
        clientState == old(clientState) && clientFd == old(clientFd) &&
        calls == old(calls) && events == old(events)
      ensures accepted ==> clientState == Opening
      ensures accepted && endpoint.socketMode == Undefined ==>
        clientFd == old(clientFd) && calls == old(calls) && events == old(events)
      ensures accepted && endpoint.socketMode != Undefined && socketResult < 0 ==>
        && clientFd == old(clientFd)
        && calls == old(calls) + [SocketCall(endpoint.socketMode, socketResult)]
        && events == old(events) + [OnError(SocketOpenFailure, None)]
      ensures accepted && endpoint.socketMode != Undefined && socketResult >= 0 ==>
        && clientFd == socketResult
        && calls == old(calls) + [SocketCall(endpoint.socketMode, socketResult),
                                  ConnectCall(socketResult, endpoint, connectOk)]
        && events == old(events) + [if connectOk then OnConnected else OnError(SocketConnectFailure, None)]
    {
      var s := GetClientState();
      if s != NotConnected {
        return false;
      }
      var connected := OpenConnection(socketResult, connectOk);
      // On success the source starts the worker threads, an empty routine.
      return true;
    }

    /** Accepted only from CONNECTED; then the state becomes CLOSING, the
        socket is closed (one disconnected callback) and the transmit
        dispatcher is woken. A rejected request changes nothing. */
    method RequestClose() returns (accepted: bool)
      requires Valid()
      modifies this`clientState, this`calls, this`events, this`txWake
      ensures Valid()
      ensures accepted <==> old(clientState) == Connected
      ensures !accepted ==>
        clientState == old(clientState) && calls == old(calls) &&
        events == old(events) && txWake == old(txWake)
      ensures accepted ==>
        && clientState == Closing
        && calls == old(calls) + [CloseCall(clientFd)]
        && events == old(events) + [OnDisconnected]
        && txWake
    {
      var s := GetClientState();
      if s != Connected {
        return false;
      }
      clientState := Closing;
      CloseSocket();
      txWake := true;
      return true;
    }

    /** Rejects an empty payload without any effect; otherwise queues a copy
        at the back and wakes the transmit dispatcher. */
    method EnqueuePayload(txBytes: seq<char>) returns (accepted: bool)
      requires Valid()
      modifies this`txQueue, this`txWake
      ensures Valid()
      ensures accepted <==> txBytes != []
      ensures !accepted ==> txQueue == old(txQueue) && txWake == old(txWake)
      ensures accepted ==> txQueue == old(txQueue) + [txBytes] && txWake
    {
      if txBytes == [] {
        return false;
      }
      txQueue := txQueue + [txBytes];
      txWake := true;
      return true;
    }

    /** Drops every pending payload. */
    method Clear()
      requires Valid()
      modifies this`txQueue
      ensures Valid()
      ensures txQueue == []
    {
      txQueue := [];
    }

    /** Opening a connection: open the socket, then connect it (the source
        calls itself here instead; see module Opening). Succeeds exactly when
        both steps do. The state stays OPENING either way. */
    method OpenConnection(socketResult: int, connectOk: bool) returns (ok: bool)
      requires Valid()
      modifies this`clientState, this`clientFd, this`calls, this`events
      ensures Valid()
      ensures clientState == Opening
      ensures ok <==> endpoint.socketMode != Undefined && socketResult >= 0 && connectOk
      ensures endpoint.socketMode == Undefined ==>
        clientFd == old(clientFd) && calls == old(calls) && events == old(events)
      ensures endpoint.socketMode != Undefined && socketResult < 0 ==>
        && clientFd == old(clientFd)
        && calls == old(calls) + [SocketCall(endpoint.socketMode, socketResult)]
        && events == old(events) + [OnError(SocketOpenFailure, None)]
      ensures endpoint.socketMode != Undefined && socketResult >= 0 ==>
        && clientFd == socketResult
        && calls == old(calls) + [SocketCall(endpoint.socketMode, socketResult),
                                  ConnectCall(socketResult, endpoint, connectOk)]
        && events == old(events) + [if connectOk then OnConnected else OnError(SocketConnectFailure, None)]
    {
      ok := OpenSocket(socketResult);
      if !ok {
        return false;
      }
      ok := Connect(connectOk);
    }

    /** Sets OPENING, then asks the transport for a socket of the endpoint's
        family: a failure is reported with no payload and leaves the
        descriptor alone; an endpoint of undefined mode opens nothing. */
    method OpenSocket(socketResult: int) returns (ok: bool)
      requires Valid()
      modifies this`clientState, this`clientFd, this`calls, this`events
      ensures Valid()
      ensures clientState == Opening
      ensures ok <==> endpoint.socketMode != Undefined && socketResult >= 0
      ensures endpoint.socketMode == Undefined ==>
        clientFd == old(clientFd) && calls == old(calls) && events == old(events)
      ensures endpoint.socketMode != Undefined ==>
        calls == old(calls) + [SocketCall(endpoint.socketMode, socketResult)]
      ensures endpoint.socketMode != Undefined && socketResult < 0 ==>
        clientFd == old(clientFd) && events == old(events) + [OnError(SocketOpenFailure, None)]
      ensures ok ==> clientFd == socketResult && events == old(events)
    {
      clientState := Opening;
      ok := false;
      if endpoint.socketMode == TcpIpv4 || endpoint.socketMode == UnixDomain {
        // The TCP and domain-socket routines differ only in address family.
        calls := calls + [SocketCall(endpoint.socketMode, socketResult)];
        if socketResult < 0 {
          events := events + [OnError(SocketOpenFailure, None)];
          return false;
        }
        clientFd := socketResult;
        ok := true;
      }
    }

    /** Connects the descriptor to the endpoint: success fires the connected
        callback, failure reports a connect failure with no payload; an
        endpoint of undefined mode connects nothing. */
    method Connect(connectOk: bool) returns (ok: bool)
      requires Valid()
      modifies this`calls, this`events
      ensures Valid()
      ensures ok <==> endpoint.socketMode != Undefined && connectOk
      ensures endpoint.socketMode == Undefined ==> calls == old(calls) && events == old(events)
      ensures endpoint.socketMode != Undefined ==>
        && calls == old(calls) + [ConnectCall(clientFd, endpoint, connectOk)]
        && events == old(events) + [if connectOk then OnConnected else OnError(SocketConnectFailure, None)]
    {
      ok := false;
      if endpoint.socketMode == TcpIpv4 || endpoint.socketMode == UnixDomain {
        calls := calls + [ConnectCall(clientFd, endpoint, connectOk)];
        if !connectOk {
          events := events + [OnError(SocketConnectFailure, None)];
          return false;
        }
        events := events + [OnConnected];
        ok := true;
      }
    }

    /** Closes the descriptor (which keeps its value) and fires the
        disconnected callback. */
    method CloseSocket()
      requires Valid()
      modifies this`calls, this`events
      ensures Valid()
      ensures calls == old(calls) + [CloseCall(clientFd)]
      ensures events == old(events) + [OnDisconnected]
    {
      calls := calls + [CloseCall(clientFd)];
      events := events + [OnDisconnected];
    }

    /** Takes the front payload off the queue, then offers the unsent rest
        of it to the transport until all of it is accepted or a call fails;
        a failure is reported once, carrying the whole payload. `used`
        counts the send answers consumed. */
    method SendNextPayload(results: seq<int>) returns (ok: bool, used: nat)
      requires Valid()
      requires txQueue != [] && Answers(|txQueue[0]|, results, 0)
      modifies this`txQueue, this`calls, this`events
      ensures Valid()
      ensures txQueue == old(txQueue)[1..]
      ensures var o := SendPayload(clientFd, old(txQueue)[0], results, 0);
        && ok == o.ok && used == o.used
        && calls == old(calls) + o.calls
        && events == old(events) + SendReport(ok, old(txQueue)[0])
    {
      var txPayload := txQueue[0];
      txQueue := txQueue[1..];
      ghost var whole := SendPayload(clientFd, txPayload, results, 0);
      SendStarts(clientFd, txPayload, results, 0);
      // The calls of this send, recorded in order once the loop ends (it
      // changes nothing else, and the failure report comes after them).
      var sent: seq<Syscall> := [];
      var offset := 0;
      var failed := false;
      used := 0;
      while offset < |txPayload|
        invariant SendProgress(clientFd, whole, txPayload, offset, results, 0, used, sent)
        modifies {}
        decreases |txPayload| - offset
      {
        var sentBytes := results[used];
        var call := SendCall(clientFd, txPayload[offset..], sentBytes);
        SendRound(clientFd, whole, txPayload, offset, results, 0, used, sent);
        if sentBytes < 0 {
          sent := sent + [call];
          used := used + 1;
          failed := true;
          break;
        }
        ghost var offsetBefore, usedBefore, sentBefore := offset, used, sent;
        offset := offset + sentBytes;
        used := used + 1;
        sent := sent + [call];
        SendAccepted(clientFd, whole, txPayload, offsetBefore, results, 0, usedBefore, sentBefore,
                     offset, sent);
      }
      if !failed {
        SendEnds(clientFd, whole, txPayload, results, 0, used, sent);
      }
      calls := calls + sent;
      ok := !failed;
      if failed {
        events := events + [OnError(SocketSendFailure, Some(txPayload))];
      }
    }

    /** One wake of the transmit dispatcher, entered after its loop saw a
        state other than CLOSING. Without a permit it keeps waiting. With
        one it consumes it; if the state is now CLOSING it stops without
        draining, otherwise it drains the whole queue front-first. The send
        calls for the k-th entry drained are answered by `answers[k]`. */
    method ProcessTxWake(answers: seq<seq<int>>) returns (step: TxStep)
      requires Valid()
      requires txWake && clientState != Closing ==> DrainAnswered(txQueue, answers)
      modifies this`txWake, this`txQueue, this`calls, this`events
      ensures Valid()
      ensures !old(txWake) ==>
        step == StillWaiting && !txWake &&
        txQueue == old(txQueue) && calls == old(calls) && events == old(events)
      ensures old(txWake) && clientState == Closing ==>
        step == Stopped && !txWake &&
        txQueue == old(txQueue) && calls == old(calls) && events == old(events)
      ensures old(txWake) && clientState != Closing ==>
        var o := Drain(clientFd, old(txQueue), answers);
        && step == Drained && !txWake && txQueue == []
        && calls == old(calls) + o.calls
        && events == old(events) + o.errors
    {
      if !txWake {
        return StillWaiting;
      }
      txWake := false;
      if clientState == Closing {
        return Stopped;
      }
      ghost var whole := Drain(clientFd, txQueue, answers);
      ghost var calls0, events0 := calls, events;
      DrainStarts(clientFd, calls0, events0, txQueue, answers);
      var drained := 0;
      while txQueue != []
        invariant Valid() && !txWake
        invariant drained <= |answers|
        invariant DrainProgress(clientFd, whole, calls0, events0, txQueue, answers[drained..], calls, events)
        decreases |txQueue|
      {
        DrainRound(clientFd, whole, calls0, events0, txQueue, answers[drained..], calls, events);
        assert answers[drained..][0] == answers[drained];
        assert answers[drained..][1..] == answers[drained + 1..];
        var ok, used := SendNextPayload(answers[drained]);
        drained := drained + 1;
      }
      DrainEnds(clientFd, whole, calls0, events0, answers[drained..], calls, events);
      step := Drained;
    }

    /** One pass of the receive loop from its blocking read, entered after
        the loop saw a state other than CLOSING. A failed read stops the loop
        if the state is now CLOSING and is otherwise reported with no
        payload; a successful read hands the bytes read to the receive
        callback as one chunk (the source hands over the whole buffer; see
        module Receive). */
    method ProcessRxRead(read: ReadResult) returns (step: RxStep)
      requires Valid()
      requires read.ReadBytes? ==> |read.bytes| <= RX_BUFFER_SIZE
      modifies this`events
      ensures Valid()
      ensures read.ReadFailed? && clientState == Closing ==> step == RxStopped && events == old(events)
      ensures read.ReadFailed? && clientState != Closing ==>
        step == RxContinues && events == old(events) + [OnError(SocketReadFailure, None)]
      ensures read.ReadBytes? ==> step == RxContinues && events == old(events) + [OnRx(read.bytes)]
    {
      if read.ReadFailed? {
        if clientState == Closing {
          return RxStopped;
        }
        events := events + [OnError(SocketReadFailure, None)];
        return RxContinues;
      }
      events := events + [OnRx(Receive.RxChunk(read.bytes))];
      return RxContinues;
    }
  }

  /** A payload queued before any connection exists (every send fails) is
      reported back exactly once, byte for byte, as a send failure. */
  method SendBeforeConnect(payload: seq<char>) returns (reported: seq<Event>)
    requires payload != []
    ensures reported == [OnError(SocketSendFailure, Some(payload))]
  {
    var client := new ApplicationClient.Tcp("127.0.0.1", 5000);
    var accepted := client.EnqueuePayload(payload);
    DrainWithoutConnection(client.clientFd, [payload], [[-1]]);
    var step := client.ProcessTxWake([[-1]]);
    reported := client.events;
  }

  /** A fresh client accepts an open request; since nothing in the client
      moves the state on from OPENING, a close request is then refused. */
  method OpenThenClose() returns (openAccepted: bool, closeAccepted: bool, state: ClientState, reported: seq<Event>)
    ensures openAccepted && !closeAccepted && state == Opening && reported == [OnConnected]
  {
    var client := new ApplicationClient.Tcp("127.0.0.1", 5000);
    openAccepted := client.RequestOpen(3, true);
    closeAccepted := client.RequestClose();
    state := client.GetClientState();
    reported := client.events;
  }

  /** The number of close requests among `ops`. */
  function CloseRequests(ops: seq<Operation>): nat {
    if ops == [] then 0
    else CloseRequests(ops[..|ops| - 1]) + (if ops[|ops| - 1].Close? then 1 else 0)
  }

  /** No operation of the client sets CONNECTED: from any state other than
      CONNECTED (a fresh client is NOT_CONNECTED), every sequence of façade
      calls and worker passes leaves the state other than CONNECTED, and so
      every close request in it is refused: `closeAnswers` holds the answer
      to each close request, in order. A worker pass whose answers do
      not fit the queue, or whose read is larger than the buffer, is not a
      run the transport can produce and is skipped. */
  method NeverConnected(client: ApplicationClient, ops: seq<Operation>) returns (closeAnswers: seq<bool>)
    requires client.Valid() && client.clientState != Connected
    modifies client
    ensures client.Valid() && client.clientState != Connected
    ensures |closeAnswers| == CloseRequests(ops)
    ensures forall k :: 0 <= k < |closeAnswers| ==> !closeAnswers[k]
  {
    closeAnswers := [];
    for i := 0 to |ops|
      invariant client.Valid() && client.clientState != Connected
      invariant |closeAnswers| == CloseRequests(ops[..i])
      invariant forall k :: 0 <= k < |closeAnswers| ==> !closeAnswers[k]
    {
      assert ops[..i + 1][..i] == ops[..i];
      match ops[i]
      case Open(socketResult, connectOk) =>
        var accepted := client.RequestOpen(socketResult, connectOk);
      case Close =>
        var accepted := client.RequestClose();
        closeAnswers := closeAnswers + [accepted];
      case Enqueue(txBytes) =>
        var accepted := client.EnqueuePayload(txBytes);
      case ClearQueue =>
        client.Clear();
      case TxWake(answers) =>
        if !client.txWake || client.clientState == Closing || DrainAnswered(client.txQueue, answers) {
          var step := client.ProcessTxWake(answers);
        }
      case RxRead(read) =>
        if read.ReadFailed? || |read.bytes| <= RX_BUFFER_SIZE {
          var step := client.ProcessRxRead(read);
        }
    }
    assert ops[..|ops|] == ops;
  }
}
