/** The connection-opening routine as the source writes it: after opening a
    socket it calls itself where the connect step belongs, so every
    successful open is followed by another open. The answers of successive
    socket() calls are an oracle; running out of answers means the routine
    has not returned yet. */
module Opening {
  import opened ClientTypes

  datatype OpenTrace = OpenTrace(result: bool, calls: seq<Syscall>, events: seq<Event>, fd: int)

  /** None: still recursing when the answers ran out. */
  function OpenConnectionAsWritten(mode: SocketMode, fd: int, socketResults: seq<int>): (r: Option<OpenTrace>)
    ensures mode == Undefined ==> r == Some(OpenTrace(false, [], [], fd))
    ensures r.Some? ==> |r.value.calls| <= |socketResults| && |r.value.events| <= 1
    ensures r.Some? && mode != Undefined ==> r.value.calls != [] && r.value.events != []
    decreases |socketResults|
  {
    if mode == Undefined then Some(OpenTrace(false, [], [], fd))
    else if socketResults == [] then None
    else if socketResults[0] < 0 then
      Some(OpenTrace(false, [SocketCall(mode, socketResults[0])], [OnError(SocketOpenFailure, None)], fd))
    else
      match OpenConnectionAsWritten(mode, socketResults[0], socketResults[1..])
      case None => None
      case Some(inner) =>
        Some(OpenTrace(inner.result, [SocketCall(mode, socketResults[0])] + inner.calls, inner.events, inner.fd))
  }

  /** As written, opening a connection never reports success, whatever the
      transport answers. */
  lemma {:induction false} OpenConnectionAsWrittenNeverSucceeds(mode: SocketMode, fd: int, socketResults: seq<int>)
    ensures var r := OpenConnectionAsWritten(mode, fd, socketResults);
      r.Some? ==> !r.value.result
    decreases |socketResults|
  {
    if mode != Undefined && socketResults != [] && socketResults[0] >= 0 {
      OpenConnectionAsWrittenNeverSucceeds(mode, socketResults[0], socketResults[1..]);
    }
  }

  /** As written, while socket() keeps succeeding the routine keeps opening
      sockets and never returns, however many answers are supplied. */
  lemma {:induction false} OpenConnectionAsWrittenNeverReturns(mode: SocketMode, fd: int, socketResults: seq<int>)
    requires mode != Undefined
    requires forall i :: 0 <= i < |socketResults| ==> socketResults[i] >= 0
    ensures OpenConnectionAsWritten(mode, fd, socketResults) == None
    decreases |socketResults|
  {
    if socketResults != [] {
      OpenConnectionAsWrittenNeverReturns(mode, socketResults[0], socketResults[1..]);
    }
  }

  /** As written, when the routine does return it has reported exactly one
      open failure, made one socket() call per answer up to the failing one,
      every answer before the failing one having opened a socket, and left
      the descriptor at the last socket it opened. */
  lemma {:induction false} OpenConnectionAsWrittenReturnsOnFailure(mode: SocketMode, fd: int, socketResults: seq<int>)
    requires mode != Undefined
    ensures var r := OpenConnectionAsWritten(mode, fd, socketResults);
      r.Some? ==>
        && r.value.events == [OnError(SocketOpenFailure, None)]
        && 1 <= |r.value.calls| <= |socketResults|
        && socketResults[|r.value.calls| - 1] < 0
        && (forall i :: 0 <= i < |r.value.calls| - 1 ==> socketResults[i] >= 0)
        && (forall i :: 0 <= i < |r.value.calls| ==> r.value.calls[i] == SocketCall(mode, socketResults[i]))
        && r.value.fd == (if |r.value.calls| == 1 then fd else socketResults[|r.value.calls| - 2])
    decreases |socketResults|
  {
    if socketResults != [] && socketResults[0] >= 0 {
      var rest := socketResults[1..];
      OpenConnectionAsWrittenReturnsOnFailure(mode, socketResults[0], rest);
      var inner := OpenConnectionAsWritten(mode, socketResults[0], rest);
      if inner.Some? {
        var r := OpenConnectionAsWritten(mode, fd, socketResults);
        assert r.value.calls == [SocketCall(mode, socketResults[0])] + inner.value.calls;
        forall i | 1 <= i < |r.value.calls|
          ensures r.value.calls[i] == SocketCall(mode, socketResults[i])
        {
          assert r.value.calls[i] == inner.value.calls[i - 1];
          assert rest[i - 1] == socketResults[i];
        }
        forall i | 1 <= i < |r.value.calls| - 1
          ensures socketResults[i] >= 0
        {
          assert rest[i - 1] == socketResults[i];
        }
        assert inner.value.fd == (if |inner.value.calls| == 1 then socketResults[0] else rest[|inner.value.calls| - 2]);
      }
    }
  }
}
