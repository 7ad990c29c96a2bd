/** The transmit side as values: the partial-write send loop for one queue
    entry and the drain of a whole queue, over an oracle that supplies the
    result of each successive send call. The oracle is a sequence of
    answers and a cursor `at`: the answers before `at` went to earlier
    calls. */
module Transmit {
  import opened ClientTypes

  /** The transport answers every send call made while `remaining` bytes are
      unsent, starting with answer `at`: each answer is a failure (negative)
      or a count between 1 and the bytes offered. A send that accepts
      nothing is not admitted, since the source would then offer the same
      bytes forever. */
  predicate Answers(remaining: nat, results: seq<int>, at: nat)
    decreases remaining
  {
    at <= |results| &&
    (remaining == 0 ||
     (at < |results| &&
      (results[at] < 0 ||
       (1 <= results[at] <= remaining && Answers(remaining - results[at], results, at + 1)))))
  }

  /** The result of one send run: whether all of the payload went out, the
      calls made, and `used`, the number of answers consumed. `used` always
      equals the number of calls; it is kept because it is the cursor the
      send loop advances and the count `SendNextPayload` returns. */
  datatype SendOutcome = SendOutcome(ok: bool, calls: seq<Syscall>, used: nat)

  /** Sending `view` on `fd`: each call is offered the whole unsent suffix,
      the loop resumes past the bytes the call accepted, and stops at the
      first failure. `used` counts the oracle answers consumed. */
  function SendPayload(fd: int, view: seq<char>, results: seq<int>, at: nat): (o: SendOutcome)
    requires Answers(|view|, results, at)
    ensures o.used == |o.calls| && at + o.used <= |results|
    ensures view == [] <==> o.calls == []
    ensures view != [] ==> o.calls[0] == SendCall(fd, view, results[at])
    decreases |view|
  {
    if view == [] then SendOutcome(true, [], 0)
    else if results[at] < 0 then SendOutcome(false, [SendCall(fd, view, results[at])], 1)
    else
      var rest := SendPayload(fd, view[results[at]..], results, at + 1);
      SendOutcome(rest.ok, [SendCall(fd, view, results[at])] + rest.calls, 1 + rest.used)
  }

  /** The bytes a call handed to the transport that the transport accepted. */
  function Accepted(c: Syscall): seq<char> {
    if c.SendCall? && 0 <= c.sent <= |c.bytes| then c.bytes[..c.sent] else []
  }

  /** Everything the transport accepted over a run of calls, in order. */
  function Delivered(calls: seq<Syscall>): seq<char> {
    if calls == [] then [] else Accepted(calls[0]) + Delivered(calls[1..])
  }

  lemma {:induction false} DeliveredAppend(a: seq<Syscall>, b: seq<Syscall>)
    ensures Delivered(a + b) == Delivered(a) + Delivered(b)
    decreases |a|
  {
    if a != [] {
      assert (a + b)[0] == a[0] && (a + b)[1..] == a[1..] + b;
      DeliveredAppend(a[1..], b);
    } else {
      assert a + b == b;
    }
  }

  lemma DeliveredCons(c: Syscall, s: seq<Syscall>)
    ensures Delivered([c] + s) == Accepted(c) + Delivered(s)
  {
    assert ([c] + s)[0] == c && ([c] + s)[1..] == s;
  }

  /** A send whose first call accepted bytes is that call followed by the
      send of the rest of the payload on the next answers. */
  lemma SendPayloadStep(fd: int, view: seq<char>, results: seq<int>, at: nat)
    requires Answers(|view|, results, at) && view != [] && results[at] >= 0
    ensures 1 <= results[at] <= |view| && Answers(|view[results[at]..]|, results, at + 1)
    ensures var rest := SendPayload(fd, view[results[at]..], results, at + 1);
      SendPayload(fd, view, results, at) ==
        SendOutcome(rest.ok, [SendCall(fd, view, results[at])] + rest.calls, 1 + rest.used)
  {
  }

  /** Part-way through the send of `payload`, whose whole run `whole`
      started at answer `start`: `offset` bytes are sent, the next answer is
      `next`, `sentCalls` were made, and the rest of the run is the send of
      the unsent suffix from answer `next` on. */
  predicate SendProgress(fd: int, whole: SendOutcome, payload: seq<char>, offset: nat,
                         results: seq<int>, start: nat, next: nat, sentCalls: seq<Syscall>)
  {
    && offset <= |payload|
    && Answers(|payload| - offset, results, next)
    && var rest := SendPayload(fd, payload[offset..], results, next);
       && whole.calls == sentCalls + rest.calls
       && whole.ok == rest.ok
       && start + whole.used == next + rest.used
  }

  /** Before the first round, the whole send is still to come. */
  lemma SendStarts(fd: int, payload: seq<char>, results: seq<int>, at: nat)
    requires Answers(|payload|, results, at)
    ensures SendProgress(fd, SendPayload(fd, payload, results, at), payload, 0, results, at, at, [])
  {
    assert payload[0..] == payload;
    assert [] + SendPayload(fd, payload, results, at).calls == SendPayload(fd, payload, results, at).calls;
  }

  /** Once every byte is sent, the run succeeded with exactly the calls
      made. */
  lemma SendEnds(fd: int, whole: SendOutcome, payload: seq<char>, results: seq<int>,
                 start: nat, next: nat, sentCalls: seq<Syscall>)
    requires SendProgress(fd, whole, payload, |payload|, results, start, next, sentCalls)
    ensures whole.ok && whole.calls == sentCalls && start + whole.used == next
  {
    assert payload[|payload|..] == [];
    assert sentCalls + [] == sentCalls;
  }

  /** One round of the send loop: there is an answer for this round's call,
      and a failing answer ends the send as a failure right after it. */
  lemma SendRound(fd: int, whole: SendOutcome, payload: seq<char>, offset: nat,
                  results: seq<int>, start: nat, next: nat, sentCalls: seq<Syscall>)
    requires offset < |payload|
    requires SendProgress(fd, whole, payload, offset, results, start, next, sentCalls)
    ensures next < |results|
    ensures results[next] >= 0 ==> offset + results[next] <= |payload|
    ensures results[next] < 0 ==>
      && whole.calls == sentCalls + [SendCall(fd, payload[offset..], results[next])]
      && !whole.ok && start + whole.used == next + 1
  {
    assert [SendCall(fd, payload[offset..], results[next])] + [] == [SendCall(fd, payload[offset..], results[next])];
  }

  /** A round whose call accepted bytes moves both positions on and keeps
      the send loop's invariant, for the positions and calls after it. */
  lemma SendAccepted(fd: int, whole: SendOutcome, payload: seq<char>, offset: nat,
                     results: seq<int>, start: nat, next: nat, sentCalls: seq<Syscall>,
                     nextOffset: nat, nextCalls: seq<Syscall>)
    requires offset < |payload|
    requires SendProgress(fd, whole, payload, offset, results, start, next, sentCalls)
    requires next < |results| && results[next] >= 0
    requires nextOffset == offset + results[next]
    requires nextCalls == sentCalls + [SendCall(fd, payload[offset..], results[next])]
    ensures SendProgress(fd, whole, payload, nextOffset, results, start, next + 1, nextCalls)
  {
    var view := payload[offset..];
    SendPayloadStep(fd, view, results, next);
    assert view[results[next]..] == payload[nextOffset..];
    var rest := SendPayload(fd, view[results[next]..], results, next + 1);
    ConcatAssoc(sentCalls, [SendCall(fd, view, results[next])], rest.calls);
  }

  /** Every call of a send but the last accepted bytes, and the send failed
      exactly when its last call reported failure. */
  lemma {:induction false} SendPayloadFailsLast(fd: int, view: seq<char>, results: seq<int>, at: nat)
    requires Answers(|view|, results, at)
    ensures var o := SendPayload(fd, view, results, at);
      && (forall i :: at <= i < at + |o.calls| - 1 ==> results[i] >= 1)
      && (o.ok <==> o.calls == [] || results[at + |o.calls| - 1] >= 1)
    decreases |view|
  {
    if view != [] && results[at] >= 0 {
      SendPayloadStep(fd, view, results, at);
      SendPayloadFailsLast(fd, view[results[at]..], results, at + 1);
    }
  }

  /** A successful send writes exactly the payload; a failed one writes a
      proper prefix of it. */
  lemma {:induction false} SendPayloadDelivers(fd: int, view: seq<char>, results: seq<int>, at: nat)
    requires Answers(|view|, results, at)
    ensures var o := SendPayload(fd, view, results, at);
      && (o.ok ==> Delivered(o.calls) == view)
      && (!o.ok ==> |Delivered(o.calls)| < |view| && Delivered(o.calls) == view[..|Delivered(o.calls)|])
    decreases |view|
  {
    if view == [] {
    } else if results[at] < 0 {
      var c := SendCall(fd, view, results[at]);
      assert SendPayload(fd, view, results, at).calls == [c] + [];
      DeliveredCons(c, []);
    } else {
      var n := results[at];
      SendPayloadStep(fd, view, results, at);
      var rest := SendPayload(fd, view[n..], results, at + 1);
      SendPayloadDelivers(fd, view[n..], results, at + 1);
      var c := SendCall(fd, view, n);
      DeliveredCons(c, rest.calls);
      var d := Delivered(rest.calls);
      assert Accepted(c) == view[..n];
      if rest.ok {
        assert view == view[..n] + view[n..];
      } else {
        assert view[..n + |d|] == view[..n] + view[n..][..|d|];
      }
    }
  }

  /** Every send call starts at the first unsent byte: call i is a send on
      `fd` offered the payload after everything accepted by calls 0..i-1,
      and it reported answer at + i. */
  lemma {:induction false} SendPayloadResumes(fd: int, view: seq<char>, results: seq<int>, at: nat)
    requires Answers(|view|, results, at)
    ensures var o := SendPayload(fd, view, results, at);
      forall i :: 0 <= i < |o.calls| ==>
        |Delivered(o.calls[..i])| <= |view| &&
        o.calls[i] == SendCall(fd, view[|Delivered(o.calls[..i])|..], results[at + i])
    decreases |view|
  {
    var o := SendPayload(fd, view, results, at);
    if view != [] && results[at] < 0 {
      assert o.calls[..0] == [];
    } else if view != [] {
      var n := results[at];
      SendPayloadStep(fd, view, results, at);
      SendPayloadResumes(fd, view[n..], results, at + 1);
      var rest := SendPayload(fd, view[n..], results, at + 1);
      var c := SendCall(fd, view, n);
      forall i | 0 <= i < |o.calls|
        ensures |Delivered(o.calls[..i])| <= |view| &&
                o.calls[i] == SendCall(fd, view[|Delivered(o.calls[..i])|..], results[at + i])
      {
        if i == 0 {
          assert o.calls[..0] == [];
        } else {
          assert o.calls == [c] + rest.calls;
          ResumeShift(fd, view, results, at, rest.calls, i);
        }
      }
    }
  }

  /** Call i > 0 of a send whose first call accepted `results[at]` bytes is
      call i - 1 of the send of the rest, shifted by those bytes. */
  lemma ResumeShift(fd: int, view: seq<char>, results: seq<int>, at: nat, rest: seq<Syscall>, i: nat)
    requires at < |results| && 1 <= results[at] <= |view| && 1 <= i <= |rest| && at + i < |results|
    requires |Delivered(rest[..i - 1])| <= |view[results[at]..]|
    requires rest[i - 1] ==
      SendCall(fd, view[results[at]..][|Delivered(rest[..i - 1])|..], results[at + 1 + (i - 1)])
    ensures var calls := [SendCall(fd, view, results[at])] + rest;
      |Delivered(calls[..i])| <= |view| &&
      calls[i] == SendCall(fd, view[|Delivered(calls[..i])|..], results[at + i])
  {
    var n := results[at];
    var c := SendCall(fd, view, n);
    var calls := [c] + rest;
    assert calls[..i] == [c] + rest[..i - 1];
    DeliveredCons(c, rest[..i - 1]);
    assert Accepted(c) == view[..n];
    var d := Delivered(rest[..i - 1]);
    assert |Delivered(calls[..i])| == n + |d|;
    assert view[n..][|d|..] == view[n + |d|..];
  }

  /** The transport answers every send call the drain of `queue` makes:
      `answers[k]` holds the results of the send calls for entry k. */
  predicate DrainAnswered(queue: seq<seq<char>>, answers: seq<seq<int>>) {
    |answers| == |queue| &&
    forall k :: 0 <= k < |queue| ==> Answers(|queue[k]|, answers[k], 0)
  }

  datatype DrainOutcome = DrainOutcome(calls: seq<Syscall>, errors: seq<Event>)

  /** The report for one entry: nothing on success, one send failure
      carrying the whole entry otherwise. */
  function SendReport(ok: bool, payload: seq<char>): (r: seq<Event>)
    ensures |r| <= 1
    ensures ok <==> r == []
    ensures !ok ==> r[0].OnError? && r[0].error == SocketSendFailure && r[0].failedTxPayload == Some(payload)
  {
    if ok then [] else [OnError(SocketSendFailure, Some(payload))]
  }

  /** Draining `queue` front-first until it is empty: each entry is taken off
      and sent in turn, a failed entry is reported and dropped. */
  function Drain(fd: int, queue: seq<seq<char>>, answers: seq<seq<int>>): (o: DrainOutcome)
    requires DrainAnswered(queue, answers)
    ensures |o.errors| <= |queue|
    decreases |queue|
  {
    if queue == [] then DrainOutcome([], [])
    else
      var first := SendPayload(fd, queue[0], answers[0], 0);
      var rest := Drain(fd, queue[1..], answers[1..]);
      DrainOutcome(first.calls + rest.calls, SendReport(first.ok, queue[0]) + rest.errors)
  }

  /** Every report is a send failure carrying one of the payloads. */
  predicate SendFailuresFrom(errors: seq<Event>, queue: seq<seq<char>>) {
    forall k :: 0 <= k < |errors| ==>
      errors[k].OnError? && errors[k].error == SocketSendFailure &&
      errors[k].failedTxPayload.Some? && errors[k].failedTxPayload.value in queue
  }

  /** A drain reports only send failures, each carrying one of the queued
      payloads. */
  lemma {:induction false} DrainReportsSendFailures(fd: int, queue: seq<seq<char>>, answers: seq<seq<int>>)
    requires DrainAnswered(queue, answers)
    ensures SendFailuresFrom(Drain(fd, queue, answers).errors, queue)
    decreases |queue|
  {
    if queue != [] {
      var first := SendPayload(fd, queue[0], answers[0], 0);
      DrainReportsSendFailures(fd, queue[1..], answers[1..]);
      var rest := Drain(fd, queue[1..], answers[1..]);
      var report := SendReport(first.ok, queue[0]);
      var errors := Drain(fd, queue, answers).errors;
      assert errors == report + rest.errors;
      forall k | 0 <= k < |errors|
        ensures errors[k].OnError? && errors[k].error == SocketSendFailure &&
                errors[k].failedTxPayload.Some? && errors[k].failedTxPayload.value in queue
      {
        if k >= |report| {
          assert errors[k] == rest.errors[k - |report|];
          assert rest.errors[k - |report|].failedTxPayload.value in queue[1..];
        }
      }
    }
  }

  /** The drain loop's invariant. `calls0` and `events0` are the logs before
      the drain, `whole` the outcome of draining the queue as it was, and
      `callsAcc` and `eventsAcc` the logs so far: what is left of the queue,
      drained on the answers left, completes the logs to the whole drain. */
  predicate DrainProgress(fd: int, whole: DrainOutcome, calls0: seq<Syscall>, events0: seq<Event>,
                          queue: seq<seq<char>>, answers: seq<seq<int>>,
                          callsAcc: seq<Syscall>, eventsAcc: seq<Event>)
  {
    && DrainAnswered(queue, answers)
    && var rest := Drain(fd, queue, answers);
       && calls0 + whole.calls == callsAcc + rest.calls
       && events0 + whole.errors == eventsAcc + rest.errors
  }

  /** The drain loop starts with the whole queue and empty additions. */
  lemma DrainStarts(fd: int, calls0: seq<Syscall>, events0: seq<Event>,
                    queue: seq<seq<char>>, answers: seq<seq<int>>)
    requires DrainAnswered(queue, answers)
    ensures DrainProgress(fd, Drain(fd, queue, answers), calls0, events0, queue, answers, calls0, events0)
  {
  }

  /** One round of the drain loop keeps its invariant: the front entry is
      sent on its own answers and the rest of the queue is left to be
      drained on the rest of the answers. */
  lemma DrainRound(fd: int, whole: DrainOutcome, calls0: seq<Syscall>, events0: seq<Event>,
                   queue: seq<seq<char>>, answers: seq<seq<int>>,
                   callsAcc: seq<Syscall>, eventsAcc: seq<Event>)
    requires queue != []
    requires DrainProgress(fd, whole, calls0, events0, queue, answers, callsAcc, eventsAcc)
    ensures Answers(|queue[0]|, answers[0], 0)
    ensures var first := SendPayload(fd, queue[0], answers[0], 0);
      DrainProgress(fd, whole, calls0, events0, queue[1..], answers[1..],
                    callsAcc + first.calls, eventsAcc + SendReport(first.ok, queue[0]))
  {
    var first := SendPayload(fd, queue[0], answers[0], 0);
    var rest := Drain(fd, queue[1..], answers[1..]);
    ConcatAssoc(callsAcc, first.calls, rest.calls);
    ConcatAssoc(eventsAcc, SendReport(first.ok, queue[0]), rest.errors);
  }

  /** Once the queue is empty, the logs hold exactly what the whole drain
      added. */
  lemma DrainEnds(fd: int, whole: DrainOutcome, calls0: seq<Syscall>, events0: seq<Event>,
                  answers: seq<seq<int>>, callsAcc: seq<Syscall>, eventsAcc: seq<Event>)
    requires DrainProgress(fd, whole, calls0, events0, [], answers, callsAcc, eventsAcc)
    ensures callsAcc == calls0 + whole.calls
    ensures eventsAcc == events0 + whole.errors
  {
    assert callsAcc + [] == callsAcc && eventsAcc + [] == eventsAcc;
  }

  /** FIFO: draining q1 + q2 attempts every entry of q1 before any entry of
      q2: its calls and reports are q1's followed by q2's. */
  lemma {:induction false} DrainSplits(fd: int, q1: seq<seq<char>>, q2: seq<seq<char>>,
                                       a1: seq<seq<int>>, a2: seq<seq<int>>)
    requires DrainAnswered(q1, a1) && DrainAnswered(q2, a2)
    ensures DrainAnswered(q1 + q2, a1 + a2)
    ensures Drain(fd, q1 + q2, a1 + a2).calls == Drain(fd, q1, a1).calls + Drain(fd, q2, a2).calls
    ensures Drain(fd, q1 + q2, a1 + a2).errors == Drain(fd, q1, a1).errors + Drain(fd, q2, a2).errors
    decreases |q1|
  {
    var q, a := q1 + q2, a1 + a2;
    assert DrainAnswered(q, a) by {
      forall k | 0 <= k < |q| ensures Answers(|q[k]|, a[k], 0) {
        if k >= |q1| {
          assert q[k] == q2[k - |q1|] && a[k] == a2[k - |a1|];
        }
      }
    }
    if q1 == [] {
      assert q == q2 && a == a2;
    } else {
      assert q[1..] == q1[1..] + q2 && a[1..] == a1[1..] + a2;
      DrainSplits(fd, q1[1..], q2, a1[1..], a2);
      var first := SendPayload(fd, q1[0], a1[0], 0);
      var r1 := Drain(fd, q1[1..], a1[1..]);
      var o2 := Drain(fd, q2, a2);
      ConcatAssoc(first.calls, r1.calls, o2.calls);
      ConcatAssoc(SendReport(first.ok, q1[0]), r1.errors, o2.errors);
    }
  }

  lemma ConcatAssoc<T>(a: seq<T>, b: seq<T>, c: seq<T>)
    ensures a + (b + c) == (a + b) + c
  {
  }

  /** When no send fails, the transport receives exactly the concatenation
      of the queue in insertion order. */
  lemma {:induction false} DrainDeliversInOrder(fd: int, queue: seq<seq<char>>, answers: seq<seq<int>>)
    requires DrainAnswered(queue, answers)
    requires Drain(fd, queue, answers).errors == []
    ensures Delivered(Drain(fd, queue, answers).calls) == Concat(queue)
    decreases |queue|
  {
    if queue != [] {
      var first := SendPayload(fd, queue[0], answers[0], 0);
      assert first.ok;
      SendPayloadDelivers(fd, queue[0], answers[0], 0);
      DrainDeliversInOrder(fd, queue[1..], answers[1..]);
      DeliveredAppend(first.calls, Drain(fd, queue[1..], answers[1..]).calls);
    }
  }

  /** The payloads of a queue as one send-failure report each, in order. */
  function SendFailures(queue: seq<seq<char>>): (r: seq<Event>)
    ensures |r| == |queue|
    ensures forall k :: 0 <= k < |r| ==> r[k] == OnError(SocketSendFailure, Some(queue[k]))
  {
    if queue == [] then [] else [OnError(SocketSendFailure, Some(queue[0]))] + SendFailures(queue[1..])
  }

  /** Against a transport on which every send fails (no connection yet),
      draining a queue of non-empty payloads makes one send call per entry
      and reports each entry once, byte for byte, in order; nothing reaches
      the transport. */
  lemma {:induction false} DrainWithoutConnection(fd: int, queue: seq<seq<char>>, answers: seq<seq<int>>)
    requires forall k :: 0 <= k < |queue| ==> queue[k] != []
    requires |answers| == |queue|
    requires forall k :: 0 <= k < |answers| ==> answers[k] != [] && answers[k][0] < 0
    ensures DrainAnswered(queue, answers)
    ensures Drain(fd, queue, answers).errors == SendFailures(queue)
    ensures |Drain(fd, queue, answers).calls| == |queue|
    ensures Delivered(Drain(fd, queue, answers).calls) == []
    decreases |queue|
  {
    if queue != [] {
      DrainWithoutConnection(fd, queue[1..], answers[1..]);
      var first := SendPayload(fd, queue[0], answers[0], 0);
      assert |first.calls| == 1 && !first.ok;
      var rest := Drain(fd, queue[1..], answers[1..]);
      assert Delivered(first.calls) == [] by {
        assert first.calls[1..] == [];
      }
      DeliveredAppend(first.calls, rest.calls);
    }
  }
}
