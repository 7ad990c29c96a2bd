/** The chunk the receive loop hands to the receive callback after a
    successful read into its fixed-size, zero-initialised buffer. */
module Receive {
  import opened ClientTypes

  /** The receive buffer after a read that returned `received`: the bytes
      read, then the zeros the buffer was created with. */
  function ReadIntoBuffer(received: seq<char>): (buffer: seq<char>)
    requires |received| <= RX_BUFFER_SIZE
    ensures |buffer| == RX_BUFFER_SIZE
    ensures buffer[..|received|] == received
    ensures forall i :: |received| <= i < RX_BUFFER_SIZE ==> buffer[i] == '\0'
  {
    received + seq(RX_BUFFER_SIZE - |received|, _ => '\0')
  }

  /** As written, the callback is handed a view of the whole buffer,
      whatever the read returned. */
  function RxChunkAsWritten(received: seq<char>): (chunk: seq<char>)
    requires |received| <= RX_BUFFER_SIZE
    ensures |chunk| == RX_BUFFER_SIZE
    ensures chunk[..|received|] == received
    ensures forall i :: |received| <= i < RX_BUFFER_SIZE ==> chunk[i] == '\0'
  {
    ReadIntoBuffer(received)
  }

  /** A five-byte read is delivered as 1024 bytes: the five bytes and 1019
      zeros, so the callback cannot tell what was received. */
  lemma ShortReadIsPadded()
    ensures |RxChunkAsWritten("hello")| == RX_BUFFER_SIZE
    ensures RxChunkAsWritten("hello") != "hello"
    ensures RxChunkAsWritten("hello")[5] == '\0'
  {
    assert |"hello"| == 5;
  }

  /** Corrected: the callback is handed the first `read_bytes` bytes of the
      buffer, which are exactly the bytes received. */
  function RxChunk(received: seq<char>): (chunk: seq<char>)
    requires |received| <= RX_BUFFER_SIZE
    ensures chunk == received
  {
    ReadIntoBuffer(received)[..|received|]
  }

  predicate AllFit(arrivals: seq<seq<char>>) {
    forall k :: 0 <= k < |arrivals| ==> |arrivals[k]| <= RX_BUFFER_SIZE
  }

  /** The chunks delivered for a run of reads, in order. */
  function Chunks(arrivals: seq<seq<char>>, asWritten: bool): (chunks: seq<seq<char>>)
    requires AllFit(arrivals)
    ensures |chunks| == |arrivals|
  {
    if arrivals == [] then []
    else [if asWritten then RxChunkAsWritten(arrivals[0]) else RxChunk(arrivals[0])] + Chunks(arrivals[1..], asWritten)
  }

  /** With the correction, a byte stream that arrives over several reads is
      reassembled exactly by concatenating the delivered chunks. This
      follows from the corrected chunk being the identity on the bytes read
      (`RxChunk`), applied read by read; it is the counterpart of
      `ChunksAsWrittenDoNotReassemble`. */
  lemma {:induction false} ChunksReassemble(arrivals: seq<seq<char>>)
    requires AllFit(arrivals)
    ensures Concat(Chunks(arrivals, false)) == Concat(arrivals)
    decreases |arrivals|
  {
    if arrivals != [] {
      ChunksReassemble(arrivals[1..]);
      var c := Chunks(arrivals, false);
      assert c[0] == arrivals[0] && c[1..] == Chunks(arrivals[1..], false);
    }
  }

  /** As written, two reads of two bytes each reach the callback as 2048
      bytes instead of the four that were sent. */
  lemma ChunksAsWrittenDoNotReassemble()
    ensures AllFit(["ab", "cd"])
    ensures |Concat(Chunks(["ab", "cd"], true))| == 2 * RX_BUFFER_SIZE
    ensures Concat(Chunks(["ab", "cd"], true)) != Concat(["ab", "cd"])
  {
    var arrivals := ["ab", "cd"];
    assert AllFit(arrivals) by {
      assert |arrivals[0]| == 2 && |arrivals[1]| == 2;
    }
    var c := Chunks(arrivals, true);
    assert arrivals[1..] == ["cd"] && arrivals[1..][1..] == [];
    assert c == [RxChunkAsWritten("ab"), RxChunkAsWritten("cd")];
    assert c[1..] == [RxChunkAsWritten("cd")] && c[1..][1..] == [];
    assert Concat(c[1..]) == RxChunkAsWritten("cd") + Concat([]);
    assert Concat(c) == RxChunkAsWritten("ab") + Concat(c[1..]);
    assert |Concat(arrivals)| == 4 by {
      assert Concat(arrivals) == "ab" + Concat(["cd"]);
      assert Concat(["cd"]) == "cd" + Concat([]);
    }
  }
}
