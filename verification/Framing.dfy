/** Length-prefixed messages over a byte stream that may hand out its bytes in any pieces. */
module Framing {
  import opened Prelude
  import opened Wire

  /** What `send_message` puts on the wire; None where the length does not fit its four bytes. */
  function Frame(body: Bytes): Option<Bytes> {
    if |body| < 0x1_0000_0000 then Some(ToBytes(|body|, 4) + body) else None
  }

  /** A message of fewer than 2^32 bytes follows its length in four bytes, the most significant one first. */
  lemma {:induction false} FrameTells(body: Bytes)
    ensures Frame(body).Some? <==> |body| <= 4_294_967_295
    ensures Frame(body).Some? ==>
              var f := Frame(body).value;
              && |f| == 4 + |body| && f[4..] == body
              && |body| == 16777216 * (f[0] as int) + 65536 * (f[1] as int) + 256 * (f[2] as int) + f[3] as int
  {
    if Frame(body).Some? {
      var n, f := |body|, Frame(body).value;
      var header := ToBytes(n, 4);
      BytesOfFour(n, header);
      assert f[0] == header[0] && f[1] == header[1] && f[2] == header[2] && f[3] == header[3];
    }
  }

  lemma {:induction false} BytesOfFour(n: nat, b: Bytes)
    requires n < 0x1_0000_0000 && b == ToBytes(n, 4)
    ensures |b| == 4 && n == 16777216 * (b[0] as int) + 65536 * (b[1] as int) + 256 * (b[2] as int) + b[3] as int
  {
    BigEndianOfToBytes(n, 4);
    assert BigEndian(b) == 256 * BigEndian(b[..3]) + b[3];
    assert b[..3][..2] == b[..2] && b[..2][..1] == b[..1] && b[..1][..0] == [];
    assert BigEndian(b[..3]) == 256 * BigEndian(b[..2]) + b[2];
    assert BigEndian(b[..2]) == 256 * BigEndian(b[..1]) + b[1];
    assert BigEndian(b[..1]) == b[0];
  }

  predicate Sendable(messages: seq<Bytes>) {
    messages == [] || (Frame(messages[0]).Some? && Sendable(messages[1..]))
  }

  function Frames(messages: seq<Bytes>): Bytes
    requires Sendable(messages)
  {
    if messages == [] then [] else Frame(messages[0]).value + Frames(messages[1..])
  }

  function Announced(stream: Bytes): nat
    requires |stream| >= 4
  {
    BigEndian(stream[..4])
  }

  /** A whole frame stands at the front of the stream. */
  predicate Complete(stream: Bytes) { |stream| >= 4 && |stream| >= 4 + Announced(stream) }

  /** The messages of a stream up to the first frame that is not there in full. */
  function ReadAll(stream: Bytes): seq<Bytes>
    decreases |stream|
  {
    if !Complete(stream) then []
    else [stream[4..4 + Announced(stream)]] + ReadAll(stream[4 + Announced(stream)..])
  }

  /** One end of a connection: the bytes that are still to be read before the peer closes. */
  class Connection {
    var pending: Bytes

    constructor (stream: Bytes)
      ensures pending == stream
    {
      pending := stream;
    }

    /** `sendall` of one message from the other end; nothing is sent if the length does not fit. */
    method SendMessage(body: Bytes) returns (sent: bool)
      modifies this
      ensures sent <==> Frame(body).Some?
      ensures pending == if sent then old(pending) + Frame(body).value else old(pending)
    {
      sent := |body| < 0x1_0000_0000;
      if sent {
        pending := pending + (ToBytes(|body|, 4) + body);
      }
    }

    /** `recv`: some of the bytes that come next, at least one; nothing once the peer has closed. */
    method Recv(limit: nat) returns (chunk: Bytes)
      requires limit > 0
      modifies this
      ensures chunk + pending == old(pending) && |chunk| <= limit
      ensures chunk == [] <==> old(pending) == []
    {
      if pending == [] {
        return [];
      }
      assert 1 <= limit && 1 <= |pending|;
      var n: nat :| 1 <= n <= limit && n <= |pending|;
      chunk, pending := pending[..n], pending[n..];
    }

    /** `wait_for_readable`: false when the reader is told to stop or the socket fails. */
    method WaitForReadable(mayStop: bool) returns (ok: bool)
      ensures !mayStop ==> ok
    {
      ok := true;
      if * {
        ok := !mayStop;
      }
    }

    /** Reads until `wanted` bytes are there, in pieces of at most `piece`; None when told to stop or closed. */
    method ReadExactly(wanted: nat, piece: nat, mayStop: bool) returns (data: Option<Bytes>, ghost taken: nat)
      requires piece > 0
      modifies this
      ensures taken <= |old(pending)| && pending == old(pending)[taken..]
      ensures data.Some? ==> taken == wanted && data.value == old(pending)[..wanted]
      ensures data.None? ==> taken < wanted
      ensures !mayStop ==> (data.Some? <==> |old(pending)| >= wanted)
    {
      var got: Bytes := [];
      while |got| < wanted
        invariant |got| <= wanted && got + pending == old(pending)
        decreases wanted - |got|
      {
        taken := |got|;
        var ok := WaitForReadable(mayStop);
        if !ok {
          return None, taken;
        }
        var chunk := Recv(Min(piece, wanted - |got|));
        if chunk == [] {
          return None, taken;
        }
        got := got + chunk;
      }
      taken := wanted;
      data := Some(got);
    }

    /**
     * `receive_message`. A message is exactly what the first frame carries and leaves the stream at the frame's
     * end, however the bytes arrive; otherwise less than a frame was taken. Without a stop, None means that no
     * whole frame is left.
     */
    method ReceiveMessage(mayStop: bool) returns (body: Option<Bytes>, ghost taken: nat)
      modifies this
      ensures taken <= |old(pending)| && pending == old(pending)[taken..]
      ensures body.Some? ==> Complete(old(pending)) && taken == 4 + Announced(old(pending))
                             && body.value == old(pending)[4..taken]
      ensures body.None? && Complete(old(pending)) ==> taken < 4 + Announced(old(pending))
      ensures !mayStop ==> (body.Some? <==> Complete(old(pending)))
    {
      var header;
      header, taken := ReadExactly(4, 4, mayStop);
      if header.None? {
        return None, taken;
      }
      var total := BigEndian(header.value);
      ghost var rest := pending;
      ghost var more;
      body, more := ReadExactly(total, 65536, mayStop);
      assert rest == old(pending)[4..];
      assert rest[more..] == old(pending)[4 + more..];
      taken := 4 + more;
    }

    /** The receive loop of the client: messages until there is none. */
    method Listen() returns (messages: seq<Bytes>)
      modifies this
      ensures messages == ReadAll(old(pending))
    {
      messages := [];
      while true
        invariant ReadAll(old(pending)) == messages + ReadAll(pending)
        decreases |pending|
      {
        ghost var stream := pending;
        var body, taken := ReceiveMessage(false);
        if body.None? {
          assert ReadAll(stream) == [];
          return;
        }
        ReadOne(stream, body.value, pending);
        ghost var rest := ReadAll(pending);
        assert messages + ([body.value] + rest) == (messages + [body.value]) + rest;
        messages := messages + [body.value];
      }
    }
  }

  lemma {:induction false} FrameFits(body: Bytes)
    requires |body| < 0x1_0000_0000
    ensures BigEndian(ToBytes(|body|, 4)) == |body|
  {
    assert Power256(4) == 0x1_0000_0000;
    BigEndianOfToBytes(|body|, 4);
  }

  /** A sent frame is complete and carries its message, whatever follows it. */
  lemma {:induction false} FrameReadsBack(body: Bytes, rest: Bytes)
    requires Frame(body).Some?
    ensures var stream := Frame(body).value + rest;
            Complete(stream) && 4 + Announced(stream) == |Frame(body).value| && stream[4..4 + Announced(stream)] == body
  {
    var stream := Frame(body).value + rest;
    assert stream[..4] == ToBytes(|body|, 4);
    FrameFits(body);
    assert stream[4..4 + |body|] == body;
  }

  lemma {:induction false} ReadOne(stream: Bytes, body: Bytes, rest: Bytes)
    requires Complete(stream) && stream[4..4 + Announced(stream)] == body && stream[4 + Announced(stream)..] == rest
    ensures ReadAll(stream) == [body] + ReadAll(rest)
  {
  }

  lemma {:induction false} FrameThenRest(body: Bytes, rest: Bytes)
    requires Frame(body).Some?
    ensures ReadAll(Frame(body).value + rest) == [body] + ReadAll(rest)
  {
    var stream := Frame(body).value + rest;
    FrameReadsBack(body, rest);
    assert stream[|Frame(body).value|..] == rest;
    ReadOne(stream, body, rest);
  }

  /** Reading the frames of any messages yields these messages, then what follows them. */
  lemma {:induction false} FramesReadBack(messages: seq<Bytes>, rest: Bytes)
    requires Sendable(messages)
    ensures ReadAll(Frames(messages) + rest) == messages + ReadAll(rest)
    decreases |messages|
  {
    if messages == [] {
      assert Frames(messages) + rest == rest;
    } else {
      Associates(Frame(messages[0]).value, Frames(messages[1..]), rest);
      FrameThenRest(messages[0], Frames(messages[1..]) + rest);
      FramesReadBack(messages[1..], rest);
    }
  }

  lemma {:induction false} FramesAppend(a: seq<Bytes>, b: seq<Bytes>)
    requires Sendable(a) && Sendable(b)
    ensures Sendable(a + b) && Frames(a + b) == Frames(a) + Frames(b)
    decreases |a|
  {
    if a == [] {
      assert a + b == b;
    } else {
      assert (a + b)[0] == a[0] && (a + b)[1..] == a[1..] + b;
      FramesAppend(a[1..], b);
      Associates(Frame(a[0]).value, Frames(a[1..]), Frames(b));
    }
  }

  /** Reading always starts on a frame boundary: after any messages, whatever was sent next is read. */
  lemma {:induction false} BoundariesAreKept(sent: seq<Bytes>, next: seq<Bytes>, rest: Bytes)
    requires Sendable(sent) && Sendable(next)
    ensures Sendable(sent + next) && ReadAll(Frames(sent + next) + rest) == sent + (next + ReadAll(rest))
    ensures Frames(sent + next) + rest == Frames(sent) + (Frames(next) + rest)
  {
    FramesAppend(sent, next);
    Associates(Frames(sent), Frames(next), rest);
    FramesReadBack(sent, Frames(next) + rest);
    FramesReadBack(next, rest);
  }

  function FramedSize(messages: seq<Bytes>): nat {
    if messages == [] then 0 else 4 + |messages[0]| + FramedSize(messages[1..])
  }

  lemma {:induction false} FramesHaveTheirSize(messages: seq<Bytes>)
    requires Sendable(messages)
    ensures |Frames(messages)| == FramedSize(messages)
    decreases |messages|
  {
    if messages != [] {
      FramesHaveTheirSize(messages[1..]);
    }
  }

  /** What is read takes at least its own frames. */
  lemma {:induction false} ReadingTakesSpace(stream: Bytes)
    ensures FramedSize(ReadAll(stream)) <= |stream|
    decreases |stream|
  {
    if Complete(stream) {
      ReadingTakesSpace(stream[4 + Announced(stream)..]);
    }
  }

  /** A reader that lost some bytes, as one that was stopped inside a frame and reads again, reads the messages exactly if it lost none. */
  lemma {:induction false} LostBytesChangeTheMessages(messages: seq<Bytes>, taken: nat)
    requires Sendable(messages) && taken <= |Frames(messages)|
    ensures ReadAll(Frames(messages)[taken..]) == messages <==> taken == 0
  {
    FramesHaveTheirSize(messages);
    ReadingTakesSpace(Frames(messages)[taken..]);
    if taken == 0 {
      FramesReadBack(messages, []);
      assert Frames(messages) + [] == Frames(messages) == Frames(messages)[0..];
      assert messages + ReadAll([]) == messages;
    }
  }

  /** For example, the header of a message of four zero bytes was taken: what comes next is an empty message nobody sent. */
  lemma {:induction false} StoppingMidFrameMisreads()
    ensures Frame([0, 0, 0, 0]).Some?
    ensures ReadAll(Frame([0, 0, 0, 0]).value) == [[0, 0, 0, 0]]
    ensures ReadAll(Frame([0, 0, 0, 0]).value[4..]) == [[]]
  {
    var body: Bytes := [0, 0, 0, 0];
    var frame := Frame(body).value;
    assert Frames([body]) == frame && frame + [] == frame by {
      assert [body][1..] == [];
    }
    FramesReadBack([body], []);
    assert frame[4..] == body;
    FrameReadsBackEmpty();
  }

  lemma {:induction false} FrameReadsBackEmpty()
    ensures ReadAll([0, 0, 0, 0]) == [[]]
  {
    var none: Bytes := [];
    assert ToBytes(0, 4) == [0, 0, 0, 0];
    assert Frame(none).value == [0, 0, 0, 0];
    FrameReadsBack(none, []);
    var stream: Bytes := [0, 0, 0, 0];
    assert Frame(none).value + [] == stream;
    assert stream[4..] == [];
  }
}
