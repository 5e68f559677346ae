/** How the TCP reader cuts the byte stream into messages by their length fields. */
module Stream {
  import opened Bytes
  import opened Wire
  import opened Parse

  /** Why reading stops: the stream ends before the length field of a message is there, which the reader takes for
      the end between messages; it ends after that inside a message; or a zero length field makes the loop read
      nothing for ever. */
  datatype Ending = Closed | Truncated | Spinning

  datatype Cut = Cut(messages: seq<seq<byte>>, ending: Ending)

  /** The messages that the read loop cuts from a stream that ends. */
  function Frames(stream: seq<byte>): Cut
    decreases |stream|
  {
    if |stream| < 4 then Cut([], Closed)
    else
      var n := U16At(stream, 2);
      if n == 0 then Cut([], Spinning)
      else if |stream| < n then Cut([], Truncated)
      else
        var rest := Frames(stream[n..]);
        Cut([stream[..n]] + rest.messages, rest.ending)
  }

  /** A byte sequence whose length field is its own length. */
  predicate Framed(m: seq<byte>) {
    |m| >= 4 && U16At(m, 2) == |m|
  }

  /** Reading a stream that starts with framed messages gives those messages first, and goes on after them. */
  lemma {:induction false} FramesOfMessages(ms: seq<seq<byte>>, tail: seq<byte>)
    requires forall i :: 0 <= i < |ms| ==> Framed(ms[i])
    ensures Frames(Concat(ms) + tail) == Cut(ms + Frames(tail).messages, Frames(tail).ending)
  {
    hide FromBigEndian;
    if ms == [] {
      assert Concat(ms) + tail == tail && ms + Frames(tail).messages == Frames(tail).messages;
    } else {
      var m, rest := ms[0], Concat(ms[1..]) + tail;
      FramesOfMessages(ms[1..], tail);
      Associates(m, Concat(ms[1..]), tail);
      var s := m + rest;
      assert s[2..4] == m[2..4] && s[..|m|] == m && s[|m|..] == rest;
      Associates([m], ms[1..], Frames(tail).messages);
      assert [m] + ms[1..] == ms;
    }
  }

  /** Any concatenation of built messages is cut back into exactly those messages. */
  lemma SplitsBack(ms: seq<seq<byte>>)
    requires forall i :: 0 <= i < |ms| ==> Framed(ms[i])
    ensures Frames(Concat(ms)) == Cut(ms, Closed)
  {
    FramesOfMessages(ms, []);
    assert Concat(ms) + [] == Concat(ms) && ms + [] == ms;
  }

  lemma BuiltIsFramed(s: SetValue, domain: u32, seqNumber: u32, time: u32)
    requires AllPrintable(s.setType, s.records)
    ensures CreateMessage(s, domain, seqNumber, time).Ok? ==> Framed(CreateMessage(s, domain, seqNumber, time).value)
  {
    hide CreateMessage;
    MessageFilled(s, domain, seqNumber, time);
  }

  /** The read loop of `handleTCPClient`: peek at the length, read that much, hand it on. */
  method ReadMessages(stream: seq<byte>) returns (messages: seq<seq<byte>>, ending: Ending)
    ensures Cut(messages, ending) == Frames(stream)
  {
    var at := 0;
    messages := [];
    while true
      invariant at <= |stream|
      invariant Frames(stream) == Cut(messages + Frames(stream[at..]).messages, Frames(stream[at..]).ending)
      decreases |stream| - at
    {
      if |stream| - at < 4 {
        return messages, Closed;
      }
      var length := U16At(stream, at + 2);
      assert stream[at..][2..4] == stream[at + 2..at + 4];
      if length == 0 {
        return messages, Spinning;
      }
      if |stream| - at < length {
        return messages, Truncated;
      }
      messages := messages + [stream[at..at + length]];
      assert stream[at..][..length] == stream[at..at + length] && stream[at..][length..] == stream[at + length..];
      at := at + length;
    }
  }
}
