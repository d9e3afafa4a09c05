/** Socket_API::receive: one framed message after another off a byte stream. */
module Framing {
  import opened Header

  /** A message as it travels: its code and its serialized content. */
  datatype Frame = Frame(code: int, archive: string)

  function Bytes(f: Frame): string {
    HeaderBytes(f.code, |f.archive|) + f.archive
  }

  function Stream(frames: seq<Frame>): string {
    if frames == [] then [] else Bytes(frames[0]) + Stream(frames[1..])
  }

  /** How one receive ends.  Only `Received` makes it return true. */
  datatype Receipt =
    | ShortHeader
    | BadHeader
    | NoRoom(code: int)
    | ShortContent(code: int)
    | Unexpected(code: int)
    | BadArchive(code: int)
    | Received(code: int, archive: string)

  predicate IsUnexpected(expected: int, code: int) {
    expected != MSG_UNDEFINED && code != expected && code != MSG_ERROR
  }

  /** What cannot be seen here: which archives deserialize, and for which lengths there is memory. */
  datatype Host = Host(readable: string -> bool, allocates: nat -> bool)

  /** What receive makes of a message that is there whole. */
  function Verdict(host: Host, expected: int, f: Frame): Receipt {
    if IsUnexpected(expected, f.code) then Unexpected(f.code)
    else if host.readable(f.archive) then Received(f.code, f.archive)
    else BadArchive(f.code)
  }

  /** One receive: its result and the bytes it leaves unread. */
  function ReceiveOne(host: Host, expected: int, stream: string): (Receipt, string) {
    if |stream| < HEADER_LENGTH then (ShortHeader, [])
    else
      var rest := stream[HEADER_LENGTH..];
      match Parse(stream[..HEADER_LENGTH])
      case NoCode => (BadHeader, rest)
      case NoLength => (BadHeader, rest)
      case Parsed(code, length) =>
        if !host.allocates(length) then (NoRoom(code), rest)
        else if |rest| < length then (ShortContent(code), [])
        else (Verdict(host, expected, Frame(code, rest[..length])), rest[length..])
  }

  function Verdicts(host: Host, expected: seq<int>, frames: seq<Frame>): seq<Receipt>
    requires |expected| == |frames|
  {
    if frames == [] then [] else [Verdict(host, expected[0], frames[0])] + Verdicts(host, expected[1..], frames[1..])
  }

  /** A receive for each expectation, each taking up where the last one stopped. */
  function ReceiveAll(host: Host, expected: seq<int>, stream: string): (seq<Receipt>, string) {
    if expected == [] then ([], stream)
    else
      var (first, rest) := ReceiveOne(host, expected[0], stream);
      var (others, end) := ReceiveAll(host, expected[1..], rest);
      ([first] + others, end)
  }

  lemma SplitAt(header: string, archive: string, tail: string)
    requires |header| == HEADER_LENGTH
    ensures var stream := header + archive + tail;
            && |stream| >= HEADER_LENGTH && stream[..HEADER_LENGTH] == header && stream[HEADER_LENGTH..] == archive + tail
    ensures (archive + tail)[..|archive|] == archive && (archive + tail)[|archive|..] == tail
  {
  }

  /** One frame.  A receive stops at its boundary and sees the code and content that were sent, whether or
      not it was the message waited for, exactly when the header can carry the length. */
  lemma FrameReceived(host: Host, expected: int, f: Frame, tail: string)
    requires f.code in MESSAGE_TYPES
    ensures Carries(|f.archive|) && host.allocates(|f.archive|) ==>
              ReceiveOne(host, expected, Bytes(f) + tail) == (Verdict(host, expected, f), tail)
    ensures host.readable(f.archive) && ReceiveOne(host, MSG_UNDEFINED, Bytes(f) + tail) == (Received(f.code, f.archive), tail)
            ==> Carries(|f.archive|) && host.allocates(|f.archive|)
  {
    SplitAt(HeaderBytes(f.code, |f.archive|), f.archive, tail);
    HeaderRoundTrip(f.code, |f.archive|);
  }

  /** Which whole messages a receive accepts: the readable ones, if any message will do, or if it is the one
      waited for or an error.  It refuses a message for its type exactly when none of these holds, and it
      stops at the boundary either way. */
  lemma AcceptedExactly(host: Host, expected: int, f: Frame, tail: string)
    requires f.code in MESSAGE_TYPES && Carries(|f.archive|) && host.allocates(|f.archive|)
    ensures var (r, rest) := ReceiveOne(host, expected, Bytes(f) + tail);
            && rest == tail
            && (r == Received(f.code, f.archive) <==>
                  host.readable(f.archive) && (expected == MSG_UNDEFINED || f.code == expected || f.code == MSG_ERROR))
            && (r == Unexpected(f.code) <==>
                  expected != MSG_UNDEFINED && f.code != expected && f.code != MSG_ERROR)
            && r in {Received(f.code, f.archive), Unexpected(f.code), BadArchive(f.code)}
  {
    FrameReceived(host, expected, f, tail);
  }

  /** Without memory for the content the receive stops right behind the header, and so it does behind twelve
      bytes that are no header. */
  lemma StopsBehindHeader(host: Host, expected: int, f: Frame, header: string, tail: string)
    requires f.code in MESSAGE_TYPES && |header| == 12
    ensures Carries(|f.archive|) && !host.allocates(|f.archive|) ==>
              ReceiveOne(host, expected, Bytes(f) + tail) == (NoRoom(f.code), f.archive + tail)
    ensures !Parse(header).Parsed? ==> ReceiveOne(host, expected, header + tail) == (BadHeader, tail)
  {
    SplitAt(HeaderBytes(f.code, |f.archive|), f.archive, tail);
    HeaderRoundTrip(f.code, |f.archive|);
    assert (header + tail)[..12] == header && (header + tail)[12..] == tail;
  }

  lemma TakeFrame(header: string, archive: string, n: nat)
    requires |header| == HEADER_LENGTH && n <= |header + archive|
    ensures n >= HEADER_LENGTH ==>
              (header + archive)[..n][..HEADER_LENGTH] == header && |(header + archive)[..n][HEADER_LENGTH..]| == n - HEADER_LENGTH
  {
  }

  /** A message cut off by the end of the stream is never accepted, and what there is of it is used up. */
  lemma CutFrame(host: Host, expected: int, f: Frame, n: nat)
    requires f.code in MESSAGE_TYPES && Carries(|f.archive|) && host.allocates(|f.archive|) && n < |Bytes(f)|
    ensures ReceiveOne(host, expected, Bytes(f)[..n]) == (if n < 12 then ShortHeader else ShortContent(f.code), [])
  {
    HeaderRoundTrip(f.code, |f.archive|);
    TakeFrame(HeaderBytes(f.code, |f.archive|), f.archive, n);
  }

  lemma StreamHead(frames: seq<Frame>, tail: string)
    requires frames != []
    ensures Stream(frames) + tail == Bytes(frames[0]) + (Stream(frames[1..]) + tail)
  {
  }

  /** Any list of messages comes back off the stream, frame by frame: a call that refuses an unexpected type
      or an unreadable archive leaves the stream at the next frame like one that accepts. */
  lemma {:induction false} StreamReceived(host: Host, expected: seq<int>, frames: seq<Frame>, tail: string)
    requires |expected| == |frames|
    requires forall f :: f in frames ==> f.code in MESSAGE_TYPES && Carries(|f.archive|) && host.allocates(|f.archive|)
    ensures ReceiveAll(host, expected, Stream(frames) + tail) == (Verdicts(host, expected, frames), tail)
  {
    if frames == [] {
      assert Stream(frames) + tail == tail;
    } else {
      StreamHead(frames, tail);
      FrameReceived(host, expected[0], frames[0], Stream(frames[1..]) + tail);
      StreamReceived(host, expected[1..], frames[1..], tail);
    }
  }

  /** The receiving half of Socket_API; `stream` is what the peer sends until it closes. */
  class Socket_API {
    var message: Message
    var stream: string

    constructor (stream: string)
      ensures this.stream == stream && fresh(message)
    {
      message := new Message();
      this.stream := stream;
    }

    /** boost::asio::read: fills the buffer, or takes what there is and fails. */
    method ReadInto(buffer: array<char>) returns (ok: bool)
      modifies this`stream, buffer
      ensures ok <==> |old(stream)| >= buffer.Length
      ensures ok ==> buffer[..] == old(stream)[..buffer.Length] && stream == old(stream)[buffer.Length..]
      ensures !ok ==> stream == []
    {
      if |stream| < buffer.Length {
        forall i | 0 <= i < |stream| { buffer[i] := stream[i]; }
        stream := [];
        return false;
      }
      forall i | 0 <= i < buffer.Length { buffer[i] := stream[i]; }
      stream := stream[buffer.Length..];
      ok := true;
    }

    method Receive(host: Host, expectedMessage: int) returns (ok: bool)
      modifies this
      ensures ok == ReceiveOne(host, expectedMessage, old(stream)).0.Received?
      ensures stream == ReceiveOne(host, expectedMessage, old(stream)).1
      ensures match ReceiveOne(host, expectedMessage, old(stream)).0
              case ShortHeader => message.code == MSG_ERROR
              case BadHeader => message.code == MSG_ERROR
              case NoRoom(code) => message.code == code
              case ShortContent(code) => message.code == code
              case Unexpected(code) => message.code == code
              case BadArchive(code) => message.code == code
              case Received(code, archive) => message.code == code && message.contentBuffer[..] == archive
      ensures fresh(message)
    {
      var status := true;
      message := new Message();
      ok := ReadInto(message.headerBuffer);
      if !ok { return; }
      ok := message.BuildHeader(host.allocates);
      if !ok { return; }
      if expectedMessage != MSG_UNDEFINED && message.code != expectedMessage && message.code != MSG_ERROR {
        status := false;
      }
      ok := ReadInto(message.contentBuffer);
      if !ok || !status { return false; }
      ok := host.readable(message.contentBuffer[..]);
    }
  }
}
