/** The one socket of a session: RTP packets and RTSP answers, each written whole, in any order. */
module Socket {
  import opened Common
  import opened Text
  import opened Decimal
  import opened Framing
  import opened Interleaved
  import opened Pipeline
  import opened Delivery
  import opened Streaming
  import opened Rtsp
  import opened RequestText

  /** One write to the socket. */
  datatype Written = Rtp(bytes: seq<byte>) | Answer(text: string)

  function Chars(bytes: seq<byte>): string
  {
    seq(|bytes|, i requires 0 <= i < |bytes| => bytes[i] as char)
  }

  function Codes(text: string): seq<byte>
  {
    seq(|text|, i requires 0 <= i < |text| => text[i] as int % 256)
  }

  function OnSocket(w: Written): string
  {
    match w
    case Rtp(bytes) => Chars(bytes)
    case Answer(text) => text
  }

  /** A message without a body: it ends at its first empty line, and does not look like a packet. */
  predicate IsMessage(text: string)
  {
    EndsOnce(text, CRLF2) && text[0] != '$'
  }

  predicate ValidWrite(w: Written)
  {
    match w
    case Rtp(bytes) => ValidUnit(bytes)
    case Answer(text) => IsMessage(text)
  }

  /** What a client does: a `$` starts a packet, anything else a message. */
  function ReadSocket(stream: string): Option<seq<Written>>
    decreases |stream|
  {
    if stream == "" then Some([])
    else
      var n := NextWrite(stream);
      if n == 0 then None
      else
        match ReadSocket(stream[n..])
        case None => None
        case Some(rest) => Some([if stream[0] == '$' then Rtp(Codes(stream[..n])) else Answer(stream[..n])] + rest)
  }

  /** Where the first packet or message ends; 0 when it is not complete. */
  function NextWrite(stream: string): (n: nat)
    requires stream != ""
    ensures n <= |stream|
  {
    if stream[0] != '$' then RequestEnd(stream, CRLF2)
    else if |stream| < HEAD_LENGTH then 0
    else
      var n := HEAD_LENGTH + U16(stream[2] as int % 256, stream[3] as int % 256);
      if |stream| < n then 0 else n
  }

  lemma FirstPacket(bytes: seq<byte>, rest: string)
    requires ValidUnit(bytes)
    ensures var s := Chars(bytes) + rest;
      && NextWrite(s) == |bytes| && s[0] == '$'
      && Codes(s[..|bytes|]) == bytes && s[|bytes|..] == rest
  {
    var s := Chars(bytes) + rest;
    assert s[..|bytes|] == Chars(bytes);
    assert s[0] == bytes[0] as char && s[2] == bytes[2] as char && s[3] == bytes[3] as char;
  }

  lemma FirstAnswer(text: string, rest: string)
    requires IsMessage(text)
    ensures var s := text + rest;
      && NextWrite(s) == |text| && s[0] != '$' && s[..|text|] == text && s[|text|..] == rest
  {
    RequestEndInLonger(text, CRLF2, rest);
    assert (text + rest)[0] == text[0];
  }

  lemma ReadFirst(w: Written, rest: string, others: seq<Written>)
    requires ValidWrite(w) && ReadSocket(rest) == Some(others)
    ensures ReadSocket(OnSocket(w) + rest) == Some([w] + others)
  {
    match w
    case Rtp(bytes) => FirstPacket(bytes, rest);
    case Answer(text) => FirstAnswer(text, rest);
  }

  function SocketText(writes: seq<Written>): string
  {
    if writes == [] then "" else OnSocket(writes[0]) + SocketText(writes[1..])
  }

  /** A client recovers every write, packets and answers alike, in order. */
  lemma {:induction false} SocketIsReadBack(writes: seq<Written>)
    requires forall i :: 0 <= i < |writes| ==> ValidWrite(writes[i])
    ensures ReadSocket(SocketText(writes)) == Some(writes)
  {
    if writes != [] {
      SocketIsReadBack(writes[1..]);
      ReadFirst(writes[0], SocketText(writes[1..]), writes[1..]);
      HeadAndTail([writes[0]] + writes[1..], writes[1..], writes);
    }
  }

  function PacketsOf(writes: seq<Written>): seq<seq<byte>>
  {
    if writes == [] then []
    else
      var n := |writes| - 1;
      PacketsOf(writes[..n]) + if writes[n].Rtp? then [writes[n].bytes] else []
  }

  lemma {:induction false} PacketIn(writes: seq<Written>, i: nat)
    requires i < |writes| && writes[i].Rtp?
    ensures writes[i].bytes in PacketsOf(writes)
  {
    if i < |writes| - 1 { PacketIn(writes[..|writes| - 1], i); }
  }

  /**
   * In every reachable state, with the packets sent so far and any answers written
   * in between: the client reads back every packet and every answer.
   */
  lemma MixedStreamIsReadBack(s: State, writes: seq<Written>)
    requires Reachable(s) && forall x :: x in s.samples ==> UnitSample(x)
    requires AllInBounds(s.sentLog) && PacketsOf(writes) == PayloadList(s.sentLog)
    requires forall i :: 0 <= i < |writes| && writes[i].Answer? ==> IsMessage(writes[i].text)
    ensures ReadSocket(SocketText(writes)) == Some(writes)
  {
    SentUnits(s);
    forall i | 0 <= i < |writes| && writes[i].Rtp? ensures ValidWrite(writes[i]) {
      PacketIn(writes, i);
    }
    SocketIsReadBack(writes);
  }

  // ------------------------------------------------- the server's own answers

  lemma FourLinesAreMessage(a: string, b: string, c: string, d: string)
    requires IsLine(a) && IsLine(b) && IsLine(c) && IsLine(d) && a[0] != '$'
    ensures IsMessage(FourLines(a, b, c, d))
  {
    LastLine(d);
    OneMoreLine(c, d + CRLF2);
    OneMoreLine(b, c + CRLF + (d + CRLF2));
    OneMoreLine(a, b + CRLF + (c + CRLF + (d + CRLF2)));
  }

  lemma StatusIsLine(code: int, status: string)
    requires forall i :: 0 <= i < |status| ==> status[i] != '\r' && status[i] != '\n'
    ensures IsLine(StatusLine(code, status)) && StatusLine(code, status)[0] == 'R'
  {
    IntIsPlain(code);
  }

  lemma CSeqIsLine(cSeq: int)
    ensures IsLine(CSeqLine(cSeq))
  {
    IntIsPlain(cSeq);
  }

  lemma NameIsLine()
    ensures IsLine("Server: " + MY_NAME) && IsLine("Error:" + (" " + MY_NAME))
  {
  }

  lemma StatusTextIsPlain(code: int)
    ensures var status := StatusText(code);
      forall i :: 0 <= i < |status| ==> status[i] != '\r' && status[i] != '\n'
  {
  }

  /** Refusals are such messages, so they never confuse the client's reading; so are teardown answers. */
  lemma RefusalIsMessage(code: int, cSeq: int)
    ensures IsMessage(ErrorText(code, cSeq))
  {
    StatusTextIsPlain(code);
    StatusIsLine(code, StatusText(code));
    CSeqIsLine(cSeq);
    NameIsLine();
    FourLinesAreMessage(StatusLine(code, StatusText(code)), CSeqLine(cSeq), "Server: " + MY_NAME,
                        "Error:" + (" " + MY_NAME));
  }

  lemma TeardownIsMessage(cSeq: int)
    ensures IsMessage(TeardownText(cSeq))
  {
    StatusIsLine(200, "OK");
    CSeqIsLine(cSeq);
    NameIsLine();
    FourLinesAreMessage(StatusLine(200, "OK"), CSeqLine(cSeq), "Server: " + MY_NAME,
                        "Teardown:" + " true");
  }
}
