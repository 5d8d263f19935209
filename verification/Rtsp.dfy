/** RTSP over the control connection: framing, the CSeq gate, and the end of a session (RFC 2326). */
module Rtsp {
  import opened Common
  import opened Text
  import opened Decimal
  import opened Framing

  const CRLF := "\r\n"
  const CRLF2 := "\r\n\r\n"
  const MY_NAME := "RtspServerInCpp/1.1.1"
  const UNSET := -1

  const RTSP_METHODS := ["DESCRIBE", "SETUP", "PLAY", "PAUSE", "TEARDOWN", "SET_PARAMETER", "OPTIONS"]

  // ------------------------------------------------------------ reading a header

  function NonEmpty(tokens: seq<string>): seq<string>
  {
    if tokens == [] then []
    else (if tokens[0] == "" then [] else [tokens[0]]) + NonEmpty(tokens[1..])
  }

  function Lines(text: string): seq<string>
  {
    NonEmpty(Split(text, CRLF))
  }

  method SplitToVecByStringForRtspMsg(text: string) returns (result: seq<string>)
    ensures result == Lines(text)
  {
    var tokens := SplitToVecByString(text, CRLF);
    result := [];
    for i := 0 to |tokens|
      invariant result + NonEmpty(tokens[i..]) == Lines(text)
    {
      assert tokens[i..][0] == tokens[i] && tokens[i..][1..] == tokens[i + 1..];
      if tokens[i] != "" {
        MoveOne(result, tokens[i], NonEmpty(tokens[i..]), NonEmpty(tokens[i + 1..]));
        result := result + [tokens[i]];
      }
    }
  }

  /** The number in the second of the pieces between colons; without one the source throws or worse. */
  function HeaderNumber(line: string): Option<int>
  {
    var parts := Getline(line, ':');
    if |parts| < 2 then None else StoI(Trim(parts[1]))
  }

  /** The sequence number of a request; -1 when no line has one, None when reading it throws. */
  function FindCSeq(lines: seq<string>): Option<int>
  {
    if lines == [] then Some(-1)
    else if Contains(lines[0], "CSeq") then HeaderNumber(lines[0])
    else FindCSeq(lines[1..])
  }

  predicate IsFirstCSeq(lines: seq<string>, k: int)
  {
    0 <= k < |lines| && Contains(lines[k], "CSeq") && forall j :: 0 <= j < k ==> !Contains(lines[j], "CSeq")
  }

  method FindCSeqInLines(lines: seq<string>) returns (r: Option<int>)
    ensures r == FindCSeq(lines)
    ensures (forall j :: 0 <= j < |lines| ==> !Contains(lines[j], "CSeq")) ==> r == Some(-1)
    ensures forall k :: IsFirstCSeq(lines, k) ==> r == HeaderNumber(lines[k])
  {
    for i := 0 to |lines|
      invariant FindCSeq(lines) == FindCSeq(lines[i..])
      invariant forall j :: 0 <= j < i ==> !Contains(lines[j], "CSeq")
    {
      assert lines[i..][0] == lines[i] && lines[i..][1..] == lines[i + 1..];
      if Contains(lines[i], "CSeq") {
        return HeaderNumber(lines[i]);
      }
    }
    return Some(-1);
  }

  function CSeqOf(request: string): Option<int>
  {
    FindCSeq(Lines(request))
  }

  /** The first line that holds the name decides, wherever it stands. */
  lemma {:induction false} FirstCSeqLine(lines: seq<string>, k: nat)
    requires IsFirstCSeq(lines, k)
    ensures FindCSeq(lines) == HeaderNumber(lines[k])
    decreases k
  {
    if k > 0 { FirstCSeqLine(lines[1..], k - 1); }
  }

  lemma {:induction false} NoCSeqLine(lines: seq<string>)
    requires forall j :: 0 <= j < |lines| ==> !Contains(lines[j], "CSeq")
    ensures FindCSeq(lines) == Some(-1)
  {
    if lines != [] { NoCSeqLine(lines[1..]); }
  }

  /** A number printed after a header's name, a colon and a blank is read back, whatever follows its digits. */
  lemma HeaderNumberRoundTrip(name: string, n: int, rest: string)
    requires Int32(n) && ':' !in name && ':' !in rest
    requires rest == "" || (!IsDigit(rest[0]) && !IsBlank(rest[|rest| - 1]))
    ensures HeaderNumber(Join([name, " " + (IntToString(n) + rest)], ":")) == Some(n)
  {
    var value := IntToString(n) + rest;
    IntIsPlain(n);
    assert [':'] == ":";
    GetlineOfJoinIff([name, " " + value], ':');
    TrimBlank(value);
    StoIOfPrinted(n, rest);
  }

  lemma TrimBlank(s: string)
    requires s != "" && !IsBlank(s[0]) && !IsBlank(s[|s| - 1])
    ensures Trim(" " + s) == s
  {
    assert (" " + s)[1..] == s;
  }

  // ------------------------------------------------------------------ responses

  function StatusText(code: int): string
  {
    if code == 400 then "Bad Request"
    else if code == 405 then "Method Not Allowed"
    else if code == 454 then "Session Not Found"
    else if code == 501 then "Not Implemented"
    else "Internal Server Error"
  }

  function StatusLine(code: int, status: string): string
  {
    "RTSP/1.0 " + IntToString(code) + " " + status
  }

  /** A message of four lines. */
  function FourLines(a: string, b: string, c: string, d: string): string
  {
    a + CRLF + (b + CRLF + (c + CRLF + (d + CRLF2)))
  }

  function CSeqLine(cSeq: int): string
  {
    "CSeq: " + IntToString(cSeq)
  }

  function ErrorText(code: int, cSeq: int): string
  {
    FourLines(StatusLine(code, StatusText(code)), CSeqLine(cSeq), "Server: " + MY_NAME, "Error:" + (" " + MY_NAME))
  }

  function TeardownText(cSeq: int): string
  {
    FourLines(StatusLine(200, "OK"), CSeqLine(cSeq), "Server: " + MY_NAME, "Teardown:" + " true")
  }

  /** The receive loop stops the session on this answer. */
  predicate Stops(answer: string)
  {
    AnyContains(Lines(answer), "Teardown:") || AnyContains(Lines(answer), "Error:")
  }

  lemma {:induction false} NonEmptyKeepsNeedle(tokens: seq<string>, needle: string)
    requires needle != ""
    ensures AnyContains(NonEmpty(tokens), needle) <==> AnyContains(tokens, needle)
  {
    if tokens != [] {
      var rest := NonEmpty(tokens[1..]);
      NonEmptyKeepsNeedle(tokens[1..], needle);
      if tokens[0] == "" {
        assert !Contains(tokens[0], needle);
        assert [] + rest == rest;
      } else {
        assert ([tokens[0]] + rest)[0] == tokens[0] && ([tokens[0]] + rest)[1..] == rest;
      }
    }
  }

  /** Looking line by line finds the same as looking in the whole answer. */
  lemma StopsIff(answer: string)
    ensures Stops(answer) <==> Contains(answer, "Teardown:") || Contains(answer, "Error:")
  {
    NonEmptyKeepsNeedle(Split(answer, CRLF), "Teardown:");
    NonEmptyKeepsNeedle(Split(answer, CRLF), "Error:");
    NeedleSurvivesSplit(answer, CRLF, "Teardown:", 0);
    NeedleSurvivesSplit(answer, CRLF, "Error:", 0);
  }

  lemma LastLineIsFound(a: string, b: string, c: string, name: string, value: string)
    ensures Contains(FourLines(a, b, c, name + value), name)
  {
    var s, n := FourLines(a, b, c, name + value), |a| + |b| + |c| + 6;
    assert s[n..] == (name + value) + CRLF2;
    assert forall k :: 0 <= k < |name| ==> s[n + k] == s[n..][k] == name[k];
    assert At(s, name, n);
    FindIsFirst(s, name, 0);
  }

  lemma LastLineStops(a: string, b: string, c: string, name: string, value: string)
    requires name == "Error:" || name == "Teardown:"
    ensures Stops(FourLines(a, b, c, name + value))
  {
    LastLineIsFound(a, b, c, name, value);
    StopsIff(FourLines(a, b, c, name + value));
  }

  /** Every refusal, whatever its code, stops the session. */
  lemma RefusalStops(code: int, cSeq: int)
    ensures Stops(ErrorText(code, cSeq))
  {
    LastLineStops(StatusLine(code, StatusText(code)), CSeqLine(cSeq), "Server: " + MY_NAME, "Error:", " " + MY_NAME);
  }

  lemma TeardownStops(cSeq: int)
    ensures Stops(TeardownText(cSeq))
  {
    LastLineStops(StatusLine(200, "OK"), CSeqLine(cSeq), "Server: " + MY_NAME, "Teardown:", " true");
  }

  // ------------------------------------------------------------------ CSeq gate

  /** What a method's own processing leaves: an answer, a refusal, or a thrown exception. */
  datatype Outcome = Reply(text: string) | Refuse(code: int) | Throw

  /** The processing of the last of the requests accepted so far. */
  type Application = seq<string> -> Outcome

  datatype Handler = Handler(cSeq: int, accepted: seq<string>)

  function Method(request: string): string
  {
    match Find(request, " ", 0)
    case None => request
    case Some(i) => request[..i]
  }

  /** The status with which the gate turns a request away. */
  function Refusal(h: Handler, request: string): Option<int>
  {
    var number := CSeqOf(request);
    if Method(request) !in RTSP_METHODS then Some(405)
    else if number.Some? && (number.value == -1 || number.value != h.cSeq + 1) then Some(400)
    else None
  }

  /** The handler after a request, and what it leaves to be sent. */
  function Handle(app: Application, h: Handler, request: string): (Handler, string)
  {
    var number, refusal := CSeqOf(request), Refusal(h, request);
    if refusal.Some? then (h, ErrorText(refusal.value, h.cSeq))
    else if number.None? then (h, request)
    else
      var t := Handler(number.value, h.accepted + [request]);
      if Method(request) == "TEARDOWN" then (t, TeardownText(t.cSeq))
      else
        match app(t.accepted)
        case Reply(text) => (t, text)
        case Refuse(code) => (t, ErrorText(code, t.cSeq))
        case Throw => (t, request)
  }

  class RtspHandler {
    const app: Application
    var cSeq: int
    var accepted: seq<string>

    ghost function Value(): Handler
      reads this
    {
      Handler(cSeq, accepted)
    }

    constructor (app: Application)
      ensures this.app == app && Value() == Handler(UNSET, [])
    {
      this.app := app;
      cSeq, accepted := UNSET, [];
    }

    /** An exception leaves the request in the buffer that is then sent. */
    method HandleRtspRequest(request: string) returns (response: string)
      modifies this
      ensures (Value(), response) == Handle(app, old(Value()), request)
    {
      if Method(request) !in RTSP_METHODS {
        return ErrorText(405, cSeq);
      }
      var lines := SplitToVecByStringForRtspMsg(request);
      var number := FindCSeqInLines(lines);
      if number.None? {
        return request;
      }
      var received := number.value;
      if received == -1 {
        return ErrorText(400, cSeq);
      }
      var next := cSeq + 1;
      if next != received {
        return ErrorText(400, cSeq);
      }
      cSeq := received;
      accepted := accepted + [request];
      if Method(request) == "TEARDOWN" {
        return TeardownText(cSeq);
      }
      match app(accepted) {
        case Reply(text) => return text;
        case Refuse(code) => return ErrorText(code, cSeq);
        case Throw => return request;
      }
    }
  }

  // ------------------------------------------------------------------ a session

  function Serving(app: Application): Service<Handler>
  {
    Service(CRLF2, (h: Handler, request: string) => Handle(app, h, request), (answer: string) => Stops(answer))
  }

  const Start := Fresh(Handler(UNSET, []))

  class RtspSession {
    const rtspHandler: RtspHandler
    var rtspBuffer: string
    var handled: seq<string>
    var answers: seq<string>
    var stopped: bool

    ghost function Value(): Connection<Handler>
      reads this, rtspHandler
    {
      Connection(rtspHandler.Value(), rtspBuffer, handled, answers, stopped)
    }

    constructor (app: Application)
      ensures Value() == Fresh(Handler(UNSET, [])) && rtspHandler.app == app && fresh(rtspHandler)
    {
      rtspHandler := new RtspHandler(app);
      rtspBuffer, handled, answers, stopped := "", [], [], false;
    }

    /** One completed read. */
    method AsyncReceive(chunk: string)
      requires !stopped
      modifies this, rtspHandler
      ensures Value() == Receive(Serving(rtspHandler.app), old(Value()), chunk)
    {
      rtspBuffer := rtspBuffer + chunk;
      ghost var start := Value();
      while true
        invariant !stopped
        invariant Drain(Serving(rtspHandler.app), Value()) == Drain(Serving(rtspHandler.app), start)
        decreases |rtspBuffer|
      {
        var end := RequestEnd(rtspBuffer, CRLF2);
        if end == 0 {
          break;
        }
        ghost var before := Value();
        var request := rtspBuffer[..end];
        rtspBuffer := rtspBuffer[end..];
        var response := rtspHandler.HandleRtspRequest(request);
        var isStop := ScanAnswer(response);
        handled := handled + [request];
        answers := answers + [response];
        stopped := isStop;
        assert Value() == Served(Serving(rtspHandler.app), before, end);
        if isStop {
          return;
        }
      }
    }
  }

  /** The two flags set line by line over an answer. */
  method ScanAnswer(answer: string) returns (stop: bool)
    ensures stop == Stops(answer)
  {
    var isTear, isError := false, false;
    var lines := SplitToVecByStringForRtspMsg(answer);
    for i := 0 to |lines|
      invariant AnyContains(lines, "Teardown:") <==> isTear || AnyContains(lines[i..], "Teardown:")
      invariant AnyContains(lines, "Error:") <==> isError || AnyContains(lines[i..], "Error:")
    {
      assert lines[i..][0] == lines[i] && lines[i..][1..] == lines[i + 1..];
      if Contains(lines[i], "Teardown:") { isTear := true; }
      if Contains(lines[i], "Error:") { isError := true; }
    }
    return isTear || isError;
  }

  // -------------------------------------------------------------- CSeq over runs

  /** The requests whose sequence number can be read. */
  function Readable(requests: seq<string>): seq<string>
  {
    if requests == [] then []
    else
      var last := requests[|requests| - 1];
      Readable(requests[..|requests| - 1]) + if CSeqOf(last).Some? then [last] else []
  }

  /** Accepted requests carry 0, 1, 2, ... */
  predicate Numbered(h: Handler)
  {
    && h.cSeq == |h.accepted| - 1
    && forall i :: 0 <= i < |h.accepted| ==> CSeqOf(h.accepted[i]) == Some(i)
  }

  /** A live session accepted every readable request; a stopped one perhaps not its last. */
  predicate AcceptsAll(accepted: seq<string>, handled: seq<string>, stopped: bool)
  {
    || accepted == Readable(handled)
    || (stopped && handled != [] && accepted == Readable(handled[..|handled| - 1]))
  }

  ghost predicate InSequence(c: Connection<Handler>)
  {
    Numbered(c.handler) && AcceptsAll(c.handler.accepted, c.handled, c.stopped)
  }

  lemma HandleAccepts(app: Application, h: Handler, request: string)
    ensures var t := Handle(app, h, request).0;
      t == h || (CSeqOf(request) == Some(h.cSeq + 1) && t == Handler(h.cSeq + 1, h.accepted + [request]))
  {
  }

  lemma NotAcceptedStops(app: Application, h: Handler, request: string)
    requires Handle(app, h, request).0 == h && CSeqOf(request).Some?
    ensures Stops(Handle(app, h, request).1)
  {
    var refusal := Refusal(h, request);
    if refusal.Some? { RefusalStops(refusal.value, h.cSeq); }
  }

  lemma HandleKeepsNumbers(app: Application, h: Handler, request: string)
    requires Numbered(h)
    ensures var (t, answer) := Handle(app, h, request);
      && Numbered(t)
      && (t.accepted == h.accepted || (t.accepted == h.accepted + [request] && CSeqOf(request).Some?))
      && (!Stops(answer) ==> t.accepted == h.accepted + if CSeqOf(request).Some? then [request] else [])
  {
    HandleAccepts(app, h, request);
    if Handle(app, h, request).0 == h && CSeqOf(request).Some? { NotAcceptedStops(app, h, request); }
  }

  lemma ReadableSnoc(requests: seq<string>, last: string)
    ensures Readable(requests + [last]) == Readable(requests) + if CSeqOf(last).Some? then [last] else []
  {
    assert (requests + [last])[..|requests|] == requests;
  }

  lemma OneMoreAccepted(accepted: seq<string>, handled: seq<string>, request: string, after: seq<string>, stop: bool)
    requires accepted == Readable(handled)
    requires after == accepted || (after == accepted + [request] && CSeqOf(request).Some?)
    requires !stop ==> after == accepted + if CSeqOf(request).Some? then [request] else []
    ensures AcceptsAll(after, handled + [request], stop)
  {
    ReadableSnoc(handled, request);
    assert (handled + [request])[..|handled|] == handled;
  }

  lemma ServedKeepsNumbers(app: Application, c: Connection<Handler>, n: nat)
    requires n <= |c.buffer| && !c.stopped && InSequence(c)
    ensures InSequence(Served(Serving(app), c, n))
  {
    var request := c.buffer[..n];
    var (t, answer) := Handle(app, c.handler, request);
    HandleKeepsNumbers(app, c.handler, request);
    OneMoreAccepted(c.handler.accepted, c.handled, request, t.accepted, Stops(answer));
    assert Served(Serving(app), c, n) ==
      Connection(t, c.buffer[n..], c.handled + [request], c.answers + [answer], Stops(answer));
  }

  /**
   * Over a whole connection the accepted requests are numbered 0, 1, 2, ...: none
   * is skipped, repeated or reordered, and while the session lives they are
   * exactly the requests with a readable number.
   */
  lemma AcceptedInSequence(app: Application, chunks: seq<string>)
    ensures InSequence(ReceiveAll(Serving(app), Start, chunks))
  {
    ChunksAsOne(Serving(app), Start, chunks);
    WholeStreamInSequence(app, Append(Start, Flatten(chunks)));
  }

  lemma WholeStreamInSequence(app: Application, c: Connection<Handler>)
    requires InSequence(c)
    ensures InSequence(Drain(Serving(app), c))
  {
    forall d: Connection<Handler>, n: nat | n <= |d.buffer| && !d.stopped && InSequence(d)
      ensures InSequence(Served(Serving(app), d, n))
    {
      ServedKeepsNumbers(app, d, n);
    }
    DrainKeeps(Serving(app), c, d => InSequence(d));
  }

  /** The gate: a listed method with the next number and no other request is accepted. */
  lemma AcceptedIff(app: Application, h: Handler, request: string)
    requires Numbered(h)
    ensures Handle(app, h, request).0.accepted == h.accepted + [request] <==>
            Method(request) in RTSP_METHODS && CSeqOf(request) == Some(|h.accepted|)
  {
  }

  /** An accepted teardown is the last request served on its connection. */
  lemma TeardownIsLast(app: Application, h: Handler, request: string)
    requires Numbered(h) && Method(request) == "TEARDOWN" && CSeqOf(request) == Some(|h.accepted|)
    ensures Stops(Handle(app, h, request).1)
  {
    TeardownStops(h.cSeq + 1);
  }
}
