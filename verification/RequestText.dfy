/** Requests as a client writes them, and a whole session of them. */
module RequestText {
  import opened Common
  import opened Text
  import opened Decimal
  import opened Framing
  import opened Rtsp

  // -------------------------------------------------------- messages of lines

  predicate IsLine(s: string)
  {
    s != "" && forall i :: 0 <= i < |s| ==> s[i] != '\r' && s[i] != '\n'
  }

  lemma LastLine(line: string)
    requires IsLine(line)
    ensures EndsOnce(line + CRLF2, CRLF2)
  {
    var s := line + CRLF2;
    FindIsFirst(s, CRLF2, 0);
    assert At(s, CRLF2, |line|);
    forall j: nat | j < |line| ensures !At(s, CRLF2, j) {
      if At(s, CRLF2, j) { DelimiterAt(s, j); }
    }
  }

  lemma DelimiterAt(s: string, j: nat)
    requires At(s, CRLF2, j)
    ensures s[j] == '\r' && s[j + 1] == '\n' && s[j + 2] == '\r'
  {
    assert CRLF2[0] == '\r' && CRLF2[1] == '\n' && CRLF2[2] == '\r';
    assert s[j + 0] == CRLF2[0];
  }

  lemma OneMoreLine(line: string, rest: string)
    requires IsLine(line) && EndsOnce(rest, CRLF2) && rest[0] != '\r'
    ensures EndsOnce(line + CRLF + rest, CRLF2)
  {
    var s, n := line + CRLF + rest, |line| + 2;
    FindIsFirst(s, CRLF2, 0);
    FindIsFirst(rest, CRLF2, 0);
    assert s[n..|s|] == rest;
    forall j: nat ensures At(rest, CRLF2, j) <==> At(s, CRLF2, n + j) {
      AtInSlice(s, CRLF2, n, |s|, j);
    }
    forall j: nat | j < n ensures !At(s, CRLF2, j) {
      NotInLine(line, rest, j);
    }
    assert At(s, CRLF2, n + (|rest| - 4));
    var j := Find(s, CRLF2, 0).value;
    assert At(rest, CRLF2, j - n);
  }

  lemma NotInLine(line: string, rest: string, j: nat)
    requires IsLine(line) && rest != "" && rest[0] != '\r' && j < |line| + 2
    ensures !At(line + CRLF + rest, CRLF2, j)
  {
    var s, n := line + CRLF + rest, |line|;
    assert s[n] == '\r' && s[n + 1] == '\n' && s[n + 2] == rest[0];
    if At(s, CRLF2, j) { DelimiterAt(s, j); }
  }

  predicate AllLines(lines: seq<string>)
  {
    forall i :: 0 <= i < |lines| ==> IsLine(lines[i])
  }

  /** Lines, each ended, and an empty line. */
  function MessageOf(lines: seq<string>): string
    requires lines != []
  {
    if |lines| == 1 then lines[0] + "\r\n\r\n" else lines[0] + "\r\n" + MessageOf(lines[1..])
  }

  /** A message ends at its first empty line. */
  lemma {:induction false} MessageEndsOnce(lines: seq<string>)
    requires lines != [] && AllLines(lines)
    ensures EndsOnce(MessageOf(lines), CRLF2) && MessageOf(lines)[0] == lines[0][0]
    decreases |lines|
  {
    if |lines| == 1 {
      LastLine(lines[0]);
    } else {
      MessageEndsOnce(lines[1..]);
      OneMoreLine(lines[0], MessageOf(lines[1..]));
    }
  }

  lemma {:induction false} MessageIsJoin(lines: seq<string>)
    requires lines != []
    ensures MessageOf(lines) == Join(lines + ["", ""], CRLF)
    decreases |lines|
  {
    if |lines| == 1 {
      LastJoined(lines[0]);
      assert lines + ["", ""] == [lines[0], "", ""];
    } else {
      MessageIsJoin(lines[1..]);
      JoinOfCons(lines[0], lines[1..] + ["", ""], CRLF);
      assert lines + ["", ""] == [lines[0]] + (lines[1..] + ["", ""]);
    }
  }

  lemma LastJoined(line: string)
    ensures Join([line, "", ""], CRLF) == line + CRLF2
  {
    assert [line, "", ""][1..] == ["", ""] && ["", ""][1..] == [""];
    assert Join(["", ""], CRLF) == "" + CRLF + "";
    assert CRLF + CRLF == CRLF2;
  }

  /** Splitting a message gives back its lines. */
  lemma LinesOfMessage(lines: seq<string>)
    requires lines != [] && AllLines(lines)
    ensures Lines(MessageOf(lines)) == lines
  {
    var s, pieces := MessageOf(lines), lines + ["", ""];
    MessageIsJoin(lines);
    assert s[0..] == s;
    JoinSpells(s, 0, pieces, CRLF);
    forall i | 0 <= i < |pieces| ensures CRLF[0] !in pieces[i] {
      if i < |lines| { assert IsLine(lines[i]); }
    }
    SplitOfJoin(s, 0, pieces, CRLF);
    NonEmptyLines(lines);
  }

  lemma {:induction false} NonEmptyLines(lines: seq<string>)
    requires AllLines(lines)
    ensures NonEmpty(lines + ["", ""]) == lines
  {
    if lines == [] {
      assert lines + ["", ""] == ["", ""] && ["", ""][1..] == [""] && [""][1..] == [];
    } else {
      NonEmptyLines(lines[1..]);
      assert (lines + ["", ""])[1..] == lines[1..] + ["", ""];
      HeadAndTail([lines[0]] + lines[1..], lines[1..], lines);
    }
  }

  // ------------------------------------------------------------------ requests

  /** A request line, headers before the sequence number, the number, headers after it. */
  datatype Request = Request(verb: string, target: string, before: seq<string>, number: int, after: seq<string>)

  function NumberLine(n: int): string
  {
    Join(["CSeq", " " + IntToString(n)], ":")
  }

  function LinesOf(r: Request): seq<string>
  {
    [r.verb + (" " + r.target)] + r.before + [NumberLine(r.number)] + r.after
  }

  function TextOf(r: Request): string
  {
    MessageOf(LinesOf(r))
  }

  /** What a client that follows the protocol sends, with its number. */
  predicate Conforming(r: Request)
  {
    && (r.verb == "DESCRIBE" || r.verb == "SETUP" || r.verb == "PLAY" || r.verb == "PAUSE" || r.verb == "TEARDOWN"
        || r.verb == "SET_PARAMETER" || r.verb == "OPTIONS")
    && IsLine(r.verb + (" " + r.target)) && AllLines(r.before) && AllLines(r.after)
    && !Contains(r.verb + (" " + r.target), "CSeq")
    && (forall i :: 0 <= i < |r.before| ==> !Contains(r.before[i], "CSeq"))
    && 0 <= r.number < 0x8000_0000
  }

  lemma NumberLineFacts(n: int)
    requires Int32(n)
    ensures IsLine(NumberLine(n)) && Contains(NumberLine(n), "CSeq") && HeaderNumber(NumberLine(n)) == Some(n)
  {
    NumberLineIsLine(n);
    NumberLineIsRead(n);
  }

  lemma NumberLineIsLine(n: int)
    ensures IsLine(NumberLine(n)) && Contains(NumberLine(n), "CSeq")
  {
    IntIsPlain(n);
    NumberLineText(n);
    assert At(NumberLine(n), "CSeq", 0);
    FindIsFirst(NumberLine(n), "CSeq", 0);
  }

  lemma NumberLineIsRead(n: int)
    requires Int32(n)
    ensures HeaderNumber(NumberLine(n)) == Some(n)
  {
    HeaderNumberRoundTrip("CSeq", n, "");
    assert IntToString(n) + "" == IntToString(n);
  }

  lemma NumberLineText(n: int)
    ensures NumberLine(n) == "CSeq" + ":" + (" " + IntToString(n))
  {
    JoinOfCons("CSeq", [" " + IntToString(n)], ":");
  }

  lemma LinesAreLines(r: Request)
    requires Conforming(r)
    ensures AllLines(LinesOf(r))
  {
    NumberLineFacts(r.number);
    OneIsLine(r.verb + (" " + r.target));
    OneIsLine(NumberLine(r.number));
    LinesAppend([r.verb + (" " + r.target)], r.before);
    LinesAppend([r.verb + (" " + r.target)] + r.before, [NumberLine(r.number)]);
    LinesAppend([r.verb + (" " + r.target)] + r.before + [NumberLine(r.number)], r.after);
  }

  lemma OneIsLine(line: string)
    requires IsLine(line)
    ensures AllLines([line])
  {
  }

  lemma LinesAppend(a: seq<string>, b: seq<string>)
    requires AllLines(a) && AllLines(b)
    ensures AllLines(a + b)
  {
    forall i | 0 <= i < |a + b| ensures IsLine((a + b)[i]) {
      if i < |a| { assert (a + b)[i] == a[i]; } else { assert (a + b)[i] == b[i - |a|]; }
    }
  }

  lemma NumberLineIsFirst(r: Request)
    requires Conforming(r)
    ensures IsFirstCSeq(LinesOf(r), |r.before| + 1) && LinesOf(r)[|r.before| + 1] == NumberLine(r.number)
  {
    var lines, k := LinesOf(r), |r.before| + 1;
    NumberLineFacts(r.number);
    forall j | 0 <= j < k ensures !Contains(lines[j], "CSeq") {
      if j > 0 { assert lines[j] == r.before[j - 1]; }
    }
  }

  lemma RequestLines(r: Request)
    requires Conforming(r)
    ensures AllLines(LinesOf(r)) && CSeqOf(TextOf(r)) == Some(r.number)
  {
    LinesAreLines(r);
    LinesOfMessage(LinesOf(r));
    NumberLineIsFirst(r);
    FirstCSeqLine(LinesOf(r), |r.before| + 1);
    NumberLineFacts(r.number);
  }

  lemma VerbOfText(r: Request)
    requires Conforming(r)
    ensures Method(TextOf(r)) == r.verb
  {
    VerbHasNoBlank(r);
    FirstWordOfMessage(LinesOf(r), r.verb, r.target);
  }

  lemma VerbHasNoBlank(r: Request)
    requires Conforming(r)
    ensures ' ' !in r.verb
  {
  }

  lemma VerbInText(verb: string, target: string, s: string)
    requires var line := verb + (" " + target); |s| >= |line| && s[..|line|] == line
    ensures At(s, verb, 0) && At(s, " ", |verb|)
  {
    var line := verb + (" " + target);
    assert forall k :: 0 <= k < |line| ==> s[k] == line[k];
  }

  /** The method is what stands before the first blank. */
  lemma FirstWord(s: string, verb: string)
    requires At(s, verb, 0) && At(s, " ", |verb|) && ' ' !in verb
    ensures Method(s) == verb
  {
    TokenEnds(s, 0, verb, " ");
    assert s[0..|verb|] == s[..|verb|];
  }

  lemma MessageStart(lines: seq<string>)
    requires lines != []
    ensures |MessageOf(lines)| >= |lines[0]| && MessageOf(lines)[..|lines[0]|] == lines[0]
  {
  }

  /** The gate lets a conforming request through exactly when its number is the next one. */
  lemma ConformingIsAcceptedIff(app: Application, h: Handler, r: Request)
    requires Conforming(r) && h.cSeq == |h.accepted| - 1
    ensures var t := Handle(app, h, TextOf(r)).0;
      if r.number == |h.accepted| then t == Handler(r.number, h.accepted + [TextOf(r)]) else t == h
  {
    RequestLines(r);
    VerbOfText(r);
  }

  // ----------------------------------------------------------- what is answered

  lemma Codes()
    ensures IntToString(400) == "400" && IntToString(405) == "405" && IntToString(200) == "200"
  {
    assert Digit(0) == '0' && Digit(2) == '2' && Digit(4) == '4' && Digit(5) == '5';
    assert NatToString(40) == NatToString(4) + [Digit(0)] && NatToString(20) == NatToString(2) + [Digit(0)];
    assert NatToString(400) == NatToString(40) + [Digit(0)] && NatToString(405) == NatToString(40) + [Digit(5)];
    assert NatToString(200) == NatToString(20) + [Digit(0)];
  }

  lemma ServerLine()
    ensures "Server: " + MY_NAME == "Server: RtspServerInCpp/1.1.1"
  {
  }

  lemma ErrorLine()
    ensures "Error:" + (" " + MY_NAME) == "Error: RtspServerInCpp/1.1.1"
  {
    assert " " + MY_NAME == " RtspServerInCpp/1.1.1";
  }

  lemma FourLinesAre(a: string, b: string, c: string, d: string)
    ensures FourLines(a, b, c, d) == MessageOf([a, b, c, d])
  {
    assert MessageOf([d]) == d + CRLF2;
    assert [c, d][1..] == [d] && MessageOf([c, d]) == c + CRLF + (d + CRLF2);
    assert [b, c, d][1..] == [c, d] && MessageOf([b, c, d]) == b + CRLF + (c + CRLF + (d + CRLF2));
    assert [a, b, c, d][1..] == [b, c, d];
  }

  /** The three answers the gate and the teardown give. */
  function BadRequest(cSeq: int): string
  {
    MessageOf(["RTSP/1.0 400 Bad Request", "CSeq: " + IntToString(cSeq),
               "Server: RtspServerInCpp/1.1.1", "Error: RtspServerInCpp/1.1.1"])
  }

  function MethodNotAllowed(cSeq: int): string
  {
    MessageOf(["RTSP/1.0 405 Method Not Allowed", "CSeq: " + IntToString(cSeq),
               "Server: RtspServerInCpp/1.1.1", "Error: RtspServerInCpp/1.1.1"])
  }

  function TornDown(cSeq: int): string
  {
    MessageOf(["RTSP/1.0 200 OK", "CSeq: " + IntToString(cSeq),
               "Server: RtspServerInCpp/1.1.1", "Teardown: true"])
  }

  lemma BadRequestText(cSeq: int)
    ensures ErrorText(400, cSeq) == BadRequest(cSeq)
  {
    Codes();
    assert "RTSP/1.0 " + "400" + " " + "Bad Request" == "RTSP/1.0 400 Bad Request";
    ServerLine();
    ErrorLine();
    FourLinesAre("RTSP/1.0 400 Bad Request", "CSeq: " + IntToString(cSeq), "Server: RtspServerInCpp/1.1.1",
                 "Error: RtspServerInCpp/1.1.1");
  }

  lemma NotAllowedText(cSeq: int)
    ensures ErrorText(405, cSeq) == MethodNotAllowed(cSeq)
  {
    Codes();
    assert "RTSP/1.0 " + "405" + " " + "Method Not Allowed" == "RTSP/1.0 405 Method Not Allowed";
    ServerLine();
    ErrorLine();
    FourLinesAre("RTSP/1.0 405 Method Not Allowed", "CSeq: " + IntToString(cSeq), "Server: RtspServerInCpp/1.1.1",
                 "Error: RtspServerInCpp/1.1.1");
  }

  lemma TeardownIs(cSeq: int)
    ensures TeardownText(cSeq) == TornDown(cSeq)
  {
    Codes();
    assert "RTSP/1.0 " + "200" + " " + "OK" == "RTSP/1.0 200 OK";
    assert "Teardown:" + " true" == "Teardown: true";
    ServerLine();
    FourLinesAre("RTSP/1.0 200 OK", "CSeq: " + IntToString(cSeq), "Server: RtspServerInCpp/1.1.1",
                 "Teardown: true");
  }

  /** Another method than the seven gets 405, whatever else the request says. */
  lemma OtherMethodIsNotAllowed(app: Application, h: Handler, verb: string, rest: string)
    requires ' ' !in verb
    requires verb != "DESCRIBE" && verb != "SETUP" && verb != "PLAY" && verb != "PAUSE" && verb != "TEARDOWN"
    requires verb != "SET_PARAMETER" && verb != "OPTIONS"
    ensures Handle(app, h, verb + (" " + rest))
      == (h, MethodNotAllowed(h.cSeq))
  {
    var s := verb + (" " + rest);
    assert s[..|s|] == s;
    VerbInText(verb, rest, s);
    FirstWord(s, verb);
    NotAllowedText(h.cSeq);
  }

  /** A conforming request out of sequence gets 400. */
  lemma OutOfSequenceIsBad(app: Application, h: Handler, r: Request)
    requires Conforming(r) && r.number != h.cSeq + 1
    ensures Handle(app, h, TextOf(r))
      == (h, BadRequest(h.cSeq))
  {
    RequestLines(r);
    VerbOfText(r);
    BadRequestText(h.cSeq);
  }

  /** A request with one of the seven methods and no sequence number. */
  predicate Unnumbered(lines: seq<string>, verb: string, target: string)
  {
    && lines != [] && AllLines(lines) && lines[0] == verb + (" " + target)
    && ' ' !in verb && verb in RTSP_METHODS
    && forall i :: 0 <= i < |lines| ==> !Contains(lines[i], "CSeq")
  }

  /** So does a request with no sequence number at all. */
  lemma UnnumberedIsBad(app: Application, h: Handler, lines: seq<string>, verb: string, target: string)
    requires Unnumbered(lines, verb, target)
    ensures Handle(app, h, MessageOf(lines))
      == (h, BadRequest(h.cSeq))
  {
    UnnumberedIsRefused(h, lines, verb, target);
    RefusedAsBad(app, h, MessageOf(lines));
  }

  lemma RefusedAsBad(app: Application, h: Handler, request: string)
    requires Refusal(h, request) == Some(400)
    ensures Handle(app, h, request) == (h, BadRequest(h.cSeq))
  {
    BadRequestText(h.cSeq);
  }

  lemma UnnumberedIsRefused(h: Handler, lines: seq<string>, verb: string, target: string)
    requires Unnumbered(lines, verb, target)
    ensures Refusal(h, MessageOf(lines)) == Some(400)
  {
    LinesOfMessage(lines);
    NoCSeqLine(lines);
    FirstWordOfMessage(lines, verb, target);
  }

  lemma FirstWordOfMessage(lines: seq<string>, verb: string, target: string)
    requires lines != [] && lines[0] == verb + (" " + target) && ' ' !in verb
    ensures Method(MessageOf(lines)) == verb
  {
    MessageStart(lines);
    VerbInText(verb, target, MessageOf(lines));
    FirstWord(MessageOf(lines), verb);
  }

  /** A request whose number cannot be read is sent back as it came, and changes nothing. */
  lemma UnreadableIsEchoed(app: Application, h: Handler, lines: seq<string>, k: nat, verb: string, target: string)
    requires lines != [] && AllLines(lines) && lines[0] == verb + (" " + target)
    requires ' ' !in verb && verb in RTSP_METHODS
    requires IsFirstCSeq(lines, k) && HeaderNumber(lines[k]) == None
    ensures Handle(app, h, MessageOf(lines)) == (h, MessageOf(lines))
  {
    LinesOfMessage(lines);
    FirstCSeqLine(lines, k);
    FirstWordOfMessage(lines, verb, target);
  }

  /** A line whose value has no digit cannot be read. */
  lemma ValueWithoutDigit(name: string, value: string)
    requires ':' !in name && ':' !in value && value != "" && forall i :: 0 <= i < |value| ==> !IsDigit(value[i])
    ensures HeaderNumber(Join([name, value], ":")) == None
  {
    assert [':'] == ":";
    GetlineOfJoinIff([name, value], ':');
    TrimmedHolds(value);
    forall i | 0 <= i < |Trim(value)| ensures !IsDigit(Trim(value)[i]) {
      assert Trim(value)[i] in value;
    }
    StoIWithoutDigit(Trim(value));
  }

  lemma {:induction false} TrimmedHolds(s: string)
    ensures forall c :: c in Trim(s) ==> c in s
    decreases |s|
  {
    if s != "" && IsBlank(s[0]) {
      TrimmedHolds(s[1..]);
    } else if s != "" && IsBlank(s[|s| - 1]) {
      TrimmedHolds(s[..|s| - 1]);
    }
  }

  /** The next request in sequence is answered by its method: teardown here, the others by the application. */
  lemma InSequenceIsAnswered(app: Application, h: Handler, r: Request)
    requires Conforming(r) && r.number == h.cSeq + 1
    ensures var t := Handler(r.number, h.accepted + [TextOf(r)]);
      var outcome := app(t.accepted);
      && (r.verb == "TEARDOWN" ==> Handle(app, h, TextOf(r)) == (t, TornDown(r.number)))
      && (r.verb != "TEARDOWN" ==>
            && (outcome.Reply? ==> Handle(app, h, TextOf(r)) == (t, outcome.text))
            && (outcome.Throw? ==> Handle(app, h, TextOf(r)) == (t, TextOf(r)))
            && (outcome == Refuse(400) ==> Handle(app, h, TextOf(r)) == (t, BadRequest(r.number))))
  {
    RequestLines(r);
    VerbOfText(r);
    TeardownIs(r.number);
    BadRequestText(r.number);
  }

  // ------------------------------------------------------------ a whole session

  function TextsOf(requests: seq<Request>): seq<string>
  {
    seq(|requests|, i requires 0 <= i < |requests| => TextOf(requests[i]))
  }

  /** Conforming requests numbered 0, 1, 2, ..., none a teardown. */
  predicate Conversation(requests: seq<Request>)
  {
    forall i :: 0 <= i < |requests| ==>
      Conforming(requests[i]) && requests[i].number == i && requests[i].verb != "TEARDOWN"
  }

  /** The application answers each of them, and with nothing that stops the session. */
  ghost predicate Answers(app: Application, texts: seq<string>, replies: seq<string>)
  {
    && |replies| == |texts|
    && forall i :: 0 <= i < |texts| ==>
         && app(texts[..i + 1]) == Reply(replies[i])
         && !Contains(replies[i], "Error:") && !Contains(replies[i], "Teardown:")
  }

  lemma {:induction false} ReplayConversation(app: Application, requests: seq<Request>, replies: seq<string>, k: nat)
    requires Conversation(requests) && Answers(app, TextsOf(requests), replies) && k <= |requests|
    ensures Replay(Serving(app), Handler(-1, []), TextsOf(requests)[..k])
      == (Handler(k - 1, TextsOf(requests)[..k]), replies[..k])
    decreases k
  {
    var texts := TextsOf(requests);
    if k > 0 {
      ReplayConversation(app, requests, replies, k - 1);
      InSequenceIsAnswered(app, Handler(k - 2, texts[..k - 1]), requests[k - 1]);
      ReplayOneMore(Serving(app), Handler(-1, []), texts[..k - 1], texts[k - 1]);
      NextOfPrefix(texts, k - 1);
      NextOfPrefix(replies, k - 1);
    }
  }

  /**
   * A client that follows the protocol is served: however its bytes are cut into
   * reads, every request is handled and accepted, each gets the application's own
   * answer, in order, and the session goes on with nothing left over.
   */
  lemma ConversationIsServed(app: Application, chunks: seq<string>, requests: seq<Request>, replies: seq<string>)
    requires Conversation(requests) && Answers(app, TextsOf(requests), replies)
    requires Flatten(chunks) == Flatten(TextsOf(requests))
    ensures ReceiveAll(Serving(app), Start, chunks)
      == Connection(Handler(|requests| - 1, TextsOf(requests)), "", TextsOf(requests), replies, false)
  {
    var texts, sv := TextsOf(requests), Serving(app);
    var c := ReceiveAll(sv, Start, chunks);
    StreamIsServed(sv, Handler(-1, []), chunks);
    ConversationIsCut(requests);
    ReplayConversation(app, requests, replies, |c.handled|);
    assert c.handled == texts[..|c.handled|] && c.answers == replies[..|c.handled|];
    NeverStops(app, texts, replies, c);
    assert texts[..|texts|] == texts && replies[..|replies|] == replies;
    LeftOver(Flatten(texts), c.buffer);
  }

  lemma LeftOver(a: string, b: string)
    requires a + b == a
    ensures b == ""
  {
    assert |a + b| == |a| + |b|;
  }

  lemma NeverStops(app: Application, texts: seq<string>, replies: seq<string>, c: Connection<Handler>)
    requires Answers(app, texts, replies) && |c.handled| <= |texts| && c.answers == replies[..|c.handled|]
    requires StopsOnlyLast(Serving(app), c)
    ensures !c.stopped
  {
    if c.answers != [] {
      var last := |c.answers| - 1;
      assert c.answers[last] == replies[last];
      StopsIff(replies[last]);
    }
  }

  lemma ConversationIsCut(requests: seq<Request>)
    requires Conversation(requests)
    ensures Requests(Flatten(TextsOf(requests)), CRLF2) == TextsOf(requests)
  {
    var texts := TextsOf(requests);
    forall i | 0 <= i < |texts| ensures EndsOnce(texts[i], CRLF2) {
      RequestLines(requests[i]);
      MessageEndsOnce(LinesOf(requests[i]));
    }
    assert Find("", CRLF2, 0) == None;
    MessagesAreRecovered(texts, "", CRLF2);
    assert Flatten(texts) + "" == Flatten(texts);
  }
}
