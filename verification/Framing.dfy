/** Cutting the incoming bytes of a connection into requests and serving them in order. */
module Framing {
  import opened Common
  import opened Text

  /** What ends a request, what is done with it, and which answers end the session. */
  datatype Service<!H> = Service(delimiter: string, handle: (H, string) -> (H, string), stops: string -> bool)

  /** The connection: unread text, requests handled and answers sent so far. */
  datatype Connection<H> = Connection(handler: H, buffer: string, handled: seq<string>,
                                   answers: seq<string>, stopped: bool)

  function Fresh<H>(handler: H): Connection<H>
  {
    Connection(handler, "", [], [], false)
  }

  /** The request that ends n characters into the buffer has been answered. */
  function Served<H>(sv: Service<H>, c: Connection<H>, n: nat): Connection<H>
    requires n <= |c.buffer|
  {
    var request := c.buffer[..n];
    var (h, answer) := sv.handle(c.handler, request);
    Connection(h, c.buffer[n..], c.handled + [request], c.answers + [answer], sv.stops(answer))
  }

  /** Where the first complete request ends; 0 when there is none. */
  function RequestEnd(s: string, d: string): (n: nat)
    ensures n <= |s|
  {
    match Find(s, d, 0)
    case None => 0
    case Some(p) => p + |d|
  }

  /** The inner loop: serve complete requests until none is left or an answer stops the session. */
  function Drain<H>(sv: Service<H>, c: Connection<H>): Connection<H>
    requires sv.delimiter != ""
    decreases |c.buffer|
  {
    var n := RequestEnd(c.buffer, sv.delimiter);
    if c.stopped || n == 0 then c else Drain(sv, Served(sv, c, n))
  }

  function Append<H>(c: Connection<H>, text: string): Connection<H>
  {
    c.(buffer := c.buffer + text)
  }

  /** A stopped session posts no further read. */
  function Receive<H>(sv: Service<H>, c: Connection<H>, chunk: string): Connection<H>
    requires sv.delimiter != ""
  {
    if c.stopped then c else Drain(sv, Append(c, chunk))
  }

  function ReceiveAll<H>(sv: Service<H>, c: Connection<H>, chunks: seq<string>): Connection<H>
    requires sv.delimiter != ""
    decreases |chunks|
  {
    if chunks == [] then c else ReceiveAll(sv, Receive(sv, c, chunks[0]), chunks[1..])
  }

  // ------------------------------------------------------ independence of chunks

  /** A request that is complete stays the same when the text grows. */
  lemma RequestEndInLonger(s: string, d: string, t: string)
    requires d != "" && RequestEnd(s, d) > 0
    ensures RequestEnd(s + t, d) == RequestEnd(s, d)
  {
    var i := Find(s, d, 0).value;
    FindIsFirst(s, d, 0);
    FindIsFirst(s + t, d, 0);
    AtInLonger(s, d, t, i);
    AtInLonger(s, d, t, Find(s + t, d, 0).value);
  }

  lemma AtInLonger(s: string, d: string, t: string, j: nat)
    requires j + |d| <= |s|
    ensures At(s + t, d, j) <==> At(s, d, j)
  {
    assert (s + t)[0..|s|] == s;
    AtInSlice(s + t, d, 0, |s|, j);
  }

  lemma ServedAppend<H>(sv: Service<H>, c: Connection<H>, n: nat, t: string)
    requires n <= |c.buffer|
    ensures Served(sv, Append(c, t), n) == Append(Served(sv, c, n), t)
  {
    assert (c.buffer + t)[..n] == c.buffer[..n] && (c.buffer + t)[n..] == c.buffer[n..] + t;
  }

  /** Text that arrives later can as well be there from the start. */
  lemma {:induction false} DrainAppend<H>(sv: Service<H>, c: Connection<H>, t: string)
    requires sv.delimiter != ""
    requires !c.stopped
    ensures var d := Drain(sv, c);
      Drain(sv, Append(c, t)) == if d.stopped then Append(d, t) else Drain(sv, Append(d, t))
    decreases |c.buffer|
  {
    var n := RequestEnd(c.buffer, sv.delimiter);
    if n > 0 {
      var e := Served(sv, c, n);
      RequestEndInLonger(c.buffer, sv.delimiter, t);
      ServedAppend(sv, c, n, t);
      if !e.stopped { DrainAppend(sv, e, t); }
    }
  }

  /** Equal but for text that a stopped session has not read. */
  ghost predicate SameService<H>(c: Connection<H>, d: Connection<H>)
  {
    && c.handler == d.handler && c.handled == d.handled && c.answers == d.answers && c.stopped == d.stopped
    && (!c.stopped ==> c.buffer == d.buffer)
  }

  lemma {:induction false} StoppedForGood<H>(sv: Service<H>, c: Connection<H>, chunks: seq<string>)
    requires sv.delimiter != ""
    requires c.stopped
    ensures ReceiveAll(sv, c, chunks) == c
    decreases |chunks|
  {
    if chunks != [] { StoppedForGood(sv, c, chunks[1..]); }
  }

  lemma ReceiveTwice<H>(sv: Service<H>, c: Connection<H>, a: string, b: string)
    requires sv.delimiter != "" && !c.stopped
    ensures SameService(Receive(sv, Receive(sv, c, a), b), Receive(sv, c, a + b))
  {
    DrainAppend(sv, Append(c, a), b);
    AppendTwice(c, a, b);
  }

  lemma AppendTwice<H>(c: Connection<H>, a: string, b: string)
    ensures Append(Append(c, a), b) == Append(c, a + b)
  {
    assert (c.buffer + a) + b == c.buffer + (a + b);
  }

  lemma ReceiveNothing<H>(sv: Service<H>, c: Connection<H>)
    requires sv.delimiter != "" && Drain(sv, c) == c
    ensures Receive(sv, c, "") == c
  {
    assert Append(c, "") == c;
  }

  lemma {:induction false} ChunksAsOne<H>(sv: Service<H>, c: Connection<H>, chunks: seq<string>)
    requires sv.delimiter != ""
    requires !c.stopped && Drain(sv, c) == c
    ensures SameService(ReceiveAll(sv, c, chunks), Receive(sv, c, Flatten(chunks)))
    decreases |chunks|
  {
    if chunks == [] {
      ReceiveNothing(sv, c);
    } else {
      var d := Receive(sv, c, chunks[0]);
      ReceiveTwice(sv, c, chunks[0], Flatten(chunks[1..]));
      if d.stopped {
        StoppedForGood(sv, d, chunks[1..]);
      } else {
        DrainIsFinished(sv, Append(c, chunks[0]));
        ChunksAsOne(sv, d, chunks[1..]);
      }
    }
  }

  lemma {:induction false} DrainIsFinished<H>(sv: Service<H>, c: Connection<H>)
    requires sv.delimiter != ""
    ensures var d := Drain(sv, c); d.stopped || RequestEnd(d.buffer, sv.delimiter) == 0
    ensures Drain(sv, Drain(sv, c)) == Drain(sv, c)
    decreases |c.buffer|
  {
    var n := RequestEnd(c.buffer, sv.delimiter);
    if !c.stopped && n > 0 { DrainIsFinished(sv, Served(sv, c, n)); }
  }

  /** Any two ways of cutting the same bytes into reads have the same effect. */
  lemma ChunkingDoesNotMatter<H>(sv: Service<H>, h: H, chunks: seq<string>, others: seq<string>)
    requires sv.delimiter != ""
    requires Flatten(chunks) == Flatten(others)
    ensures SameService(ReceiveAll(sv, Fresh(h), chunks), ReceiveAll(sv, Fresh(h), others))
  {
    ChunksAsOne(sv, Fresh(h), chunks);
    ChunksAsOne(sv, Fresh(h), others);
  }

  /** What every served request keeps, the loop keeps. */
  lemma {:induction false} DrainKeeps<H(!new)>(sv: Service<H>, c: Connection<H>, inv: Connection<H> -> bool)
    requires sv.delimiter != "" && inv(c)
    requires forall d: Connection<H>, n: nat :: n <= |d.buffer| && !d.stopped && inv(d) ==> inv(Served(sv, d, n))
    ensures inv(Drain(sv, c))
    decreases |c.buffer|
  {
    var n := RequestEnd(c.buffer, sv.delimiter);
    if !c.stopped && n > 0 { DrainKeeps(sv, Served(sv, c, n), inv); }
  }

  // ------------------------------------------------------ what is handled of a stream

  /** The complete requests of a stream, delimiters included. */
  function Requests(s: string, d: string): seq<string>
    requires d != ""
  {
    var n := RequestEnd(s, d);
    if n == 0 then [] else [s[..n]] + Requests(s[n..], d)
  }

  /** The text ends with its first delimiter. */
  predicate EndsOnce(t: string, d: string)
  {
    |t| >= |d| && Find(t, d, 0) == Some(|t| - |d|)
  }

  lemma FirstRequestEndsOnce(s: string, d: string)
    requires d != "" && RequestEnd(s, d) > 0
    ensures EndsOnce(s[..RequestEnd(s, d)], d)
  {
    var n := RequestEnd(s, d);
    var t := s[..n];
    assert t == s[0..n];
    forall j: nat ensures At(t, d, j) <==> At(s, d, j) && j + |d| <= n {
      AtInSlice(s, d, 0, n, j);
    }
    FindIsFirst(s, d, 0);
    FindIsFirst(t, d, 0);
    assert At(t, d, n - |d|);
  }

  lemma {:induction false} RequestsEndOnce(s: string, d: string, i: nat)
    requires d != "" && i < |Requests(s, d)|
    ensures EndsOnce(Requests(s, d)[i], d)
  {
    var n := RequestEnd(s, d);
    if i == 0 {
      FirstRequestEndsOnce(s, d);
    } else {
      RequestsEndOnce(s[n..], d, i - 1);
    }
  }

  /** Whole messages, and a rest without a delimiter, are cut into just those messages. */
  lemma {:induction false} MessagesAreRecovered(messages: seq<string>, rest: string, d: string)
    requires d != "" && !Contains(rest, d)
    requires forall i :: 0 <= i < |messages| ==> EndsOnce(messages[i], d)
    ensures Requests(Flatten(messages) + rest, d) == messages
  {
    if messages == [] {
      NothingBefore(rest);
    } else {
      var others := Flatten(messages[1..]) + rest;
      MessagesAreRecovered(messages[1..], rest, d);
      FirstMessage(messages[0], others, d);
      FlattenHead(messages, rest);
      HeadAndTail(Requests(messages[0] + others, d), Requests(others, d), messages);
    }
  }

  lemma FlattenHead(messages: seq<string>, rest: string)
    requires messages != []
    ensures Flatten(messages) + rest == messages[0] + (Flatten(messages[1..]) + rest)
  {
  }

  lemma FirstMessage(m: string, others: string, d: string)
    requires d != "" && EndsOnce(m, d)
    ensures Requests(m + others, d) == [m] + Requests(others, d)
  {
    RequestEndInLonger(m, d, others);
    assert (m + others)[..|m|] == m && (m + others)[|m|..] == others;
  }

  /** Handling a list of requests one after the other: the handler afterwards, and every answer. */
  function Replay<H>(sv: Service<H>, h: H, requests: seq<string>): (H, seq<string>)
  {
    if requests == [] then (h, [])
    else
      var n := |requests| - 1;
      var (g, answers) := Replay(sv, h, requests[..n]);
      var (t, answer) := sv.handle(g, requests[n]);
      (t, answers + [answer])
  }

  lemma ReplayOneMore<H>(sv: Service<H>, h: H, requests: seq<string>, request: string)
    ensures var (g, answers) := Replay(sv, h, requests);
      var (t, answer) := sv.handle(g, request);
      Replay(sv, h, requests + [request]) == (t, answers + [answer])
  {
    assert (requests + [request])[..|requests|] == requests;
  }

  /** The loop answers each request as handling them one by one does. */
  lemma {:induction false} DrainReplays<H>(sv: Service<H>, h: H, c: Connection<H>)
    requires sv.delimiter != "" && (c.handler, c.answers) == Replay(sv, h, c.handled)
    ensures var d := Drain(sv, c); (d.handler, d.answers) == Replay(sv, h, d.handled)
    decreases |c.buffer|
  {
    var n := RequestEnd(c.buffer, sv.delimiter);
    if !c.stopped && n > 0 {
      ReplayOneMore(sv, h, c.handled, c.buffer[..n]);
      DrainReplays(sv, h, Served(sv, c, n));
    }
  }

  /** Every answer before the last lets the session go on; the last one decides. */
  ghost predicate StopsOnlyLast<H>(sv: Service<H>, c: Connection<H>)
  {
    && |c.handled| == |c.answers|
    && (c.stopped <==> c.answers != [] && sv.stops(c.answers[|c.answers| - 1]))
    && forall i :: 0 <= i < |c.answers| - 1 ==> !sv.stops(c.answers[i])
  }

  /** Requests handled, then requests still in the buffer: serving moves the border only. */
  lemma {:induction false} DrainKeepsRequests<H>(sv: Service<H>, c: Connection<H>)
    requires sv.delimiter != ""
    ensures var d := Drain(sv, c);
      d.handled + Requests(d.buffer, sv.delimiter) == c.handled + Requests(c.buffer, sv.delimiter)
    decreases |c.buffer|
  {
    var n := RequestEnd(c.buffer, sv.delimiter);
    if !c.stopped && n > 0 {
      DrainKeepsRequests(sv, Served(sv, c, n));
      MoveOne(c.handled, c.buffer[..n], Requests(c.buffer, sv.delimiter), Requests(c.buffer[n..], sv.delimiter));
    }
  }

  lemma {:induction false} DrainLosesNothing<H>(sv: Service<H>, c: Connection<H>)
    requires sv.delimiter != ""
    ensures Flatten(Drain(sv, c).handled) + Drain(sv, c).buffer == Flatten(c.handled) + c.buffer
    decreases |c.buffer|
  {
    var n := RequestEnd(c.buffer, sv.delimiter);
    if !c.stopped && n > 0 {
      DrainLosesNothing(sv, Served(sv, c, n));
      FlattenSnoc(c.handled, c.buffer[..n]);
      CutAndRest(Flatten(c.handled), c.buffer, n);
    }
  }

  lemma CutAndRest(a: string, b: string, n: nat)
    requires n <= |b|
    ensures (a + b[..n]) + b[n..] == a + b
  {
  }

  lemma {:induction false} DrainStopsOnlyLast<H>(sv: Service<H>, c: Connection<H>)
    requires sv.delimiter != ""
    requires StopsOnlyLast(sv, c)
    ensures StopsOnlyLast(sv, Drain(sv, c))
    decreases |c.buffer|
  {
    var n := RequestEnd(c.buffer, sv.delimiter);
    if !c.stopped && n > 0 { DrainStopsOnlyLast(sv, Served(sv, c, n)); }
  }

  /**
   * The requests handled are the first of the stream's complete requests, all of
   * them unless the answer to the last one is the first that stops the session;
   * each has its own answer; a session that goes on has handled or kept every byte.
   */
  ghost predicate ServedStream<H>(sv: Service<H>, h: H, c: Connection<H>, stream: string)
    requires sv.delimiter != ""
  {
    var q := Requests(stream, sv.delimiter);
    && |c.handled| <= |q| && c.handled == q[..|c.handled|]
    && (c.handler, c.answers) == Replay(sv, h, c.handled) && StopsOnlyLast(sv, c)
    && (!c.stopped ==>
          && |c.handled| == |q| && Flatten(c.handled) + c.buffer == stream
          && !Contains(c.buffer, sv.delimiter))
  }

  /** However the stream arrives. */
  lemma StreamIsServed<H>(sv: Service<H>, h: H, chunks: seq<string>)
    requires sv.delimiter != ""
    ensures ServedStream(sv, h, ReceiveAll(sv, Fresh(h), chunks), Flatten(chunks))
  {
    var whole := Append(Fresh(h), Flatten(chunks));
    ChunksAsOne(sv, Fresh(h), chunks);
    WholeStreamIsServed(sv, Append(Fresh(h), Flatten(chunks)));
    assert Append(Fresh(h), Flatten(chunks)).buffer == Flatten(chunks);
  }

  lemma WholeStreamIsServed<H>(sv: Service<H>, c: Connection<H>)
    requires sv.delimiter != "" && c.handled == [] && c.answers == [] && !c.stopped
    ensures ServedStream(sv, c.handler, Drain(sv, c), c.buffer)
  {
    DrainKeepsRequests(sv, c);
    DrainLosesNothing(sv, c);
    DrainReplays(sv, c.handler, c);
    DrainStopsOnlyLast(sv, c);
    DrainIsFinished(sv, c);
    var d, q := Drain(sv, c), Requests(c.buffer, sv.delimiter);
    NothingBefore(q);
    NothingBefore(c.buffer);
    PrefixOf(d.handled, Requests(d.buffer, sv.delimiter), q);
  }
}
