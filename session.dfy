/**
 * proxy_manager: one client session from the request line to the log
 * entry.  Name resolution and connect are given as the set of endpoints
 * that accept a connection; the origin connection object stands for the
 * server such a connect reaches.
 */
module Session {
  import opened Wrappers
  import opened Text
  import opened Headers
  import opened Net
  import opened Uri
  import opened Requests
  import opened Relay

  /** Where connect_to_server connects: the host name and the port text from parse_uri. */
  datatype Endpoint = Endpoint(host: string, port: string)

  /** The ways proxy_manager returns before connecting. */
  datatype SessionError =
    | RequestLineError           // end of input or fewer than three words
    | TargetError(e: UriError)   // parse_uri returned -1
    | HeadersTruncated           // the client's input ended before the blank line
    | ConnectFailed              // open_clientfd failed

  /** A request accepted from the client, with the header block the origin will get. */
  datatype Request = Request(line: RequestLine, target: Target, header: string, length: nat)

  /** What reading the request yields and how many client bytes it consumed. */
  datatype Parsed = Parsed(request: Result<Request, SessionError>, read: nat)

  /**
   * Lines 198-207 of proxy_manager: the request line, parse_uri, the
   * rewritten request line and the client's header block (content length
   * starting at 0).
   */
  function ReadRequest(input: string): (p: Parsed)
    ensures p.read <= |input|
  {
    var first := NextLine(input);
    if first == [] then Parsed(Failure(RequestLineError), 0)
    else
      var rl := SplitRequestLine(first);
      if rl.None? then Parsed(Failure(RequestLineError), |first|)
      else
        var t := Decompose(rl.value.uri);
        if t.Failure? then Parsed(Failure(TargetError(t.error)), |first|)
        else
          HeaderLinesPrefix(input[|first|..]);
          var h := HeaderLines(input[|first|..]);
          var b := Concat(h.lines);
          if !h.complete then Parsed(Failure(HeadersTruncated), |first| + |b|)
          else
            var header := RewriteRequestLine(rl.value, t.value.path) + b;
            Parsed(Success(Request(rl.value, t.value, header, LastLength(h.lines, 0))), |first| + |b|)
  }

  /** A request whose header block is cut short has consumed all the client sent. */
  lemma TruncatedRequestReadsAll(input: string)
    requires ReadRequest(input).request == Failure(HeadersTruncated)
    ensures ReadRequest(input).read == |input|
  {
    var first := NextLine(input);
    NextLineSplit(input);
    HeaderLinesPrefix(input[|first|..]);
  }

  /** The client side of proxy_manager, up to the connect. */
  method ReadClientRequest(conn: Socket) returns (r: Result<Request, SessionError>)
    modifies conn`unread
    ensures var p := ReadRequest(old(conn.unread));
      && r == p.request && conn.unread == old(conn.unread)[p.read..]
  {
    ghost var input := conn.unread;
    var rl := ParseRequestLine(conn);
    if rl.None? {
      return Failure(RequestLineError);
    }
    var t := ParseUri(rl.value.uri);
    if t.Failure? {
      return Failure(TargetError(t.error));
    }
    ghost var first := NextLine(input);
    ghost var rest := conn.unread;
    var header := RewriteRequestLine(rl.value, t.value.path);
    var n, header', length := ReadRequestHeaders(conn, header, 0);
    ghost var b := Concat(HeaderLines(rest).lines);
    assert input[|first| + |b|..] == conn.unread;
    if n == 0 {
      return Failure(HeadersTruncated);
    }
    return Success(Request(rl.value, t.value, header', length));
  }

  /**
   * Everything one session does: the error it stopped on (None once it
   * connected), the client bytes it read, what the origin received and
   * the room it has left, what is left of the origin's response, what the
   * client received and the room it has left, the log entries written,
   * and whether the origin connection was closed.
   */
  datatype Run = Run(
    error: Option<SessionError>,
    clientRead: nat,
    toOrigin: string, originRoom: nat,
    originRest: string,
    toClient: string, clientRoom: nat,
    logged: seq<LogEntry>,
    closed: bool)

  /**
   * proxy_manager over whole streams: `input` is what the client sends,
   * `response` what the origin sends, `originRoom` and `clientRoom` how
   * much each peer takes, `client` the client's printed address.
   */
  function Serve(input: string, reachable: set<Endpoint>, response: string, originRoom: nat, clientRoom: nat, client: string): Run
  {
    var p := ReadRequest(input);
    if p.request.Failure? then
      Run(Some(p.request.error), p.read, [], originRoom, response, [], clientRoom, [], false)
    else
      var r := p.request.value;
      if Endpoint(r.target.host, r.target.port) !in reachable then
        Run(Some(ConnectFailed), p.read, [], originRoom, response, [], clientRoom, [], false)
      else
        var s := SendSpec(r.header, r.line.httpMethod, r.length, input[p.read..], originRoom);
        var v := if s.ok then ReceiveSpec(response, clientRoom) else Receive(0, response, [], clientRoom);
        Run(None, p.read + s.read, s.delivered, s.room, v.rest, v.forwarded, v.room,
            [LogEntry(client, r.line.uri, v.total)], true)
  }

  /**
   * proxy_manager.  `conn` is the client connection, `origin` the
   * connection connect_to_server would open, `log` the shared log and
   * `client` the client's address as inet_ntop prints it.
   */
  method ProxyManager(conn: Socket, origin: Socket, reachable: set<Endpoint>, log: AccessLog, client: string)
    requires conn != origin
    modifies conn`unread, conn`sent, conn`room, origin`unread, origin`sent, origin`room, origin`open, log
    ensures var run := Serve(old(conn.unread), reachable, old(origin.unread), old(origin.room), old(conn.room), client);
      && run.clientRead <= |old(conn.unread)| && conn.unread == old(conn.unread)[run.clientRead..]
      && origin.sent == old(origin.sent) + run.toOrigin && origin.room == run.originRoom
      && origin.unread == run.originRest
      && conn.sent == old(conn.sent) + run.toClient && conn.room == run.clientRoom
      && log.entries == old(log.entries) + run.logged
      && origin.open == (old(origin.open) && !run.closed)
  {
    var req := ReadClientRequest(conn);
    if req.Failure? {
      assert old(origin.sent) + [] == old(origin.sent) && old(conn.sent) + [] == old(conn.sent);
      assert old(log.entries) + [] == old(log.entries);
      return;
    }
    var r := req.value;
    if Endpoint(r.target.host, r.target.port) !in reachable {
      assert old(origin.sent) + [] == old(origin.sent) && old(conn.sent) + [] == old(conn.sent);
      assert old(log.entries) + [] == old(log.entries);
      return;
    }
    var byteSize := 0;
    var sent := ProxySend(origin, conn, r.header, r.length, r.line.httpMethod);
    if sent {
      byteSize := ProxyReceive(conn, origin);
    } else {
      assert old(conn.sent) + [] == old(conn.sent);
    }
    log.Record(LogEntry(client, r.line.uri, byteSize));
    origin.Close();
  }

  /**
   * A session that stops before connecting sends nothing to anyone, leaves
   * the origin untouched and writes no log entry; one that connects writes
   * exactly one entry, for the client's request URI, and closes the origin.
   */
  lemma LoggedIffConnected(input: string, reachable: set<Endpoint>, response: string, originRoom: nat, clientRoom: nat, client: string)
    ensures var run := Serve(input, reachable, response, originRoom, clientRoom, client);
      && (run.error.Some? <==> run.logged == [])
      && (run.error.Some? ==>
            run.toOrigin == [] && run.toClient == [] && run.originRest == response && !run.closed
            && run.clientRead == ReadRequest(input).read)
      && (run.error.None? ==>
            |run.logged| == 1 && run.closed && run.logged[0].client == client
            && run.logged[0].uri == SplitRequestLine(NextLine(input)).value.uri)
  {
  }

  /** The byte count in the log never exceeds what the client received. */
  lemma LogNeverOverstates(input: string, reachable: set<Endpoint>, response: string, originRoom: nat, clientRoom: nat, client: string)
    ensures var run := Serve(input, reachable, response, originRoom, clientRoom, client);
      forall k :: 0 <= k < |run.logged| ==> run.logged[k].bytes <= |run.toClient|
  {
    ReceiveCountBound(response, clientRoom);
  }

  /**
   * Once connected, a failed proxy_send still closes the origin and logs
   * the request, with byte count 0; nothing of the response is read and
   * nothing reaches the client.
   */
  lemma SendFailureLogsZero(input: string, reachable: set<Endpoint>, response: string, originRoom: nat, clientRoom: nat, client: string)
    requires ReadRequest(input).request.Success?
    requires var r := ReadRequest(input).request.value; Endpoint(r.target.host, r.target.port) in reachable
    requires var p := ReadRequest(input); var r := p.request.value;
      !SendSpec(r.header, r.line.httpMethod, r.length, input[p.read..], originRoom).ok
    ensures var run := Serve(input, reachable, response, originRoom, clientRoom, client);
      && run.error == None && run.closed
      && run.logged == [LogEntry(client, ReadRequest(input).request.value.line.uri, 0)]
      && run.toClient == [] && run.originRest == response && run.clientRoom == clientRoom
  {
  }

  /** No white space anywhere in s. */
  predicate Unbroken(s: string) { forall i :: 0 <= i < |s| ==> NotSpace(s[i]) }

  /** An absolute-form target built from a host and a path without white space is one word. */
  lemma TargetIsWord(host: string, path: string)
    requires Unbroken(host) && Unbroken(path)
    ensures IsWord(Scheme + host + "/" + path)
  {
    var u := Scheme + host + "/" + path;
    var a := |Scheme| + |host|;
    assert forall i :: 0 <= i < |Scheme| ==> u[i] == Scheme[i];
    assert forall i :: |Scheme| <= i < a ==> u[i] == host[i - |Scheme|];
    assert u[a] == '/';
    assert forall i :: a < i < |u| ==> u[i] == path[i - a - 1];
  }

  /**
   * A request "METHOD http://host/path VERSION", header lines and a blank
   * line is read back exactly: its three words, the target with port "80",
   * the origin-form header block and the last Content-Length, and nothing
   * past the blank line is consumed.
   */
  lemma ReadRequestOf(m: string, host: string, path: string, v: string, hs: seq<string>, rest: string)
    requires IsWord(m) && IsWord(v) && IsHostName(host) && Unbroken(host) && Unbroken(path)
    requires forall i :: 0 <= i < |hs| ==> IsHeaderLine(hs[i])
    ensures var rl := RequestLine(m, Scheme + host + "/" + path, v);
      var line := m + " " + rl.uri + " " + v + "\r\n";
      var p := ReadRequest(line + Concat(hs) + "\r\n" + rest);
      && p.request.Success?
      && p.request.value == Request(rl, Target(host, DefaultPort, path),
                                    RewriteRequestLine(rl, path) + Concat(hs) + "\r\n", LastLength(hs + ["\r\n"], 0))
      && p.read == |line| + |Concat(hs)| + 2
  {
    var uri := Scheme + host + "/" + path;
    var rl := RequestLine(m, uri, v);
    var line := m + " " + uri + " " + v + "\r\n";
    var block := Concat(hs) + "\r\n" + rest;
    var input := line + Concat(hs) + "\r\n" + rest;
    assert input == line + block;
    TargetIsWord(host, path);
    WordsLine(m, uri, v);
    NextLineOf(line, block);
    SplitRequestLineOf(m, uri, v);
    DecomposeDefaultPort(host, path);
    assert input[|line|..] == block;
    HeaderLinesOf(hs, rest);
    ConcatSnoc(hs, "\r\n");
    AppendAssoc(RewriteRequestLine(rl, path), Concat(hs), "\r\n");
    assert NextLine(input) == line && SplitRequestLine(line) == Some(rl);
    assert Decompose(uri) == Success(Target(host, DefaultPort, path));
    assert HeaderLines(input[|line|..]) == HeaderBlock(hs + ["\r\n"], true);
  }

  /**
   * A GET for "http://host/path" to a reachable host with room for the
   * request: the origin receives the origin-form request and the client's
   * header block, no client byte after the blank line is read, the client
   * receives what proxy_receive relays from the origin, and the log
   * records the target with proxy_receive's count.
   */
  lemma GetServed(m: string, host: string, path: string, v: string, hs: seq<string>, rest: string,
                  reachable: set<Endpoint>, response: string, originRoom: nat, clientRoom: nat, client: string)
    requires IsGet(m) && IsWord(m) && IsWord(v) && IsHostName(host) && Unbroken(host) && Unbroken(path)
    requires forall i :: 0 <= i < |hs| ==> IsHeaderLine(hs[i])
    requires Endpoint(host, DefaultPort) in reachable
    requires |m| + |path| + |v| + 5 + |Concat(hs)| + 2 <= originRoom
    ensures var uri := Scheme + host + "/" + path;
      var line := m + " " + uri + " " + v + "\r\n";
      var run := Serve(line + Concat(hs) + "\r\n" + rest, reachable, response, originRoom, clientRoom, client);
      var w := ReceiveSpec(response, clientRoom);
      && run.error == None
      && run.clientRead == |line| + |Concat(hs)| + 2
      && run.toOrigin == m + " /" + path + " " + v + "\r\n" + Concat(hs) + "\r\n"
      && run.toClient == w.forwarded && run.originRest == w.rest && run.clientRoom == w.room
      && run.logged == [LogEntry(client, uri, w.total)]
  {
    var uri := Scheme + host + "/" + path;
    var rl := RequestLine(m, uri, v);
    var line := m + " " + uri + " " + v + "\r\n";
    var input := line + Concat(hs) + "\r\n" + rest;
    ReadRequestOf(m, host, path, v, hs, rest);
    var p := ReadRequest(input);
    var header := RewriteRequestLine(rl, path) + Concat(hs) + "\r\n";
    var req := Request(rl, Target(host, DefaultPort, path), header, LastLength(hs + ["\r\n"], 0));
    assert p.request == Success(req);
    assert |header| == |m| + |path| + |v| + 5 + |Concat(hs)| + 2;
    var s := SendSpec(header, m, req.length, input[p.read..], originRoom);
    assert s.ok && s.delivered == header && s.read == 0;
    var w := ReceiveSpec(response, clientRoom);
    var run := Serve(input, reachable, response, originRoom, clientRoom, client);
    assert run.error == None && run.clientRead == p.read && run.toOrigin == header;
    assert run.toClient == w.forwarded && run.originRest == w.rest && run.clientRoom == w.room;
    assert run.logged == [LogEntry(client, uri, w.total)];
  }

  /**
   * The GET of GetServed answered with header lines, a blank line and a
   * body of the declared length, with room at the client: the client
   * receives the response verbatim, whatever follows it stays unread, and
   * the log records exactly the number of bytes the client received.
   */
  lemma GetExchange(m: string, host: string, path: string, v: string, hs: seq<string>, rest: string,
                    reachable: set<Endpoint>, rs: seq<string>, body: string, tail: string,
                    originRoom: nat, clientRoom: nat, client: string)
    requires IsGet(m) && IsWord(m) && IsWord(v) && IsHostName(host) && Unbroken(host) && Unbroken(path)
    requires forall i :: 0 <= i < |hs| ==> IsHeaderLine(hs[i])
    requires Endpoint(host, DefaultPort) in reachable
    requires |m| + |path| + |v| + 5 + |Concat(hs)| + 2 <= originRoom
    requires forall i :: 0 <= i < |rs| ==> IsHeaderLine(rs[i])
    requires |body| == LastLength(rs + ["\r\n"], 0)
    requires |Concat(rs)| + 2 + |body| <= clientRoom
    ensures var uri := Scheme + host + "/" + path;
      var line := m + " " + uri + " " + v + "\r\n";
      var head := Concat(rs) + "\r\n";
      var run := Serve(line + Concat(hs) + "\r\n" + rest, reachable, head + body + tail, originRoom, clientRoom, client);
      && run.toClient == head + body
      && run.originRest == tail
      && run.logged == [LogEntry(client, uri, |run.toClient|)]
  {
    var head := Concat(rs) + "\r\n";
    var uri := Scheme + host + "/" + path;
    var input := m + " " + uri + " " + v + "\r\n" + Concat(hs) + "\r\n" + rest;
    var response := head + body + tail;
    GetServed(m, host, path, v, hs, rest, reachable, response, originRoom, clientRoom, client);
    ResponseRelayedVerbatim(rs, body, tail, clientRoom);
    var w := ReceiveSpec(response, clientRoom);
    assert w.forwarded == head + body && w.rest == tail && w.total == |head| + |body|;
    var run := Serve(input, reachable, response, originRoom, clientRoom, client);
    assert run.toClient == w.forwarded && run.originRest == w.rest;
    assert run.logged == [LogEntry(client, uri, w.total)];
    assert |run.toClient| == w.total;
  }

  /**
   * A request other than GET whose headers declare the length of the body
   * that follows: the origin receives the origin-form request, the header
   * block and exactly that body, and the client's input is read up to the
   * end of the body and no further.
   */
  lemma BodyForwarded(m: string, host: string, path: string, v: string, hs: seq<string>,
                      payload: string, rest: string, reachable: set<Endpoint>, response: string,
                      originRoom: nat, clientRoom: nat, client: string)
    requires !IsGet(m) && IsWord(m) && IsWord(v) && IsHostName(host) && Unbroken(host) && Unbroken(path)
    requires forall i :: 0 <= i < |hs| ==> IsHeaderLine(hs[i])
    requires |payload| == LastLength(hs + ["\r\n"], 0)
    requires Endpoint(host, DefaultPort) in reachable
    requires |m| + |path| + |v| + 5 + |Concat(hs)| + 2 + |payload| <= originRoom
    ensures var line := m + " " + Scheme + host + "/" + path + " " + v + "\r\n";
      var run := Serve(line + Concat(hs) + "\r\n" + (payload + rest), reachable, response, originRoom, clientRoom, client);
      && run.error == None
      && run.clientRead == |line| + |Concat(hs)| + 2 + |payload|
      && run.toOrigin == m + " /" + path + " " + v + "\r\n" + Concat(hs) + "\r\n" + payload
  {
    var uri := Scheme + host + "/" + path;
    var rl := RequestLine(m, uri, v);
    var line := m + " " + uri + " " + v + "\r\n";
    assert line == m + " " + Scheme + host + "/" + path + " " + v + "\r\n";
    var input := line + Concat(hs) + "\r\n" + (payload + rest);
    ReadRequestOf(m, host, path, v, hs, payload + rest);
    var p := ReadRequest(input);
    var header := RewriteRequestLine(rl, path) + Concat(hs) + "\r\n";
    var req := Request(rl, Target(host, DefaultPort, path), header, LastLength(hs + ["\r\n"], 0));
    assert p.request == Success(req);
    assert |header| == |m| + |path| + |v| + 5 + |Concat(hs)| + 2;
    assert input[p.read..] == payload + rest;
    assert (payload + rest)[..|payload|] == payload;
    var s := SendSpec(header, m, req.length, input[p.read..], originRoom);
    assert s.ok && s.delivered == header + payload && s.read == |payload|;
    var run := Serve(input, reachable, response, originRoom, clientRoom, client);
    assert run.error == None;
    assert run.clientRead == p.read + |payload|;
    assert run.toOrigin == header + payload;
  }
}
