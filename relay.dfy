/**
 * The byte relays of a session: proxy_send (header block, then the request
 * body for methods other than GET), read_response_headers,
 * read_response_body and proxy_receive.  Bodies are framed by their
 * declared length (section 3.3.2 of RFC 7230).
 */
module Relay {
  import opened Text
  import opened Headers
  import opened Net

  function Min(a: nat, b: nat): nat { if a <= b then a else b }

  /**
   * The outcome of copying `count` bytes one at a time from an input to a
   * peer that takes `room` more bytes: how many bytes were read, how many
   * were delivered, and whether the whole count went through.
   */
  datatype Copy = Copy(read: nat, moved: nat, ok: bool)

  /**
   * Each step reads a byte and then writes it, so the copy stops at the
   * first missing input byte or the first refused write; a refused write
   * has already consumed the byte it was carrying.
   */
  function CopySpec(input: string, room: nat, count: nat): (c: Copy)
    ensures c.ok <==> count <= |input| && count <= room
    ensures c.ok ==> c.moved == count && c.read == count
    ensures c.moved <= count && c.moved <= room && c.moved <= c.read <= |input|
    ensures c.read == c.moved + 1 <==> room < count && room < |input|
  {
    var moved := Min(count, Min(|input|, room));
    Copy(if moved < count && moved < |input| then moved + 1 else moved, moved, moved == count)
  }

  /**
   * The byte-copy loop of proxy_send and read_response_body: move exactly
   * `count` bytes, in order, from `src` to `dst`; false on a short read or
   * a failed write.
   */
  method RelayExactly(src: Socket, dst: Socket, count: nat) returns (ok: bool)
    requires src != dst
    modifies src`unread, dst`sent, dst`room
    ensures var c := CopySpec(old(src.unread), old(dst.room), count);
      && ok == c.ok
      && src.unread == old(src.unread)[c.read..]
      && dst.sent == old(dst.sent) + old(src.unread)[..c.moved]
      && dst.room == old(dst.room) - c.moved
  {
    var i := 0;
    while i < count
      invariant i <= count && i <= |old(src.unread)| && i <= old(dst.room)
      invariant src.unread == old(src.unread)[i..]
      invariant dst.sent == old(dst.sent) + old(src.unread)[..i]
      invariant dst.room == old(dst.room) - i
    {
      var got, b := src.ReadByte();
      if !got {
        return false;
      }
      var written := dst.Write([b]);
      if !written {
        return false;
      }
      assert old(src.unread)[..i + 1] == old(src.unread)[..i] + [b];
      AppendAssoc(old(dst.sent), old(src.unread)[..i], [b]);
      i := i + 1;
    }
    return true;
  }

  /** What proxy_send does to the origin and to the client's input. */
  datatype Send = Send(ok: bool, read: nat, delivered: string, room: nat)

  predicate IsGet(verb: string) { EqualsIgnoreCase(verb, "GET") }

  /**
   * proxy_send: one write of the whole header block, then, unless the
   * method is GET (in any case), exactly `length` body bytes from the
   * client.  The origin only ever receives a prefix of header + body.
   */
  function SendSpec(header: string, verb: string, length: nat, input: string, room: nat): (s: Send)
    ensures s.ok <==> |header| <= room && (IsGet(verb) || (length <= |input| && |header| + length <= room))
    ensures IsGet(verb) ==> s.read == 0
    ensures s.ok && IsGet(verb) ==> s.delivered == header
    ensures s.ok && !IsGet(verb) ==> s.delivered == header + input[..length] && s.read == length
    ensures s.read <= |input| && |s.delivered| <= |header| + |input|
    ensures s.delivered == (header + input)[..|s.delivered|]
  {
    if room < |header| then Send(false, 0, header[..room], 0)
    else if IsGet(verb) then Send(true, 0, header, room - |header|)
    else
      var c := CopySpec(input, room - |header|, length);
      assert (header + input)[..|header| + c.moved] == header + input[..c.moved];
      Send(c.ok, c.read, header + input[..c.moved], room - |header| - c.moved)
  }

  /** proxy_send; `ok` stands for the return value 0 and its negation for -1. */
  method ProxySend(origin: Socket, conn: Socket, header: string, length: nat, verb: string)
    returns (ok: bool)
    requires origin != conn
    modifies origin`sent, origin`room, conn`unread
    ensures var s := SendSpec(header, verb, length, old(conn.unread), old(origin.room));
      && ok == s.ok
      && origin.sent == old(origin.sent) + s.delivered && origin.room == s.room
      && conn.unread == old(conn.unread)[s.read..]
  {
    var written := origin.Write(header);
    if !written {
      return false;
    }
    if !IsGet(verb) {
      ok := RelayExactly(conn, origin, length);
    } else {
      ok := true;
    }
  }

  /**
   * The state of read_response_headers between two lines: the origin's
   * unread input, the client's remaining room, the bytes forwarded to the
   * client, the content length and the byte count.
   */
  datatype HeaderRelay = HeaderRelay(rest: string, room: nat, forwarded: string, length: nat, total: nat)

  /**
   * One turn of the loop: read a line, pick up Content-Length, forward the
   * line; a write the client refuses delivers what fitted and zeroes the
   * count, which is what the function then returns.
   */
  function RelayTurn(s: HeaderRelay): HeaderRelay
    requires s.rest != []
  {
    var line := NextLine(s.rest);
    var length := UpdateLength(line, s.length);
    if s.room < |line| then HeaderRelay(s.rest[|line|..], 0, s.forwarded + line[..s.room], length, 0)
    else HeaderRelay(s.rest[|line|..], s.room - |line|, s.forwarded + line, length, s.total + |line|)
  }

  /**
   * The loop of read_response_headers: turns until a refused write, the
   * blank line, or the end of the origin's input.
   */
  function RelayHeaders(s: HeaderRelay): HeaderRelay
    decreases |s.rest|
  {
    if s.rest == [] then s
    else
      var line := NextLine(s.rest);
      if s.room < |line| || IsBlankLine(line) then RelayTurn(s) else RelayHeaders(RelayTurn(s))
  }

  /**
   * When the client takes the whole header block the origin sent, the
   * relay forwards the block verbatim, counts it byte for byte, keeps its
   * last parseable Content-Length and leaves what follows unread.
   */
  lemma {:induction false} RelayHeadersWholeBlock(s: HeaderRelay)
    requires |Concat(HeaderLines(s.rest).lines)| <= s.room
    ensures var h := HeaderLines(s.rest); var b := Concat(h.lines); var r := RelayHeaders(s);
      && |b| <= |s.rest| && r.rest == s.rest[|b|..] && r.forwarded == s.forwarded + b
      && r.room == s.room - |b| && r.total == s.total + |b| && r.length == LastLength(h.lines, s.length)
    decreases |s.rest|
  {
    if s.rest == [] {
      assert s.forwarded + [] == s.forwarded;
    } else {
      HeaderLinesStep(s.rest);
      var h := HeaderLines(s.rest);
      var line := NextLine(s.rest);
      var t := s.rest[|line|..];
      var s' := RelayTurn(s);
      assert s'.rest == t && s'.room == s.room - |line| && s'.forwarded == s.forwarded + line;
      assert s'.length == UpdateLength(line, s.length) && s'.total == s.total + |line|;
      if IsBlankLine(line) {
        assert RelayHeaders(s) == s';
        assert h.lines[1..] == [];
      } else {
        assert RelayHeaders(s) == RelayHeaders(s');
        RelayHeadersWholeBlock(s');
        var b' := Concat(HeaderLines(t).lines);
        assert t[|b'|..] == s.rest[|line + b'|..];
        AppendAssoc(s.forwarded, line, b');
      }
    }
  }

  /**
   * When the client refuses part of the header block, it gets the part
   * that fitted, the count is 0, and more was read than delivered but
   * nothing past the block.
   */
  lemma {:induction false} RelayHeadersRefused(s: HeaderRelay)
    requires s.room < |Concat(HeaderLines(s.rest).lines)|
    ensures var b := Concat(HeaderLines(s.rest).lines); var r := RelayHeaders(s);
      && r.forwarded == s.forwarded + b[..s.room] && r.total == 0 && r.room == 0
      && |s.rest| - |b| <= |r.rest| < |s.rest| - s.room
    decreases |s.rest|
  {
    HeaderLinesPrefix(s.rest);
    HeaderLinesStep(s.rest);
    var b := Concat(HeaderLines(s.rest).lines);
    var line := NextLine(s.rest);
    var t := s.rest[|line|..];
    var s' := RelayTurn(s);
    assert s'.rest == t;
    if s.room < |line| {
      assert RelayHeaders(s) == s';
      assert s'.forwarded == s.forwarded + line[..s.room] && s'.total == 0 && s'.room == 0;
      assert b[..s.room] == line[..s.room];
    } else {
      assert !IsBlankLine(line);
      var b' := Concat(HeaderLines(t).lines);
      assert s'.room == s.room - |line| && s'.forwarded == s.forwarded + line;
      assert RelayHeaders(s) == RelayHeaders(s');
      RelayHeadersRefused(s');
      assert b[..s.room] == line + b'[..s.room - |line|];
      AppendAssoc(s.forwarded, line, b'[..s.room - |line|]);
    }
  }

  /**
   * read_response_headers; returns the byte count and the content length,
   * leaving the origin's input after the last line read.
   */
  method ReadResponseHeaders(origin: Socket, conn: Socket, length: nat) returns (total: nat, length': nat)
    requires origin != conn
    modifies origin`unread, conn`sent, conn`room
    ensures var r := RelayHeaders(HeaderRelay(old(origin.unread), old(conn.room), [], length, 0));
      && origin.unread == r.rest && conn.room == r.room
      && conn.sent == old(conn.sent) + r.forwarded
      && length' == r.length && total == r.total
  {
    ghost var s := HeaderRelay(origin.unread, conn.room, [], length, 0);
    ghost var r0 := RelayHeaders(s);
    assert conn.sent == conn.sent + [];
    total, length' := 0, length;
    var line := origin.ReadLine();
    while line != []
      invariant line == NextLine(s.rest) && origin.unread == s.rest[|line|..]
      invariant conn.sent == old(conn.sent) + s.forwarded && conn.room == s.room
      invariant length' == s.length && total == s.total
      invariant RelayHeaders(s) == r0
      decreases |s.rest|
    {
      total := total + |line|;
      var parsed := ContentLengthOf(line);
      if parsed.Some? {
        length' := parsed.value;
      }
      ghost var room := conn.room;
      var written := conn.Write(line);
      if !written {
        AppendAssoc(old(conn.sent), s.forwarded, line[..room]);
        s := RelayTurn(s);
        return 0, length';
      }
      AppendAssoc(old(conn.sent), s.forwarded, line);
      s := RelayTurn(s);
      if IsBlankLine(line) {
        return;
      }
      line := origin.ReadLine();
    }
  }

  /** read_response_body: the content length when every byte went through, 0 otherwise. */
  method ReadResponseBody(origin: Socket, conn: Socket, length: nat) returns (n: nat)
    requires origin != conn
    modifies origin`unread, conn`sent, conn`room
    ensures var c := CopySpec(old(origin.unread), old(conn.room), length);
      && n == (if c.ok then length else 0)
      && origin.unread == old(origin.unread)[c.read..]
      && conn.sent == old(conn.sent) + old(origin.unread)[..c.moved]
      && conn.room == old(conn.room) - c.moved
  {
    var ok := RelayExactly(origin, conn, length);
    n := if ok then length else 0;
  }

  /** What proxy_receive returns and leaves on both connections. */
  datatype Receive = Receive(total: nat, rest: string, forwarded: string, room: nat)

  /**
   * proxy_receive: 0 when the header relay returned 0; otherwise the header
   * count plus the body result, which is the content length or 0.
   */
  function ReceiveSpec(input: string, room: nat): Receive
  {
    var h := RelayHeaders(HeaderRelay(input, room, [], 0, 0));
    if h.total == 0 then Receive(0, h.rest, h.forwarded, h.room)
    else
      var c := CopySpec(h.rest, h.room, h.length);
      Receive(h.total + (if c.ok then h.length else 0), h.rest[c.read..], h.forwarded + h.rest[..c.moved], h.room - c.moved)
  }

  method ProxyReceive(conn: Socket, origin: Socket) returns (total: nat)
    requires conn != origin
    modifies conn`sent, conn`room, origin`unread
    ensures var v := ReceiveSpec(old(origin.unread), old(conn.room));
      && total == v.total && origin.unread == v.rest
      && conn.sent == old(conn.sent) + v.forwarded && conn.room == v.room
  {
    var n, length := ReadResponseHeaders(origin, conn, 0);
    if n == 0 {
      return 0;
    }
    ghost var h := RelayHeaders(HeaderRelay(old(origin.unread), old(conn.room), [], 0, 0));
    var body := ReadResponseBody(origin, conn, length);
    AppendAssoc(old(conn.sent), h.forwarded, h.rest[..CopySpec(h.rest, h.room, h.length).moved]);
    total := n + body;
  }

  /**
   * A response written as header lines, "\r\n" and a body of the declared
   * length reaches a client with room for it verbatim, the count is the
   * header bytes plus the body length, and what follows stays unread.
   */
  lemma ResponseRelayedVerbatim(hs: seq<string>, body: string, tail: string, room: nat)
    requires forall i :: 0 <= i < |hs| ==> IsHeaderLine(hs[i])
    requires |body| == LastLength(hs + ["\r\n"], 0)
    requires |Concat(hs)| + 2 + |body| <= room
    ensures var head := Concat(hs) + "\r\n";
      ReceiveSpec(head + body + tail, room)
        == Receive(|head| + |body|, tail, head + body, room - |head| - |body|)
  {
    var head := Concat(hs) + "\r\n";
    var input := head + body + tail;
    HeaderLinesOf(hs, body + tail);
    AppendAssoc(head, body, tail);
    ConcatSnoc(hs, "\r\n");
    RelayHeadersWholeBlock(HeaderRelay(input, room, [], 0, 0));
    assert input[|head|..] == body + tail;
    assert (body + tail)[..|body|] == body;
    assert (body + tail)[|body|..] == tail;
    assert [] + head == head;
  }

  lemma {:induction false} ConcatSnoc(ls: seq<string>, x: string)
    ensures Concat(ls + [x]) == Concat(ls) + x
  {
    if ls == [] {
      assert [] + [x] == [x];
      assert Concat([x]) == x + [];
    } else {
      assert (ls + [x])[1..] == ls[1..] + [x];
      ConcatSnoc(ls[1..], x);
      AppendAssoc(ls[0], Concat(ls[1..]), x);
    }
  }

  /**
   * An origin that closes before the blank line is not treated as a failure:
   * the client gets everything and the count is the bytes relayed.
   */
  lemma ReceiveUnterminatedHeaders(input: string, room: nat)
    requires input != [] && !HeaderLines(input).complete && |input| <= room
    ensures var v := ReceiveSpec(input, room);
      v.total == |input| && v.rest == [] && v.forwarded == input && v.room == room - |input|
  {
    HeaderLinesPrefix(input);
    assert [] + input == input;
    RelayHeadersWholeBlock(HeaderRelay(input, room, [], 0, 0));
    ReceiveAtEnd(input, room);
  }

  /** Once the header relay has drained the input, the body copy adds nothing. */
  lemma ReceiveAtEnd(input: string, room: nat)
    requires var h := RelayHeaders(HeaderRelay(input, room, [], 0, 0)); h.rest == [] && h.total != 0
    ensures var h := RelayHeaders(HeaderRelay(input, room, [], 0, 0)); var v := ReceiveSpec(input, room);
      v.total == h.total && v.rest == [] && v.forwarded == h.forwarded && v.room == h.room
  {
    var h := RelayHeaders(HeaderRelay(input, room, [], 0, 0));
    assert h.rest[..0] == [] && h.forwarded + [] == h.forwarded;
  }

  /** The header count is either 0 or exactly the number of bytes forwarded on the way. */
  lemma {:induction false} RelayHeadersCount(s: HeaderRelay)
    ensures var r := RelayHeaders(s);
      r.total == 0 || (|s.forwarded| <= |r.forwarded| && r.total == s.total + (|r.forwarded| - |s.forwarded|))
    decreases |s.rest|
  {
    if s.rest != [] {
      var line := NextLine(s.rest);
      var s' := RelayTurn(s);
      if s.room < |line| {
        assert RelayHeaders(s) == s';
      } else {
        assert s'.forwarded == s.forwarded + line && s'.total == s.total + |line|;
        if IsBlankLine(line) {
          assert RelayHeaders(s) == s';
        } else {
          assert RelayHeaders(s) == RelayHeaders(s');
          RelayHeadersCount(s');
        }
      }
    }
  }

  /** The count proxy_receive returns never exceeds the bytes the client actually received. */
  lemma ReceiveCountBound(input: string, room: nat)
    ensures ReceiveSpec(input, room).total <= |ReceiveSpec(input, room).forwarded|
  {
    RelayHeadersCount(HeaderRelay(input, room, [], 0, 0));
  }

  /** The header count is 0 exactly when the origin sent nothing or the client refused part of the header block. */
  lemma ReceiveNothing(input: string, room: nat)
    ensures var b := Concat(HeaderLines(input).lines);
      ReceiveSpec(input, room).total == 0 <==> input == [] || room < |b|
  {
    HeaderLinesEnd(input);
    var h := HeaderLines(input);
    if room < |Concat(h.lines)| {
      RelayHeadersRefused(HeaderRelay(input, room, [], 0, 0));
    } else {
      RelayHeadersWholeBlock(HeaderRelay(input, room, [], 0, 0));
    }
    if input != [] {
      assert h.lines != [] && h.lines[0] != [];
      assert Concat(h.lines) == h.lines[0] + Concat(h.lines[1..]);
    }
  }
}
