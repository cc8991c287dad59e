/**
 * The client side of a session: parse_request_line, the origin-form
 * rewrite of the request line, and read_request_headers.
 */
module Requests {
  import opened Wrappers
  import opened Text
  import opened Headers
  import opened Net

  datatype RequestLine = RequestLine(httpMethod: string, uri: string, version: string)

  /**
   * The white-space separated words of a line from index `from` on, as
   * successive "%s" conversions see them.
   */
  function TokensFrom(s: string, from: nat): seq<string>
    requires from <= |s|
    decreases |s| - from
  {
    var i := Find(s, from, NonSpace);
    if i == |s| then []
    else
      var j := Find(s, i, Space);
      [s[i..j]] + TokensFrom(s, j)
  }

  function Tokens(s: string): seq<string> { TokensFrom(s, 0) }

  /**
   * sscanf(line, "%s %s %s", ...) < 3 rejects the line; a line with more
   * than three words is accepted and the extra words are ignored.
   */
  function SplitRequestLine(line: string): Option<RequestLine>
  {
    var ts := Tokens(line);
    if |ts| < 3 then None else Some(RequestLine(ts[0], ts[1], ts[2]))
  }

  /** Every token is a word: non-empty and free of white space. */
  lemma {:induction false} TokensAreWords(s: string, from: nat)
    requires from <= |s|
    ensures forall k :: 0 <= k < |TokensFrom(s, from)| ==> IsWord(TokensFrom(s, from)[k])
    decreases |s| - from
  {
    var i := Find(s, from, NonSpace);
    if i < |s| {
      var j := Find(s, i, Space);
      TokensAreWords(s, j);
      var t := s[i..j];
      assert forall m :: 0 <= m < |t| ==> t[m] == s[i + m];
      var ts := TokensFrom(s, from);
      assert ts == [t] + TokensFrom(s, j);
      forall k | 0 <= k < |ts|
        ensures IsWord(ts[k])
      {
        if k > 0 {
          assert ts[k] == TokensFrom(s, j)[k - 1];
        }
      }
    }
  }

  /** The fields of a request line that splits are words. */
  lemma SplitRequestLineWords(line: string)
    requires SplitRequestLine(line).Some?
    ensures var rl := SplitRequestLine(line).value;
      IsWord(rl.httpMethod) && IsWord(rl.uri) && IsWord(rl.version)
  {
    TokensAreWords(line, 0);
    var ts := TokensFrom(line, 0);
    assert IsWord(ts[0]);
    assert IsWord(ts[1]);
    assert IsWord(ts[2]);
  }

  /** A word at `from`, ended by white space or by the end of the line, is the next token. */
  lemma WordAt(s: string, from: nat, k: nat)
    requires from < k <= |s|
    requires forall i :: from <= i < k ==> NotSpace(s[i])
    requires k < |s| ==> IsSpace(s[k])
    ensures TokensFrom(s, from) == [s[from..k]] + TokensFrom(s, k)
  {
    FindIs(s, from, NonSpace, from);
    FindIs(s, from, Space, k);
  }

  /** White space between `from` and `k` yields no token. */
  lemma SpacesAt(s: string, from: nat, k: nat)
    requires from <= k <= |s|
    requires forall i :: from <= i < k ==> IsSpace(s[i])
    ensures TokensFrom(s, from) == TokensFrom(s, k)
  {
    var i := Find(s, k, NonSpace);
    FindIs(s, from, NonSpace, i);
  }

  /** A word at `from` followed by one white-space character is the next token. */
  lemma WordThenSpace(s: string, from: nat, k: nat)
    requires from < k < |s|
    requires forall i :: from <= i < k ==> NotSpace(s[i])
    requires IsSpace(s[k])
    ensures TokensFrom(s, from) == [s[from..k]] + TokensFrom(s, k + 1)
  {
    WordAt(s, from, k);
    SpacesAt(s, k, k + 1);
  }

  /** Two trailing white-space characters end the token list. */
  lemma TrailingSpaces(s: string, c: nat)
    requires |s| == c + 2 && IsSpace(s[c]) && IsSpace(s[c + 1])
    ensures TokensFrom(s, c) == []
  {
    SpacesAt(s, c, c + 2);
  }

  /** Three words separated by single blanks and ended by CR LF are the whole token list. */
  lemma ThreeWordsAt(line: string, a: nat, b: nat, c: nat)
    requires 0 < a && a + 1 < b && b + 1 < c && |line| == c + 2
    requires forall i :: 0 <= i < a ==> NotSpace(line[i])
    requires forall i :: a < i < b ==> NotSpace(line[i])
    requires forall i :: b < i < c ==> NotSpace(line[i])
    requires IsSpace(line[a]) && IsSpace(line[b]) && IsSpace(line[c]) && IsSpace(line[c + 1])
    ensures Tokens(line) == [line[..a], line[a + 1..b], line[b + 1..c]]
  {
    var x, y, z := line[..a], line[a + 1..b], line[b + 1..c];
    TrailingSpaces(line, c);
    WordThenSpace(line, b + 1, c);
    assert TokensFrom(line, b + 1) == [z] + [] == [z];
    WordThenSpace(line, a + 1, b);
    assert TokensFrom(line, a + 1) == [y] + [z] == [y, z];
    WordThenSpace(line, 0, a);
    assert line[0..a] == x;
    assert TokensFrom(line, 0) == [x] + [y, z] == [x, y, z];
  }

  /** Two words separated by a blank and ended by CR LF give two tokens. */
  lemma TwoWordsAt(line: string, a: nat, b: nat)
    requires 0 < a && a + 1 < b && |line| == b + 2
    requires forall i :: 0 <= i < a ==> NotSpace(line[i])
    requires forall i :: a < i < b ==> NotSpace(line[i])
    requires IsSpace(line[a]) && IsSpace(line[b]) && IsSpace(line[b + 1])
    ensures |Tokens(line)| == 2
  {
    TrailingSpaces(line, b);
    WordThenSpace(line, a + 1, b);
    WordThenSpace(line, 0, a);
  }

  /** A request line written as "METHOD SP URI SP VERSION CRLF" splits back into its three words. */
  lemma SplitRequestLineOf(m: string, u: string, v: string)
    requires IsWord(m) && IsWord(u) && IsWord(v)
    ensures SplitRequestLine(m + " " + u + " " + v + "\r\n") == Some(RequestLine(m, u, v))
  {
    var line := m + " " + u + " " + v + "\r\n";
    var a, b := |m|, |m| + 1 + |u|;
    var c := b + 1 + |v|;
    assert forall i :: 0 <= i < a ==> line[i] == m[i];
    assert forall i :: a < i < b ==> line[i] == u[i - a - 1];
    assert forall i :: b < i < c ==> line[i] == v[i - b - 1];
    assert line[..a] == m && line[a + 1..b] == u && line[b + 1..c] == v;
    ThreeWordsAt(line, a, b, c);
  }

  /** A line of fewer than three words is refused. */
  lemma TwoWordsRefused(m: string, u: string)
    requires IsWord(m) && IsWord(u)
    ensures SplitRequestLine(m + " " + u + "\r\n") == None
  {
    var line := m + " " + u + "\r\n";
    var a, b := |m|, |m| + 1 + |u|;
    assert forall i :: 0 <= i < a ==> line[i] == m[i];
    assert forall i :: a < i < b ==> line[i] == u[i - a - 1];
    TwoWordsAt(line, a, b);
  }

  /** parse_request_line: read one line from the client and split it. */
  method ParseRequestLine(conn: Socket) returns (r: Option<RequestLine>)
    modifies conn`unread
    ensures var line := NextLine(old(conn.unread));
      && conn.unread == old(conn.unread)[|line|..]
      && r == (if line == [] then None else SplitRequestLine(line))
  {
    var line := conn.ReadLine();
    if line == [] {
      return None;
    }
    r := SplitRequestLine(line);
  }

  /** The origin-form request line sent upstream: "METHOD /path VERSION\r\n". */
  function RewriteRequestLine(rl: RequestLine, path: string): string
  {
    rl.httpMethod + " /" + path + " " + rl.version + "\r\n"
  }

  /**
   * The rewritten line is one line, and the origin splits it into the
   * client's method, "/" + path and the client's version.
   */
  lemma RewriteRequestLineSplits(rl: RequestLine, path: string)
    requires IsWord(rl.httpMethod) && IsWord(rl.version)
    requires forall i :: 0 <= i < |path| ==> NotSpace(path[i])
    ensures IsLine(RewriteRequestLine(rl, path))
    ensures SplitRequestLine(RewriteRequestLine(rl, path)) == Some(RequestLine(rl.httpMethod, "/" + path, rl.version))
  {
    var u := "/" + path;
    assert forall i :: 0 < i < |u| ==> u[i] == path[i - 1];
    assert RewriteRequestLine(rl, path) == rl.httpMethod + " " + u + " " + rl.version + "\r\n";
    SplitRequestLineOf(rl.httpMethod, u, rl.version);
    WordsLine(rl.httpMethod, u, rl.version);
  }

  /** Three words separated by blanks and ended by CR LF form exactly one line. */
  lemma WordsLine(m: string, u: string, v: string)
    requires IsWord(m) && IsWord(u) && IsWord(v)
    ensures IsLine(m + " " + u + " " + v + "\r\n")
  {
    var line := m + " " + u + " " + v + "\r\n";
    var a, b := |m|, |m| + 1 + |u|;
    var c := b + 1 + |v|;
    assert forall i :: 0 <= i < a ==> line[i] == m[i];
    assert forall i :: a < i < b ==> line[i] == u[i - a - 1];
    assert forall i :: b < i < c ==> line[i] == v[i - b - 1];
    assert line[a] == ' ' && line[b] == ' ' && line[c] == '\r' && line[c + 1] == '\n' && |line| == c + 2;
  }

  /**
   * read_request_headers: append every line read to `header` up to and
   * including the blank line, updating the content length on the way.
   * `n` is 0 exactly when the client's input ended first.
   */
  method ReadRequestHeaders(conn: Socket, header: string, length: nat)
    returns (n: nat, header': string, length': nat)
    modifies conn`unread
    ensures var h := HeaderLines(old(conn.unread)); var b := Concat(h.lines);
      && (n != 0 <==> h.complete)
      && header' == header + b
      && length' == LastLength(h.lines, length)
      && old(conn.unread) == b + conn.unread
  {
    ghost var h0 := HeaderLines(conn.unread);
    header', length' := header, length;
    ghost var before := conn.unread;
    ghost var consumed: string := [];
    var line := conn.ReadLine();
    n := |line|;
    assert consumed + Concat(h0.lines) == Concat(h0.lines);
    assert header' == header + consumed;
    while n != 0
      invariant line == NextLine(before) && n == |line|
      invariant conn.unread == before[|line|..]
      invariant old(conn.unread) == consumed + before
      invariant header' == header + consumed
      invariant Concat(h0.lines) == consumed + Concat(HeaderLines(before).lines)
      invariant LastLength(h0.lines, length) == LastLength(HeaderLines(before).lines, length')
      invariant h0.complete == HeaderLines(before).complete
      decreases |before|
    {
      ghost var h := HeaderLines(before);
      HeaderLinesStep(before);
      AppendAssoc(consumed, line, conn.unread);
      AppendAssoc(consumed, line, if IsBlankLine(line) then [] else Concat(HeaderLines(conn.unread).lines));
      AppendAssoc(header, consumed, line);
      var parsed := ContentLengthOf(line);
      if parsed.Some? {
        length' := parsed.value;
      }
      header' := header' + line;
      consumed := consumed + line;
      if IsBlankLine(line) {
        assert consumed + [] == consumed;
        break;
      }
      before := conn.unread;
      line := conn.ReadLine();
      n := |line|;
    }
    assert consumed + [] == consumed;
  }
}
