/**
 * Header blocks as the proxy reads them, on both the request and the
 * response side: lines up to and including the first blank line, and the
 * Content-Length value picked up on the way (section 3.3.2 of RFC 7230).
 */
module Headers {
  import opened Wrappers
  import opened Text

  /** strncmp(line, "\r\n", 2) == 0: the line that ends a header block. */
  predicate IsBlankLine(line: string) { |line| >= 2 && line[0] == '\r' && line[1] == '\n' }

  /** A header line as a client or an origin writes it. */
  predicate IsHeaderLine(line: string) { IsLine(line) && !IsBlankLine(line) }

  /**
   * The lines read from a stream until the blank line, in order; `complete`
   * is false when the stream ended first.
   */
  datatype HeaderBlock = HeaderBlock(lines: seq<string>, complete: bool)

  /** The header-reading loop: read a line, stop after the blank one or at end of input. */
  function HeaderLines(s: string): HeaderBlock
    decreases |s|
  {
    if s == [] then HeaderBlock([], false)
    else
      var line := NextLine(s);
      if IsBlankLine(line) then HeaderBlock([line], true)
      else
        var rest := HeaderLines(s[|line|..]);
        HeaderBlock([line] + rest.lines, rest.complete)
  }

  /** One turn of the header-reading loop: the first line read and the block read after it. */
  lemma HeaderLinesStep(s: string)
    requires s != []
    ensures var line := NextLine(s); var t := s[|line|..]; var h := HeaderLines(s);
      && 0 < |line| <= |s| && s == line + t
      && (IsBlankLine(line) ==> h.lines == [line] && h.complete && Concat(h.lines) == line)
      && (!IsBlankLine(line) ==>
            && h.lines == [line] + HeaderLines(t).lines && h.lines[1..] == HeaderLines(t).lines
            && h.complete == HeaderLines(t).complete
            && Concat(h.lines) == line + Concat(HeaderLines(t).lines))
  {
    var line := NextLine(s);
    NextLineSplit(s);
    var t := s[|line|..];
    if IsBlankLine(line) {
      assert Concat([line]) == line + [];
    } else {
      var r := HeaderLines(t);
      assert ([line] + r.lines)[1..] == r.lines;
    }
  }

  /**
   * The lines read are a prefix of the stream, and an incomplete block has
   * consumed the whole stream.
   */
  lemma {:induction false} HeaderLinesPrefix(s: string)
    ensures var h := HeaderLines(s); var b := Concat(h.lines);
      && |b| <= |s| && s == b + s[|b|..]
      && (!h.complete ==> b == s)
    decreases |s|
  {
    if s != [] {
      HeaderLinesStep(s);
      var line := NextLine(s);
      var t := s[|line|..];
      if !IsBlankLine(line) {
        HeaderLinesPrefix(t);
        var b' := Concat(HeaderLines(t).lines);
        assert t[|b'|..] == s[|line + b'|..];
        AppendAssoc(line, b', t[|b'|..]);
      }
    }
  }

  /**
   * No line read is empty; the block is complete exactly when its last line
   * is blank, that line is "\r\n", and no earlier line is blank.
   */
  lemma {:induction false} HeaderLinesEnd(s: string)
    ensures var h := HeaderLines(s);
      && (forall i :: 0 <= i < |h.lines| ==> h.lines[i] != [])
      && (forall i :: 0 <= i < |h.lines| - 1 ==> !IsBlankLine(h.lines[i]))
      && (h.complete <==> |h.lines| > 0 && IsBlankLine(h.lines[|h.lines| - 1]))
      && (h.complete ==> h.lines[|h.lines| - 1] == "\r\n")
    decreases |s|
  {
    if s != [] {
      var line := NextLine(s);
      if IsBlankLine(line) {
        NextLineShape(s);
        assert line == "\r\n";
      } else {
        var t := s[|line|..];
        HeaderLinesEnd(t);
        var r := HeaderLines(t);
        assert ([line] + r.lines)[1..] == r.lines;
      }
    }
  }

  /** Reading a block that was written as header lines and "\r\n" gives those lines back and leaves what follows unread. */
  lemma {:induction false} HeaderLinesOf(hs: seq<string>, rest: string)
    requires forall i :: 0 <= i < |hs| ==> IsHeaderLine(hs[i])
    ensures HeaderLines(Concat(hs) + "\r\n" + rest) == HeaderBlock(hs + ["\r\n"], true)
    decreases |hs|
  {
    if hs == [] {
      assert Concat(hs) + "\r\n" + rest == "\r\n" + rest;
      NextLineOf("\r\n", rest);
      assert IsBlankLine("\r\n");
    } else {
      var tail := Concat(hs[1..]) + "\r\n" + rest;
      assert Concat(hs) + "\r\n" + rest == hs[0] + tail;
      NextLineOf(hs[0], tail);
      assert (hs[0] + tail)[|hs[0]|..] == tail;
      HeaderLinesOf(hs[1..], rest);
      assert [hs[0]] + (hs[1..] + ["\r\n"]) == hs + ["\r\n"];
    }
  }

  const ContentLengthName := "Content-Length"

  /**
   * The value a header line gives content_length: the 14-character name
   * compared without case, then "%zu" from offset 15 (the byte after the
   * name is skipped unread).  None leaves content_length as it was.
   */
  function ContentLengthOf(line: string): Option<nat>
  {
    if StartsWithIgnoreCase(line, ContentLengthName) && |line| >= 15 then ScanSize(line[15..]) else None
  }

  function UpdateLength(line: string, length: nat): nat
  {
    match ContentLengthOf(line)
    case Some(v) => v
    case None => length
  }

  /** content_length after the lines have been read one by one. */
  function LastLength(lines: seq<string>, length: nat): nat
  {
    if lines == [] then length else LastLength(lines[1..], UpdateLength(lines[0], length))
  }

  /** Without a Content-Length line that parses, content_length is left as it was. */
  lemma {:induction false} LastLengthKept(lines: seq<string>, length: nat)
    requires forall i :: 0 <= i < |lines| ==> ContentLengthOf(lines[i]).None?
    ensures LastLength(lines, length) == length
  {
    if lines != [] {
      LastLengthKept(lines[1..], length);
    }
  }

  /** Every parseable Content-Length line overwrites the value, so the last one wins. */
  lemma {:induction false} LastLengthWins(lines: seq<string>, length: nat, i: nat)
    requires i < |lines| && ContentLengthOf(lines[i]).Some?
    requires forall j :: i < j < |lines| ==> ContentLengthOf(lines[j]).None?
    ensures LastLength(lines, length) == ContentLengthOf(lines[i]).value
  {
    if i == 0 {
      LastLengthKept(lines[1..], UpdateLength(lines[0], length));
    } else {
      LastLengthWins(lines[1..], UpdateLength(lines[0], length), i - 1);
    }
  }

  /** "Content-Length: N\r\n", with the name in any case, gives N. */
  lemma ContentLengthHeader(name: string, pad: string, n: nat)
    requires EqualsIgnoreCase(name, ContentLengthName)
    requires forall i :: 0 <= i < |pad| ==> IsSpace(pad[i])
    requires n <= SizeMax
    ensures ContentLengthOf(name + ":" + pad + Decimal(n) + "\r\n") == Some(n)
  {
    var value := pad + Decimal(n) + "\r\n";
    var line := name + ":" + pad + Decimal(n) + "\r\n";
    assert line == name + ([':'] + value);
    StartsWithIgnoreCaseAppend(name, ContentLengthName, [':'] + value);
    assert line[15..] == value;
    ScanSizeDecimal(pad, n, "\r\n");
  }

}
