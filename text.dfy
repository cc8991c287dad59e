/**
 * The character-level helpers of the C library that the proxy leans on:
 * isspace / isdigit / tolower in the "C" locale, strpbrk-style scanning,
 * strncasecmp, the "%zu" conversion of sscanf and printf, and the line that
 * rio_readlineb hands back.  Strings are C strings without their NUL.
 */
module Text {
  import opened Wrappers

  /** isspace in the "C" locale: space, \t, \n, \v, \f and \r. */
  predicate IsSpace(c: char) { c == ' ' || 9 <= c as int <= 13 }
  predicate NotSpace(c: char) { !IsSpace(c) }

  predicate IsDigit(c: char) { '0' <= c <= '9' }
  predicate NotDigit(c: char) { !IsDigit(c) }

  /**
   * The characters strpbrk looks for after the scheme in parse_uri; the
   * "\0" written at the end of the C literal only terminates the set.
   */
  predicate IsHostDelimiter(c: char) { c == ' ' || c == ':' || c == '/' || c == '\r' || c == '\n' }

  /** The character classes the scanning loops stop at. */
  datatype Stop = Space | NonSpace | NonDigit | HostDelimiter | Slash

  predicate Stops(c: char, stop: Stop)
  {
    match stop
    case Space => IsSpace(c)
    case NonSpace => NotSpace(c)
    case NonDigit => NotDigit(c)
    case HostDelimiter => IsHostDelimiter(c)
    case Slash => c == '/'
  }

  /** tolower in the "C" locale: only A-Z are folded. */
  function ToLower(c: char): char
  {
    if 'A' <= c <= 'Z' then (c as int + 32) as char else c
  }

  /** strncasecmp(s, p, |p|) == 0 for a pattern p that holds no NUL. */
  predicate StartsWithIgnoreCase(s: string, p: string)
  {
    |s| >= |p| && forall i :: 0 <= i < |p| ==> ToLower(s[i]) == ToLower(p[i])
  }

  /** A string that equals p up to case still matches p when more text follows it. */
  lemma StartsWithIgnoreCaseAppend(s: string, p: string, rest: string)
    requires |s| == |p| && StartsWithIgnoreCase(s, p)
    ensures StartsWithIgnoreCase(s + rest, p)
  {
    assert forall i :: 0 <= i < |s| ==> (s + rest)[i] == s[i];
  }

  /** strcasecmp(s, p) == 0. */
  predicate EqualsIgnoreCase(s: string, p: string)
  {
    |s| == |p| && StartsWithIgnoreCase(s, p)
  }

  /**
   * The first index at or after `from` whose character satisfies `stop`,
   * or |s| when there is none (strpbrk, strchr and the scanning loops).
   */
  function Find(s: string, from: nat, stop: Stop): (k: nat)
    requires from <= |s|
    ensures from <= k <= |s|
    ensures forall j :: from <= j < k ==> !Stops(s[j], stop)
    ensures k < |s| ==> Stops(s[k], stop)
    decreases |s| - from
  {
    if from == |s| || Stops(s[from], stop) then from else Find(s, from + 1, stop)
  }

  /** Any index that is "the first stop at or after from" is the one Find returns. */
  lemma FindIs(s: string, from: nat, stop: Stop, k: nat)
    requires from <= k <= |s|
    requires forall j :: from <= j < k ==> !Stops(s[j], stop)
    requires k < |s| ==> Stops(s[k], stop)
    ensures Find(s, from, stop) == k
  {
  }

  predicate AllDigits(s: string) { forall i :: 0 <= i < |s| ==> IsDigit(s[i]) }

  function DigitValue(c: char): nat
    requires IsDigit(c)
  {
    c as int - '0' as int
  }

  function DigitChar(d: nat): (c: char)
    requires d < 10
    ensures IsDigit(c) && DigitValue(c) == d
  {
    ('0' as int + d) as char
  }

  /** The value of a run of decimal digits, most significant first. */
  function DecimalValue(s: string): nat
    requires AllDigits(s)
  {
    if s == [] then 0 else DecimalValue(s[..|s| - 1]) * 10 + DigitValue(s[|s| - 1])
  }

  /** printf("%zu", n): the decimal rendering, which reads back as n. */
  function Decimal(n: nat): (s: string)
    ensures s != [] && AllDigits(s)
    ensures DecimalValue(s) == n
  {
    if n < 10 then [DigitChar(n)]
    else
      var high := Decimal(n / 10);
      var s := high + [DigitChar(n % 10)];
      assert s[..|s| - 1] == high;
      s
  }

  /** SIZE_MAX on the LP64 targets the proxy is built for. */
  const SizeMax: nat := 0xFFFF_FFFF_FFFF_FFFF

  /**
   * sscanf(s, "%zu", &v): skip white space, take an optional sign and at
   * least one digit.  None means no conversion happened, so v keeps its
   * old value.  The conversion is strtoull's: a value beyond SIZE_MAX
   * saturates, and a '-' sign negates modulo 2^64.
   */
  function ScanSize(s: string): (r: Option<nat>)
    ensures r.Some? ==> r.value <= SizeMax
  {
    var i := Find(s, 0, NonSpace);
    var signed := i < |s| && (s[i] == '+' || s[i] == '-');
    var j := if signed then i + 1 else i;
    var k := Find(s, j, NonDigit);
    if k == j then None
    else
      var v := DecimalValue(s[j..k]);
      if v > SizeMax then Some(SizeMax)
      else if signed && s[i] == '-' && v > 0 then Some(SizeMax + 1 - v)
      else Some(v)
  }

  /** A number printed with "%zu", after optional blanks, scans back with "%zu". */
  lemma ScanSizeDecimal(pad: string, n: nat, rest: string)
    requires forall i :: 0 <= i < |pad| ==> IsSpace(pad[i])
    requires n <= SizeMax
    requires rest == [] || NotDigit(rest[0])
    ensures ScanSize(pad + Decimal(n) + rest) == Some(n)
  {
    var d := Decimal(n);
    var s := pad + d + rest;
    FindIs(s, 0, NonSpace, |pad|);
    FindIs(s, |pad|, NonDigit, |pad| + |d|);
    assert s[|pad|..|pad| + |d|] == d;
  }

  /** A negative length such as "-1" wraps around to a huge size_t. */
  lemma ScanSizeNegative(n: nat)
    requires 0 < n <= SizeMax
    ensures ScanSize("-" + Decimal(n)) == Some(SizeMax + 1 - n)
  {
    var d := Decimal(n);
    var s := "-" + d;
    FindIs(s, 0, NonSpace, 0);
    FindIs(s, 1, NonDigit, |s|);
    assert s[1..|s|] == d;
  }

  /** The words of a C string: maximal runs of non-space characters. */
  predicate IsWord(t: string)
  {
    t != [] && forall i :: 0 <= i < |t| ==> NotSpace(t[i])
  }

  /** Regrouping a concatenation, stated once so that loops can cite it. */
  lemma AppendAssoc(a: string, b: string, c: string)
    ensures a + (b + c) == (a + b) + c
  {
  }

  /** Flattens a list of lines back into the bytes they were read from. */
  function Concat(ls: seq<string>): string
  {
    if ls == [] then [] else ls[0] + Concat(ls[1..])
  }

  /**
   * The line rio_readlineb delivers from what is left of a stream: every
   * byte up to and including the first newline, or all that is left when
   * no newline comes.  The empty string stands for end of input.
   */
  function NextLine(s: string): (line: string)
    ensures 0 < |line| <= |s| || line == s == []
  {
    if s == [] then []
    else if s[0] == '\n' then [s[0]]
    else [s[0]] + NextLine(s[1..])
  }

  /** The stream is the line read followed by what is left after it. */
  lemma {:induction false} NextLineSplit(s: string)
    ensures s == NextLine(s) + s[|NextLine(s)|..]
  {
    if s != [] && s[0] != '\n' {
      NextLineSplit(s[1..]);
      assert s == [s[0]] + s[1..];
      AppendAssoc([s[0]], NextLine(s[1..]), s[1..][|NextLine(s[1..])|..]);
      assert s[1..][|NextLine(s[1..])|..] == s[|NextLine(s)|..];
    }
  }

  /**
   * The line is a prefix of the stream that holds no newline before its
   * last byte, and it ends in a newline unless it is all that was left.
   */
  lemma {:induction false} NextLineShape(s: string)
    ensures var line := NextLine(s);
      && line == s[..|line|]
      && (forall i :: 0 <= i < |line| - 1 ==> line[i] != '\n')
      && (line == s || line[|line| - 1] == '\n')
  {
    if s != [] && s[0] != '\n' {
      NextLineShape(s[1..]);
      assert s == [s[0]] + s[1..];
    }
  }

  /** A line that carries its only newline at its end. */
  predicate IsLine(line: string)
  {
    |line| > 0 && line[|line| - 1] == '\n' && forall i :: 0 <= i < |line| - 1 ==> line[i] != '\n'
  }

  /** What is read from `line + rest` is exactly `line`, whatever follows. */
  lemma {:induction false} NextLineOf(line: string, rest: string)
    requires IsLine(line)
    ensures NextLine(line + rest) == line
  {
    if line[0] != '\n' {
      assert (line + rest)[1..] == line[1..] + rest;
      NextLineOf(line[1..], rest);
    }
  }
}
