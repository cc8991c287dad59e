# A verified model of the ICS web proxy's relay core

`lab10/proxy.c` is a forwarding HTTP proxy. For each client connection it:

1. reads the request line (`parse_request_line`);
2. splits the absolute-form target `http://host[:port][/path]` (`parse_uri`);
3. rewrites the request line into origin form, `METHOD /path VERSION\r\n`;
4. copies the client's header block up to the blank line (`read_request_headers`), noting any Content-Length;
5. connects to the origin server;
6. sends it the header block and, unless the method is GET, exactly Content-Length body bytes (`proxy_send`);
7. relays the origin's response header lines and then Content-Length body bytes back to the client, counting them (`read_response_headers`, `read_response_body`, `proxy_receive`);
8. logs one line `time: client uri size` (`log_request`, `format_log_entry`) and closes the origin connection (`proxy_manager`).

This project models that pipeline in Dafny and proves what each step does to the byte streams.

- `wrappers.dfy`: `Option` and `Result`.
- `text.dfy` (module `Text`): the C-library behaviour the proxy relies on.
  - `isspace`, `isdigit` and `tolower` in the "C" locale.
  - `strncasecmp` / `strcasecmp`.
  - `strpbrk` / `strchr` scanning, as `Find`.
  - `printf("%zu")`, as `Decimal`.
  - `sscanf("%zu")`, as `ScanSize`, with `strtoull`'s saturation and its negation modulo 2^64.
  - The line `rio_readlineb` delivers, as `NextLine`.
- `net.dfy` (module `Net`): a connection as a `Socket` class.
  - `unread` is what the peer sent and has not been read yet.
  - `sent` is everything delivered to the peer.
  - `room` is how many more bytes the peer accepts before a write fails.
  - `open` says whether the connection is still open.
  - Its methods are the Rio wrappers. `AccessLog` is the log sink. `FormatLogEntry` is the log line.
- `headers.dfy` (module `Headers`): the header-reading loop as a function `HeaderLines`, and the Content-Length value a line gives (`ContentLengthOf`, `LastLength`).
- `requests.dfy` (module `Requests`):
  - the `sscanf("%s %s %s")` tokeniser;
  - `parse_request_line`;
  - the request-line rewrite;
  - `read_request_headers`, as a loop over a `Socket`.
- `uri.dfy` (module `Uri`): `parse_uri`, as a function `Decompose` and as the method `ParseUri` with its digit-copy loop.
- `relay.dfy` (module `Relay`):
  - `proxy_send`, `read_response_headers`, `read_response_body` and `proxy_receive` are methods over two `Socket`s.
  - Each is proved against a closed-form specification function: `SendSpec`, `RelayHeaders`, `CopySpec` and `ReceiveSpec`.
- `session.dfy` (module `Session`):
  - `proxy_manager` as the method `ProxyManager`, proved against the function `Serve`, which describes a whole session.
  - Lemmas about complete sessions.

Name resolution and `connect` are a parameter, `reachable`: the set of (host, port) endpoints that accept a connection. The origin `Socket` stands for the server such a connect reaches. The client address printed by `inet_ntop` is a parameter. So is the time string `strftime` produces.

Where the code and its intended behaviour differ, the model follows the code:

- every `Content-Length` line whose value parses overwrites the length, so the last one wins;
- a request line with more than three words is accepted and the extra words are ignored;
- once the connect succeeds a log entry is always written, with size 0 when `proxy_send` failed;
- end of the origin's input before the blank response line is not an error: the bytes counted so far are returned;
- `http://host` with nothing after the host is rejected, because no delimiter ends the host;
- the `"\0"` inside the `strpbrk` set only terminates the C literal and adds no delimiter;
- the path is whatever follows the first `/` after the scheme, even when that `/` comes after a port that is not all digits.

## Model

| member | source | states |
|---|---|---|
| Text.StartsWithIgnoreCaseAppend | lab10/proxy.c:159 | a 14-character name matching `Content-Length` in any case still matches when the header value follows it |
| Text.Find | lab10/proxy.c:311-328 | the scan stops at the first index at or after the start whose character is in the class, or at the end; no character before it is in the class |
| Text.FindIs | lab10/proxy.c:311-328 | any index that is the first stop at or after the start is the one the scan returns |
| Text.Decimal | lab10/proxy.c:360 | `%zu` prints a non-empty run of digits whose decimal value is the number |
| Text.ScanSize | lab10/proxy.c:160 | a `%zu` conversion never yields more than SIZE_MAX |
| Text.ScanSizeDecimal | lab10/proxy.c:160 | a number printed with `%zu`, after blanks and before a non-digit, scans back to itself |
| Text.ScanSizeNegative | lab10/proxy.c:160 | `-n` scans as 2^64 - n, the size_t wrap-around of strtoull |
| Text.NextLine | lab10/proxy.c:36-47 | a line read is non-empty and no longer than the input, and it is empty only at end of input |
| Text.NextLineSplit | lab10/proxy.c:36-47 | the input is the line read followed by what is left unread |
| Text.NextLineShape | lab10/proxy.c:36-47 | the line is a prefix of the input, with no newline before its last byte, and it ends in a newline unless it took all the input |
| Text.NextLineOf | lab10/proxy.c:36-47 | reading from a line followed by anything yields exactly that line |
| Headers.HeaderLinesStep | lab10/proxy.c:157-166 | one turn of the header loop: a blank line ends a complete block; any other line is followed by the block read after it |
| Headers.HeaderLinesPrefix | lab10/proxy.c:157-166 | the lines read are a prefix of the input, and a block cut off by end of input has consumed all of it |
| Headers.HeaderLinesEnd | lab10/proxy.c:158-166 | no line read is empty; the block is complete iff its last line is blank; that line is exactly CR LF; no earlier line is blank |
| Headers.HeaderLinesOf | lab10/proxy.c:154-168 | reading header lines and CR LF gives back exactly those lines plus CR LF, marks the block complete and leaves what follows unread |
| Headers.LastLengthKept | lab10/proxy.c:159-161 | without a Content-Length line whose value parses, the length keeps its previous value |
| Headers.LastLengthWins | lab10/proxy.c:159-161 | the last Content-Length line whose value parses decides the length |
| Headers.ContentLengthHeader | lab10/proxy.c:159-160 | `Content-Length: N` CR LF, with the name in any case and any blanks, yields N |
| Net.Socket.constructor | lab10/proxy.c:198 | a fresh connection has its peer's input unread, has sent nothing, and is open |
| Net.Socket.ReadLine | lab10/proxy.c:36-47 | the read returns the next line, or nothing at end of input, and consumes exactly it |
| Net.Socket.ReadByte | lab10/proxy.c:22-33 | a one-byte read fails exactly at end of input; otherwise it returns and consumes the first unread byte |
| Net.Socket.Write | lab10/proxy.c:50-58 | a write succeeds iff the peer has room for all of it; a failed write delivers the part that fitted and leaves no room |
| Net.Socket.Close | lab10/proxy.c:217 | the connection is closed |
| Net.AccessLog.Record | lab10/proxy.c:182-188 | logging appends exactly one entry |
| Net.LogSizeField | lab10/proxy.c:346-361 | the log line ends in a blank and the size, which reads back with `%zu` |
| Requests.TokensAreWords | lab10/proxy.c:146 | every `%s` token is non-empty and holds no white space |
| Requests.SplitRequestLineWords | lab10/proxy.c:146 | the method, URI and version of a line that splits are words |
| Requests.ThreeWordsAt | lab10/proxy.c:146 | three words separated by blanks and ended by CR LF are exactly the tokens of the line |
| Requests.TwoWordsAt | lab10/proxy.c:146 | two words separated by a blank and ended by CR LF give exactly two tokens |
| Requests.SplitRequestLineOf | lab10/proxy.c:146 | `METHOD SP URI SP VERSION CRLF` splits back into its three words |
| Requests.TwoWordsRefused | lab10/proxy.c:146-148 | a line of two words is refused |
| Requests.ParseRequestLine | lab10/proxy.c:140-151 | one line is consumed; the result is none at end of input and otherwise the line's split, which fails on fewer than three words |
| Requests.WordsLine | lab10/proxy.c:206 | three words separated by blanks and ended by CR LF form exactly one line |
| Requests.RewriteRequestLineSplits | lab10/proxy.c:206 | the rewritten request line is one line, and it splits into the client's method, `/` + path and the client's version |
| Requests.ReadRequestHeaders | lab10/proxy.c:154-168 | the header text grows by exactly the lines up to and including the blank line; the result is 0 iff input ended first; the length is the last Content-Length; nothing after the blank line is consumed |
| Relay.CopySpec | lab10/proxy.c:233-238 | a counted byte copy succeeds iff the input holds the count and the peer has room for it; otherwise it moves fewer bytes, and a refused write has consumed one byte more than it moved |
| Relay.RelayExactly | lab10/proxy.c:233-238 | the copy loop moves the first bytes of the source to the destination, in order, and consumes them, as `CopySpec` describes |
| Relay.SendSpec | lab10/proxy.c:221-242 | sending succeeds iff the header fits and, for a method other than GET, `length` body bytes are available and fit; a GET reads no body byte; what the origin receives is always a prefix of the header followed by the client's input |
| Relay.ProxySend | lab10/proxy.c:221-242 | the origin receives, and the client input loses, exactly what `SendSpec` says |
| Relay.RelayHeadersWholeBlock | lab10/proxy.c:245-263 | when the client has room for the header block, exactly that block is forwarded and consumed, the count is its length, and the length is its last Content-Length |
| Relay.RelayHeadersRefused | lab10/proxy.c:255-257 | when the client lacks room, the part of the block that fitted is forwarded and the count is 0 |
| Relay.ReadResponseHeaders | lab10/proxy.c:245-263 | the loop forwards, consumes and counts what `RelayHeaders` says |
| Relay.ReadResponseBody | lab10/proxy.c:266-277 | the body relay returns the content length on success and 0 on a short read or refused write; the client gets the consumed body bytes in order |
| Relay.ProxyReceive | lab10/proxy.c:280-289 | the total and the bytes relayed are those of `ReceiveSpec`: 0 when the header phase returned 0, otherwise the header count plus the body result |
| Relay.ResponseRelayedVerbatim | lab10/proxy.c:280-289 | a response of header lines, CR LF and a body of the declared length reaches the client verbatim, the count is its size, and what follows stays unread |
| Relay.ReceiveUnterminatedHeaders | lab10/proxy.c:250-262 | a response that ends before its blank line is forwarded whole and counted, not treated as an error |
| Relay.ReceiveAtEnd | lab10/proxy.c:284-286 | once the headers have used up the origin's input, the body phase adds no bytes to the count |
| Relay.RelayHeadersCount | lab10/proxy.c:251 | a non-zero header count grows exactly with the bytes forwarded |
| Relay.ReceiveCountBound | lab10/proxy.c:280-289 | the count returned never exceeds the bytes the client received |
| Relay.ReceiveNothing | lab10/proxy.c:284 | the count is 0 iff the origin sent nothing or the client lacked room for the header block |
| Uri.DecomposeErrors | lab10/proxy.c:305-313 | parsing fails with a scheme error iff the target does not start with `http://` in any case, and with an unbounded host iff no delimiter follows the scheme |
| Uri.DecomposeHost | lab10/proxy.c:311-316 | the host is the delimiter-free text after the scheme, ended by a delimiter |
| Uri.DecomposePort | lab10/proxy.c:319-325 | the port is `80` unless the host ends at `:`; after a `:` it is the maximal, possibly empty, run of digits |
| Uri.DecomposePath | lab10/proxy.c:327-334 | the path is what follows the first `/` after the scheme, and empty when there is none |
| Uri.ParseUri | lab10/proxy.c:299-337 | the scanning and digit-copy code computes `Decompose` |
| Uri.DecomposeWithPort | lab10/proxy.c:299-337 | `http://host:port/path` decomposes into exactly its host, port and path |
| Uri.DecomposeDefaultPort | lab10/proxy.c:319-334 | `http://host/path` decomposes into its host and path, with port `80` |
| Uri.BareHostRejected | lab10/proxy.c:312-313 | `http://host` with nothing after the host is rejected |
| Session.ReadRequest | lab10/proxy.c:198-207 | reading the request never consumes more than the client sent |
| Session.TruncatedRequestReadsAll | lab10/proxy.c:207 | a request whose headers end early has consumed all the client's input |
| Session.ReadClientRequest | lab10/proxy.c:198-207 | the request line, parse_uri and header reading yield `ReadRequest`'s result and consume exactly what it read |
| Session.ProxyManager | lab10/proxy.c:191-218 | every stream, the log and the origin's open state change exactly as `Serve` describes |
| Session.LoggedIffConnected | lab10/proxy.c:200-217 | a session logs iff it connected; one that stops earlier sends nothing to anyone and leaves the origin untouched; one that connects logs exactly one entry for its client and request URI and closes the origin |
| Session.SendFailureLogsZero | lab10/proxy.c:212-217 | after a failed send the session still logs, with size 0, and nothing reaches the client |
| Session.LogNeverOverstates | lab10/proxy.c:213-216 | the logged size never exceeds the bytes the client received |
| Session.ReadRequestOf | lab10/proxy.c:198-207 | `METHOD http://host/path VERSION`, header lines and CR LF read back as those words, host, port 80 and path, the origin-form header block and its last Content-Length; nothing after the blank line is consumed |
| Session.GetServed | lab10/proxy.c:206-216 | a GET to a reachable host sends the origin-form request and headers, reads no client byte after the blank line, relays the response as `ReceiveSpec` says and logs its count |
| Session.GetExchange | lab10/proxy.c:191-218 | a GET answered with headers and a body of the declared length delivers that response verbatim, leaves the rest unread, and logs exactly the bytes the client received |
| Session.BodyForwarded | lab10/proxy.c:231-238 | for a method other than GET, the origin receives the header block followed by exactly the declared body, and the client's input is consumed to the end of the body and no further |

## Left out

- `main`, `initialize_server`, `accept_client_connection` and `thread_routine` (listening, argv, threads, SIGPIPE) are not modelled. The client connection is closed there, so the model does not show it being closed.
- The `log_mutex` P/V around the log write: concurrent sessions are not modelled. `AccessLog.Record` appends one entry atomically.
- `connect_to_server` / `open_clientfd` (DNS and TCP connect) become the `reachable` set. The origin `Socket` is the connection it would open.
- `format_log_entry`'s `time`, `strftime`, `localtime` and `inet_ntop` are foreign calls. Their strings are parameters of `FormatLogEntry`. `ProxyManager` records the `LogEntry` rather than its text.
- Diagnostics printed to stderr are not modelled.
- A read error inside the Rio wrappers is modelled as end of input, since the wrappers turn it into 0.
- A write error is modelled as the peer running out of `room`. A refused write is modelled as delivering the part that fitted.
- Fixed-size buffers are not modelled: `MAXLINE` line truncation in `rio_readlineb`, `req_header[MAXLINE * 2]`, and the `sprintf` / `strcpy` overflows. Strings are unbounded.
- Embedded NUL bytes, and the resulting `strlen(buf)` versus `n` difference, are not modelled. Lines are assumed to hold no NUL.
- Headers.ContentLengthOf: a line of exactly 14 characters matching `Content-Length` makes the C code scan a stale buffer byte at offset 15. The model treats such a line as giving no value.
- Relay.ProxySend: the counter `int i` compared with a `size_t` length is not modelled. A length above 2^31 would overflow `i` in C. The model counts without bound.
- Relay.ReadResponseHeaders, Relay.ProxyReceive: `byte_size` is a `size_t`. The model's counts do not wrap modulo 2^64.
- Uri.Decompose: on a scheme error `parse_uri` also clears `hostname`. No caller reads it afterwards, so the model returns only the error.
