/**
 * The connections and the log sink the proxy talks to, reduced to what the
 * relay code observes through the Rio wrappers: a read returns the next
 * line or byte, or nothing at end of input (a read error looks the same),
 * and a write either delivers everything or fails.
 */
module Net {
  import opened Wrappers
  import opened Text

  /**
   * One TCP connection with its Rio read buffer.  `unread` is what the peer
   * has sent, up to the end of its side (by close or by error), that has
   * not been read yet; `sent` is every byte delivered to the peer; `room`
   * is how many more bytes the peer takes before a write fails.
   */
  class Socket {
    var unread: string
    var sent: string
    var room: nat
    var open: bool

    constructor (incoming: string, room: nat)
      ensures unread == incoming && sent == [] && this.room == room && open
    {
      unread := incoming;
      sent := [];
      this.room := room;
      open := true;
    }

    /** Rio_readlineb_w: the next line, or the empty string at end of input. */
    method ReadLine() returns (line: string)
      modifies this`unread
      ensures line == NextLine(old(unread))
      ensures unread == old(unread)[|line|..]
    {
      line := NextLine(unread);
      unread := unread[|line|..];
    }

    /** Rio_readnb_w for one byte: `got` is false at end of input. */
    method ReadByte() returns (got: bool, b: char)
      modifies this`unread
      ensures got <==> old(unread) != []
      ensures got ==> b == old(unread)[0] && unread == old(unread)[1..]
      ensures !got ==> unread == old(unread)
    {
      if unread != [] {
        got, b := true, unread[0];
        unread := unread[1..];
      } else {
        got, b := false, ' ';
      }
    }

    /**
     * Rio_writen_w: succeeds when the peer takes all of `data`; otherwise
     * the peer gets the part that fitted and every later write fails.
     */
    method Write(data: string) returns (ok: bool)
      modifies this`sent, this`room
      ensures ok <==> |data| <= old(room)
      ensures ok ==> sent == old(sent) + data && room == old(room) - |data|
      ensures !ok ==> sent == old(sent) + data[..old(room)] && room == 0
    {
      if |data| <= room {
        sent := sent + data;
        room := room - |data|;
        ok := true;
      } else {
        sent := sent + data[..room];
        room := 0;
        ok := false;
      }
    }

    method Close()
      modifies this`open
      ensures !open
    {
      open := false;
    }
  }

  /** What log_request records: the client, the original request URI and the byte count. */
  datatype LogEntry = LogEntry(client: string, uri: string, bytes: nat)

  /** The log sink; concurrent sessions are serialised by a mutex that this model leaves out. */
  class AccessLog {
    var entries: seq<LogEntry>

    constructor ()
      ensures entries == []
    {
      entries := [];
    }

    method Record(e: LogEntry)
      modifies this
      ensures entries == old(entries) + [e]
    {
      entries := entries + [e];
    }
  }

  /**
   * The text of a log line: "<time>: <client> <uri> <size>", with the
   * formatted time and the dotted client address given.
   */
  function FormatLogEntry(time: string, e: LogEntry): string
  {
    time + ": " + e.client + " " + e.uri + " " + Decimal(e.bytes)
  }

  /** The byte count is the last field of the line and reads back with "%zu". */
  lemma LogSizeField(time: string, e: LogEntry)
    requires e.bytes <= SizeMax
    ensures var line := FormatLogEntry(time, e); var d := |Decimal(e.bytes)|;
      d < |line| && line[|line| - d - 1] == ' ' && ScanSize(line[|line| - d..]) == Some(e.bytes)
  {
    var line := FormatLogEntry(time, e);
    var d := Decimal(e.bytes);
    assert line == (time + ": " + e.client + " " + e.uri + " ") + d;
    assert line[|line| - |d|..] == [] + d + [];
    ScanSizeDecimal([], e.bytes, []);
  }
}
