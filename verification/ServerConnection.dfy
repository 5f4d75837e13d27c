/** The connection to the server: one command at a time, written in parts
    (`idle-server-connection.c`). */
module ServerConnection {
  import opened Irc

  const OUTPUT_BUFFER_SIZE := IRC_MSG_MAXLEN + 2

  /**
   * Whether commands are taken, whether a write is under way, and the used part of the
   * output buffer with how much of it is written.  `wire` records the bytes that went
   * out, `lost` whether a command was ever refused or cut off by an error.
   */
  datatype Server = Server(open: bool, writing: bool, buffer: string, nwritten: nat, wire: string, lost: bool)

  const CLOSED := Server(false, false, "", 0, "", false)

  /** The part of a command that fits the buffer. */
  function Buffered(cmd: string): string {
    if |cmd| > OUTPUT_BUFFER_SIZE then cmd[..OUTPUT_BUFFER_SIZE] else cmd
  }

  /** `idle_server_connection_send_async`. */
  function Take(c: Server, cmd: string): Server {
    if c.open then c.(writing := true, buffer := Buffered(cmd), nwritten := 0) else c.(lost := true)
  }

  /** `_write_ready` after `n` bytes went out. */
  function Wrote(c: Server, n: nat): Server
    requires c.nwritten + n <= |c.buffer|
  {
    c.(wire := c.wire + c.buffer[c.nwritten..c.nwritten + n], nwritten := c.nwritten + n,
       writing := c.nwritten + n < |c.buffer|)
  }

  /** The command under way ends with an error. */
  function Broke(c: Server): Server {
    c.(writing := false, lost := true)
  }

  /** What is taken is the start of the command, all of it where it fits. */
  lemma TakenFits(c: Server, cmd: string)
    requires c.open
    ensures var b := Take(c, cmd).buffer;
      b <= cmd && |b| == if |cmd| < OUTPUT_BUFFER_SIZE then |cmd| else OUTPUT_BUFFER_SIZE
  {
  }

  /** What has been taken is on the wire, the last command perhaps in part. */
  lemma WroteNext(c: Server, n: nat, before: string)
    requires c.nwritten + n <= |c.buffer| && c.wire == before + c.buffer[..c.nwritten]
    ensures var d := Wrote(c, n);
      d.wire == before + d.buffer[..d.nwritten] && (!d.writing ==> d.wire == before + d.buffer)
  {
    var k := c.nwritten;
    assert before + c.buffer[..k] + c.buffer[k..k + n] == before + c.buffer[..k + n];
    assert c.buffer[..|c.buffer|] == c.buffer;
  }

  class IdleServerConnection {
    var open: bool
    const outputBuffer: array<char>
    var count: nat
    var nwritten: nat

    ghost var writing: bool
    ghost var wire: string
    ghost var lost: bool

    ghost predicate Valid()
      reads this
    {
      outputBuffer.Length == OUTPUT_BUFFER_SIZE && nwritten <= count <= OUTPUT_BUFFER_SIZE
    }

    ghost function Now(): Server
      reads this, outputBuffer
      requires Valid()
    {
      Server(open, writing, outputBuffer[..count], nwritten, wire, lost)
    }

    constructor ()
      ensures Valid() && Now() == CLOSED && fresh(outputBuffer)
    {
      outputBuffer := new char[OUTPUT_BUFFER_SIZE](_ => '\0');
      open, count, nwritten, writing, wire, lost := false, 0, 0, false, "", false;
    }

    /** Refused when the connection is not open; otherwise the buffer is filled and padded
        with NULs. */
    method SendAsync(cmd: string)
      requires Valid()
      modifies this, outputBuffer
      ensures Valid() && Now() == Take(old(Now()), cmd)
    {
      if !open {
        lost := true;
        return;
      }
      count := |cmd|;
      if count > OUTPUT_BUFFER_SIZE {
        count := OUTPUT_BUFFER_SIZE;
      }
      CopyCommand(cmd);
      nwritten := 0;
      writing := true;
      assert outputBuffer[..count] == Buffered(cmd);
    }

    /** `strncpy` into the buffer. */
    method CopyCommand(cmd: string)
      requires outputBuffer.Length == OUTPUT_BUFFER_SIZE
      modifies outputBuffer
      ensures forall j :: 0 <= j < OUTPUT_BUFFER_SIZE ==> outputBuffer[j] == if j < |cmd| then cmd[j] else '\0'
    {
      for i := 0 to OUTPUT_BUFFER_SIZE
        invariant forall j :: 0 <= j < i ==> outputBuffer[j] == if j < |cmd| then cmd[j] else '\0'
      {
        outputBuffer[i] := if i < |cmd| then cmd[i] else '\0';
      }
    }

    /** `_write_ready`: how much was written, or -1 for an error; `done` when the command
        is over. */
    method WriteReady(nwrite: int) returns (done: bool)
      requires Valid() && (nwrite == -1 || (0 <= nwrite && nwritten + nwrite <= count))
      modifies this
      ensures Valid() && done == !Now().writing
      ensures Now() == if nwrite == -1 then Broke(old(Now())) else Wrote(old(Now()), nwrite)
    {
      if nwrite == -1 {
        writing, lost := false, true;
        return true;
      }
      assert outputBuffer[..count][nwritten..nwritten + nwrite] == outputBuffer[nwritten..nwritten + nwrite];
      wire := wire + outputBuffer[nwritten..nwritten + nwrite];
      nwritten := nwritten + nwrite;
      writing := nwritten < count;
      return nwritten >= count;
    }
  }
}
