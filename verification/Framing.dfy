/** One IRC line: clipped, freed of stray line ends, and closed by CR LF. */
module Framing {
  import opened Irc
  import opened Wrappers

  function Clip(msg: string): (c: string)
    ensures |c| <= IRC_MSG_MAXLEN && c <= msg
    ensures |msg| <= IRC_MSG_MAXLEN ==> c == msg
  {
    if |msg| <= IRC_MSG_MAXLEN then msg else msg[..IRC_MSG_MAXLEN]
  }

  /** `g_strdelimit (cmd, "\r\n", ' ')`. */
  function Undelimited(s: string): (r: string)
    ensures |r| == |s|
    ensures forall i :: 0 <= i < |s| ==> r[i] == if IsEol(s[i]) then ' ' else s[i]
  {
    seq(|s|, i requires 0 <= i < |s| => if IsEol(s[i]) then ' ' else s[i])
  }

  function Frame(msg: string): string {
    Undelimited(Clip(msg)) + "\r\n"
  }

  /** The framing loop of `_send_with_priority`, on a buffer of 513 bytes. */
  method FrameLine(msg: string) returns (line: string)
    ensures line == Frame(msg)
  {
    var cmd := new char[IRC_MSG_MAXLEN + 3](_ => '\0');
    var clipped := Clip(msg);
    var len := 0;
    while len < |clipped|
      invariant 0 <= len <= |clipped|
      invariant cmd[..len] == Undelimited(clipped)[..len]
    {
      cmd[len] := if IsEol(clipped[len]) then ' ' else clipped[len];
      len := len + 1;
    }
    cmd[len], cmd[len + 1], cmd[len + 2] := '\r', '\n', '\0';
    line := cmd[..len + 2];
    assert cmd[..len] == Undelimited(clipped);
  }

  /** A line as the protocol allows it: at most 512 bytes, line ends only at its end. */
  predicate IsLine(line: string) {
    && 2 <= |line| <= IRC_MSG_MAXLEN + 2
    && line[|line| - 2..] == "\r\n"
    && NoEol(line[..|line| - 2])
  }

  lemma FrameIsLine(msg: string)
    ensures IsLine(Frame(msg))
  {
  }

  /** The line holds the first 510 bytes of any message, a space for each line end. */
  lemma FrameKeepsBytes(msg: string)
    ensures |Frame(msg)| == (if |msg| < 510 then |msg| else 510) + 2
    ensures forall i :: 0 <= i < |msg| && i < 510 ==>
      Frame(msg)[i] == if msg[i] == '\r' || msg[i] == '\n' then ' ' else msg[i]
  {
  }

  /** A message that fits and has no line ends is sent as it is. */
  lemma FrameOfFitting(msg: string)
    requires |msg| <= IRC_MSG_MAXLEN && NoEol(msg)
    ensures Frame(msg) == msg + "\r\n"
  {
  }

  /** A message of that length, relayed with the prefix accounted for, fills a line exactly; and
      without one, as long as the prefix that comes has at most 98 bytes. */
  lemma RelayedFillsLine(prefix: string, msg: string)
    ensures |msg| == MaxMessageLength(Some(prefix)) ==> |":" + prefix + " " + msg| == 510
    ensures |msg| == MaxMessageLength(None) ==> (|":" + prefix + " " + msg| <= 510 <==> |prefix| <= 98)
  {
  }

  /** `idle_connection_get_max_message_length`: what a message may take so that the
      server can still put `:prefix ` before it. */
  function MaxMessageLength(relayPrefix: Option<string>): int {
    match relayPrefix
    case None => IRC_MSG_MAXLEN - 100
    case Some(prefix) => IRC_MSG_MAXLEN - (|prefix| + 2)
  }
}
