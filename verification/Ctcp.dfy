/** Client-to-client protocol messages (`idle-ctcp.c`). */
module Ctcp {
  import opened Irc
  import opened Seqs
  import opened Wrappers

  // ---- Sending ----

  predicate IsControl(c: char) {
    c == '\r' || c == '\n' || c == '\U{01}'
  }

  /** The three octal digits of a control character. */
  function Octal(c: char): (o: string)
    requires IsControl(c)
    ensures |o| == 3
  {
    if c == '\r' then "015" else if c == '\n' then "012" else "001"
  }

  function EscapeChar(c: char): (e: string)
    ensures 1 <= |e| <= 4
  {
    if IsControl(c) then "\\" + Octal(c) else if c == '\\' then "\\\\" else [c]
  }

  function Escape(s: string): string {
    if s == [] then [] else EscapeChar(s[0]) + Escape(s[1..])
  }

  lemma {:induction false} EscapeConcat(a: string, b: string)
    ensures Escape(a + b) == Escape(a) + Escape(b)
  {
    hide EscapeChar;
    if a == [] {
      assert a + b == b;
    } else {
      EscapeConcat(a[1..], b);
      Assoc(EscapeChar(a[0]), Escape(a[1..]), Escape(b));
      assert (a + b)[0] == a[0] && (a + b)[1..] == a[1..] + b;
    }
  }

  lemma EscapeNext(s: string, k: nat)
    requires k < |s|
    ensures Escape(s[..k + 1]) == Escape(s[..k]) + EscapeChar(s[k])
  {
    hide EscapeChar;
    EscapeConcat(s[..k], [s[k]]);
    assert s[..k + 1] == s[..k] + [s[k]];
    assert Escape([s[k]]) == EscapeChar(s[k]) + Escape([]);
  }

  function CtcpHeader(sendCmd: string, target: string): string {
    sendCmd + " " + target + " :\U{01}"
  }

  /** Length of the line that carries the first `k` bytes of `ctcp`. */
  function LineLength(header: nat, ctcp: string, k: nat): nat
    requires k <= |ctcp|
  {
    header + |Escape(ctcp[..k])| + 1
  }

  /** `k` is the longest prefix of `ctcp` that a line can carry after `header` bytes. */
  predicate LongestThatFits(header: nat, ctcp: string, k: nat) {
    && k <= |ctcp|
    && LineLength(header, ctcp, k) <= IRC_MSG_MAXLEN
    && (k < |ctcp| ==> LineLength(header, ctcp, k + 1) > IRC_MSG_MAXLEN)
  }

  /** Whether the closing \001 and NUL stay inside the buffer: the header leaves room for
      them and one byte, or for them alone and nothing is put between. */
  predicate HasRoom(header: nat, ctcp: string) {
    header <= 508 || (header == 509 && (ctcp == "" || |EscapeChar(ctcp[0])| > 1))
  }

  /** That is, the header, a first byte that needs no escape, and these two fit 511 bytes. */
  lemma RoomForThree(header: nat, ctcp: string)
    ensures HasRoom(header, ctcp) <==>
      header + (if ctcp != "" && ctcp[0] !in "\r\n\U{01}\\" then 1 else 0) + 2 <= 511
  {
  }

  datatype Sent = OutOfBuffer | Sent(line: string, rest: Option<string>)

  /** Writes the escape of one byte, unless an escape would not fit. */
  method PutEscaped(buf: array<char>, outIndex: nat, c: char) returns (fits: bool, newIndex: nat)
    requires buf.Length == IRC_MSG_MAXLEN + 1 && outIndex <= 509
    modifies buf
    ensures fits <==> |EscapeChar(c)| == 1 || outIndex + |EscapeChar(c)| < IRC_MSG_MAXLEN
    ensures fits ==> newIndex == outIndex + |EscapeChar(c)| && buf[..newIndex] == old(buf[..outIndex]) + EscapeChar(c)
    ensures !fits ==> newIndex == outIndex && buf[..] == old(buf[..])
  {
    fits, newIndex := true, outIndex;
    if IsControl(c) {
      if outIndex + 4 < IRC_MSG_MAXLEN {
        var o := Octal(c);
        buf[outIndex], buf[outIndex + 1], buf[outIndex + 2], buf[outIndex + 3], buf[outIndex + 4] :=
          '\\', o[0], o[1], o[2], '\0';
        newIndex := outIndex + 4;
      } else {
        fits := false;
      }
    } else if c == '\\' {
      if outIndex + 2 < IRC_MSG_MAXLEN {
        buf[outIndex], buf[outIndex + 1] := '\\', '\\';
        newIndex := outIndex + 2;
      } else {
        fits := false;
      }
    } else {
      buf[outIndex] := c;
      newIndex := outIndex + 1;
    }
  }

  /**
   * Frames as much of `ctcp` as one line can carry and returns what is left.  No
   * escape is cut: the payload is the escape of exactly the bytes sent.
   */
  method CtcpSend(sendCmd: string, target: string, ctcp: string) returns (r: Sent)
    ensures r.Sent? <==> HasRoom(|CtcpHeader(sendCmd, target)|, ctcp)
    ensures r.Sent? ==> exists k: nat ::
              && LongestThatFits(|CtcpHeader(sendCmd, target)|, ctcp, k)
              && r.line == CtcpHeader(sendCmd, target) + Escape(ctcp[..k]) + "\U{01}"
              && r.rest == if k == |ctcp| then None else Some(ctcp[k..])
  {
    hide EscapeChar, Escape, CtcpHeader;
    var header := CtcpHeader(sendCmd, target);
    if |header| >= IRC_MSG_MAXLEN {
      return OutOfBuffer;
    }
    var buf, outIndex, iter := Fill(header, ctcp);
    if outIndex + 1 >= buf.Length {
      return OutOfBuffer;
    }
    buf[outIndex], buf[outIndex + 1] := '\U{01}', '\0';
    var line := buf[..outIndex + 1];
    assert buf[..outIndex] == header + Escape(ctcp[..iter]);
    r := Sent(line, if iter == |ctcp| then None else Some(ctcp[iter..]));
    assert LongestThatFits(|header|, ctcp, iter);
  }

  /** The header and the escapes of the first `iter` bytes, as many as fit. */
  method Fill(header: string, ctcp: string) returns (buf: array<char>, outIndex: nat, iter: nat)
    requires |header| < IRC_MSG_MAXLEN
    ensures fresh(buf) && buf.Length == IRC_MSG_MAXLEN + 1 && iter <= |ctcp| && outIndex <= 510
    ensures buf[..outIndex] == header + Escape(ctcp[..iter])
    ensures outIndex <= 509 <==> HasRoom(|header|, ctcp)
    ensures outIndex <= 509 ==> LongestThatFits(|header|, ctcp, iter)
  {
    hide EscapeChar, Escape;
    buf := new char[IRC_MSG_MAXLEN + 1](_ => '\0');
    for i := 0 to |header|
      invariant buf[..i] == header[..i]
    {
      buf[i] := header[i];
    }
    outIndex, iter := |header|, 0;
    EscapeEmpty(ctcp);
    while iter < |ctcp|
      invariant 0 <= iter <= |ctcp| && (outIndex <= 508 || (iter == 0 && outIndex == 509))
      invariant iter == 0 ==> outIndex == |header|
      invariant iter > 0 ==> |header| < 509
      invariant buf[..outIndex] == header + Escape(ctcp[..iter])
    {
      EscapeNext(ctcp, iter);
      var fits, newIndex := PutEscaped(buf, outIndex, ctcp[iter]);
      if !fits {
        break;
      }
      outIndex := newIndex;
      iter := iter + 1;
      if outIndex >= IRC_MSG_MAXLEN - 1 {
        break;
      }
    }
    if iter < |ctcp| {
      EscapeNext(ctcp, iter);
    }
    assert |Escape(ctcp[..iter])| == outIndex - |header| by {
      assert |buf[..outIndex]| == outIndex;
    }
  }

  lemma EscapeEmpty(s: string)
    ensures Escape(s[..0]) == []
  {
  }

  /** Every call sends something, whatever the text, exactly when the header leaves
      room for one octal escape. */
  lemma ProgressNeedsRoom(header: nat)
    requires header <= 509
    ensures header <= 505 <==> forall ctcp, k :: ctcp != "" && LongestThatFits(header, ctcp, k) ==> k > 0
  {
    if header <= 505 {
      forall ctcp, k | ctcp != "" && LongestThatFits(header, ctcp, k) ensures k > 0 {
        EscapeNext(ctcp, 0);
        assert ctcp[..0] == [];
      }
    } else {
      EscapeNext("\n", 0);
      assert LongestThatFits(header, "\n", 0);
    }
  }

  /** The payload never carries a control character of its own. */
  lemma {:induction false} EscapeIsClean(s: string)
    ensures forall i :: 0 <= i < |Escape(s)| ==> !IsControl(Escape(s)[i])
  {
    if s != [] {
      EscapeIsClean(s[1..]);
    }
  }

  // ---- Formatting codes ----

  predicate IsFormat(c: char) {
    c in "\U{02}\U{03}\U{0F}\U{11}\U{12}\U{16}\U{1D}\U{1F}"
  }

  function DropDigit(s: string): (r: string)
    ensures |r| <= |s|
  {
    if s != [] && IsDigit(s[0]) then s[1..] else s
  }

  /** What follows the colour numbers after a ^C: one or two digits, and after a
      comma up to two more. */
  function AfterColour(s: string): (r: string)
    ensures |r| <= |s|
  {
    var t := DropDigit(DropDigit(s));
    if t != [] && t[0] == ',' then DropDigit(DropDigit(t[1..])) else t
  }

  function KillFormatting(s: string): (r: string)
    ensures forall i :: 0 <= i < |r| ==> !IsFormat(r[i])
    ensures (forall i :: 0 <= i < |s| ==> !IsFormat(s[i])) ==> r == s
    decreases |s|
  {
    if s == [] then []
    else if s[0] == '\U{03}' then KillFormatting(AfterColour(s[1..]))
    else if IsFormat(s[0]) then KillFormatting(s[1..])
    else [s[0]] + KillFormatting(s[1..])
  }

  /** `idle_ctcp_kill_blingbling`. */
  method KillBlingbling(msg: string) returns (killed: string)
    ensures killed == KillFormatting(msg)
  {
    hide AfterColour;
    killed := "";
    var iter := 0;
    assert msg[0..] == msg;
    while iter < |msg|
      invariant 0 <= iter <= |msg|
      invariant killed + KillFormatting(msg[iter..]) == KillFormatting(msg)
    {
      DropDrop(msg, iter, 1);
      ghost var later := if msg[iter] == '\U{03}' then AfterColour(msg[iter + 1..]) else msg[iter + 1..];
      if msg[iter] == '\U{03}' {
        iter := SkipColour(msg, iter + 1);
      } else if IsFormat(msg[iter]) {
        iter := iter + 1;
      } else {
        Assoc(killed, [msg[iter]], KillFormatting(later));
        killed := killed + [msg[iter]];
        iter := iter + 1;
      }
    }
  }

  method SkipColour(msg: string, at: nat) returns (iter: nat)
    requires at <= |msg|
    ensures at <= iter <= |msg| && msg[iter..] == AfterColour(msg[at..])
  {
    iter := SkipDigits(msg, at);
    if iter < |msg| && msg[iter] == ',' {
      DropDrop(msg, iter, 1);
      iter := SkipDigits(msg, iter + 1);
    }
  }

  method SkipDigits(msg: string, at: nat) returns (iter: nat)
    requires at <= |msg|
    ensures at <= iter <= |msg| && msg[iter..] == DropDigit(DropDigit(msg[at..]))
  {
    iter := at;
    if iter < |msg| && IsDigit(msg[iter]) {
      iter := iter + 1;
    }
    if iter < |msg| && IsDigit(msg[iter]) {
      iter := iter + 1;
    }
  }

  // ---- What is left of a formatted text ----

  /** The text with these bytes deleted, one after the other. */
  function Deleted(s: string, bytes: string): string
    decreases |bytes|
  {
    if bytes == "" then s else Deleted(Without(s, bytes[0]), bytes[1..])
  }

  lemma {:induction false} DeletedFirst(s: string, bytes: string)
    requires s != ""
    ensures Deleted(s, bytes) == (if s[0] in bytes then "" else [s[0]]) + Deleted(s[1..], bytes)
    decreases |bytes|
  {
    if bytes != "" {
      var t := Without(s, bytes[0]);
      if s[0] == bytes[0] {
        assert t == Without(s[1..], bytes[0]);
      } else {
        DeletedFirst(t, bytes[1..]);
        assert t[1..] == Without(s[1..], bytes[0]);
      }
    }
  }

  lemma {:induction false} DeletedNothing(bytes: string)
    ensures Deleted("", bytes) == ""
  {
    if bytes != "" {
      DeletedNothing(bytes[1..]);
    }
  }

  /** Bold, end of formatting, fixed width, reverse (twice), italic and underline. */
  const STYLES := "\U{02}\U{0F}\U{11}\U{12}\U{16}\U{1D}\U{1F}"

  lemma FormatOrColour(c: char)
    ensures IsFormat(c) <==> c in STYLES || c == '\U{03}'
  {
  }

  /** Of a text without colours exactly the bytes of its styles are deleted, and what follows
      it is treated by itself. */
  lemma {:induction false} StylesAreDeleted(a: string, later: string)
    requires '\U{03}' !in a
    ensures KillFormatting(a + later) == Deleted(a, STYLES) + KillFormatting(later)
  {
    hide AfterColour, STYLES, Deleted, IsFormat;
    if a == "" {
      assert a + later == later;
      DeletedNothing(STYLES);
    } else {
      StylesAreDeleted(a[1..], later);
      assert (a + later)[1..] == a[1..] + later;
      FormatOrColour(a[0]);
      DeletedFirst(a, STYLES);
    }
  }

  predicate Digits(s: string) {
    forall i :: 0 <= i < |s| ==> IsDigit(s[i])
  }

  /** The text goes on with a digit. */
  predicate GoesOn(s: string) {
    s != "" && IsDigit(s[0])
  }

  /** A colour takes up to two digits with it, and after a comma, which goes too, up to two
      more; what follows it is treated by itself. */
  lemma ColourIsDeleted(foreground: string, background: Option<string>, later: string)
    requires Digits(foreground) && |foreground| <= 2
    requires background.Some? ==> Digits(background.value) && |background.value| <= 2
    requires background.None? ==> (later == "" || later[0] != ',') && (|foreground| == 2 || !GoesOn(later))
    requires background.Some? ==> |background.value| == 2 || !GoesOn(later)
    ensures KillFormatting("\U{03}" + foreground + (if background.Some? then "," + background.value else "") + later)
         == KillFormatting(later)
  {
    hide KillFormatting, AfterColour, Digits, GoesOn;
    if background.Some? {
      ColourParts(foreground, "," + background.value, later);
      Assoc(",", background.value, later);
      BothColours(foreground, background.value, later);
    } else {
      ColourParts(foreground, "", later);
      assert "" + later == later;
      OneColour(foreground, later);
    }
  }

  lemma ColourParts(foreground: string, back: string, later: string)
    ensures KillFormatting("\U{03}" + foreground + back + later)
         == KillFormatting(AfterColour(foreground + (back + later)))
  {
    hide KillFormatting, AfterColour;
    var s := "\U{03}" + foreground + back + later;
    assert s[1..] == foreground + (back + later);
    ColourIsSkipped(s);
  }

  lemma OneColour(foreground: string, later: string)
    requires Digits(foreground) && |foreground| <= 2 && (|foreground| == 2 || !GoesOn(later))
    requires later == "" || later[0] != ','
    ensures AfterColour(foreground + later) == later
  {
    hide DropDigit;
    TwoDigits(foreground, later);
  }

  lemma BothColours(foreground: string, background: string, later: string)
    requires Digits(foreground) && |foreground| <= 2 && Digits(background) && |background| <= 2
    requires |background| == 2 || !GoesOn(later)
    ensures AfterColour(foreground + ("," + (background + later))) == later
  {
    hide DropDigit;
    var rest := "," + (background + later);
    assert rest[1..] == background + later;
    TwoDigits(foreground, rest);
    TwoDigits(background, later);
  }

  lemma ColourIsSkipped(s: string)
    requires s != "" && s[0] == '\U{03}'
    ensures KillFormatting(s) == KillFormatting(AfterColour(s[1..]))
  {
    hide AfterColour;
  }

  lemma TwoDigits(digits: string, later: string)
    requires Digits(digits) && |digits| <= 2 && (|digits| == 2 || !GoesOn(later))
    ensures DropDigit(DropDigit(digits + later)) == later
  {
    if |digits| == 2 {
      assert (digits + later)[1..][1..] == later;
    } else if |digits| == 1 {
      assert (digits + later)[1..] == later;
    } else {
      assert digits + later == later;
    }
  }
}
