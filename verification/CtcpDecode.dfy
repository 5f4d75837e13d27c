/** Reading a CTCP message back into words (`idle_ctcp_decode`). */
module CtcpDecode {
  import opened Irc
  import opened Seqs
  import opened Ctcp

  predicate IsOctal(c: char) {
    '0' <= c <= '7'
  }

  /** Number of octal digits at the start of `s`. */
  function OctalRun(s: string): (n: nat)
    ensures n <= |s|
    ensures forall i :: 0 <= i < n ==> IsOctal(s[i])
    ensures n < |s| ==> !IsOctal(s[n])
  {
    if s == [] || !IsOctal(s[0]) then 0 else 1 + OctalRun(s[1..])
  }

  function OctalValue(digits: string): nat
    requires forall i :: 0 <= i < |digits| ==> IsOctal(digits[i])
  {
    if digits == [] then 0
    else 8 * OctalValue(digits[..|digits| - 1]) + DigitValue(digits[|digits| - 1])
  }

  function DigitValue(c: char): nat
    requires IsOctal(c)
  {
    c as int - '0' as int
  }

  /** `(gchar) strtol (..., 8)`: saturates at the largest `long`, then keeps a byte. */
  function OctalByte(digits: string): char
    requires forall i :: 0 <= i < |digits| ==> IsOctal(digits[i])
  {
    var v := OctalValue(digits);
    if v > 0x7FFF_FFFF_FFFF_FFFF then '\U{FF}' else (v % 256) as char
  }

  /** The C string a buffer holds: everything before the first NUL. */
  function CString(buf: string): string {
    buf[..IndexOf(buf, '\0')]
  }

  function Flush(tokens: seq<string>, cur: string): seq<string> {
    if CString(cur) == "" then tokens else tokens + [CString(cur)]
  }

  /** A separator starts a new buffer only when the old one holds a string. */
  function Reset(cur: string): string {
    if CString(cur) == "" then cur else ""
  }

  /** No backslash stands unpaired at the end of `s`. */
  predicate Paired(s: string) {
    if s == [] then true
    else if s[0] == '\\' then |s| >= 2 && Paired(if IsDigit(s[1]) then s[1..] else s[2..])
    else Paired(s[1..])
  }

  lemma {:induction false} PairedAfterOctal(s: string, n: nat)
    requires Paired(s) && n <= |s| && forall i :: 0 <= i < n ==> IsOctal(s[i])
    ensures Paired(s[n..])
  {
    if n > 0 {
      PairedAfterOctal(s[1..], n - 1);
    }
  }

  /** The words still to be read from `s`, when `cur` is in the token buffer and
      `quoted` says whether a quotation is open. */
  function DecodeFrom(s: string, cur: string, quoted: bool, tokens: seq<string>): seq<string>
    requires Paired(s)
    decreases |s|
  {
    if s == [] then Flush(tokens, cur)
    else if s[0] == '\\' then
      if IsDigit(s[1]) then
        var n := OctalRun(s[1..]);
        PairedAfterOctal(s[1..], n);
        if n > 0 then DecodeFrom(s[1..][n..], cur + [OctalByte(s[1..][..n])], quoted, tokens)
        else DecodeFrom(s[1..], cur, quoted, tokens)
      else DecodeFrom(s[2..], cur + [s[1]], quoted, tokens)
    else if s[0] == ' ' then
      if quoted then DecodeFrom(s[1..], cur + [' '], quoted, tokens)
      else DecodeFrom(s[1..], Reset(cur), quoted, Flush(tokens, cur))
    else if s[0] == '"' then DecodeFrom(s[1..], Reset(cur), !quoted, Flush(tokens, cur))
    else if s[0] == '\U{01}' then DecodeFrom(s[1..], cur, quoted, tokens)
    else DecodeFrom(s[1..], cur + [s[0]], quoted, tokens)
  }

  /** Whether the decoder looks at a message at all. */
  predicate IsCtcp(msg: string) {
    |msg| >= 2 && msg[0] == '\U{01}' && msg[1] != '\U{01}'
  }

  /** A string is copied out of the token buffer: there is none, or its NUL is inside. */
  predicate Ends(cur: string) {
    |cur| < IRC_MSG_MAXLEN || '\0' in cur
  }

  /** Whether every access stays inside message and token buffer, when `s` is still to be
      read and `cur` is in the buffer. */
  predicate InBounds(s: string, cur: string, quoted: bool): (r: bool)
    ensures r ==> Paired(s)
    decreases |s|
  {
    if s == [] then Ends(cur)
    else if s[0] == '\\' then
      |s| >= 2 &&
      if IsDigit(s[1]) then
        var n := OctalRun(s[1..]);
        PairedBeforeOctal(s[1..], n);
        if n > 0 then |cur| < IRC_MSG_MAXLEN && InBounds(s[1..][n..], cur + [OctalByte(s[1..][..n])], quoted)
        else InBounds(s[1..], cur, quoted)
      else |cur| < IRC_MSG_MAXLEN && InBounds(s[2..], cur + [s[1]], quoted)
    else if s[0] == ' ' then
      if quoted then |cur| < IRC_MSG_MAXLEN && InBounds(s[1..], cur + [' '], quoted)
      else Ends(cur) && InBounds(s[1..], Reset(cur), quoted)
    else if s[0] == '"' then Ends(cur) && InBounds(s[1..], Reset(cur), !quoted)
    else if s[0] == '\U{01}' then InBounds(s[1..], cur, quoted)
    else |cur| < IRC_MSG_MAXLEN && InBounds(s[1..], cur + [s[0]], quoted)
  }

  lemma {:induction false} PairedBeforeOctal(s: string, n: nat)
    requires n <= |s| && forall i :: 0 <= i < n ==> IsOctal(s[i])
    ensures Paired(s[n..]) ==> Paired(s)
  {
    if n > 0 {
      PairedBeforeOctal(s[1..], n - 1);
    }
  }

  /** What comes of a message; `Outside` when the source reads behind the message or
      leaves the token buffer. */
  datatype Reading = NotCtcp | Outside | Read(words: seq<string>)

  function Decode(msg: string): Reading {
    if !IsCtcp(msg) then NotCtcp
    else if InBounds(msg[1..], "", false) then Read(DecodeFrom(msg[1..], "", false, []))
    else Outside
  }

  /** The buffer of 510 bytes is filled with NULs beyond its first `n` bytes. */
  ghost predicate Holds(curToken: array<char>, n: nat, cur: string)
    reads curToken
  {
    && curToken.Length == IRC_MSG_MAXLEN && n == |cur| <= IRC_MSG_MAXLEN
    && curToken[..n] == cur
    && forall i :: n <= i < IRC_MSG_MAXLEN ==> curToken[i] == '\0'
  }

  /** Adds the token in the buffer, if there is one, and clears the buffer. */
  method FlushToken(curToken: array<char>, n: nat, ghost cur: string, tokens: seq<string>)
    returns (inside: bool, newTokens: seq<string>, newN: nat)
    requires Holds(curToken, n, cur)
    modifies curToken
    ensures inside == Ends(cur)
    ensures inside ==> newTokens == Flush(tokens, cur) && newN <= n && Holds(curToken, newN, Reset(cur))
  {
    inside, newTokens, newN := true, tokens, n;
    CStringOfPadded(cur, curToken[..]);
    if curToken[0] != '\0' {
      if IndexOf(curToken[..], '\0') == curToken.Length {
        return false, tokens, n;
      }
      newTokens := tokens + [CString(curToken[..])];
      for i := 0 to curToken.Length
        invariant forall j :: 0 <= j < i ==> curToken[j] == '\0'
      {
        curToken[i] := '\0';
      }
      newN := 0;
    }
  }

  lemma CStringOfPadded(cur: string, buf: string)
    requires 0 < |buf| == IRC_MSG_MAXLEN && cur <= buf && forall i :: |cur| <= i < |buf| ==> buf[i] == '\0'
    ensures CString(buf) == CString(cur)
    ensures CString(cur) == "" <==> buf[0] == '\0'
    ensures Ends(cur) <==> IndexOf(buf, '\0') < |buf|
  {
    assert buf[..|cur|] == cur;
    var b := IndexOf(cur, '\0');
    assert buf[..b] == cur[..b];
    if b < |buf| {
      assert b < |cur| ==> buf[b] == cur[b];
      IndexOfIs(buf, '\0', b);
    } else {
      assert cur == buf;
    }
  }

  method NewBuffer() returns (curToken: array<char>)
    ensures fresh(curToken) && Holds(curToken, 0, "")
  {
    curToken := new char[IRC_MSG_MAXLEN](_ => '\0');
  }

  method PutByte(curToken: array<char>, n: nat, ghost cur: string, c: char) returns (inside: bool, newN: nat)
    requires Holds(curToken, n, cur)
    modifies curToken
    ensures inside <==> |cur| < IRC_MSG_MAXLEN
    ensures inside ==> newN == n + 1 && Holds(curToken, newN, cur + [c])
  {
    if n == curToken.Length {
      return false, n;
    }
    curToken[n] := c;
    return true, n + 1;
  }

  /** What is still to be done is what was to be done, the more so outside the buffers. */
  ghost predicate SameRest(s: string, cur: string, quoted: bool, found: seq<string>,
                           t: string, newCur: string, newQuoted: bool, newFound: seq<string>)
  {
    && InBounds(s, cur, quoted) == InBounds(t, newCur, newQuoted)
    && (InBounds(s, cur, quoted) ==> DecodeFrom(s, cur, quoted, found) == DecodeFrom(t, newCur, newQuoted, newFound))
  }

  /** A backslash: an octal number, a lone backslash, or one byte quoted. */
  method DecodeEscape(msg: string, iter: nat, curToken: array<char>, n: nat,
                      ghost cur: string, ghost quoted: bool, ghost found: seq<string>)
    returns (inside: bool, newN: nat, newIter: nat, ghost newCur: string)
    requires iter < |msg| && msg[iter] == '\\' && Holds(curToken, n, cur)
    modifies curToken
    ensures !inside ==> !InBounds(msg[iter..], cur, quoted)
    ensures inside ==>
              && iter < newIter <= |msg| && Holds(curToken, newN, newCur)
              && SameRest(msg[iter..], cur, quoted, found, msg[newIter..], newCur, quoted, found)
  {
    hide OctalByte, Holds;
    var s := msg[iter..];
    inside, newN, newIter, newCur := true, n, iter + 1, cur;
    if |s| < 2 {
      return false, n, iter, cur;
    }
    DropDrop(msg, iter, 1);
    DropDrop(msg, iter, 2);
    if IsDigit(s[1]) {
      var run := OctalRun(s[1..]);
      DropDrop(msg, iter + 1, run);
      if run > 0 {
        newCur := cur + [OctalByte(s[1..][..run])];
        inside, newN := PutByte(curToken, n, cur, OctalByte(s[1..][..run]));
        newIter := iter + 1 + run;
      }
    } else {
      newCur := cur + [s[1]];
      inside, newN := PutByte(curToken, n, cur, s[1]);
      newIter := iter + 2;
    }
  }

  /** Any other byte. */
  method DecodePlain(c: char, ghost s: string, curToken: array<char>, n: nat, ghost cur: string,
                     quoted: bool, found: seq<string>)
    returns (inside: bool, newN: nat, newQuoted: bool, newFound: seq<string>, ghost newCur: string)
    requires s != "" && s[0] == c && c != '\\' && Holds(curToken, n, cur)
    modifies curToken
    ensures !inside ==> !InBounds(s, cur, quoted)
    ensures inside ==> Holds(curToken, newN, newCur)
                       && SameRest(s, cur, quoted, found, s[1..], newCur, newQuoted, newFound)
  {
    hide Flush, Reset, Holds, Ends;
    inside, newN, newQuoted, newFound, newCur := true, n, quoted, found, cur;
    if c == ' ' && !quoted {
      inside, newFound, newN := FlushToken(curToken, n, cur, found);
      newCur := Reset(cur);
    } else if c == '"' {
      inside, newFound, newN := FlushToken(curToken, n, cur, found);
      newCur := Reset(cur);
      newQuoted := !quoted;
    } else if c != '\U{01}' {
      inside, newN := PutByte(curToken, n, cur, c);
      newCur := cur + [c];
    }
  }

  /** The decoding loop. */
  method DecodeMessage(msg: string) returns (r: Reading)
    requires '\0' !in msg
    ensures r == Decode(msg)
  {
    hide Flush, Reset, OctalByte, Holds, InBounds, Ends;
    if |msg| < 2 || msg[0] != '\U{01}' || msg[1] == '\U{01}' {
      return NotCtcp;
    }
    var curToken := NewBuffer();
    var n: nat, quoted, found: seq<string>, iter: nat, inside := 0, false, [], 1, true;
    ghost var cur := "";
    while iter < |msg|
      invariant 1 <= iter <= |msg| && Holds(curToken, n, cur)
      invariant SameRest(msg[1..], "", false, [], msg[iter..], cur, quoted, found)
    {
      ghost var s := msg[iter..];
      if msg[iter] == '\\' {
        inside, n, iter, cur := DecodeEscape(msg, iter, curToken, n, cur, quoted, found);
      } else {
        DropDrop(msg, iter, 1);
        inside, n, quoted, found, cur := DecodePlain(msg[iter], s, curToken, n, cur, quoted, found);
        iter := iter + 1;
      }
      if !inside {
        return Outside;
      }
    }
    inside, found, n := FlushToken(curToken, n, cur, found);
    AtEnd(msg[iter..], cur, quoted);
    return if inside then Read(found) else Outside;
  }

  lemma AtEnd(s: string, cur: string, quoted: bool)
    requires s == ""
    ensures InBounds(s, cur, quoted) == Ends(cur)
  {
  }

  // ---- When the accesses stay inside ----

  lemma {:induction false} ShortIsInBounds(s: string, cur: string, quoted: bool)
    requires Paired(s) && |cur| + |s| < IRC_MSG_MAXLEN
    ensures InBounds(s, cur, quoted)
    decreases |s|
  {
    hide OctalByte;
    if s == "" {
    } else if s[0] == '\\' {
      if IsDigit(s[1]) {
        var n := OctalRun(s[1..]);
        PairedAfterOctal(s[1..], n);
        var c := if n > 0 then [OctalByte(s[1..][..n])] else [];
        assert cur + [] == cur && s[1..][0..] == s[1..];
        ShortIsInBounds(s[1..][n..], cur + c, quoted);
      } else {
        ShortIsInBounds(s[2..], cur + [s[1]], quoted);
      }
    } else if s[0] == ' ' && !quoted {
      ShortIsInBounds(s[1..], Reset(cur), quoted);
    } else if s[0] == '"' {
      ShortIsInBounds(s[1..], Reset(cur), !quoted);
    } else if s[0] == '\U{01}' {
      ShortIsInBounds(s[1..], cur, quoted);
    } else {
      ShortIsInBounds(s[1..], cur + [s[0]], quoted);
    }
  }

  /** A message of the length of an IRC line leaves the buffers exactly when a backslash
      stands unpaired at its end. */
  lemma LineIsInBounds(msg: string)
    requires |msg| <= IRC_MSG_MAXLEN
    ensures Decode(msg) == Outside <==> IsCtcp(msg) && !Paired(msg)
  {
    if IsCtcp(msg) && Paired(msg) {
      ShortIsInBounds(msg[1..], "", false);
    }
  }

  // ---- The decoder undoes the escaping ----

  /** The quote-aware word split of a raw text: a space outside quotes and a
      quotation mark end a word, and every other byte stands for itself. */
  function WordsFrom(s: string, cur: string, quoted: bool, words: seq<string>): seq<string> {
    if s == [] then Flush(words, cur)
    else if s[0] == ' ' && !quoted then WordsFrom(s[1..], "", quoted, Flush(words, cur))
    else if s[0] == '"' then WordsFrom(s[1..], "", !quoted, Flush(words, cur))
    else WordsFrom(s[1..], cur + [s[0]], quoted, words)
  }

  function Words(s: string): seq<string> {
    WordsFrom(s, "", false, [])
  }

  /** An escaped control character that runs into a digit of the text. */
  predicate Runs(s: string) {
    |s| >= 2 && IsControl(s[0]) && IsOctal(s[1])
  }

  predicate SomewhereRuns(s: string) {
    s != [] && (Runs(s) || SomewhereRuns(s[1..]))
  }

  function Frame(text: string): string {
    "\U{01}" + Escape(text) + "\U{01}"
  }

  /** The escaped text with the closing \001, one byte at a time. */
  lemma ClosedStep(s: string)
    requires s != []
    ensures Escape(s) + "\U{01}" == EscapeChar(s[0]) + (Escape(s[1..]) + "\U{01}")
  {
  }

  lemma {:induction false} ClosedIsPaired(s: string)
    ensures Paired(Escape(s) + "\U{01}")
  {
    if s != [] {
      ClosedStep(s);
      ClosedIsPaired(s[1..]);
      EscapeCharIsPaired(s[0], Escape(s[1..]) + "\U{01}");
    } else {
      assert Escape(s) + "\U{01}" == "\U{01}";
      assert Paired("\U{01}"[1..]);
    }
  }

  lemma EscapeCharIsPaired(c: char, t: string)
    requires Paired(t)
    ensures Paired(EscapeChar(c) + t)
  {
    var e := EscapeChar(c) + t;
    if IsControl(c) {
      var o := Octal(c);
      assert (o[2..] + t)[1..] == t;
      assert Paired(o[2..] + t);
      assert (o[1..] + t)[1..] == o[2..] + t;
      assert Paired(o[1..] + t);
      assert (o + t)[1..] == o[1..] + t;
      assert Paired(o + t);
      assert e[1..] == o + t;
    } else if c == '\\' {
      assert e[2..] == t;
    } else {
      assert e[1..] == t;
    }
  }

  lemma EscapeOfDigit(c: char)
    ensures IsOctal(c) ==> EscapeChar(c) == [c]
    ensures !IsOctal(c) ==> !IsOctal(EscapeChar(c)[0])
  {
  }

  /** The run of digits the escaped text starts with is the one the text starts with. */
  lemma {:induction false} RunOfClosed(s: string)
    ensures var r := OctalRun(s);
      && OctalRun(Escape(s) + "\U{01}") == r
      && (Escape(s) + "\U{01}")[r..] == Escape(s[r..]) + "\U{01}"
  {
    hide EscapeChar;
    if s != [] {
      ClosedStep(s);
      EscapeOfDigit(s[0]);
      if IsOctal(s[0]) {
        RunOfClosed(s[1..]);
        assert (Escape(s) + "\U{01}")[1..] == Escape(s[1..]) + "\U{01}";
        DropDrop(Escape(s) + "\U{01}", 1, OctalRun(s[1..]));
      }
    }
  }

  lemma OctalOfControl(c: char)
    requires IsControl(c)
    ensures forall i :: 0 <= i < 3 ==> IsOctal(Octal(c)[i])
    ensures OctalByte(Octal(c)) == c
  {
    var o := Octal(c);
    assert o[..2][..1][..0] == [];
    assert OctalValue(o[..2][..1]) == DigitValue(o[0]);
    assert OctalValue(o[..2]) == 8 * DigitValue(o[0]) + DigitValue(o[1]);
  }

  /** Reading the octal escape `o ++ t` consumes `o` and the digits `t` starts with. */
  lemma RunOfOctal(o: string, t: string)
    requires |o| == 3 && forall i :: 0 <= i < 3 ==> IsOctal(o[i])
    ensures OctalRun(o + t) == 3 + OctalRun(t)
  {
    assert (o + t)[1..] == o[1..] + t && (o + t)[1..][1..] == o[2..] + t;
    assert (o + t)[1..][1..][1..] == t;
  }

  /** The decoder at an octal escape: the digits `t` starts with are swallowed. */
  lemma DecodeOctal(o: string, t: string, cur: string, quoted: bool, tokens: seq<string>)
    requires |o| == 3 && (forall i :: 0 <= i < 3 ==> IsOctal(o[i])) && Paired(t)
    ensures var e, r := "\\" + o + t, OctalRun(t);
      && (forall i :: 0 <= i < 3 + r ==> IsOctal((o + t[..r])[i]))
      && Paired(e) && Paired(t[r..])
      && DecodeFrom(e, cur, quoted, tokens) == DecodeFrom(t[r..], cur + [OctalByte(o + t[..r])], quoted, tokens)
  {
    hide OctalByte;
    var e, r := "\\" + o + t, OctalRun(t);
    assert e[1..] == o + t;
    PairedPrepend(o, t);
    RunOfOctal(o, t);
    PairedAfterOctal(t, r);
    assert e[1..][3 + r..] == t[r..];
    assert e[1..][..3 + r] == o + t[..r];
    assert forall i :: 0 <= i < 3 + r ==> IsOctal((o + t[..r])[i]);
  }

  lemma {:induction false} PairedPrepend(o: string, t: string)
    requires Paired(t) && '\\' !in o
    ensures Paired(o + t)
  {
    if o == [] {
      assert o + t == t;
    } else {
      PairedPrepend(o[1..], t);
      assert (o + t)[1..] == o[1..] + t;
    }
  }

  lemma EscapeOfControl(c: char)
    requires IsControl(c)
    ensures EscapeChar(c) == "\\" + Octal(c)
  {
  }

  function Closed(s: string): (e: string)
    ensures Paired(e)
  {
    ClosedIsPaired(s);
    Escape(s) + "\U{01}"
  }

  /** One byte of the raw text that is not an escaped control character running
      into a digit. */
  lemma DecodeByte(s: string, cur: string, quoted: bool, tokens: seq<string>)
    requires s != [] && !Runs(s)
    ensures DecodeFrom(Closed(s), cur, quoted, tokens) ==
      if s[0] == ' ' && !quoted then DecodeFrom(Closed(s[1..]), Reset(cur), quoted, Flush(tokens, cur))
      else if s[0] == '"' then DecodeFrom(Closed(s[1..]), Reset(cur), !quoted, Flush(tokens, cur))
      else DecodeFrom(Closed(s[1..]), cur + [s[0]], quoted, tokens)
  {
    hide OctalByte, Reset, Flush, Octal;
    var t := Closed(s[1..]);
    ClosedStep(s);
    if IsControl(s[0]) {
      var c := DecodeRun(s, cur, quoted, tokens);
    } else if s[0] == '\\' {
      assert Closed(s)[2..] == t;
    } else {
      assert Closed(s)[1..] == t;
    }
  }

  /** An escaped control character with the digits after it becomes one byte,
      which is the character itself when no digit follows. */
  lemma DecodeRun(s: string, cur: string, quoted: bool, tokens: seq<string>) returns (c: char)
    requires s != [] && IsControl(s[0])
    ensures DecodeFrom(Closed(s), cur, quoted, tokens)
         == DecodeFrom(Closed(s[1..][OctalRun(s[1..])..]), cur + [c], quoted, tokens)
    ensures OctalRun(s[1..]) == 0 ==> c == s[0]
  {
    hide OctalByte, Octal, EscapeChar, DecodeFrom;
    var t, o, r := Closed(s[1..]), Octal(s[0]), OctalRun(s[1..]);
    ClosedStep(s);
    EscapeOfControl(s[0]);
    OctalOfControl(s[0]);
    RunOfClosed(s[1..]);
    DecodeOctal(o, t, cur, quoted, tokens);
    assert "\\" + o + t == Closed(s);
    c := OctalByte(o + t[..r]);
    if r == 0 {
      assert o + t[..r] == o;
    }
  }

  lemma CStringOfText(cur: string)
    requires '\0' !in cur
    ensures CString(cur) == cur
  {
  }

  /** A buffer that holds text is emptied by a separator. */
  lemma ResetOfText(cur: string)
    requires '\0' !in cur
    ensures Reset(cur) == ""
  {
  }

  lemma {:induction false} DecodeIsWords(s: string, cur: string, quoted: bool, tokens: seq<string>)
    requires !SomewhereRuns(s) && '\0' !in s && '\0' !in cur
    ensures DecodeFrom(Closed(s), cur, quoted, tokens) == WordsFrom(s, cur, quoted, tokens)
  {
    hide Flush, Reset, Escape;
    if s == [] {
      DecodeNothing(cur, quoted, tokens);
    } else {
      DecodeByte(s, cur, quoted, tokens);
      ResetOfText(cur);
      if s[0] == ' ' && !quoted {
        DecodeIsWords(s[1..], "", quoted, Flush(tokens, cur));
      } else if s[0] == '"' {
        DecodeIsWords(s[1..], "", !quoted, Flush(tokens, cur));
      } else {
        DecodeIsWords(s[1..], cur + [s[0]], quoted, tokens);
      }
    }
  }

  lemma DecodeNothing(cur: string, quoted: bool, tokens: seq<string>)
    ensures DecodeFrom(Closed(""), cur, quoted, tokens) == Flush(tokens, cur)
  {
  }

  // When an escape runs into a digit something is lost, so the words differ.

  /** Bytes of `s` that end up in some word. */
  function Letters(s: string, quoted: bool): nat {
    if s == [] then 0
    else if s[0] == ' ' && !quoted then Letters(s[1..], quoted)
    else if s[0] == '"' then Letters(s[1..], !quoted)
    else 1 + Letters(s[1..], quoted)
  }

  function Weight(tokens: seq<string>): nat {
    |Flatten(tokens)|
  }

  lemma WeightOfFlush(tokens: seq<string>, cur: string)
    ensures Weight(Flush(tokens, cur)) + |Reset(cur)| <= Weight(tokens) + |cur|
    ensures Weight(Flush(tokens, cur)) <= Weight(tokens) + |cur|
    ensures '\0' !in cur ==> Weight(Flush(tokens, cur)) == Weight(tokens) + |cur|
  {
    FlattenSnoc(tokens, CString(cur));
    if '\0' !in cur {
      CStringOfText(cur);
    }
  }

  lemma {:induction false} WeightOfWords(s: string, cur: string, quoted: bool, words: seq<string>)
    requires '\0' !in s && '\0' !in cur
    ensures Weight(WordsFrom(s, cur, quoted, words)) == Weight(words) + |cur| + Letters(s, quoted)
  {
    hide Weight, Flush;
    WeightOfFlush(words, cur);
    if s != [] {
      if s[0] == ' ' && !quoted {
        WeightOfWords(s[1..], "", quoted, Flush(words, cur));
      } else if s[0] == '"' {
        WeightOfWords(s[1..], "", !quoted, Flush(words, cur));
      } else {
        WeightOfWords(s[1..], cur + [s[0]], quoted, words);
      }
    }
  }

  lemma {:induction false} LettersOfRun(s: string, n: nat, quoted: bool)
    requires n <= |s| && forall i :: 0 <= i < n ==> IsOctal(s[i])
    ensures Letters(s, quoted) == n + Letters(s[n..], quoted)
  {
    if n > 0 {
      LettersOfRun(s[1..], n - 1, quoted);
    }
  }

  lemma {:induction false} WeightOfDecoded(s: string, cur: string, quoted: bool, tokens: seq<string>)
    ensures var w := Weight(DecodeFrom(Closed(s), cur, quoted, tokens));
      && w <= Weight(tokens) + |cur| + Letters(s, quoted)
      && (SomewhereRuns(s) ==> w < Weight(tokens) + |cur| + Letters(s, quoted))
    decreases |s|
  {
    hide Weight, Flush, Reset, Escape, DecodeFrom, Closed;
    WeightOfFlush(tokens, cur);
    if s == [] {
      DecodeNothing(cur, quoted, tokens);
    } else if Runs(s) {
      var r := OctalRun(s[1..]);
      var c := DecodeRun(s, cur, quoted, tokens);
      WeightOfDecoded(s[1..][r..], cur + [c], quoted, tokens);
      LettersOfRun(s[1..], r, quoted);
    } else {
      DecodeByte(s, cur, quoted, tokens);
      if s[0] == ' ' && !quoted {
        WeightOfDecoded(s[1..], Reset(cur), quoted, Flush(tokens, cur));
      } else if s[0] == '"' {
        WeightOfDecoded(s[1..], Reset(cur), !quoted, Flush(tokens, cur));
      } else {
        WeightOfDecoded(s[1..], cur + [s[0]], quoted, tokens);
      }
    }
  }

  // ---- What the token buffer can hold ----

  /** Every word leaves room for its NUL. */
  predicate AllShort(words: seq<string>) {
    forall i :: 0 <= i < |words| ==> |words[i]| < IRC_MSG_MAXLEN
  }

  lemma FlushShort(words: seq<string>, cur: string)
    requires '\0' !in cur
    ensures AllShort(Flush(words, cur)) <==> AllShort(words) && |cur| < IRC_MSG_MAXLEN
    ensures Ends(cur) <==> |cur| < IRC_MSG_MAXLEN
  {
    CStringOfText(cur);
    var f := words + [cur];
    assert f[|words|] == cur && forall i :: 0 <= i < |words| ==> f[i] == words[i];
  }

  /** A word that is too long stays. */
  lemma {:induction false} LongStays(s: string, cur: string, quoted: bool, words: seq<string>)
    requires '\0' !in s && '\0' !in cur && !(AllShort(words) && |cur| < IRC_MSG_MAXLEN)
    ensures !AllShort(WordsFrom(s, cur, quoted, words))
  {
    hide AllShort, Flush, Ends;
    FlushShort(words, cur);
    if s != "" {
      if s[0] == ' ' && !quoted {
        LongStays(s[1..], "", quoted, Flush(words, cur));
      } else if s[0] == '"' {
        LongStays(s[1..], "", !quoted, Flush(words, cur));
      } else {
        LongStays(s[1..], cur + [s[0]], quoted, words);
      }
    }
  }

  lemma BoundsOfNothing(cur: string, quoted: bool)
    ensures InBounds(Closed(""), cur, quoted) == Ends(cur)
  {
    hide Ends;
    assert Closed("") == "\U{01}" && Closed("")[1..] == "";
  }

  /** One byte of the raw text, as for `DecodeByte`. */
  lemma BoundsOfByte(s: string, cur: string, quoted: bool)
    requires s != [] && !Runs(s)
    ensures InBounds(Closed(s), cur, quoted) ==
      if s[0] == ' ' && !quoted then Ends(cur) && InBounds(Closed(s[1..]), Reset(cur), quoted)
      else if s[0] == '"' then Ends(cur) && InBounds(Closed(s[1..]), Reset(cur), !quoted)
      else |cur| < IRC_MSG_MAXLEN && InBounds(Closed(s[1..]), cur + [s[0]], quoted)
  {
    hide OctalByte, Reset, Octal, Ends;
    var t := Closed(s[1..]);
    ClosedStep(s);
    if IsControl(s[0]) {
      BoundsOfControl(s, cur, quoted);
    } else if s[0] == '\\' {
      assert Closed(s)[2..] == t;
    } else {
      assert Closed(s)[1..] == t;
    }
  }

  lemma BoundsOfControl(s: string, cur: string, quoted: bool)
    requires s != [] && IsControl(s[0]) && !Runs(s)
    ensures InBounds(Closed(s), cur, quoted)
         == (|cur| < IRC_MSG_MAXLEN && InBounds(Closed(s[1..]), cur + [s[0]], quoted))
  {
    hide OctalByte, Octal, EscapeChar, Escape, Ends, Reset;
    var t, o := Closed(s[1..]), Octal(s[0]);
    ClosedStep(s);
    EscapeOfControl(s[0]);
    OctalOfControl(s[0]);
    RunOfClosed(s[1..]);
    RunOfOctal(o, t);
    assert "\\" + o + t == Closed(s) && Closed(s)[1..] == o + t;
    assert (o + t)[..3] == o && (o + t)[3..] == t;
  }

  lemma {:induction false} InBoundsIsShort(s: string, cur: string, quoted: bool, words: seq<string>)
    requires !SomewhereRuns(s) && '\0' !in s && '\0' !in cur && AllShort(words)
    ensures InBounds(Closed(s), cur, quoted) <==> AllShort(WordsFrom(s, cur, quoted, words))
  {
    hide Flush, Reset, Escape, AllShort, InBounds, Ends, Closed;
    FlushShort(words, cur);
    if s == [] {
      BoundsOfNothing(cur, quoted);
    } else {
      BoundsOfByte(s, cur, quoted);
      ResetOfText(cur);
      if |cur| >= IRC_MSG_MAXLEN {
        LongStays(s, cur, quoted, words);
      } else if s[0] == ' ' && !quoted {
        InBoundsIsShort(s[1..], "", quoted, Flush(words, cur));
      } else if s[0] == '"' {
        InBoundsIsShort(s[1..], "", !quoted, Flush(words, cur));
      } else {
        InBoundsIsShort(s[1..], cur + [s[0]], quoted, words);
      }
    }
  }

  /**
   * Decoding what the encoder framed gives the words of the raw text exactly when
   * no carriage return, newline or \001 of the text is directly followed by an
   * octal digit and every word fits the token buffer.
   */
  lemma DecodeUndoesEscape(text: string)
    requires text != "" && '\0' !in text
    ensures Decode(Frame(text)) == Read(Words(text)) <==> !SomewhereRuns(text) && AllShort(Words(text))
  {
    hide DecodeFrom, WordsFrom, EscapeChar, InBounds, AllShort;
    FrameIsCtcp(text);
    if SomewhereRuns(text) {
      WeightOfDecoded(text, "", false, []);
      WeightOfWords(text, "", false, []);
    } else {
      DecodeIsWords(text, "", false, []);
      NoneIsShort();
      InBoundsIsShort(text, "", false, []);
    }
  }

  lemma {:induction false} OneWord(s: string, cur: string, words: seq<string>)
    requires ' ' !in s && '"' !in s
    ensures WordsFrom(s, cur, false, words) == Flush(words, cur + s)
  {
    hide Flush;
    if s == "" {
      assert cur + s == cur;
    } else {
      OneWord(s[1..], cur + [s[0]], words);
      assert cur + [s[0]] + s[1..] == cur + s;
    }
  }

  /** A word of 510 bytes leaves the token buffer, and a backslash at the end lets the
      source read behind the message. */
  lemma LongWordIsOutside(word: string)
    requires |word| >= IRC_MSG_MAXLEN && ' ' !in word && '"' !in word && '\0' !in word && !SomewhereRuns(word)
    ensures Decode(Frame(word)) == Outside && Decode("\U{01}\\") == Outside
  {
    hide Flush, InBounds, AllShort;
    FrameIsCtcp(word);
    NoneIsShort();
    InBoundsIsShort(word, "", false, []);
    OneWord(word, "", []);
    FlushShort([], word);
    assert "" + word == word;
    LoneBackslash();
  }

  lemma LoneBackslash()
    ensures Decode("\U{01}\\") == Outside
  {
    assert "\U{01}\\"[1..] == "\\";
  }

  lemma NoneIsShort()
    ensures AllShort([])
  {
  }

  lemma FrameIsCtcp(text: string)
    requires text != ""
    ensures Paired(Frame(text)) && IsCtcp(Frame(text)) && Frame(text)[1..] == Closed(text)
  {
    assert Frame(text)[1..] == Closed(text);
  }

  // ---- What the words of a text are ----

  /** A word as a client writes it: bare, or in quotation marks, where it may hold spaces. */
  datatype Arg = Bare(word: string) | Quoted(word: string)

  predicate Writable(a: Arg) {
    a.word != "" && '"' !in a.word && '\0' !in a.word && (a.Bare? ==> ' ' !in a.word)
  }

  /** The words with a space behind each. */
  function Write(args: seq<Arg>): string {
    if args == [] then ""
    else (if args[0].Bare? then args[0].word else "\"" + args[0].word + "\"") + " " + Write(args[1..])
  }

  lemma {:induction false} WordIsCollected(w: string, cur: string, rest: string, quoted: bool, words: seq<string>)
    requires '"' !in w && (!quoted ==> ' ' !in w)
    ensures WordsFrom(w + rest, cur, quoted, words) == WordsFrom(rest, cur + w, quoted, words)
  {
    hide Flush;
    if w == "" {
      assert w + rest == rest && cur + w == cur;
    } else {
      WordIsCollected(w[1..], cur + [w[0]], rest, quoted, words);
      assert (w + rest)[1..] == w[1..] + rest && cur + [w[0]] + w[1..] == cur + w;
    }
  }

  lemma FlushWord(words: seq<string>, w: string)
    requires '\0' !in w
    ensures Flush(words, w) == if w == "" then words else words + [w]
  {
    CStringOfText(w);
  }

  lemma QuoteOpens(rest: string, words: seq<string>)
    ensures WordsFrom("\"" + rest, "", false, words) == WordsFrom(rest, "", true, words)
  {
    FlushWord(words, "");
    assert ("\"" + rest)[1..] == rest;
  }

  /** A separator ends a word: a space outside of quotation marks, or the closing mark with the
      space behind it. */
  lemma WordEnds(w: string, rest: string, words: seq<string>)
    requires w != "" && '\0' !in w
    ensures WordsFrom(" " + rest, w, false, words) == WordsFrom(rest, "", false, words + [w])
    ensures WordsFrom("\" " + rest, w, true, words) == WordsFrom(rest, "", false, words + [w])
  {
    hide Flush;
    FlushWord(words, w);
    FlushWord(words + [w], "");
    assert (" " + rest)[1..] == rest && ("\" " + rest)[1..] == " " + rest;
  }

  lemma FirstArg(a: Arg, rest: string, words: seq<string>)
    requires Writable(a)
    ensures WordsFrom((if a.Bare? then a.word else "\"" + a.word + "\"") + " " + rest, "", false, words)
         == WordsFrom(rest, "", false, words + [a.word])
  {
    hide WordsFrom;
    assert "" + a.word == a.word;
    if a.Bare? {
      WordIsCollected(a.word, "", " " + rest, false, words);
      assert a.word + " " + rest == a.word + (" " + rest);
    } else {
      QuoteOpens(a.word + ("\" " + rest), words);
      WordIsCollected(a.word, "", "\" " + rest, true, words);
      assert "\"" + a.word + "\"" + " " + rest == "\"" + (a.word + ("\" " + rest));
    }
    WordEnds(a.word, rest, words);
  }

  lemma {:induction false} WordsAre(args: seq<Arg>, words: seq<string>)
    requires forall i :: 0 <= i < |args| ==> Writable(args[i])
    ensures WordsFrom(Write(args), "", false, words) == words + Strings(args)
    decreases |args|
  {
    hide WordsFrom, Writable;
    if args == [] {
      NoWords(words);
    } else {
      assert Writable(args[0]);
      FirstArg(args[0], Write(args[1..]), words);
      WordsAre(args[1..], words + [args[0].word]);
      assert Strings(args) == [args[0].word] + Strings(args[1..]);
    }
  }

  lemma NoWords(words: seq<string>)
    ensures WordsFrom("", "", false, words) == words
  {
    FlushWord(words, "");
  }

  function Strings(args: seq<Arg>): (words: seq<string>)
    ensures |words| == |args|
  {
    seq(|args|, i requires 0 <= i < |args| => args[i].word)
  }

  /** The words written are the words of the text; so the decoder gives back whatever words a
      client writes, bare or quoted, under the condition of `DecodeUndoesEscape`. */
  lemma WrittenWordsComeBack(args: seq<Arg>)
    requires args != [] && forall i :: 0 <= i < |args| ==> Writable(args[i])
    ensures Words(Write(args)) == Strings(args)
    ensures Decode(Frame(Write(args))) == Read(Strings(args)) <==>
      !SomewhereRuns(Write(args)) && AllShort(Strings(args))
  {
    hide WordsFrom, Decode, AllShort, SomewhereRuns, Writable;
    WordsAre(args, []);
    WriteIsText(args);
    DecodeUndoesEscape(Write(args));
    assert [] + Strings(args) == Strings(args);
  }

  lemma {:induction false} WriteIsText(args: seq<Arg>)
    requires forall i :: 0 <= i < |args| ==> Writable(args[i])
    ensures '\0' !in Write(args) && (args != [] ==> Write(args) != "")
  {
    if args != [] {
      WriteIsText(args[1..]);
      assert Writable(args[0]);
    }
  }

  // ---- Numbers and NULs in a request ----

  /** A number as `%o` writes it. */
  function OctalDigits(n: nat): string {
    (if n < 8 then "" else OctalDigits(n / 8)) + [('0' as int + n % 8) as char]
  }

  lemma {:induction false} OctalIsDigits(n: nat)
    ensures forall i :: 0 <= i < |OctalDigits(n)| ==> IsOctal(OctalDigits(n)[i])
    ensures OctalValue(OctalDigits(n)) == n
  {
    if n >= 8 {
      OctalIsDigits(n / 8);
      assert OctalDigits(n)[..|OctalDigits(n)| - 1] == OctalDigits(n / 8);
    } else {
      assert OctalDigits(n) == [('0' as int + n) as char] && OctalDigits(n)[..0] == "";
    }
  }

  /** A number in a request is kept modulo 256, and one of more than 63 bits becomes the byte of
      all ones. */
  lemma NumberIsByte(n: nat)
    ensures forall i :: 0 <= i < |OctalDigits(n)| ==> IsOctal(OctalDigits(n)[i])
    ensures OctalByte(OctalDigits(n)) == if n < 0x8000_0000_0000_0000 then (n % 256) as char else '\U{FF}'
  {
    OctalIsDigits(n);
  }

  /** A word that starts with an escaped NUL swallows the rest of the request: no separator
      empties the buffer any more, and nothing is added. */
  lemma {:induction false} NulSwallowsRest(s: string, cur: string, quoted: bool, tokens: seq<string>)
    requires Paired(s) && cur != "" && cur[0] == '\0'
    ensures DecodeFrom(s, cur, quoted, tokens) == tokens
    decreases |s|
  {
    hide OctalByte;
    NulIsEmpty(cur);
    if s == "" {
    } else if s[0] == '\\' {
      if IsDigit(s[1]) {
        var n := OctalRun(s[1..]);
        PairedAfterOctal(s[1..], n);
        if n > 0 {
          NulSwallowsRest(s[1..][n..], cur + [OctalByte(s[1..][..n])], quoted, tokens);
        } else {
          NulSwallowsRest(s[1..], cur, quoted, tokens);
        }
      } else {
        NulSwallowsRest(s[2..], cur + [s[1]], quoted, tokens);
      }
    } else if s[0] == ' ' && !quoted {
      NulSwallowsRest(s[1..], cur, quoted, tokens);
    } else if s[0] == '"' {
      NulSwallowsRest(s[1..], cur, !quoted, tokens);
    } else if s[0] == '\U{01}' {
      NulSwallowsRest(s[1..], cur, quoted, tokens);
    } else {
      NulSwallowsRest(s[1..], cur + [s[0]], quoted, tokens);
    }
  }

  lemma NulIsEmpty(cur: string)
    requires cur != "" && cur[0] == '\0'
    ensures CString(cur) == ""
  {
  }
}
