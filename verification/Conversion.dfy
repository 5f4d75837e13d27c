/** Conversion of what the socket delivers to UTF-8 (`idle_connection_ntoh`). */
module Conversion {
  import Chunking
  import Receiver
  import opened Irc
  import opened Salvage
  import opened Seqs
  import opened Utf8
  import opened Wrappers

  /** Bytes outside ASCII become question marks. */
  function AsciiOnly(s: string): (r: string)
    ensures |r| == |s|
    ensures forall i :: 0 <= i < |s| ==> r[i] == if In(s[i], 0, 0x7F) then s[i] else '?'
  {
    seq(|s|, i requires 0 <= i < |s| => if In(s[i], 0, 0x7F) then s[i] else '?')
  }

  /** What becomes of a chunk; `converted` is what `g_convert` makes of it. */
  function Ntoh(converted: Option<string>, input: string): string {
    match converted
    case None => AsciiOnly(input)
    case Some(text) => if Valid(text) then text else Repair(Read(text))
  }

  /** `idle_connection_ntoh`, with its loop over the copy of the input. */
  method ConvertChunk(converted: Option<string>, input: string) returns (ret: string)
    ensures ret == Ntoh(converted, input)
  {
    match converted
    case None =>
      var copy := new char[|input|](i requires 0 <= i < |input| => input[i]);
      for p := 0 to |input|
        invariant forall j :: 0 <= j < p ==> copy[j] == AsciiOnly(input)[j]
        invariant forall j :: p <= j < |input| ==> copy[j] == input[j]
      {
        if !In(copy[p], 0, 0x7F) {
          copy[p] := '?';
        }
      }
      ret := copy[..];
    case Some(text) =>
      ret := text;
      if ValidPrefix(text) < |text| {
        ret := SalvageUtf8(text);
      }
      ValidPrefixIsLongest(text);
  }

  lemma {:induction false} AsciiIsValid(s: string)
    requires forall i :: 0 <= i < |s| ==> In(s[i], 1, 0x7F)
    ensures Valid(s)
  {
    if s != "" {
      AsciiIsValid(s[1..]);
    }
  }

  lemma {:induction false} ValidHasNoNul(s: string)
    requires Valid(s)
    ensures '\0' !in s
  {
    if s != "" {
      var n := CharLen(s);
      ValidHasNoNul(s[n..]);
      assert s == s[..n] + s[n..];
      assert forall i :: 0 < i < n ==> IsTail(s[i]);
    }
  }

  /** Whatever the charset, the parser is given valid UTF-8. */
  lemma NtohIsValid(converted: Option<string>, input: string)
    requires '\0' !in input
    ensures Valid(Ntoh(converted, input))
  {
    hide CharLen;
    match converted
    case None => AsciiIsValid(AsciiOnly(input));
    case Some(text) => SalvagedIsValid(text);
  }

  /** A chunk when the charset is UTF-8.  `g_convert` is not told to leave an unfinished
      character over, so it refuses every chunk that is not valid by itself. */
  function Received(chunk: string): string {
    Ntoh(if Valid(chunk) then Some(chunk) else None, chunk)
  }

  /** A chunk reaches the parser as it came exactly when it is valid by itself. */
  lemma ReceivedIsRaw(chunk: string)
    requires '\0' !in chunk
    ensures Received(chunk) == chunk <==> Valid(chunk)
  {
    hide CharLen;
    NtohIsValid(if Valid(chunk) then Some(chunk) else None, chunk);
  }

  function AllReceived(chunks: seq<string>): seq<string> {
    seq(|chunks|, i requires 0 <= i < |chunks| => Received(chunks[i]))
  }

  // ---- A conversion that lengthens a chunk ----

  /** What `g_convert` makes of one byte of ISO-8859-1: one byte, or two. */
  function FromLatin1Byte(c: char): (u: string)
    ensures |u| == if In(c, 0, 0x7F) then 1 else 2
  {
    if In(c, 0, 0x7F) then [c] else [(0xC0 + c as int / 64 % 4) as char, (0x80 + c as int % 64) as char]
  }

  /** Both bytes together carry the code point, as section 3 of RFC 3629 lays it out. */
  lemma Latin1ByteIsCode(c: char)
    requires In(c, 0x80, 0xFF)
    ensures var u := FromLatin1Byte(c);
      (u[0] as int - 0xC0) * 64 + (u[1] as int - 0x80) == c as int && In(u[0], 0xC2, 0xC3) && IsTail(u[1])
  {
  }

  function FromLatin1(s: string): string {
    if s == "" then "" else FromLatin1Byte(s[0]) + FromLatin1(s[1..])
  }

  predicate IsLatin1(s: string) {
    forall i :: 0 <= i < |s| ==> In(s[i], 1, 0xFF)
  }

  /** How many bytes become two. */
  function HighCount(s: string): nat {
    if s == "" then 0 else (if In(s[0], 0, 0x7F) then 0 else 1) + HighCount(s[1..])
  }

  lemma {:induction false} Latin1Concat(a: string, b: string)
    ensures FromLatin1(a + b) == FromLatin1(a) + FromLatin1(b)
  {
    hide FromLatin1Byte;
    if a == "" {
      assert a + b == b;
    } else {
      Latin1Concat(a[1..], b);
      Assoc(FromLatin1Byte(a[0]), FromLatin1(a[1..]), FromLatin1(b));
      assert (a + b)[0] == a[0] && (a + b)[1..] == a[1..] + b;
    }
  }

  lemma {:induction false} Latin1IsValid(s: string)
    requires IsLatin1(s)
    ensures Valid(FromLatin1(s)) && |FromLatin1(s)| == |s| + HighCount(s)
    ensures NoEol(s) ==> NoEol(FromLatin1(s))
  {
    hide CharLen, FromLatin1Byte;
    if s != "" {
      Latin1IsValid(s[1..]);
      ByteIsValid(s[0]);
      ValidConcat(FromLatin1Byte(s[0]), FromLatin1(s[1..]));
    }
  }

  lemma ByteIsValid(c: char)
    requires In(c, 1, 0xFF)
    ensures Valid(FromLatin1Byte(c)) && (!IsEol(c) ==> NoEol(FromLatin1Byte(c)))
  {
    var u := FromLatin1Byte(c);
    assert CharLen(u) == |u| && u[|u|..] == "";
  }

  /** A line of ISO-8859-1 that one read delivers reaches the parser as a line exactly when
      it has at most 512 bytes after the conversion; otherwise it is discarded whole. */
  lemma Latin1LineFits(line: string)
    requires IsLatin1(line) && NoEol(line) && line != "" && |line| <= IRC_MSG_MAXLEN
    ensures var chunk := line + "\r\n";
      var given := Ntoh(Some(FromLatin1(chunk)), chunk);
      && |chunk| <= 512 && given == FromLatin1(line) + "\r\n"
      && (|line| + HighCount(line) <= 512 <==>
            Receiver.Receive("", given) == Receiver.Outcome([FromLatin1(line)], ""))
      && (|line| + HighCount(line) > 512 ==> Receiver.Receive("", given) == Receiver.Outcome([], ""))
  {
    hide Ntoh, Receiver.Receive, FromLatin1, HighCount;
    Latin1IsValid(line);
    LineIsConverted(line);
    Chunking.OneLineFits(FromLatin1(line));
  }

  lemma LineIsConverted(line: string)
    requires IsLatin1(line)
    ensures var chunk := line + "\r\n"; Ntoh(Some(FromLatin1(chunk)), chunk) == FromLatin1(line) + "\r\n"
  {
    hide FromLatin1, Valid;
    Latin1IsValid(line + "\r\n");
    Latin1Concat(line, "\r\n");
    CrlfIsAscii();
  }

  lemma CrlfIsAscii()
    ensures FromLatin1("\r\n") == "\r\n"
  {
    assert "\r\n"[1..] == "\n" && "\n"[1..] == "" && FromLatin1("\n") == "\n" + FromLatin1("");
    assert FromLatin1("\r\n") == ['\r'] + FromLatin1("\n");
  }

  function Repeated(c: char, n: nat): string {
    seq(n, i => c)
  }

  lemma {:induction false} HighOfRepeated(n: nat)
    ensures HighCount(Repeated('\U{E9}', n)) == n
  {
    if n > 0 {
      HighOfRepeated(n - 1);
      assert Repeated('\U{E9}', n)[1..] == Repeated('\U{E9}', n - 1);
    }
  }

  /** So 257 letters of two bytes each are lost. */
  lemma Latin1LineIsLost()
    ensures var chunk := Repeated('\U{E9}', 257) + "\r\n";
      Receiver.Receive("", Ntoh(Some(FromLatin1(chunk)), chunk)) == Receiver.Outcome([], "")
  {
    hide Receiver.Receive, Ntoh, FromLatin1;
    HighOfRepeated(257);
    Latin1LineFits(Repeated('\U{E9}', 257));
  }
}
