/** Reassembly of lines from the chunks the socket delivers (`idle_parser_receive`). */
module Receiver {
  import opened Irc
  import opened Seqs

  /** Size of the continuation buffer. */
  const SPLIT_BUF_SIZE := IRC_MSG_MAXLEN + 3

  // ---- What a byte stream means ----

  /** Length of the text before the first CR or LF. */
  function LineLen(s: string): (n: nat)
    ensures n <= |s|
    ensures forall i :: 0 <= i < n ==> !IsEol(s[i])
    ensures n < |s| ==> IsEol(s[n])
  {
    if s == [] || IsEol(s[0]) then 0 else 1 + LineLen(s[1..])
  }

  function NonEmpty(line: string): seq<string> {
    if line == "" then [] else [line]
  }

  /** The nonempty lines completed in `s`. */
  function Lines(s: string): seq<string>
    decreases |s|
  {
    var n := LineLen(s);
    if n == |s| then [] else NonEmpty(s[..n]) + Lines(s[n + 1..])
  }

  /** The unfinished line at the end of `s`. */
  function Tail(s: string): string
    decreases |s|
  {
    var n := LineLen(s);
    if n == |s| then s else Tail(s[n + 1..])
  }

  lemma {:induction false} LineLenIs(s: string, n: nat)
    requires n <= |s| && (forall i :: 0 <= i < n ==> !IsEol(s[i])) && (n < |s| ==> IsEol(s[n]))
    ensures LineLen(s) == n
  {
  }

  /** The first completed line of a stream, split off. */
  lemma LinesOfFirst(line: string, eol: char, rest: string)
    requires NoEol(line) && IsEol(eol)
    ensures Lines(line + [eol] + rest) == NonEmpty(line) + Lines(rest)
    ensures Tail(line + [eol] + rest) == Tail(rest)
  {
    hide LineLen;
    var s := line + [eol] + rest;
    LineLenIs(s, |line|);
    assert s[..|line|] == line && s[|line| + 1..] == rest;
  }

  lemma LinesOfNone(line: string)
    requires NoEol(line)
    ensures Lines(line) == [] && Tail(line) == line
  {
    hide LineLen;
    LineLenIs(line, |line|);
  }

  /** A stream may be read in two parts, the unfinished line carried over. */
  lemma {:induction false} LinesConcat(a: string, b: string)
    ensures Lines(a + b) == Lines(a) + Lines(Tail(a) + b)
    ensures Tail(a + b) == Tail(Tail(a) + b)
    decreases |a|
  {
    hide LineLen, Lines, Tail;
    var n := LineLen(a);
    if n < |a| {
      LinesConcat(a[n + 1..], b);
      FirstLine(a, b);
      FirstLine(a, "");
      assert a + "" == a && a[n + 1..] + "" == a[n + 1..];
    } else {
      LinesOfNone(a);
    }
  }

  lemma FirstLine(a: string, b: string)
    requires LineLen(a) < |a|
    ensures var n := LineLen(a);
      && Lines(a + b) == NonEmpty(a[..n]) + Lines(a[n + 1..] + b)
      && Tail(a + b) == Tail(a[n + 1..] + b)
  {
    hide LineLen, Lines, Tail;
    var n := LineLen(a);
    LinesOfFirst(a[..n], a[n], a[n + 1..] + b);
    assert a[..n] + [a[n]] + (a[n + 1..] + b) == a + b;
  }

  // ---- What one call does ----

  datatype Outcome = Outcome(emitted: seq<string>, held: string)

  /** The lines the loop emits when `msg` is read from `lasti`; `held` is consulted
      only for a line that starts at the very beginning. */
  function Emitted(held: string, msg: string, lasti: nat): seq<string>
    requires lasti <= |msg|
    decreases |msg| - lasti
  {
    var n := LineLen(msg[lasti..]);
    if lasti + n == |msg| then []
    else LineAt(held, msg, lasti, lasti + n) + Emitted(held, msg, lasti + n + 1)
  }

  /** The line from `lasti` to the line end at `i`; nothing when it is empty. */
  function LineAt(held: string, msg: string, lasti: nat, i: nat): seq<string>
    requires lasti <= i <= |msg|
  {
    if i == lasti then [] else [(if lasti == 0 then held else "") + msg[lasti..i]]
  }

  /** Whether a line starting at the beginning of `msg` was completed with what was held. */
  predicate UsesHeld(msg: string) {
    0 < LineLen(msg) < |msg|
  }

  /** The part of a chunk that is searched for line ends. */
  function Scanned(msg: string): (s: string)
    ensures |s| <= |msg| && s == msg[..|s|]
  {
    if |msg| <= SPLIT_BUF_SIZE then msg else msg[..SPLIT_BUF_SIZE]
  }

  /** What a call emits and what it keeps. */
  function Receive(held: string, msg: string): Outcome {
    var s := Scanned(msg);
    var kept := if UsesHeld(s) then "" else held;
    var left := Tail(s) + msg[|s|..];
    Outcome(Emitted(held, s, 0),
            if s != "" && IsEol(s[|s| - 1]) then ""
            else if |left| > SPLIT_BUF_SIZE - |kept| - 1 then ""
            else kept + left)
  }

  /** The parser's line buffer. */
  class LineBuffer {
    const splitBuf: array<char>
    var splitBufUsed: nat

    ghost predicate Valid()
      reads this, splitBuf
    {
      && splitBuf.Length == SPLIT_BUF_SIZE && splitBufUsed < SPLIT_BUF_SIZE
      && (forall i :: 0 <= i < splitBufUsed ==> splitBuf[i] != '\0')
      && (forall i :: splitBufUsed <= i < SPLIT_BUF_SIZE ==> splitBuf[i] == '\0')
    }

    ghost function Held(): string
      reads this, splitBuf
      requires Valid()
    {
      splitBuf[..splitBufUsed]
    }

    constructor ()
      ensures Valid() && Held() == "" && fresh(splitBuf)
    {
      splitBuf := new char[SPLIT_BUF_SIZE](_ => '\0');
      splitBufUsed := 0;
    }

    method ClearSplitBuf()
      requires splitBuf.Length == SPLIT_BUF_SIZE
      modifies this, splitBuf
      ensures Valid() && Held() == ""
    {
      for i := 0 to SPLIT_BUF_SIZE
        invariant forall j :: 0 <= j < i ==> splitBuf[j] == '\0'
      {
        splitBuf[i] := '\0';
      }
      splitBufUsed := 0;
    }

    /** Appends `left`, or discards everything when it does not fit. */
    method KeepTail(left: string)
      requires Valid() && '\0' !in left
      modifies this, splitBuf
      ensures Valid()
      ensures Held() == if |left| > SPLIT_BUF_SIZE - |old(Held())| - 1 then "" else old(Held()) + left
    {
      if |left| > SPLIT_BUF_SIZE - splitBufUsed - 1 {
        ClearSplitBuf();
      } else {
        for i := 0 to |left|
          invariant splitBufUsed == old(splitBufUsed)
          invariant splitBuf[..splitBufUsed + i] == old(splitBuf[..splitBufUsed]) + left[..i]
          invariant forall j :: splitBufUsed + i <= j < SPLIT_BUF_SIZE ==> splitBuf[j] == '\0'
        {
          splitBuf[splitBufUsed + i] := left[i];
        }
        splitBufUsed := splitBufUsed + |left|;
        assert splitBuf[..splitBufUsed] == old(splitBuf[..splitBufUsed]) + left;
        forall j | 0 <= j < splitBufUsed ensures splitBuf[j] != '\0' {
          assert splitBuf[j] == splitBuf[..splitBufUsed][j];
        }
      }
    }

    /** The line from `lasti` to `i`; one at the start of a chunk continues what is held. */
    method TakeLine(msg: string, lasti: nat, i: nat) returns (tmp: string)
      requires Valid() && lasti < i <= |msg|
      modifies this, splitBuf
      ensures Valid()
      ensures tmp == (if lasti == 0 then old(Held()) else "") + msg[lasti..i]
      ensures Held() == if lasti == 0 then "" else old(Held())
    {
      if lasti == 0 && splitBuf[0] != '\0' {
        tmp := splitBuf[..splitBufUsed] + msg[..i];
        ClearSplitBuf();
      } else {
        tmp := msg[lasti..i];
      }
    }

    /** The loop over the scanned part of a chunk. */
    method ScanChunk(s: string) returns (emitted: seq<string>, lasti: nat, lineEnds: bool)
      requires Valid()
      modifies this, splitBuf
      ensures Valid()
      ensures emitted == Emitted(old(Held()), s, 0)
      ensures Held() == if UsesHeld(s) then "" else old(Held())
      ensures lasti <= |s| && s[lasti..] == Tail(s)
      ensures lineEnds <==> s != "" && IsEol(s[|s| - 1])
    {
      hide Emitted, Tail, LineLen, UsesHeld;
      ghost var held := Held();
      emitted, lasti, lineEnds := [], 0, false;
      assert s[0..] == s;
      for i := 0 to |s|
        invariant Valid() && lasti <= i
        invariant forall j :: lasti <= j < i ==> !IsEol(s[j])
        invariant lineEnds <==> i > 0 && IsEol(s[i - 1])
        invariant Held() == if lasti > 0 && UsesHeld(s) then "" else held
        invariant emitted + Emitted(held, s, lasti) == Emitted(held, s, 0)
        invariant Tail(s[lasti..]) == Tail(s)
      {
        if IsEol(s[i]) {
          ScanLine(held, s, lasti, i);
          Assoc(emitted, LineAt(held, s, lasti, i), Emitted(held, s, i + 1));
          if i > lasti {
            var tmp := TakeLine(s, lasti, i);
            emitted := emitted + [tmp];
          }
          lasti := i + 1;
          lineEnds := true;
        } else {
          lineEnds := false;
        }
      }
      ScanEnd(held, s, lasti);
    }

    /** `idle_parser_receive`, with the lines it emits in order. */
    method ReceiveChunk(msg: string) returns (emitted: seq<string>)
      requires Valid() && '\0' !in msg
      modifies this, splitBuf
      ensures Valid()
      ensures Outcome(emitted, Held()) == Receive(old(Held()), msg)
    {
      hide Emitted, Tail, LineLen, UsesHeld;
      var lasti, lineEnds;
      emitted, lasti, lineEnds := ScanChunk(Scanned(msg));
      assert msg[lasti..] == Scanned(msg)[lasti..] + msg[|Scanned(msg)|..];
      if !lineEnds {
        KeepTail(msg[lasti..]);
      } else {
        ClearSplitBuf();
      }
    }
  }

  /** A line end found at `i`, the current line having started at `lasti`. */
  lemma ScanLine(held: string, s: string, lasti: nat, i: nat)
    requires lasti <= i < |s| && IsEol(s[i]) && forall j :: lasti <= j < i ==> !IsEol(s[j])
    ensures Emitted(held, s, lasti) == LineAt(held, s, lasti, i) + Emitted(held, s, i + 1)
    ensures Tail(s[lasti..]) == Tail(s[i + 1..])
    ensures lasti == 0 ==> (UsesHeld(s) <==> i > 0)
  {
    hide LineLen, Tail, LineAt;
    LineLenIs(s[lasti..], i - lasti);
    TailOfFirst(s[lasti..]);
    DropDrop(s, lasti, i + 1 - lasti);
    if lasti == 0 {
      assert s[0..] == s;
    }
  }

  lemma {:induction false} TailOfFirst(s: string)
    requires LineLen(s) < |s|
    ensures Tail(s) == Tail(s[LineLen(s) + 1..])
  {
    hide LineLen;
  }

  lemma {:induction false} ScanEnd(held: string, s: string, lasti: nat)
    requires lasti <= |s| && forall j :: lasti <= j < |s| ==> !IsEol(s[j])
    ensures Emitted(held, s, lasti) == [] && Tail(s[lasti..]) == s[lasti..]
    ensures lasti == 0 ==> !UsesHeld(s)
  {
  }
}
