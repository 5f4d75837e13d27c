/** Chunks as the source reads them, and the stream they make up (`idle_parser_receive`). */
module Chunking {
  import opened Irc
  import opened Receiver
  import opened Seqs

  // ---- Chunks and streams ----

  /** What `Receive` ought to do: continue the stream. */
  function Continue(held: string, msg: string): Outcome {
    Outcome(Lines(held + msg), Tail(held + msg))
  }

  predicate AllEol(s: string) {
    forall i :: 0 <= i < |s| ==> IsEol(s[i])
  }

  /** Only 513 bytes of a chunk are searched for line ends.  More do no harm when they just
      end the last line again, or just continue it. */
  predicate Searched(msg: string) {
    |msg| <= SPLIT_BUF_SIZE ||
    if IsEol(msg[SPLIT_BUF_SIZE - 1]) then AllEol(msg[SPLIT_BUF_SIZE..]) else NoEol(msg[SPLIT_BUF_SIZE..])
  }

  /** The three ways in which a chunk goes wrong, all visible before the call. */
  predicate Orderly(held: string, msg: string) {
    && (held == "" || msg == "" || !IsEol(msg[0]))
    && |Tail(held + msg)| < SPLIT_BUF_SIZE
    && Searched(msg)
  }

  /** From inside a chunk what is held no longer matters. */
  lemma {:induction false} EmittedLater(held: string, s: string, lasti: nat)
    requires lasti <= |s| && (lasti > 0 || held == "")
    ensures Emitted(held, s, lasti) == Lines(s[lasti..])
    decreases |s| - lasti
  {
    hide LineLen, Emitted, Lines, Tail;
    var rest := s[lasti..];
    var n := LineLen(rest);
    if n == |rest| {
      ScanEnd(held, s, lasti);
      LinesOfNone(rest);
    } else {
      ScanLine(held, s, lasti, lasti + n);
      EmittedLater(held, s, lasti + n + 1);
      FirstOfLines(rest);
      DropDrop(s, lasti, n + 1);
      assert "" + s[lasti..lasti + n] == rest[..n];
    }
  }

  lemma {:induction false} FirstOfLines(s: string)
    requires LineLen(s) < |s|
    ensures var n := LineLen(s); Lines(s) == NonEmpty(s[..n]) + Lines(s[n + 1..])
  {
    hide LineLen;
  }

  lemma {:induction false} TailLen(s: string)
    ensures |Tail(s)| <= |s| && NoEol(Tail(s))
    ensures |Tail(s)| == |s| <==> NoEol(s)
    ensures Tail(s) == "" <==> s == "" || IsEol(s[|s| - 1])
    decreases |s|
  {
    var n := LineLen(s);
    if n < |s| {
      var rest := s[n + 1..];
      TailLen(rest);
      assert rest != [] ==> rest[|rest| - 1] == s[|s| - 1];
    }
  }

  /** The three ways a chunk can start: inside the first line, with no line end at
      all, or with a line end. */
  lemma StartOfChunk(held: string, msg: string)
    requires NoEol(held)
    ensures UsesHeld(msg) ==> Continue(held, msg) == Outcome(Emitted(held, msg, 0), Tail(msg))
    ensures NoEol(msg) ==> Continue(held, msg) == Outcome(Emitted(held, msg, 0), held + msg)
    ensures msg != "" && IsEol(msg[0]) ==>
              Lines(held + msg) == NonEmpty(held) + Emitted(held, msg, 0) && Tail(held + msg) == Tail(msg)
  {
    hide Emitted, Lines, Tail, LineLen;
    if NoEol(msg) {
      ScanEnd(held, msg, 0);
      LinesOfNone(held + msg);
    }
    var n := LineLen(msg);
    if n < |msg| {
      StartWithLine(held, msg, n);
    }
  }

  lemma StartWithLine(held: string, msg: string, n: nat)
    requires NoEol(held) && n < |msg| && NoEol(msg[..n]) && IsEol(msg[n])
    ensures Lines(held + msg) == (if n == 0 then NonEmpty(held) else []) + Emitted(held, msg, 0)
    ensures Tail(held + msg) == Tail(msg)
  {
    hide Emitted, Lines, Tail, LineLen, NoEol, NonEmpty;
    FirstLineEmitted(held, msg, n);
    FirstLineOfStream(held, msg, n);
    if n == 0 {
      assert held + msg[..n] == held;
    }
  }

  lemma FirstLineEmitted(held: string, msg: string, n: nat)
    requires n < |msg| && NoEol(msg[..n]) && IsEol(msg[n])
    ensures Emitted(held, msg, 0) == (if n == 0 then [] else NonEmpty(held + msg[..n])) + Lines(msg[n + 1..])
  {
    hide Emitted, Lines, Tail, LineLen;
    assert forall j :: 0 <= j < n ==> msg[j] == msg[..n][j];
    ScanLine(held, msg, 0, n);
    EmittedLater(held, msg, n + 1);
    assert msg[0..n] == msg[..n];
  }

  lemma FirstLineOfStream(held: string, msg: string, n: nat)
    requires NoEol(held) && n < |msg| && NoEol(msg[..n]) && IsEol(msg[n])
    ensures Lines(held + msg) == NonEmpty(held + msg[..n]) + Lines(msg[n + 1..])
    ensures Tail(held + msg) == Tail(msg[n + 1..]) == Tail(msg)
  {
    hide Lines, Tail, LineLen, NonEmpty;
    SplitAtEol(held, msg, n);
    SplitAtEol("", msg, n);
    assert "" + msg == msg && "" + msg[..n] == msg[..n];
    LinesOfFirst(held + msg[..n], msg[n], msg[n + 1..]);
    LinesOfFirst(msg[..n], msg[n], msg[n + 1..]);
  }

  lemma {:induction false} SplitAtEol(held: string, msg: string, n: nat)
    requires n < |msg|
    ensures held + msg[..n] + [msg[n]] + msg[n + 1..] == held + msg
  {
  }

  /** A chunk that is searched whole and has no line end. */
  lemma ContinuesInside(held: string, msg: string)
    requires NoEol(held) && |held| < SPLIT_BUF_SIZE && |msg| <= SPLIT_BUF_SIZE && NoEol(msg) && !UsesHeld(msg)
    requires Orderly(held, msg)
    ensures Receive(held, msg) == Continue(held, msg)
  {
    hide LineLen, Lines, Tail, Emitted, UsesHeld;
    assert msg[|msg|..] == [] && msg + "" == msg;
    StartOfChunk(held, msg);
    LinesOfNone(msg);
    assert msg == "" ==> held + msg == held;
  }

  /** A chunk that is searched whole and has one. */
  lemma ContinuesLines(held: string, msg: string)
    requires NoEol(held) && |held| < SPLIT_BUF_SIZE && |msg| <= SPLIT_BUF_SIZE && !NoEol(msg) && msg != ""
    requires UsesHeld(msg) != IsEol(msg[0])
    requires Orderly(held, msg)
    ensures Receive(held, msg) == Continue(held, msg)
  {
    hide LineLen, Lines, Tail, Emitted, UsesHeld, NoEol;
    assert msg[|msg|..] == [] && Tail(msg) + "" == Tail(msg) && "" + Tail(msg) == Tail(msg);
    StartOfChunk(held, msg);
    TailLen(msg);
  }

  /** What follows the part that is searched adds nothing exactly when it is line ends. */
  lemma {:induction false} OnlyEols(s: string)
    ensures Lines(s) == [] && Tail(s) == "" <==> AllEol(s)
    decreases |s|
  {
    hide LineLen, AllEol;
    AllEolStep(s);
    var n := LineLen(s);
    if n == 0 && s != "" {
      OnlyEols(s[1..]);
      assert s[..0] == "" && [] + Lines(s[1..]) == Lines(s[1..]);
    }
  }

  lemma AllEolStep(s: string)
    ensures AllEol(s) <==> s == "" || (IsEol(s[0]) && AllEol(s[1..]))
  {
    assert s != "" ==> s == [s[0]] + s[1..];
  }

  /** A longer chunk, the part that is searched ending inside a line. */
  lemma ContinuesCut(held: string, msg: string)
    requires NoEol(held) && |held| < SPLIT_BUF_SIZE && |msg| > SPLIT_BUF_SIZE && !IsEol(msg[SPLIT_BUF_SIZE - 1])
    requires Orderly(held, msg)
    ensures Receive(held, msg) == Continue(held, msg)
  {
    hide LineLen, Lines, Tail, Emitted, NoEol, UsesHeld, Receive;
    var s, rest := msg[..SPLIT_BUF_SIZE], msg[SPLIT_BUF_SIZE..];
    assert s + rest == msg;
    CutContinues(held, s, rest);
    CutReceived(held, s, rest);
  }

  /** What the stream makes of such a chunk. */
  lemma CutContinues(held: string, s: string, rest: string)
    requires NoEol(held) && s != "" && !IsEol(s[|s| - 1]) && NoEol(rest)
    ensures Continue(held, s + rest) == Outcome(Lines(held + s), Tail(held + s) + rest)
  {
    hide LineLen, Lines, Tail, NoEol;
    TailLen(held + s);
    LinesConcat(held + s, rest);
    CutLine(Tail(held + s), rest);
    assert held + s + rest == held + (s + rest);
  }

  /** What the parser makes of it. */
  lemma CutReceived(held: string, s: string, rest: string)
    requires NoEol(held) && |s| == SPLIT_BUF_SIZE && !IsEol(s[|s| - 1]) && (held == "" || !IsEol(s[0]))
    requires |Tail(held + s) + rest| < SPLIT_BUF_SIZE
    ensures Receive(held, s + rest) == Outcome(Lines(held + s), Tail(held + s) + rest)
  {
    hide LineLen, Lines, Tail, Emitted, NoEol, UsesHeld;
    assert (s + rest)[..SPLIT_BUF_SIZE] == s && (s + rest)[SPLIT_BUF_SIZE..] == rest;
    StartOfChunk(held, s);
    UsesOrNot(s);
    TailLen(s);
    if NoEol(s) {
      LinesOfNone(s);
    }
    assert held + (s + rest) == held + s + rest && "" + (Tail(s) + rest) == Tail(s) + rest;
  }

  lemma CutLine(t: string, rest: string)
    requires NoEol(t) && t != ""
    ensures NoEol(rest) ==> Lines(t + rest) == [] && Tail(t + rest) == t + rest
    ensures !NoEol(rest) ==> Lines(t + rest) != []
  {
    hide LineLen, Lines, Tail;
    if NoEol(rest) {
      LinesOfNone(t + rest);
    } else {
      var n := LineLen(rest);
      FirstEol(rest);
      LinesOfFirst(t + rest[..n], rest[n], rest[n + 1..]);
      assert t + rest[..n] + [rest[n]] + rest[n + 1..] == t + rest;
    }
  }

  lemma {:induction false} FirstEol(s: string)
    requires !NoEol(s)
    ensures LineLen(s) < |s| && IsEol(s[LineLen(s)]) && NoEol(s[..LineLen(s)])
  {
    hide LineLen;
  }

  /** A longer chunk, the part that is searched ending with a line. */
  lemma ContinuesWhole(held: string, msg: string)
    requires NoEol(held) && |held| < SPLIT_BUF_SIZE && |msg| > SPLIT_BUF_SIZE && IsEol(msg[SPLIT_BUF_SIZE - 1])
    requires Orderly(held, msg)
    ensures Receive(held, msg) == Continue(held, msg)
  {
    hide LineLen, Lines, Tail, Emitted, NoEol, UsesHeld, AllEol;
    var s, rest := msg[..SPLIT_BUF_SIZE], msg[SPLIT_BUF_SIZE..];
    assert held + s + rest == held + msg && "" + rest == rest;
    StartOfChunk(held, s);
    UsesOrNot(s);
    TailLen(held + s);
    HasEol(s, SPLIT_BUF_SIZE - 1);
    LinesConcat(held + s, rest);
    OnlyEols(rest);
  }

  lemma {:induction false} HasEol(s: string, i: nat)
    requires i < |s| && IsEol(s[i])
    ensures !NoEol(s)
  {
  }

  lemma OrderlyContinues(held: string, msg: string)
    requires NoEol(held) && |held| < SPLIT_BUF_SIZE && Orderly(held, msg)
    ensures Receive(held, msg) == Continue(held, msg)
  {
    hide Receive, Continue, Orderly, UsesHeld, NoEol;
    UsesOrNot(msg);
    if |msg| > SPLIT_BUF_SIZE {
      if IsEol(msg[SPLIT_BUF_SIZE - 1]) {
        ContinuesWhole(held, msg);
      } else {
        ContinuesCut(held, msg);
      }
    } else if NoEol(msg) {
      ContinuesInside(held, msg);
    } else {
      ContinuesLines(held, msg);
    }
  }

  lemma {:induction false} UsesOrNot(msg: string)
    ensures msg != "" && IsEol(msg[0]) ==> !UsesHeld(msg) && !NoEol(msg)
    ensures msg == "" || !IsEol(msg[0]) ==> UsesHeld(msg) != NoEol(msg)
    ensures msg == "" ==> NoEol(msg)
  {
  }

  /** Any number of calls. */
  function ReceiveAll(held: string, chunks: seq<string>): Outcome
    decreases |chunks|
  {
    if chunks == [] then Outcome([], held)
    else
      var first := Receive(held, chunks[0]);
      var rest := ReceiveAll(first.held, chunks[1..]);
      Outcome(first.emitted + rest.emitted, rest.held)
  }

  /** Every chunk is orderly, given the stream before it. */
  predicate AllOrderly(held: string, chunks: seq<string>)
    decreases |chunks|
  {
    chunks == [] || (Orderly(held, chunks[0]) && AllOrderly(Tail(held + chunks[0]), chunks[1..]))
  }

  /** In orderly chunks chunking does not matter. */
  lemma {:induction false} ChunkingIsIrrelevant(held: string, chunks: seq<string>)
    requires NoEol(held) && |held| < SPLIT_BUF_SIZE && AllOrderly(held, chunks)
    ensures ReceiveAll(held, chunks) == Continue(held, Flatten(chunks))
    decreases |chunks|
  {
    hide LineLen, Lines, Tail, Receive, Searched;
    if chunks == [] {
      assert held + Flatten(chunks) == held;
      LinesOfNone(held);
    } else {
      var stream := held + chunks[0];
      OrderlyContinues(held, chunks[0]);
      TailLen(stream);
      ChunkingIsIrrelevant(Tail(stream), chunks[1..]);
      ContinueTwice(held, chunks[0], Flatten(chunks[1..]));
    }
  }

  lemma ContinueTwice(held: string, first: string, later: string)
    ensures var c := Continue(held, first);
      var d := Continue(c.held, later);
      Continue(held, first + later) == Outcome(c.emitted + d.emitted, d.held)
  {
    hide Lines, Tail;
    LinesConcat(held + first, later);
    assert held + first + later == held + (first + later);
  }

  // ---- A chunk that is not orderly can never be made up for ----

  /** How many bytes of `s` are no line ends. */
  function Letters(s: string): nat {
    if s == "" then 0 else (if IsEol(s[0]) then 0 else 1) + Letters(s[1..])
  }

  lemma {:induction false} LettersConcat(a: string, b: string)
    ensures Letters(a + b) == Letters(a) + Letters(b)
  {
    if a == "" {
      assert a + b == b;
    } else {
      LettersConcat(a[1..], b);
      assert (a + b)[1..] == a[1..] + b;
    }
  }

  lemma {:induction false} LettersAll(s: string)
    ensures NoEol(s) ==> Letters(s) == |s|
    ensures AllEol(s) <==> Letters(s) == 0
  {
    if s != "" {
      LettersAll(s[1..]);
      assert s == [s[0]] + s[1..];
    }
  }

  /** What was emitted and is held, without line ends. */
  function Weight(o: Outcome): nat {
    Letters(Flatten(o.emitted)) + Letters(o.held)
  }

  lemma WeightSplit(first: seq<string>, later: Outcome)
    ensures Weight(Outcome(first + later.emitted, later.held)) == Letters(Flatten(first)) + Weight(later)
  {
    FlattenConcat(first, later.emitted);
    LettersConcat(Flatten(first), Flatten(later.emitted));
  }

  lemma LettersOfFirst(line: string, later: seq<string>)
    ensures Letters(Flatten(NonEmpty(line) + later)) == Letters(line) + Letters(Flatten(later))
  {
    FlattenConcat(NonEmpty(line), later);
    LettersConcat(line, Flatten(later));
    assert Flatten(NonEmpty(line)) == line by {
      assert [line][1..] == [] && line + "" == line;
    }
  }

  /** The lines of a stream and its tail carry all of it but the line ends. */
  lemma {:induction false} LettersOfLines(s: string)
    ensures Letters(Flatten(Lines(s))) + Letters(Tail(s)) == Letters(s)
    decreases |s|
  {
    hide LineLen, Letters, NonEmpty;
    var n := LineLen(s);
    if n < |s| {
      LettersOfLines(s[n + 1..]);
      LettersOfFirst(s[..n], Lines(s[n + 1..]));
      LettersConcat(s[..n], [s[n]] + s[n + 1..]);
      LettersConcat([s[n]], s[n + 1..]);
      LettersAll([s[n]]);
      assert s == s[..n] + ([s[n]] + s[n + 1..]);
    } else {
      LettersAll("");
    }
  }

  lemma WeightOfContinue(held: string, msg: string)
    ensures Weight(Continue(held, msg)) == Letters(held) + Letters(msg)
  {
    hide Letters, Lines, Tail;
    LettersOfLines(held + msg);
    LettersConcat(held, msg);
  }

  /** The lines emitted are as many as the chunk completes by itself, and carry what is held
      when it is used. */
  lemma EmittedWeight(held: string, s: string)
    ensures |Emitted(held, s, 0)| == |Lines(s)|
    ensures Letters(Flatten(Emitted(held, s, 0))) + Letters(if UsesHeld(s) then "" else held) + Letters(Tail(s))
         == Letters(held) + Letters(s)
  {
    hide LineLen, Emitted, Lines, Tail, Letters;
    LettersOfLines(s);
    LettersAll("");
    assert s[0..] == s;
    if NoEol(s) {
      ScanEnd(held, s, 0);
      LinesOfNone(s);
    } else {
      FirstEol(s);
      var n := LineLen(s);
      ScanLine(held, s, 0, n);
      EmittedLater(held, s, n + 1);
      FirstOfLines(s);
      LettersOfFirst(s[..n], Lines(s[n + 1..]));
      if n > 0 {
        assert LineAt(held, s, 0, n) == NonEmpty(held + s[..n]);
        LettersOfFirst(held + s[..n], Lines(s[n + 1..]));
        LettersConcat(held, s[..n]);
      }
    }
  }

  /** A stream has at least the lines of any part of it. */
  lemma PartHasFewerLines(t: string, msg: string, k: nat)
    requires NoEol(t) && k <= |msg|
    ensures |Lines(msg[..k])| <= |Lines(t + msg)|
  {
    hide LineLen, Lines, Tail, Emitted, Letters;
    var s := msg[..k];
    StartOfChunk(t, s);
    UsesOrNot(s);
    EmittedWeight(t, s);
    LinesConcat(t + s, msg[k..]);
    assert t + s + msg[k..] == t + msg;
  }

  /** No call gains on the stream, whatever is held. */
  lemma NoGain(held: string, t: string, msg: string)
    requires NoEol(t)
    ensures |Receive(held, msg).emitted| <= |Continue(t, msg).emitted|
    ensures Weight(Receive(held, msg)) <= Letters(held) + Letters(msg)
  {
    hide LineLen, Lines, Tail, Emitted, Letters, UsesHeld;
    var s := Scanned(msg);
    var kept := if UsesHeld(s) then "" else held;
    EmittedWeight(held, s);
    PartHasFewerLines(t, msg, |s|);
    LettersConcat(s, msg[|s|..]);
    assert s + msg[|s|..] == msg;
    LettersConcat(Tail(s), msg[|s|..]);
    LettersConcat(kept, Tail(s) + msg[|s|..]);
    LettersAll("");
  }

  /** A line end at the start takes the held line from the messages. */
  lemma StartFallsBehind(held: string, msg: string)
    requires NoEol(held) && held != "" && msg != "" && IsEol(msg[0])
    ensures [held] + Receive(held, msg).emitted <= Continue(held, msg).emitted
  {
    hide LineLen, Lines, Tail, Emitted, UsesHeld;
    var s := Scanned(msg);
    StartOfChunk(held, s);
    LinesConcat(held + s, msg[|s|..]);
    assert held + s + msg[|s|..] == held + msg;
  }

  /** A line that ends behind the part that is searched is missing. */
  lemma CutFallsBehind(held: string, msg: string)
    requires NoEol(held) && |msg| > SPLIT_BUF_SIZE
    requires !IsEol(msg[SPLIT_BUF_SIZE - 1]) && !NoEol(msg[SPLIT_BUF_SIZE..])
    ensures |Receive(held, msg).emitted| < |Continue(held, msg).emitted|
  {
    hide LineLen, Lines, Tail, Emitted, UsesHeld, NoEol, Letters;
    var s, rest := msg[..SPLIT_BUF_SIZE], msg[SPLIT_BUF_SIZE..];
    PartHasFewerLines(held, s, |s|);
    assert s[..|s|] == s;
    EmittedWeight(held, s);
    TailLen(held + s);
    LinesConcat(held + s, rest);
    CutLine(Tail(held + s), rest);
    assert held + s + rest == held + msg;
  }

  /** What stands behind a line end at the last byte searched is dropped. */
  lemma RestFallsBehind(held: string, msg: string)
    requires |msg| > SPLIT_BUF_SIZE && IsEol(msg[SPLIT_BUF_SIZE - 1]) && !AllEol(msg[SPLIT_BUF_SIZE..])
    ensures Weight(Receive(held, msg)) < Weight(Continue(held, msg))
  {
    hide LineLen, Lines, Tail, Emitted, UsesHeld, AllEol, Letters;
    var s, rest := msg[..SPLIT_BUF_SIZE], msg[SPLIT_BUF_SIZE..];
    EmittedWeight(held, s);
    WeightOfContinue(held, msg);
    LettersConcat(s, rest);
    LettersAll(rest);
    LettersAll("");
    assert s + rest == msg;
  }

  /** A line that does not fit is discarded. */
  lemma LongIsDiscarded(held: string, msg: string)
    requires NoEol(held) && |held| < SPLIT_BUF_SIZE && Searched(msg) && |Tail(held + msg)| >= SPLIT_BUF_SIZE
    requires held == "" || (msg != "" && !IsEol(msg[0]))
    ensures Receive(held, msg).held == "" && Tail(Scanned(msg)) != ""
  {
    hide LineLen, Lines, Tail, Emitted, UsesHeld, NoEol, AllEol;
    var s := Scanned(msg);
    var rest := msg[|s|..];
    assert s + rest == msg;
    NothingMore(rest);
    LastIsInside(held, s, rest);
    CutContinues(held, s, rest);
    KeptIsTail(held, s);
    TailLen(s);
  }

  /** The part that is searched ends inside a line, and the rest goes on with it. */
  lemma LastIsInside(held: string, s: string, rest: string)
    requires NoEol(held) && |held| < SPLIT_BUF_SIZE && |Tail(held + (s + rest))| >= SPLIT_BUF_SIZE
    requires s != "" && IsEol(s[|s| - 1]) ==> AllEol(rest)
    requires s != "" && !IsEol(s[|s| - 1]) ==> NoEol(rest)
    requires s == "" ==> rest == ""
    ensures s != "" && !IsEol(s[|s| - 1]) && NoEol(rest)
  {
    hide LineLen, Lines, Tail, NoEol, AllEol;
    if s == "" {
      assert held + (s + rest) == held;
      TailLen(held);
    } else if IsEol(s[|s| - 1]) {
      assert held + s + rest == held + (s + rest) && "" + rest == rest;
      OnlyEols(rest);
      TailLen(held + s);
      LinesConcat(held + s, rest);
    }
  }

  /** What is kept of the held line and what is left of a chunk are the unfinished line. */
  lemma KeptIsTail(held: string, s: string)
    requires NoEol(held) && (held == "" || (s != "" && !IsEol(s[0])))
    ensures (if UsesHeld(s) then "" else held) + Tail(s) == Tail(held + s)
  {
    hide LineLen, Lines, Tail, Emitted, UsesHeld, NoEol;
    StartOfChunk(held, s);
    UsesOrNot(s);
    if NoEol(s) {
      LinesOfNone(s);
    }
    assert "" + Tail(s) == Tail(s);
  }

  lemma DiscardedFallsBehind(held: string, msg: string)
    requires Receive(held, msg).held == "" && Tail(Scanned(msg)) != ""
    ensures Weight(Receive(held, msg)) < Weight(Continue(held, msg))
  {
    hide LineLen, Lines, Tail, Emitted, UsesHeld, Letters, NoEol, AllEol;
    var s := Scanned(msg);
    TailLen(s);
    EmittedWeight(held, s);
    WeightOfContinue(held, msg);
    LettersConcat(s, msg[|s|..]);
    LettersAll(Tail(s));
    LettersAll("");
    NothingMore("");
    assert s + msg[|s|..] == msg;
  }

  lemma {:induction false} NothingMore(rest: string)
    ensures rest == "" ==> AllEol(rest) && NoEol(rest)
  {
  }

  /** A chunk that is not orderly falls behind. */
  lemma FallsBehind(held: string, msg: string)
    requires NoEol(held) && |held| < SPLIT_BUF_SIZE && !Orderly(held, msg)
    ensures || |Receive(held, msg).emitted| < |Continue(held, msg).emitted|
            || Weight(Receive(held, msg)) < Weight(Continue(held, msg))
  {
    hide Receive, Continue, Tail, Weight, AllEol, NoEol;
    if msg == "" {
      assert held + msg == held;
      LinesOfNone(held);
    } else if held != "" && IsEol(msg[0]) {
      StartFallsBehind(held, msg);
    } else if Searched(msg) {
      LongIsDiscarded(held, msg);
      DiscardedFallsBehind(held, msg);
    } else if IsEol(msg[SPLIT_BUF_SIZE - 1]) {
      RestFallsBehind(held, msg);
    } else {
      CutFallsBehind(held, msg);
    }
  }

  /** A chunk of any length is read as part of the stream exactly when it does not start
      with a line end while a partial line is held, the partial line it leaves fits the
      buffer, and no line hides behind the part that is searched. */
  lemma ReceiveContinues(held: string, msg: string)
    requires NoEol(held) && |held| < SPLIT_BUF_SIZE
    ensures Receive(held, msg) == Continue(held, msg) <==> Orderly(held, msg)
  {
    hide Receive, Continue, Orderly, NoEol, Weight;
    if Orderly(held, msg) {
      OrderlyContinues(held, msg);
    } else {
      FallsBehind(held, msg);
    }
  }

  /** Whatever is held, a run does not gain on the stream. */
  lemma {:induction false} RunGainsNothing(held: string, t: string, chunks: seq<string>)
    requires NoEol(t)
    ensures |ReceiveAll(held, chunks).emitted| <= |Continue(t, Flatten(chunks)).emitted|
    ensures Weight(ReceiveAll(held, chunks)) <= Letters(held) + Letters(Flatten(chunks))
    decreases |chunks|
  {
    hide Receive, Continue, Letters;
    if chunks == [] {
      LettersAll("");
    } else {
      var first, rest := Receive(held, chunks[0]), Flatten(chunks[1..]);
      var c := Continue(t, chunks[0]);
      ContinueHolds(t, chunks[0]);
      RunGainsNothing(first.held, c.held, chunks[1..]);
      NoGain(held, t, chunks[0]);
      ContinueTwice(t, chunks[0], rest);
      LettersConcat(chunks[0], rest);
      WeightSplit(first.emitted, ReceiveAll(first.held, chunks[1..]));
    }
  }

  lemma ContinueHolds(t: string, msg: string)
    ensures NoEol(Continue(t, msg).held)
  {
    hide Lines, Tail;
    TailLen(t + msg);
  }

  /** A run that has emitted as many lines as the stream has, and lost no byte, was orderly. */
  lemma {:induction false} NothingLostOnlyOrderly(held: string, chunks: seq<string>)
    requires NoEol(held) && |held| < SPLIT_BUF_SIZE
    requires |ReceiveAll(held, chunks).emitted| == |Continue(held, Flatten(chunks)).emitted|
    requires Weight(ReceiveAll(held, chunks)) == Letters(held) + Letters(Flatten(chunks))
    ensures AllOrderly(held, chunks)
    decreases |chunks|
  {
    hide Receive, Continue, Letters, Orderly;
    if chunks != [] {
      var first, rest := Receive(held, chunks[0]), Flatten(chunks[1..]);
      var c := Continue(held, chunks[0]);
      ContinueHolds(held, chunks[0]);
      ContinueTwice(held, chunks[0], rest);
      LettersConcat(chunks[0], rest);
      WeightSplit(first.emitted, ReceiveAll(first.held, chunks[1..]));
      WeightOfContinue(held, chunks[0]);
      RunGainsNothing(first.held, c.held, chunks[1..]);
      if !Orderly(held, chunks[0]) {
        FallsBehind(held, chunks[0]);
      }
      OrderlyFits(held, chunks[0]);
      ReceiveContinues(held, chunks[0]);
      NothingLostOnlyOrderly(c.held, chunks[1..]);
    }
  }

  lemma {:induction false} OrderlyFits(held: string, msg: string)
    requires Orderly(held, msg)
    ensures Continue(held, msg).held == Tail(held + msg) && |Continue(held, msg).held| < SPLIT_BUF_SIZE
  {
  }

  /** Over any run of chunks of any length: the lines emitted are the nonempty completed
      lines of the stream, and what is held is its unfinished line, exactly when every
      chunk is orderly. */
  lemma ChunkingIsExact(held: string, chunks: seq<string>)
    requires NoEol(held) && |held| < SPLIT_BUF_SIZE
    ensures ReceiveAll(held, chunks) == Continue(held, Flatten(chunks)) <==> AllOrderly(held, chunks)
  {
    hide ReceiveAll, Continue, AllOrderly, Letters, Weight;
    if AllOrderly(held, chunks) {
      ChunkingIsIrrelevant(held, chunks);
    }
    if ReceiveAll(held, chunks) == Continue(held, Flatten(chunks)) {
      WeightOfContinue(held, Flatten(chunks));
      NothingLostOnlyOrderly(held, chunks);
    }
  }

  /** What goes wrong, case by case: a line end at the start takes the held line from the
      messages, and leaves it to be joined to the next one unless the chunk ends with a line
      end too; a partial line that does not fit is discarded; and what stands behind the
      first 513 bytes is dropped, or its line ends are not seen. */
  lemma DisorderlyLoses(held: string, msg: string)
    requires NoEol(held) && |held| < SPLIT_BUF_SIZE && msg != ""
    ensures held != "" && IsEol(msg[0]) ==> [held] + Receive(held, msg).emitted <= Continue(held, msg).emitted
    ensures |msg| <= SPLIT_BUF_SIZE && IsEol(msg[0]) && Tail(msg) != "" && |held + Tail(msg)| < SPLIT_BUF_SIZE ==>
              Receive(held, msg).held == held + Tail(msg)
    ensures |msg| <= SPLIT_BUF_SIZE && held != "" && IsEol(msg[0]) ==>
              Continue(held, msg).emitted == [held] + Receive(held, msg).emitted
    ensures |msg| <= SPLIT_BUF_SIZE && !IsEol(msg[0]) && |Tail(held + msg)| >= SPLIT_BUF_SIZE ==>
              Receive(held, msg) == Outcome([], "")
    ensures |msg| > SPLIT_BUF_SIZE ==>
              var s := msg[..SPLIT_BUF_SIZE];
              && Receive(held, msg).emitted == Receive(held, s).emitted
              && (IsEol(s[SPLIT_BUF_SIZE - 1]) ==> Receive(held, msg) == Receive(held, s))
  {
    hide Receive, Continue, Lines, Tail;
    if held != "" && IsEol(msg[0]) {
      StartFallsBehind(held, msg);
    }
    if |msg| > SPLIT_BUF_SIZE {
      BehindIsLost(held, msg);
    } else if IsEol(msg[0]) {
      StartLoses(held, msg);
    } else if |Tail(held + msg)| >= SPLIT_BUF_SIZE {
      LongIsLost(held, msg);
    }
  }

  lemma StartLoses(held: string, msg: string)
    requires NoEol(held) && msg != "" && |msg| <= SPLIT_BUF_SIZE && IsEol(msg[0])
    ensures Tail(msg) != "" && |held + Tail(msg)| < SPLIT_BUF_SIZE ==> Receive(held, msg).held == held + Tail(msg)
    ensures held != "" ==> Continue(held, msg).emitted == [held] + Receive(held, msg).emitted
  {
    hide LineLen, Lines, Tail, Emitted, NoEol, UsesHeld;
    assert msg[..|msg|] == msg && msg[|msg|..] == [] && Tail(msg) + "" == Tail(msg);
    StartOfChunk(held, msg);
    TailLen(msg);
    UsesOrNot(msg);
  }

  lemma LongIsLost(held: string, msg: string)
    requires NoEol(held) && |held| < SPLIT_BUF_SIZE && msg != "" && |msg| <= SPLIT_BUF_SIZE && !IsEol(msg[0])
    requires |Tail(held + msg)| >= SPLIT_BUF_SIZE
    ensures Receive(held, msg) == Outcome([], "")
  {
    hide LineLen, Lines, Tail, Emitted, UsesHeld;
    assert msg[..|msg|] == msg && msg[|msg|..] == [] && Tail(msg) + "" == Tail(msg);
    StartOfChunk(held, msg);
    TailLen(msg);
    UsesOrNot(msg);
    if NoEol(msg) {
      ScanEnd(held, msg, 0);
      LinesOfNone(msg);
    }
  }

  lemma BehindIsLost(held: string, msg: string)
    requires |msg| > SPLIT_BUF_SIZE
    ensures var s := msg[..SPLIT_BUF_SIZE];
      && Receive(held, msg).emitted == Receive(held, s).emitted
      && (IsEol(s[SPLIT_BUF_SIZE - 1]) ==> Receive(held, msg) == Receive(held, s))
  {
    hide LineLen, Lines, Tail, Emitted, NoEol, UsesHeld;
    var s := msg[..SPLIT_BUF_SIZE];
    assert s[..|s|] == s;
    TailLen(s);
  }

  // ---- Line ends alone decide how a stream is cut ----

  /** Equal but for bytes that are no line end on either side. */
  predicate SameShape(a: string, b: string) {
    |a| == |b| && forall i :: 0 <= i < |a| && (IsEol(a[i]) || IsEol(b[i])) ==> a[i] == b[i]
  }

  lemma ShapeOfFirst(a: string, b: string)
    requires SameShape(a, b)
    ensures LineLen(a) == LineLen(b)
    ensures var n := LineLen(a); n < |a| ==> SameShape(a[n + 1..], b[n + 1..])
  {
    LineLenIs(b, LineLen(a));
  }

  lemma {:induction false} ShapeOfTail(a: string, b: string)
    requires SameShape(a, b)
    ensures SameShape(Tail(a), Tail(b))
    decreases |a|
  {
    hide LineLen;
    ShapeOfFirst(a, b);
    var n := LineLen(a);
    if n < |a| {
      ShapeOfTail(a[n + 1..], b[n + 1..]);
    }
  }

  /** Streams of one shape have as many lines and letters. */
  lemma {:induction false} ShapeOfLines(a: string, b: string)
    requires SameShape(a, b)
    ensures |Lines(a)| == |Lines(b)|
    decreases |a|
  {
    hide LineLen;
    ShapeOfFirst(a, b);
    var n := LineLen(a);
    if n < |a| {
      ShapeOfLines(a[n + 1..], b[n + 1..]);
    }
  }

  lemma {:induction false} ShapeOfLetters(a: string, b: string)
    requires SameShape(a, b)
    ensures Letters(a) == Letters(b)
  {
    if a != "" {
      ShapeOfLetters(a[1..], b[1..]);
    }
  }

  /** Streams of one shape with the same lines are the same. */
  lemma {:induction false} LinesTellStreams(a: string, b: string)
    requires SameShape(a, b) && Lines(a) == Lines(b) && Tail(a) == Tail(b)
    ensures a == b
    decreases |a|
  {
    hide LineLen, Lines, Tail, SameShape;
    ShapeOfFirst(a, b);
    ShapeIsLong(a, b);
    var n := LineLen(a);
    if n < |a| {
      SameFirstLine(a, b, n);
      LinesTellStreams(a[n + 1..], b[n + 1..]);
      assert a == a[..n] + [a[n]] + a[n + 1..] && b == b[..n] + [b[n]] + b[n + 1..];
    } else {
      LastIsTail(a);
      LastIsTail(b);
    }
  }

  lemma {:induction false} ShapeIsLong(a: string, b: string)
    requires SameShape(a, b)
    ensures |a| == |b|
  {
  }

  lemma {:induction false} LastIsTail(s: string)
    requires LineLen(s) == |s|
    ensures Tail(s) == s
  {
    hide LineLen;
  }

  lemma SameFirstLine(a: string, b: string, n: nat)
    requires SameShape(a, b) && Lines(a) == Lines(b) && Tail(a) == Tail(b)
    requires n == LineLen(a) == LineLen(b) < |a|
    ensures |b| == |a| && a[..n] == b[..n] && a[n] == b[n]
    ensures Lines(a[n + 1..]) == Lines(b[n + 1..]) && Tail(a[n + 1..]) == Tail(b[n + 1..])
  {
    hide Lines, Tail, NonEmpty;
    FirstOfLines(a);
    FirstOfLines(b);
    TailOfFirst(a);
    TailOfFirst(b);
    SplitFirst(a[..n], Lines(a[n + 1..]), b[..n], Lines(b[n + 1..]));
    hide LineLen;
    LineLenIsEol(a);
  }

  lemma {:induction false} LineLenIsEol(s: string)
    requires LineLen(s) < |s|
    ensures IsEol(s[LineLen(s)])
  {
    hide LineLen;
  }

  lemma SplitFirst(x: string, a: seq<string>, y: string, b: seq<string>)
    requires |x| == |y| && NonEmpty(x) + a == NonEmpty(y) + b
    ensures x == y && a == b
  {
    var first, second := NonEmpty(x) + a, NonEmpty(y) + b;
    assert x != "" ==> first[0] == x && second[0] == y;
    assert a == first[|NonEmpty(x)|..] && b == second[|NonEmpty(y)|..];
  }

  /** Chunk by chunk of one shape. */
  predicate SameShapes(a: seq<string>, b: seq<string>) {
    |a| == |b| && forall i :: 0 <= i < |a| ==> SameShape(a[i], b[i])
  }

  lemma {:induction false} ShapesOrderly(heldA: string, heldB: string, a: seq<string>, b: seq<string>)
    requires SameShape(heldA, heldB) && SameShapes(a, b) && AllOrderly(heldA, a)
    ensures AllOrderly(heldB, b)
    decreases |a|
  {
    hide Tail;
    if a != [] {
      assert SameShape(a[0], b[0]);
      assert SameShape(heldA + a[0], heldB + b[0]);
      ShapeOfTail(heldA + a[0], heldB + b[0]);
      ShapesOrderly(Tail(heldA + a[0]), Tail(heldB + b[0]), a[1..], b[1..]);
    }
  }

  lemma {:induction false} ShapesFlatten(a: seq<string>, b: seq<string>)
    requires SameShapes(a, b)
    ensures SameShape(Flatten(a), Flatten(b))
    ensures Flatten(a) == Flatten(b) ==> a == b
  {
    if a != [] {
      assert SameShape(a[0], b[0]);
      ShapesFlatten(a[1..], b[1..]);
      var x, y := a[0] + Flatten(a[1..]), b[0] + Flatten(b[1..]);
      if x == y {
        assert a[0] == x[..|a[0]|] && b[0] == y[..|b[0]|];
        assert Flatten(a[1..]) == x[|a[0]|..] && Flatten(b[1..]) == y[|b[0]|..];
        assert a == [a[0]] + a[1..] && b == [b[0]] + b[1..];
      }
    }
  }

  /** Chunks that were changed without changing their shape: what becomes of them is what
      ought to become of the others exactly when nothing was changed and all are orderly. */
  lemma ChangedChunks(chunks: seq<string>, changed: seq<string>)
    requires SameShapes(chunks, changed)
    ensures ReceiveAll("", changed) == Continue("", Flatten(chunks)) <==> changed == chunks && AllOrderly("", chunks)
  {
    hide ReceiveAll, Continue, AllOrderly, Letters, Weight, SameShapes, Flatten;
    var stream, other := Flatten(chunks), Flatten(changed);
    ShapesFlatten(chunks, changed);
    ShapesSwap(chunks, changed);
    ChunkingIsExact("", chunks);
    ChunkingIsExact("", changed);
    if ReceiveAll("", changed) == Continue("", stream) {
      EqualMeasure(stream, other);
      NothingLostOnlyOrderly("", changed);
      ShapesOrderly("", "", changed, chunks);
      ContinueTells(stream, other);
    }
  }

  lemma ShapesSwap(a: seq<string>, b: seq<string>)
    requires SameShapes(a, b)
    ensures SameShapes(b, a)
  {
    forall i | 0 <= i < |b| ensures SameShape(b[i], a[i]) {
      assert SameShape(a[i], b[i]);
    }
  }

  lemma EqualMeasure(a: string, b: string)
    requires SameShape(a, b)
    ensures |Continue("", a).emitted| == |Continue("", b).emitted|
    ensures Weight(Continue("", a)) == Letters("") + Letters(b)
  {
    hide Letters, Lines, Tail, Weight;
    assert "" + a == a && "" + b == b;
    ShapeOfLines(a, b);
    ShapeOfLetters(a, b);
    WeightOfContinue("", a);
  }

  lemma ContinueTells(a: string, b: string)
    requires SameShape(a, b) && Continue("", a) == Continue("", b)
    ensures a == b
  {
    hide Lines, Tail;
    assert "" + a == a && "" + b == b;
    LinesTellStreams(a, b);
  }

  // ---- A chunk that is one line ----

  lemma OneLineContinues(line: string)
    requires NoEol(line) && line != ""
    ensures Continue("", line + "\r\n") == Outcome([line], "")
  {
    hide LineLen, Lines, Tail;
    LinesOfFirst(line, '\r', "\n");
    LinesOfFirst("", '\n', "");
    LinesOfNone("");
    var msg := line + "\r\n";
    assert "" + msg == msg && line + ['\r'] + "\n" == msg && "" + ['\n'] + "" == "\n";
  }

  lemma OneLineSearched(line: string)
    requires NoEol(line)
    ensures Searched(line + "\r\n") <==> |line| < SPLIT_BUF_SIZE
  {
    var msg := line + "\r\n";
    assert msg[|line|] == '\r' && msg[|line| + 1] == '\n';
    if |line| >= SPLIT_BUF_SIZE {
      assert msg[SPLIT_BUF_SIZE..][|line| - SPLIT_BUF_SIZE] == '\r';
    }
  }

  lemma OneLineDiscarded(line: string)
    requires NoEol(line) && |line| >= SPLIT_BUF_SIZE
    ensures Receive("", line + "\r\n") == Outcome([], "")
  {
    hide LineLen, Tail, Emitted;
    var s := Scanned(line + "\r\n");
    ScanEnd("", s, 0);
    assert s[0..] == s;
  }

  /** A chunk that is one line is read rightly exactly when the line has at most 512 bytes,
      and is discarded otherwise. */
  lemma OneLineFits(line: string)
    requires NoEol(line) && line != ""
    ensures Receive("", line + "\r\n") == Outcome([line], "") <==> |line| < SPLIT_BUF_SIZE
    ensures |line| >= SPLIT_BUF_SIZE ==> Receive("", line + "\r\n") == Outcome([], "")
  {
    hide Receive, Continue, Tail, Searched, NoEol;
    var msg := line + "\r\n";
    OneLineContinues(line);
    OneLineSearched(line);
    if |line| < SPLIT_BUF_SIZE {
      HeldOfContinue(msg);
      ReceiveContinues("", msg);
    } else {
      OneLineDiscarded(line);
    }
  }

  lemma {:induction false} HeldOfContinue(msg: string)
    ensures Continue("", msg).held == Tail("" + msg) && NoEol("")
  {
  }
}
