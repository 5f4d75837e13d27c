/** Splitting an outgoing text into IRC commands (`idle_text_encode_and_split`). */
module Text {
  import opened Seqs
  import opened Utf8

  datatype MessageType = Normal | Action | Notice | AutoReply | DeliveryReport

  predicate Supported(kind: MessageType) {
    kind.Normal? || kind.Action? || kind.Notice?
  }

  function Header(kind: MessageType, recipient: string): string {
    match kind
    case Notice => "NOTICE " + recipient + " :"
    case Action => "PRIVMSG " + recipient + " :\U{01}ACTION "
    case _ => "PRIVMSG " + recipient + " :"
  }

  function Footer(kind: MessageType): string {
    if kind.Action? then "\U{01}" else ""
  }

  /** Room that is left for the body of one message. */
  function MaxBytes(kind: MessageType, recipient: string, maxMsgLen: nat): int {
    maxMsgLen - (|Header(kind, recipient)| + |Footer(kind)|)
  }

  /** How the splitting loop ends: with the text, at the NULL of a search that finds no
      start of a character and is dereferenced, or never, as a turn consumes nothing. */
  datatype Ending = Done | NoCharStart | NoProgress

  /** What was split off when the loop came to its end; the source returns it only where
      that is the end of the text. */
  datatype SplitResult =
    | NotImplemented(kind: MessageType)
    | Split(messages: seq<string>, bodies: seq<string>, ending: Ending)

  /** Why a piece ends where it does. */
  datatype Break = AtNewline | Forced | AtEnd

  datatype Piece = Piece(body: string, brk: Break) {
    /** The bytes of the text this piece accounts for. */
    function Source(): string {
      if brk.AtNewline? then body + "\n" else body
    }
  }

  /** Offset in `rest` of the end of the next piece; -1 when `g_utf8_find_prev_char`
      finds no character start.  A header that leaves negative room makes the unsigned
      limit wrap: every newline is near enough, and no byte before the end is far enough. */
  function CutAt(rest: string, maxBytes: int): (cut: int)
    ensures -1 <= cut <= |rest|
  {
    var newline := IndexOf(rest, '\n');
    if newline < |rest| && (maxBytes < 0 || newline < maxBytes) then newline
    else if maxBytes < 0 then -1
    else if |rest| > maxBytes then FindPrevChar(rest, maxBytes)
    else |rest|
  }

  /** Whether a turn of the loop consumes anything. */
  predicate Progresses(rest: string, maxBytes: int) {
    CutAt(rest, maxBytes) > 0 || (CutAt(rest, maxBytes) == 0 && rest != "" && rest[0] == '\n')
  }

  /** What remains after a turn. */
  function Next(rest: string, maxBytes: int): (next: string)
    requires Progresses(rest, maxBytes)
    ensures |next| < |rest|
  {
    var cut := CutAt(rest, maxBytes);
    rest[if cut < |rest| && rest[cut] == '\n' then cut + 1 else cut..]
  }

  function EndingOf(rest: string, maxBytes: int): Ending
    decreases |rest|
  {
    if rest == "" then Done
    else if Progresses(rest, maxBytes) then EndingOf(Next(rest, maxBytes), maxBytes)
    else StopAt(CutAt(rest, maxBytes))
  }

  /** A turn that consumes nothing. */
  function StopAt(cut: int): Ending {
    if cut < 0 then NoCharStart else NoProgress
  }

  /** Whether the loop gets to the end of the text. */
  predicate Finishes(rest: string, maxBytes: int) {
    EndingOf(rest, maxBytes).Done?
  }

  function BreakAt(rest: string, cut: nat): Break
    requires cut <= |rest|
  {
    if cut == |rest| then AtEnd else if rest[cut] == '\n' then AtNewline else Forced
  }

  /** Everything one turn of the splitting loop relies on and achieves. */
  lemma CutIsGood(rest: string, maxBytes: nat)
    requires Valid(rest) && maxBytes >= 5 && rest != []
    ensures var cut := CutAt(rest, maxBytes); var brk := BreakAt(rest, cut);
      && 0 <= cut <= maxBytes
      && (brk.AtNewline? || cut > 0)
      && Valid(rest[..cut]) && '\n' !in rest[..cut]
      && (brk.AtNewline? ==> Valid(rest[cut + 1..]))
      && (!brk.AtNewline? ==> Valid(rest[cut..]))
      && (brk.Forced? ==> maxBytes - 4 <= cut < maxBytes && maxBytes <= cut + CharLen(rest[cut..]))
  {
    hide CharLen;
    var newline, cut := IndexOf(rest, '\n'), CutAt(rest, maxBytes);
    if newline < |rest| && newline < maxBytes {
      ValidCut(rest, newline);
      NewlineIsOneByte(rest[newline..]);
      assert rest[newline..][1..] == rest[newline + 1..];
    } else if |rest| > maxBytes {
      var q := CharStartNear(rest, maxBytes - 1);
      assert cut >= q;
      ValidCut(rest, cut);
      if newline < |rest| {
        assert rest[..cut] == rest[..newline][..cut];
      }
      NextCharReaches(rest, cut, maxBytes);
    } else {
      assert rest[..cut] == rest && rest[cut..] == [];
      assert newline == |rest|;
    }
  }

  lemma NewlineIsOneByte(s: string)
    requires Valid(s) && s != [] && s[0] == '\n'
    ensures Valid(s[1..])
  {
  }

  /** After a forced cut the next character reaches `maxBytes`. */
  lemma NextCharReaches(rest: string, cut: nat, maxBytes: nat)
    requires cut < maxBytes < |rest| && Valid(rest[cut..])
    requires forall i :: cut < i < maxBytes ==> IsTail(rest[i])
    ensures maxBytes <= cut + CharLen(rest[cut..])
  {
    hide CharLen;
    var n := CharLen(rest[cut..]);
    DropDrop(rest, cut, n);
    if cut + n < |rest| {
      assert !IsTail(rest[cut + n..][0]);
    }
  }

  /** The pieces that the loop cuts off, as a function of what remains. */
  function Pieces(rest: string, maxBytes: int): (pieces: seq<Piece>)
    decreases |rest|
  {
    if !Progresses(rest, maxBytes) then []
    else
      var cut := CutAt(rest, maxBytes);
      [Piece(rest[..cut], BreakAt(rest, cut))] + Pieces(Next(rest, maxBytes), maxBytes)
  }

  function Bodies(pieces: seq<Piece>): seq<string> {
    seq(|pieces|, i requires 0 <= i < |pieces| => pieces[i].body)
  }

  function Framed(header: string, bodies: seq<string>, footer: string): seq<string> {
    seq(|bodies|, i requires 0 <= i < |bodies| => header + bodies[i] + footer)
  }

  /** One turn of the loop on a valid text. */
  lemma PieceStep(rest: string, maxBytes: nat)
    requires rest != "" && Valid(rest) && maxBytes >= 5
    ensures Progresses(rest, maxBytes) && Valid(Next(rest, maxBytes))
    ensures var cut := CutAt(rest, maxBytes);
      Next(rest, maxBytes) == rest[if BreakAt(rest, cut).AtNewline? then cut + 1 else cut..]
  {
    hide CharLen, Valid, CutAt;
    CutIsGood(rest, maxBytes);
  }

  /** The splitting loop. */
  method EncodeAndSplit(kind: MessageType, recipient: string, text: string, maxMsgLen: nat)
    returns (r: SplitResult)
    ensures r.NotImplemented? <==> !Supported(kind)
    ensures var maxBytes := MaxBytes(kind, recipient, maxMsgLen);
      (!r.NotImplemented? ==>
            && r.ending == EndingOf(text, maxBytes)
            && r.bodies == Bodies(Pieces(text, maxBytes))
            && r.messages == Framed(Header(kind, recipient), r.bodies, Footer(kind)))
  {
    hide Progresses, Pieces, EndingOf, Header, Footer, CutAt, Next, BreakAt;
    if !Supported(kind) {
      return NotImplemented(kind);
    }
    var header, footer := Header(kind, recipient), Footer(kind);
    var maxBytes := maxMsgLen - (|header| + |footer|);
    var messages: seq<string>, bodies: seq<string> := [], [];
    var remaining := 0;
    ghost var done: seq<Piece> := [];
    assert text[0..] == text;
    while remaining < |text|
      invariant 0 <= remaining <= |text|
      invariant done + Pieces(text[remaining..], maxBytes) == Pieces(text, maxBytes)
      invariant EndingOf(text[remaining..], maxBytes) == EndingOf(text, maxBytes)
      invariant bodies == Bodies(done) && messages == Framed(header, bodies, footer)
    {
      var rest := text[remaining..];
      var len := EndOfPiece(rest, maxBytes);
      OneTurn(rest, maxBytes);
      if len < 0 {
        return Split(messages, bodies, NoCharStart);
      }
      if len == 0 && rest[0] != '\n' {
        return Split(messages, bodies, NoProgress);
      }
      ghost var later := Pieces(Next(rest, maxBytes), maxBytes);
      Assoc(done, [Piece(rest[..len], BreakAt(rest, len))], later);
      messages := messages + [header + rest[..len] + footer];
      bodies := bodies + [rest[..len]];
      done := done + [Piece(rest[..len], BreakAt(rest, len))];
      OffsetOfNext(text, remaining, maxBytes);
      remaining := remaining + len;
      if remaining < |text| && text[remaining] == '\n' {
        remaining := remaining + 1;
      }
    }
    assert text[remaining..] == "";
    NothingLeft(maxBytes);
    assert done == Pieces(text, maxBytes);
    r := Split(messages, bodies, Done);
  }

  lemma OffsetOfNext(text: string, at: nat, maxBytes: int)
    requires at <= |text| && Progresses(text[at..], maxBytes)
    ensures var end := at + CutAt(text[at..], maxBytes);
      at <= end <= |text|
      && Next(text[at..], maxBytes) == text[if end < |text| && text[end] == '\n' then end + 1 else end..]
  {
    hide CutAt;
    var cut := CutAt(text[at..], maxBytes);
    DropDrop(text, at, cut);
    if cut < |text| - at {
      DropDrop(text, at, cut + 1);
    }
  }

  /** The three ways to end a piece. */
  method EndOfPiece(rest: string, maxBytes: int) returns (len: int)
    ensures len == CutAt(rest, maxBytes)
  {
    var newline := IndexOf(rest, '\n');
    if newline < |rest| && (maxBytes < 0 || newline < maxBytes) {
      len := newline;
    } else if maxBytes < 0 {
      len := -1;
    } else if |rest| > maxBytes {
      len := FindPrevChar(rest, maxBytes);
    } else {
      len := |rest|;
    }
  }

  lemma OneTurn(rest: string, maxBytes: int)
    requires rest != ""
    ensures Progresses(rest, maxBytes) <==>
              CutAt(rest, maxBytes) > 0 || (CutAt(rest, maxBytes) == 0 && rest[0] == '\n')
    ensures !Progresses(rest, maxBytes) ==>
              Pieces(rest, maxBytes) == [] && EndingOf(rest, maxBytes) == StopAt(CutAt(rest, maxBytes))
    ensures Progresses(rest, maxBytes) ==>
              var cut := CutAt(rest, maxBytes); var next := Next(rest, maxBytes);
              && Pieces(rest, maxBytes) == [Piece(rest[..cut], BreakAt(rest, cut))] + Pieces(next, maxBytes)
              && EndingOf(rest, maxBytes) == EndingOf(next, maxBytes)
  {
    hide CutAt;
  }

  lemma NothingLeft(maxBytes: int)
    ensures Valid("") && Pieces("", maxBytes) == [] && EndingOf("", maxBytes) == Done
  {
  }

  // ---- What the pieces are ----

  function Rejoin(pieces: seq<Piece>): string {
    if pieces == [] then [] else pieces[0].Source() + Rejoin(pieces[1..])
  }

  /** What holds of a piece by itself. */
  predicate GoodPiece(p: Piece, maxBytes: nat) {
    && Valid(p.body) && '\n' !in p.body && |p.body| <= maxBytes
    && (p.brk.Forced? ==> maxBytes - 4 <= |p.body| <= maxBytes - 1)
  }

  /** Every piece is good; a forced one is as long as it can be, as one more
      character would reach `maxBytes`; only the last one ends with the text. */
  predicate WellCut(ps: seq<Piece>, maxBytes: nat) {
    ps == [] ||
    (&& GoodPiece(ps[0], maxBytes)
     && (ps[0].brk.Forced? ==> maxBytes <= |ps[0].body| + CharLen(Rejoin(ps[1..])))
     && (ps[0].brk.AtEnd? ==> ps[1..] == [])
     && WellCut(ps[1..], maxBytes))
  }

  /**
   * The pieces account for every byte of the text; each is valid UTF-8 without a
   * newline, fits, and is cut short only at a newline, at the end of the text, or
   * where the next character would reach the limit.
   */
  lemma {:induction false} PiecesAreGood(text: string, maxBytes: nat)
    requires Valid(text) && maxBytes >= 5
    ensures Rejoin(Pieces(text, maxBytes)) == text
    ensures WellCut(Pieces(text, maxBytes), maxBytes)
    decreases |text|
  {
    hide CharLen, CutAt, Valid;
    NothingLeft(maxBytes);
    if text != [] {
      PieceStep(text, maxBytes);
      CutIsGood(text, maxBytes);
      var next := Next(text, maxBytes);
      PiecesAreGood(next, maxBytes);
      FirstPiece(text, CutAt(text, maxBytes), Pieces(next, maxBytes), maxBytes);
    }
  }

  lemma FirstPiece(text: string, cut: nat, later: seq<Piece>, maxBytes: nat)
    requires cut <= |text|
    requires var brk := BreakAt(text, cut);
      && GoodPiece(Piece(text[..cut], brk), maxBytes)
      && (brk.Forced? ==> maxBytes <= cut + CharLen(text[cut..]))
      && Rejoin(later) == text[if brk.AtNewline? then cut + 1 else cut..]
      && (brk.AtEnd? ==> later == [])
      && WellCut(later, maxBytes)
    ensures var ps := [Piece(text[..cut], BreakAt(text, cut))] + later;
      Rejoin(ps) == text && WellCut(ps, maxBytes)
  {
    hide CharLen, GoodPiece;
    var ps := [Piece(text[..cut], BreakAt(text, cut))] + later;
    assert ps[1..] == later;
    assert ps[0].Source() + Rejoin(later) == text;
  }

  lemma {:induction false} WellCutAt(ps: seq<Piece>, maxBytes: nat, i: nat)
    requires WellCut(ps, maxBytes) && i < |ps|
    ensures GoodPiece(ps[i], maxBytes)
  {
    hide GoodPiece;
    if i > 0 {
      WellCutAt(ps[1..], maxBytes, i - 1);
    }
  }

  lemma SourceOfPiece(p: Piece)
    requires '\n' !in p.body
    ensures Without(p.Source(), '\n') == p.body
    ensures Count(p.Source(), '\n') == if p.brk.AtNewline? then 1 else 0
  {
    WithoutAbsent(p.body, '\n');
    CountAbsent(p.body, '\n');
    if p.brk.AtNewline? {
      WithoutConcat(p.body, "\n", '\n');
      CountConcat(p.body, "\n", '\n');
    }
  }

  /** The bodies in order are the text with its newlines deleted. */
  lemma BodiesAreTheText(text: string, maxBytes: nat)
    requires Valid(text) && maxBytes >= 5
    ensures Flatten(Bodies(Pieces(text, maxBytes))) == Without(text, '\n')
  {
    PiecesAreGood(text, maxBytes);
    FlattenIsWithout(Pieces(text, maxBytes), maxBytes);
  }

  lemma {:induction false} FlattenIsWithout(ps: seq<Piece>, maxBytes: nat)
    requires WellCut(ps, maxBytes)
    ensures Flatten(Bodies(ps)) == Without(Rejoin(ps), '\n')
  {
    hide CharLen, Valid;
    if ps != [] {
      FlattenIsWithout(ps[1..], maxBytes);
      assert Bodies(ps)[0] == ps[0].body && Bodies(ps)[1..] == Bodies(ps[1..]);
      SourceOfPiece(ps[0]);
      WithoutConcat(ps[0].Source(), Rejoin(ps[1..]), '\n');
    }
  }

  function ForcedCount(ps: seq<Piece>): nat {
    if ps == [] then 0 else (if ps[0].brk.Forced? then 1 else 0) + ForcedCount(ps[1..])
  }

  /** Splitting is economical: beside one message for each newline and one for the
      end there is at most one for each `maxBytes - 4` bytes. */
  lemma MessageCount(text: string, maxBytes: nat)
    requires Valid(text) && maxBytes >= 5
    ensures |Pieces(text, maxBytes)| <= Count(text, '\n') + 1 + |text| / (maxBytes - 4)
  {
    hide CharLen, Valid, Pieces, WellCut, Rejoin, Count, ForcedCount;
    var ps := Pieces(text, maxBytes);
    PiecesAreGood(text, maxBytes);
    CountPieces(ps, maxBytes);
    ForcedBytes(ps, maxBytes);
    QuotientBound(ForcedCount(ps), maxBytes - 4, |text|);
  }

  lemma QuotientBound(k: nat, d: nat, n: nat)
    requires d > 0 && k * d <= n
    ensures k <= n / d
  {
    var q := n / d;
    assert n < (q + 1) * d;
    assert k <= q || k * d >= (q + 1) * d;
  }

  lemma {:induction false} CountPieces(ps: seq<Piece>, maxBytes: nat)
    requires WellCut(ps, maxBytes)
    ensures |ps| <= Count(Rejoin(ps), '\n') + ForcedCount(ps) + 1
  {
    hide CharLen, Valid;
    if ps != [] {
      CountPieces(ps[1..], maxBytes);
      SourceOfPiece(ps[0]);
      CountConcat(ps[0].Source(), Rejoin(ps[1..]), '\n');
    }
  }

  lemma {:induction false} ForcedBytes(ps: seq<Piece>, maxBytes: nat)
    requires WellCut(ps, maxBytes) && maxBytes >= 5
    ensures ForcedCount(ps) * (maxBytes - 4) <= |Rejoin(ps)|
  {
    hide CharLen, Valid;
    if ps != [] {
      ForcedBytes(ps[1..], maxBytes);
      OneMore(ForcedCount(ps[1..]), maxBytes - 4);
    }
  }

  lemma OneMore(k: nat, d: nat)
    ensures (k + 1) * d == k * d + d
  {
  }

  /** Every message of a supported kind fits the length the caller gave. */
  lemma MessagesFit(kind: MessageType, recipient: string, text: string, maxMsgLen: nat, i: nat)
    requires Valid(text) && MaxBytes(kind, recipient, maxMsgLen) >= 5
    requires i < |Pieces(text, MaxBytes(kind, recipient, maxMsgLen))|
    ensures |Header(kind, recipient) + Bodies(Pieces(text, MaxBytes(kind, recipient, maxMsgLen)))[i] + Footer(kind)|
              <= maxMsgLen
  {
    PiecesAreGood(text, MaxBytes(kind, recipient, maxMsgLen));
    WellCutAt(Pieces(text, MaxBytes(kind, recipient, maxMsgLen)), MaxBytes(kind, recipient, maxMsgLen), i);
  }

  lemma {:induction false} ValidFinishes(text: string, maxBytes: nat)
    requires Valid(text) && maxBytes >= 5
    ensures Finishes(text, maxBytes)
    decreases |text|
  {
    hide CharLen, CutAt, Valid, Progresses;
    if text != "" {
      PieceStep(text, maxBytes);
      ValidFinishes(Next(text, maxBytes), maxBytes);
    }
  }

  /** Five bytes are needed and enough to end every valid text. */
  lemma RoomIsNeeded(maxBytes: int)
    ensures maxBytes >= 5 <==> forall text :: Valid(text) ==> Finishes(text, maxBytes)
  {
    hide Valid, EndingOf;
    if maxBytes >= 5 {
      forall text | Valid(text) ensures Finishes(text, maxBytes) {
        ValidFinishes(text, maxBytes);
      }
    } else {
      SmileyIsStuck(maxBytes);
      var smiley := "\U{F0}\U{9F}\U{98}\U{80}!";
      assert Valid(smiley) && !Finishes(smiley, maxBytes);
    }
  }

  /** One byte is needed and enough for a start of a character to be found wherever one is
      looked for. */
  lemma OneByteFindsStarts(maxBytes: int)
    ensures maxBytes >= 1 <==> forall text :: Valid(text) ==> EndingOf(text, maxBytes) != NoCharStart
  {
    hide Valid, EndingOf;
    if maxBytes >= 1 {
      forall text | Valid(text) ensures EndingOf(text, maxBytes) != NoCharStart {
        StartsAreFound(text, maxBytes);
      }
    } else {
      LetterHasNoStart(maxBytes);
    }
  }

  /** Without room no text is sent at all; and where the room is negative, so that the limit
      wraps, exactly the texts are that end with a newline. */
  lemma {:induction false} WithoutRoom(text: string, maxBytes: int)
    requires maxBytes <= 0
    ensures EndingOf(text, maxBytes) ==
      if text == "" || (maxBytes < 0 && text[|text| - 1] == '\n') then Done else NoCharStart
    decreases |text|
  {
    if text != "" {
      var newline := IndexOf(text, '\n');
      if newline < |text| && maxBytes < 0 {
        var next := text[newline + 1..];
        assert CutAt(text, maxBytes) == newline && Next(text, maxBytes) == next;
        WithoutRoom(next, maxBytes);
        assert next != "" ==> next[|next| - 1] == text[|text| - 1];
      } else {
        assert CutAt(text, maxBytes) == -1;
        assert newline == |text| ==> text[..newline] == text;
      }
    }
  }

  lemma LetterHasNoStart(maxBytes: int)
    requires maxBytes < 1
    ensures Valid("a") && EndingOf("a", maxBytes) == NoCharStart
  {
    assert CharLen("a") == 1 && "a"[1..] == [];
    assert '\n' !in "a";
    assert CutAt("a", maxBytes) == -1;
  }

  lemma {:induction false} StartsAreFound(text: string, maxBytes: nat)
    requires Valid(text) && maxBytes >= 1
    ensures EndingOf(text, maxBytes) != NoCharStart
    decreases |text|
  {
    hide CutAt, Valid;
    if text != "" {
      CutIsValid(text, maxBytes);
      if Progresses(text, maxBytes) {
        StartsAreFound(Next(text, maxBytes), maxBytes);
      }
    }
  }

  lemma CutIsValid(rest: string, maxBytes: nat)
    requires rest != "" && Valid(rest) && maxBytes >= 1
    ensures 0 <= CutAt(rest, maxBytes)
    ensures Progresses(rest, maxBytes) ==> Valid(Next(rest, maxBytes))
  {
    hide CharLen, Valid;
    var cut := CutAt(rest, maxBytes);
    StartIsNoTail(rest);
    ValidCut(rest, cut);
    if cut < |rest| && rest[cut] == '\n' {
      NewlineIsOneByte(rest[cut..]);
      DropDrop(rest, cut, 1);
    }
  }

  lemma StartIsNoTail(s: string)
    requires Valid(s) && s != ""
    ensures !IsTail(s[0])
  {
    hide CharLen;
  }

  /** A character of four bytes and one more, with room for four: the loop cannot go on, and
      without any room it has no character start to go back to. */
  lemma SmileyIsStuck(maxBytes: int)
    requires maxBytes < 5
    ensures var smiley := "\U{F0}\U{9F}\U{98}\U{80}!";
      Valid(smiley) && EndingOf(smiley, maxBytes) == if maxBytes >= 1 then NoProgress else NoCharStart
  {
    var smiley := "\U{F0}\U{9F}\U{98}\U{80}!";
    assert CharLen(smiley) == 4 && smiley[4..] == "!" && CharLen("!") == 1;
    assert "!"[1..] == [];
    assert Valid(smiley);
    assert '\n' !in smiley;
    assert FindPrevChar(smiley, 0) == -1;
    assert FindPrevChar(smiley, 1) == 0 && FindPrevChar(smiley, 2) == 0;
    assert FindPrevChar(smiley, 3) == 0 && FindPrevChar(smiley, 4) == 0;
    assert CutAt(smiley, maxBytes) <= 0;
  }
}
