/**
 * From one client to another: a text is split, framed, queued and written, the server
 * relays each line with the sender's prefix, and the receiving client converts the chunks
 * it reads, reassembles, tokenises, parses and decodes them.
 */
module RoundTrip {
  import opened Irc
  import opened Seqs
  import opened Wrappers
  import opened Utf8
  import opened Handles
  import opened Parser
  import opened Messages
  import opened Dispatch
  import Chunking
  import Connection
  import Conversion
  import Ctcp
  import CtcpDecode
  import Framing
  import Outgoing
  import Receiver
  import Text

  // ---- Decoding (`idle_text_decode` and the two handlers around it) ----

  const ACTION_PREFIX: string := "\U{01}ACTION "

  predicate IsAction(text: string) {
    |text| >= 8 && CaseEq(text[..8], ACTION_PREFIX)
  }

  /** What a PRIVMSG is decoded to: some other CTCP request, a length that underflows, or a
      type and a body. */
  datatype Decoded = OtherRequest | LengthUnderflow | Decoded(kind: Text.MessageType, body: string)

  /** `idle_text_decode`. */
  function DecodeText(text: string): Decoded {
    if CharAt(text, 0) != '\U{01}' then Decoded(Text.Normal, Ctcp.KillFormatting(text))
    else if !IsAction(text) then OtherRequest
    else if |text| == |ACTION_PREFIX| then LengthUnderflow
    else Decoded(Text.Action, Ctcp.KillFormatting(text[|ACTION_PREFIX|..|text| - 1]))
  }

  predicate IsNotice(code: Code) {
    code == NoticeChannel || code == NoticeUser
  }

  predicate IsText(code: Code) {
    IsNotice(code) || code == PrivmsgChannel || code == PrivmsgUser
  }

  /** `_notice_privmsg_handler` of the room and contact managers. */
  function ReceivedText(d: Delivery): Decoded
    requires IsText(d.code) && TextAt(d.args, 2)
  {
    if IsNotice(d.code) then Decoded(Text.Notice, Ctcp.KillFormatting(d.args[2].s)) else DecodeText(d.args[2].s)
  }

  // ---- One message ----

  function Command(kind: Text.MessageType): string {
    if kind.Notice? then "NOTICE" else "PRIVMSG"
  }

  function Payload(kind: Text.MessageType, body: string): string {
    if kind.Action? then ACTION_PREFIX + body + "\U{01}" else body
  }

  function Message(kind: Text.MessageType, recipient: string, body: string): string {
    Text.Header(kind, recipient) + body + Text.Footer(kind)
  }

  function Relayed(prefix: string, message: string): string {
    ":" + prefix + " " + message
  }

  /** Free of spaces, line ends and NULs. */
  predicate Solid(s: string) {
    forall i :: 0 <= i < |s| ==> s[i] !in " \r\n\0"
  }

  /** A sender as servers put it before a message. */
  predicate IsPrefix(repos: Repos, nick: string, host: string) {
    NicknameValid(repos, nick, false) && Solid(host)
  }

  function Prefix(nick: string, host: string): string {
    nick + "!" + host
  }

  predicate IsRecipient(repos: Repos, recipient: string) {
    ChannelNameValid(recipient) || NicknameValid(repos, recipient, false)
  }

  function RecipientKind(recipient: string): HandleKind {
    if ChannelNameValid(recipient) then Room else Contact
  }

  lemma RecipientIsSolid(repos: Repos, recipient: string)
    requires IsRecipient(repos, recipient)
    ensures recipient != "" && recipient[0] != ':' && Solid(recipient)
    ensures !ChannelNameValid(recipient) ==> NickPart(recipient) == recipient
  {
    hide NickCharsOk;
    if ChannelNameValid(recipient) {
      ChannelIsClean(recipient);
    } else {
      NicknameIsClean(repos, recipient, true, false);
      IndexOfIs(recipient, '!', |recipient|);
    }
  }

  lemma PrefixIsSolid(repos: Repos, nick: string, host: string)
    requires IsPrefix(repos, nick, host)
    ensures Solid(Prefix(nick, host)) && NickPart(Prefix(nick, host)) == nick && nick != ""
  {
    hide NickCharsOk;
    NicknameIsClean(repos, nick, true, false);
    var p := Prefix(nick, host);
    assert p[..|nick|] == nick;
    IndexOfIs(p, '!', |nick|);
  }

  lemma SolidIsWord(s: string)
    requires Solid(s) && s != ""
    ensures Word(s) && Word(":" + s)
  {
  }

  lemma Regroup(cmd: string, recipient: string, intro: string, body: string, end: string)
    ensures (cmd + " ") + recipient + (" :" + intro) + body + end
         == cmd + " " + (recipient + " " + (":" + (intro + body + end)))
  {
  }

  /** A message, taken apart. */
  lemma MessageParts(kind: Text.MessageType, recipient: string, body: string)
    requires Text.Supported(kind)
    ensures Message(kind, recipient, body)
         == Command(kind) + " " + (recipient + " " + (":" + Payload(kind, body)))
  {
    if kind.Action? {
      Regroup("PRIVMSG", recipient, ACTION_PREFIX, body, "\U{01}");
      assert "PRIVMSG" + " " == "PRIVMSG " && " :" + ACTION_PREFIX == " :\U{01}ACTION ";
    } else {
      Regroup(Command(kind), recipient, "", body, "");
      assert "" + body + "" == body && " :" + "" == " :";
      assert "PRIVMSG" + " " == "PRIVMSG " && "NOTICE" + " " == "NOTICE ";
    }
  }

  lemma RelayedTokens(repos: Repos, nick: string, host: string, kind: Text.MessageType, recipient: string, body: string)
    requires Text.Supported(kind) && IsPrefix(repos, nick, host) && IsRecipient(repos, recipient)
    ensures var toks := Tokens(Relayed(Prefix(nick, host), Message(kind, recipient, body)));
      && |toks| >= 4
      && toks[0].text == ":" + Prefix(nick, host)
      && toks[1].text == Command(kind)
      && toks[2].text == recipient
      && toks[3].text != "" && toks[3].text[0] == ':'
      && toks[3].rest == ":" + Payload(kind, body)
  {
    hide Tokens, ChannelNameValid, NicknameValid, NickPart, Payload, Message;
    var prefix := Prefix(nick, host);
    PrefixIsSolid(repos, nick, host);
    RecipientIsSolid(repos, recipient);
    SolidIsWord(prefix);
    SolidIsWord(recipient);
    MessageParts(kind, recipient, body);
    var r3 := ":" + Payload(kind, body);
    var r2 := recipient + " " + r3;
    var r1 := Command(kind) + " " + r2;
    TokensOfFirst(":" + prefix, r1);
    TokensOfFirst(Command(kind), r2);
    TokensOfFirst(recipient, r3);
    TokensStart(r3);
  }

  function Args(repos: Repos, nick: string, recipient: string, payload: string): seq<Value> {
    [Handle(Contact, repos.strdown(nick)), Handle(RecipientKind(recipient), repos.strdown(recipient)),
     Value.Text(payload)]
  }

  /** The two formats of text messages, run on the tokens of a relayed message. */
  lemma InterpretText(repos: Repos, toks: seq<Token>, prefix: string, recipient: string, payload: string,
                      format: string)
    requires |toks| >= 4 && toks[0].text == ":" + prefix && toks[2].text == recipient
    requires recipient != "" && recipient[0] != ':'
    requires toks[3].text != "" && toks[3].text[0] == ':' && toks[3].rest == ":" + payload
    requires format == "cIr:" || format == "cIc:"
    ensures Interpret(repos, format, toks) ==
      var sender := EnsureHandle(repos, Contact, NickPart(prefix));
      var target := if format == "cIr:" then EnsureHandle(repos, Room, recipient)
                    else EnsureHandle(repos, Contact, NickPart(recipient));
      if sender.None? || target.None? || payload == "" then None
      else Some([sender.value, target.value, Value.Text(payload)])
  {
    hide EnsureHandle, NickPart, ScanInt;
    var f1, f2, f3 := format[1..], format[2..], format[3..];
    var t1, t2, t3 := toks[1..], toks[2..], toks[3..];
    assert f1[1..] == f2 && f2[1..] == f3 && f3 == ":";
    assert t1[1..] == t2 && t2[1..] == t3;
    assert (":" + prefix)[1..] == prefix && (":" + payload)[1..] == payload;
    assert Interpret(repos, f3, t3) == if payload == "" then None else Some([Value.Text(payload)]);
    StepOf(repos, format, toks);
    StepOf(repos, f1, t1);
    StepOf(repos, f2, t2);
    forall a: Value, b: Value ensures [a] + ([] + ([b] + [Value.Text(payload)])) == [a, b, Value.Text(payload)] {}
  }

  function EntryOf(kind: Text.MessageType): nat {
    if kind.Notice? then 8 else 12
  }

  function CodeOf(kind: Text.MessageType, recipient: string): Code {
    if kind.Notice? then (if ChannelNameValid(recipient) then NoticeChannel else NoticeUser)
    else if ChannelNameValid(recipient) then PrivmsgChannel else PrivmsgUser
  }

  /** Of the two entries that match, exactly one takes the recipient. */
  lemma ForwardedOnce(repos: Repos, nick: string, host: string, kind: Text.MessageType, recipient: string, body: string)
    requires Text.Supported(kind) && IsPrefix(repos, nick, host) && IsRecipient(repos, recipient)
    ensures var m := Relayed(Prefix(nick, host), Message(kind, recipient, body));
      && |Tokens(m)| >= 4
      && Forward(repos, m, Tokens(m), EntryOf(kind)) + Forward(repos, m, Tokens(m), EntryOf(kind) + 1)
        == if Payload(kind, body) == "" then []
           else [Delivery(CodeOf(kind, recipient), Args(repos, nick, recipient, Payload(kind, body)))]
  {
    hide Tokens, Payload, ChannelNameValid, NicknameValid, NickPart, Interpret, Message, CaseEq;
    var prefix, payload := Prefix(nick, host), Payload(kind, body);
    var m := Relayed(prefix, Message(kind, recipient, body));
    var toks := Tokens(m);
    PrefixIsSolid(repos, nick, host);
    RecipientIsSolid(repos, recipient);
    RelayedTokens(repos, nick, host, kind, recipient, body);
    assert m[0] == ':';
    MatchesOnly(m, toks, EntryOf(kind));
    MatchesOnly(m, toks, EntryOf(kind) + 1);
    InterpretText(repos, toks, prefix, recipient, payload, "cIr:");
    InterpretText(repos, toks, prefix, recipient, payload, "cIc:");
    if ChannelNameValid(recipient) {
      RoomIsNoContact(repos, recipient);
    }
  }

  /** A relayed message reaches the handlers of one code, once. */
  lemma DeliveredOnce(repos: Repos, nick: string, host: string, kind: Text.MessageType, recipient: string, body: string)
    requires Text.Supported(kind) && IsPrefix(repos, nick, host) && IsRecipient(repos, recipient)
    ensures var m := Relayed(Prefix(nick, host), Message(kind, recipient, body));
      && |Tokens(m)| >= 2
      && Deliveries(repos, m)
        == if Payload(kind, body) == "" then []
           else [Delivery(CodeOf(kind, recipient), Args(repos, nick, recipient, Payload(kind, body)))]
  {
    hide Tokens, Payload, ChannelNameValid, NicknameValid, Forward, Message, Matches, Args;
    var m := Relayed(Prefix(nick, host), Message(kind, recipient, body));
    var toks := Tokens(m);
    var e := EntryOf(kind);
    RelayedTokens(repos, nick, host, kind, recipient, body);
    assert m[0] == ':';
    forall k | 0 <= k < SPEC_COUNT ensures Matches(m, toks, k) <==> k == e || k == e + 1 {
      MatchesOnly(m, toks, k);
    }
    SkipTo(repos, m, toks, 0, e);
    SkipTo(repos, m, toks, e + 2, SPEC_COUNT);
    ForwardedOnce(repos, nick, host, kind, recipient, body);
    var a, b := Forward(repos, m, toks, e), Forward(repos, m, toks, e + 1);
    assert ForwardFrom(repos, m, toks, e + 2) == [];
    assert ForwardFrom(repos, m, toks, e) == a + (b + []);
    Assoc(a, b, []);
  }

  // ---- Decoding gives the type and body back ----

  /** No carriage return, CTCP quote or formatting code. */
  predicate Plain(text: string) {
    forall i :: 0 <= i < |text| ==> text[i] != '\r' && text[i] != '\U{01}' && !Ctcp.IsFormat(text[i])
  }

  /** What a client makes of one line: the texts handed to a room or a contact. */
  function TextsOf(repos: Repos, line: string): seq<(Text.MessageType, string)> {
    if Tokens(line) == [] then [] else DeliveredTexts(Deliveries(repos, line))
  }

  function DeliveredTexts(ds: seq<Delivery>): seq<(Text.MessageType, string)> {
    if ds == [] then [] else DeliveredText(ds[0]) + DeliveredTexts(ds[1..])
  }

  function DeliveredText(d: Delivery): seq<(Text.MessageType, string)> {
    if !IsText(d.code) || !TextAt(d.args, 2) then []
    else match ReceivedText(d) { case Decoded(kind, body) => [(kind, body)] case _ => [] }
  }

  /** The length underflows exactly for the prefix of an action with nothing behind it. */
  lemma UnderflowsExactly(text: string)
    ensures DecodeText(text) == LengthUnderflow <==> |text| == |ACTION_PREFIX| && CaseEq(text, ACTION_PREFIX)
  {
    assert |text| == 8 ==> text[..8] == text;
    assert CaseEq(text, ACTION_PREFIX) ==> ToLower(text[0]) == ToLower('\U{01}');
  }

  /** A relayed line that does it. */
  lemma BareActionArrives(repos: Repos, nick: string, host: string, recipient: string)
    requires IsPrefix(repos, nick, host) && IsRecipient(repos, recipient)
    ensures var ds := Deliveries(repos, Relayed(Prefix(nick, host), "PRIVMSG " + recipient + " :" + ACTION_PREFIX));
      |ds| == 1 && IsText(ds[0].code) && TextAt(ds[0].args, 2) && ReceivedText(ds[0]) == LengthUnderflow
  {
    hide Deliveries, Tokens, ChannelNameValid, NicknameValid;
    DeliveredOnce(repos, nick, host, Text.Normal, recipient, ACTION_PREFIX);
    assert Message(Text.Normal, recipient, ACTION_PREFIX) == "PRIVMSG " + recipient + " :" + ACTION_PREFIX;
    UnderflowsExactly(ACTION_PREFIX);
  }

  lemma ActionRoundTrip(body: string)
    requires Plain(body)
    ensures DecodeText(Payload(Text.Action, body)) == Decoded(Text.Action, body)
  {
  }

  lemma NormalRoundTrip(body: string)
    requires Plain(body) && body != ""
    ensures !IsAction(body)
    ensures DecodeText(body) == Decoded(Text.Normal, body)
  {
    assert |body| >= 8 ==> body[..8][0] == body[0];
  }

  lemma NoticeRoundTrip(body: string)
    requires Plain(body)
    ensures Ctcp.KillFormatting(body) == body
  {
  }

  /** A blank piece of an ordinary message has no payload, and is not delivered. */
  function Expected(kind: Text.MessageType, body: string): seq<(Text.MessageType, string)> {
    if Payload(kind, body) == "" then [] else [(kind, body)]
  }

  /** One piece, all the way: it comes back as its type and body, once. */
  lemma PieceArrives(repos: Repos, nick: string, host: string, kind: Text.MessageType, recipient: string, body: string)
    requires Text.Supported(kind) && IsPrefix(repos, nick, host) && IsRecipient(repos, recipient) && Plain(body)
    ensures TextsOf(repos, Relayed(Prefix(nick, host), Message(kind, recipient, body))) == Expected(kind, body)
  {
    hide Deliveries, Tokens, Message, Prefix, Ctcp.KillFormatting, ChannelNameValid, NicknameValid;
    DeliveredOnce(repos, nick, host, kind, recipient, body);
    var payload := Payload(kind, body);
    if payload != "" {
      var d := Delivery(CodeOf(kind, recipient), Args(repos, nick, recipient, payload));
      if kind.Action? {
        ActionRoundTrip(body);
      } else if kind.Normal? {
        NormalRoundTrip(body);
      } else {
        NoticeRoundTrip(body);
      }
      assert DeliveredText(d) == [(kind, body)];
      assert DeliveredTexts([d]) == DeliveredText(d) + DeliveredTexts([]);
    }
  }

  // ---- The stream ----

  /** Every framed message relayed, one after the other. */
  function RelayedStream(prefix: string, messages: seq<string>): string {
    if messages == [] then ""
    else Relayed(prefix, Framing.Frame(messages[0])) + RelayedStream(prefix, messages[1..])
  }

  function RelayedLines(prefix: string, messages: seq<string>): seq<string> {
    seq(|messages|, i requires 0 <= i < |messages| => Relayed(prefix, messages[i]))
  }

  /** A message that the framing leaves alone. */
  predicate Fits(message: string) {
    |message| <= IRC_MSG_MAXLEN && NoEol(message)
  }

  lemma {:induction false} StreamIsLines(prefix: string, messages: seq<string>)
    requires Solid(prefix)
    requires forall i :: 0 <= i < |messages| ==> Fits(messages[i])
    ensures Receiver.Lines(RelayedStream(prefix, messages)) == RelayedLines(prefix, messages)
    ensures Receiver.Tail(RelayedStream(prefix, messages)) == ""
  {
    hide Receiver.Lines, Receiver.Tail, Framing.Frame;
    if messages == [] {
      Receiver.LinesOfNone("");
    } else {
      var m, rest := messages[0], RelayedStream(prefix, messages[1..]);
      StreamIsLines(prefix, messages[1..]);
      Framing.FrameOfFitting(m);
      var line := Relayed(prefix, m);
      assert NoEol(line);
      Receiver.LinesOfFirst(line, '\r', "\n" + rest);
      Receiver.LinesOfFirst("", '\n', rest);
      assert "" + ['\n'] + rest == "\n" + rest;
      StreamHead(prefix, m, rest);
      assert RelayedLines(prefix, messages) == [line] + RelayedLines(prefix, messages[1..]);
    }
  }

  lemma StreamHead(prefix: string, m: string, rest: string)
    ensures Relayed(prefix, m + "\r\n") + rest == Relayed(prefix, m) + ['\r'] + ("\n" + rest)
  {
  }

  /** The relayed lines, one in each chunk, are an orderly way to receive the stream, and
      one that the conversion leaves alone. */
  lemma {:induction false} LineByLine(prefix: string, messages: seq<string>) returns (chunks: seq<string>)
    requires Solid(prefix) && Valid(prefix)
    requires forall i :: 0 <= i < |messages| ==>
               Fits(messages[i]) && Valid(messages[i]) && |prefix| + 2 + |messages[i]| <= IRC_MSG_MAXLEN
    ensures Flatten(chunks) == RelayedStream(prefix, messages) && Chunking.AllOrderly("", chunks)
    ensures AllValid(chunks)
  {
    hide Receiver.Lines, Receiver.Tail, Framing.Frame, Valid;
    if messages == [] {
      chunks := [];
    } else {
      var later := LineByLine(prefix, messages[1..]);
      var line := Relayed(prefix, Framing.Frame(messages[0]));
      Framing.FrameOfFitting(messages[0]);
      StreamIsLines(prefix, [messages[0]]);
      assert RelayedStream(prefix, [messages[0]]) == line + RelayedStream(prefix, []);
      assert line + "" == line && "" + line == line;
      RelayedIsValid(prefix, messages[0]);
      chunks := [line] + later;
    }
  }

  predicate AllValid(chunks: seq<string>) {
    forall i :: 0 <= i < |chunks| ==> Valid(chunks[i])
  }

  lemma RelayedIsValid(prefix: string, message: string)
    requires Valid(prefix) && Valid(message)
    ensures Valid(Relayed(prefix, message + "\r\n"))
  {
    hide CharLen, Valid;
    Conversion.AsciiIsValid(":");
    Conversion.AsciiIsValid(" ");
    Conversion.AsciiIsValid("\r\n");
    ValidConcat(message, "\r\n");
    ValidConcat(":", prefix);
    ValidConcat(":" + prefix, " ");
    ValidConcat(":" + prefix + " ", message + "\r\n");
  }

  // ---- The conversion of what is read ----

  lemma ShapeOfReceived(chunks: seq<string>)
    ensures Chunking.SameShapes(chunks, Conversion.AllReceived(chunks))
  {
    hide Valid;
  }

  lemma {:induction false} InFlatten(chunks: seq<string>, c: char)
    requires c !in Flatten(chunks)
    ensures forall i :: 0 <= i < |chunks| ==> c !in chunks[i]
  {
    if chunks != [] {
      InFlatten(chunks[1..], c);
    }
  }

  /** The parser makes of a stream what it ought to exactly when its chunks are orderly and
      each of them is valid UTF-8 by itself. */
  lemma ValidChunksArrive(chunks: seq<string>)
    requires '\0' !in Flatten(chunks)
    ensures Chunking.AllOrderly("", chunks) && AllValid(chunks) <==>
              Chunking.ReceiveAll("", Conversion.AllReceived(chunks)) == Chunking.Continue("", Flatten(chunks))
  {
    hide Valid, Chunking.ReceiveAll, Chunking.Continue, Chunking.AllOrderly, Chunking.SameShapes, Conversion.Received;
    var converted := Conversion.AllReceived(chunks);
    ShapeOfReceived(chunks);
    Chunking.ChangedChunks(chunks, converted);
    InFlatten(chunks, '\0');
    forall i | 0 <= i < |chunks| ensures converted[i] == chunks[i] <==> Valid(chunks[i]) {
      Conversion.ReceivedIsRaw(chunks[i]);
    }
    assert AllValid(chunks) ==> converted == chunks;
    assert converted == chunks ==> AllValid(chunks);
  }

  // ---- End to end ----

  lemma {:induction false} PiecesArePlain(ps: seq<Text.Piece>, maxBytes: nat)
    requires Text.WellCut(ps, maxBytes) && Plain(Text.Rejoin(ps))
    ensures forall i :: 0 <= i < |ps| ==> Plain(ps[i].body) && NoEol(ps[i].body) && '\0' !in ps[i].body
  {
    hide Valid, CharLen;
    if ps != [] {
      var rest := Text.Rejoin(ps[1..]);
      var whole := ps[0].Source() + rest;
      assert forall i :: 0 <= i < |rest| ==> rest[i] == whole[|ps[0].Source()| + i];
      assert forall i :: 0 <= i < |ps[0].body| ==> ps[0].body[i] == whole[i];
      PiecesArePlain(ps[1..], maxBytes);
      Conversion.ValidHasNoNul(ps[0].body);
    }
  }

  lemma MessageFits(repos: Repos, kind: Text.MessageType, recipient: string, body: string)
    requires Text.Supported(kind) && IsRecipient(repos, recipient) && NoEol(body) && '\0' !in body
    ensures NoEol(Message(kind, recipient, body)) && '\0' !in Message(kind, recipient, body)
  {
    hide ChannelNameValid, NicknameValid;
    RecipientIsSolid(repos, recipient);
    MessageParts(kind, recipient, body);
    assert NoEol(Payload(kind, body)) && '\0' !in Payload(kind, body);
    assert NoEol(":" + Payload(kind, body)) && '\0' !in ":" + Payload(kind, body);
    assert NoEol(recipient + " " + (":" + Payload(kind, body)));
    assert '\0' !in recipient + " " + (":" + Payload(kind, body));
  }

  /** Everything received, line by line. */
  function AllTexts(repos: Repos, lines: seq<string>): seq<(Text.MessageType, string)> {
    if lines == [] then [] else TextsOf(repos, lines[0]) + AllTexts(repos, lines[1..])
  }

  /** What ought to be received: the nonblank pieces, each with the type it was sent with. */
  function AllExpected(kind: Text.MessageType, bodies: seq<string>): seq<(Text.MessageType, string)> {
    if bodies == [] then [] else Expected(kind, bodies[0]) + AllExpected(kind, bodies[1..])
  }

  function BodiesOf(texts: seq<(Text.MessageType, string)>): string {
    if texts == [] then "" else texts[0].1 + BodiesOf(texts[1..])
  }

  lemma {:induction false} NothingIsMissing(kind: Text.MessageType, bodies: seq<string>)
    ensures BodiesOf(AllExpected(kind, bodies)) == Flatten(bodies)
    ensures forall t :: t in AllExpected(kind, bodies) ==> t.0 == kind
  {
    if bodies != [] {
      NothingIsMissing(kind, bodies[1..]);
      var later := AllExpected(kind, bodies[1..]);
      if Payload(kind, bodies[0]) == "" {
        assert Expected(kind, bodies[0]) + later == later && bodies[0] == "";
      } else {
        assert ([(kind, bodies[0])] + later)[1..] == later;
      }
    }
  }

  lemma {:induction false} AllPiecesArrive(repos: Repos, nick: string, host: string,
                                           kind: Text.MessageType, recipient: string, bodies: seq<string>)
    requires Text.Supported(kind) && IsPrefix(repos, nick, host) && IsRecipient(repos, recipient)
    requires forall i :: 0 <= i < |bodies| ==> Plain(bodies[i])
    ensures AllTexts(repos, RelayedLines(Prefix(nick, host), MessagesOf(kind, recipient, bodies)))
         == AllExpected(kind, bodies)
  {
    hide TextsOf, Expected, Message, Relayed, Plain, Prefix, ChannelNameValid, NicknameValid;
    if bodies != [] {
      AllPiecesArrive(repos, nick, host, kind, recipient, bodies[1..]);
      PieceArrives(repos, nick, host, kind, recipient, bodies[0]);
      assert MessagesOf(kind, recipient, bodies)[1..] == MessagesOf(kind, recipient, bodies[1..]);
      var p, ms := Prefix(nick, host), MessagesOf(kind, recipient, bodies);
      assert RelayedLines(p, ms)[1..] == RelayedLines(p, ms[1..]);
    }
  }

  function MessagesOf(kind: Text.MessageType, recipient: string, bodies: seq<string>): (ms: seq<string>)
    ensures ms == Text.Framed(Text.Header(kind, recipient), bodies, Text.Footer(kind))
  {
    seq(|bodies|, i requires 0 <= i < |bodies| => Message(kind, recipient, bodies[i]))
  }

  /** What the sender's splitter makes of a text. */
  function Sent(kind: Text.MessageType, recipient: string, text: string, maxMsgLen: nat): seq<string>
    requires Valid(text) && Text.MaxBytes(kind, recipient, maxMsgLen) >= 5
  {
    Text.Bodies(Text.Pieces(text, Text.MaxBytes(kind, recipient, maxMsgLen)))
  }

  /** The messages sent fit a line also after the relay has put the prefix before them. */
  lemma SentFits(repos: Repos, kind: Text.MessageType, recipient: string, text: string, maxMsgLen: nat)
    requires Text.Supported(kind) && IsRecipient(repos, recipient)
    requires Valid(text) && Plain(text) && maxMsgLen <= IRC_MSG_MAXLEN
    requires Text.MaxBytes(kind, recipient, maxMsgLen) >= 5
    ensures var bodies := Sent(kind, recipient, text, maxMsgLen);
      forall i :: 0 <= i < |bodies| ==>
        && Plain(bodies[i])
        && Fits(MessagesOf(kind, recipient, bodies)[i]) && |MessagesOf(kind, recipient, bodies)[i]| <= maxMsgLen
        && '\0' !in MessagesOf(kind, recipient, bodies)[i]
  {
    hide Valid, CharLen, Text.Pieces, Plain, Text.GoodPiece, Text.WellCut, IsRecipient, Text.Rejoin;
    var maxBytes := Text.MaxBytes(kind, recipient, maxMsgLen);
    var ps := Text.Pieces(text, maxBytes);
    Text.PiecesAreGood(text, maxBytes);
    PiecesArePlain(ps, maxBytes);
    var bodies := Sent(kind, recipient, text, maxMsgLen);
    forall i | 0 <= i < |bodies|
      ensures Plain(bodies[i]) && Fits(MessagesOf(kind, recipient, bodies)[i])
      ensures |MessagesOf(kind, recipient, bodies)[i]| <= maxMsgLen && '\0' !in MessagesOf(kind, recipient, bodies)[i]
    {
      assert bodies[i] == ps[i].body;
      Text.MessagesFit(kind, recipient, text, maxMsgLen, i);
      MessageFits(repos, kind, recipient, bodies[i]);
    }
  }

  lemma {:induction false} StreamHasNoNul(prefix: string, messages: seq<string>)
    requires Solid(prefix) && forall i :: 0 <= i < |messages| ==> Fits(messages[i]) && '\0' !in messages[i]
    ensures '\0' !in RelayedStream(prefix, messages)
  {
    hide Framing.Frame;
    if messages != [] {
      StreamHasNoNul(prefix, messages[1..]);
      Framing.FrameOfFitting(messages[0]);
      assert '\0' !in messages[0] + "\r\n";
      assert '\0' !in Relayed(prefix, Framing.Frame(messages[0]));
    }
  }

  /** What the two ends of a conversation have to be for the main result. */
  ghost predicate Setting(repos: Repos, nick: string, host: string, kind: Text.MessageType, recipient: string,
                          text: string, relayPrefix: Option<string>) {
    && Text.Supported(kind) && IsPrefix(repos, nick, host) && IsRecipient(repos, recipient)
    && Valid(text) && Plain(text)
    && 0 <= Framing.MaxMessageLength(relayPrefix)
    && Text.MaxBytes(kind, recipient, Framing.MaxMessageLength(relayPrefix)) >= 5
    && |Prefix(nick, host)| <= (match relayPrefix { case Some(prefix) => |prefix| case None => 98 })
  }

  /**
   * End to end.  The text is split for the prefix length the sender accounts for, every
   * message is framed and relayed, and the bytes arrive in any chunks.  The receiver gets
   * exactly the relayed lines, with nothing held back, if and only if the chunks are orderly
   * and each of them is valid UTF-8 by itself.  In that case it takes exactly the
   * nonblank pieces, in order, each with its type and body and once; and their bodies
   * concatenate to the text without its newlines.
   */
  lemma EndToEnd(repos: Repos, nick: string, host: string, kind: Text.MessageType, recipient: string,
                 text: string, relayPrefix: Option<string>, chunks: seq<string>)
    requires Setting(repos, nick, host, kind, recipient, text, relayPrefix)
    requires var bodies := Sent(kind, recipient, text, Framing.MaxMessageLength(relayPrefix));
      Flatten(chunks) == RelayedStream(Prefix(nick, host), MessagesOf(kind, recipient, bodies))
    ensures var bodies := Sent(kind, recipient, text, Framing.MaxMessageLength(relayPrefix));
      var lines := RelayedLines(Prefix(nick, host), MessagesOf(kind, recipient, bodies));
      var received := Chunking.ReceiveAll("", Conversion.AllReceived(chunks));
      && (received == Receiver.Outcome(lines, "") <==> Chunking.AllOrderly("", chunks) && AllValid(chunks))
      && (Chunking.AllOrderly("", chunks) && AllValid(chunks) ==>
            && AllTexts(repos, received.emitted) == AllExpected(kind, bodies)
            && BodiesOf(AllTexts(repos, received.emitted)) == Without(text, '\n'))
  {
    hide Valid, CharLen, Plain, IsRecipient, AllTexts, AllExpected, Text.Pieces, Relayed, AllValid,
         Conversion.AllReceived, Receiver.Lines, Receiver.Tail, Chunking.ReceiveAll, Chunking.AllOrderly;
    var maxMsgLen := Framing.MaxMessageLength(relayPrefix);
    var bodies := Sent(kind, recipient, text, maxMsgLen);
    var messages := MessagesOf(kind, recipient, bodies);
    SentFits(repos, kind, recipient, text, maxMsgLen);
    PrefixIsSolid(repos, nick, host);
    StreamIsLines(Prefix(nick, host), messages);
    StreamHasNoNul(Prefix(nick, host), messages);
    ValidChunksArrive(chunks);
    assert "" + Flatten(chunks) == Flatten(chunks);
    AllPiecesArrive(repos, nick, host, kind, recipient, bodies);
    NothingIsMissing(kind, bodies);
    Text.BodiesAreTheText(text, Text.MaxBytes(kind, recipient, maxMsgLen));
  }

  lemma MessageIsValid(kind: Text.MessageType, recipient: string, body: string)
    requires Text.Supported(kind) && Valid(recipient) && Valid(body)
    ensures Valid(Message(kind, recipient, body))
  {
    hide CharLen, Valid, Text.Header, Text.Footer;
    var cmd, intro := Command(kind) + " ", if kind.Action? then " :" + ACTION_PREFIX else " :";
    FixedPartsAreValid(kind);
    HeaderParts(kind, recipient);
    ValidConcat(cmd, recipient);
    ValidConcat(cmd + recipient, intro);
    ValidConcat(Text.Header(kind, recipient), body);
    ValidConcat(Text.Header(kind, recipient) + body, Text.Footer(kind));
  }

  lemma FixedPartsAreValid(kind: Text.MessageType)
    ensures Valid(Command(kind) + " ") && Valid(if kind.Action? then " :" + ACTION_PREFIX else " :")
    ensures Valid(Text.Footer(kind))
  {
    hide CharLen, Valid;
    Conversion.AsciiIsValid(Command(kind) + " ");
    Conversion.AsciiIsValid(if kind.Action? then " :" + ACTION_PREFIX else " :");
    Conversion.AsciiIsValid(Text.Footer(kind));
  }

  lemma HeaderParts(kind: Text.MessageType, recipient: string)
    requires Text.Supported(kind)
    ensures Text.Header(kind, recipient)
      == Command(kind) + " " + recipient + (if kind.Action? then " :" + ACTION_PREFIX else " :")
  {
    assert "PRIVMSG" + " " == "PRIVMSG " && "NOTICE" + " " == "NOTICE " && " :" + ACTION_PREFIX == " :\U{01}ACTION ";
  }

  /** The chunks that `EndToEnd` asks for exist whenever the names are valid UTF-8: the
      relayed lines, one in each. */
  lemma AWayToArrive(repos: Repos, nick: string, host: string, kind: Text.MessageType, recipient: string,
                     text: string, relayPrefix: Option<string>) returns (chunks: seq<string>)
    requires Setting(repos, nick, host, kind, recipient, text, relayPrefix)
    requires Valid(Prefix(nick, host)) && Valid(recipient)
    ensures var bodies := Sent(kind, recipient, text, Framing.MaxMessageLength(relayPrefix));
      Flatten(chunks) == RelayedStream(Prefix(nick, host), MessagesOf(kind, recipient, bodies))
    ensures Chunking.AllOrderly("", chunks) && AllValid(chunks)
  {
    hide Valid, CharLen, Plain, IsRecipient, Text.Pieces, Text.WellCut, Message, Chunking.AllOrderly,
         AllValid, RelayedStream;
    var maxMsgLen := Framing.MaxMessageLength(relayPrefix);
    var maxBytes := Text.MaxBytes(kind, recipient, maxMsgLen);
    var bodies := Sent(kind, recipient, text, maxMsgLen);
    var messages := MessagesOf(kind, recipient, bodies);
    SentFits(repos, kind, recipient, text, maxMsgLen);
    PrefixIsSolid(repos, nick, host);
    Text.PiecesAreGood(text, maxBytes);
    forall i | 0 <= i < |messages| ensures Valid(messages[i]) {
      Text.WellCutAt(Text.Pieces(text, maxBytes), maxBytes, i);
      MessageIsValid(kind, recipient, bodies[i]);
    }
    chunks := LineByLine(Prefix(nick, host), messages);
  }

  /** What the server relays of the lines on its wire. */
  function RelayedWire(prefix: string, lines: seq<string>): string {
    if lines == [] then "" else Relayed(prefix, lines[0]) + RelayedWire(prefix, lines[1..])
  }

  lemma {:induction false} RelayOfFrames(prefix: string, messages: seq<string>)
    ensures RelayedWire(prefix, Connection.Frames(messages)) == RelayedStream(prefix, messages)
  {
    hide Framing.Frame, Relayed;
    if messages != [] {
      RelayOfFrames(prefix, messages[1..]);
      assert Connection.Frames(messages)[1..] == Connection.Frames(messages[1..]);
    }
  }

  /**
   * The same with the sender's queue and partial writes in between: in any run of its
   * connection that was given the pieces among other messages and has emptied its queue,
   * the server finds their lines among the ordinary lines sent, at the place of the pieces,
   * and relaying those is what the receiver of `EndToEnd` reads.
   */
  lemma ThroughTheConnection(repos: Repos, nick: string, host: string, kind: Text.MessageType, recipient: string,
                             text: string, relayPrefix: Option<string>,
                             states: seq<Connection.State>, events: seq<Connection.Event>, i: nat,
                             before: seq<string>, after: seq<string>)
    requires Setting(repos, nick, host, kind, recipient, text, relayPrefix)
    requires Connection.IsRun(states, events) && i <= |events| && i < |states| && states[i].queue == []
    requires var bodies := Sent(kind, recipient, text, Framing.MaxMessageLength(relayPrefix));
      Connection.NormalMessages(events[..i]) == before + MessagesOf(kind, recipient, bodies) + after
    ensures var bodies := Sent(kind, recipient, text, Framing.MaxMessageLength(relayPrefix));
      var lines := Connection.NormalLines(states[i].dequeued);
      && |before| + |bodies| <= |lines|
      && RelayedWire(Prefix(nick, host), lines[|before|..|before| + |bodies|])
        == RelayedStream(Prefix(nick, host), MessagesOf(kind, recipient, bodies))
      && (!states[i].sconn.lost && !states[i].sending ==>
            states[i].sconn.wire == Connection.Lines(states[i].dequeued))
  {
    hide Valid, CharLen, Plain, IsRecipient, Sent, Framing.Frame, Connection.NormalMessages, Connection.IsRun,
         Connection.NormalLines, Connection.Lines, Outgoing.OfPriority, RelayedWire, RelayedStream, Message, Prefix;
    var bodies := Sent(kind, recipient, text, Framing.MaxMessageLength(relayPrefix));
    var messages := MessagesOf(kind, recipient, bodies);
    Connection.SendsLeaveInOrder(states, events, i);
    Connection.EveryRun(states, events, i, Outgoing.NORMAL_PRIORITY);
    var lines := Connection.NormalLines(states[i].dequeued);
    assert lines[|before|..|before| + |bodies|] == Connection.Frames(messages);
    RelayOfFrames(Prefix(nick, host), messages);
  }

  predicate Ascii(s: string) {
    forall i :: 0 <= i < |s| ==> In(s[i], 1, 0x7F)
  }

  /** A chunk that cuts a character: the message arrives, with two question marks for it. */
  lemma CutCharacterIsLost(repos: Repos, nick: string, host: string, recipient: string)
    requires IsPrefix(repos, nick, host) && IsRecipient(repos, recipient)
    requires Ascii(Prefix(nick, host)) && Ascii(recipient)
    requires |Prefix(nick, host)| + |recipient| < 400
    ensures var head := Relayed(Prefix(nick, host), Text.Header(Text.Normal, recipient));
      var chunks := [head + "\U{C3}", "\U{A9}\r\n"];
      && Valid("\U{C3}\U{A9}") && Plain("\U{C3}\U{A9}")
      && Flatten(chunks) == Relayed(Prefix(nick, host), Message(Text.Normal, recipient, "\U{C3}\U{A9}")) + "\r\n"
      && Chunking.AllOrderly("", chunks)
      && AllTexts(repos, Chunking.ReceiveAll("", Conversion.AllReceived(chunks)).emitted) == [(Text.Normal, "??")]
  {
    hide Valid, CharLen, ChannelNameValid, NicknameValid, Receiver.Lines, Receiver.Tail, Chunking.ReceiveAll,
         Chunking.AllOrderly, Chunking.SameShapes, Conversion.AllReceived, TextsOf, Framing.Frame, Flatten;
    var prefix := Prefix(nick, host);
    var head := Relayed(prefix, Text.Header(Text.Normal, recipient));
    var chunks := [head + "\U{C3}", "\U{A9}\r\n"];
    var message := Message(Text.Normal, recipient, "??");
    CutCharacter(head);
    PrefixIsSolid(repos, nick, host);
    RecipientIsSolid(repos, recipient);
    HeadHasNoEol(prefix, recipient);
    TwoChunksAreOrderly(head + "\U{C3}", "\U{A9}");
    assert "\U{A9}" + "\r\n" == "\U{A9}\r\n";
    ShapeOfReceived(chunks);
    var converted := Conversion.AllReceived(chunks);
    Chunking.ShapesOrderly("", "", chunks, converted);
    assert Flatten(chunks) == head + "\U{C3}" + "\U{A9}\r\n" by { FlattenTwo(head + "\U{C3}", "\U{A9}\r\n"); }
    assert Flatten(converted) == head + "?" + "?\r\n" by { FlattenTwo(head + "?", "?\r\n"); }
    assert head + "?" + "?\r\n" == Relayed(prefix, message + "\r\n");
    OneLineArrives(prefix, message, converted);
    PieceArrives(repos, nick, host, Text.Normal, recipient, "??");
    var line := Relayed(prefix, message);
    assert AllTexts(repos, [line]) == TextsOf(repos, line) + AllTexts(repos, []);
  }

  lemma OneLineArrives(prefix: string, message: string, chunks: seq<string>)
    requires Solid(prefix) && Fits(message)
    requires Chunking.AllOrderly("", chunks) && Flatten(chunks) == Relayed(prefix, message + "\r\n")
    ensures Chunking.ReceiveAll("", chunks).emitted == [Relayed(prefix, message)]
  {
    hide Receiver.Lines, Receiver.Tail, Chunking.ReceiveAll, Chunking.AllOrderly, Relayed, Framing.Frame;
    Chunking.ChunkingIsIrrelevant("", chunks);
    Framing.FrameOfFitting(message);
    StreamIsLines(prefix, [message]);
    assert RelayedStream(prefix, [message]) == Relayed(prefix, message + "\r\n") + RelayedStream(prefix, []);
    assert "" + Flatten(chunks) == RelayedStream(prefix, [message]);
    assert RelayedLines(prefix, [message]) == [Relayed(prefix, message)];
  }

  lemma FlattenTwo(a: string, b: string)
    ensures Flatten([a, b]) == a + b
  {
    assert [a, b][1..] == [b] && Flatten([b]) == b + Flatten<char>([]);
  }

  lemma HeadHasNoEol(prefix: string, recipient: string)
    requires Solid(prefix) && Solid(recipient)
    ensures NoEol(Relayed(prefix, Text.Header(Text.Normal, recipient)))
    ensures NoEol(Message(Text.Normal, recipient, "??"))
  {
  }

  lemma CutCharacter(head: string)
    requires Ascii(head)
    ensures Valid("\U{C3}\U{A9}")
    ensures Conversion.AllReceived([head + "\U{C3}", "\U{A9}\r\n"]) == [head + "?", "?\r\n"]
  {
    assert CharLen("\U{C3}\U{A9}") == 2 && "\U{C3}\U{A9}"[2..] == "";
    assert (head + "\U{C3}")[|head|..] == "\U{C3}" && !Valid("\U{C3}");
    if Valid(head + "\U{C3}") {
      ValidCut(head + "\U{C3}", |head|);
    }
    assert CharLen("\U{A9}\r\n") == 0;
    assert Conversion.Received(head + "\U{C3}") == head + "?";
    assert Conversion.Received("\U{A9}\r\n") == "?\r\n";
  }

  lemma TwoChunksAreOrderly(a: string, b: string)
    requires NoEol(a) && NoEol(b) && a != "" && b != "" && |a| <= 500 && |b| <= 10
    ensures Chunking.AllOrderly("", [a, b + "\r\n"])
  {
    hide Receiver.Lines, Receiver.Tail;
    assert "" + a == a;
    Receiver.LinesOfNone(a);
    Receiver.LinesOfFirst(a + b, '\r', "\n");
    Receiver.LinesOfFirst("", '\n', "");
    Receiver.LinesOfNone("");
    assert "" + ['\n'] + "" == "\n" && a + b + ['\r'] + "\n" == a + (b + "\r\n");
    var c := b + "\r\n";
    assert [a, c][1..] == [c] && [c][1..] == [];
    assert Chunking.AllOrderly("", []) && Chunking.AllOrderly(a, [c]);
  }

  // ---- CTCP requests ----

  /** A CTCP request that fits one line, relayed, is delivered once, and decodes to the words of
      its text under the condition that escapes and words are subject to. */
  lemma CtcpArrives(repos: Repos, nick: string, host: string, kind: Text.MessageType, recipient: string, text: string)
    requires IsPrefix(repos, nick, host) && IsRecipient(repos, recipient) && (kind.Normal? || kind.Notice?)
    requires text != "" && '\0' !in text
    ensures var line := Ctcp.CtcpHeader(Command(kind), recipient) + Ctcp.Escape(text) + "\U{01}";
      var ds := Deliveries(repos, Relayed(Prefix(nick, host), line));
      && |ds| == 1 && ds[0].code == CodeOf(kind, recipient) && TextAt(ds[0].args, 2)
      && (CtcpDecode.Decode(ds[0].args[2].s) == CtcpDecode.Read(CtcpDecode.Words(text)) <==>
            !CtcpDecode.SomewhereRuns(text) && CtcpDecode.AllShort(CtcpDecode.Words(text)))
  {
    hide Deliveries, Tokens, ChannelNameValid, NicknameValid, Ctcp.Escape, CtcpDecode.Decode, CtcpDecode.Words,
         CtcpDecode.SomewhereRuns, CtcpDecode.AllShort, Relayed;
    var payload := CtcpDecode.Frame(text);
    DeliveredOnce(repos, nick, host, kind, recipient, payload);
    CtcpLine(kind, recipient, text);
    CtcpDecode.DecodeUndoesEscape(text);
  }

  lemma CtcpLine(kind: Text.MessageType, recipient: string, text: string)
    requires kind.Normal? || kind.Notice?
    ensures Ctcp.CtcpHeader(Command(kind), recipient) + Ctcp.Escape(text) + "\U{01}"
         == Message(kind, recipient, CtcpDecode.Frame(text))
  {
    hide Ctcp.Escape;
    assert "PRIVMSG" + " " == "PRIVMSG " && "NOTICE" + " " == "NOTICE ";
  }
}
