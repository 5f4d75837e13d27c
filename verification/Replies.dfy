/** Whole received lines and what they are delivered as: the last word with and without its
    colon, the server's ping, a list of members, and a change of modes (`idle-parser.c`). */
module Replies {
  import opened Seqs
  import opened Wrappers
  import opened Handles
  import opened Parser
  import opened Messages
  import opened Dispatch
  import opened Printing
  import Modes
  import ModeActions

  // ---- The last word ----

  /** The tokens of a message that goes on. */
  function Longer(toks: seq<Token>, more: string): seq<Token> {
    seq(|toks|, i requires 0 <= i < |toks| => Token(toks[i].text, toks[i].rest + more))
  }

  lemma {:induction false} TokensGoOn(h: string, last: string)
    ensures Tokens(h + " " + last) == Longer(Tokens(h), " " + last) + Tokens(last)
    decreases |h|
  {
    hide Tokens, IndexOf;
    var msg := h + " " + last;
    var space := IndexOf(h, ' ');
    FirstSpace(h, last);
    TokensStep(msg);
    TokensStep(h);
    if space == |h| {
      NoTokens();
      assert h[..space] == h && msg[..space] == h;
    } else {
      TokensGoOn(h[space + 1..], last);
      assert msg[space + 1..] == h[space + 1..] + " " + last;
      assert msg[..space] == h[..space];
      Assoc(FirstWord(msg), Longer(Tokens(h[space + 1..]), " " + last), Tokens(last));
    }
    LongerFirst(h, last);
  }

  lemma FirstSpace(h: string, last: string)
    ensures IndexOf(h + " " + last, ' ') == IndexOf(h, ' ')
    ensures IndexOf(h, ' ') == |h| ==> AfterFirst(h + " " + last) == last && AfterFirst(h) == ""
  {
    var msg, space := h + " " + last, IndexOf(h, ' ');
    assert msg[..space] == h[..space];
    IndexOfIs(msg, ' ', space);
  }

  lemma LongerFirst(h: string, last: string)
    ensures FirstWord(h + " " + last) == Longer(FirstWord(h), " " + last)
    ensures Longer(FirstWord(h) + Tokens(AfterFirst(h)), " " + last)
         == Longer(FirstWord(h), " " + last) + Longer(Tokens(AfterFirst(h)), " " + last)
  {
    hide IndexOf, Tokens;
    FirstSpace(h, last);
    assert (h + " " + last)[..IndexOf(h, ' ')] == h[..IndexOf(h, ' ')];
    assert h + " " + last == h + (" " + last);
  }

  /** No word from `k` on starts with a colon. */
  predicate NoColons(toks: seq<Token>, k: nat) {
    forall i :: k <= i < |toks| ==> CharAt(toks[i].text, 0) != ':'
  }

  predicate SameTexts(a: seq<Token>, b: seq<Token>) {
    |a| == |b| && forall i :: 0 <= i < |a| ==> a[i].text == b[i].text
  }

  /** The interpreter on words that differ in the colon of the last one. */
  lemma {:induction false} InterpretColon(repos: Repos, format: string, a: seq<Token>, b: seq<Token>, w: string)
    requires GoodFormat(format) && SameTexts(a, b) && NoColons(a, 0) && w != "" && w[0] != ':'
    ensures Interpret(repos, format, a + [Token(w, w)]) == Interpret(repos, format, b + [Token(":" + w, ":" + w)])
  {
    hide ParseAtom, Prepend;
    var x, y := a + [Token(w, w)], b + [Token(":" + w, ":" + w)];
    AtomColon(repos, w);
    if format == "" {
    } else if format[0] == 'v' {
      RepeatColon(repos, CharAt(format, 1), a, b, w);
    } else if format[0] == ':' || format[0] == '.' {
      assert (":" + w)[1..] == w;
    } else if a == [] {
      assert x[1..] == [] && y[1..] == [];
    } else {
      InterpretColon(repos, format[1..], a[1..], b[1..], w);
      assert x[1..] == a[1..] + [Token(w, w)] && y[1..] == b[1..] + [Token(":" + w, ":" + w)];
    }
  }

  lemma AtomColon(repos: Repos, w: string)
    requires w != "" && w[0] != ':'
    ensures forall atom :: ParseAtom(repos, atom, w) == ParseAtom(repos, atom, ":" + w)
  {
    hide ScanInt, NickPart, EnsureHandle;
    ColonIsStripped(w);
  }

  lemma {:induction false} RepeatColon(repos: Repos, atom: char, a: seq<Token>, b: seq<Token>, w: string)
    requires SameTexts(a, b) && w != "" && w[0] != ':'
    ensures RepeatAtom(repos, atom, a + [Token(w, w)]) == RepeatAtom(repos, atom, b + [Token(":" + w, ":" + w)])
  {
    hide ParseAtom;
    var x, y := a + [Token(w, w)], b + [Token(":" + w, ":" + w)];
    AtomColon(repos, w);
    if a == [] {
      assert x[1..] == [] && y[1..] == [];
    } else {
      RepeatColon(repos, atom, a[1..], b[1..], w);
      assert x[1..] == a[1..] + [Token(w, w)] && y[1..] == b[1..] + [Token(":" + w, ":" + w)];
    }
  }

  /** Every format of the table starts with an atom. */
  lemma StartsWithAtom(i: nat)
    requires i < SPEC_COUNT
    ensures var f := MessageSpec(i).format; f != "" && IsAtom(f[0])
  {
  }

  lemma ForwardColon(repos: Repos, h: string, w: string, a: seq<Token>, b: seq<Token>, i: nat)
    requires i < SPEC_COUNT && h != "" && |a| >= 2 && SameTexts(a, b) && NoColons(a, 1) && Word(w) && w[0] != ':'
    ensures Forward(repos, h + " " + w, a + [Token(w, w)], i)
         == Forward(repos, h + " :" + w, b + [Token(":" + w, ":" + w)], i)
  {
    hide ParseAtom, Interpret, MessageSpec, CaseEq, Prepend;
    var x, y := Token(w, w), Token(":" + w, ":" + w);
    var format := MessageSpec(i).format;
    StartsWithAtom(i);
    SpecsAreGood(i);
    GoodTail(format);
    InterpretColon(repos, format[1..], a[1..], b[1..], w);
    StepOf(repos, format, a + [x]);
    StepOf(repos, format, b + [y]);
    assert (a + [x])[1..] == a[1..] + [x] && (b + [y])[1..] == b[1..] + [y];
  }

  lemma GoodTail(format: string)
    requires GoodFormat(format) && format != "" && IsAtom(format[0])
    ensures GoodFormat(format[1..])
  {
  }

  lemma NotEmpty(h: string)
    requires Tokens(h) != []
    ensures h != ""
  {
  }

  lemma {:induction false} ForwardFromColon(repos: Repos, h: string, w: string, a: seq<Token>, b: seq<Token>, i: nat)
    requires i <= SPEC_COUNT && h != "" && |a| >= 2 && SameTexts(a, b) && NoColons(a, 1) && Word(w) && w[0] != ':'
    ensures ForwardFrom(repos, h + " " + w, a + [Token(w, w)], i)
         == ForwardFrom(repos, h + " :" + w, b + [Token(":" + w, ":" + w)], i)
    decreases SPEC_COUNT - i
  {
    hide Forward;
    if i < SPEC_COUNT {
      ForwardColon(repos, h, w, a, b, i);
      ForwardFromColon(repos, h, w, a, b, i + 1);
    }
  }

  /** A last parameter of one word is delivered the same with and without its colon, whatever
      the message, as long as no word between the first one and it has a colon. */
  lemma ColonDoesNotMatter(repos: Repos, h: string, w: string)
    requires |Tokens(h)| >= 2 && NoColons(Tokens(h), 1) && Word(w) && w[0] != ':'
    ensures Parse(repos, h + " " + w) == Parse(repos, h + " :" + w)
  {
    hide Tokens, ForwardFrom;
    TokensGoOn(h, w);
    TokensGoOn(h, ":" + w);
    LastWordIs(w);
    LastWordIs(":" + w);
    NotEmpty(h);
    assert h + " " + (":" + w) == h + " :" + w;
    ForwardFromColon(repos, h, w, Longer(Tokens(h), " " + w), Longer(Tokens(h), " :" + w), 0);
    assert " " + (":" + w) == " :" + w;
  }

  // ---- Lines, word by word ----

  /** These words, and then the rest of the line. */
  function Line(words: seq<string>, last: string): string {
    if words == [] then last else words[0] + " " + Line(words[1..], last)
  }

  function WordTokens(words: seq<string>, last: string): (toks: seq<Token>)
    ensures |toks| == |words| && forall i :: 0 <= i < |words| ==> toks[i].text == words[i]
  {
    if words == [] then [] else [Token(words[0], Line(words, last))] + WordTokens(words[1..], last)
  }

  predicate AllWords(words: seq<string>) {
    forall i :: 0 <= i < |words| ==> Word(words[i])
  }

  lemma {:induction false} LineTokens(words: seq<string>, last: string)
    requires AllWords(words)
    ensures Tokens(Line(words, last)) == WordTokens(words, last) + Tokens(last)
  {
    hide Tokens;
    if words != [] {
      assert Word(words[0]);
      LineTokens(words[1..], last);
      TokensOfFirst(words[0], Line(words[1..], last));
      Assoc([Token(words[0], Line(words, last))], WordTokens(words[1..], last), Tokens(last));
    }
  }

  lemma NamesAreWords(repos: Repos, room: string, nick: string)
    ensures ChannelNameValid(room) ==> Word(room) && room[0] != ':'
    ensures NicknameValid(repos, nick, false) ==> Word(nick)
  {
    hide NickCharsOk;
    if ChannelNameValid(room) {
      ChannelIsClean(room);
    }
    if NicknameValid(repos, nick, false) {
      NicknameIsClean(repos, nick, true, false);
    }
  }

  lemma LineOfFive(a: string, b: string, c: string, d: string, e: string, last: string)
    ensures Line([a, b, c, d, e], last) == a + " " + b + " " + c + " " + d + " " + e + " " + last
  {
    var words := [a, b, c, d, e];
    assert words[4..][1..] == [] && words[3..][1..] == words[4..] && words[2..][1..] == words[3..];
    assert words[1..][1..] == words[2..];
    assert Line(words[4..], last) == e + " " + last;
    assert Line(words[3..], last) == d + " " + (e + " " + last);
    assert Line(words[2..], last) == c + " " + (d + " " + (e + " " + last));
    assert Line(words[1..], last) == b + " " + (c + " " + (d + " " + (e + " " + last)));
  }

  // ---- A number that is not set ----

  lemma UnsetNumber(repos: Repos)
    ensures Interpret(repos, "d", [Token(":", ":")]) == Some([Number(None)])
  {
    hide ScanInt;
    UnsetExactly("");
    StepOf(repos, "d", [Token(":", ":")]);
    assert "d"[1..] == "" && [Token(":", ":")][1..] == [] && ":"[1..] == "" && StripColon(":") == "";
    assert ParseAtom(repos, 'd', ":") == Some([Number(None)]);
    NoFormat(repos);
    assert [Number(None)] + [] == [Number(None)];
  }

  lemma NoFormat(repos: Repos)
    ensures Interpret(repos, "", []) == Some([])
  {
  }

  /** A received line by which the handlers of a topic's time get a number that was never
      set. */
  lemma UnsetStampArrives(repos: Repos, room: string, nick: string)
    requires ChannelNameValid(room) && NicknameValid(repos, nick, false)
    ensures Parse(repos, ":s 333 me " + room + " " + nick + " :")
      == Delivered([Delivery(NumTopicStamp,
           [Handle(Room, repos.strdown(room)), Handle(Contact, repos.strdown(nick)), Number(None)])])
  {
    hide Tokens, Interpret, ForwardFrom, Sayable, AllSaid, Atoms, Meanings, Forward, WordTokens, ChannelNameValid,
         NicknameValid;
    var words, ps := [":s", "333", "me", room, nick], [Any(":s"), Any("333"), Any("me"), Channel(room), User(nick, "")];
    var msg := ":s 333 me " + room + " " + nick + " :";
    NamesAreWords(repos, room, nick);
    StampTokens(room, nick);
    var toks, last := WordTokens(words, ":"), [Token(":", ":")];
    OnlyItsEntry(repos, msg, toks + last, "333", 32);
    StampParams(repos, room, nick, toks);
    ParamsAreParsed(repos, ps, toks, "d", last);
    UnsetNumber(repos);
    var r, c, d := Handle(Room, repos.strdown(room)), Handle(Contact, repos.strdown(nick)), Number(None);
    assert [r, c] + [d] == [r, c, d];
    StampEntry(repos, msg, toks + last);
  }

  lemma StampEntry(repos: Repos, msg: string, toks: seq<Token>)
    requires |toks| > 1 && toks[1].text == "333"
    ensures Forward(repos, msg, toks, 32) ==
      var args := Interpret(repos, MessageSpec(32).format, toks);
      if args.None? then [] else [Delivery(NumTopicStamp, args.value)]
  {
    hide Interpret;
    CaseEqBytes("333", "333");
  }

  lemma StampTokens(room: string, nick: string)
    requires Word(room) && Word(nick)
    ensures Tokens(":s 333 me " + room + " " + nick + " :")
         == WordTokens([":s", "333", "me", room, nick], ":") + [Token(":", ":")]
  {
    hide Tokens, Line;
    var words := [":s", "333", "me", room, nick];
    StampLine(room, nick);
    assert forall i :: 0 <= i < |words| ==> Word(words[i]);
    LineTokens(words, ":");
    LastWordIs(":");
  }

  lemma StampLine(room: string, nick: string)
    ensures Line([":s", "333", "me", room, nick], ":") == ":s 333 me " + room + " " + nick + " :"
  {
    LineOfFive(":s", "333", "me", room, nick, ":");
  }

  lemma StampParams(repos: Repos, room: string, nick: string, toks: seq<Token>)
    requires ChannelNameValid(room) && NicknameValid(repos, nick, false)
    requires |toks| == 5 && toks[0].text == ":s" && toks[1].text == "333" && toks[2].text == "me"
    requires toks[3].text == room && toks[4].text == nick
    ensures var ps := [Any(":s"), Any("333"), Any("me"), Channel(room), User(nick, "")];
      && AllSaid(repos, ps, toks) && Atoms(ps) + "d" == MessageSpec(32).format
      && MessageSpec(32).code == NumTopicStamp
      && Meanings(repos, ps) == [Handle(Room, repos.strdown(room)), Handle(Contact, repos.strdown(nick))]
  {
    hide ChannelNameValid, NicknameValid;
    var ps := [Any(":s"), Any("333"), Any("me"), Channel(room), User(nick, "")];
    assert nick + "" == nick;
    FiveParams(repos, ps);
  }

  /** A list of parameters, the first one split off. */
  lemma FirstParam(repos: Repos, ps: seq<Param>, k: nat)
    requires k < |ps|
    ensures Atoms(ps[k..]) == [AtomOf(ps[k])] + Atoms(ps[k + 1..])
    ensures Meanings(repos, ps[k..]) == Meaning(repos, ps[k]) + Meanings(repos, ps[k + 1..])
  {
    hide AtomOf, Meaning;
    assert ps[k..][1..] == ps[k + 1..];
  }

  lemma FiveParams(repos: Repos, ps: seq<Param>)
    requires |ps| == 5
    ensures Atoms(ps) == [AtomOf(ps[0]), AtomOf(ps[1]), AtomOf(ps[2]), AtomOf(ps[3]), AtomOf(ps[4])]
    ensures Meanings(repos, ps) == Meaning(repos, ps[0]) + Meaning(repos, ps[1]) + Meaning(repos, ps[2])
                                   + Meaning(repos, ps[3]) + Meaning(repos, ps[4])
  {
    hide AtomOf, Meaning;
    FirstParam(repos, ps, 0);
    FirstParam(repos, ps, 1);
    FirstParam(repos, ps, 2);
    FirstParam(repos, ps, 3);
    FirstParam(repos, ps, 4);
    assert ps[0..] == ps && ps[5..] == [];
    assert Atoms([]) == "" && Meanings(repos, []) == [];
  }

  // ---- The server's ping ----

  /** No command of the table starts with a colon. */
  lemma NoColonCommand(i: nat, w: string)
    requires i < SPEC_COUNT
    ensures !CaseEq(":" + w, MessageSpec(i).str)
  {
    hide CaseEq;
    CaseEqFirst(":" + w, MessageSpec(i).str);
  }

  lemma OnlyPing(msg: string, toks: seq<Token>, w: string, i: nat)
    requires i < SPEC_COUNT && |toks| == 2 && toks[0].text == "PING" && toks[1].text == ":" + w && CharAt(msg, 0) == 'P'
    ensures Matches(msg, toks, i) <==> i == 1
  {
    NoColonCommand(i, w);
  }

  /** The server's ping reaches its handler alone, with the word to be sent back. */
  lemma PingArrives(repos: Repos, w: string)
    requires Word(w) && w[0] != ':'
    ensures Parse(repos, "PING :" + w) == Delivered([Delivery(CmdPing, [Text(w)])])
  {
    hide Tokens, Interpret, Matches, ForwardFrom, Forward;
    var msg, ps := "PING :" + w, [Any("PING"), Str(w)];
    assert msg == "PING" + " " + (":" + w);
    TokensOfFirst("PING", ":" + w);
    LastWordIs(":" + w);
    var toks := Tokens(msg);
    forall i | 0 <= i < SPEC_COUNT ensures Matches(msg, toks, i) <==> i == 1 {
      OnlyPing(msg, toks, w, i);
    }
    SkipTo(repos, msg, toks, 0, 1);
    SkipTo(repos, msg, toks, 2, SPEC_COUNT);
    assert ps[1..] == [Str(w)] && [Str(w)][1..] == [];
    assert AllSaid(repos, ps, toks);
    MessageIsParsed(repos, ps, Plain, toks, []);
    assert toks + [] == toks;
    PingFormat(repos, w);
    PingEntry(repos, msg, toks, w);
  }

  lemma PingFormat(repos: Repos, w: string)
    ensures var ps := [Any("PING"), Str(w)];
      Atoms(ps) + EndFormat(Plain) == "Is" && Meanings(repos, ps) + EndMeaning(repos, Plain) == [Text(w)]
  {
    var ps := [Any("PING"), Str(w)];
    FirstParam(repos, ps, 0);
    FirstParam(repos, ps, 1);
    assert ps[0..] == ps && ps[2..] == [];
  }

  lemma PingEntry(repos: Repos, msg: string, toks: seq<Token>, w: string)
    requires toks != [] && Matches(msg, toks, 1) && Interpret(repos, "Is", toks) == Some([Text(w)])
    requires forall i :: 0 <= i < SPEC_COUNT ==> (Matches(msg, toks, i) <==> i == 1)
    ensures ForwardFrom(repos, msg, toks, 1)
         == [Delivery(CmdPing, [Text(w)])] + ForwardFrom(repos, msg, toks, 2)
    ensures ForwardFrom(repos, msg, toks, SPEC_COUNT) == []
  {
    hide Interpret, Matches;
  }

  // ---- A list of members ----

  /** Words with a space between them. */
  function Spaced(words: seq<string>): string {
    if words == [] then "" else if |words| == 1 then words[0] else words[0] + " " + Spaced(words[1..])
  }

  /** The tokens of such a list are its words. */
  lemma {:induction false} SpacedTokens(words: seq<string>)
    requires words != [] && AllWords(words)
    ensures var toks := Tokens(Spaced(words));
      |toks| == |words| && forall i :: 0 <= i < |words| ==> toks[i].text == words[i]
    decreases |words|
  {
    hide Tokens;
    assert Word(words[0]);
    if |words| == 1 {
      LastWordIs(words[0]);
    } else {
      assert forall i :: 1 <= i < |words| ==> words[1..][i - 1] == words[i];
      SpacedTokens(words[1..]);
      TokensOfFirst(words[0], Spaced(words[1..]));
    }
  }

  /** A colon in front of the list is one in front of its first word. */
  function ColonFirst(words: seq<string>): (r: seq<string>)
    requires words != []
    ensures |r| == |words| && r[0] == ":" + words[0] && forall i :: 1 <= i < |words| ==> r[i] == words[i]
  {
    [":" + words[0]] + words[1..]
  }

  lemma ColonSpaced(words: seq<string>)
    requires words != [] && AllWords(words)
    ensures Spaced(ColonFirst(words)) == ":" + Spaced(words) && AllWords(ColonFirst(words))
  {
    assert Word(words[0]);
    assert ColonFirst(words)[1..] == words[1..];
  }

  function AllWritten(ps: seq<Param>): (words: seq<string>)
    ensures |words| == |ps|
  {
    seq(|ps|, i requires 0 <= i < |ps| => Written(ps[i]))
  }

  /** A list of members of a room, as a server sends it. */
  function NamesLine(server: string, me: string, room: string, members: seq<Param>): string {
    Line([":" + server, "353", me, "=", room], ":" + Spaced(AllWritten(members)))
  }

  /** Members that servers name: nicknames, with a mode character or without one. */
  ghost predicate AreMembers(repos: Repos, members: seq<Param>) {
    && members != []
    && forall i :: 0 <= i < |members| ==>
         members[i].Member? && Sayable(repos, members[i]) && Word(Written(members[i]))
  }

  /** A list of members is delivered once: the room, and for each member the contact and the
      mode character, NUL where there is none. */
  lemma NamesArrive(repos: Repos, server: string, me: string, room: string, members: seq<Param>)
    requires Word(server) && Word(me) && ChannelNameValid(room) && AreMembers(repos, members)
    ensures Parse(repos, NamesLine(server, me, room, members))
      == Delivered([Delivery(NumNameReply, [Handle(Room, repos.strdown(room))] + Meanings(repos, members))])
  {
    hide Tokens, Interpret, ForwardFrom, Forward, Sayable, Written, AtomOf, Line, Spaced, ChannelNameValid, Meaning;
    var msg, words := NamesLine(server, me, room, members), [":" + server, "353", me, "=", room];
    var last := ":" + Spaced(AllWritten(members));
    NamesAreWords(repos, room, "");
    assert forall i :: 0 <= i < |words| ==> Word(words[i]);
    forall i | 0 <= i < |members| ensures Word(AllWritten(members)[i]) {
      assert Word(Written(members[i]));
    }
    LineTokens(words, last);
    ColonSpaced(AllWritten(members));
    SpacedTokens(ColonFirst(AllWritten(members)));
    var toks, rest := WordTokens(words, last), Tokens(last);
    NamesStart(words, last);
    OnlyItsEntry(repos, msg, toks + rest, "353", 25);
    MembersAreSaid(repos, members, rest);
    NamesParams(repos, words, toks, members);
    TokensAreReal(last);
    var ps := [Any(words[0]), Any("353"), Any(me), Any("="), Channel(room)];
    MessageIsParsed(repos, ps, Repeat(members), toks, rest);
    NamesEntry(repos, msg, toks + rest);
  }

  lemma NamesStart(words: seq<string>, last: string)
    requires words != [] && words[0] != "" && words[0][0] == ':'
    ensures CharAt(Line(words, last), 0) == ':'
  {
  }

  lemma MembersAreSaid(repos: Repos, members: seq<Param>, toks: seq<Token>)
    requires AreMembers(repos, members) && |toks| == |members| && toks[0].text == ":" + AllWritten(members)[0]
    requires forall i :: 1 <= i < |members| ==> toks[i].text == AllWritten(members)[i]
    ensures EndsWith(repos, Repeat(members), toks)
  {
    hide Written, Sayable;
    forall i | 0 <= i < |members| ensures AtomOf(members[i]) == 'C' {
      assert members[i].Member?;
    }
  }

  lemma NamesParams(repos: Repos, words: seq<string>, toks: seq<Token>, members: seq<Param>)
    requires |words| == 5 == |toks| && words[1] == "353" && words[3] == "=" && ChannelNameValid(words[4])
    requires forall i :: 0 <= i < 5 ==> toks[i].text == words[i]
    requires AreMembers(repos, members)
    ensures var ps := [Any(words[0]), Any("353"), Any(words[2]), Any("="), Channel(words[4])];
      && AllSaid(repos, ps, toks) && Atoms(ps) + EndFormat(Repeat(members)) == MessageSpec(25).format
      && Meanings(repos, ps) == [Handle(Room, repos.strdown(words[4]))]
  {
    hide ChannelNameValid, Sayable, Says, Atoms, Meanings, AreMembers, Written;
    var ps := [Any(words[0]), Any("353"), Any(words[2]), Any("="), Channel(words[4])];
    FiveParams(repos, ps);
    MembersFormat(repos, members);
    forall i | 0 <= i < 5 ensures Sayable(repos, ps[i]) && Says(ps[i], toks[i].text) {
      AnyIsSayable(repos, ps[i]);
      WordIsSaid(ps[i], words[i]);
    }
  }

  lemma MembersFormat(repos: Repos, members: seq<Param>)
    requires AreMembers(repos, members)
    ensures EndFormat(Repeat(members)) == "vC"
  {
    hide Sayable, Written;
    assert members[0].Member?;
  }

  lemma WordIsSaid(p: Param, word: string)
    ensures p == Any(word) || p == Channel(word) ==> Says(p, word)
  {
  }

  lemma AnyIsSayable(repos: Repos, p: Param)
    ensures p.Any? || (p.Channel? && ChannelNameValid(p.name)) ==> Sayable(repos, p)
  {
  }

  lemma NamesEntry(repos: Repos, msg: string, toks: seq<Token>)
    requires |toks| > 1 && toks[1].text == "353"
    ensures Forward(repos, msg, toks, 25) ==
      var args := Interpret(repos, MessageSpec(25).format, toks);
      if args.None? then [] else [Delivery(NumNameReply, args.value)]
  {
    hide Interpret;
    CaseEqBytes("353", "353");
  }

  /** The pairs that the handler reads from its arguments: whether a member is we, and the mode
      character (`idle_muc_channel_namereply`). */
  function NamesOf(values: seq<Value>, us: string): seq<Modes.Name> {
    if |values| < 2 then []
    else
      [Modes.Name(values[0] == Handle(Contact, us), if values[1].ModeChar? then values[1].c else '\0')]
      + NamesOf(values[2..], us)
  }

  lemma {:induction false} NamesOfMembers(repos: Repos, members: seq<Param>, us: string)
    requires forall i :: 0 <= i < |members| ==> members[i].Member?
    ensures var names := NamesOf(Meanings(repos, members), us);
      && |names| == |members|
      && forall i :: 0 <= i < |members| ==>
           && names[i].ours == (repos.strdown(members[i].nick) == us)
           && names[i].modechar == (if members[i].mode.Some? then members[i].mode.value else '\0')
  {
    if members != [] {
      NamesOfMembers(repos, members[1..], us);
      var m := Meaning(repos, members[0]);
      assert (m + Meanings(repos, members[1..]))[2..] == Meanings(repos, members[1..]);
    }
  }

  /** So a list of members tells our own status: its last entry for us makes us operator, gives
      us voice, or leaves us with neither. */
  lemma NamesTellStatus(repos: Repos, members: seq<Param>, us: string, r: Modes.Room, k: nat)
    requires AreMembers(repos, members) && k < |members| && repos.strdown(members[k].nick) == us
    requires forall i :: k < i < |members| ==> repos.strdown(members[i].nick) != us
    ensures Modes.ReadNames(r, NamesOf(Meanings(repos, members), us)).flags * Modes.STATUS ==
      match members[k].mode {
        case Some('@') => {Modes.Operator}
        case Some('&') => {Modes.Operator}
        case Some('+') => {Modes.Voice}
        case _ => {}
      }
  {
    hide Sayable, Written;
    NamesOfMembers(repos, members, us);
    ModeActions.LastNameDecides(r, NamesOf(Meanings(repos, members), us), k);
  }

  // ---- A change of modes ----

  function ModeLine(who: string, room: string, args: seq<string>): string {
    Line([":" + who, "MODE", room], Spaced(args))
  }

  function AllTexts(args: seq<string>): (values: seq<Value>)
    ensures |values| == |args|
  {
    seq(|args|, i requires 0 <= i < |args| => Text(args[i]))
  }

  /** Words that do not start with a colon. */
  predicate PlainWords(words: seq<string>) {
    forall i :: 0 <= i < |words| ==> Word(words[i]) && words[i][0] != ':'
  }

  function AllStrs(args: seq<string>): (ps: seq<Param>)
    ensures |ps| == |args|
  {
    seq(|args|, i requires 0 <= i < |args| => Str(args[i]))
  }

  lemma {:induction false} StrsMean(repos: Repos, args: seq<string>)
    ensures Meanings(repos, AllStrs(args)) == AllTexts(args)
  {
    if args != [] {
      StrsMean(repos, args[1..]);
      assert AllStrs(args)[1..] == AllStrs(args[1..]);
      assert AllTexts(args) == [Text(args[0])] + AllTexts(args[1..]);
    }
  }

  /** A change of the modes of a channel is delivered once: the room, and then the mode string
      and its parameters. */
  lemma ModeArrives(repos: Repos, who: string, room: string, args: seq<string>)
    requires Word(who) && ChannelNameValid(room) && args != [] && PlainWords(args)
    ensures Parse(repos, ModeLine(who, room, args))
      == Delivered([Delivery(ModeChannel, [Handle(Room, repos.strdown(room))] + AllTexts(args))])
  {
    hide Tokens, Interpret, ForwardFrom, Forward, Matches, Line, Spaced, ChannelNameValid;
    var msg, words := ModeLine(who, room, args), [":" + who, "MODE", room];
    var ps, strs := [Any(words[0]), Any("MODE"), Channel(room)], AllStrs(args);
    NamesAreWords(repos, room, "");
    assert forall i :: 0 <= i < |words| ==> Word(words[i]);
    assert forall i :: 0 <= i < |args| ==> Word(args[i]);
    LineTokens(words, Spaced(args));
    SpacedTokens(args);
    var toks, rest := WordTokens(words, Spaced(args)), Tokens(Spaced(args));
    assert Tokens(msg) == toks + rest;
    NamesStart(words, Spaced(args));
    ModeParams(repos, words, toks, args, rest);
    TokensAreReal(Spaced(args));
    MessageIsParsed(repos, ps, Repeat(strs), toks, rest);
    StrsMean(repos, args);
    NoModeOfUs(repos, room, toks + rest);
    forall i | 0 <= i < SPEC_COUNT ensures Matches(msg, toks + rest, i) <==> i == 5 || i == 6 {
      MatchesOnly(msg, toks + rest, i);
    }
    SkipTo(repos, msg, toks + rest, 0, 5);
    SkipTo(repos, msg, toks + rest, 7, SPEC_COUNT);
    ModeEntries(repos, msg, toks + rest, [Handle(Room, repos.strdown(room))] + AllTexts(args));
  }

  lemma ModeParams(repos: Repos, words: seq<string>, toks: seq<Token>, args: seq<string>, rest: seq<Token>)
    requires |words| == 3 == |toks| && words[1] == "MODE" && ChannelNameValid(words[2])
    requires forall i :: 0 <= i < 3 ==> toks[i].text == words[i]
    requires args != [] && PlainWords(args) && |rest| == |args|
    requires forall i :: 0 <= i < |args| ==> rest[i].text == args[i]
    ensures var ps := [Any(words[0]), Any("MODE"), Channel(words[2])];
      && AllSaid(repos, ps, toks) && EndsWith(repos, Repeat(AllStrs(args)), rest)
      && Atoms(ps) + EndFormat(Repeat(AllStrs(args))) == "IIrvs"
      && Meanings(repos, ps) == [Handle(Room, repos.strdown(words[2]))]
  {
    hide ChannelNameValid;
    var ps := [Any(words[0]), Any("MODE"), Channel(words[2])];
    FirstParam(repos, ps, 0);
    FirstParam(repos, ps, 1);
    FirstParam(repos, ps, 2);
    assert ps[0..] == ps && ps[3..] == [];
    assert Atoms([]) == "" && Meanings(repos, []) == [];
    assert AllStrs(args)[0] == Str(args[0]);
  }

  /** The entry for our own modes does not take a room. */
  lemma NoModeOfUs(repos: Repos, room: string, toks: seq<Token>)
    requires ChannelNameValid(room) && |toks| >= 3 && toks[2].text == room
    ensures Interpret(repos, "IIcvs", toks) == None
  {
    hide ChannelNameValid, NicknameValid, Interpret;
    RoomIsNoContact(repos, room);
    ChannelIsClean(room);
    var f := "IIcvs";
    StepOf(repos, f, toks);
    StepOf(repos, f[1..], toks[1..]);
    StepOf(repos, f[2..], toks[2..]);
    assert f[1..] == "Icvs" && f[1..][1..] == "cvs" && f[2..] == "cvs" && toks[1..][1..] == toks[2..];
  }

  lemma ModeEntries(repos: Repos, msg: string, toks: seq<Token>, values: seq<Value>)
    requires toks != [] && Interpret(repos, "IIrvs", toks) == Some(values) && Interpret(repos, "IIcvs", toks) == None
    requires Matches(msg, toks, 5) && Matches(msg, toks, 6)
    ensures ForwardFrom(repos, msg, toks, 5) == [Delivery(ModeChannel, values)] + ForwardFrom(repos, msg, toks, 7)
    ensures ForwardFrom(repos, msg, toks, SPEC_COUNT) == []
  {
    hide Interpret, Matches, Forward;
    ModeForwards(repos, msg, toks, values);
    assert ForwardFrom(repos, msg, toks, 6) == Forward(repos, msg, toks, 6) + ForwardFrom(repos, msg, toks, 7);
  }

  lemma ModeForwards(repos: Repos, msg: string, toks: seq<Token>, values: seq<Value>)
    requires toks != [] && Interpret(repos, "IIrvs", toks) == Some(values) && Interpret(repos, "IIcvs", toks) == None
    requires Matches(msg, toks, 5) && Matches(msg, toks, 6)
    ensures Forward(repos, msg, toks, 5) == [Delivery(ModeChannel, values)] && Forward(repos, msg, toks, 6) == []
  {
    hide Interpret, Matches;
  }

  /** The strings that the handler reads from its arguments (`idle_muc_channel_mode`). */
  function StringsOf(values: seq<Value>): seq<string> {
    seq(|values|, i requires 0 <= i < |values| => if values[i].Text? then values[i].s else "")
  }

  /** So a received line that says a list of changes of modes is done as it says. */
  lemma ModeLineIsDone(repos: Repos, who: string, room: string, said: seq<ModeActions.Said>, r: Modes.Room,
                       self: string -> bool)
    requires Word(who) && ChannelNameValid(room) && said != []
    requires PlainWords(ModeActions.Params(said))
    requires forall i :: 0 <= i < |said| ==> ModeActions.CanBeSaid(said[i].action)
    ensures var args := [ModeActions.Letters(said, '\0')] + ModeActions.Params(said);
      exists values ::
        && Parse(repos, ModeLine(who, room, args)) == Delivered([Delivery(ModeChannel, values)]) && values != []
        && ModeActions.ViewOf(Modes.CoreOf(Modes.ReadModes(r, StringsOf(values[1..]), self)))
           == ModeActions.AllDone(ModeActions.ViewOf(Modes.CoreOf(r)), said, self)
  {
    hide ChannelNameValid, Modes.ReadModes, ModeActions.AllDone, Parse, ModeLine, ModeActions.Params;
    var modes := ModeActions.Letters(said, '\0');
    var args := [modes] + ModeActions.Params(said);
    ModeActions.LettersAreAWord(said, '\0');
    ModeActions.FirstIsSign(said);
    ModeArrives(repos, who, room, args);
    ModeActions.ActionsAreDone(r, said, self);
    var values := [Handle(Room, repos.strdown(room))] + AllTexts(args);
    assert values[1..] == AllTexts(args) && StringsOf(AllTexts(args)) == args;
  }
}
