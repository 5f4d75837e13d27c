/** Received messages, written down parameter by parameter, are parsed into what they say
    (`idle-parser.c`). */
module Printing {
  import opened Irc
  import opened Seqs
  import opened Wrappers
  import opened Handles
  import opened Parser

  // ---- One parameter ----

  /** What a server writes where a format has an atom.  A nickname may come with its user and
      host, and in a list of members with a mode character. */
  datatype Param =
    | Any(word: string)
    | Channel(name: string)
    | User(nick: string, address: string)
    | Member(mode: Option<char>, nick: string, address: string)
    | Num(n: nat)
    | Str(word: string)

  function AtomOf(p: Param): char {
    match p
    case Any(_) => 'I'
    case Channel(_) => 'r'
    case User(_, _) => 'c'
    case Member(_, _, _) => 'C'
    case Num(_) => 'd'
    case Str(_) => 's'
  }

  function Written(p: Param): string {
    match p
    case Any(word) => word
    case Channel(name) => name
    case User(nick, address) => nick + address
    case Member(mode, nick, address) => (if mode.Some? then [mode.value] else "") + nick + address
    case Num(n) => Decimal(n)
    case Str(word) => word
  }

  /** What the handlers are to be given for it. */
  function Meaning(repos: Repos, p: Param): seq<Value> {
    match p
    case Any(_) => []
    case Channel(name) => [Handle(Room, repos.strdown(name))]
    case User(nick, _) => [Handle(Contact, repos.strdown(nick))]
    case Member(mode, nick, _) =>
      [Handle(Contact, repos.strdown(nick)), ModeChar(if mode.Some? then mode.value else '\0')]
    case Num(n) => [Number(Some(n))]
    case Str(word) => [Text(word)]
  }

  predicate IsAddress(address: string) {
    address == "" || address[0] == '!'
  }

  /** Names that the repositories accept, and numbers of 32 bits. */
  predicate Sayable(repos: Repos, p: Param) {
    match p
    case Channel(name) => ChannelNameValid(name)
    case User(nick, address) => NicknameValid(repos, nick, false) && IsAddress(address)
    case Member(mode, nick, address) =>
      NicknameValid(repos, nick, false) && IsAddress(address) && (mode.Some? ==> IsModeChar(mode.value))
    case Num(n) => n < 0x1_0000_0000
    case Str(word) => word == "" || word[0] != ':'
    case Any(_) => true
  }

  /** The word of a parameter, perhaps behind a colon. */
  predicate Says(p: Param, word: string) {
    word == Written(p) || word == ":" + Written(p)
  }

  lemma NickAddress(repos: Repos, nick: string, address: string)
    requires NicknameValid(repos, nick, false) && IsAddress(address)
    ensures NickPart(nick + address) == nick && nick + address != ""
    ensures !IsModeChar((nick + address)[0]) && (nick + address)[0] != ':'
  {
    hide NickCharsOk, NickCharOk;
    NicknameIsClean(repos, nick, true, false);
    FirstIsNoMode(repos, nick);
    IndexOfIs(nick + address, '!', |nick|);
    assert (nick + address)[..|nick|] == nick;
  }

  lemma FirstIsNoMode(repos: Repos, nick: string)
    requires NicknameValid(repos, nick, false)
    ensures nick != "" && !IsModeChar(nick[0])
  {
  }

  lemma ColonIsStripped(word: string)
    requires word == "" || word[0] != ':'
    ensures StripColon(word) == word && StripColon(":" + word) == word
  {
    assert (":" + word)[1..] == word;
  }

  /** A parameter is parsed to what it means, with or without a colon in front. */
  lemma ParamIsParsed(repos: Repos, p: Param, word: string)
    requires Sayable(repos, p) && Says(p, word)
    ensures ParseAtom(repos, AtomOf(p), word) == Some(Meaning(repos, p))
  {
    hide NicknameValid, ChannelNameValid, ScanInt, Decimal, NickPart, IsModeChar;
    match p
    case Any(_) =>
    case Channel(name) =>
      ChannelIsClean(name);
      ColonIsStripped(name);
    case User(nick, address) =>
      NickAddress(repos, nick, address);
      ColonIsStripped(nick + address);
    case Member(mode, nick, address) => MemberIsParsed(repos, p, word);
    case Num(n) =>
      ScanDecimal(n);
      DecimalIsDigits(n);
      assert IsDigit(Decimal(n)[0]);
      ColonIsStripped(Decimal(n));
    case Str(w) => ColonIsStripped(w);
  }

  lemma MemberIsParsed(repos: Repos, p: Param, word: string)
    requires p.Member? && Sayable(repos, p) && Says(p, word)
    ensures ParseAtom(repos, 'C', word) == Some(Meaning(repos, p))
  {
    hide NicknameValid, NickPart;
    NickAddress(repos, p.nick, p.address);
    var w := Written(p);
    if p.mode.Some? {
      assert w == [p.mode.value] + (p.nick + p.address);
      assert w[1..] == p.nick + p.address;
    } else {
      assert w == p.nick + p.address;
    }
    ColonIsStripped(w);
  }

  // ---- Lists of parameters ----

  function Atoms(ps: seq<Param>): string {
    if ps == [] then "" else [AtomOf(ps[0])] + Atoms(ps[1..])
  }

  function Meanings(repos: Repos, ps: seq<Param>): seq<Value> {
    if ps == [] then [] else Meaning(repos, ps[0]) + Meanings(repos, ps[1..])
  }

  ghost predicate AllSaid(repos: Repos, ps: seq<Param>, toks: seq<Token>) {
    |ps| == |toks| && forall i :: 0 <= i < |ps| ==> Sayable(repos, ps[i]) && Says(ps[i], toks[i].text)
  }

  /** The parameters one after the other, and then what the rest of the format makes of the
      rest of the words. */
  lemma {:induction false} ParamsAreParsed(repos: Repos, ps: seq<Param>, toks: seq<Token>,
                                           format: string, rest: seq<Token>)
    requires AllSaid(repos, ps, toks) && GoodFormat(format)
    ensures Interpret(repos, Atoms(ps) + format, toks + rest)
         == Prepend(Meanings(repos, ps), Interpret(repos, format, rest))
  {
    hide ParseAtom, Sayable, Says, AtomOf, Meaning, Prepend, GoodFormat, Interpret;
    var later := Interpret(repos, format, rest);
    if ps == [] {
      assert Atoms(ps) + format == format && toks + rest == rest;
      PrependNothing(later);
    } else {
      assert Sayable(repos, ps[0]) && Says(ps[0], toks[0].text);
      ParamIsParsed(repos, ps[0], toks[0].text);
      ParamsAreParsed(repos, ps[1..], toks[1..], format, rest);
      AtomIsAtom(ps[0]);
      FirstOfBoth(repos, ps, toks, format, rest);
      PrependMore(Meaning(repos, ps[0]), Meanings(repos, ps[1..]), later);
    }
  }

  lemma FirstOfBoth(repos: Repos, ps: seq<Param>, toks: seq<Token>, format: string, rest: seq<Token>)
    requires ps != [] && toks != [] && IsAtom(AtomOf(ps[0]))
    ensures Interpret(repos, Atoms(ps) + format, toks + rest) ==
      var v := ParseAtom(repos, AtomOf(ps[0]), toks[0].text);
      if v.None? then None else Prepend(v.value, Interpret(repos, Atoms(ps[1..]) + format, toks[1..] + rest))
  {
    hide ParseAtom, AtomOf, Prepend, Interpret;
    assert (Atoms(ps) + format)[1..] == Atoms(ps[1..]) + format;
    assert (toks + rest)[0] == toks[0] && (toks + rest)[1..] == toks[1..] + rest;
    StepOf(repos, Atoms(ps) + format, toks + rest);
  }

  lemma AtomIsAtom(p: Param)
    ensures IsAtom(AtomOf(p))
  {
  }

  lemma PrependNothing(later: Option<seq<Value>>)
    ensures Prepend([], later) == later
  {
    if later.Some? {
      assert [] + later.value == later.value;
    }
  }

  lemma PrependMore(a: seq<Value>, b: seq<Value>, later: Option<seq<Value>>)
    ensures Prepend(a, Prepend(b, later)) == Prepend(a + b, later)
  {
    if later.Some? {
      Assoc(a, b, later.value);
    }
  }

  /** The repeat takes all the parameters that are left. */
  lemma {:induction false} RepeatIsParsed(repos: Repos, atom: char, ps: seq<Param>, toks: seq<Token>)
    requires AllSaid(repos, ps, toks) && forall i :: 0 <= i < |ps| ==> AtomOf(ps[i]) == atom
    ensures RepeatAtom(repos, atom, toks) == Some(Meanings(repos, ps))
  {
    hide ParseAtom, Sayable, Says, AtomOf, Meaning;
    if ps != [] {
      assert Sayable(repos, ps[0]) && Says(ps[0], toks[0].text) && AtomOf(ps[0]) == atom;
      ParamIsParsed(repos, ps[0], toks[0].text);
      RepeatIsParsed(repos, atom, ps[1..], toks[1..]);
    }
  }

  // ---- The end of a message ----

  /** How a message ends: with its last parameter, with one or more of a kind, or with a text
      that may hold spaces when it stands behind a colon. */
  datatype Ending = Plain | Repeat(ps: seq<Param>) | Trailer(text: string, optional: bool) | Missing

  /** The format of the end, and what it means. */
  function EndFormat(end: Ending): string {
    match end
    case Plain => ""
    case Repeat(ps) => if ps == [] then "v" else "v" + [AtomOf(ps[0])]
    case Trailer(_, optional) => if optional then "." else ":"
    case Missing => "."
  }

  function EndMeaning(repos: Repos, end: Ending): seq<Value> {
    match end
    case Repeat(ps) => Meanings(repos, ps)
    case Trailer(text, _) => [Text(text)]
    case _ => []
  }

  /** The words that are left say this end. */
  ghost predicate EndsWith(repos: Repos, end: Ending, rest: seq<Token>) {
    match end
    case Plain => true
    case Repeat(ps) =>
      ps != [] && AllSaid(repos, ps, rest) && forall i :: 0 <= i < |ps| ==> AtomOf(ps[i]) == AtomOf(ps[0])
    case Trailer(text, _) =>
      rest != [] && text != "" &&
      (rest[0].rest == ":" + text || (|rest| == 1 && rest[0].rest == text && text[0] != ':'))
    case Missing => rest == []
  }

  /**
   * For any format, made of atoms and any of the ends, and any words that say its parameters:
   * the handlers are given what the words mean, and nothing else.
   */
  lemma MessageIsParsed(repos: Repos, ps: seq<Param>, end: Ending, toks: seq<Token>, rest: seq<Token>)
    requires AllSaid(repos, ps, toks) && RealTokens(rest) && EndsWith(repos, end, rest)
    ensures Interpret(repos, Atoms(ps) + EndFormat(end), toks + rest)
         == Some(Meanings(repos, ps) + EndMeaning(repos, end))
  {
    hide ParseAtom, Sayable, Says, AtomOf, Meaning, Meanings, Atoms, AllSaid;
    EndIsParsed(repos, end, rest);
    ParamsAreParsed(repos, ps, toks, EndFormat(end), rest);
  }

  lemma EndIsParsed(repos: Repos, end: Ending, rest: seq<Token>)
    requires RealTokens(rest) && EndsWith(repos, end, rest)
    ensures GoodFormat(EndFormat(end)) && Interpret(repos, EndFormat(end), rest) == Some(EndMeaning(repos, end))
  {
    hide ParseAtom, Sayable, Says, AtomOf, Meaning, Meanings, AllSaid, RepeatAtom;
    match end
    case Repeat(ps) =>
      AtomIsAtom(ps[0]);
      RepeatIsParsed(repos, AtomOf(ps[0]), ps, rest);
      SaidIsSomething(repos, ps, rest);
      assert ("v" + [AtomOf(ps[0])])[1..] == [AtomOf(ps[0])];
    case Trailer(text, _) => assert (":" + text)[1..] == text;
    case _ =>
  }

  lemma SaidIsSomething(repos: Repos, ps: seq<Param>, toks: seq<Token>)
    requires AllSaid(repos, ps, toks) && ps != []
    ensures toks != []
  {
  }
}
