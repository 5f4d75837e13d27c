/** Tokens of a message and the format language that reads them (`idle-parser.c`). */
module Parser {
  import opened Irc
  import opened Seqs
  import opened Wrappers
  import opened Handles

  // ---- Tokens ----

  /** A token, with the message from its first byte on: the pair of pointers that
      `_tokenize` records. */
  datatype Token = Token(text: string, rest: string)

  function Tokens(msg: string): seq<Token>
    decreases |msg|
  {
    if msg == [] then []
    else
      var space := IndexOf(msg, ' ');
      if space == |msg| then [Token(msg, msg)]
      else (if space > 0 then [Token(msg[..space], msg)] else []) + Tokens(msg[space + 1..])
  }

  /** The word before the next space, if it is not empty. */
  function FirstWord(msg: string): seq<Token> {
    var space := IndexOf(msg, ' ');
    if space > 0 then [Token(msg[..space], msg)] else []
  }

  function AfterFirst(msg: string): (rest: string)
    ensures |rest| <= |msg| && (msg != "" ==> |rest| < |msg|)
  {
    var space := IndexOf(msg, ' ');
    if space == |msg| then [] else msg[space + 1..]
  }

  lemma TokensStep(msg: string)
    ensures Tokens(msg) == FirstWord(msg) + Tokens(AfterFirst(msg))
  {
    var space := IndexOf(msg, ' ');
    assert msg[..|msg|] == msg;
    assert Tokens([]) == [];
  }

  /** `_tokenize`. */
  method Tokenize(str: string) returns (tokens: seq<Token>)
    ensures tokens == Tokens(str)
  {
    hide Tokens, IndexOf;
    tokens := [];
    var last := 0;
    assert str[0..] == str;
    while last < |str|
      invariant 0 <= last <= |str|
      invariant tokens + Tokens(str[last..]) == Tokens(str)
    {
      var rest := str[last..];
      TokensStep(rest);
      Assoc(tokens, FirstWord(rest), Tokens(AfterFirst(rest)));
      var space := IndexOf(rest, ' ');
      if space == |rest| {
        assert rest[..space] == rest;
        tokens := tokens + [Token(rest, rest)];
        last := |str|;
      } else {
        if space > 0 {
          tokens := tokens + [Token(rest[..space], rest)];
        }
        DropDrop(str, last, space + 1);
        last := last + space + 1;
      }
      assert str[last..] == AfterFirst(rest);
    }
    assert str[last..] == [];
    NoTokens();
  }

  lemma NoTokens()
    ensures Tokens([]) == []
  {
  }

  predicate Word(w: string) {
    w != "" && ' ' !in w
  }

  /** `t` is a maximal word of `msg`, together with what follows it there. */
  ghost predicate TokenOf(msg: string, t: Token) {
    && Word(t.text) && t.text <= t.rest
    && (t.text == t.rest || t.rest[|t.text|] == ' ')
    && exists k :: 0 <= k <= |msg| && t.rest == msg[k..]
  }

  lemma {:induction false} TokensAreWords(msg: string)
    ensures forall t :: t in Tokens(msg) ==> TokenOf(msg, t)
    decreases |msg|
  {
    if msg != [] {
      var space := IndexOf(msg, ' ');
      assert msg[0..] == msg;
      if space < |msg| {
        TokensAreWords(msg[space + 1..]);
        forall t | t in Tokens(msg[space + 1..]) ensures exists k :: 0 <= k <= |msg| && t.rest == msg[k..] {
          var k :| 0 <= k <= |msg[space + 1..]| && t.rest == msg[space + 1..][k..];
          DropDrop(msg, space + 1, k);
        }
      }
    }
  }

  /** The words of a message, joined, are the message without its spaces. */
  lemma {:induction false} TokensLoseOnlySpaces(msg: string)
    ensures Flatten(Texts(Tokens(msg))) == Without(msg, ' ')
    decreases |msg|
  {
    hide Tokens, IndexOf;
    if msg == [] {
      NoTokens();
    } else {
      TokensStep(msg);
      TokensLoseOnlySpaces(AfterFirst(msg));
      TextsOfFirst(FirstWord(msg), Tokens(AfterFirst(msg)));
      SpaceSplit(msg);
    }
  }

  lemma TextsOfFirst(a: seq<Token>, b: seq<Token>)
    ensures Flatten(Texts(a + b)) == Flatten(Texts(a)) + Flatten(Texts(b))
  {
    FlattenConcat(Texts(a), Texts(b));
    assert Texts(a + b) == Texts(a) + Texts(b);
  }

  lemma SpaceSplit(msg: string)
    ensures Without(msg, ' ') == Flatten(Texts(FirstWord(msg))) + Without(AfterFirst(msg), ' ')
  {
    hide Without, Flatten, IndexOf;
    var space := IndexOf(msg, ' ');
    WithoutAbsent(msg[..space], ' ');
    WithoutConcat(msg[..space], msg[space..], ' ');
    assert msg[..space] + msg[space..] == msg;
    FlattenFirstWord(msg);
    WithoutLeading(msg[space..]);
    if space < |msg| {
      assert msg[space..][1..] == AfterFirst(msg);
    } else {
      assert msg[space..] == AfterFirst(msg);
    }
  }

  lemma WithoutLeading(s: string)
    ensures s != "" && s[0] == ' ' ==> Without(s, ' ') == Without(s[1..], ' ')
  {
  }

  lemma FlattenFirstWord(msg: string)
    ensures Flatten(Texts(FirstWord(msg))) == msg[..IndexOf(msg, ' ')]
  {
    hide IndexOf;
    var space := IndexOf(msg, ' ');
    if space > 0 {
      assert Texts(FirstWord(msg)) == [msg[..space]];
      FlattenSnoc([], msg[..space]);
      assert [] + [msg[..space]] == [msg[..space]];
    } else {
      assert Texts(FirstWord(msg)) == [];
    }
  }

  function Texts(tokens: seq<Token>): seq<string> {
    seq(|tokens|, i requires 0 <= i < |tokens| => tokens[i].text)
  }

  /** The first word of a message, split off. */
  lemma TokensOfFirst(w: string, rest: string)
    requires Word(w)
    ensures Tokens(w + " " + rest) == [Token(w, w + " " + rest)] + Tokens(rest)
  {
    var msg := w + " " + rest;
    assert msg[..|w|] == w;
    IndexOfIs(msg, ' ', |w|);
    assert msg[|w| + 1..] == rest;
  }

  /** A message of one word. */
  lemma LastWordIs(w: string)
    requires Word(w)
    ensures Tokens(w) == [Token(w, w)]
  {
    assert w[..|w|] == w;
    IndexOfIs(w, ' ', |w|);
  }

  /** A message that starts with a byte other than a space has a first token there. */
  lemma TokensStart(msg: string)
    requires msg != "" && msg[0] != ' '
    ensures Tokens(msg) != [] && Tokens(msg)[0].rest == msg
    ensures Tokens(msg)[0].text != "" && Tokens(msg)[0].text[0] == msg[0]
  {
  }

  // ---- Values ----

  datatype HandleKind = Contact | Room

  /** What a handler finds in its argument array.  A number is `None` when `sscanf`
      met the end of the token and left the variable unset. */
  datatype Value =
    | Handle(kind: HandleKind, id: string)
    | ModeChar(c: char)
    | Number(n: Option<int>)
    | Text(s: string)

  function StripColon(token: string): string {
    if token != "" && token[0] == ':' then token[1..] else token
  }

  /** `tp_handle_ensure` on one of the two repositories. */
  function EnsureHandle(repos: Repos, kind: HandleKind, id: string): Option<Value> {
    if (if kind.Room? then ChannelNameValid(id) else NicknameValid(repos, id, false))
    then Some(Handle(kind, repos.strdown(id))) else None
  }

  predicate IsSpace(c: char) {
    c in " \t\n\U{0B}\U{0C}\r"
  }

  function SkipSpaces(s: string): string {
    if s != "" && IsSpace(s[0]) then SkipSpaces(s[1..]) else s
  }

  function DecimalRun(s: string): (n: nat)
    ensures n <= |s| && forall i :: 0 <= i < n ==> IsDigit(s[i])
  {
    if s == "" || !IsDigit(s[0]) then 0 else 1 + DecimalRun(s[1..])
  }

  function DecimalValue(digits: string): nat
    requires forall i :: 0 <= i < |digits| ==> IsDigit(digits[i])
  {
    if digits == "" then 0
    else
      var c := digits[|digits| - 1];
      assert IsDigit(c);
      10 * DecimalValue(digits[..|digits| - 1]) + (c as int - '0' as int)
  }

  /** `sscanf (token, "%d")` into a 32-bit unsigned variable. */
  function ScanInt(token: string): Option<Value> {
    ScanNumber(SkipSpaces(token))
  }

  function ScanNumber(s: string): Option<Value> {
    if s == "" then Some(Number(None))
    else
      var digits := if s[0] == '-' || s[0] == '+' then s[1..] else s;
      var n := DecimalRun(digits);
      if n == 0 then None else Some(Number(Some(Stored(s[0] == '-', DecimalValue(digits[..n])))))
  }

  /** The 32-bit value of a number with its sign: first kept within 64 bits, then cut. */
  function Stored(negative: bool, n: nat): nat {
    if negative then (if n > 0x8000_0000_0000_0000 then 0 else (0 - n) % 0x1_0000_0000)
    else if n > 0x7FFF_FFFF_FFFF_FFFF then 0xFFFF_FFFF else n % 0x1_0000_0000
  }

  lemma {:induction false} DecimalIsDigits(n: nat)
    ensures Decimal(n) != "" && forall i :: 0 <= i < |Decimal(n)| ==> IsDigit(Decimal(n)[i])
    ensures DecimalValue(Decimal(n)) == n
  {
    if n >= 10 {
      DecimalIsDigits(n / 10);
      assert Decimal(n)[..|Decimal(n)| - 1] == Decimal(n / 10);
    }
  }

  /** Where no further digit follows, the run ends. */
  lemma {:induction false} RunEnds(s: string, rest: string)
    requires (forall i :: 0 <= i < |s| ==> IsDigit(s[i])) && (rest == "" || !IsDigit(rest[0]))
    ensures DecimalRun(s + rest) == |s|
  {
    if s == "" {
      assert s + rest == rest;
    } else {
      RunEnds(s[1..], rest);
      assert (s + rest)[1..] == s[1..] + rest;
    }
  }

  lemma {:induction false} BlanksAreSkipped(blanks: string, rest: string)
    requires (forall i :: 0 <= i < |blanks| ==> blanks[i] in " \t\n\U{0B}\U{0C}\r")
    requires rest != "" && rest[0] !in " \t\n\U{0B}\U{0C}\r"
    ensures SkipSpaces(blanks + rest) == rest
  {
    if blanks == "" {
      assert blanks + rest == rest;
    } else {
      BlanksAreSkipped(blanks[1..], rest);
      assert (blanks + rest)[1..] == blanks[1..] + rest;
    }
  }

  /** A number is read behind blanks and a sign, up to the first byte that is no digit, and
      stored modulo 2^32 after it was kept within 64 bits. */
  lemma NumberIsScanned(blanks: string, sign: string, n: nat, rest: string)
    requires forall i :: 0 <= i < |blanks| ==> blanks[i] in " \t\n\U{0B}\U{0C}\r"
    requires sign == "" || sign == "+" || sign == "-"
    requires rest == "" || !IsDigit(rest[0])
    ensures ScanInt(blanks + (sign + (Decimal(n) + rest)))
         == Some(Number(Some(KeptModulo(if sign == "-" then 0 - n else n))))
  {
    hide Decimal, DecimalRun, DecimalValue, SkipSpaces, ScanNumber, Stored;
    SignIsRead(sign, n, rest);
    BlanksAreSkipped(blanks, sign + (Decimal(n) + rest));
    StoredIsKept(sign == "-", n);
  }

  lemma SignIsRead(sign: string, n: nat, rest: string)
    requires sign == "" || sign == "+" || sign == "-"
    requires rest == "" || !IsDigit(rest[0])
    ensures var s := sign + (Decimal(n) + rest);
      && s != "" && s[0] !in " \t\n\U{0B}\U{0C}\r"
      && ScanNumber(s) == Some(Number(Some(Stored(sign == "-", n))))
  {
    hide Decimal, DecimalRun, DecimalValue, Stored;
    var digits := Decimal(n);
    DecimalIsDigits(n);
    RunEnds(digits, rest);
    assert IsDigit(digits[0]) && (digits + rest)[..|digits|] == digits;
    if sign == "" {
      assert sign + (digits + rest) == digits + rest;
    } else {
      assert (sign + (digits + rest))[1..] == digits + rest;
    }
  }

  /** A signed number between -2^63 and 2^63 - 1, or the nearer of these, modulo 2^32. */
  function KeptModulo(n: int): int {
    (if n > 0x7FFF_FFFF_FFFF_FFFF then 0x7FFF_FFFF_FFFF_FFFF
     else if n < -0x8000_0000_0000_0000 then -0x8000_0000_0000_0000 else n) % 0x1_0000_0000
  }

  lemma StoredIsKept(negative: bool, n: nat)
    ensures Stored(negative, n) == KeptModulo(if negative then 0 - n else n)
  {
  }

  /** So a number printed is read back, modulo 2^32. */
  lemma ScanDecimal(n: nat)
    requires n <= 0x7FFF_FFFF_FFFF_FFFF
    ensures ScanInt(Decimal(n)) == Some(Number(Some(n % 0x1_0000_0000)))
  {
    hide Decimal, ScanInt;
    NumberIsScanned("", "", n, "");
    assert "" + ("" + (Decimal(n) + "")) == Decimal(n);
  }

  lemma {:induction false} SkipsAll(s: string)
    ensures SkipSpaces(s) == "" <==> forall i :: 0 <= i < |s| ==> IsSpace(s[i])
  {
    if s != "" {
      SkipsAll(s[1..]);
      assert s == [s[0]] + s[1..];
    }
  }

  /** The number of a handler is an unset variable exactly where the token is blank. */
  lemma UnsetExactly(token: string)
    ensures ScanInt(token) == Some(Number(None)) <==> forall i :: 0 <= i < |token| ==> IsSpace(token[i])
  {
    SkipsAll(token);
  }

  /** `_parse_atom`: the values one token adds, or `None` when it does not parse. */
  function ParseAtom(repos: Repos, atom: char, token: string): Option<seq<Value>> {
    var t := StripColon(token);
    match atom
    case 'I' => Some([])
    case 'r' => One(EnsureHandle(repos, Room, t))
    case 'c' => One(EnsureHandle(repos, Contact, NickPart(t)))
    case 'C' =>
      var hasMode := t != "" && IsModeChar(t[0]);
      var handle := EnsureHandle(repos, Contact, NickPart(if hasMode then t[1..] else t));
      if handle.None? then None else Some([handle.value, ModeChar(if hasMode then t[0] else '\0')])
    case 'd' => One(ScanInt(t))
    case 's' => Some([Text(t)])
    case _ => None
  }

  function One(v: Option<Value>): Option<seq<Value>> {
    if v.None? then None else Some([v.value])
  }

  // ---- Formats ----

  predicate IsAtom(c: char) {
    c == 'I' || c == 'r' || c == 'c' || c == 'C' || c == 'd' || c == 's'
  }

  /** The formats the interpreter can run: a repeat is followed by one last atom,
      and a trailing parameter comes last. */
  predicate GoodFormat(format: string) {
    format == "" || (GoodFormatChar(format[0], format[1..]) && (format[0] != 'v' ==> GoodFormat(format[1..])))
  }

  predicate GoodFormatChar(c: char, later: string) {
    if c == 'v' then |later| == 1 && IsAtom(later[0])
    else if c == ':' || c == '.' then later == ""
    else IsAtom(c)
  }

  /** The byte of a C string at `i`, which is NUL at its end. */
  function CharAt(s: string, i: nat): char {
    if i < |s| then s[i] else '\0'
  }

  /** The trailing parameter of a token that is the last one or starts with a colon. */
  function Trailing(t: Token, last: bool): Option<string> {
    var trailing := if CharAt(t.text, 0) == ':' && t.rest != "" then t.rest[1..] else t.rest;
    if (CharAt(t.text, 0) != ':' && !last) || trailing == "" then None else Some(trailing)
  }

  predicate RealTokens(tokens: seq<Token>) {
    forall i :: 0 <= i < |tokens| ==> tokens[i].text != "" && tokens[i].text <= tokens[i].rest
  }

  function RepeatAtom(repos: Repos, atom: char, tokens: seq<Token>): Option<seq<Value>> {
    if tokens == [] then Some([])
    else
      var v := ParseAtom(repos, atom, tokens[0].text);
      if v.None? then None else Prepend(v.value, RepeatAtom(repos, atom, tokens[1..]))
  }

  function Prepend(v: seq<Value>, rest: Option<seq<Value>>): Option<seq<Value>> {
    if rest.None? then None else Some(v + rest.value)
  }

  /** The arguments `_parse_and_forward_one` hands to the handlers, or `None` when it
      gives up before calling any. */
  function Interpret(repos: Repos, format: string, tokens: seq<Token>): Option<seq<Value>> {
    if format == "" then Some([])
    else if tokens == [] then (if format[0] == '.' then Some([]) else None)
    else if format[0] == 'v' then RepeatAtom(repos, CharAt(format, 1), tokens)
    else if format[0] == ':' || format[0] == '.' then
      var t := Trailing(tokens[0], |tokens| == 1);
      if t.Some? then Some([Text(t.value)]) else if format[0] == '.' then Some([]) else None
    else
      var v := ParseAtom(repos, format[0], tokens[0].text);
      if v.None? then None else Prepend(v.value, Interpret(repos, format[1..], tokens[1..]))
  }

  /** One atom and one word. */
  lemma StepOf(repos: Repos, format: string, toks: seq<Token>)
    requires format != "" && toks != [] && format[0] != 'v' && format[0] != ':' && format[0] != '.'
    ensures Interpret(repos, format, toks) ==
      var v := ParseAtom(repos, format[0], toks[0].text);
      if v.None? then None else Prepend(v.value, Interpret(repos, format[1..], toks[1..]))
  {
    hide ParseAtom;
  }
}
