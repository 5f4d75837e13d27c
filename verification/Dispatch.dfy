/** Dispatch of one received message to the handlers (`_parse_message`). */
module Dispatch {
  import opened Seqs
  import opened Handles
  import opened Parser
  import Receiver
  import opened Formats
  import opened Messages

  function ToLower(c: char): char {
    if 'A' <= c <= 'Z' then (c as int + 32) as char else c
  }

  /** `g_ascii_strcasecmp (a, b) == 0`. */
  predicate CaseEq(a: string, b: string) {
    |a| == |b| && forall i :: 0 <= i < |a| ==> ToLower(a[i]) == ToLower(b[i])
  }

  /** Two bytes are equal but for case exactly when they are the same, or one letter of ASCII in
      its two cases. */
  lemma CaseOfOne(c: char, d: char)
    ensures CaseEq([c], [d]) <==>
      || c == d
      || ('a' <= c <= 'z' && c as int == d as int + 32) || ('a' <= d <= 'z' && d as int == c as int + 32)
  {
    assert CaseEq([c], [d]) <==> ToLower([c][0]) == ToLower([d][0]);
  }

  /** One call of the handlers registered for a code. */
  datatype Delivery = Delivery(code: Code, args: seq<Value>)

  /** `g_ascii_strcasecmp (tokens[k], str) == 0`; the comparison with NULL gives zero. */
  predicate CellEq(cell: Cell, str: string) {
    cell == Null || CaseEq(cell.s, str)
  }

  /** Whether entry `i` of the table is tried: the first entries match the first word
      of a message without a prefix, the others always match the second word, and all of
      those match where there is none. */
  predicate Matches(msg: string, toks: seq<Token>, i: nat)
    requires i < SPEC_COUNT && toks != []
  {
    if i <= LAST_NON_PREFIX_CMD then CharAt(msg, 0) != ':' && CaseEq(toks[0].text, MessageSpec(i).str)
    else |toks| == 1 || CaseEq(toks[1].text, MessageSpec(i).str)
  }

  function Forward(repos: Repos, msg: string, toks: seq<Token>, i: nat): seq<Delivery>
    requires i < SPEC_COUNT && toks != []
  {
    if !Matches(msg, toks, i) then []
    else
      var args := Interpret(repos, MessageSpec(i).format, toks);
      if args.None? then [] else [Delivery(MessageSpec(i).code, args.value)]
  }

  function ForwardFrom(repos: Repos, msg: string, toks: seq<Token>, i: nat): seq<Delivery>
    requires i <= SPEC_COUNT && toks != []
    decreases SPEC_COUNT - i
  {
    if i == SPEC_COUNT then [] else Forward(repos, msg, toks, i) + ForwardFrom(repos, msg, toks, i + 1)
  }

  /** Everything a message is delivered as. */
  function Deliveries(repos: Repos, msg: string): seq<Delivery>
    requires Tokens(msg) != []
  {
    ForwardFrom(repos, msg, Tokens(msg), 0)
  }

  predicate Blank(msg: string) {
    forall i :: 0 <= i < |msg| ==> msg[i] == ' '
  }

  lemma {:induction false} TokensOfBlank(msg: string)
    ensures Tokens(msg) == [] <==> Blank(msg)
    decreases |msg|
  {
    if msg != "" {
      var space := IndexOf(msg, ' ');
      assert space > 0 ==> msg[0] != ' ';
      if space == 0 {
        TokensOfBlank(msg[1..]);
        assert msg == [' '] + msg[1..];
      }
    }
  }

  /** The slot of the second word, which every message is looked up by, lies in the token
      array exactly when some byte of the message is not a space. */
  lemma SecondSlotExists(msg: string)
    ensures 2 < |TokenArray(Tokens(msg))| <==> !Blank(msg)
  {
    TokensOfBlank(msg);
  }

  /** What a message is parsed to: the source looks outside the token array, or calls
      handlers. */
  datatype Parsed = OutsideTokens | Delivered(deliveries: seq<Delivery>)

  function Parse(repos: Repos, msg: string): Parsed {
    if Tokens(msg) == [] then OutsideTokens else Delivered(Deliveries(repos, msg))
  }

  /** A line of one space is received, and is such a message. */
  lemma BlankLineIsReceived(repos: Repos)
    ensures Receiver.Lines(" \r\n") == [" "] && Parse(repos, " ") == OutsideTokens
  {
    hide Receiver.Lines, Receiver.Tail;
    TokensOfBlank(" ");
    Receiver.LinesOfFirst(" ", '\r', "\n");
    Receiver.LinesOfFirst("", '\n', "");
    Receiver.LinesOfNone("");
    assert " " + ['\r'] + "\n" == " \r\n" && "" + ['\n'] + "" == "\n";
  }

  lemma TokensAreReal(msg: string)
    ensures RealTokens(Tokens(msg))
  {
  }

  /** One entry of the table tried on one message. */
  method TryEntry(repos: Repos, msg: string, tokens: seq<Cell>, i: nat, ghost toks: seq<Token>)
    returns (deliveries: seq<Delivery>)
    requires tokens == TokenArray(toks) && RealTokens(toks) && toks != [] && i < SPEC_COUNT
    ensures deliveries == Forward(repos, msg, toks, i)
  {
    hide GoodFormat, Interpret, CaseEq, MessageSpec;
    var spec := MessageSpec(i);
    SpecsAreGood(i);
    var matched := false;
    if CharAt(msg, 0) != ':' && i <= LAST_NON_PREFIX_CMD {
      matched := CellEq(tokens[0], spec.str);
    } else if i > LAST_NON_PREFIX_CMD {
      matched := CellEq(tokens[2], spec.str);
    }
    deliveries := [];
    if matched {
      var args := ParseAndForwardOne(repos, tokens, spec.format, toks);
      if args.Some? {
        deliveries := [Delivery(spec.code, args.value)];
      }
    }
  }

  /** `_parse_message`. */
  method ParseMessage(repos: Repos, msg: string) returns (r: Parsed)
    ensures r == Parse(repos, msg)
    ensures r.OutsideTokens? <==> Blank(msg)
  {
    hide Forward, RealTokens, TokenArray, Blank;
    var toks := Tokenize(msg);
    TokensAreReal(msg);
    TokensOfBlank(msg);
    var tokens := TokenArray(toks);
    if |tokens| <= 2 {
      return OutsideTokens;
    }
    var deliveries: seq<Delivery> := [];
    for i := 0 to SPEC_COUNT
      invariant deliveries + ForwardFrom(repos, msg, toks, i) == ForwardFrom(repos, msg, toks, 0)
    {
      var more := TryEntry(repos, msg, tokens, i, toks);
      Assoc(deliveries, more, ForwardFrom(repos, msg, toks, i + 1));
      deliveries := deliveries + more;
    }
    return Delivered(deliveries);
  }

  /** Whatever arrives, handlers are only called with arguments that satisfy every
      positional access they make; and they are called, or it is known that none takes the
      message, exactly when the message is not blank. */
  lemma DeliveriesAreServed(repos: Repos, msg: string)
    ensures var r := Parse(repos, msg);
      && (r.Delivered? <==> !Blank(msg))
      && (r.Delivered? ==> forall d :: d in r.deliveries ==> HandlerReads(d.code, d.args))
  {
    hide HandlerReads, Blank;
    TokensOfBlank(msg);
    if Tokens(msg) != [] {
      ForwardIsServed(repos, msg, Tokens(msg), 0);
    }
  }

  lemma {:induction false} ForwardIsServed(repos: Repos, msg: string, toks: seq<Token>, i: nat)
    requires i <= SPEC_COUNT && toks != []
    ensures forall d :: d in ForwardFrom(repos, msg, toks, i) ==> HandlerReads(d.code, d.args)
    decreases SPEC_COUNT - i
  {
    hide GoodFormat, Interpret, Shaped, HandlerReads, MessageSpec, Matches;
    if i < SPEC_COUNT {
      ForwardIsServed(repos, msg, toks, i + 1);
      SpecsAreGood(i);
      InterpretIsShaped(repos, MessageSpec(i).format, toks);
      var args := Interpret(repos, MessageSpec(i).format, toks);
      if args.Some? {
        HandlersAreServed(i, args.value);
      }
    }
  }

  // ---- Messages that concern only two entries ----

  /** When nothing from entry `i` to `j` matches, those entries add nothing. */
  lemma {:induction false} SkipTo(repos: Repos, msg: string, toks: seq<Token>, i: nat, j: nat)
    requires i <= j <= SPEC_COUNT && toks != []
    requires forall k :: i <= k < j ==> !Matches(msg, toks, k)
    ensures ForwardFrom(repos, msg, toks, i) == ForwardFrom(repos, msg, toks, j)
    decreases j - i
  {
    hide Matches, Forward;
    if i < j {
      NothingForwarded(repos, msg, toks, i);
      SkipTo(repos, msg, toks, i + 1, j);
    }
  }

  lemma NothingForwarded(repos: Repos, msg: string, toks: seq<Token>, i: nat)
    requires i < SPEC_COUNT && toks != [] && !Matches(msg, toks, i)
    ensures Forward(repos, msg, toks, i) == []
  {
    hide Matches;
  }

  /** A prefixed PRIVMSG concerns entries 12 and 13 only, a NOTICE 8 and 9, a MODE 5 and 6. */
  lemma MatchesOnly(msg: string, toks: seq<Token>, i: nat)
    requires i < SPEC_COUNT && |toks| >= 2 && CharAt(msg, 0) == ':'
    ensures toks[1].text == "PRIVMSG" ==> (Matches(msg, toks, i) <==> i == 12 || i == 13)
    ensures toks[1].text == "NOTICE" ==> (Matches(msg, toks, i) <==> i == 8 || i == 9)
    ensures toks[1].text == "MODE" ==> (Matches(msg, toks, i) <==> i == 5 || i == 6)
  {
    if i > LAST_NON_PREFIX_CMD {
      CommandsDiffer(i, "PRIVMSG", 12);
      CommandsDiffer(i, "NOTICE", 8);
      CommandsDiffer(i, "MODE", 5);
    }
  }

  /** Length and first letter tell these three commands from all the others. */
  lemma CommandsDiffer(i: nat, command: string, entry: nat)
    requires 1 < i < SPEC_COUNT
    requires (command == "PRIVMSG" && entry == 12) || (command == "NOTICE" && entry == 8)
             || (command == "MODE" && entry == 5)
    ensures CaseEq(command, MessageSpec(i).str) <==> i == entry || i == entry + 1
  {
    hide CaseEq;
    var str := MessageSpec(i).str;
    CaseEqFirst(command, str);
    if i == entry || i == entry + 1 {
      assert str == command;
    } else {
      LooksDifferent(i, |command|, ToLower(command[0]));
    }
  }

  lemma CaseEqFirst(a: string, b: string)
    ensures a == b ==> CaseEq(a, b)
    ensures CaseEq(a, b) && a != "" ==> |a| == |b| && ToLower(a[0]) == ToLower(b[0])
  {
  }

  lemma LooksDifferent(i: nat, length: nat, first: char)
    requires 1 < i < SPEC_COUNT
    requires (length == 7 && first == 'p' && i != 12 && i != 13) || (length == 6 && first == 'n' && i != 8 && i != 9)
             || (length == 4 && first == 'm' && i != 5 && i != 6)
    ensures |MessageSpec(i).str| != length || ToLower(MessageSpec(i).str[0]) != first
  {
  }

  /** Two numerics that have an entry of their own: a list of members and a topic's time. */
  predicate OwnEntry(numeric: string, entry: nat) {
    (numeric == "353" && entry == 25) || (numeric == "333" && entry == 32)
  }

  lemma NumericsDiffer(i: nat, numeric: string, entry: nat)
    requires 1 < i < SPEC_COUNT && OwnEntry(numeric, entry)
    ensures CaseEq(numeric, MessageSpec(i).str) <==> i == entry
  {
    hide CaseEq;
    CaseEqBytes(numeric, MessageSpec(i).str);
    if i != entry {
      NotThisNumeric(i, numeric, entry);
    }
  }

  lemma CaseEqBytes(a: string, b: string)
    requires |a| == 3
    ensures a == b ==> CaseEq(a, b)
    ensures CaseEq(a, b) ==>
      |b| == 3 && ToLower(a[0]) == ToLower(b[0]) && ToLower(a[1]) == ToLower(b[1]) && ToLower(a[2]) == ToLower(b[2])
  {
  }

  lemma NotThisNumeric(i: nat, numeric: string, entry: nat)
    requires 1 < i < SPEC_COUNT && OwnEntry(numeric, entry) && i != entry
    ensures var s := MessageSpec(i).str;
      |s| != 3 || ToLower(s[0]) != '3' || ToLower(s[1]) != numeric[1] || ToLower(s[2]) != '3'
  {
  }

  /** A prefixed message with such a numeric is delivered by its entry alone. */
  lemma OnlyItsEntry(repos: Repos, msg: string, toks: seq<Token>, numeric: string, entry: nat)
    requires OwnEntry(numeric, entry) && |toks| > 1 && toks[1].text == numeric && CharAt(msg, 0) == ':'
    ensures ForwardFrom(repos, msg, toks, 0) == Forward(repos, msg, toks, entry)
  {
    hide Forward, Matches;
    forall i | 0 <= i < SPEC_COUNT ensures Matches(msg, toks, i) <==> i == entry {
      MatchesNumeric(msg, toks, i, numeric, entry);
    }
    SkipTo(repos, msg, toks, 0, entry);
    SkipTo(repos, msg, toks, entry + 1, SPEC_COUNT);
  }

  lemma MatchesNumeric(msg: string, toks: seq<Token>, i: nat, numeric: string, entry: nat)
    requires i < SPEC_COUNT && OwnEntry(numeric, entry)
    requires |toks| > 1 && toks[1].text == numeric && CharAt(msg, 0) == ':'
    ensures Matches(msg, toks, i) <==> i == entry
  {
    hide CaseEq, MessageSpec;
    if 1 < i {
      NumericsDiffer(i, numeric, entry);
    }
  }
}
