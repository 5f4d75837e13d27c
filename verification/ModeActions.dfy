/** What a MODE message says, action by action, and that it is read so
    (`idle-muc-channel.c`). */
module ModeActions {
  import opened Seqs
  import opened Wrappers
  import opened Irc
  import opened Modes
  import Parser

  // ---- The letters ----

  /** The letter by which servers name a flag. */
  function LetterOf(f: Flag): char {
    match f
    case Operator => 'o'
    case HalfOp => 'h'
    case Voice => 'v'
    case UserLimit => 'l'
    case Key => 'k'
    case Anonymous => 'a'
    case InviteOnly => 'i'
    case Moderated => 'm'
    case NoOutsideMessages => 'n'
    case Quiet => 'q'
    case Private => 'p'
    case Secret => 's'
    case ServerReop => 'r'
    case TopicByOps => 't'
    case Creator => 'O'
  }

  /** A letter that does not name a flag leaves it alone; a status flag also wants our name. */
  lemma LetterNamesFlag(c: char, operation: char, reg: Registers, params: seq<string>, self: string -> bool, f: Flag)
    ensures var l := ReadLetter(c, operation, reg, params, self);
      && (f in l.flag ==> c == LetterOf(f))
      && (f in l.flag && f in STATUS ==> l.used == 1 && self(params[0]))
  {
    hide ParseLimit;
  }

  /** None of the strings says this of itself. */
  ghost predicate NoneOf(args: seq<string>, p: string -> bool) {
    forall i :: 0 <= i < |args| ==> !p(args[i])
  }

  /** What changes a flag: its letter, and for a status flag our name too. */
  ghost predicate LeftAlone(args: seq<string>, self: string -> bool, f: Flag) {
    NoneOf(args, s => LetterOf(f) in s) || (f in STATUS && NoneOf(args, self))
  }

  lemma {:induction false} LettersLeaveFlag(c: Core, modes: string, operation: char, reg: Registers,
                                            params: seq<string>, self: string -> bool, f: Flag)
    requires LetterOf(f) !in modes || (f in STATUS && NoneOf(params, self))
    ensures var p := ApplyLetters(c, modes, operation, reg, params, self);
      && (f in p.core.flags <==> f in c.flags)
      && exists k :: 0 <= k <= |params| && p.params == params[k..]
    decreases |modes|
  {
    hide ReadLetter;
    if modes == "" {
      assert params[0..] == params;
    } else if IsSign(modes[0]) {
      LettersLeaveFlag(c, modes[1..], modes[0], reg, params, self, f);
    } else {
      var l := ReadLetter(modes[0], operation, reg, params, self);
      LetterNamesFlag(modes[0], operation, reg, params, self, f);
      var c' := ApplyLetter(c, operation, l.flag, l.reg);
      LettersLeaveFlag(c', modes[1..], operation, l.reg, params[l.used..], self, f);
      var p := ApplyLetters(c', modes[1..], operation, l.reg, params[l.used..], self);
      var k :| 0 <= k <= |params[l.used..]| && p.params == params[l.used..][k..];
      DropDrop(params, l.used, k);
    }
  }

  lemma LeftAloneLater(args: seq<string>, self: string -> bool, f: Flag, k: nat)
    requires LeftAlone(args, self, f) && k <= |args|
    ensures LeftAlone(args[k..], self, f)
  {
    hide LetterOf;
  }

  lemma FirstLeavesAlone(args: seq<string>, self: string -> bool, f: Flag)
    requires LeftAlone(args, self, f) && args != []
    ensures LetterOf(f) !in args[0] || (f in STATUS && NoneOf(args[1..], self))
  {
    hide LetterOf;
  }

  lemma {:induction false} ModesLeaveFlag(c: Core, args: seq<string>, self: string -> bool, f: Flag)
    requires LeftAlone(args, self, f)
    ensures f in ApplyModes(c, args, self).flags <==> f in c.flags
    decreases |args|
  {
    hide ApplyLetters, LeftAlone;
    if args != [] {
      LeftAloneLater(args, self, f, 1);
      if args[0] == "" || !IsSign(args[0][0]) {
        ModesLeaveFlag(c, args[1..], self, f);
      } else {
        FirstLeavesAlone(args, self, f);
        LettersLeaveFlag(c, args[0], args[0][0], NO_REGISTERS, args[1..], self, f);
        var p := ApplyLetters(c, args[0], args[0][0], NO_REGISTERS, args[1..], self);
        var k :| 0 <= k <= |args[1..]| && p.params == args[1..][k..];
        DropDrop(args, 1, k);
        LeftAloneLater(args, self, f, 1 + k);
        ModesLeaveFlag(p.core, p.params, self, f);
      }
    }
  }

  /** A MODE message changes a flag only where it holds the flag's letter, and one of our own
      status flags only where it holds our name too. */
  lemma FlagsNeedTheirLetters(r: Room, args: seq<string>, self: string -> bool, f: Flag)
    requires LeftAlone(args, self, f)
    ensures f in ReadModes(r, args, self).flags <==> f in r.flags
  {
    ModesAreLetters(r, args, self);
    ModesLeaveFlag(CoreOf(r), args, self, f);
  }

  /** So nobody else's status is ours. */
  lemma OthersAreNotUs(r: Room, args: seq<string>, self: string -> bool)
    requires NoneOf(args, self)
    ensures ReadModes(r, args, self).flags * STATUS == r.flags * STATUS
  {
    forall f | f in STATUS ensures f in ReadModes(r, args, self).flags <==> f in r.flags {
      FlagsNeedTheirLetters(r, args, self, f);
    }
  }

  // ---- Messages as lists of actions ----

  datatype Action =
    /** Somebody gets a status, or loses it. */
    | Privilege(give: bool, flag: Flag, name: string)
    | NewLimit(limit: nat)
    | NewKey(key: string)
    /** Any other flag, and the end of a limit or a key. */
    | Plain(give: bool, flag: Flag)

  predicate CanBeSaid(a: Action) {
    match a
    case Privilege(_, flag, _) => flag in STATUS
    case NewLimit(limit) => limit < 0x1_0000_0000
    case NewKey(_) => true
    case Plain(give, flag) => flag !in STATUS && !flag.Creator? && (give ==> !flag.Key? && !flag.UserLimit?)
  }

  function SignOf(a: Action): char {
    if (a.Privilege? || a.Plain?) && !a.give then '-' else '+'
  }

  function FlagOf(a: Action): Flag {
    match a
    case Privilege(_, flag, _) => flag
    case NewLimit(_) => UserLimit
    case NewKey(_) => Key
    case Plain(_, flag) => flag
  }

  function ParamOf(a: Action): seq<string> {
    match a
    case Privilege(_, _, name) => [name]
    case NewLimit(limit) => [Decimal(limit)]
    case NewKey(key) => [key]
    case Plain(_, _) => []
  }

  /** An action, and whether its sign is written although it is the one in force. */
  datatype Said = Said(action: Action, signed: bool)

  /** The mode string, after the sign in force. */
  function Letters(said: seq<Said>, sign: char): string {
    if said == [] then ""
    else
      var a := said[0].action;
      (if said[0].signed || SignOf(a) != sign then [SignOf(a)] else []) + [LetterOf(FlagOf(a))]
      + Letters(said[1..], SignOf(a))
  }

  function Params(said: seq<Said>): seq<string> {
    if said == [] then [] else ParamOf(said[0].action) + Params(said[1..])
  }

  /** The modes of a channel: the flags, the limit and the key where there is one. */
  datatype View = View(flags: Flags, limit: Option<int>, key: Option<string>)

  function ViewOf(c: Core): View {
    View(c.flags, if UserLimit in c.flags then Some(c.limit) else None, if Key in c.flags then c.key else None)
  }

  function Done(v: View, a: Action, self: string -> bool): View {
    match a
    case Privilege(give, flag, name) =>
      if !self(name) then v else if give then v.(flags := v.flags + {flag}) else v.(flags := v.flags - {flag})
    case NewLimit(limit) => v.(flags := v.flags + {UserLimit}, limit := Some(limit))
    case NewKey(key) => v.(flags := v.flags + {Key}, key := Some(key))
    case Plain(give, flag) =>
      if give then v.(flags := v.flags + {flag})
      else v.(flags := v.flags - {flag}, limit := if flag.UserLimit? then None else v.limit,
              key := if flag.Key? then None else v.key)
  }

  function AllDone(v: View, said: seq<Said>, self: string -> bool): View
    decreases |said|
  {
    if said == [] then v else AllDone(Done(v, said[0].action, self), said[1..], self)
  }

  /** One letter does one action. */
  lemma LetterDoes(c: Core, a: Action, reg: Registers, params: seq<string>, self: string -> bool)
    requires CanBeSaid(a) && ParamOf(a) <= params
    ensures var l := ReadLetter(LetterOf(FlagOf(a)), SignOf(a), reg, params, self);
      && l.used == |ParamOf(a)| && !IsSign(LetterOf(FlagOf(a)))
      && ViewOf(ApplyLetter(c, SignOf(a), l.flag, l.reg)) == Done(ViewOf(c), a, self)
  {
    hide Decimal, ParseLimit;
    if a.NewLimit? {
      LimitIsRead(a.limit);
      assert params[0] == ParamOf(a)[0];
    }
    assert ParamOf(a) != [] ==> params[0] == ParamOf(a)[0];
  }

  lemma LimitIsRead(n: nat)
    requires n < 0x1_0000_0000
    ensures ParseLimit(Decimal(n)) == Some(n)
  {
    hide Decimal;
    Parser.ScanDecimal(n);
  }

  lemma {:induction false} LettersDo(c: Core, said: seq<Said>, sign: char, reg: Registers, more: seq<string>,
                                     self: string -> bool)
    requires forall i :: 0 <= i < |said| ==> CanBeSaid(said[i].action)
    ensures var p := ApplyLetters(c, Letters(said, sign), sign, reg, Params(said) + more, self);
      ViewOf(p.core) == AllDone(ViewOf(c), said, self) && p.params == more
    decreases |said|
  {
    hide ReadLetter, LetterOf, FlagOf, SignOf, ParamOf, CanBeSaid, Done, ViewOf, ApplyLetter;
    if said == [] {
      assert Params(said) + more == more;
    } else {
      var a, later := said[0].action, Letters(said[1..], SignOf(said[0].action));
      var params := Params(said) + more;
      assert CanBeSaid(a);
      assert params == ParamOf(a) + (Params(said[1..]) + more);
      LetterDoes(c, a, reg, params, self);
      var l := ReadLetter(LetterOf(FlagOf(a)), SignOf(a), reg, params, self);
      var c' := ApplyLetter(c, SignOf(a), l.flag, l.reg);
      assert params[l.used..] == Params(said[1..]) + more;
      OneLetterRead(c, a, later, sign, said[0].signed, reg, params, self);
      LettersDo(c', said[1..], SignOf(a), l.reg, more, self);
    }
  }

  /** A letter at the head of a mode string, its sign written or not. */
  lemma OneLetterRead(c: Core, a: Action, later: string, sign: char, signed: bool, reg: Registers,
                      params: seq<string>, self: string -> bool)
    requires !IsSign(LetterOf(FlagOf(a)))
    ensures var l := ReadLetter(LetterOf(FlagOf(a)), SignOf(a), reg, params, self);
      ApplyLetters(c, (if signed || SignOf(a) != sign then [SignOf(a)] else []) + [LetterOf(FlagOf(a))] + later,
                   sign, reg, params, self)
      == ApplyLetters(ApplyLetter(c, SignOf(a), l.flag, l.reg), later, SignOf(a), l.reg, params[l.used..], self)
  {
    hide ReadLetter, LetterOf, FlagOf, ApplyLetter;
    var rest := [LetterOf(FlagOf(a))] + later;
    assert rest[1..] == later;
    if signed || SignOf(a) != sign {
      assert ([SignOf(a)] + [LetterOf(FlagOf(a))] + later)[1..] == rest;
    } else {
      assert [] + [LetterOf(FlagOf(a))] + later == rest;
    }
  }

  /**
   * A MODE message that says any list of actions, the sign of each written or left out where
   * it is in force, and then their parameters, is read as these actions one after the other:
   * whoever gets or loses a status, the limit and the key, and every other flag.
   */
  lemma ActionsAreDone(r: Room, said: seq<Said>, self: string -> bool)
    requires said != [] && forall i :: 0 <= i < |said| ==> CanBeSaid(said[i].action)
    ensures ViewOf(CoreOf(ReadModes(r, [Letters(said, '\0')] + Params(said), self)))
         == AllDone(ViewOf(CoreOf(r)), said, self)
  {
    hide ApplyLetters, ReadRuns, Letters, AllDone, CoreOf, ViewOf;
    var modes, params := Letters(said, '\0'), Params(said);
    var args := [modes] + params;
    FirstIsSign(said);
    assert args[1..] == params && params + [] == params;
    ModesAreLetters(r, args, self);
    LettersDo(CoreOf(r), said, modes[0], NO_REGISTERS, [], self);
    SignInForce(CoreOf(r), said, params, self);
  }

  lemma FirstIsSign(said: seq<Said>)
    requires said != []
    ensures var modes := Letters(said, '\0'); modes != "" && IsSign(modes[0])
  {
  }

  lemma {:induction false} LettersAreAWord(said: seq<Said>, sign: char)
    ensures ' ' !in Letters(said, sign)
    decreases |said|
  {
    if said != [] {
      LettersAreAWord(said[1..], SignOf(said[0].action));
    }
  }

  /** The first sign may be written or not once it is in force. */
  lemma SignInForce(c: Core, said: seq<Said>, params: seq<string>, self: string -> bool)
    requires said != []
    ensures var modes := Letters(said, '\0');
      modes != "" && ApplyLetters(c, modes, modes[0], NO_REGISTERS, params, self)
                  == ApplyLetters(c, Letters(said, modes[0]), modes[0], NO_REGISTERS, params, self)
  {
    hide ReadLetter, LetterOf;
    var a, later := said[0].action, Letters(said[1..], SignOf(said[0].action));
    var modes := Letters(said, '\0');
    assert modes == [SignOf(a)] + ([LetterOf(FlagOf(a))] + later);
    assert modes[1..] == [LetterOf(FlagOf(a))] + later;
    assert Letters(said, modes[0]) == if said[0].signed then modes else modes[1..];
  }

  /** Our own status: "+o" and our name makes us operator, "-o" takes it, and likewise for the
      other two; with any other name nothing changes. */
  lemma StatusIsOurs(r: Room, give: bool, f: Flag, name: string, self: string -> bool)
    requires f in STATUS
    ensures ReadModes(r, [[if give then '+' else '-', LetterOf(f)], name], self).flags ==
      if !self(name) then r.flags else if give then r.flags + {f} else r.flags - {f}
  {
    hide ReadModes, LetterOf;
    var said := [Said(Privilege(give, f, name), true)];
    assert said[1..] == [];
    ActionsAreDone(r, said, self);
    assert Letters(said, '\0') == [if give then '+' else '-', LetterOf(f)];
    assert [Letters(said, '\0')] + Params(said) == [[if give then '+' else '-', LetterOf(f)], name];
  }

  /** Where a parameter is missing a status letter does nothing, a limit is zero and a key is
      none; a limit that is no number is zero as well; and a string without a sign is skipped. */
  lemma IncompleteModes(r: Room, c: char, self: string -> bool)
    ensures c == 'o' || c == 'h' || c == 'v' ==> ReadModes(r, [['+', c]], self).flags == r.flags
    ensures var t := ReadModes(r, ["+l"], self); UserLimit in t.flags && t.limit == 0
    ensures var t := ReadModes(r, ["+k"], self); Key in t.flags && t.key == None
    ensures var t := ReadModes(r, ["+l", "x"], self); UserLimit in t.flags && t.limit == 0
    ensures !IsSign(c) ==> ReadModes(r, [[c]], self) == r
  {
    hide ChangeMode, ReadRuns;
    CoreOfCommit(r, '+', {}, NO_REGISTERS);
    CoreOfCommit(r, '+', {UserLimit}, NO_REGISTERS);
    CoreOfCommit(r, '+', {Key}, NO_REGISTERS);
    if c == 'o' || c == 'h' || c == 'v' {
      assert [['+', c]][1..] == [];
      OneLetter(r, [['+', c]], c, '+', Letter({}, 0, NO_REGISTERS), self);
    }
    assert [[c]][1..] == [] && ReadModes(r, [], self) == r;
    assert ["+l"][1..] == [] && ["+k"][1..] == [] && ["+l", "x"][1..] == ["x"] && ["x"][1..] == [];
    OneLetter(r, ["+l"], 'l', '+', Letter({UserLimit}, 0, NO_REGISTERS), self);
    OneLetter(r, ["+k"], 'k', '+', Letter({Key}, 0, NO_REGISTERS), self);
    OneLetter(r, ["+l", "x"], 'l', '+', Letter({UserLimit}, 1, NO_REGISTERS), self);
  }

  // ---- NAMES ----

  /** The last entry of ours decides our status: '@' and '&' make us operator, '+' gives voice,
      and any other takes all three. */
  lemma {:induction false} LastNameDecides(r: Room, names: seq<Name>, last: nat)
    requires last < |names| && names[last].ours && forall i :: last < i < |names| ==> !names[i].ours
    ensures ReadNames(r, names).flags * STATUS ==
      match names[last].modechar { case '@' => {Operator} case '&' => {Operator} case '+' => {Voice} case _ => {} }
    decreases |names|
  {
    hide ChangeMode;
    var add := NamesAdd(names[0].modechar);
    var r' := if names[0].ours then ChangeMode(r, add, STATUS - add) else r;
    if last > 0 {
      LastNameDecides(r', names[1..], last - 1);
    } else {
      OthersAreSkipped(r', names[1..]);
      FlagsOfStatus(r, add);
    }
  }

  lemma {:induction false} OthersAreSkipped(r: Room, names: seq<Name>)
    requires forall i :: 0 <= i < |names| ==> !names[i].ours
    ensures ReadNames(r, names) == r
    decreases |names|
  {
    if names != [] {
      OthersAreSkipped(r, names[1..]);
    }
  }

  lemma FlagsOfStatus(r: Room, add: Flags)
    requires add <= STATUS
    ensures ChangeMode(r, add, STATUS - add).flags == r.flags - STATUS + add
  {
  }

  /** After our own JOIN we may invite, and the topic flag is set on a channel without modes. */
  lemma JoinSetsTopicFlag(r: Room, plusChannel: bool)
    ensures SelfJoin(r, plusChannel).flags == if plusChannel then r.flags + {TopicByOps} else r.flags
    ensures SelfJoin(r, plusChannel).group.canAdd
  {
  }
}
