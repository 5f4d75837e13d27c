/** The table of messages, the shape of the arguments it promises to the handlers, and
    what the handlers read from them (`idle-parser.c`). */
module Messages {
  import opened Wrappers
  import opened Handles
  import opened Parser

  datatype Code =
    | CmdError | CmdPing
    | Invite | Join | Kick | ModeChannel | ModeUser | Nick | NoticeChannel | NoticeUser
    | Part | Pong | PrivmsgChannel | PrivmsgUser | Quit | Topic
    | NumAway | NumBadChannelKey | NumBannedFromChan | NumCannotSendToChan | NumChannelIsFull
    | NumEndOfWhois | NumErroneousNickname | NumInviteOnlyChan | NumModeReply | NumNameReply
    | NumNameReplyEnd | NumNicknameInUse | NumNoSuchNick | NumNoSuchServer | NumNowAway | NumTopic
    | NumTopicStamp | NumTryAgain | NumUnaway | NumWelcome | NumWhoisChannels | NumWhoisHost
    | NumWhoisLoggedIn | NumWhoisOperator | NumWhoisRegNick | NumWhoisSecure | NumWhoisServer
    | NumWhoisUser | NumWhoisIdle | NumList | NumListEnd | NumUnknownCommand

  datatype Spec = Spec(str: string, format: string, code: Code)

  const SPEC_COUNT := 48

  /** `message_specs`, in order. */
  function MessageSpec(i: nat): Spec
    requires i < SPEC_COUNT
  {
    match i
    case 0 => Spec("ERROR", "I:", CmdError)
    case 1 => Spec("PING", "Is", CmdPing)
    case 2 => Spec("INVITE", "cIcr", Invite)
    case 3 => Spec("JOIN", "cIr", Join)
    case 4 => Spec("KICK", "cIrc.", Kick)
    case 5 => Spec("MODE", "IIrvs", ModeChannel)
    case 6 => Spec("MODE", "IIcvs", ModeUser)
    case 7 => Spec("NICK", "cIc", Nick)
    case 8 => Spec("NOTICE", "cIr:", NoticeChannel)
    case 9 => Spec("NOTICE", "cIc:", NoticeUser)
    case 10 => Spec("PART", "cIr.", Part)
    case 11 => Spec("PONG", "IIs.", Pong)
    case 12 => Spec("PRIVMSG", "cIr:", PrivmsgChannel)
    case 13 => Spec("PRIVMSG", "cIc:", PrivmsgUser)
    case 14 => Spec("QUIT", "cI.", Quit)
    case 15 => Spec("TOPIC", "cIr.", Topic)
    case 16 => Spec("301", "IIIc:", NumAway)
    case 17 => Spec("475", "IIIr", NumBadChannelKey)
    case 18 => Spec("474", "IIIr", NumBannedFromChan)
    case 19 => Spec("404", "IIIr", NumCannotSendToChan)
    case 20 => Spec("471", "IIIr", NumChannelIsFull)
    case 21 => Spec("318", "IIIc", NumEndOfWhois)
    case 22 => Spec("432", "III", NumErroneousNickname)
    case 23 => Spec("473", "IIIr", NumInviteOnlyChan)
    case 24 => Spec("324", "IIIrvs", NumModeReply)
    case 25 => Spec("353", "IIIIrvC", NumNameReply)
    case 26 => Spec("366", "IIIr", NumNameReplyEnd)
    case 27 => Spec("433", "III", NumNicknameInUse)
    case 28 => Spec("401", "IIIc", NumNoSuchNick)
    case 29 => Spec("402", "IIIs:", NumNoSuchServer)
    case 30 => Spec("306", "III", NumNowAway)
    case 31 => Spec("332", "IIIr:", NumTopic)
    case 32 => Spec("333", "IIIrcd", NumTopicStamp)
    case 33 => Spec("263", "IIIs:", NumTryAgain)
    case 34 => Spec("305", "III", NumUnaway)
    case 35 => Spec("001", "IIc", NumWelcome)
    case 36 => Spec("319", "IIIc.", NumWhoisChannels)
    case 37 => Spec("378", "IIIc:", NumWhoisHost)
    case 38 => Spec("330", "IIIcs:", NumWhoisLoggedIn)
    case 39 => Spec("313", "IIIc:", NumWhoisOperator)
    case 40 => Spec("307", "IIIc:", NumWhoisRegNick)
    case 41 => Spec("671", "IIIc:", NumWhoisSecure)
    case 42 => Spec("312", "IIIcs:", NumWhoisServer)
    case 43 => Spec("311", "IIIcssI:", NumWhoisUser)
    case 44 => Spec("317", "IIIcd", NumWhoisIdle)
    case 45 => Spec("322", "IIIrd.", NumList)
    case 46 => Spec("323", "I", NumListEnd)
    case _ => Spec("421", "IIIs:", NumUnknownCommand)
  }

  /** The last entry that is matched against the first word of a message. */
  const LAST_NON_PREFIX_CMD := 1

  // ---- The shape a format denotes ----

  predicate IsHandle(v: Value, kind: HandleKind) {
    v.Handle? && v.kind == kind
  }

  /** How many values one token adds. */
  function Width(atom: char): nat {
    if atom == 'I' then 0 else if atom == 'C' then 2 else 1
  }

  /** The values one token adds. */
  predicate AtomShape(atom: char, v: seq<Value>) {
    && |v| == Width(atom)
    && (atom == 'r' ==> IsHandle(v[0], Room))
    && (atom == 'c' ==> IsHandle(v[0], Contact))
    && (atom == 'C' ==> IsHandle(v[0], Contact) && v[1].ModeChar?)
    && (atom == 'd' ==> v[0].Number?)
    && (atom == 's' ==> v[0].Text?)
  }

  /** One or more groups of values. */
  predicate Repeats(atom: char, args: seq<Value>)
    decreases |args|
  {
    var w := Width(atom);
    && |args| >= w && AtomShape(atom, args[..w])
    && (|args| > w ==> w > 0 && Repeats(atom, args[w..]))
  }

  predicate Shaped(format: string, args: seq<Value>)
    decreases |format|
  {
    if format == "" then args == []
    else
      var w := Width(format[0]);
      if format[0] == 'v' then Repeats(CharAt(format, 1), args)
      else if format[0] == ':' then |args| == 1 && args[0].Text?
      else if format[0] == '.' then args == [] || (|args| == 1 && args[0].Text?)
      else |args| >= w && AtomShape(format[0], args[..w]) && Shaped(format[1..], args[w..])
  }

  lemma AtomIsShaped(repos: Repos, atom: char, token: string)
    ensures var v := ParseAtom(repos, atom, token); v.Some? ==> IsAtom(atom) && AtomShape(atom, v.value)
  {
  }

  lemma {:induction false} RepeatIsShaped(repos: Repos, atom: char, toks: seq<Token>)
    requires toks != []
    ensures var r := RepeatAtom(repos, atom, toks); r.Some? ==> Repeats(atom, r.value)
  {
    hide ParseAtom, AtomShape;
    AtomIsShaped(repos, atom, toks[0].text);
    var v, later := ParseAtom(repos, atom, toks[0].text), RepeatAtom(repos, atom, toks[1..]);
    if toks[1..] != [] {
      RepeatIsShaped(repos, atom, toks[1..]);
    }
    if v.Some? && later.Some? {
      ShapeOfBoth(atom, v.value, later.value);
      assert toks[1..] == [] ==> later.value == [];
    }
  }

  lemma ShapeOfBoth(atom: char, v: seq<Value>, later: seq<Value>)
    requires AtomShape(atom, v)
    ensures later == [] || Repeats(atom, later) ==> Repeats(atom, v + later)
  {
  }

  /** Whenever handlers are called, their arguments have the shape the format denotes. */
  lemma {:induction false} InterpretIsShaped(repos: Repos, format: string, toks: seq<Token>)
    requires GoodFormat(format)
    ensures var r := Interpret(repos, format, toks); r.Some? ==> Shaped(format, r.value)
    decreases |format|
  {
    hide ParseAtom, AtomShape, Trailing, RepeatAtom;
    if format != "" && toks != [] {
      if format[0] == 'v' {
        RepeatIsShaped(repos, CharAt(format, 1), toks);
      } else if format[0] != ':' && format[0] != '.' {
        AtomIsShaped(repos, format[0], toks[0].text);
        InterpretIsShaped(repos, format[1..], toks[1..]);
        var v, later := ParseAtom(repos, format[0], toks[0].text), Interpret(repos, format[1..], toks[1..]);
        if v.Some? && later.Some? {
          WidthOfAtom(format[0], v.value);
          assert (v.value + later.value)[..|v.value|] == v.value;
          assert (v.value + later.value)[|v.value|..] == later.value;
        }
      }
    }
  }

  lemma WidthOfAtom(atom: char, v: seq<Value>)
    requires AtomShape(atom, v)
    ensures |v| == Width(atom)
  {
  }

  // ---- What handlers rely on ----

  predicate HandleAt(args: seq<Value>, i: nat, kind: HandleKind) {
    i < |args| && IsHandle(args[i], kind)
  }

  predicate TextAt(args: seq<Value>, i: nat) {
    i < |args| && args[i].Text?
  }

  predicate NumberAt(args: seq<Value>, i: nat) {
    i < |args| && args[i].Number?
  }

  /** From index 1 on, a contact and its mode character by turns. */
  predicate MembersFrom1(args: seq<Value>) {
    forall i :: 1 <= i < |args| && i % 2 == 1 ==> HandleAt(args, i, Contact) && i + 1 < |args| && args[i + 1].ModeChar?
  }

  /** The positional accesses the registered handlers make, with the type each one
      reads; an access guarded by the argument count comes with its guard. */
  predicate HandlerReads(code: Code, args: seq<Value>) {
    match code
    case CmdError => TextAt(args, 0)
    case CmdPing => TextAt(args, 0)
    case Invite => HandleAt(args, 0, Contact) && HandleAt(args, 1, Contact) && HandleAt(args, 2, Room)
    case Join => HandleAt(args, 0, Contact) && HandleAt(args, 1, Room)
    case Kick => HandleAt(args, 0, Contact) && HandleAt(args, 1, Room) && HandleAt(args, 2, Contact)
                 && (|args| == 4 ==> TextAt(args, 3))
    case ModeChannel => HandleAt(args, 0, Room) && forall i :: 1 <= i < |args| ==> TextAt(args, i)
    case Nick => HandleAt(args, 0, Contact) && HandleAt(args, 1, Contact)
    case NoticeChannel => HandleAt(args, 0, Contact) && HandleAt(args, 1, Room) && TextAt(args, 2)
    case NoticeUser => HandleAt(args, 0, Contact) && TextAt(args, 2)
    case Part => HandleAt(args, 0, Contact) && HandleAt(args, 1, Room) && (|args| == 3 ==> TextAt(args, 2))
    case PrivmsgChannel => HandleAt(args, 0, Contact) && HandleAt(args, 1, Room) && TextAt(args, 2)
    case PrivmsgUser => HandleAt(args, 0, Contact) && TextAt(args, 2)
    case Quit => HandleAt(args, 0, Contact) && (|args| == 2 ==> TextAt(args, 1))
    case Topic => HandleAt(args, 0, Contact) && HandleAt(args, 1, Room) && (|args| == 3 ==> TextAt(args, 2))
    case NumAway => HandleAt(args, 0, Contact) && TextAt(args, 1)
    case NumBadChannelKey => HandleAt(args, 0, Room)
    case NumBannedFromChan => HandleAt(args, 0, Room)
    case NumChannelIsFull => HandleAt(args, 0, Room)
    case NumInviteOnlyChan => HandleAt(args, 0, Room)
    case NumEndOfWhois => HandleAt(args, 0, Contact)
    case NumModeReply => HandleAt(args, 0, Room) && forall i :: 1 <= i < |args| ==> TextAt(args, i)
    case NumNameReply => HandleAt(args, 0, Room) && |args| % 2 == 1 && MembersFrom1(args)
    case NumNameReplyEnd => HandleAt(args, 0, Room)
    case NumNoSuchServer => TextAt(args, 0)
    case NumTopic => HandleAt(args, 0, Room) && TextAt(args, 1)
    case NumTopicStamp => HandleAt(args, 0, Room) && HandleAt(args, 1, Contact) && NumberAt(args, 2)
    case NumTryAgain => TextAt(args, 0) && TextAt(args, 1)
    case NumWelcome => HandleAt(args, 0, Contact)
    case NumWhoisChannels => HandleAt(args, 0, Contact) && (|args| == 2 ==> TextAt(args, 1))
    case NumWhoisHost => HandleAt(args, 0, Contact) && TextAt(args, 1)
    case NumWhoisLoggedIn => HandleAt(args, 0, Contact) && TextAt(args, 1) && TextAt(args, 2)
    case NumWhoisOperator => HandleAt(args, 0, Contact)
    case NumWhoisRegNick => HandleAt(args, 0, Contact)
    case NumWhoisSecure => HandleAt(args, 0, Contact)
    case NumWhoisServer => HandleAt(args, 0, Contact) && TextAt(args, 1) && TextAt(args, 2)
    case NumWhoisUser => HandleAt(args, 0, Contact) && TextAt(args, 1) && TextAt(args, 2) && TextAt(args, 3)
    case NumWhoisIdle => HandleAt(args, 0, Contact) && NumberAt(args, 1)
    case NumList => HandleAt(args, 0, Room) && NumberAt(args, 1) && (|args| > 2 ==> TextAt(args, 2))
    case NumUnknownCommand => TextAt(args, 0)
    case _ => true
  }

  // ---- What a format promises, position by position ----

  datatype Kind = RoomKind | ContactKind | ModeKind | NumberKind | TextKind

  predicate HasKind(v: Value, kind: Kind) {
    match kind
    case RoomKind => IsHandle(v, Room)
    case ContactKind => IsHandle(v, Contact)
    case ModeKind => v.ModeChar?
    case NumberKind => v.Number?
    case TextKind => v.Text?
  }

  function KindsOf(atom: char): seq<Kind> {
    if atom == 'r' then [RoomKind]
    else if atom == 'c' then [ContactKind]
    else if atom == 'C' then [ContactKind, ModeKind]
    else if atom == 'd' then [NumberKind]
    else if atom == 's' then [TextKind]
    else []
  }

  /** The kinds of the values that are always there, and of the group that may follow. */
  datatype Kinds = Kinds(fixed: seq<Kind>, more: seq<Kind>)

  /** What a format promises; nothing when the interpreter cannot run it. */
  function Promise(format: string): Option<Kinds> {
    if format == "" then Some(Kinds([], []))
    else if format[0] == 'v' then
      if |format| == 2 && IsAtom(format[1]) then Some(Kinds(KindsOf(format[1]), KindsOf(format[1]))) else None
    else if format[0] == ':' then (if |format| == 1 then Some(Kinds([TextKind], [])) else None)
    else if format[0] == '.' then (if |format| == 1 then Some(Kinds([], [TextKind])) else None)
    else if format[0] == 'I' then Promise(format[1..])
    else if IsAtom(format[0]) then
      match Promise(format[1..])
      case None => None
      case Some(k) => Some(Kinds(KindsOf(format[0]) + k.fixed, k.more))
    else None
  }

  lemma {:induction false} PromiseIsGood(format: string)
    ensures GoodFormat(format) <==> Promise(format).Some?
  {
    if format != "" && IsAtom(format[0]) {
      PromiseIsGood(format[1..]);
    }
  }

  /** From index `n` on, groups of these kinds one after the other. */
  predicate Groups(args: seq<Value>, n: nat, kinds: seq<Kind>) {
    if kinds == [] then |args| == n
    else
      && n <= |args| && (|args| - n) % |kinds| == 0
      && forall i :: n <= i < |args| ==> HasKind(args[i], kinds[(i - n) % |kinds|])
  }

  predicate HasKinds(args: seq<Value>, kinds: seq<Kind>) {
    |kinds| <= |args| && forall i :: 0 <= i < |kinds| ==> HasKind(args[i], kinds[i])
  }

  lemma AtomKinds(atom: char, v: seq<Value>)
    requires IsAtom(atom) && AtomShape(atom, v)
    ensures |v| == |KindsOf(atom)| && HasKinds(v, KindsOf(atom))
  {
  }

  lemma ModPeel(x: nat, w: nat)
    requires 0 < w <= 2 && w <= x
    ensures x % w == (x - w) % w
  {
  }

  lemma {:induction false} RepeatKinds(atom: char, args: seq<Value>)
    requires IsAtom(atom) && Repeats(atom, args)
    ensures HasKinds(args, KindsOf(atom)) && Groups(args, |KindsOf(atom)|, KindsOf(atom))
    decreases |args|
  {
    var w := Width(atom);
    AtomKinds(atom, args[..w]);
    if |args| > w {
      RepeatKinds(atom, args[w..]);
      var kinds := KindsOf(atom);
      forall i | w <= i < |args| ensures HasKind(args[i], kinds[(i - w) % w]) {
        assert args[i] == args[w..][i - w];
        if i < 2 * w {
          assert HasKind(args[w..][i - w], kinds[i - w]);
        } else {
          ModPeel(i - w, w);
          assert HasKind(args[w..][i - w], kinds[(i - w - w) % w]);
        }
      }
    }
  }

  /** The values of one token in front of the others. */
  lemma KindsInFront(args: seq<Value>, first: seq<Kind>, later: seq<Kind>, more: seq<Kind>)
    requires |first| <= |args| && HasKinds(args[..|first|], first)
    requires HasKinds(args[|first|..], later) && Groups(args[|first|..], |later|, more)
    ensures HasKinds(args, first + later) && Groups(args, |first + later|, more)
  {
    hide HasKind;
    var w, n := |first|, |first + later|;
    forall i | 0 <= i < n ensures HasKind(args[i], (first + later)[i]) {
      assert i < w ==> args[i] == args[..w][i];
      assert i >= w ==> args[i] == args[w..][i - w];
    }
    if more != [] {
      forall i | n <= i < |args| ensures HasKind(args[i], more[(i - n) % |more|]) {
        assert args[i] == args[w..][i - w] && i - w - |later| == i - n;
      }
    }
  }

  /** Arguments of the shape of a format have the kinds it promises, at each position that
      is always filled and in what may follow. */
  lemma {:induction false} ShapedKinds(format: string, args: seq<Value>)
    requires Promise(format).Some? && Shaped(format, args)
    ensures var k := Promise(format).value; HasKinds(args, k.fixed) && Groups(args, |k.fixed|, k.more)
    decreases |format|
  {
    hide KindsOf, AtomShape;
    if format == "" || format[0] == ':' || format[0] == '.' {
    } else if format[0] == 'v' {
      RepeatKinds(CharAt(format, 1), args);
    } else {
      hide HasKinds, Groups;
      var w := Width(format[0]);
      AtomKinds(format[0], args[..w]);
      ShapedKinds(format[1..], args[w..]);
      var later := Promise(format[1..]).value;
      KindsInFront(args, KindsOf(format[0]), later.fixed, later.more);
      assert format[0] == 'I' ==> KindsOf('I') + later.fixed == later.fixed;
    }
  }

  // ---- The formats of the table ----

  predicate Promises(format: string, fixed: seq<Kind>, more: seq<Kind>) {
    Promise(format).Some? && Promise(format).value.fixed == fixed && Promise(format).value.more == more
  }

  lemma LastPromises()
    ensures Promises("", [], []) && Promises(":", [TextKind], []) && Promises(".", [], [TextKind])
    ensures Promises("vs", [TextKind], [TextKind]) && Promises("vC", [ContactKind, ModeKind], [ContactKind, ModeKind])
  {
  }

  /** One more character in front of a format. */
  lemma InFront(format: string, later: string, fixed: seq<Kind>, more: seq<Kind>)
    requires format != "" && IsAtom(format[0]) && format == [format[0]] + later && Promises(later, fixed, more)
    ensures Promises(format, KindsOf(format[0]) + fixed, more)
  {
    assert format[1..] == later;
    assert [] + fixed == fixed;
  }

  /** The words before the parameters of a reply. */
  lemma ReplyInFront(format: string, later: string, fixed: seq<Kind>, more: seq<Kind>)
    requires format == "III" + later && Promises(later, fixed, more)
    ensures Promises(format, fixed, more)
  {
    hide Promise;
    InFront("I" + later, later, fixed, more);
    InFront("II" + later, "I" + later, fixed, more);
    InFront(format, "II" + later, fixed, more);
    assert KindsOf('I') + fixed == fixed;
  }

  lemma OneAtom()
    ensures Promises("I", [], [])
    ensures Promises("r", [RoomKind], [])
    ensures Promises("c", [ContactKind], [])
    ensures Promises("d", [NumberKind], [])
  {
    hide Promise;
    LastPromises();
    InFront("I", "", [], []);
    InFront("r", "", [], []);
    InFront("c", "", [], []);
    InFront("d", "", [], []);
  }

  lemma OneAtomAndText()
    ensures Promises("I:", [TextKind], [])
    ensures Promises("r:", [RoomKind, TextKind], [])
    ensures Promises("c:", [ContactKind, TextKind], [])
    ensures Promises("s:", [TextKind, TextKind], [])
  {
    hide Promise;
    LastPromises();
    InFront("I:", ":", [TextKind], []);
    InFront("r:", ":", [TextKind], []);
    InFront("c:", ":", [TextKind], []);
    InFront("s:", ":", [TextKind], []);
  }

  lemma OneAtomAndMore()
    ensures Promises("I.", [], [TextKind])
    ensures Promises("r.", [RoomKind], [TextKind])
    ensures Promises("c.", [ContactKind], [TextKind])
    ensures Promises("s.", [TextKind], [TextKind])
    ensures Promises("d.", [NumberKind], [TextKind])
  {
    hide Promise;
    LastPromises();
    InFront("I.", ".", [], [TextKind]);
    InFront("r.", ".", [], [TextKind]);
    InFront("c.", ".", [], [TextKind]);
    InFront("s.", ".", [], [TextKind]);
    InFront("d.", ".", [], [TextKind]);
  }

  lemma OneText()
    ensures Promises("s", [TextKind], [])
  {
    hide Promise;
    LastPromises();
    InFront("s", "", [], []);
  }

  lemma TwoAtoms()
    ensures Promises("Ir", [RoomKind], [])
    ensures Promises("Ic", [ContactKind], [])
    ensures Promises("Is", [TextKind], [])
    ensures Promises("cr", [ContactKind, RoomKind], [])
    ensures Promises("cd", [ContactKind, NumberKind], [])
  {
    hide Promise;
    OneAtom();
    OneText();
    InFront("Ir", "r", [RoomKind], []);
    InFront("Ic", "c", [ContactKind], []);
    InFront("Is", "s", [TextKind], []);
    InFront("cr", "r", [RoomKind], []);
    InFront("cd", "d", [NumberKind], []);
  }

  lemma TwoAtomsAndText()
    ensures Promises("Ir:", [RoomKind, TextKind], [])
    ensures Promises("Ic:", [ContactKind, TextKind], [])
    ensures Promises("cs:", [ContactKind, TextKind, TextKind], [])
    ensures Promises("sI:", [TextKind, TextKind], [])
  {
    hide Promise;
    OneAtomAndText();
    InFront("Ir:", "r:", [RoomKind, TextKind], []);
    InFront("Ic:", "c:", [ContactKind, TextKind], []);
    InFront("cs:", "s:", [TextKind, TextKind], []);
    InFront("sI:", "I:", [TextKind], []);
  }

  lemma TwoAtomsAndMore()
    ensures Promises("Ir.", [RoomKind], [TextKind])
    ensures Promises("Is.", [TextKind], [TextKind])
    ensures Promises("rc.", [RoomKind, ContactKind], [TextKind])
    ensures Promises("rd.", [RoomKind, NumberKind], [TextKind])
  {
    hide Promise;
    OneAtomAndMore();
    InFront("Ir.", "r.", [RoomKind], [TextKind]);
    InFront("Is.", "s.", [TextKind], [TextKind]);
    InFront("rc.", "c.", [ContactKind], [TextKind]);
    InFront("rd.", "d.", [NumberKind], [TextKind]);
  }

  lemma Repeated()
    ensures Promises("rvs", [RoomKind, TextKind], [TextKind])
    ensures Promises("cvs", [ContactKind, TextKind], [TextKind])
    ensures Promises("rvC", [RoomKind, ContactKind, ModeKind], [ContactKind, ModeKind])
  {
    hide Promise;
    LastPromises();
    InFront("rvs", "vs", [TextKind], [TextKind]);
    InFront("cvs", "vs", [TextKind], [TextKind]);
    InFront("rvC", "vC", [ContactKind, ModeKind], [ContactKind, ModeKind]);
  }

  lemma ThreeAtoms()
    ensures Promises("Icr", [ContactKind, RoomKind], [])
    ensures Promises("IIc", [ContactKind], [])
    ensures Promises("rcd", [RoomKind, ContactKind, NumberKind], [])
  {
    hide Promise;
    TwoAtoms();
    InFront("Icr", "cr", [ContactKind, RoomKind], []);
    InFront("IIc", "Ic", [ContactKind], []);
    InFront("rcd", "cd", [ContactKind, NumberKind], []);
  }

  lemma LongTails()
    ensures Promises("ssI:", [TextKind, TextKind, TextKind], [])
    ensures Promises("Irc.", [RoomKind, ContactKind], [TextKind])
    ensures Promises("Irvs", [RoomKind, TextKind], [TextKind])
    ensures Promises("Icvs", [ContactKind, TextKind], [TextKind])
    ensures Promises("IrvC", [RoomKind, ContactKind, ModeKind], [ContactKind, ModeKind])
  {
    hide Promise;
    TwoAtomsAndText();
    TwoAtomsAndMore();
    Repeated();
    InFront("ssI:", "sI:", [TextKind, TextKind], []);
    InFront("Irc.", "rc.", [RoomKind, ContactKind], [TextKind]);
    InFront("Irvs", "rvs", [RoomKind, TextKind], [TextKind]);
    InFront("Icvs", "cvs", [ContactKind, TextKind], [TextKind]);
    InFront("IrvC", "rvC", [RoomKind, ContactKind, ModeKind], [ContactKind, ModeKind]);
  }

  lemma BarePromises()
    ensures Promises("cIr", [ContactKind, RoomKind], [])
    ensures Promises("cIc", [ContactKind, ContactKind], [])
    ensures Promises("cI.", [ContactKind], [TextKind])
    ensures Promises("cIcr", [ContactKind, ContactKind, RoomKind], [])
  {
    hide Promise;
    TwoAtoms();
    OneAtomAndMore();
    ThreeAtoms();
    InFront("cIr", "Ir", [RoomKind], []);
    InFront("cIc", "Ic", [ContactKind], []);
    InFront("cI.", "I.", [], [TextKind]);
    InFront("cIcr", "Icr", [ContactKind, RoomKind], []);
  }

  lemma TrailPromises()
    ensures Promises("cIr:", [ContactKind, RoomKind, TextKind], [])
    ensures Promises("cIc:", [ContactKind, ContactKind, TextKind], [])
    ensures Promises("cIr.", [ContactKind, RoomKind], [TextKind])
    ensures Promises("IIs.", [TextKind], [TextKind])
    ensures Promises("cIrc.", [ContactKind, RoomKind, ContactKind], [TextKind])
  {
    hide Promise;
    TwoAtomsAndText();
    TwoAtomsAndMore();
    LongTails();
    InFront("cIr:", "Ir:", [RoomKind, TextKind], []);
    InFront("cIc:", "Ic:", [ContactKind, TextKind], []);
    InFront("cIr.", "Ir.", [RoomKind], [TextKind]);
    InFront("IIs.", "Is.", [TextKind], [TextKind]);
    InFront("cIrc.", "Irc.", [RoomKind, ContactKind], [TextKind]);
  }

  lemma RepeatPromises()
    ensures Promises("IIrvs", [RoomKind, TextKind], [TextKind])
    ensures Promises("IIcvs", [ContactKind, TextKind], [TextKind])
  {
    hide Promise;
    LongTails();
    InFront("IIrvs", "Irvs", [RoomKind, TextKind], [TextKind]);
    InFront("IIcvs", "Icvs", [ContactKind, TextKind], [TextKind]);
  }

  lemma NamePromises()
    ensures Promises("III", [], [])
    ensures Promises("IIIr", [RoomKind], [])
    ensures Promises("IIIc", [ContactKind], [])
    ensures Promises("IIIcd", [ContactKind, NumberKind], [])
    ensures Promises("IIIrcd", [RoomKind, ContactKind, NumberKind], [])
  {
    hide Promise;
    LastPromises();
    OneAtom();
    TwoAtoms();
    ThreeAtoms();
    ReplyInFront("III", "", [], []);
    ReplyInFront("IIIr", "r", [RoomKind], []);
    ReplyInFront("IIIc", "c", [ContactKind], []);
    ReplyInFront("IIIcd", "cd", [ContactKind, NumberKind], []);
    ReplyInFront("IIIrcd", "rcd", [RoomKind, ContactKind, NumberKind], []);
  }

  lemma ReplyPromises()
    ensures Promises("IIIr:", [RoomKind, TextKind], [])
    ensures Promises("IIIc:", [ContactKind, TextKind], [])
    ensures Promises("IIIs:", [TextKind, TextKind], [])
    ensures Promises("IIIc.", [ContactKind], [TextKind])
    ensures Promises("IIIcs:", [ContactKind, TextKind, TextKind], [])
    ensures Promises("IIIrd.", [RoomKind, NumberKind], [TextKind])
  {
    hide Promise;
    OneAtomAndText();
    OneAtomAndMore();
    TwoAtomsAndText();
    TwoAtomsAndMore();
    ReplyInFront("IIIr:", "r:", [RoomKind, TextKind], []);
    ReplyInFront("IIIc:", "c:", [ContactKind, TextKind], []);
    ReplyInFront("IIIs:", "s:", [TextKind, TextKind], []);
    ReplyInFront("IIIc.", "c.", [ContactKind], [TextKind]);
    ReplyInFront("IIIcs:", "cs:", [ContactKind, TextKind, TextKind], []);
    ReplyInFront("IIIrd.", "rd.", [RoomKind, NumberKind], [TextKind]);
  }

  lemma ListPromises()
    ensures Promises("IIIrvs", [RoomKind, TextKind], [TextKind])
    ensures Promises("IIIIrvC", [RoomKind, ContactKind, ModeKind], [ContactKind, ModeKind])
  {
    hide Promise;
    Repeated();
    LongTails();
    ReplyInFront("IIIrvs", "rvs", [RoomKind, TextKind], [TextKind]);
    ReplyInFront("IIIIrvC", "IrvC", [RoomKind, ContactKind, ModeKind], [ContactKind, ModeKind]);
  }

  lemma UserPromise()
    ensures Promises("IIIcssI:", [ContactKind, TextKind, TextKind, TextKind], [])
  {
    hide Promise;
    LongTails();
    InFront("cssI:", "ssI:", [TextKind, TextKind, TextKind], []);
    ReplyInFront("IIIcssI:", "cssI:", [ContactKind, TextKind, TextKind, TextKind], []);
  }

  /** What every format of the table promises. */
  lemma FormatPromises()
    ensures Promises("I", [], [])
    ensures Promises("I:", [TextKind], [])
    ensures Promises("Is", [TextKind], [])
    ensures Promises("IIc", [ContactKind], [])
    ensures Promises("cIr", [ContactKind, RoomKind], [])
    ensures Promises("cIc", [ContactKind, ContactKind], [])
    ensures Promises("cI.", [ContactKind], [TextKind])
    ensures Promises("cIcr", [ContactKind, ContactKind, RoomKind], [])
    ensures Promises("cIr:", [ContactKind, RoomKind, TextKind], [])
    ensures Promises("cIc:", [ContactKind, ContactKind, TextKind], [])
    ensures Promises("cIr.", [ContactKind, RoomKind], [TextKind])
    ensures Promises("IIs.", [TextKind], [TextKind])
    ensures Promises("cIrc.", [ContactKind, RoomKind, ContactKind], [TextKind])
    ensures Promises("IIrvs", [RoomKind, TextKind], [TextKind])
    ensures Promises("IIcvs", [ContactKind, TextKind], [TextKind])
    ensures Promises("III", [], [])
    ensures Promises("IIIr", [RoomKind], [])
    ensures Promises("IIIc", [ContactKind], [])
    ensures Promises("IIIcd", [ContactKind, NumberKind], [])
    ensures Promises("IIIrcd", [RoomKind, ContactKind, NumberKind], [])
    ensures Promises("IIIr:", [RoomKind, TextKind], [])
    ensures Promises("IIIc:", [ContactKind, TextKind], [])
    ensures Promises("IIIs:", [TextKind, TextKind], [])
    ensures Promises("IIIc.", [ContactKind], [TextKind])
    ensures Promises("IIIcs:", [ContactKind, TextKind, TextKind], [])
    ensures Promises("IIIrd.", [RoomKind, NumberKind], [TextKind])
    ensures Promises("IIIrvs", [RoomKind, TextKind], [TextKind])
    ensures Promises("IIIIrvC", [RoomKind, ContactKind, ModeKind], [ContactKind, ModeKind])
    ensures Promises("IIIcssI:", [ContactKind, TextKind, TextKind, TextKind], [])
  {
    hide Promise;
    OneAtom();
    OneAtomAndText();
    TwoAtoms();
    ThreeAtoms();
    BarePromises();
    TrailPromises();
    RepeatPromises();
    NamePromises();
    ReplyPromises();
    ListPromises();
    UserPromise();
  }

  /** Every entry of the table has a format the interpreter can run. */
  lemma SpecsAreGood(i: nat)
    requires i < SPEC_COUNT
    ensures GoodFormat(MessageSpec(i).format)
  {
    hide GoodFormat, Promise;
    PromiseIsGood(MessageSpec(i).format);
    FormatPromises();
  }

  /** Where the format promises a handle and then one text or more. */
  lemma TextsFrom1(args: seq<Value>)
    requires HasKinds(args, [RoomKind, TextKind]) && Groups(args, 2, [TextKind])
    ensures HandleAt(args, 0, Room) && forall i :: 1 <= i < |args| ==> TextAt(args, i)
  {
    assert HasKind(args[0], [RoomKind, TextKind][0]) && HasKind(args[1], [RoomKind, TextKind][1]);
    forall i | 2 <= i < |args| ensures TextAt(args, i) {
      assert HasKind(args[i], [TextKind][(i - 2) % 1]);
    }
  }

  /** Where it promises a room and then one member or more. */
  lemma RoomAndMembers(args: seq<Value>)
    requires HasKinds(args, [RoomKind, ContactKind, ModeKind]) && Groups(args, 3, [ContactKind, ModeKind])
    ensures HandleAt(args, 0, Room) && |args| % 2 == 1 && MembersFrom1(args)
  {
    var fixed, more := [RoomKind, ContactKind, ModeKind], [ContactKind, ModeKind];
    assert HasKind(args[0], fixed[0]) && HasKind(args[1], fixed[1]) && HasKind(args[2], fixed[2]);
    forall i | 3 <= i < |args| && i % 2 == 1
      ensures HandleAt(args, i, Contact) && i + 1 < |args| && args[i + 1].ModeChar?
    {
      assert HasKind(args[i], more[(i - 3) % 2]) && HasKind(args[i + 1], more[(i + 1 - 3) % 2]);
    }
  }

  lemma CommandsAreServed(i: nat, args: seq<Value>)
    requires i < SPEC_COUNT && i < 16 && Shaped(MessageSpec(i).format, args)
    ensures HandlerReads(MessageSpec(i).code, args)
  {
    hide GoodFormat, Promise, Shaped, MembersFrom1;
    FormatPromises();
    ShapedKinds(MessageSpec(i).format, args);
    match MessageSpec(i).code
    case ModeChannel => TextsFrom1(args);
    case _ =>
  }

  lemma RepliesAreServed(i: nat, args: seq<Value>)
    requires i < SPEC_COUNT && 16 <= i < 28 && Shaped(MessageSpec(i).format, args)
    ensures HandlerReads(MessageSpec(i).code, args)
  {
    hide GoodFormat, Promise, Shaped, MembersFrom1;
    FormatPromises();
    ShapedKinds(MessageSpec(i).format, args);
    match MessageSpec(i).code
    case NumModeReply => TextsFrom1(args);
    case NumNameReply => RoomAndMembers(args);
    case _ =>
  }

  lemma MoreRepliesAreServed(i: nat, args: seq<Value>)
    requires i < SPEC_COUNT && 28 <= i < 40 && Shaped(MessageSpec(i).format, args)
    ensures HandlerReads(MessageSpec(i).code, args)
  {
    hide GoodFormat, Promise, Shaped, MembersFrom1;
    FormatPromises();
    ShapedKinds(MessageSpec(i).format, args);
  }

  lemma LastRepliesAreServed(i: nat, args: seq<Value>)
    requires i < SPEC_COUNT && 40 <= i && Shaped(MessageSpec(i).format, args)
    ensures HandlerReads(MessageSpec(i).code, args)
  {
    hide GoodFormat, Promise, Shaped, MembersFrom1;
    FormatPromises();
    ShapedKinds(MessageSpec(i).format, args);
  }

  /** For every entry of the table, arguments of the promised shape satisfy every
      positional access of its handlers. */
  lemma HandlersAreServed(i: nat, args: seq<Value>)
    requires i < SPEC_COUNT && Shaped(MessageSpec(i).format, args)
    ensures HandlerReads(MessageSpec(i).code, args)
  {
    hide Shaped, HandlerReads, MessageSpec;
    if i < 16 {
      CommandsAreServed(i, args);
    } else if i < 28 {
      RepliesAreServed(i, args);
    } else if i < 40 {
      MoreRepliesAreServed(i, args);
    } else {
      LastRepliesAreServed(i, args);
    }
  }
}
