/** Channel modes and the permissions derived from them (`idle-muc-channel.c`). */
module Modes {
  import opened Wrappers
  import Parser

  /** One bit of the source's mode flags. */
  datatype Flag =
    | Creator | Operator | Voice | Anonymous | InviteOnly | Moderated | NoOutsideMessages | Quiet
    | Private | Secret | ServerReop | TopicByOps | Key | UserLimit | HalfOp

  type Flags = set<Flag>

  /** The bits in the order in which the source visits them. */
  const ALL_FLAGS: seq<Flag> := [
    Creator, Operator, Voice, Anonymous, InviteOnly, Moderated, NoOutsideMessages, Quiet,
    Private, Secret, ServerReop, TopicByOps, Key, UserLimit, HalfOp]

  lemma PlaceOfFlag(i: nat)
    requires i < |ALL_FLAGS|
    ensures ALL_FLAGS[i].InviteOnly? <==> i == 4
    ensures ALL_FLAGS[i].Moderated? <==> i == 5
    ensures ALL_FLAGS[i].Private? <==> i == 8
    ensures ALL_FLAGS[i].Secret? <==> i == 9
    ensures ALL_FLAGS[i].Key? <==> i == 12
    ensures ALL_FLAGS[i].UserLimit? <==> i == 13
  {
  }

  predicate Has(flags: Flags, f: Flag) {
    f in flags
  }

  predicate HasOps(flags: Flags) {
    Operator in flags || HalfOp in flags
  }

  /** Three of the group flags, kept by the group mixin. */
  datatype Group = Group(canAdd: bool, canRemove: bool, messageRemove: bool)

  /** The properties of the room configuration. */
  datatype Config = Config(
    canUpdate: bool, inviteOnly: bool, moderated: bool,
    limit: int, passwordProtected: bool, password: Option<string>, isPrivate: bool)

  /** The mode state of a channel, and what is maintained beside it: the subject
      permission, the group flags and the room configuration. */
  datatype Room = Room(
    flags: Flags, limit: int, key: Option<string>, canSetTopic: bool, group: Group, config: Config)

  const FRESH := Room({}, 0, None, true, Group(false, false, false), Config(false, false, false, 0, false, None, false))

  /** The bits that come with a change, and those that go; additions win over removals. */
  function Adding(flags: Flags, add: Flags): Flags {
    add - flags
  }

  function Removing(flags: Flags, add: Flags, remove: Flags): Flags {
    (remove - add) * flags
  }

  function Either(a: Flags, b: Flags): Flags {
    a + b
  }

  /** The flags after a change. */
  function NewFlags(flags: Flags, add: Flags, remove: Flags): Flags {
    (flags + add) - (remove - add)
  }

  /** Whether we may set the subject, after `adding` came and `removing` went. */
  predicate TopicAfter(flags: Flags, adding: Flags, removing: Flags, newFlags: Flags, before: bool) {
    if HasOps(Either(adding, removing)) then
      if Has(newFlags, TopicByOps) then HasOps(adding) else before
    else if Has(Either(adding, removing), TopicByOps) && !HasOps(flags) then !Has(adding, TopicByOps)
    else before
  }

  /** Whether we may invite: the group flag is added first and removed afterwards. */
  predicate CanAddAfter(adding: Flags, removing: Flags, newFlags: Flags, before: bool) {
    (before || (!Has(adding, InviteOnly) && Has(removing, InviteOnly)) || HasOps(adding))
    && !(Has(adding, InviteOnly) && !HasOps(newFlags))
    && !(!HasOps(adding) && HasOps(removing) && Has(newFlags, InviteOnly))
  }

  /** What comes and goes with operator privilege. */
  predicate OpsAfter(adding: Flags, removing: Flags, before: bool) {
    HasOps(adding) || (before && !HasOps(removing))
  }

  /** A property that mirrors one bit. */
  predicate MirrorAfter(f: Flag, adding: Flags, removing: Flags, before: bool) {
    if Has(Either(adding, removing), f) then Has(adding, f) else before
  }

  predicate PrivateAfter(adding: Flags, removing: Flags, before: bool) {
    MirrorAfter(Secret, adding, removing, MirrorAfter(Private, adding, removing, before))
  }

  function LimitAfter(adding: Flags, removing: Flags, limit: int, before: int): int {
    if Has(Either(adding, removing), UserLimit) then (if Has(adding, UserLimit) then limit else 0) else before
  }

  function PasswordAfter(adding: Flags, key: Option<string>, before: Option<string>): Option<string> {
    if Has(adding, Key) then key else before
  }

  function GroupAfter(group: Group, adding: Flags, removing: Flags, newFlags: Flags): Group {
    Group(CanAddAfter(adding, removing, newFlags, group.canAdd),
          OpsAfter(adding, removing, group.canRemove),
          OpsAfter(adding, removing, group.messageRemove))
  }

  function ConfigAfter(config: Config, adding: Flags, removing: Flags, limit: int, key: Option<string>): Config {
    Config(OpsAfter(adding, removing, config.canUpdate),
           MirrorAfter(InviteOnly, adding, removing, config.inviteOnly),
           MirrorAfter(Moderated, adding, removing, config.moderated),
           LimitAfter(adding, removing, limit, config.limit),
           MirrorAfter(Key, adding, removing, config.passwordProtected),
           PasswordAfter(adding, key, config.password),
           PrivateAfter(adding, removing, config.isPrivate))
  }

  /** `change_mode_state`. */
  function ChangeMode(r: Room, add: Flags, remove: Flags): Room {
    var adding := Adding(r.flags, add);
    var removing := Removing(r.flags, add, remove);
    var flags := NewFlags(r.flags, add, remove);
    r.(flags := flags,
       canSetTopic := TopicAfter(r.flags, adding, removing, flags, r.canSetTopic),
       group := GroupAfter(r.group, adding, removing, flags),
       config := ConfigAfter(r.config, adding, removing, r.limit, r.key))
  }

  lemma HasEither(a: Flags, b: Flags)
    ensures HasOps(Either(a, b)) <==> HasOps(a) || HasOps(b)
    ensures forall f :: Has(Either(a, b), f) <==> Has(a, f) || Has(b, f)
  {
  }

  // ---- Permissions agree with flags ----

  predicate Consistent(r: Room) {
    && r.canSetTopic == (TopicByOps !in r.flags || HasOps(r.flags))
    && r.group.canAdd == (InviteOnly !in r.flags || HasOps(r.flags))
    && r.group.canRemove == HasOps(r.flags)
    && r.group.messageRemove == HasOps(r.flags)
    && r.config.canUpdate == HasOps(r.flags)
    && r.config.inviteOnly == (InviteOnly in r.flags)
    && r.config.moderated == (Moderated in r.flags)
  }

  /** The changes that occur: a MODE run adds only or removes only, and a NAMES entry
      concerns our own status. */
  predicate Occurs(add: Flags, remove: Flags) {
    add == {} || remove == {} || add + remove <= {Operator, HalfOp, Voice}
  }

  /** One of operator and half-operator goes, none comes, and the other one stays. */
  predicate LosesOneOfTwo(flags: Flags, add: Flags, remove: Flags) {
    && HasOps((remove - add) * flags)
    && !HasOps(add - flags)
    && HasOps(NewFlags(flags, add, remove))
  }

  /** The incremental updates keep the permissions right exactly when the change does
      not take one of two operator privileges. */
  lemma ChangeKeepsConsistent(r: Room, add: Flags, remove: Flags)
    requires Consistent(r) && Occurs(add, remove)
    ensures Consistent(ChangeMode(r, add, remove)) <==> !LosesOneOfTwo(r.flags, add, remove)
  {
  }

  /** What the exception amounts to: we hold both privileges and one of them goes. */
  lemma LosesOneMeansHasBoth(flags: Flags, add: Flags, remove: Flags)
    ensures LosesOneOfTwo(flags, add, remove) <==>
              Operator in flags && HalfOp in flags && ((Operator in remove - add) != (HalfOp in remove - add))
  {
  }

  /** And then every right of operators goes, the one to invite and the one to set the subject
      where the modes reserve them; all else agrees with the flags. */
  lemma LosingOneLosesRights(r: Room, add: Flags, remove: Flags)
    requires Consistent(r) && Occurs(add, remove) && LosesOneOfTwo(r.flags, add, remove)
    ensures var t := ChangeMode(r, add, remove);
      && !t.group.canRemove && !t.group.messageRemove && !t.config.canUpdate
      && t.group.canAdd == (InviteOnly !in t.flags) && t.canSetTopic == (TopicByOps !in t.flags)
      && t.config.inviteOnly == (InviteOnly in t.flags) && t.config.moderated == (Moderated in t.flags)
  {
  }

  // ---- Mode strings ----

  /** What a mode string has collected for the letters with a value. */
  datatype Registers = Registers(limit: int, key: Option<string>)

  /** What one letter does: the flag it names, the parameters it consumes, and the
      registers after it. */
  datatype Letter = Letter(flag: Flags, used: nat, reg: Registers)

  /** `strtol (..., 10)` where something was converted. */
  function ParseLimit(s: string): Option<int> {
    match Parser.ScanInt(s)
    case Some(Number(Some(n))) => Some(n)
    case _ => None
  }

  predicate IsSign(c: char) {
    c == '+' || c == '-'
  }

  /** One letter of a mode string; `self` says which names are our own handle. */
  function ReadLetter(c: char, operation: char, reg: Registers, params: seq<string>, self: string -> bool): (l: Letter)
    ensures l.used <= |params|
  {
    match c
    case 'o' => ReadStatus(Operator, reg, params, self)
    case 'h' => ReadStatus(HalfOp, reg, params, self)
    case 'v' => ReadStatus(Voice, reg, params, self)
    case 'l' =>
      if operation == '+' && params != [] then
        Letter({UserLimit}, 1, match ParseLimit(params[0]) { case Some(n) => reg.(limit := n) case None => reg })
      else Letter({UserLimit}, 0, reg)
    case 'k' =>
      if operation == '+' && params != [] then Letter({Key}, 1, reg.(key := Some(params[0]))) else Letter({Key}, 0, reg)
    case 'a' => Letter({Anonymous}, 0, reg)
    case 'i' => Letter({InviteOnly}, 0, reg)
    case 'm' => Letter({Moderated}, 0, reg)
    case 'n' => Letter({NoOutsideMessages}, 0, reg)
    case 'q' => Letter({Quiet}, 0, reg)
    case 'p' => Letter({Private}, 0, reg)
    case 's' => Letter({Secret}, 0, reg)
    case 'r' => Letter({ServerReop}, 0, reg)
    case 't' => Letter({TopicByOps}, 0, reg)
    case _ => Letter({}, 0, reg)
  }

  function ReadStatus(f: Flag, reg: Registers, params: seq<string>, self: string -> bool): Letter {
    if params == [] then Letter({}, 0, reg) else Letter(if self(params[0]) then {f} else {}, 1, reg)
  }

  /** The end of a run of letters of one sign. */
  function Commit(r: Room, operation: char, accum: Flags, reg: Registers): Room {
    var r1 := if Key in accum then r.(key := reg.key) else r;
    var r2 := if UserLimit in accum then r1.(limit := reg.limit) else r1;
    if operation == '+' then ChangeMode(r2, accum, {}) else ChangeMode(r2, {}, accum)
  }

  /** A room and the parameters still unread. */
  datatype Progress = Progress(room: Room, params: seq<string>)

  /** A mode string as the source reads it, run by run. */
  function ReadRuns(r: Room, modes: string, operation: char, accum: Flags, reg: Registers,
                    params: seq<string>, self: string -> bool): (p: Progress)
    ensures |p.params| <= |params|
    decreases |modes|
  {
    if modes == "" then Progress(Commit(r, operation, accum, reg), params)
    else if IsSign(modes[0]) then
      if modes[0] == operation then ReadRuns(r, modes[1..], operation, accum, reg, params, self)
      else ReadRuns(Commit(r, operation, accum, reg), modes[1..], modes[0], {}, reg, params, self)
    else
      var l := ReadLetter(modes[0], operation, reg, params, self);
      ReadRuns(r, modes[1..], operation, accum + l.flag, l.reg, params[l.used..], self)
  }

  const NO_REGISTERS := Registers(0, None)

  /** `idle_muc_channel_mode` on the strings of its arguments. */
  function ReadModes(r: Room, args: seq<string>, self: string -> bool): Room
    decreases |args|
  {
    if args == [] then r
    else if args[0] == "" || !IsSign(args[0][0]) then ReadModes(r, args[1..], self)
    else
      var p := ReadRuns(r, args[0], args[0][0], {}, NO_REGISTERS, args[1..], self);
      ReadModes(p.room, p.params, self)
  }

  // ---- Letter by letter ----

  /** The mode state alone. */
  datatype Core = Core(flags: Flags, limit: int, key: Option<string>)

  function CoreOf(r: Room): Core {
    Core(r.flags, r.limit, r.key)
  }

  /** The source's rule for a letter, applied at once instead of in a batch. */
  function ApplyLetter(c: Core, operation: char, flag: Flags, reg: Registers): Core {
    Core(if operation == '+' then c.flags + flag else c.flags - flag,
         if UserLimit in flag then reg.limit else c.limit,
         if Key in flag then reg.key else c.key)
  }

  datatype CoreProgress = CoreProgress(core: Core, params: seq<string>)

  function ApplyLetters(c: Core, modes: string, operation: char, reg: Registers,
                        params: seq<string>, self: string -> bool): (p: CoreProgress)
    ensures |p.params| <= |params|
    decreases |modes|
  {
    if modes == "" then CoreProgress(c, params)
    else if IsSign(modes[0]) then ApplyLetters(c, modes[1..], modes[0], reg, params, self)
    else
      var l := ReadLetter(modes[0], operation, reg, params, self);
      ApplyLetters(ApplyLetter(c, operation, l.flag, l.reg), modes[1..], operation, l.reg, params[l.used..], self)
  }

  function ApplyModes(c: Core, args: seq<string>, self: string -> bool): Core
    decreases |args|
  {
    if args == [] then c
    else if args[0] == "" || !IsSign(args[0][0]) then ApplyModes(c, args[1..], self)
    else
      var p := ApplyLetters(c, args[0], args[0][0], NO_REGISTERS, args[1..], self);
      ApplyModes(p.core, p.params, self)
  }

  lemma CoreOfChange(r: Room, accum: Flags)
    ensures CoreOf(ChangeMode(r, accum, {})) == CoreOf(r).(flags := r.flags + accum)
    ensures CoreOf(ChangeMode(r, {}, accum)) == CoreOf(r).(flags := r.flags - accum)
  {
  }

  lemma CoreOfCommit(r: Room, operation: char, accum: Flags, reg: Registers)
    ensures CoreOf(Commit(r, operation, accum, reg)) == ApplyLetter(CoreOf(r), operation, accum, reg)
  {
    hide ChangeMode;
    var r1 := if Key in accum then r.(key := reg.key) else r;
    var r2 := if UserLimit in accum then r1.(limit := reg.limit) else r1;
    CoreOfChange(r2, accum);
  }

  /** A letter leaves alone the registers it does not name. */
  lemma LetterKeepsRegisters(c: char, operation: char, reg: Registers, params: seq<string>, self: string -> bool)
    ensures var l := ReadLetter(c, operation, reg, params, self);
      && (UserLimit !in l.flag ==> l.reg.limit == reg.limit)
      && (Key !in l.flag ==> l.reg.key == reg.key)
  {
    hide ParseLimit;
  }

  /** Two letters of one sign, and one batch of both. */
  lemma BatchOfTwo(c: Core, operation: char, accum: Flags, reg: Registers, flag: Flags, reg': Registers)
    requires UserLimit !in flag ==> reg'.limit == reg.limit
    requires Key !in flag ==> reg'.key == reg.key
    ensures ApplyLetter(ApplyLetter(c, operation, accum, reg), operation, flag, reg')
         == ApplyLetter(c, operation, accum + flag, reg')
  {
  }

  /** Reading run by run, with `accum` collected so far, is reading letter by letter
      with `accum` already applied. */
  lemma {:induction false} RunsAreLetters(r: Room, modes: string, operation: char, accum: Flags, reg: Registers,
                                          params: seq<string>, self: string -> bool)
    ensures var batch := ReadRuns(r, modes, operation, accum, reg, params, self);
      var single := ApplyLetters(ApplyLetter(CoreOf(r), operation, accum, reg), modes, operation, reg, params, self);
      CoreOf(batch.room) == single.core && batch.params == single.params
    decreases |modes|
  {
    hide ReadLetter, ChangeMode, CoreOf, ApplyLetter, Commit;
    if modes == "" {
      CoreOfCommit(r, operation, accum, reg);
    } else if IsSign(modes[0]) {
      if modes[0] == operation {
        RunsAreLetters(r, modes[1..], operation, accum, reg, params, self);
      } else {
        var r' := Commit(r, operation, accum, reg);
        RunsAreLetters(r', modes[1..], modes[0], {}, reg, params, self);
        CoreOfCommit(r, operation, accum, reg);
        NoLetter(CoreOf(r'), modes[0], reg);
      }
    } else {
      var l := ReadLetter(modes[0], operation, reg, params, self);
      RunsAreLetters(r, modes[1..], operation, accum + l.flag, l.reg, params[l.used..], self);
      LetterKeepsRegisters(modes[0], operation, reg, params, self);
      BatchOfTwo(CoreOf(r), operation, accum, reg, l.flag, l.reg);
    }
  }

  lemma NoLetter(c: Core, operation: char, reg: Registers)
    ensures ApplyLetter(c, operation, {}, reg) == c
  {
  }

  /** The batched reading of a MODE message ends in the state that applying every sign,
      letter and parameter one at a time ends in. */
  lemma {:induction false} ModesAreLetters(r: Room, args: seq<string>, self: string -> bool)
    ensures CoreOf(ReadModes(r, args, self)) == ApplyModes(CoreOf(r), args, self)
    decreases |args|
  {
    hide ReadRuns, ApplyLetters, CoreOf;
    if args != [] {
      if args[0] == "" || !IsSign(args[0][0]) {
        ModesAreLetters(r, args[1..], self);
      } else {
        RunsAreLetters(r, args[0], args[0][0], {}, NO_REGISTERS, args[1..], self);
        NoLetter(CoreOf(r), args[0][0], NO_REGISTERS);
        var p := ReadRuns(r, args[0], args[0][0], {}, NO_REGISTERS, args[1..], self);
        ModesAreLetters(p.room, p.params, self);
      }
    }
  }

  // ---- Rooms over time ----

  /** What a NAMES entry for ourselves adds; all other status flags go. */
  function NamesAdd(modechar: char): Flags {
    if modechar == '@' || modechar == '&' then {Operator} else if modechar == '+' then {Voice} else {}
  }

  const STATUS: Flags := {Operator, Voice, HalfOp}

  /** One entry of a NAMES reply: whether it is ours, and its mode character. */
  datatype Name = Name(ours: bool, modechar: char)

  function ReadNames(r: Room, names: seq<Name>): Room
    decreases |names|
  {
    if names == [] then r
    else
      var add := NamesAdd(names[0].modechar);
      ReadNames(if names[0].ours then ChangeMode(r, add, STATUS - add) else r, names[1..])
  }

  /** Our own JOIN; a channel without modes counts as having +t. */
  function SelfJoin(r: Room, plusChannel: bool): Room {
    var joined := r.(group := r.group.(canAdd := true));
    if plusChannel then ChangeMode(joined, {TopicByOps}, {}) else joined
  }

  datatype RoomEvent = ModeChange(args: seq<string>) | NamesReply(names: seq<Name>)

  function RoomStep(r: Room, e: RoomEvent, self: string -> bool): Room {
    match e
    case ModeChange(args) => ReadModes(r, args, self)
    case NamesReply(names) => ReadNames(r, names)
  }

  function RoomRun(r: Room, events: seq<RoomEvent>, self: string -> bool): Room
    decreases |events|
  {
    if events == [] then r else RoomRun(RoomStep(r, events[0], self), events[1..], self)
  }

  /** One call of `change_mode_state`, with what comes right before it. */
  datatype Change =
    | Run(before: Room, operation: char, accum: Flags, reg: Registers)
    | Status(before: Room, add: Flags)
  {
    function After(): Room {
      match this
      case Run(r, operation, accum, reg) => Commit(r, operation, accum, reg)
      case Status(r, add) => ChangeMode(r, add, STATUS - add)
    }
  }

  /** The changes that a mode string, a message and a sequence of messages make, in order. */
  function RunsOf(r: Room, modes: string, operation: char, accum: Flags, reg: Registers,
                  params: seq<string>, self: string -> bool): seq<Change>
    decreases |modes|
  {
    if modes == "" then [Run(r, operation, accum, reg)]
    else if IsSign(modes[0]) then
      if modes[0] == operation then RunsOf(r, modes[1..], operation, accum, reg, params, self)
      else [Run(r, operation, accum, reg)]
           + RunsOf(Commit(r, operation, accum, reg), modes[1..], modes[0], {}, reg, params, self)
    else
      var l := ReadLetter(modes[0], operation, reg, params, self);
      RunsOf(r, modes[1..], operation, accum + l.flag, l.reg, params[l.used..], self)
  }

  function ChangesOfModes(r: Room, args: seq<string>, self: string -> bool): seq<Change>
    decreases |args|
  {
    if args == [] then []
    else if args[0] == "" || !IsSign(args[0][0]) then ChangesOfModes(r, args[1..], self)
    else
      var p := ReadRuns(r, args[0], args[0][0], {}, NO_REGISTERS, args[1..], self);
      RunsOf(r, args[0], args[0][0], {}, NO_REGISTERS, args[1..], self) + ChangesOfModes(p.room, p.params, self)
  }

  function ChangesOfNames(r: Room, names: seq<Name>): seq<Change>
    decreases |names|
  {
    if names == [] then []
    else
      var c := Status(r, NamesAdd(names[0].modechar));
      if names[0].ours then [c] + ChangesOfNames(c.After(), names[1..]) else ChangesOfNames(r, names[1..])
  }

  function ChangesOfEvent(r: Room, e: RoomEvent, self: string -> bool): seq<Change> {
    match e
    case ModeChange(args) => ChangesOfModes(r, args, self)
    case NamesReply(names) => ChangesOfNames(r, names)
  }

  function Changes(r: Room, events: seq<RoomEvent>, self: string -> bool): seq<Change>
    decreases |events|
  {
    if events == [] then []
    else ChangesOfEvent(r, events[0], self) + Changes(RoomStep(r, events[0], self), events[1..], self)
  }

  /** Each change starts where the one before ended; the last one ends in `t`. */
  predicate Chain(r: Room, cs: seq<Change>, t: Room)
    decreases |cs|
  {
    if cs == [] then r == t else cs[0].before == r && Chain(cs[0].After(), cs[1..], t)
  }

  lemma {:induction false} ChainConcat(r: Room, a: seq<Change>, s: Room, b: seq<Change>, t: Room)
    requires Chain(r, a, s) && Chain(s, b, t)
    ensures Chain(r, a + b, t)
    decreases |a|
  {
    hide Commit, ChangeMode;
    if a == [] {
      assert a + b == b;
    } else {
      ChainConcat(a[0].After(), a[1..], s, b, t);
      assert (a + b)[1..] == a[1..] + b;
    }
  }

  lemma ChainOfOne(c: Change)
    ensures Chain(c.before, [c], c.After())
  {
    hide Commit, ChangeMode;
    assert [c][1..] == [];
  }

  lemma {:induction false} RunsChain(r: Room, modes: string, operation: char, accum: Flags, reg: Registers,
                                     params: seq<string>, self: string -> bool)
    ensures Chain(r, RunsOf(r, modes, operation, accum, reg, params, self),
                  ReadRuns(r, modes, operation, accum, reg, params, self).room)
    decreases |modes|
  {
    hide ReadLetter, Commit, Chain;
    var c := Run(r, operation, accum, reg);
    ChainOfOne(c);
    if modes == "" {
    } else if IsSign(modes[0]) {
      if modes[0] == operation {
        RunsChain(r, modes[1..], operation, accum, reg, params, self);
      } else {
        RunsChain(c.After(), modes[1..], modes[0], {}, reg, params, self);
        ChainConcat(r, [c], c.After(), RunsOf(c.After(), modes[1..], modes[0], {}, reg, params, self),
                    ReadRuns(c.After(), modes[1..], modes[0], {}, reg, params, self).room);
      }
    } else {
      var l := ReadLetter(modes[0], operation, reg, params, self);
      RunsChain(r, modes[1..], operation, accum + l.flag, l.reg, params[l.used..], self);
    }
  }

  lemma {:induction false} ModesChain(r: Room, args: seq<string>, self: string -> bool)
    ensures Chain(r, ChangesOfModes(r, args, self), ReadModes(r, args, self))
    decreases |args|
  {
    hide ReadRuns, RunsOf;
    if args != [] {
      if args[0] == "" || !IsSign(args[0][0]) {
        ModesChain(r, args[1..], self);
      } else {
        var p := ReadRuns(r, args[0], args[0][0], {}, NO_REGISTERS, args[1..], self);
        RunsChain(r, args[0], args[0][0], {}, NO_REGISTERS, args[1..], self);
        ModesChain(p.room, p.params, self);
        ChainConcat(r, RunsOf(r, args[0], args[0][0], {}, NO_REGISTERS, args[1..], self), p.room,
                    ChangesOfModes(p.room, p.params, self), ReadModes(p.room, p.params, self));
      }
    }
  }

  lemma {:induction false} NamesChain(r: Room, names: seq<Name>)
    ensures Chain(r, ChangesOfNames(r, names), ReadNames(r, names))
    decreases |names|
  {
    hide ChangeMode;
    if names != [] {
      var c := Status(r, NamesAdd(names[0].modechar));
      NamesChain(if names[0].ours then c.After() else r, names[1..]);
      assert ([c] + ChangesOfNames(c.After(), names[1..]))[1..] == ChangesOfNames(c.After(), names[1..]);
    }
  }

  /** The changes of a run lead from its start to its end. */
  lemma {:induction false} RunChain(r: Room, events: seq<RoomEvent>, self: string -> bool)
    ensures Chain(r, Changes(r, events, self), RoomRun(r, events, self))
    decreases |events|
  {
    hide Chain, ChangesOfModes, ChangesOfNames, ReadModes, ReadNames;
    if events == [] {
      assert Chain(r, [], r) by { EmptyChain(r); }
    } else {
      match events[0] {
        case ModeChange(args) => ModesChain(r, args, self);
        case NamesReply(names) => NamesChain(r, names);
      }
      var s := RoomStep(r, events[0], self);
      RunChain(s, events[1..], self);
      ChainConcat(r, ChangesOfEvent(r, events[0], self), s, Changes(s, events[1..], self), RoomRun(r, events, self));
    }
  }

  lemma EmptyChain(r: Room)
    ensures Chain(r, [], r)
  {
  }

  /** Where one change keeps a property exactly under a condition on it, the property holds
      after every change of a chain exactly when every change meets the condition. */
  lemma {:induction false} ThroughoutExactly(holds: Room -> bool, keeps: Change -> bool,
                                             r: Room, cs: seq<Change>, t: Room)
    requires Chain(r, cs, t) && holds(r)
    requires forall c :: c in cs && holds(c.before) ==> (holds(c.After()) <==> keeps(c))
    ensures (forall c :: c in cs ==> holds(c.After())) <==> (forall c :: c in cs ==> keeps(c))
    ensures (forall c :: c in cs ==> keeps(c)) ==> holds(t)
    decreases |cs|
  {
    hide Commit, ChangeMode;
    if cs != [] {
      assert cs == [cs[0]] + cs[1..] && cs[0] in cs;
      if holds(cs[0].After()) {
        ThroughoutExactly(holds, keeps, cs[0].After(), cs[1..], t);
      }
    }
  }

  // ---- Permissions and configuration over whole runs ----

  /** The change does not take one of two operator privileges. */
  predicate IsSafe(c: Change) {
    match c
    case Run(r, operation, accum, _) =>
      if operation == '+' then !LosesOneOfTwo(r.flags, accum, {}) else !LosesOneOfTwo(r.flags, {}, accum)
    case Status(r, add) => !LosesOneOfTwo(r.flags, add, STATUS - add)
  }

  lemma SafeIsExact(c: Change)
    requires Consistent(c.before) && (c.Status? ==> c.add <= STATUS)
    ensures Consistent(c.After()) <==> IsSafe(c)
  {
    hide ChangeMode, Consistent, LosesOneOfTwo;
    match c
    case Run(r, operation, accum, reg) =>
      var r1 := if Key in accum then r.(key := reg.key) else r;
      var r2 := if UserLimit in accum then r1.(limit := reg.limit) else r1;
      ValuesDoNotMatter(r, r2);
      ChangeKeepsConsistent(r2, accum, {});
      ChangeKeepsConsistent(r2, {}, accum);
    case Status(r, add) => ChangeKeepsConsistent(r, add, STATUS - add);
  }

  lemma ValuesDoNotMatter(r: Room, r': Room)
    requires r' == r.(limit := r'.limit, key := r'.key)
    ensures Consistent(r) <==> Consistent(r')
  {
  }

  /** A NAMES reply only adds status flags. */
  lemma {:induction false} NamesAddStatus(r: Room, names: seq<Name>)
    ensures forall c :: c in ChangesOfNames(r, names) ==> c.Status? && c.add <= STATUS
    decreases |names|
  {
    hide ChangeMode;
    if names != [] {
      var c := Status(r, NamesAdd(names[0].modechar));
      NamesAddStatus(if names[0].ours then c.After() else r, names[1..]);
    }
  }

  lemma {:induction false} RunsAreRuns(r: Room, modes: string, operation: char, accum: Flags, reg: Registers,
                                       params: seq<string>, self: string -> bool)
    ensures forall c :: c in RunsOf(r, modes, operation, accum, reg, params, self) ==> c.Run?
    decreases |modes|
  {
    hide ReadLetter, Commit;
    if modes != "" {
      if IsSign(modes[0]) {
        if modes[0] == operation {
          RunsAreRuns(r, modes[1..], operation, accum, reg, params, self);
        } else {
          RunsAreRuns(Commit(r, operation, accum, reg), modes[1..], modes[0], {}, reg, params, self);
        }
      } else {
        var l := ReadLetter(modes[0], operation, reg, params, self);
        RunsAreRuns(r, modes[1..], operation, accum + l.flag, l.reg, params[l.used..], self);
      }
    }
  }

  lemma {:induction false} ModesAreRuns(r: Room, args: seq<string>, self: string -> bool)
    ensures forall c :: c in ChangesOfModes(r, args, self) ==> c.Run?
    decreases |args|
  {
    hide ReadRuns, RunsOf;
    if args != [] {
      if args[0] == "" || !IsSign(args[0][0]) {
        ModesAreRuns(r, args[1..], self);
      } else {
        var p := ReadRuns(r, args[0], args[0][0], {}, NO_REGISTERS, args[1..], self);
        RunsAreRuns(r, args[0], args[0][0], {}, NO_REGISTERS, args[1..], self);
        ModesAreRuns(p.room, p.params, self);
      }
    }
  }

  lemma {:induction false} StatusIsStatus(r: Room, events: seq<RoomEvent>, self: string -> bool)
    ensures forall c :: c in Changes(r, events, self) ==> c.Status? ==> c.add <= STATUS
    decreases |events|
  {
    hide ChangesOfModes, ChangesOfNames, ReadModes, ReadNames;
    if events != [] {
      match events[0] {
        case ModeChange(args) => ModesAreRuns(r, args, self);
        case NamesReply(names) => NamesAddStatus(r, names);
      }
      StatusIsStatus(RoomStep(r, events[0], self), events[1..], self);
    }
  }

  lemma JoinedAgrees(plusChannel: bool)
    ensures Consistent(SelfJoin(FRESH, plusChannel)) && ConfigAgrees(SelfJoin(FRESH, plusChannel))
  {
    var joined := FRESH.(group := FRESH.group.(canAdd := true));
    assert Consistent(joined);
    ChangeKeepsConsistent(joined, {TopicByOps}, {});
  }

  /** After we join a fresh channel, over any sequence of MODE and NAMES messages: the
      permissions are what the flags say after every change exactly when no change takes one
      of two operator privileges; and then they are so in the end. */
  lemma PermissionsFollowFlags(plusChannel: bool, events: seq<RoomEvent>, self: string -> bool)
    ensures var start := SelfJoin(FRESH, plusChannel);
      var cs := Changes(start, events, self);
      && ((forall c :: c in cs ==> Consistent(c.After())) <==> (forall c :: c in cs ==> IsSafe(c)))
      && ((forall c :: c in cs ==> IsSafe(c)) ==> Consistent(RoomRun(start, events, self)))
  {
    hide Consistent, SelfJoin, Changes, RoomRun, IsSafe, Chain;
    var start := SelfJoin(FRESH, plusChannel);
    var cs := Changes(start, events, self);
    JoinedAgrees(plusChannel);
    RunChain(start, events, self);
    StatusIsStatus(start, events, self);
    forall c | c in cs && Consistent(c.before) ensures Consistent(c.After()) <==> IsSafe(c) {
      SafeIsExact(c);
    }
    ThroughoutExactly(r => Consistent(r), c => IsSafe(c), start, cs, RoomRun(start, events, self));
  }

  /** The limit, the password and the privacy that the configuration shows are those of the
      modes. */
  predicate ConfigAgrees(r: Room) {
    && r.config.limit == (if UserLimit in r.flags then r.limit else 0)
    && r.config.passwordProtected == (Key in r.flags)
    && (Key in r.flags ==> r.config.password == r.key)
    && r.config.isPrivate == (Private in r.flags || Secret in r.flags)
  }

  /** A run sets a limit or key anew that differs from the one set, or takes one of private
      and secret while the other stays. */
  predicate GoesStale(r: Room, operation: char, accum: Flags, reg: Registers) {
    if operation == '+' then
      || (UserLimit in accum && UserLimit in r.flags && reg.limit != r.limit)
      || (Key in accum && Key in r.flags && reg.key != r.key)
    else
      Private in r.flags && Secret in r.flags && ((Private in accum) != (Secret in accum))
  }

  lemma CommitKeepsConfig(r: Room, operation: char, accum: Flags, reg: Registers)
    requires ConfigAgrees(r)
    ensures ConfigAgrees(Commit(r, operation, accum, reg)) <==> !GoesStale(r, operation, accum, reg)
  {
  }

  /** What a stale configuration shows: the old limit, the old key, and a public channel. */
  lemma StaleShowsOld(r: Room, operation: char, accum: Flags, reg: Registers)
    requires ConfigAgrees(r)
    ensures var t := Commit(r, operation, accum, reg);
      && (operation == '+' && UserLimit in r.flags ==> t.config.limit == r.config.limit)
      && (operation == '+' && Key in r.flags ==> t.config.password == r.config.password)
      && (operation != '+' && accum * r.flags * {Private, Secret} != {} ==> !t.config.isPrivate)
  {
  }

  predicate StaysFresh(c: Change) {
    c.Run? ==> !GoesStale(c.before, c.operation, c.accum, c.reg)
  }

  lemma FreshIsExact(c: Change)
    requires ConfigAgrees(c.before) && (c.Status? ==> c.add <= STATUS)
    ensures ConfigAgrees(c.After()) <==> StaysFresh(c)
  {
    match c
    case Run(r, operation, accum, reg) => CommitKeepsConfig(r, operation, accum, reg);
    case Status(_, _) =>
  }

  /** The same for the configuration: it shows what the modes say after every change exactly
      when no change goes stale; and then it does so in the end. */
  lemma ConfigFollowsModes(plusChannel: bool, events: seq<RoomEvent>, self: string -> bool)
    ensures var start := SelfJoin(FRESH, plusChannel);
      var cs := Changes(start, events, self);
      && ((forall c :: c in cs ==> ConfigAgrees(c.After())) <==> (forall c :: c in cs ==> StaysFresh(c)))
      && ((forall c :: c in cs ==> StaysFresh(c)) ==> ConfigAgrees(RoomRun(start, events, self)))
  {
    hide ConfigAgrees, SelfJoin, Changes, RoomRun, StaysFresh, Chain;
    var start := SelfJoin(FRESH, plusChannel);
    var cs := Changes(start, events, self);
    JoinedAgrees(plusChannel);
    RunChain(start, events, self);
    StatusIsStatus(start, events, self);
    forall c | c in cs && ConfigAgrees(c.before) ensures ConfigAgrees(c.After()) <==> StaysFresh(c) {
      FreshIsExact(c);
    }
    ThroughoutExactly(r => ConfigAgrees(r), c => StaysFresh(c), start, cs, RoomRun(start, events, self));
  }

  // ---- MODE messages after which the configuration is stale ----

  /** A message of one string with one letter is one run. */
  lemma OneLetter(r: Room, args: seq<string>, c: char, operation: char, l: Letter, self: string -> bool)
    requires args != [] && args[0] == [operation, c] && IsSign(operation) && !IsSign(c)
    requires l == ReadLetter(c, operation, NO_REGISTERS, args[1..], self) && args[1..][l.used..] == []
    ensures ReadModes(r, args, self) == Commit(r, operation, l.flag, l.reg)
  {
    hide ReadLetter, Commit;
    var modes := args[0];
    assert modes[1..] == [c] && modes[1..][1..] == "" && {} + l.flag == l.flag;
    assert ReadRuns(r, modes, operation, {}, NO_REGISTERS, args[1..], self)
        == ReadRuns(r, modes[1..], operation, {}, NO_REGISTERS, args[1..], self)
        == Progress(Commit(r, operation, l.flag, l.reg), []);
  }

  /** "+l 7" where the limit is 5 already. */
  lemma NewLimitIsNotShown(r: Room, args: seq<string>, self: string -> bool)
    requires ConfigAgrees(r) && UserLimit in r.flags && r.limit == 5 && args == ["+l", "7"]
    ensures var t := ReadModes(r, args, self); t.limit == 7 && t.config.limit == 5 && !ConfigAgrees(t)
  {
    SevenIsSeven();
    var reg := NO_REGISTERS.(limit := 7);
    assert args[1..] == ["7"] && ["7"][1..] == [];
    OneLetter(r, args, 'l', '+', Letter({UserLimit}, 1, reg), self);
    CommitKeepsConfig(r, '+', {UserLimit}, reg);
  }

  lemma SevenIsSeven()
    ensures ParseLimit("7") == Some(7)
  {
    assert Parser.DecimalRun("7") == 1 && "7"[..1] == "7" && "7"[..0] == "";
    assert Parser.DecimalValue("7") == 7;
  }

  /** "+k new" where there is another key. */
  lemma NewKeyIsNotShown(r: Room, args: seq<string>, key: string, self: string -> bool)
    requires ConfigAgrees(r) && Key in r.flags && r.key != Some(key) && args == ["+k", key]
    ensures var t := ReadModes(r, args, self);
      t.key == Some(key) && t.config.password == r.key && !ConfigAgrees(t)
  {
    var reg := NO_REGISTERS.(key := Some(key));
    assert args[1..] == [key] && [key][1..] == [];
    OneLetter(r, args, 'k', '+', Letter({Key}, 1, reg), self);
    CommitKeepsConfig(r, '+', {Key}, reg);
  }

  /** "-p" on a channel that is secret too. */
  lemma SecretIsNotShown(r: Room, args: seq<string>, self: string -> bool)
    requires ConfigAgrees(r) && {Private, Secret} <= r.flags && args == ["-p"]
    ensures var t := ReadModes(r, args, self); Secret in t.flags && !t.config.isPrivate && !ConfigAgrees(t)
  {
    assert args[1..] == [];
    OneLetter(r, args, 'p', '-', Letter({Private}, 0, NO_REGISTERS), self);
    CommitKeepsConfig(r, '-', {Private}, NO_REGISTERS);
  }

  // ---- A MODE message after which the permissions are wrong ----

  /** "-o" for us, who are operator and half-operator: all that operators may do is taken. */
  lemma DeopStrandsHalfOp(r: Room, args: seq<string>, self: string -> bool)
    requires Consistent(r) && {Operator, HalfOp} <= r.flags
    requires args == ["-o", "me"] && self("me")
    ensures var t := ReadModes(r, args, self);
      HalfOp in t.flags && !t.group.canRemove && !t.config.canUpdate && !Consistent(t)
  {
    assert args[1..] == ["me"] && ["me"][1..] == [];
    OneLetter(r, args, 'o', '-', Letter({Operator}, 1, NO_REGISTERS), self);
    ChangeKeepsConsistent(r, {}, {Operator});
  }
}
