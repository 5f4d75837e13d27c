/** The mode state of a channel, updated in place (`idle-muc-channel.c`). */
module MucChannel {
  import opened Seqs
  import opened Wrappers
  import opened Modes

  class MucChannel {
    var flags: Flags
    var limit: int
    var key: Option<string>
    var canSetTopic: bool
    var group: Group
    var config: Config

    ghost function Now(): Room
      reads this
    {
      Room(flags, limit, key, canSetTopic, group, config)
    }

    constructor ()
      ensures Now() == FRESH
    {
      flags, limit, key, canSetTopic := {}, 0, None, true;
      group, config := FRESH.group, FRESH.config;
    }

    /** The bits that really come, those that really go, and the flags after that. */
    static method Operation(flags: Flags, addArg: Flags, removeArg: Flags)
      returns (add: Flags, remove: Flags, newFlags: Flags)
      ensures add == Adding(flags, addArg) && remove == Removing(flags, addArg, removeArg)
      ensures newFlags == NewFlags(flags, addArg, removeArg)
    {
      remove := removeArg - addArg;
      add := addArg - flags;
      remove := remove * flags;
      newFlags := flags;
      newFlags := newFlags + add;
      newFlags := newFlags - remove;
    }

    /** `group_add` and `group_remove`, and `tp_group_mixin_change_flags` with both. */
    static method ChangeGroup(was: Group, add: Flags, remove: Flags, newFlags: Flags) returns (group: Group)
      ensures group == GroupAfter(was, add, remove, newFlags)
    {
      hide Has, HasOps, Either;
      HasEither(add, remove);
      var addCanAdd, removeCanAdd, addOps, removeOps := false, false, false, false;
      if Has(add, InviteOnly) {
        if !HasOps(newFlags) {
          removeCanAdd := true;
        }
      } else if Has(remove, InviteOnly) {
        addCanAdd := true;
      }
      if HasOps(Either(add, remove)) {
        if HasOps(add) {
          addCanAdd, addOps := true, true;
        } else if HasOps(remove) {
          removeOps := true;
          if Has(newFlags, InviteOnly) {
            removeCanAdd := true;
          }
        }
      }
      group := Group((was.canAdd || addCanAdd) && !removeCanAdd,
                     (was.canRemove || addOps) && !removeOps,
                     (was.messageRemove || addOps) && !removeOps);
    }

    /** The right to set the subject. */
    static method UpdateCanSetTopic(was: bool, flags: Flags, add: Flags, remove: Flags, newFlags: Flags)
      returns (canSetTopic: bool)
      ensures canSetTopic == TopicAfter(flags, add, remove, newFlags, was)
    {
      hide Has, HasOps, Either;
      HasEither(add, remove);
      canSetTopic := was;
      if HasOps(Either(add, remove)) {
        if HasOps(add) {
          if Has(newFlags, TopicByOps) {
            canSetTopic := true;
          }
        } else if HasOps(remove) {
          if Has(newFlags, TopicByOps) {
            canSetTopic := false;
          }
        }
      } else if Has(Either(add, remove), TopicByOps) && !HasOps(flags) {
        canSetTopic := !Has(add, TopicByOps);
      }
    }

    /** The right to update the configuration, and the loop over the flag bits. */
    static method ChangeConfig(was: Config, add: Flags, remove: Flags, limit: int, key: Option<string>)
      returns (config: Config)
      ensures config == ConfigAfter(was, add, remove, limit, key)
    {
      hide Has, MirrorAfter, PasswordAfter, LimitAfter;
      config := was;
      if HasOps(Either(add, remove)) {
        if HasOps(add) {
          config := config.(canUpdate := true);
        } else if HasOps(remove) {
          config := config.(canUpdate := false);
        }
      }
      ghost var done := ConfigAfter(was, add, remove, limit, key);
      for i := 0 to |ALL_FLAGS|
        invariant config.canUpdate == done.canUpdate
        invariant config.inviteOnly == if i > 4 then done.inviteOnly else was.inviteOnly
        invariant config.moderated == if i > 5 then done.moderated else was.moderated
        invariant config.isPrivate == if i > 9 then done.isPrivate
                                      else if i > 8 then MirrorAfter(Private, add, remove, was.isPrivate)
                                      else was.isPrivate
        invariant config.passwordProtected == if i > 12 then done.passwordProtected else was.passwordProtected
        invariant config.password == if i > 12 then done.password else was.password
        invariant config.limit == if i > 13 then done.limit else was.limit
      {
        PlaceOfFlag(i);
        config := ChangeProperty(config, ALL_FLAGS[i], add, remove, limit, key);
      }
    }

    /** One turn of the loop. */
    static method ChangeProperty(was: Config, bit: Flag, add: Flags, remove: Flags, limit: int, key: Option<string>)
      returns (config: Config)
      ensures config.canUpdate == was.canUpdate
      ensures config.inviteOnly
           == if bit.InviteOnly? then MirrorAfter(bit, add, remove, was.inviteOnly) else was.inviteOnly
      ensures config.moderated == if bit.Moderated? then MirrorAfter(bit, add, remove, was.moderated) else was.moderated
      ensures config.isPrivate
           == if bit.Private? || bit.Secret? then MirrorAfter(bit, add, remove, was.isPrivate) else was.isPrivate
      ensures config.passwordProtected
           == if bit.Key? then MirrorAfter(bit, add, remove, was.passwordProtected) else was.passwordProtected
      ensures config.password == if bit.Key? then PasswordAfter(add, key, was.password) else was.password
      ensures config.limit == if bit.UserLimit? then LimitAfter(add, remove, limit, was.limit) else was.limit
    {
      config := was;
      if Has(Either(add, remove), bit) {
        var value := Has(add, bit);
        match bit
        case InviteOnly => config := config.(inviteOnly := value);
        case Moderated => config := config.(moderated := value);
        case UserLimit => config := config.(limit := if value then limit else 0);
        case Key =>
          config := config.(passwordProtected := value);
          if value {
            config := config.(password := key);
          }
        case Private => config := config.(isPrivate := value);
        case Secret => config := config.(isPrivate := value);
        case _ =>
      }
    }

    /** `change_mode_state`. */
    method ChangeModeState(addArg: Flags, removeArg: Flags)
      modifies this
      ensures Now() == ChangeMode(old(Now()), addArg, removeArg)
    {
      hide Adding, Removing, NewFlags, TopicAfter, GroupAfter, ConfigAfter;
      var add, remove, newFlags := Operation(flags, addArg, removeArg);
      canSetTopic := UpdateCanSetTopic(canSetTopic, flags, add, remove, newFlags);
      config := ChangeConfig(config, add, remove, limit, key);
      group := ChangeGroup(group, add, remove, newFlags);
      flags := newFlags;
    }

    /** The end of a run of one sign. */
    method CommitRun(operation: char, accum: Flags, reg: Registers)
      modifies this
      ensures Now() == Commit(old(Now()), operation, accum, reg)
    {
      hide ChangeMode;
      if Key in accum {
        key := reg.key;
      }
      if UserLimit in accum {
        limit := reg.limit;
      }
      if operation == '+' {
        ChangeModeState(accum, {});
      } else {
        ChangeModeState({}, accum);
      }
    }

    /** The inner loop of `idle_muc_channel_mode`, over the string at `args[at]`; the
        parameters it consumes move the index of the outer loop. */
    method ModeString(args: seq<string>, at: nat, self: string -> bool) returns (i: nat)
      requires at < |args| && args[at] != "" && IsSign(args[at][0])
      modifies this
      ensures at <= i < |args|
      ensures Progress(Now(), args[i + 1..])
           == ReadRuns(old(Now()), args[at], args[at][0], {}, NO_REGISTERS, args[at + 1..], self)
    {
      hide ReadLetter, Commit;
      i := at;
      var modes := args[at];
      var operation := modes[0];
      var accum: Flags := {};
      var reg := NO_REGISTERS;
      ghost var whole := ReadRuns(Now(), modes, operation, {}, NO_REGISTERS, args[at + 1..], self);
      var k := 0;
      assert modes[0..] == modes;
      while k < |modes|
        invariant 0 <= k <= |modes| && at <= i < |args|
        invariant ReadRuns(Now(), modes[k..], operation, accum, reg, args[i + 1..], self) == whole
      {
        DropDrop(modes, k, 1);
        var c := modes[k];
        if IsSign(c) {
          if operation != c {
            CommitRun(operation, accum, reg);
            operation := c;
            accum := {};
          }
        } else {
          var l := ReadLetter(c, operation, reg, args[i + 1..], self);
          DropDrop(args, i + 1, l.used);
          accum := accum + l.flag;
          reg := l.reg;
          i := i + l.used;
        }
        k := k + 1;
      }
      assert modes[k..] == "";
      CommitRun(operation, accum, reg);
    }

    /** `idle_muc_channel_mode`. */
    method Mode(args: seq<string>, self: string -> bool)
      modifies this
      ensures Now() == ReadModes(old(Now()), args, self)
      ensures CoreOf(Now()) == ApplyModes(CoreOf(old(Now())), args, self)
    {
      hide ReadRuns, ApplyModes, CoreOf;
      var i := 0;
      assert args[0..] == args;
      while i < |args|
        invariant 0 <= i <= |args|
        invariant ReadModes(Now(), args[i..], self) == ReadModes(old(Now()), args, self)
      {
        DropDrop(args, i, 1);
        if args[i] != "" && IsSign(args[i][0]) {
          i := ModeString(args, i, self);
        }
        i := i + 1;
      }
      assert args[i..] == [];
      ModesAreLetters(old(Now()), args, self);
    }

    /** `idle_muc_channel_namereply`, as far as our own status goes. */
    method NameReply(names: seq<Name>)
      modifies this
      ensures Now() == ReadNames(old(Now()), names)
    {
      hide ChangeMode;
      var i := 0;
      assert names[0..] == names;
      while i < |names|
        invariant 0 <= i <= |names|
        invariant ReadNames(Now(), names[i..]) == ReadNames(old(Now()), names)
      {
        DropDrop(names, i, 1);
        if names[i].ours {
          var remove := STATUS;
          var add: Flags := {};
          match names[i].modechar {
            case '@' => add := {Operator};
            case '&' => add := {Operator};
            case '+' => add := {Voice};
            case _ =>
          }
          remove := remove - add;
          ChangeModeState(add, remove);
        }
        i := i + 1;
      }
      assert names[i..] == [];
    }

    /** Our own JOIN in `idle_muc_channel_join`. */
    method JoinSelf(channelName: string)
      modifies this
      ensures Now() == SelfJoin(old(Now()), channelName != "" && channelName[0] == '+')
    {
      group := group.(canAdd := true);
      if channelName != "" && channelName[0] == '+' {
        ChangeModeState({TopicByOps}, {});
      }
    }
  }
}
