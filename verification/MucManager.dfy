/** The room manager with its tables, updated in place (`idle-muc-manager.c`). */
module MucManager {
  import opened Seqs
  import opened Wrappers
  import opened RoomManager

  class MucManager {
    var channels: Option<map<Handle, ChanId>>
    var chans: map<ChanId, Channel>
    var queuedRequests: map<ChanId, seq<Token>>
    var next: ChanId
    /** The answers emitted on the bus. */
    var emitted: seq<Answer>
    /** The commands sent, and the replies to passwords. */
    var sent: seq<Command>
    var replies: seq<PasswordReply>
    ghost var asked: seq<Entry>
    ghost var fired: seq<ChanId>

    ghost function Now(): Manager
      reads this
    {
      Manager(channels, chans, queuedRequests, next, asked, emitted, fired, sent, replies)
    }

    ghost predicate Valid()
      reads this
    {
      Inv(Now())
    }

    constructor ()
      ensures Valid() && Now() == INITIAL
    {
      channels, chans, queuedRequests, next := Some(map[]), map[], map[], 0;
      emitted, sent, replies, asked, fired := [], [], [], [], [];
      new;
      InitialInv();
    }

    /** `take_request_tokens`. */
    method TakeRequestTokens(c: ChanId) returns (reqs: seq<Token>)
      modifies `queuedRequests
      ensures reqs == Queue(old(queuedRequests), c) && queuedRequests == old(queuedRequests) - {c}
    {
      reqs := if c in queuedRequests then Reversed(queuedRequests[c]) else [];
      queuedRequests := queuedRequests - {c};
    }

    /** One failure after the other. */
    method FailAll(c: ChanId, reqs: seq<Token>, error: Error)
      modifies `emitted
      ensures emitted == old(emitted) + AnswerAll(c, reqs, Failed(error))
    {
      for i := 0 to |reqs|
        invariant emitted == old(emitted) + AnswerAll(c, reqs[..i], Failed(error))
      {
        emitted := emitted + [Answer(Entry(Some(c), reqs[i]), Failed(error))];
        assert AnswerAll(c, reqs[..i + 1], Failed(error))
            == AnswerAll(c, reqs[..i], Failed(error)) + [Answer(Entry(Some(c), reqs[i]), Failed(error))];
      }
      assert reqs[..|reqs|] == reqs;
    }

    /** `_channel_closed_cb`; where the channel was destroyed its object goes afterwards. */
    method ChannelClosedCb(c: ChanId, destroyed: bool)
      requires c in chans
      modifies this
      ensures Now() == if destroyed then Drop(old(Now()), c) else Resolve(old(Now()), c, Failed(Disconnected))
    {
      hide AnswerAll, Queue;
      var reqs := TakeRequestTokens(c);
      FailAll(c, reqs, Disconnected);
      if destroyed {
        if channels.Some? {
          channels := Some(channels.value - {chans[c].room});
        }
        chans := chans - {c};
      }
    }

    /** `_channel_join_ready_cb`. */
    method ChannelJoinReadyCb(c: ChanId, error: Option<Error>)
      requires c in chans
      modifies this
      ensures error == None ==> Now() == Resolve(old(Now()), c, Satisfied(c)).(fired := old(fired) + [c])
      ensures error.Some? ==>
                Now() == Drop(Resolve(old(Now()), c, Failed(error.value)).(fired := old(fired) + [c]), c)
    {
      hide AnswerAll, Queue, Drop;
      fired := fired + [c];
      var reqs := TakeRequestTokens(c);
      if error == None {
        emitted := emitted + AnswerAll(c, reqs, Satisfied(c));
      } else {
        FailAll(c, reqs, error.value);
        // Out of the table, so the object is disposed of, which closes it.
        ChannelClosedCb(c, true);
      }
    }

    /** `change_state`. */
    method ChangeState(c: ChanId, state: MucState)
      requires c in chans
      modifies this
      ensures Now() == RoomManager.ChangeState(old(Now()), c, state)
    {
      hide Resolve, Drop, Judgement;
      if PastJoining(state) && !chans[c].joinReady {
        ChannelJoinReadyCb(c, None);
        chans := chans[c := chans[c].(joinReady := true)];
      }
      var ch := EnterState(chans[c], state);
      JudgedAlike(old(chans)[c], chans[c], state);
      assert chans[c := ch] == old(chans)[c := ch];
      chans := chans[c := ch];
    }

    /** The password flag and its reply, and the new state. */
    method EnterState(was: Channel, state: MucState) returns (ch: Channel)
      requires PastJoining(state) ==> was.joinReady
      modifies `replies
      ensures ch == Moved(was, state) && replies == old(replies) + Judgement(was, state)
    {
      ch := was;
      if was.state.NeedPassword? && state.Joined? {
        ch := ch.(providePassword := false);
        ch := ProvidePasswordReply(ch, true);
      }
      if was.state.NeedPassword? && state.NeedPassword? {
        ch := ProvidePasswordReply(ch, false);
      }
      if !PastJoining(was.state) && state.NeedPassword? {
        ch := ch.(providePassword := true);
      }
      ch := ch.(state := state);
    }

    /** `provide_password_reply`. */
    method ProvidePasswordReply(ch: Channel, success: bool) returns (after: Channel)
      modifies `replies
      ensures replies == old(replies) + if ch.context.Some? then [Judged(ch.context.value, success)] else []
      ensures after == ch.(context := None, providePassword := ch.providePassword && !success)
    {
      after := ch;
      if ch.context.Some? {
        replies := replies + [Judged(ch.context.value, success)];
        after := after.(context := None);
      }
      if success {
        after := after.(providePassword := false);
      }
    }

    /** `idle_muc_channel_join_error`. */
    method JoinError(c: ChanId, error: Error)
      requires c in chans
      modifies this
      ensures Now() == JoinFailed(old(Now()), c, error)
    {
      hide Resolve, Drop;
      if !chans[c].joinReady {
        chans := chans[c := chans[c].(joinReady := true)];
        ResolveIgnoresChans(old(Now()), chans, c, Failed(error));
        ChannelJoinReadyCb(c, Some(error));
      }
    }

    /** `send_join_request`. */
    method SendJoinRequest(c: ChanId)
      modifies `sent
      ensures sent == old(sent) + [SendJoin(c)]
    {
      sent := sent + [SendJoin(c)];
    }

    /** `_muc_manager_new_channel`. */
    method NewChannel(room: Handle, origin: Origin) returns (c: ChanId)
      requires channels.Some?
      modifies `next, `chans, `channels
      ensures Now() == RoomManager.NewChannel(old(Now()), room, origin) && c == old(next)
    {
      c := next;
      next := next + 1;
      chans := chans[c := Channel(room, origin, Created, false, false, None)];
      channels := Some(channels.value[room := c]);
    }

    /** `associate_request`. */
    method AssociateRequest(c: ChanId, token: Token)
      modifies `queuedRequests, `asked
      ensures Now() == Associate(old(Now()), c, token)
    {
      var reqs := if c in queuedRequests then queuedRequests[c] else [];
      queuedRequests := queuedRequests[c := [token] + reqs];
      asked := asked + [Entry(Some(c), token)];
    }

    /** `_muc_manager_request`. */
    method HandleRequest(token: Token, target: Option<Handle>, requireNew: bool)
      requires Valid() && channels.Some?
      modifies this
      ensures Now() == StepRequest(old(Now()), token, target, requireNew)
    {
      hide Associate;
      var error := Invalid;
      if target.Some? {
        var room := target.value;
        if room in channels.value {
          var c := channels.value[room];
          if requireNew {
            error := NotAvailable;
          } else {
            if chans[c].joinReady {
              asked := asked + [Entry(None, token)];
              emitted := emitted + [Answer(Entry(None, token), Satisfied(c))];
            } else {
              AssociateRequest(c, token);
            }
            return;
          }
        } else {
          var c := NewChannel(room, Requested);
          SendJoinRequest(c);
          AssociateRequest(c, token);
          return;
        }
      }
      asked := asked + [Entry(None, token)];
      emitted := emitted + [Answer(Entry(None, token), Failed(error))];
    }

    /** The same with what a client may rely on: a new request is answered once, or waits once. */
    method Request(token: Token, target: Option<Handle>, requireNew: bool)
      requires Valid() && channels.Some?
      modifies this
      ensures Valid() && Now() == StepRequest(old(Now()), token, target, requireNew)
      ensures Times(token, Tokens(old(asked))) == 0 ==>
                Done(Now(), token) || exists c :: WaitsFor(Now(), token, c)
    {
      hide Inv, StepRequest, Done, WaitsFor, Times, Tokens;
      ghost var before := Now();
      HandleRequest(token, target, requireNew);
      RequestKeeps(before, token, target, requireNew);
      if Times(token, Tokens(before.asked)) == 0 {
        AskedOnce(before, token, target, requireNew);
        DoneOrWaits(Now(), token);
      }
    }

    /** `_join_handler` with `idle_muc_channel_join`. */
    method JoinHandler(room: Handle, isSelf: bool)
      requires Valid()
      modifies this
      ensures Valid() && Now() == StepJoin(old(Now()), room, isSelf)
    {
      hide RoomManager.ChangeState;
      JoinKeeps(Now(), room, isSelf);
      if channels.None? {
        return;
      }
      var c: ChanId;
      if room in channels.value {
        c := channels.value[room];
      } else {
        c := NewChannel(room, Seen);
      }
      if isSelf {
        ChangeState(c, Joined);
      }
    }

    /** `_invite_handler`. */
    method InviteHandler(room: Handle, isSelf: bool)
      requires Valid()
      modifies this
      ensures Valid() && Now() == Step(old(Now()), Invite(room, isSelf))
    {
      StepKeeps(Now(), Invite(room, isSelf));
      if isSelf && channels.Some? && room !in channels.value {
        var c := NewChannel(room, Invited);
      }
    }

    /** `_numeric_error_handler`: a bad key, or one of three refusals. */
    method NumericErrorHandler(room: Handle, error: Option<Error>)
      requires Valid() && (error.Some? ==> error.value in {Banned, Full, InviteOnly})
      modifies this
      ensures Valid()
      ensures Now()
           == Step(old(Now()), match error case Some(e) => CannotJoin(room, e) case None => BadChannelKey(room))
    {
      hide RoomManager.ChangeState, JoinFailed;
      StepKeeps(Now(), match error case Some(e) => CannotJoin(room, e) case None => BadChannelKey(room));
      if channels.Some? && room in channels.value {
        match error
        case Some(e) => JoinError(channels.value[room], e);
        case None => ChangeState(channels.value[room], NeedPassword);
      }
    }

    /** `_part_handler` and `_kick_handler`, with `_network_member_left`. */
    method LeaveHandler(room: Handle, isSelf: bool)
      requires Valid()
      modifies this
      ensures Valid() && Now() == Step(old(Now()), Leave(room, isSelf))
    {
      hide RoomManager.ChangeState, Drop;
      StepKeeps(Now(), Leave(room, isSelf));
      if channels.Some? && room in channels.value && isSelf {
        var c := channels.value[room];
        ChangeIsQuiet(Now(), c, Parted);
        ChangeState(c, Parted);
        ChannelClosedCb(c, true);
      }
    }

    /** `add_member` for ourselves. */
    method AddMember(c: ChanId, refused: bool)
      requires Valid() && c in chans && (chans[c].state.Joined? ==> refused)
      modifies this
      ensures Valid() && Now() == Step(old(Now()), AddSelf(c, refused))
    {
      hide RoomManager.ChangeState;
      StepKeeps(Now(), AddSelf(c, refused));
      if !refused {
        SendJoinRequest(c);
        ChangeState(c, Joining);
      }
    }

    /** `idle_muc_channel_provide_password`. */
    method ProvidePassword(c: ChanId, context: Context)
      requires Valid() && c in chans
      modifies this
      ensures Valid() && Now() == Step(old(Now()), RoomManager.ProvidePassword(c, context))
    {
      StepKeeps(Now(), RoomManager.ProvidePassword(c, context));
      if !chans[c].providePassword || chans[c].context.Some? {
        replies := replies + [NotNeeded(context)];
        return;
      }
      chans := chans[c := chans[c].(context := Some(context))];
      SendJoinRequest(c);
    }

    /** `idle_muc_channel_close`. */
    method CloseChannel(c: ChanId)
      requires Valid() && c in chans
      modifies this
      ensures Valid() && Now() == Step(old(Now()), Close(c))
    {
      hide Drop, Resolve;
      StepKeeps(Now(), Close(c));
      ChannelClosedCb(c, !chans[c].state.Joined?);
    }

    /** `idle_muc_channel_destroy`. */
    method DestroyChannel(c: ChanId)
      requires Valid() && c in chans
      modifies this
      ensures Valid() && Now() == Step(old(Now()), Destroy(c))
    {
      hide Drop, Resolve;
      StepKeeps(Now(), Destroy(c));
      if chans[c].state.Joined? {
        sent := sent + [SendPart(c)];
      }
      if !chans[c].state.Joined? && !chans[c].state.Parted? {
        ChannelClosedCb(c, true);
      }
    }

    /** `_muc_manager_close_all`: the table is forgotten first, then destroyed. */
    method CloseAll(order: seq<ChanId>)
      requires Valid() && forall c :: c in order <==> c in chans
      modifies this
      ensures Valid() && Now() == Step(old(Now()), Disconnect(order))
    {
      hide Drop, Inv;
      StepKeeps(Now(), Disconnect(order));
      channels := None;
      ghost var start := Now();
      assert order[0..] == order;
      for i := 0 to |order|
        invariant DropAll(Now(), order[i..]) == DropAll(start, order)
      {
        assert order[i..][0] == order[i] && order[i..][1..] == order[i + 1..];
        if order[i] in chans {
          ChannelClosedCb(order[i], true);
        }
      }
      assert order[|order|..] == [];
    }
  }

  lemma ResolveIgnoresChans(s: Manager, chans: map<ChanId, Channel>, c: ChanId, outcome: Outcome)
    ensures Resolve(s.(chans := chans), c, outcome) == Resolve(s, c, outcome).(chans := chans)
    ensures Resolve(s, c, outcome).chans == s.chans
  {
  }

  lemma JudgedAlike(a: Channel, b: Channel, state: MucState)
    requires b == a.(joinReady := b.joinReady)
    ensures Judgement(a, state) == Judgement(b, state)
  {
  }
}
