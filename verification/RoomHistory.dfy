/** Which event answers a request for a room, and what becomes of rooms, channels and
    passwords, told by the events of a run (`idle-muc-manager.c`, `idle-muc-channel.c`). */
module RoomHistory {
  import opened Seqs
  import opened Wrappers
  import opened RoomManager

  // ---- Requests that wait ----

  /** The answer that an event brings to those who wait under channel `c` of `room`, if any. */
  function Verdict(e: Event, room: Handle, c: ChanId): Option<Outcome> {
    match e
    case Join(r, isSelf) => if r == room && isSelf then Some(Satisfied(c)) else None
    case BadChannelKey(r) => if r == room then Some(Satisfied(c)) else None
    case CannotJoin(r, error) => if r == room then Some(Failed(error)) else None
    case Leave(r, isSelf) => if r == room && isSelf then Some(Satisfied(c)) else None
    case Close(d) => if d == c then Some(Failed(Disconnected)) else None
    case Destroy(d) => if d == c then Some(Failed(Disconnected)) else None
    case Disconnect(_) => Some(Failed(Disconnected))
    case _ => None
  }

  /** A request of `c` was answered so. */
  ghost predicate Got(s: Manager, t: Token, c: ChanId, outcome: Outcome) {
    Answer(Entry(Some(c), t), outcome) in s.answers
  }

  lemma ResolveAnswers(s: Manager, c: ChanId, outcome: Outcome, t: Token)
    requires t in Queue(s.queued, c)
    ensures Got(Resolve(s, c, outcome), t, c, outcome)
  {
    var tokens := Queue(s.queued, c);
    var i :| 0 <= i < |tokens| && tokens[i] == t;
    assert AnswerAll(c, tokens, outcome)[i] == Answer(Entry(Some(c), t), outcome);
  }

  lemma ResolveKeepsOthers(s: Manager, c: ChanId, outcome: Outcome, d: ChanId)
    ensures s.answers <= Resolve(s, c, outcome).answers
    ensures d != c ==> Queue(Resolve(s, c, outcome).queued, d) == Queue(s.queued, d)
  {
  }

  lemma DropAnswers(s: Manager, c: ChanId, d: ChanId)
    requires c in s.chans
    ensures s.answers <= Drop(s, c).answers
    ensures d != c ==> Queue(Drop(s, c).queued, d) == Queue(s.queued, d) && (d in Drop(s, c).chans <==> d in s.chans)
    ensures forall t :: t in Queue(s.queued, c) ==> Got(Drop(s, c), t, c, Failed(Disconnected))
  {
    hide Resolve, Queue;
    ResolveKeepsOthers(s, c, Failed(Disconnected), d);
    forall t | t in Queue(s.queued, c) ensures Got(Drop(s, c), t, c, Failed(Disconnected)) {
      ResolveAnswers(s, c, Failed(Disconnected), t);
    }
  }

  lemma ChangeAnswers(s: Manager, c: ChanId, state: MucState, d: ChanId)
    requires c in s.chans
    ensures s.answers <= ChangeState(s, c, state).answers
    ensures d != c ==> Queue(ChangeState(s, c, state).queued, d) == Queue(s.queued, d)
    ensures !s.chans[c].joinReady && (state.NeedPassword? || state.Joined? || state.Parted?) ==>
      forall t :: t in Queue(s.queued, c) ==> Got(ChangeState(s, c, state), t, c, Satisfied(c))
    ensures state.Joining? ==> ChangeState(s, c, state).queued == s.queued
  {
    hide Resolve, Queue, Moved, Judgement;
    ResolveKeepsOthers(s, c, Satisfied(c), d);
    forall t | t in Queue(s.queued, c) ensures Got(Resolve(s, c, Satisfied(c)), t, c, Satisfied(c)) {
      ResolveAnswers(s, c, Satisfied(c), t);
    }
  }

  lemma JoinFailedAnswers(s: Manager, c: ChanId, error: Error, d: ChanId)
    requires c in s.chans
    ensures s.answers <= JoinFailed(s, c, error).answers
    ensures d != c ==> Queue(JoinFailed(s, c, error).queued, d) == Queue(s.queued, d)
    ensures !s.chans[c].joinReady ==>
      forall t :: t in Queue(s.queued, c) ==> Got(JoinFailed(s, c, error), t, c, Failed(error))
  {
    hide Resolve, Queue, Drop;
    if !s.chans[c].joinReady {
      var t := Resolve(s, c, Failed(error)).(fired := s.fired + [c]);
      var u := t.(chans := t.chans[c := s.chans[c].(joinReady := true)]);
      ResolveKeepsOthers(s, c, Failed(error), d);
      DropAnswers(u, c, d);
      forall t | t in Queue(s.queued, c) ensures Got(Resolve(s, c, Failed(error)), t, c, Failed(error)) {
        ResolveAnswers(s, c, Failed(error), t);
      }
    }
  }

  lemma {:induction false} DropAllAnswers(s: Manager, order: seq<ChanId>, c: ChanId, t: Token)
    ensures s.answers <= DropAll(s, order).answers
    ensures c in order && c in s.chans && t in Queue(s.queued, c) ==>
      Got(DropAll(s, order), t, c, Failed(Disconnected))
    decreases |order|
  {
    hide Drop, Queue;
    if order != [] {
      if order[0] in s.chans {
        DropAnswers(s, order[0], c);
        DropAllAnswers(Drop(s, order[0]), order[1..], c, t);
      } else {
        DropAllAnswers(s, order[1..], c, t);
      }
    }
  }

  /** The channel of a room is the one that the table names. */
  lemma ChannelOfRoom(s: Manager, c: ChanId, room: Handle)
    requires TableInv(s) && c in s.chans
    ensures s.channels.Some? && Lookup(s, s.chans[c].room) == Some(c)
    ensures Lookup(s, room).Some? ==> Lookup(s, room).value in s.chans && s.chans[Lookup(s, room).value].room == room
  {
  }

  /** What an event does for one who waits under `c`. */
  lemma StepAnswers(s: Manager, e: Event, c: ChanId, t: Token)
    requires Inv(s) && Possible(s, e) && c in s.chans && !s.chans[c].joinReady && t in Queue(s.queued, c)
    ensures var v := Verdict(e, s.chans[c].room, c);
      if v.Some? then Got(Step(s, e), t, c, v.value) else t in Queue(Step(s, e).queued, c)
  {
    hide Conserved, ReadyInv, OutcomeInv, TableInv, ChangeState, JoinFailed, Drop, DropAll, Resolve, StepRequest, Queue;
    var room := s.chans[c].room;
    NotJoinedYet(s, c);
    match e
    case Request(token, target, requireNew) =>
      ChannelOfRoom(s, c, if target.Some? then target.value else 0);
      RequestKeepsQueue(s, token, target, requireNew, c, t);
    case Join(r, isSelf) =>
      ChannelOfRoom(s, c, r);
      NewKeepsQueue(s, r, Seen, c);
      AliveIsOld(s, c);
      JoinAnswers(s, r, isSelf, c, t);
    case Invite(r, _) =>
      ChannelOfRoom(s, c, r);
      NewKeepsQueue(s, r, Invited, c);
    case BadChannelKey(r) =>
      ChannelOfRoom(s, c, r);
      if Lookup(s, r).Some? { ChangeAnswers(s, Lookup(s, r).value, NeedPassword, c); }
    case CannotJoin(r, error) =>
      ChannelOfRoom(s, c, r);
      if Lookup(s, r).Some? { JoinFailedAnswers(s, Lookup(s, r).value, error, c); }
    case Leave(r, isSelf) =>
      ChannelOfRoom(s, c, r);
      if Lookup(s, r).Some? && isSelf { LeaveAnswers(s, Lookup(s, r).value, c); }
    case AddSelf(d, refused) => ChangeAnswers(Send(s, SendJoin(d)), d, Joining, c);
    case ProvidePassword(_, _) =>
    case Close(d) =>
      DropAnswers(s, d, c);
      ResolveKeepsOthers(s, d, Failed(Disconnected), c);
    case Destroy(d) => DropAnswers(s, d, c);
    case Disconnect(order) => DropAllAnswers(s.(channels := None), order, c, t);
  }

  lemma NotJoinedYet(s: Manager, c: ChanId)
    requires ReadyInv(s) && c in s.chans && !s.chans[c].joinReady
    ensures s.chans[c].state.Created? || s.chans[c].state.Joining?
  {
  }

  lemma NewKeepsQueue(s: Manager, room: Handle, origin: Origin, c: ChanId)
    requires c in s.chans && s.channels.Some?
    ensures Queue(NewChannel(s, room, origin).queued, c) == Queue(s.queued, c)
  {
  }

  lemma AssociateGrows(s: Manager, d: ChanId, token: Token, c: ChanId)
    ensures forall t :: t in Queue(s.queued, c) ==> t in Queue(Associate(s, d, token).queued, c)
  {
    var before := if d in s.queued then s.queued[d] else [];
    assert ([token] + before)[1..] == before;
    assert Reversed([token] + before) == Reversed(before) + [token];
  }

  lemma RequestKeepsQueue(s: Manager, token: Token, target: Option<Handle>, requireNew: bool, c: ChanId, t: Token)
    requires s.channels.Some? && t in Queue(s.queued, c)
    ensures t in Queue(StepRequest(s, token, target, requireNew).queued, c)
  {
    hide Queue, Associate;
    if target.Some? {
      var l := Lookup(s, target.value);
      AssociateGrows(if l.None? then Send(NewChannel(s, target.value, Requested), SendJoin(s.next)) else s,
                     if l.None? then s.next else l.value, token, c);
    }
  }

  lemma JoinAnswers(s: Manager, room: Handle, isSelf: bool, c: ChanId, t: Token)
    requires TableInv(s) && c in s.chans && c < s.next && !s.chans[c].joinReady && t in Queue(s.queued, c)
    ensures if room == s.chans[c].room && isSelf then Got(StepJoin(s, room, isSelf), t, c, Satisfied(c))
            else t in Queue(StepJoin(s, room, isSelf).queued, c)
  {
    hide Queue, ChangeState, TableInv;
    ChannelOfRoom(s, c, room);
    var u := if Lookup(s, room) == None then NewChannel(s, room, Seen) else s;
    var d := Lookup(u, room).value;
    if d in u.chans {
      ChangeAnswers(u, d, Joined, c);
    }
  }

  lemma LeaveAnswers(s: Manager, d: ChanId, c: ChanId)
    requires c in s.chans && d in s.chans && !s.chans[c].joinReady
    ensures d != c ==> Queue(StepLeave(s, d).queued, c) == Queue(s.queued, c)
    ensures d == c ==> forall t :: t in Queue(s.queued, c) ==> Got(StepLeave(s, d), t, c, Satisfied(c))
  {
    hide Queue, ChangeState, Drop;
    ChangeAnswers(s, d, Parted, c);
    ChangeIsQuiet(s, d, Parted);
    DropAnswers(ChangeState(s, d, Parted), d, c);
  }

  /** Every request of a run is recorded, whatever becomes of it. */
  lemma AskedGrows(s: Manager, e: Event)
    requires Possible(s, e)
    ensures Tokens(Step(s, e).asked) == Tokens(s.asked) + (if e.Request? then [e.token] else [])
  {
    hide Resolve, Moved, Judgement;
    match e
    case Disconnect(order) => DropAllAsks(s.(channels := None), order);
    case _ =>
  }

  lemma {:induction false} DropAllAsks(s: Manager, order: seq<ChanId>)
    ensures DropAll(s, order).asked == s.asked
    decreases |order|
  {
    hide Resolve;
    if order != [] {
      DropAllAsks(if order[0] in s.chans then Drop(s, order[0]) else s, order[1..]);
    }
  }

  lemma InQueue(s: Manager, t: Token, c: ChanId)
    ensures t in Queue(s.queued, c) <==> Times(t, Queue(s.queued, c)) > 0
  {
    hide Queue;
  }

  lemma GotMeansAnswered(s: Manager, t: Token, c: ChanId, outcome: Outcome)
    requires Got(s, t, c, outcome)
    ensures Times(t, Tokens(Answered(s.answers))) > 0
  {
    var i :| 0 <= i < |s.answers| && s.answers[i] == Answer(Entry(Some(c), t), outcome);
    assert Tokens(Answered(s.answers))[i] == t;
  }

  /**
   * In every run, one who waits under a channel is answered by the next event that answers,
   * and so: with the channel when we join the room, when a key is asked for, or when we leave;
   * with the error when the server refuses us; with a disconnection when the channel is closed
   * or destroyed or the connection goes down.  Every other event leaves him waiting there.
   */
  lemma WhoWaitsIsAnswered(states: seq<Manager>, events: seq<Event>, i: nat, t: Token, c: ChanId)
    requires IsRun(states, events) && i < |events| && WaitsFor(states[i], t, c)
    requires Times(t, Tokens(states[i].asked)) == 1 && (events[i].Request? ==> events[i].token != t)
    ensures var v := Verdict(events[i], states[i].chans[c].room, c);
      if v.Some? then Done(states[i + 1], t) && Got(states[i + 1], t, c, v.value) else WaitsFor(states[i + 1], t, c)
  {
    hide Step, Possible, Inv, Got, Verdict, Queue, Times;
    var s, e, u := states[i], events[i], states[i + 1];
    RunKeeps(states, events, i);
    RunKeeps(states, events, i + 1);
    InQueue(s, t, c);
    InvHasReady(s);
    StepAnswers(s, e, c, t);
    AskedGrows(s, e);
    NotAgain(s.asked, u.asked, e, t);
    DoneOrWaits(u, t);
    var v := Verdict(e, s.chans[c].room, c);
    if v.Some? {
      GotMeansAnswered(u, t, c, v.value);
    } else {
      InQueue(u, t, c);
    }
  }

  lemma InvHasReady(s: Manager)
    requires Inv(s)
    ensures ReadyInv(s) && TableInv(s)
  {
  }

  lemma NotAgain(before: seq<Entry>, after: seq<Entry>, e: Event, t: Token)
    requires Tokens(after) == Tokens(before) + (if e.Request? then [e.token] else [])
    requires e.Request? ==> e.token != t
    ensures Times(t, Tokens(after)) == Times(t, Tokens(before))
  {
    hide Tokens;
  }

  // ---- Requests answered on the spot ----

  /** A request was answered without waiting. */
  ghost predicate GotAtOnce(s: Manager, t: Token, outcome: Outcome) {
    Answer(Entry(None, t), outcome) in s.answers
  }

  /** In every run a new request without a target is refused; one that wants a new channel in a
      room that is known is refused too; one for a channel that has been ready is satisfied
      with it; and any other waits, for an unknown room under a new channel that is joined. */
  lemma RequestIsHandled(states: seq<Manager>, events: seq<Event>, i: nat)
    requires IsRun(states, events) && i < |events| && events[i].Request?
    requires Times(events[i].token, Tokens(states[i].asked)) == 0
    ensures var s, e, u := states[i], events[i], states[i + 1];
      var room := if e.target.Some? then Lookup(s, e.target.value) else None;
      if e.target.None? then Done(u, e.token) && GotAtOnce(u, e.token, Failed(Invalid))
      else if room.None? then
        && WaitsFor(u, e.token, s.next) && u.chans[s.next].room == e.target.value
        && u.sent == s.sent + [SendJoin(s.next)]
      else if e.requireNew then Done(u, e.token) && GotAtOnce(u, e.token, Failed(NotAvailable))
      else if room.value in s.fired then Done(u, e.token) && GotAtOnce(u, e.token, Satisfied(room.value))
      else WaitsFor(u, e.token, room.value) && u.chans == s.chans && u.sent == s.sent
  {
    hide Possible, Inv, Queue, Times, GotAtOnce, Tokens, StepRequest, TableInv, ReadyInv;
    var s, e, u := states[i], events[i], states[i + 1];
    RunKeeps(states, events, i);
    RunKeeps(states, events, i + 1);
    InvHasReady(s);
    PossibleRequest(s, e);
    AskedGrows(s, e);
    AskedOnce(s, e.token, e.target, e.requireNew);
    DoneOrWaits(u, e.token);
    HandledAs(s, e.token, e.target, e.requireNew);
    forall c | e.token in Queue(u.queued, c) ensures Times(e.token, Queue(u.queued, c)) > 0 {
      InQueue(u, e.token, c);
    }
    forall outcome | GotAtOnce(u, e.token, outcome) ensures Times(e.token, Tokens(Answered(u.answers))) > 0 {
      AtOnceMeansAnswered(u, e.token, outcome);
    }
  }

  lemma PossibleRequest(s: Manager, e: Event)
    requires e.Request? && Possible(s, e)
    ensures s.channels.Some? && Step(s, e) == StepRequest(s, e.token, e.target, e.requireNew)
  {
    hide StepRequest;
  }

  lemma AtOnceMeansAnswered(s: Manager, t: Token, outcome: Outcome)
    requires GotAtOnce(s, t, outcome)
    ensures Times(t, Tokens(Answered(s.answers))) > 0
  {
    var i :| 0 <= i < |s.answers| && s.answers[i] == Answer(Entry(None, t), outcome);
    assert Tokens(Answered(s.answers))[i] == t;
  }

  lemma HandledAs(s: Manager, t: Token, target: Option<Handle>, requireNew: bool)
    requires s.channels.Some? && ReadyInv(s) && TableInv(s)
    ensures var u := StepRequest(s, t, target, requireNew);
      var room := if target.Some? then Lookup(s, target.value) else None;
      if target.None? then GotAtOnce(u, t, Failed(Invalid))
      else if room.None? then
        && t in Queue(u.queued, s.next) && s.next in u.chans && u.chans[s.next].room == target.value
        && u.sent == s.sent + [SendJoin(s.next)]
      else if requireNew then GotAtOnce(u, t, Failed(NotAvailable))
      else if room.value in s.fired then GotAtOnce(u, t, Satisfied(room.value))
      else t in Queue(u.queued, room.value) && u.chans == s.chans && u.sent == s.sent
  {
    hide Queue;
    if target.Some? {
      var l := Lookup(s, target.value);
      var c := if l.None? then s.next else l.value;
      Queued(if l.None? then Send(NewChannel(s, target.value, Requested), SendJoin(s.next)) else s, c, t);
    }
  }

  lemma Queued(s: Manager, c: ChanId, t: Token)
    ensures t in Queue(Associate(s, c, t).queued, c)
  {
    var before := if c in s.queued then s.queued[c] else [];
    assert ([t] + before)[1..] == before;
    assert Reversed([t] + before) == Reversed(before) + [t];
  }

  // ---- Rooms and channels ----

  /** What one event makes of the channels alive: their state and readiness. */
  ghost predicate ChannelAfter(s: Manager, e: Event, u: Manager, c: ChanId)
    requires c in u.chans
  {
    var room, was := u.chans[c].room, if c in s.chans then Some(s.chans[c].state) else None;
    && (u.chans[c].state.Joined? <==> e == Join(room, true) || (was == Some(Joined) && e != BadChannelKey(room)))
    && (u.chans[c].state.NeedPassword? <==>
          e == BadChannelKey(room) ||
          (was == Some(NeedPassword) && e != Join(room, true) && e != AddSelf(c, false)))
    && !u.chans[c].state.Parted? && (was.None? && !e.Join? ==> u.chans[c].state.Created?)
    && (c in s.chans ==> s.chans[c].room == room && s.chans[c].origin == u.chans[c].origin)
    && (was.None? ==> u.chans[c].origin == if e.Request? then Requested else if e.Invite? then Invited else Seen)
    && (c in u.fired <==> c in s.fired || e == Join(room, true) || e == BadChannelKey(room))
  }

  lemma ChangedIs(s: Manager, c: ChanId, state: MucState)
    requires c in s.chans
    ensures var t := ChangeState(s, c, state);
      && t.chans == s.chans[c := Moved(s.chans[c], state)] && t.channels == s.channels
      && t.fired == (if PastJoining(state) && !s.chans[c].joinReady then s.fired + [c] else s.fired)
      && t.replies == s.replies + Judgement(s.chans[c], state)
  {
    hide Moved, Judgement, Resolve;
  }

  lemma DroppedIs(s: Manager, c: ChanId)
    requires c in s.chans
    ensures Drop(s, c).chans == s.chans - {c} && Drop(s, c).fired == s.fired && Drop(s, c).replies == s.replies
    ensures Drop(s, c).channels.Some? <==> s.channels.Some?
    ensures s.channels.Some? ==> Drop(s, c).channels.value == s.channels.value - {s.chans[c].room}
  {
    hide Resolve;
  }

  lemma FailedIs(s: Manager, c: ChanId, error: Error)
    requires c in s.chans
    ensures var t := JoinFailed(s, c, error);
      if s.chans[c].joinReady then t == s
      else t.chans == s.chans - {c} && t.fired == s.fired + [c] && t.replies == s.replies
           && (t.channels.Some? <==> s.channels.Some?)
           && (s.channels.Some? ==> t.channels.value == s.channels.value - {s.chans[c].room})
  {
    hide Resolve, Drop;
    if !s.chans[c].joinReady {
      var t := Resolve(s, c, Failed(error)).(fired := s.fired + [c]);
      DroppedIs(t.(chans := t.chans[c := s.chans[c].(joinReady := true)]), c);
    }
  }

  lemma {:induction false} AllDropped(s: Manager, order: seq<ChanId>)
    requires forall c :: c in s.chans ==> c in order
    ensures DropAll(s, order).chans == map[] && DropAll(s, order).replies == s.replies
    ensures DropAll(s, order).channels.Some? <==> s.channels.Some?
    decreases |order|
  {
    hide Drop;
    if order != [] {
      if order[0] in s.chans {
        DroppedIs(s, order[0]);
        AllDropped(Drop(s, order[0]), order[1..]);
      } else {
        AllDropped(s, order[1..]);
      }
    }
  }

  /** No channel alive has been parted: one that we leave goes at once. */
  ghost predicate NoneParted(s: Manager) {
    forall c :: c in s.chans ==> !s.chans[c].state.Parted?
  }

  lemma StepChannel(s: Manager, e: Event, c: ChanId)
    requires Inv(s) && NoneParted(s) && Possible(s, e) && c in Step(s, e).chans
    ensures ChannelAfter(s, e, Step(s, e), c)
  {
    hide Inv, NoneParted, ChannelAfter, ChangeState, JoinFailed, Drop, DropAll, Resolve;
    match e
    case Request(_, _, _) => RequestChannel(s, e, c);
    case Join(r, isSelf) => JoinChannel(s, r, isSelf, c);
    case Invite(_, _) => InviteChannel(s, e, c);
    case BadChannelKey(r) => KeyChannel(s, r, c);
    case CannotJoin(r, error) => RefusedChannel(s, r, error, c);
    case Leave(r, isSelf) => LeaveChannel(s, r, isSelf, c);
    case AddSelf(d, refused) => AddChannel(s, d, refused, c);
    case ProvidePassword(_, _) => QuietChannel(s, e, Step(s, e), c);
    case Close(d) =>
      DroppedIs(s, d);
      ResolvedIs(s, d);
      QuietChannel(s, e, Step(s, e), c);
    case Destroy(d) =>
      DroppedIs(s, d);
      QuietChannel(s, e, Step(s, e), c);
    case Disconnect(order) => AllDropped(s.(channels := None), order);
  }

  /** Events after which the channels that are left are as before. */
  lemma QuietChannel(s: Manager, e: Event, u: Manager, c: ChanId)
    requires NoneParted(s) && c in u.chans && c in s.chans && !e.Join? && !e.BadChannelKey? && !e.AddSelf?
    requires u.chans[c] == s.chans[c].(context := u.chans[c].context) && (c in u.fired <==> c in s.fired)
    ensures ChannelAfter(s, e, u, c)
  {
  }

  lemma RequestChannel(s: Manager, e: Event, c: ChanId)
    requires Inv(s) && NoneParted(s) && e.Request? && Possible(s, e) && c in Step(s, e).chans
    ensures ChannelAfter(s, e, Step(s, e), c)
  {
    hide Conserved, OutcomeInv, TableInv, ReadyInv;
    KnownRoom(s, if e.target.Some? then e.target.value else 0, c);
  }

  lemma InviteChannel(s: Manager, e: Event, c: ChanId)
    requires Inv(s) && NoneParted(s) && e.Invite? && c in Step(s, e).chans
    ensures ChannelAfter(s, e, Step(s, e), c)
  {
    hide Conserved, OutcomeInv, TableInv, ReadyInv;
    KnownRoom(s, e.room, c);
  }

  lemma KeyChannel(s: Manager, room: Handle, c: ChanId)
    requires Inv(s) && NoneParted(s) && c in Step(s, BadChannelKey(room)).chans
    ensures ChannelAfter(s, BadChannelKey(room), Step(s, BadChannelKey(room)), c)
  {
    hide Conserved, OutcomeInv, TableInv, ChangeState, Judgement;
    KnownRoom(s, room, c);
    if Lookup(s, room).Some? {
      ChangedIs(s, Lookup(s, room).value, NeedPassword);
    }
  }

  lemma RefusedChannel(s: Manager, room: Handle, error: Error, c: ChanId)
    requires Inv(s) && NoneParted(s) && Possible(s, CannotJoin(room, error))
    requires c in Step(s, CannotJoin(room, error)).chans
    ensures ChannelAfter(s, CannotJoin(room, error), Step(s, CannotJoin(room, error)), c)
  {
    hide Conserved, OutcomeInv, TableInv, ReadyInv, JoinFailed;
    KnownRoom(s, room, c);
    if Lookup(s, room).Some? {
      FailedIs(s, Lookup(s, room).value, error);
    }
  }

  lemma LeaveChannel(s: Manager, room: Handle, isSelf: bool, c: ChanId)
    requires Inv(s) && NoneParted(s) && c in Step(s, Leave(room, isSelf)).chans
    ensures ChannelAfter(s, Leave(room, isSelf), Step(s, Leave(room, isSelf)), c)
  {
    hide Conserved, OutcomeInv, TableInv, ReadyInv, ChangeState, Drop, Moved, Judgement;
    KnownRoom(s, room, c);
    if Lookup(s, room).Some? && isSelf {
      ChangedIs(s, Lookup(s, room).value, Parted);
      DroppedIs(ChangeState(s, Lookup(s, room).value, Parted), Lookup(s, room).value);
    }
  }

  lemma AddChannel(s: Manager, d: ChanId, refused: bool, c: ChanId)
    requires NoneParted(s) && Possible(s, AddSelf(d, refused)) && c in Step(s, AddSelf(d, refused)).chans
    ensures ChannelAfter(s, AddSelf(d, refused), Step(s, AddSelf(d, refused)), c)
  {
    hide ChangeState, Judgement;
    ChangedIs(Send(s, SendJoin(d)), d, Joining);
  }

  lemma ResolvedIs(s: Manager, c: ChanId)
    ensures var t := Resolve(s, c, Failed(Disconnected)); t.chans == s.chans && t.fired == s.fired
  {
  }

  lemma KnownRoom(s: Manager, room: Handle, c: ChanId)
    requires Inv(s)
    ensures c in s.chans ==> s.channels.Some? && Lookup(s, s.chans[c].room) == Some(c) && c < s.next
    ensures Lookup(s, room).Some? ==> Lookup(s, room).value in s.chans && s.chans[Lookup(s, room).value].room == room
    ensures forall d :: d in s.fired ==> d < s.next
  {
    hide Conserved, OutcomeInv;
  }

  lemma JoinChannel(s: Manager, room: Handle, isSelf: bool, c: ChanId)
    requires Inv(s) && NoneParted(s) && c in StepJoin(s, room, isSelf).chans
    ensures ChannelAfter(s, Join(room, isSelf), StepJoin(s, room, isSelf), c)
  {
    hide Conserved, OutcomeInv, ChangeState, TableInv, Judgement;
    KnownRoom(s, room, c);
    if s.channels.Some? {
      var u := if Lookup(s, room) == None then NewChannel(s, room, Seen) else s;
      ChangedIs(u, Lookup(u, room).value, Joined);
    }
  }

  lemma {:induction false} ChannelsOfRun(states: seq<Manager>, events: seq<Event>, i: nat)
    requires IsRun(states, events) && i < |states|
    ensures NoneParted(states[i])
    ensures i > 0 ==> forall c :: c in states[i].chans ==> ChannelAfter(states[i - 1], events[i - 1], states[i], c)
  {
    hide Inv, Step, Possible, ChannelAfter;
    if i > 0 {
      ChannelsOfRun(states, events, i - 1);
      RunKeeps(states, events, i - 1);
      forall c | c in states[i].chans
        ensures ChannelAfter(states[i - 1], events[i - 1], states[i], c) && !states[i].chans[c].state.Parted?
      {
        StepChannel(states[i - 1], events[i - 1], c);
        AfterIsNotParted(states[i - 1], events[i - 1], states[i], c);
      }
    }
  }

  lemma AfterIsNotParted(s: Manager, e: Event, u: Manager, c: ChanId)
    requires c in u.chans && ChannelAfter(s, e, u, c)
    ensures !u.chans[c].state.Parted?
  {
  }

  /** Our JOIN made the channel joined before state `i`, and no key was asked for since. */
  ghost predicate Inside(states: seq<Manager>, events: seq<Event>, i: nat, c: ChanId, room: Handle)
    requires i <= |events| < |states|
  {
    exists j :: 0 <= j < i && events[j] == Join(room, true) && c in states[j + 1].chans
                && forall k :: j < k < i ==> events[k] != BadChannelKey(room)
  }

  /** In every run a channel alive is joined exactly when we joined its room while it was
      there, and no key was asked for since. */
  lemma {:induction false} JoinedTellsHistory(states: seq<Manager>, events: seq<Event>, i: nat, c: ChanId)
    requires IsRun(states, events) && i <= |events| && c in states[i].chans
    ensures states[i].chans[c].state.Joined? <==> Inside(states, events, i, c, states[i].chans[c].room)
  {
    hide Inv, Step, Possible, Inside;
    if i > 0 {
      var s, e, u := states[i - 1], events[i - 1], states[i];
      ChannelsOfRun(states, events, i);
      assert ChannelAfter(s, e, u, c);
      InsideStep(states, events, i, c, u.chans[c].room);
      RunKeeps(states, events, i - 1);
      if c in s.chans {
        JoinedTellsHistory(states, events, i - 1, c);
      } else {
        NotBefore(states, events, i - 1, c, u.chans[c].room);
      }
    }
  }

  lemma InsideStep(states: seq<Manager>, events: seq<Event>, i: nat, c: ChanId, room: Handle)
    requires 0 < i <= |events| < |states| && c in states[i].chans
    ensures Inside(states, events, i, c, room) <==>
      events[i - 1] == Join(room, true) ||
      (Inside(states, events, i - 1, c, room) && events[i - 1] != BadChannelKey(room))
  {
  }

  /** A channel that is new in state `i + 1` was not there before. */
  lemma NotBefore(states: seq<Manager>, events: seq<Event>, i: nat, c: ChanId, room: Handle)
    requires IsRun(states, events) && i < |events| && c in states[i + 1].chans && c !in states[i].chans
    ensures !Inside(states, events, i, c, room)
  {
    hide Step, Possible, Inv, Sends;
    RunKeeps(states, events, i);
    IdsAreOld(states[i]);
    StepSends(states[i], events[i]);
    forall k | 1 <= k <= i ensures c !in states[k].chans {
      RunGrows(states, events, k, i);
      RunKeeps(states, events, k);
      IdsAreOld(states[k]);
    }
  }

  // ---- Which rooms are known ----

  /** An event about a room that makes it known. */
  predicate Begins(e: Event, room: Handle) {
    (e.Join? && e.room == room) || e == Invite(room, true) || (e.Request? && e.target == Some(room))
  }

  /** An event that makes the room of channel `c` unknown; a channel that is ready outlives the
      refusals of the server, and a joined one is not destroyed by a client. */
  ghost predicate Forgets(s: Manager, e: Event, room: Handle, c: ChanId) {
    || e == Leave(room, true) || e.Disconnect?
    || (e.CannotJoin? && e.room == room && c !in s.fired)
    || ((e == Close(c) || e == Destroy(c)) && c in s.chans && !s.chans[c].state.Joined?)
  }

  /** The event makes the room known, or it was known and the event does not make it unknown. */
  ghost predicate KnownAfter(s: Manager, e: Event, room: Handle) {
    s.channels.Some? && (Begins(e, room) || (Lookup(s, room).Some? && !Forgets(s, e, room, Lookup(s, room).value)))
  }

  /** In every run a room is known after an event exactly when the event makes it known, or it
      was known and the event does not make it unknown; no room is once we are disconnected. */
  lemma RoomsAfter(states: seq<Manager>, events: seq<Event>, i: nat, room: Handle)
    requires IsRun(states, events) && i < |events|
    ensures Lookup(states[i + 1], room).Some? <==> KnownAfter(states[i], events[i], room)
  {
    hide Inv, Step, KnownAfter, Possible;
    RunKeeps(states, events, i);
    ChannelsOfRun(states, events, i);
    StepRooms(states[i], events[i], room);
  }

  lemma StepRooms(s: Manager, e: Event, room: Handle)
    requires Inv(s) && NoneParted(s) && Possible(s, e)
    ensures Lookup(Step(s, e), room).Some? <==> KnownAfter(s, e, room)
  {
    hide Inv, ChangeState, JoinFailed, Drop, DropAll, Moved, Judgement, NoneParted;
    match e
    case Join(r, isSelf) => JoinRooms(s, r, isSelf, room);
    case BadChannelKey(r) =>
      KnownRoom(s, r, 0);
      if Lookup(s, r).Some? { ChangedIs(s, Lookup(s, r).value, NeedPassword); }
    case CannotJoin(r, error) => RefusedRooms(s, r, error, room);
    case Leave(r, isSelf) => LeaveRooms(s, r, isSelf, room);
    case AddSelf(d, _) => ChangedIs(Send(s, SendJoin(d)), d, Joining);
    case Close(d) => ClosedRooms(s, e, d, room);
    case Destroy(d) => ClosedRooms(s, e, d, room);
    case Disconnect(order) => AllDropped(s.(channels := None), order);
    case _ =>
  }

  lemma JoinRooms(s: Manager, r: Handle, isSelf: bool, room: Handle)
    requires Inv(s)
    ensures Lookup(StepJoin(s, r, isSelf), room).Some? <==> KnownAfter(s, Join(r, isSelf), room)
  {
    hide Inv, ChangeState, Moved, Judgement;
    KnownRoom(s, r, 0);
    if s.channels.Some? {
      var u := if Lookup(s, r) == None then NewChannel(s, r, Seen) else s;
      ChangedIs(u, Lookup(u, r).value, Joined);
    }
  }

  lemma RefusedRooms(s: Manager, r: Handle, error: Error, room: Handle)
    requires Inv(s) && Possible(s, CannotJoin(r, error))
    ensures Lookup(Step(s, CannotJoin(r, error)), room).Some? <==> KnownAfter(s, CannotJoin(r, error), room)
  {
    hide Conserved, OutcomeInv, TableInv, JoinFailed;
    KnownRoom(s, r, 0);
    if Lookup(s, r).Some? {
      FailedIs(s, Lookup(s, r).value, error);
    }
  }

  lemma LeaveRooms(s: Manager, r: Handle, isSelf: bool, room: Handle)
    requires Inv(s)
    ensures Lookup(Step(s, Leave(r, isSelf)), room).Some? <==> KnownAfter(s, Leave(r, isSelf), room)
  {
    hide Inv, ChangeState, Drop, Moved, Judgement;
    KnownRoom(s, r, 0);
    if Lookup(s, r).Some? {
      ChangedIs(s, Lookup(s, r).value, Parted);
      DroppedIs(ChangeState(s, Lookup(s, r).value, Parted), Lookup(s, r).value);
    }
  }

  lemma ClosedRooms(s: Manager, e: Event, d: ChanId, room: Handle)
    requires Inv(s) && NoneParted(s) && d in s.chans && (e == Close(d) || e == Destroy(d))
    ensures Lookup(Step(s, e), room).Some? <==> KnownAfter(s, e, room)
  {
    hide Inv, Drop;
    KnownRoom(s, room, d);
    DroppedIs(s, d);
  }

  // ---- Passwords ----

  /** A password that waits on channel `c` is judged by the next JOIN of ours or the next bad
      key, where a key was what the channel waited for. */
  ghost predicate IsJudged(s: Manager, e: Event, c: ChanId)
    requires c in s.chans
  {
    s.chans[c].state.NeedPassword? && (e == Join(s.chans[c].room, true) || e == BadChannelKey(s.chans[c].room))
  }

  /** A password is taken where the channel asks for one and none is being judged. */
  ghost predicate IsTaken(s: Manager, e: Event, c: ChanId)
    requires c in s.chans
  {
    e.ProvidePassword? && e.chan == c && s.chans[c].providePassword && s.chans[c].context.None?
  }

  /** What one event does for the password of a channel. */
  ghost predicate PasswordAfter(s: Manager, e: Event, u: Manager, c: ChanId)
    requires c in s.chans
  {
    var ch := s.chans[c];
    && (IsJudged(s, e, c) && ch.context.Some? ==> u.replies == s.replies + [Judged(ch.context.value, e.Join?)])
    && (IsTaken(s, e, c) ==> u.replies == s.replies && u.sent == s.sent + [SendJoin(c)])
    && (e.ProvidePassword? && e.chan == c && !IsTaken(s, e, c) ==> u.replies == s.replies + [NotNeeded(e.context)])
    && (c in u.chans ==>
          && u.chans[c].context
             == (if IsJudged(s, e, c) then None else if IsTaken(s, e, c) then Some(e.context) else ch.context)
          && u.chans[c].providePassword
             == if e == Join(ch.room, true) && ch.state.NeedPassword? then false
                else ch.providePassword ||
                     (e == BadChannelKey(ch.room) && !ch.state.NeedPassword? && !ch.state.Joined?))
  }

  /** In every run: a password taken waits for its judgement, which says whether we were let
      in; one not taken is answered at once.  A channel asks from the first bad key of its joining
      until the JOIN after a key. */
  lemma PasswordsAreJudged(states: seq<Manager>, events: seq<Event>, i: nat, c: ChanId)
    requires IsRun(states, events) && i < |events| && c in states[i].chans
    ensures PasswordAfter(states[i], events[i], states[i + 1], c)
  {
    hide Inv, Step, Possible, PasswordAfter;
    RunKeeps(states, events, i);
    ChannelsOfRun(states, events, i);
    StepPasswords(states[i], events[i], c);
  }

  lemma StepPasswords(s: Manager, e: Event, c: ChanId)
    requires Inv(s) && NoneParted(s) && Possible(s, e) && c in s.chans
    ensures PasswordAfter(s, e, Step(s, e), c)
  {
    hide Inv, NoneParted, PasswordAfter, ChangeState, JoinFailed, Drop, DropAll, Resolve, StepJoin, StepPassword;
    KnownRoom(s, s.chans[c].room, c);
    match e
    case Request(_, _, _) => UntouchedPassword(s, e, Step(s, e), c);
    case Join(r, isSelf) => JoinPassword(s, r, isSelf, c);
    case Invite(_, _) => UntouchedPassword(s, e, Step(s, e), c);
    case BadChannelKey(r) => KeyPassword(s, r, c);
    case CannotJoin(r, error) =>
      KnownRoom(s, r, c);
      if Lookup(s, r).Some? { FailedIs(s, Lookup(s, r).value, error); }
      UntouchedPassword(s, e, Step(s, e), c);
    case Leave(r, isSelf) => LeavePassword(s, r, isSelf, c);
    case AddSelf(d, _) =>
      ChangedIs(Send(s, SendJoin(d)), d, Joining);
      UntouchedPassword(s, e, Step(s, e), c);
    case ProvidePassword(d, context) => GivenPassword(s, d, context, c);
    case Close(d) =>
      DroppedIs(s, d);
      ResolvedIs(s, d);
      UntouchedPassword(s, e, Step(s, e), c);
    case Destroy(d) =>
      DroppedIs(s, d);
      UntouchedPassword(s, e, Step(s, e), c);
    case Disconnect(order) =>
      AllDropped(s.(channels := None), order);
      UntouchedPassword(s, e, Step(s, e), c);
  }

  /** Events that have nothing to do with passwords. */
  lemma UntouchedPassword(s: Manager, e: Event, u: Manager, c: ChanId)
    requires c in s.chans && !e.Join? && !e.BadChannelKey? && !e.ProvidePassword?
    requires c in u.chans ==> u.chans[c].context == s.chans[c].context
                              && u.chans[c].providePassword == s.chans[c].providePassword
    ensures PasswordAfter(s, e, u, c)
  {
  }

  lemma JoinPassword(s: Manager, r: Handle, isSelf: bool, c: ChanId)
    requires Inv(s) && NoneParted(s) && c in s.chans
    ensures PasswordAfter(s, Join(r, isSelf), Step(s, Join(r, isSelf)), c)
  {
    hide Inv, ChangeState;
    KnownRoom(s, r, c);
    var u := if Lookup(s, r) == None then NewChannel(s, r, Seen) else s;
    ChangedIs(u, Lookup(u, r).value, Joined);
  }

  lemma KeyPassword(s: Manager, r: Handle, c: ChanId)
    requires Inv(s) && NoneParted(s) && c in s.chans
    ensures PasswordAfter(s, BadChannelKey(r), Step(s, BadChannelKey(r)), c)
  {
    hide Inv, ChangeState;
    KnownRoom(s, r, c);
    if Lookup(s, r).Some? {
      ChangedIs(s, Lookup(s, r).value, NeedPassword);
    }
  }

  lemma LeavePassword(s: Manager, r: Handle, isSelf: bool, c: ChanId)
    requires Inv(s) && c in s.chans
    ensures PasswordAfter(s, Leave(r, isSelf), Step(s, Leave(r, isSelf)), c)
  {
    hide Inv, ChangeState, Drop, Moved, Judgement, PasswordAfter;
    KnownRoom(s, r, c);
    if Lookup(s, r).Some? {
      ChangedIs(s, Lookup(s, r).value, Parted);
      DroppedIs(ChangeState(s, Lookup(s, r).value, Parted), Lookup(s, r).value);
    }
    UntouchedPassword(s, Leave(r, isSelf), Step(s, Leave(r, isSelf)), c);
  }

  lemma GivenPassword(s: Manager, d: ChanId, context: Context, c: ChanId)
    requires c in s.chans && d in s.chans
    ensures PasswordAfter(s, ProvidePassword(d, context), StepPassword(s, d, context), c)
  {
  }

  /** A password that waits is judged, or one that is given now is not taken. */
  ghost predicate HasReply(s: Manager, e: Event, c: ChanId)
    requires c in s.chans
  {
    || (IsJudged(s, e, c) && s.chans[c].context.Some?)
    || (e.ProvidePassword? && e.chan == c && !IsTaken(s, e, c))
  }

  /** And nothing else is ever answered. */
  lemma NoOtherReply(states: seq<Manager>, events: seq<Event>, i: nat)
    requires IsRun(states, events) && i < |events| && states[i + 1].replies != states[i].replies
    ensures exists c :: c in states[i].chans && HasReply(states[i], events[i], c)
  {
    hide Inv, Step, Possible, HasReply;
    RunKeeps(states, events, i);
    StepReplies(states[i], events[i]);
  }

  lemma StepReplies(s: Manager, e: Event)
    requires Inv(s) && Possible(s, e) && Step(s, e).replies != s.replies
    ensures exists c :: c in s.chans && HasReply(s, e, c)
  {
    hide Conserved, OutcomeInv, TableInv, ReadyInv, ChangeState, JoinFailed, Drop, DropAll, Resolve;
    match e
    case Join(r, isSelf) =>
      KnownRoom(s, r, 0);
      var u := if Lookup(s, r) == None then NewChannel(s, r, Seen) else s;
      ChangedIs(u, Lookup(u, r).value, Joined);
      assert Lookup(s, r).Some? ==> HasReply(s, e, Lookup(s, r).value);
    case BadChannelKey(r) =>
      KnownRoom(s, r, 0);
      ChangedIs(s, Lookup(s, r).value, NeedPassword);
      assert HasReply(s, e, Lookup(s, r).value);
    case CannotJoin(r, error) =>
      KnownRoom(s, r, 0);
      if Lookup(s, r).Some? { FailedIs(s, Lookup(s, r).value, error); }
    case Leave(r, isSelf) =>
      KnownRoom(s, r, 0);
      if Lookup(s, r).Some? {
        ChangedIs(s, Lookup(s, r).value, Parted);
        DroppedIs(ChangeState(s, Lookup(s, r).value, Parted), Lookup(s, r).value);
      }
    case AddSelf(d, _) => ChangedIs(Send(s, SendJoin(d)), d, Joining);
    case ProvidePassword(c, _) => assert HasReply(s, e, c);
    case Close(d) => DroppedIs(s, d);
    case Destroy(d) => DroppedIs(s, d);
    case Disconnect(order) => AllDropped(s.(channels := None), order);
    case _ =>
  }
}
