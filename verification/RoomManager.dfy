/** Room requests and the channels they wait for (`idle-muc-manager.c`, with the life of
    a channel from `idle-muc-channel.c`). */
module RoomManager {
  import opened Seqs
  import opened Wrappers

  type Handle = nat
  type Token = nat

  /** Identifies one channel object; an object gone is never met again. */
  type ChanId = nat

  datatype MucState = Created | Joining | NeedPassword | Joined | Parted

  predicate PastJoining(state: MucState) {
    state.NeedPassword? || state.Joined? || state.Parted?
  }

  /** How a channel came to be: asked for by a client, by an invitation, or by the JOIN of
      somebody in an unknown room. */
  datatype Origin = Requested | Invited | Seen

  type Context = nat

  /** `providePassword` is the password flag, `context` the D-Bus call that waits for the
      server to judge a password. */
  datatype Channel = Channel(room: Handle, origin: Origin, state: MucState, joinReady: bool,
                             providePassword: bool, context: Option<Context>)

  datatype Command = SendJoin(chan: ChanId) | SendPart(chan: ChanId)

  datatype PasswordReply = Judged(context: Context, success: bool) | NotNeeded(context: Context)

  datatype Error = Invalid | NotAvailable | Disconnected | Banned | Full | InviteOnly

  datatype Outcome = Satisfied(chan: ChanId) | Failed(error: Error)

  /** A request, and the channel that it waits or waited for; `None` where it was
      answered on the spot. */
  datatype Entry = Entry(via: Option<ChanId>, token: Token)

  datatype Answer = Answer(entry: Entry, outcome: Outcome)

  /**
   * The manager: the table of rooms (absent once the connection is down), the channel
   * objects alive, and per channel the requests queued, newest first.  The rest is
   * history: requests accepted, answers given, channels that emitted join-ready, commands
   * sent, and replies to passwords.
   */
  datatype Manager = Manager(
    channels: Option<map<Handle, ChanId>>, chans: map<ChanId, Channel>, queued: map<ChanId, seq<Token>>, next: ChanId,
    asked: seq<Entry>, answers: seq<Answer>, fired: seq<ChanId>, sent: seq<Command>, replies: seq<PasswordReply>)

  const INITIAL := Manager(Some(map[]), map[], map[], 0, [], [], [], [], [])

  /** The channel that a message about `room` is for. */
  function Lookup(s: Manager, room: Handle): Option<ChanId> {
    if s.channels.Some? && room in s.channels.value then Some(s.channels.value[room]) else None
  }

  // ---- The pieces of a step ----

  /** The requests queued under a channel, oldest first. */
  function Queue(queued: map<ChanId, seq<Token>>, c: ChanId): seq<Token> {
    if c in queued then Reversed(queued[c]) else []
  }

  function AnswerAll(c: ChanId, tokens: seq<Token>, outcome: Outcome): seq<Answer> {
    seq(|tokens|, i requires 0 <= i < |tokens| => Answer(Entry(Some(c), tokens[i]), outcome))
  }

  /** `take_request_tokens`, and the same answer to each of them. */
  function Resolve(s: Manager, c: ChanId, outcome: Outcome): (t: Manager)
    ensures t == s.(queued := t.queued, answers := t.answers)
  {
    s.(queued := s.queued - {c}, answers := s.answers + AnswerAll(c, Queue(s.queued, c), outcome))
  }

  /** An answer on the spot. */
  function Immediate(s: Manager, token: Token, outcome: Outcome): Manager {
    var e := Entry(None, token);
    s.(asked := s.asked + [e], answers := s.answers + [Answer(e, outcome)])
  }

  /** `associate_request`. */
  function Associate(s: Manager, c: ChanId, token: Token): Manager {
    s.(asked := s.asked + [Entry(Some(c), token)],
       queued := s.queued[c := [token] + (if c in s.queued then s.queued[c] else [])])
  }

  /** `_muc_manager_new_channel`; the new channel is `s.next`. */
  function NewChannel(s: Manager, room: Handle, origin: Origin): Manager
    requires s.channels.Some?
  {
    s.(channels := Some(s.channels.value[room := s.next]),
       chans := s.chans[s.next := Channel(room, origin, Created, false, false, None)], next := s.next + 1)
  }

  function Send(s: Manager, cmd: Command): Manager {
    s.(sent := s.sent + [cmd])
  }

  /** A channel is destroyed: `_channel_closed_cb`, and the object goes. */
  function Drop(s: Manager, c: ChanId): Manager
    requires c in s.chans
  {
    var t := Resolve(s, c, Failed(Disconnected));
    t.(channels := match t.channels { case Some(table) => Some(table - {s.chans[c].room}) case None => None },
       chans := t.chans - {c})
  }

  /** A password was awaited, and the server lets us in or asks again. */
  predicate Judges(from: MucState, to: MucState) {
    from.NeedPassword? && (to.Joined? || to.NeedPassword?)
  }

  /** The fields of a channel after a change of state. */
  function Moved(ch: Channel, state: MucState): (moved: Channel)
    ensures moved.room == ch.room && moved.origin == ch.origin
  {
    ch.(state := state, joinReady := ch.joinReady || PastJoining(state),
        providePassword := if ch.state.NeedPassword? && state.Joined? then false
                           else ch.providePassword || (state.NeedPassword? && !PastJoining(ch.state)),
        context := if Judges(ch.state, state) then None else ch.context)
  }

  function Judgement(ch: Channel, state: MucState): seq<PasswordReply> {
    if Judges(ch.state, state) && ch.context.Some? then [Judged(ch.context.value, state.Joined?)] else []
  }

  /** `change_state`: past joining for the first time, the waiting requests are satisfied. */
  function ChangeState(s: Manager, c: ChanId, state: MucState): Manager
    requires c in s.chans
  {
    var ch := s.chans[c];
    var t := if PastJoining(state) && !ch.joinReady then Resolve(s, c, Satisfied(c)).(fired := s.fired + [c]) else s;
    t.(chans := t.chans[c := Moved(ch, state)], replies := t.replies + Judgement(ch, state))
  }

  /** `idle_muc_channel_join_error` and its callback, which forgets the channel. */
  function JoinFailed(s: Manager, c: ChanId, error: Error): Manager
    requires c in s.chans
  {
    if s.chans[c].joinReady then s
    else
      var t := Resolve(s, c, Failed(error)).(fired := s.fired + [c]);
      Drop(t.(chans := t.chans[c := s.chans[c].(joinReady := true)]), c)
  }

  /** The channels go one after the other. */
  function DropAll(s: Manager, order: seq<ChanId>): Manager
    decreases |order|
  {
    if order == [] then s
    else if order[0] in s.chans then DropAll(Drop(s, order[0]), order[1..]) else DropAll(s, order[1..])
  }

  // ---- Steps ----

  datatype Event =
    /** A client asks for a room; no target where its handle, name or properties are rejected. */
    | Request(token: Token, target: Option<Handle>, requireNew: bool)
    | Join(room: Handle, isSelf: bool)
    | Invite(room: Handle, isSelf: bool)
    | BadChannelKey(room: Handle)
    | CannotJoin(room: Handle, error: Error)
    /** PART, KICK, or QUIT for one channel. */
    | Leave(room: Handle, isSelf: bool)
    /** A client adds us to the group; refused when we are in it or waiting already. */
    | AddSelf(chan: ChanId, refused: bool)
    /** A client gives a password for a channel that needs one. */
    | ProvidePassword(chan: ChanId, context: Context)
    | Close(chan: ChanId)
    | Destroy(chan: ChanId)
    /** The connection goes down; the table gives up its channels in some order. */
    | Disconnect(order: seq<ChanId>)

  ghost predicate Possible(s: Manager, e: Event) {
    match e
    case Request(_, _, _) => s.channels.Some?
    case AddSelf(c, refused) => c in s.chans && (s.chans[c].state.Joined? ==> refused)
    case ProvidePassword(c, _) => c in s.chans
    case Close(c) => c in s.chans
    case Destroy(c) => c in s.chans
    case CannotJoin(_, error) => error in {Banned, Full, InviteOnly}
    case Disconnect(order) => forall c :: c in order <==> c in s.chans
    case _ => true
  }

  function StepRequest(s: Manager, token: Token, target: Option<Handle>, requireNew: bool): Manager
    requires s.channels.Some?
  {
    match target
    case None => Immediate(s, token, Failed(Invalid))
    case Some(room) =>
      match Lookup(s, room)
      case None => Associate(Send(NewChannel(s, room, Requested), SendJoin(s.next)), s.next, token)
      case Some(c) =>
        if requireNew then Immediate(s, token, Failed(NotAvailable))
        else if c in s.chans && s.chans[c].joinReady then Immediate(s, token, Satisfied(c))
        else Associate(s, c, token)
  }

  function StepJoin(s: Manager, room: Handle, isSelf: bool): Manager {
    if s.channels.None? then s
    else
      var t := if Lookup(s, room) == None then NewChannel(s, room, Seen) else s;
      var c := Lookup(t, room).value;
      if isSelf && c in t.chans then ChangeState(t, c, Joined) else t
  }

  function StepLeave(s: Manager, c: ChanId): Manager
    requires c in s.chans
  {
    Drop(ChangeState(s, c, Parted), c)
  }

  /** `idle_muc_channel_provide_password`. */
  function StepPassword(s: Manager, c: ChanId, context: Context): Manager
    requires c in s.chans
  {
    if !s.chans[c].providePassword || s.chans[c].context.Some? then s.(replies := s.replies + [NotNeeded(context)])
    else Send(s, SendJoin(c)).(chans := s.chans[c := s.chans[c].(context := Some(context))])
  }

  function Step(s: Manager, e: Event): Manager
    requires Possible(s, e)
  {
    match e
    case Request(token, target, requireNew) => StepRequest(s, token, target, requireNew)
    case Join(room, isSelf) => StepJoin(s, room, isSelf)
    case Invite(room, isSelf) =>
      if isSelf && s.channels.Some? && Lookup(s, room) == None then NewChannel(s, room, Invited) else s
    case BadChannelKey(room) =>
      (match Lookup(s, room)
       case Some(c) => if c in s.chans then ChangeState(s, c, NeedPassword) else s
       case None => s)
    case CannotJoin(room, error) =>
      (match Lookup(s, room)
       case Some(c) => if c in s.chans then JoinFailed(s, c, error) else s
       case None => s)
    case Leave(room, isSelf) =>
      (match Lookup(s, room)
       case Some(c) => if isSelf && c in s.chans then StepLeave(s, c) else s
       case None => s)
    case AddSelf(c, refused) => if refused then s else ChangeState(Send(s, SendJoin(c)), c, Joining)
    case ProvidePassword(c, context) => StepPassword(s, c, context)
    case Close(c) => if s.chans[c].state.Joined? then Resolve(s, c, Failed(Disconnected)) else Drop(s, c)
    case Destroy(c) =>
      if s.chans[c].state.Joined? then Send(s, SendPart(c)) else if s.chans[c].state.Parted? then s else Drop(s, c)
    case Disconnect(order) => DropAll(s.(channels := None), order)
  }

  // ---- What every step keeps ----

  /** The requests of one channel (or those answered on the spot) in the order of the log. */
  function Of(v: Option<ChanId>, log: seq<Entry>): seq<Token> {
    if log == [] then []
    else
      var e := log[|log| - 1];
      Of(v, log[..|log| - 1]) + (if e.via == v then [e.token] else [])
  }

  function Answered(answers: seq<Answer>): seq<Entry> {
    seq(|answers|, i requires 0 <= i < |answers| => answers[i].entry)
  }

  function Waiting(queued: map<ChanId, seq<Token>>, v: Option<ChanId>): seq<Token> {
    match v
    case None => []
    case Some(c) => Queue(queued, c)
  }

  /** Per channel: the requests accepted are those answered followed by those waiting. */
  ghost predicate Conserved(s: Manager) {
    forall v :: Of(v, s.asked) == Of(v, Answered(s.answers)) + Waiting(s.queued, v)
  }

  /** The table and the channels alive name each other, so a room has at most one channel. */
  ghost predicate TableInv(s: Manager) {
    && (s.channels.None? ==> s.chans == map[])
    && (s.channels.Some? ==>
          && (forall r :: r in s.channels.value ==>
                s.channels.value[r] in s.chans && s.chans[s.channels.value[r]].room == r)
          && (forall c :: c in s.chans ==>
                s.chans[c].room in s.channels.value && s.channels.value[s.chans[c].room] == c))
  }

  /** Requests wait only under channels alive that have not emitted join-ready, and no
      channel emits it twice. */
  ghost predicate ReadyInv(s: Manager) {
    && (forall c :: c in s.queued ==> c in s.chans && !s.chans[c].joinReady)
    && (forall c :: c in s.chans ==> c < s.next && (PastJoining(s.chans[c].state) ==> s.chans[c].joinReady))
    && (forall c :: c in s.chans ==> (s.chans[c].joinReady <==> c in s.fired))
    && (forall c :: c in s.chans && s.chans[c].providePassword ==> s.chans[c].joinReady)
    && (forall i :: 0 <= i < |s.sent| ==> s.sent[i].chan < s.next)
    && (forall i :: 0 <= i < |s.fired| ==> s.fired[i] < s.next)
    && (forall i, j :: 0 <= i < j < |s.fired| ==> s.fired[i] != s.fired[j])
  }

  /** A request is satisfied with the channel it waited for, once that one is ready. */
  ghost predicate OutcomeInv(s: Manager) {
    forall i :: 0 <= i < |s.answers| && s.answers[i].outcome.Satisfied? ==>
      && s.answers[i].outcome.chan in s.fired
      && (s.answers[i].entry.via.Some? ==> s.answers[i].entry.via.value == s.answers[i].outcome.chan)
  }

  ghost predicate Inv(s: Manager) {
    TableInv(s) && ReadyInv(s) && Conserved(s) && OutcomeInv(s)
  }

  lemma {:induction false} OfConcat(v: Option<ChanId>, a: seq<Entry>, b: seq<Entry>)
    ensures Of(v, a + b) == Of(v, a) + Of(v, b)
  {
    if b == [] {
      assert a + b == a;
    } else {
      var e := b[|b| - 1];
      OfConcat(v, a, b[..|b| - 1]);
      assert (a + b)[..|a + b| - 1] == a + b[..|b| - 1];
      Assoc(Of(v, a), Of(v, b[..|b| - 1]), if e.via == v then [e.token] else []);
    }
  }

  lemma {:induction false} OfAnswerAll(v: Option<ChanId>, c: ChanId, tokens: seq<Token>, outcome: Outcome)
    ensures Of(v, Answered(AnswerAll(c, tokens, outcome))) == if v == Some(c) then tokens else []
  {
    var log := Answered(AnswerAll(c, tokens, outcome));
    if tokens != [] {
      var init := tokens[..|tokens| - 1];
      OfAnswerAll(v, c, init, outcome);
      assert log[..|log| - 1] == Answered(AnswerAll(c, init, outcome));
      assert tokens == init + [tokens[|tokens| - 1]];
    }
  }

  lemma AnsweredConcat(a: seq<Answer>, b: seq<Answer>)
    ensures Answered(a + b) == Answered(a) + Answered(b)
  {
  }

  lemma ResolveConserves(s: Manager, c: ChanId, outcome: Outcome)
    requires Conserved(s)
    ensures Conserved(Resolve(s, c, outcome))
  {
    hide Of, AnswerAll, Answered, Conserved;
    var t := Resolve(s, c, outcome);
    forall v ensures Of(v, t.asked) == Of(v, Answered(t.answers)) + Waiting(t.queued, v) {
      ConservedAt(s, v);
      var more := AnswerAll(c, Queue(s.queued, c), outcome);
      AnsweredConcat(s.answers, more);
      OfConcat(v, Answered(s.answers), Answered(more));
      OfAnswerAll(v, c, Queue(s.queued, c), outcome);
    }
    ConservedIntro(t);
  }

  lemma ConservedAt(s: Manager, v: Option<ChanId>)
    requires Conserved(s)
    ensures Of(v, s.asked) == Of(v, Answered(s.answers)) + Waiting(s.queued, v)
  {
  }

  lemma ConservedIntro(s: Manager)
    requires forall v :: Of(v, s.asked) == Of(v, Answered(s.answers)) + Waiting(s.queued, v)
    ensures Conserved(s)
  {
  }

  lemma ImmediateConserves(s: Manager, token: Token, outcome: Outcome)
    requires Conserved(s)
    ensures Conserved(Immediate(s, token, outcome))
  {
    hide Answered, Conserved, Waiting;
    var t := Immediate(s, token, outcome);
    var e := Entry(None, token);
    forall v ensures Of(v, t.asked) == Of(v, Answered(t.answers)) + Waiting(t.queued, v) {
      ConservedAt(s, v);
      AnsweredConcat(s.answers, [Answer(e, outcome)]);
      OneAnswered(Answer(e, outcome));
      assert Waiting(s.queued, None) == [] by { NoneWaits(s.queued); }
    }
    ConservedIntro(t);
  }

  lemma OneAnswered(a: Answer)
    ensures Answered([a]) == [a.entry]
  {
  }

  lemma NoneWaits(queued: map<ChanId, seq<Token>>)
    ensures Waiting(queued, None) == []
  {
  }

  lemma AssociateConserves(s: Manager, c: ChanId, token: Token)
    requires Conserved(s)
    ensures Conserved(Associate(s, c, token))
  {
    hide Answered, Conserved;
    var t := Associate(s, c, token);
    forall v ensures Of(v, t.asked) == Of(v, Answered(t.answers)) + Waiting(t.queued, v) {
      ConservedAt(s, v);
      OfConcat(v, s.asked, [Entry(Some(c), token)]);
      if v == Some(c) {
        var before := if c in s.queued then s.queued[c] else [];
        assert t.queued[c] == [token] + before && ([token] + before)[1..] == before;
        assert Queue(s.queued, c) == Reversed(before);
        assert Waiting(t.queued, v) == Waiting(s.queued, v) + [token];
        Assoc(Of(v, Answered(s.answers)), Waiting(s.queued, v), [token]);
      } else {
        assert Waiting(t.queued, v) == Waiting(s.queued, v);
      }
    }
    ConservedIntro(t);
  }

  lemma SameLogs(s: Manager, t: Manager)
    requires Conserved(s) && (s.asked, s.answers, s.queued) == (t.asked, t.answers, t.queued)
    ensures Conserved(t)
  {
    hide Of, Answered, Waiting, Conserved;
    forall v ensures Of(v, t.asked) == Of(v, Answered(t.answers)) + Waiting(t.queued, v) {
      ConservedAt(s, v);
    }
    ConservedIntro(t);
  }

  lemma ResolveKeeps(s: Manager, c: ChanId, outcome: Outcome)
    requires ReadyInv(s) && Conserved(s) && OutcomeInv(s)
    ensures ReadyInv(Resolve(s, c, outcome)) && Conserved(Resolve(s, c, outcome))
    ensures outcome.Failed? ==> OutcomeInv(Resolve(s, c, outcome))
    ensures outcome == Satisfied(c) ==> OutcomeInv(Resolve(s, c, outcome).(fired := s.fired + [c]))
  {
    ResolveConserves(s, c, outcome);
    hide Conserved;
  }

  lemma DropKeeps(s: Manager, c: ChanId)
    requires ReadyInv(s) && Conserved(s) && OutcomeInv(s) && c in s.chans
    ensures ReadyInv(Drop(s, c)) && Conserved(Drop(s, c)) && OutcomeInv(Drop(s, c))
    ensures TableInv(s) ==> TableInv(Drop(s, c))
  {
    hide Conserved;
    ResolveKeeps(s, c, Failed(Disconnected));
    SameLogs(Resolve(s, c, Failed(Disconnected)), Drop(s, c));
  }

  /** Another record for a channel, of the same room and no less ready. */
  predicate MayBecome(ch: Channel, ch': Channel) {
    && ch'.room == ch.room && (ch.joinReady ==> ch'.joinReady)
    && (PastJoining(ch'.state) ==> ch'.joinReady) && (ch'.providePassword ==> ch'.joinReady)
  }

  /** Join-ready is emitted for a channel that has not emitted it. */
  lemma FireKeeps(s: Manager, c: ChanId, ch': Channel, outcome: Outcome)
    requires Inv(s) && c in s.chans && !s.chans[c].joinReady && (outcome.Failed? || outcome == Satisfied(c))
    requires MayBecome(s.chans[c], ch') && ch'.joinReady
    ensures var t := Resolve(s, c, outcome); Inv(t.(fired := s.fired + [c], chans := t.chans[c := ch']))
  {
    hide Conserved, PastJoining;
    var t := Resolve(s, c, outcome);
    ResolveKeeps(s, c, outcome);
    SameLogs(t, t.(fired := s.fired + [c], chans := t.chans[c := ch']));
  }

  lemma MoveKeeps(s: Manager, c: ChanId, ch': Channel)
    requires Inv(s) && c in s.chans && MayBecome(s.chans[c], ch') && ch'.joinReady == s.chans[c].joinReady
    ensures Inv(s.(chans := s.chans[c := ch']))
  {
    hide Conserved, PastJoining;
    SameLogs(s, s.(chans := s.chans[c := ch']));
  }

  /** Replies to passwords, and commands to channels that exist, do not matter. */
  lemma RecordKeeps(s: Manager, t: Manager)
    requires Inv(s) && t == s.(sent := t.sent, replies := t.replies)
    requires forall i :: 0 <= i < |t.sent| ==> t.sent[i].chan < t.next
    ensures Inv(t)
  {
    hide Conserved, TableInv;
    SameLogs(s, t);
    assert TableInv(t) by { SameTable(s, t); }
  }

  lemma SameTable(s: Manager, t: Manager)
    requires TableInv(s) && s.channels == t.channels && s.chans == t.chans
    ensures TableInv(t)
  {
  }

  lemma SendKeeps(s: Manager, cmd: Command)
    requires Inv(s) && cmd.chan < s.next
    ensures Inv(Send(s, cmd))
  {
    RecordKeeps(s, Send(s, cmd));
  }

  lemma AliveIsOld(s: Manager, c: ChanId)
    requires ReadyInv(s) && c in s.chans
    ensures c < s.next
  {
  }

  lemma MovedIsFine(s: Manager, c: ChanId, state: MucState)
    requires ReadyInv(s) && c in s.chans
    ensures MayBecome(s.chans[c], Moved(s.chans[c], state))
  {
  }

  lemma ChangeStateKeeps(s: Manager, c: ChanId, state: MucState)
    requires Inv(s) && c in s.chans
    ensures Inv(ChangeState(s, c, state)) && c in ChangeState(s, c, state).chans
  {
    var ch := s.chans[c];
    MovedIsFine(s, c, state);
    SentIsOld(s);
    var t := if PastJoining(state) && !ch.joinReady then Resolve(s, c, Satisfied(c)).(fired := s.fired + [c]) else s;
    var u := t.(chans := t.chans[c := Moved(ch, state)]);
    hide Inv, MayBecome, Judgement;
    if PastJoining(state) && !ch.joinReady {
      FireKeeps(s, c, Moved(ch, state), Satisfied(c));
    } else {
      MoveKeeps(s, c, Moved(ch, state));
    }
    RecordKeeps(u, u.(replies := u.replies + Judgement(ch, state)));
  }

  lemma SentIsOld(s: Manager)
    requires ReadyInv(s)
    ensures forall i :: 0 <= i < |s.sent| ==> s.sent[i].chan < s.next
  {
  }

  lemma JoinFailedKeeps(s: Manager, c: ChanId, error: Error)
    requires Inv(s) && c in s.chans
    ensures Inv(JoinFailed(s, c, error))
  {
    if !s.chans[c].joinReady {
      var ch' := s.chans[c].(joinReady := true);
      FireKeeps(s, c, ch', Failed(error));
      hide Conserved, TableInv, ReadyInv, OutcomeInv;
      var t := Resolve(s, c, Failed(error)).(fired := s.fired + [c]);
      DropKeeps(t.(chans := t.chans[c := ch']), c);
    }
  }

  lemma NewChannelKeeps(s: Manager, room: Handle, origin: Origin)
    requires Inv(s) && s.channels.Some? && Lookup(s, room) == None
    ensures var t := NewChannel(s, room, origin);
      Inv(t) && Lookup(t, room) == Some(s.next) && s.next in t.chans && !t.chans[s.next].joinReady
  {
    hide Conserved;
    SameLogs(s, NewChannel(s, room, origin));
  }

  lemma LookupIsAlive(s: Manager, room: Handle)
    requires TableInv(s) && Lookup(s, room).Some?
    ensures Lookup(s, room).value in s.chans
  {
  }

  lemma AssociateKeeps(s: Manager, c: ChanId, token: Token)
    requires Inv(s) && c in s.chans && !s.chans[c].joinReady
    ensures Inv(Associate(s, c, token))
  {
    hide Conserved;
    AssociateConserves(s, c, token);
  }

  lemma ImmediateKeeps(s: Manager, token: Token, outcome: Outcome)
    requires Inv(s) && (outcome.Satisfied? ==> outcome.chan in s.fired)
    ensures Inv(Immediate(s, token, outcome))
  {
    ImmediateConserves(s, token, outcome);
    hide Conserved;
  }

  lemma {:induction false} DropAllKeeps(s: Manager, order: seq<ChanId>)
    requires ReadyInv(s) && Conserved(s) && OutcomeInv(s) && s.channels.None?
    requires forall c :: c in s.chans ==> c in order
    ensures Inv(DropAll(s, order))
    decreases |order|
  {
    hide Conserved, ReadyInv, OutcomeInv;
    if order != [] {
      if order[0] in s.chans {
        DropKeeps(s, order[0]);
        DropAllKeeps(Drop(s, order[0]), order[1..]);
      } else {
        DropAllKeeps(s, order[1..]);
      }
    }
  }

  lemma ReadyHasFired(s: Manager, c: ChanId)
    requires ReadyInv(s) && c in s.chans && s.chans[c].joinReady
    ensures c in s.fired
  {
  }

  lemma RequestKeeps(s: Manager, token: Token, target: Option<Handle>, requireNew: bool)
    requires Inv(s) && s.channels.Some?
    ensures Inv(StepRequest(s, token, target, requireNew))
  {
    hide Conserved, ReadyInv, TableInv, OutcomeInv, Immediate, Associate, NewChannel;
    match target
    case None => ImmediateKeeps(s, token, Failed(Invalid));
    case Some(room) =>
      match Lookup(s, room)
      case None =>
        NewChannelKeeps(s, room, Requested);
        var t := NewChannel(s, room, Requested);
        AliveIsOld(t, s.next);
        SendKeeps(t, SendJoin(s.next));
        AssociateKeeps(Send(t, SendJoin(s.next)), s.next, token);
      case Some(c) =>
        LookupIsAlive(s, room);
        if requireNew {
          ImmediateKeeps(s, token, Failed(NotAvailable));
        } else if s.chans[c].joinReady {
          ReadyHasFired(s, c);
          ImmediateKeeps(s, token, Satisfied(c));
        } else {
          AssociateKeeps(s, c, token);
        }
  }

  lemma JoinKeeps(s: Manager, room: Handle, isSelf: bool)
    requires Inv(s)
    ensures Inv(StepJoin(s, room, isSelf))
  {
    hide Conserved, ReadyInv, TableInv, OutcomeInv, NewChannel, ChangeState;
    if s.channels.Some? {
      if Lookup(s, room) == None {
        NewChannelKeeps(s, room, Seen);
      }
      var t := if Lookup(s, room) == None then NewChannel(s, room, Seen) else s;
      var c := Lookup(t, room).value;
      if isSelf && c in t.chans {
        ChangeStateKeeps(t, c, Joined);
      }
    }
  }

  lemma StepKeeps(s: Manager, e: Event)
    requires Inv(s) && Possible(s, e)
    ensures Inv(Step(s, e))
  {
    hide Conserved, ReadyInv, TableInv, OutcomeInv, NewChannel, ChangeState, JoinFailed, Drop, DropAll, StepRequest,
         StepJoin, StepPassword, Resolve;
    match e
    case Request(token, target, requireNew) => RequestKeeps(s, token, target, requireNew);
    case Join(room, isSelf) => JoinKeeps(s, room, isSelf);
    case Invite(room, isSelf) =>
      if isSelf && s.channels.Some? && Lookup(s, room) == None {
        NewChannelKeeps(s, room, Invited);
      }
    case BadChannelKey(room) =>
      if Lookup(s, room).Some? && Lookup(s, room).value in s.chans {
        ChangeStateKeeps(s, Lookup(s, room).value, NeedPassword);
      }
    case CannotJoin(room, error) =>
      if Lookup(s, room).Some? && Lookup(s, room).value in s.chans {
        JoinFailedKeeps(s, Lookup(s, room).value, error);
      }
    case Leave(room, isSelf) =>
      if Lookup(s, room).Some? && isSelf && Lookup(s, room).value in s.chans {
        LeaveKeeps(s, Lookup(s, room).value);
      }
    case AddSelf(c, refused) =>
      if !refused {
        AliveIsOld(s, c);
        SendKeeps(s, SendJoin(c));
        ChangeStateKeeps(Send(s, SendJoin(c)), c, Joining);
      }
    case ProvidePassword(c, context) => PasswordKeeps(s, c, context);
    case Close(c) =>
      DropKeeps(s, c);
      CloseJoinedKeeps(s, c);
    case Destroy(c) =>
      DropKeeps(s, c);
      AliveIsOld(s, c);
      SendKeeps(s, SendPart(c));
    case Disconnect(order) =>
      SameLogs(s, s.(channels := None));
      DisconnectedReady(s);
      DropAllKeeps(s.(channels := None), order);
  }

  lemma PasswordKeeps(s: Manager, c: ChanId, context: Context)
    requires Inv(s) && c in s.chans
    ensures Inv(StepPassword(s, c, context))
  {
    SentIsOld(s);
    AliveIsOld(s, c);
    MayProvide(s, c, context);
    hide Conserved, ReadyInv, TableInv, OutcomeInv, MayBecome;
    if !s.chans[c].providePassword || s.chans[c].context.Some? {
      RecordKeeps(s, s.(replies := s.replies + [NotNeeded(context)]));
    } else {
      SendKeeps(s, SendJoin(c));
      MoveKeeps(Send(s, SendJoin(c)), c, s.chans[c].(context := Some(context)));
    }
  }

  lemma MayProvide(s: Manager, c: ChanId, context: Context)
    requires ReadyInv(s) && c in s.chans
    ensures MayBecome(s.chans[c], s.chans[c].(context := Some(context)))
  {
  }

  lemma LeaveKeeps(s: Manager, c: ChanId)
    requires Inv(s) && c in s.chans
    ensures Inv(StepLeave(s, c))
  {
    hide Conserved, ReadyInv, TableInv, OutcomeInv, ChangeState, Drop;
    ChangeStateKeeps(s, c, Parted);
    DropKeeps(ChangeState(s, c, Parted), c);
  }

  lemma CloseJoinedKeeps(s: Manager, c: ChanId)
    requires Inv(s)
    ensures Inv(Resolve(s, c, Failed(Disconnected)))
  {
    ResolveKeeps(s, c, Failed(Disconnected));
    hide Conserved, ReadyInv, OutcomeInv;
  }

  lemma DisconnectedReady(s: Manager)
    requires ReadyInv(s) && OutcomeInv(s)
    ensures ReadyInv(s.(channels := None)) && OutcomeInv(s.(channels := None))
  {
  }

  // ---- Whole runs ----

  ghost predicate IsRun(states: seq<Manager>, events: seq<Event>) {
    && |states| == |events| + 1 && states[0] == INITIAL
    && forall i :: 0 <= i < |events| ==> Possible(states[i], events[i]) && states[i + 1] == Step(states[i], events[i])
  }

  lemma {:induction false} RunKeeps(states: seq<Manager>, events: seq<Event>, i: nat)
    requires IsRun(states, events) && i < |states|
    ensures Inv(states[i])
  {
    hide Inv, Step;
    if i == 0 {
      InitialInv();
    } else {
      RunKeeps(states, events, i - 1);
      StepKeeps(states[i - 1], events[i - 1]);
    }
  }

  lemma InitialInv()
    ensures Inv(INITIAL)
  {
  }

  /** The requests of a log, in order. */
  function Tokens(log: seq<Entry>): seq<Token> {
    seq(|log|, i requires 0 <= i < |log| => log[i].token)
  }

  /** How often `t` occurs in a sequence. */
  function Times(t: Token, tokens: seq<Token>): nat {
    multiset(tokens)[t]
  }

  /** `t` was asked for once: some channel (or none) has it once, and no other has it. */
  lemma {:induction false} OnceIsSomewhere(log: seq<Entry>, t: Token) returns (v: Option<ChanId>)
    requires Times(t, Tokens(log)) == 1
    ensures Times(t, Of(v, log)) == 1
    ensures forall w :: w != v ==> Times(t, Of(w, log)) == 0
  {
    var init, e := log[..|log| - 1], log[|log| - 1];
    assert Tokens(log) == Tokens(init) + [e.token];
    if e.token == t {
      v := e.via;
      NeverIsNowhere(init, t);
    } else {
      v := OnceIsSomewhere(init, t);
    }
  }

  lemma {:induction false} NeverIsNowhere(log: seq<Entry>, t: Token)
    requires Times(t, Tokens(log)) == 0
    ensures forall v :: Times(t, Of(v, log)) == 0
  {
    if log != [] {
      var init, e := log[..|log| - 1], log[|log| - 1];
      assert Tokens(log) == Tokens(init) + [e.token];
      NeverIsNowhere(init, t);
    }
  }

  lemma {:induction false} SomewhereIsAll(log: seq<Entry>, t: Token, v: Option<ChanId>)
    requires forall w :: w != v ==> Times(t, Of(w, log)) == 0
    ensures Times(t, Tokens(log)) == Times(t, Of(v, log))
  {
    if log != [] {
      var init, e := log[..|log| - 1], log[|log| - 1];
      assert Tokens(log) == Tokens(init) + [e.token];
      forall w | w != v ensures Times(t, Of(w, init)) == 0 {
        assert Times(t, Of(w, log)) == 0;
      }
      SomewhereIsAll(init, t, v);
      assert e.token == t ==> e.via == v by {
        assert Times(t, Of(e.via, log)) >= if e.token == t then 1 else 0;
      }
    }
  }

  /** Answered once, and waiting nowhere. */
  ghost predicate Done(s: Manager, t: Token) {
    Times(t, Tokens(Answered(s.answers))) == 1 && forall c :: Times(t, Queue(s.queued, c)) == 0
  }

  /** Not answered; waiting once, under a channel alive that is not ready yet. */
  ghost predicate WaitsFor(s: Manager, t: Token, c: ChanId) {
    && Times(t, Tokens(Answered(s.answers))) == 0
    && c in s.chans && !s.chans[c].joinReady && Times(t, Queue(s.queued, c)) == 1
    && forall d :: d != c ==> Times(t, Queue(s.queued, d)) == 0
  }

  lemma Split(s: Manager, t: Token, v: Option<ChanId>)
    requires Conserved(s)
    ensures Times(t, Of(v, s.asked)) == Times(t, Of(v, Answered(s.answers))) + Times(t, Waiting(s.queued, v))
  {
    hide Of, Answered;
  }

  /** A request made once is done or waits. */
  lemma DoneOrWaits(s: Manager, t: Token)
    requires Inv(s) && Times(t, Tokens(s.asked)) == 1
    ensures Done(s, t) || exists c :: WaitsFor(s, t, c)
  {
    hide Of, Answered, Conserved, Times, Tokens, Queue;
    var v := OnceIsSomewhere(s.asked, t);
    forall w ensures Times(t, Of(w, s.asked)) == Times(t, Of(w, Answered(s.answers))) + Times(t, Waiting(s.queued, w)) {
      Split(s, t, w);
    }
    SomewhereIsAll(Answered(s.answers), t, v);
    forall c ensures Times(t, Queue(s.queued, c)) == Times(t, Waiting(s.queued, Some(c))) {
    }
    NotWaiting(s, t);
    if v.Some? && Times(t, Queue(s.queued, v.value)) == 1 {
      assert WaitsFor(s, t, v.value);
    } else {
      assert Done(s, t);
    }
  }

  /** A new request has been asked for once afterwards, whatever became of it. */
  lemma AskedOnce(s: Manager, t: Token, target: Option<Handle>, requireNew: bool)
    requires s.channels.Some? && Times(t, Tokens(s.asked)) == 0
    ensures Times(t, Tokens(StepRequest(s, t, target, requireNew).asked)) == 1
  {
    var u := StepRequest(s, t, target, requireNew);
    assert Tokens(u.asked) == Tokens(s.asked) + [t];
  }

  /**
   * In every state of every run, a request made once has been answered exactly once and
   * waits nowhere, or has no answer and waits exactly once, under a channel alive that
   * has not emitted join-ready.
   */
  lemma EveryRequestOnce(states: seq<Manager>, events: seq<Event>, i: nat, t: Token)
    requires IsRun(states, events) && i < |states| && Times(t, Tokens(states[i].asked)) == 1
    ensures Done(states[i], t) || exists c :: WaitsFor(states[i], t, c)
  {
    hide IsRun, Inv, Done, WaitsFor, Times;
    RunKeeps(states, events, i);
    DoneOrWaits(states[i], t);
  }

  /** Only queued channels have somebody waiting. */
  lemma NotWaiting(s: Manager, t: Token)
    ensures Times(t, Waiting(s.queued, None)) == 0
    ensures forall c :: c !in s.queued ==> Times(t, Queue(s.queued, c)) == 0
  {
  }

  /**
   * In every state of every run: per channel the requests answered are the first of
   * those accepted, in order, and the others wait; a room has at most one channel; and
   * no channel has emitted join-ready twice.
   */
  lemma EveryRun(states: seq<Manager>, events: seq<Event>, i: nat)
    requires IsRun(states, events) && i < |states|
    ensures var s := states[i];
      && (forall v :: Of(v, s.asked) == Of(v, Answered(s.answers)) + Waiting(s.queued, v))
      && (forall c, d :: c in s.chans && d in s.chans && s.chans[c].room == s.chans[d].room ==> c == d)
      && (forall j, k :: 0 <= j < k < |s.fired| ==> s.fired[j] != s.fired[k])
      && (forall j :: 0 <= j < |s.answers| && s.answers[j].outcome.Satisfied? ==>
            && s.answers[j].outcome.chan in s.fired
            && (s.answers[j].entry.via.Some? ==> s.answers[j].entry.via.value == s.answers[j].outcome.chan))
  {
    hide IsRun, Of, Answered, Waiting;
    RunKeeps(states, events, i);
  }

  /** Once the connection is down nothing waits. */
  lemma NothingWaitsAfterDisconnect(states: seq<Manager>, events: seq<Event>, i: nat, t: Token)
    requires IsRun(states, events) && i < |states| && states[i].channels.None?
    requires Times(t, Tokens(states[i].asked)) == 1
    ensures Done(states[i], t)
  {
    hide IsRun, Conserved, Done;
    EveryRequestOnce(states, events, i, t);
    RunKeeps(states, events, i);
  }

  // ---- Which channels a JOIN was sent for ----

  /** The commands an event sends. */
  function Sends(s: Manager, e: Event): seq<Command>
    requires Possible(s, e)
  {
    match e
    case Request(_, Some(room), _) => if Lookup(s, room) == None then [SendJoin(s.next)] else []
    case AddSelf(c, refused) => if refused then [] else [SendJoin(c)]
    case ProvidePassword(c, _) => if s.chans[c].providePassword && s.chans[c].context == None then [SendJoin(c)] else []
    case Destroy(c) => if s.chans[c].state.Joined? then [SendPart(c)] else []
    case _ => []
  }

  /** Nothing sent, nothing created, no origin changed. */
  ghost predicate Quiet(s: Manager, t: Manager) {
    && t.sent == s.sent && t.next == s.next && s.fired <= t.fired
    && forall c :: c in t.chans ==> c in s.chans && t.chans[c].origin == s.chans[c].origin
  }

  lemma DropIsQuiet(s: Manager, c: ChanId)
    requires c in s.chans
    ensures Quiet(s, Drop(s, c))
  {
    hide Resolve;
  }

  lemma ChangeIsQuiet(s: Manager, c: ChanId, state: MucState)
    requires c in s.chans
    ensures Quiet(s, ChangeState(s, c, state)) && c in ChangeState(s, c, state).chans
  {
    hide Resolve, Moved, Judgement;
  }

  lemma JoinFailedIsQuiet(s: Manager, c: ChanId, error: Error)
    requires c in s.chans
    ensures Quiet(s, JoinFailed(s, c, error))
  {
    hide Resolve;
  }

  lemma {:induction false} DropAllIsQuiet(s: Manager, order: seq<ChanId>)
    ensures Quiet(s, DropAll(s, order))
    decreases |order|
  {
    hide Drop;
    if order != [] {
      if order[0] in s.chans {
        DropIsQuiet(s, order[0]);
      }
      DropAllIsQuiet(if order[0] in s.chans then Drop(s, order[0]) else s, order[1..]);
    }
  }

  /** What an event does to the commands sent, and to where channels come from. */
  ghost predicate Follows(s: Manager, t: Manager, sends: seq<Command>) {
    && t.sent == s.sent + sends
    && s.next <= t.next && s.fired <= t.fired
    && forall c :: c in t.chans ==>
         if c in s.chans then t.chans[c].origin == s.chans[c].origin
         else c == s.next && (t.chans[c].origin.Requested? <==> sends == [SendJoin(c)])
  }

  lemma StepSends(s: Manager, e: Event)
    requires Possible(s, e) && forall c :: c in s.chans ==> c < s.next
    ensures Follows(s, Step(s, e), Sends(s, e))
  {
    hide Drop, ChangeState, JoinFailed, Resolve;
    match e
    case Join(room, isSelf) => JoinSends(s, room, isSelf);
    case BadChannelKey(room) =>
      if Lookup(s, room).Some? && Lookup(s, room).value in s.chans {
        ChangeIsQuiet(s, Lookup(s, room).value, NeedPassword);
      }
    case CannotJoin(room, error) =>
      if Lookup(s, room).Some? && Lookup(s, room).value in s.chans {
        JoinFailedIsQuiet(s, Lookup(s, room).value, error);
      }
    case Leave(room, isSelf) =>
      if Lookup(s, room).Some? && Lookup(s, room).value in s.chans {
        ChangeIsQuiet(s, Lookup(s, room).value, Parted);
        DropIsQuiet(ChangeState(s, Lookup(s, room).value, Parted), Lookup(s, room).value);
      }
    case AddSelf(c, _) => ChangeIsQuiet(Send(s, SendJoin(c)), c, Joining);
    case Close(c) => DropIsQuiet(s, c);
    case Destroy(c) => DropIsQuiet(s, c);
    case Disconnect(order) => DropAllIsQuiet(s.(channels := None), order);
    case _ =>
  }

  lemma JoinSends(s: Manager, room: Handle, isSelf: bool)
    requires forall c :: c in s.chans ==> c < s.next
    ensures Follows(s, StepJoin(s, room, isSelf), [])
  {
    hide ChangeState;
    if s.channels.Some? {
      var t := if Lookup(s, room) == None then NewChannel(s, room, Seen) else s;
      if Lookup(t, room).value in t.chans {
        ChangeIsQuiet(t, Lookup(t, room).value, Joined);
      }
    }
  }

  /** An event by which a client makes us send JOIN for a channel that exists. */
  ghost predicate SelfJoins(s: Manager, e: Event, c: ChanId) {
    e == AddSelf(c, false) ||
    (e.ProvidePassword? && e.chan == c && c in s.chans && s.chans[c].providePassword && s.chans[c].context == None)
  }

  lemma SelfJoinsSend(s: Manager, e: Event, c: ChanId)
    requires Possible(s, e) && c in s.chans && c < s.next
    ensures SendJoin(c) in Sends(s, e) <==> SelfJoins(s, e, c)
  {
  }

  /** What runs on keeps: ids are not reused, and join-ready is not taken back. */
  lemma {:induction false} RunGrows(states: seq<Manager>, events: seq<Event>, j: nat, i: nat)
    requires IsRun(states, events) && j <= i < |states|
    ensures states[j].next <= states[i].next && states[j].fired <= states[i].fired
  {
    hide Inv, Step;
    if j < i {
      RunGrows(states, events, j, i - 1);
      RunKeeps(states, events, i - 1);
      IdsAreOld(states[i - 1]);
      StepSends(states[i - 1], events[i - 1]);
    }
  }

  lemma IdsAreOld(s: Manager)
    requires Inv(s)
    ensures forall c :: c in s.chans ==> c < s.next
    ensures forall k :: 0 <= k < |s.sent| ==> s.sent[k].chan < s.next
  {
  }

  /** In every run a JOIN was sent for a channel exactly when a client asked for the room
      before it was known, or later made us join. */
  lemma {:induction false} JoinsSent(states: seq<Manager>, events: seq<Event>, i: nat, c: ChanId)
    requires IsRun(states, events) && i < |states| && c in states[i].chans
    ensures SendJoin(c) in states[i].sent <==>
              states[i].chans[c].origin.Requested? || exists j :: 0 <= j < i && SelfJoins(states[j], events[j], c)
  {
    hide Inv, Step, Sends, SelfJoins, Possible;
    if i > 0 {
      var s, e := states[i - 1], events[i - 1];
      RunKeeps(states, events, i - 1);
      IdsAreOld(s);
      StepSends(s, e);
      if c in s.chans {
        JoinsSent(states, events, i - 1, c);
        SelfJoinsSend(s, e, c);
      } else {
        forall j | 0 <= j < i ensures !SelfJoins(states[j], events[j], c) {
          NotYet(states, events, j, i - 1, c);
        }
        SendsAtMostOne(s, e);
      }
    }
  }

  lemma SendsAtMostOne(s: Manager, e: Event)
    requires Possible(s, e)
    ensures |Sends(s, e)| <= 1
  {
  }

  lemma NotYet(states: seq<Manager>, events: seq<Event>, j: nat, i: nat, c: ChanId)
    requires IsRun(states, events) && j <= i < |events| && states[i].next <= c
    ensures !SelfJoins(states[j], events[j], c)
  {
    hide Step;
    RunGrows(states, events, j, i);
    RunKeeps(states, events, j);
  }

  /**
   * In every run, where somebody waits under a channel, no JOIN was sent for it exactly when
   * the channel came from an invitation or from somebody's JOIN, and no client has added us
   * to its group since.
   */
  lemma WaitsWithoutJoin(states: seq<Manager>, events: seq<Event>, i: nat, t: Token, c: ChanId)
    requires IsRun(states, events) && i < |states| && WaitsFor(states[i], t, c)
    ensures SendJoin(c) !in states[i].sent <==>
              !states[i].chans[c].origin.Requested? && forall j :: 0 <= j < i ==> events[j] != AddSelf(c, false)
  {
    hide Step;
    JoinsSent(states, events, i, c);
    RunKeeps(states, events, i);
    forall j | 0 <= j < i
      ensures SelfJoins(states[j], events[j], c) <==> events[j] == AddSelf(c, false)
    {
      RunKeeps(states, events, j);
      RunGrows(states, events, j, i);
    }
  }

  /** Asking for a room that one was merely invited to is queued, and sends nothing. */
  lemma InvitedRoomWaits(room: Handle, token: Token)
    ensures var s := Step(Step(INITIAL, Invite(room, true)), Request(token, Some(room), false));
      WaitsFor(s, token, 0) && s.sent == []
  {
    var s := Step(Step(INITIAL, Invite(room, true)), Request(token, Some(room), false));
    assert s.queued[0] == [token] && Reversed([token]) == Reversed([]) + [token];
  }
}
