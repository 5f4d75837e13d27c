/**
 * Whole runs of the outgoing half of a connection: what is enqueued when, the timer
 * that drains the queue, and the partial writes.
 */
module Connection {
  import opened Seqs
  import opened Irc
  import opened Wrappers
  import opened Framing
  import opened Outgoing
  import opened ServerConnection

  /**
   * The fields of the connection, and two records of the past: every message ever put
   * into the queue and taken from it.  `nextId` is the counter that all connections of
   * the process share.
   */
  datatype State = State(
    connected: bool, handshaken: bool, quitting: bool, pingTime: nat, timer: bool,
    queue: seq<PendingMsg>, nextId: nat, sending: bool, sconn: Server,
    enqueued: seq<PendingMsg>, dequeued: seq<PendingMsg>)

  const INITIAL := State(false, false, false, 0, false, [], 0, false, CLOSED, [], [])

  // ---- Steps ----

  /** `msg_queue_timeout_cb`. */
  function Tick(s: State): State {
    if !s.connected then s.(timer := false)
    else if s.sending then s
    else if s.queue == [] then s.(timer := false)
    else s.(queue := s.queue[1..], dequeued := s.dequeued + [s.queue[0]],
            sending := true, sconn := Take(s.sconn, s.queue[0].message))
  }

  /** `idle_connection_add_queue_timeout`; `flush` says whether the last message is long
      enough ago. */
  function AddQueueTimeout(s: State, flush: bool): State {
    if s.timer then s else if flush then Tick(s.(timer := true)) else s.(timer := true)
  }

  /** `_send_with_priority`. */
  function Enqueue(s: State, msg: string, priority: nat, flush: bool): State {
    var m := PendingMsg(Frame(msg), priority, s.nextId);
    var t := s.(queue := InsertSorted(s.queue, m), nextId := s.nextId + 1, enqueued := s.enqueued + [m]);
    AddQueueTimeout(t, flush)
  }

  /** `connection_connect_cb` for a connection that the server has welcomed. */
  function Welcome(s: State, flush: bool): State {
    if s.queue != [] then AddQueueTimeout(s, flush) else s
  }

  /** `n` bytes went out; after the last one `_msg_queue_timeout_ready` runs. */
  function Written(s: State, n: nat): State
    requires s.sconn.nwritten + n <= |s.sconn.buffer|
  {
    var c := Wrote(s.sconn, n);
    s.(sconn := c, sending := c.writing)
  }

  function Failed(s: State): State {
    s.(sconn := Broke(s.sconn), sending := false)
  }

  /** The server connection takes commands from now on, or no more. */
  function Opened(s: State, open: bool): State {
    s.(sconn := s.sconn.(open := open))
  }

  datatype Credentials = Credentials(password: string, nickname: string, username: string, realname: string)

  /** `irc_handshakes`. */
  function Handshake(s: State, c: Credentials, flush: bool): State {
    var s0 := Opened(s, true).(connected := true, handshaken := true);
    var s1 := if c.password != "" then Enqueue(s0, "PASS " + c.password, PASS_PRIORITY, flush) else s0;
    var s2 := Enqueue(s1, "NICK " + c.nickname, NORMAL_PRIORITY, flush);
    var s3 := Enqueue(s2, "USER " + c.username + " 8 * :" + c.realname, NORMAL_PRIORITY, flush);
    Enqueue(s3, "WHOIS " + c.nickname, NORMAL_PRIORITY, flush)
  }

  /** A ping has gone unanswered for more than three keepalive intervals; times are in
      microseconds and the clock may have been set back. */
  predicate Overdue(pingTime: nat, now: nat, interval: nat) {
    now > pingTime && (now - pingTime) / 1_000_000 > 3 * interval
  }

  /** `keepalive_timeout_cb`; a missing answer closes the server connection. */
  function Keepalive(s: State, now: nat, interval: nat, flush: bool): State {
    if !s.connected || s.quitting then s
    else if s.pingTime != 0 then (if Overdue(s.pingTime, now, interval) then Opened(s, false) else s)
    else if s.queue != [] then s
    else Enqueue(s.(pingTime := now), "PING " + Decimal(now), MIN_PRIORITY, flush)
  }

  /** `_iface_disconnected`. */
  function Quit(s: State, quitMessage: Option<string>, flush: bool): State {
    if !s.connected then s
    else Enqueue(s, match quitMessage { case None => "QUIT" case Some(m) => "QUIT :" + m }, MAX_PRIORITY, flush)
         .(quitting := true)
  }

  datatype Event =
    | Connected(credentials: Credentials, flush: bool)
    | Welcomed(flush: bool)
    | Send(msg: string, flush: bool)
    | ServerPing(arg: string, flush: bool)
    | ServerPong
    | KeepaliveTimeout(now: nat, interval: nat, flush: bool)
    | Disconnect(quitMessage: Option<string>, flush: bool)
    | QueueTimeout
    | WriteReady(n: nat)
    | WriteFailed
    /** The server connection begins to close. */
    | Closing
    | Dropped
    /** Other connections of the process send this many messages. */
    | Elsewhere(messages: nat)

  /** When an event can happen: a connection is made once, the server's welcome, its pings
      and the keepalive timer come after that, and a write reports no more than was asked. */
  predicate Possible(s: State, e: Event) {
    && (e.Connected? ==> !s.handshaken)
    && (e.Welcomed? || e.ServerPing? || e.KeepaliveTimeout? ==> s.handshaken)
    && (e.WriteReady? ==> s.sconn.writing && s.sconn.nwritten + e.n <= |s.sconn.buffer|)
    && (e.WriteFailed? ==> s.sending)
  }

  function Step(s: State, e: Event): State
    requires Possible(s, e)
  {
    match e
    case Connected(c, flush) => Handshake(s, c, flush)
    case Welcomed(flush) => Welcome(s, flush)
    case Send(msg, flush) => Enqueue(s, msg, NORMAL_PRIORITY, flush)
    case ServerPing(arg, flush) => Enqueue(s, "PONG " + arg, MAX_PRIORITY, flush)
    case ServerPong => s.(pingTime := 0)
    case KeepaliveTimeout(now, interval, flush) => Keepalive(s, now, interval, flush)
    case Disconnect(quitMessage, flush) => Quit(s, quitMessage, flush)
    case QueueTimeout => Tick(s)
    case WriteReady(n) => Written(s, n)
    case WriteFailed => Failed(s)
    case Closing => Opened(s, false)
    case Dropped => Opened(s, false).(connected := false, timer := false)
    case Elsewhere(messages) => s.(nextId := s.nextId + messages)
  }

  // ---- The invariant ----

  /** The messages of every priority leave in the order in which they came, none lost. */
  ghost predicate Fifo(s: State) {
    forall p: nat {:trigger OfPriority(p, s.enqueued)} ::
      OfPriority(p, s.dequeued) + OfPriority(p, s.queue) == OfPriority(p, s.enqueued)
  }

  function Lines(msgs: seq<PendingMsg>): string {
    if msgs == [] then "" else Lines(msgs[..|msgs| - 1]) + msgs[|msgs| - 1].message
  }

  predicate AllLines(msgs: seq<PendingMsg>) {
    forall i :: 0 <= i < |msgs| ==> IsLine(msgs[i].message)
  }

  /** Until a command is lost, the wire carries the completed lines and then what is
      written of the current one. */
  predicate WireInv(s: State) {
    && (s.sconn.writing ==> s.sending)
    && (!s.sconn.lost ==> WireIsLines(s.sconn, s.sending, s.dequeued))
  }

  predicate WireIsLines(c: Server, sending: bool, dequeued: seq<PendingMsg>) {
    if sending then
      && c.writing && dequeued != []
      && c.buffer == dequeued[|dequeued| - 1].message
      && c.nwritten <= |c.buffer|
      && c.wire == Lines(dequeued[..|dequeued| - 1]) + c.buffer[..c.nwritten]
    else c.wire == Lines(dequeued)
  }

  ghost predicate QueueInv(s: State) {
    && Ordered(s.queue)
    && (forall i :: 0 <= i < |s.queue| ==> s.queue[i].id < s.nextId)
    && (!s.handshaken ==> AllNormal(s.queue))
    && (s.connected ==> s.handshaken)
    && (forall i :: 0 <= i < |s.enqueued| ==> s.enqueued[i].id < s.nextId)
    && (forall i, j :: 0 <= i < j < |s.enqueued| ==> s.enqueued[i].id < s.enqueued[j].id)
  }

  ghost predicate Inv(s: State) {
    QueueInv(s) && Fifo(s) && AllLines(s.queue) && AllLines(s.dequeued) && WireInv(s)
  }

  /** The hypothesis on ids: even after `more` further messages none in the queue is
      2^31 or more behind. */
  predicate IdsClose(s: State, more: nat) {
    forall i :: 0 <= i < |s.queue| ==> s.nextId + more <= s.queue[i].id + 0x8000_0000
  }

  lemma InitialInv()
    ensures Inv(INITIAL)
  {
  }

  lemma TickKeeps(s: State)
    requires Inv(s)
    ensures Inv(Tick(s))
    ensures forall more: nat :: IdsClose(s, more) ==> IdsClose(Tick(s), more)
  {
    hide IsLine, MayPrecede, OfPriority, Lines, KnownPriority, WireInv;
    var t := Tick(s);
    if s.connected && !s.sending && s.queue != [] {
      assert AllLines([s.queue[0]]);
      TickKeepsFifo(s, t);
      TickKeepsWire(s);
    } else {
      FifoUntouched(s, t);
      WireUntouched(s, t);
    }
  }

  lemma TickKeepsWire(s: State)
    requires WireInv(s) && s.connected && !s.sending && s.queue != [] && IsLine(s.queue[0].message)
    ensures WireInv(Tick(s))
  {
    hide IsLine, Lines;
    LineFits(s.queue[0].message);
    assert Tick(s).dequeued[..|Tick(s).dequeued| - 1] == s.dequeued;
  }

  lemma TickKeepsFifo(s: State, t: State)
    requires Fifo(s) && s.queue != []
    requires t.queue == s.queue[1..] && t.dequeued == s.dequeued + [s.queue[0]] && t.enqueued == s.enqueued
    ensures Fifo(t)
  {
    hide OfPriority;
    var m := s.queue[0];
    forall p: nat ensures OfPriority(p, t.dequeued) + OfPriority(p, t.queue) == OfPriority(p, t.enqueued) {
      OfPriorityConcat(p, s.dequeued, [m]);
      OfPriorityConcat(p, [m], t.queue);
      assert [m] + t.queue == s.queue;
      Assoc(OfPriority(p, s.dequeued), OfPriority(p, [m]), OfPriority(p, t.queue));
      assert OfPriority(p, s.dequeued) + OfPriority(p, s.queue) == OfPriority(p, s.enqueued);
    }
  }

  lemma LineFits(line: string)
    requires IsLine(line)
    ensures Buffered(line) == line && line != ""
  {
  }

  /** The queue with a new message, before the timer is looked at. */
  lemma InsertKeeps(s: State, m: PendingMsg, more: nat)
    requires Inv(s) && Admissible(s.queue, m.priority) && (s.handshaken || m.priority == NORMAL_PRIORITY)
    requires m.id == s.nextId && IsLine(m.message) && more <= 3 && IdsClose(s, more)
    ensures var t := s.(queue := InsertSorted(s.queue, m), nextId := s.nextId + 1, enqueued := s.enqueued + [m]);
      Inv(t) && (more > 0 ==> IdsClose(t, more - 1))
  {
    hide IsLine, Compare, MayPrecede, WireInv, InsertPos;
    var t := s.(queue := InsertSorted(s.queue, m), nextId := s.nextId + 1, enqueued := s.enqueued + [m]);
    var k := InsertPos(s.queue, m);
    InsertKeepsOrder(s.queue, m);
    forall i | 0 <= i < |t.queue| ensures t.queue[i] == m || t.queue[i] in s.queue {
      assert i < k ==> t.queue[i] == s.queue[i];
      assert i > k ==> t.queue[i] == s.queue[i - 1];
    }
    InsertKeepsFifo(s, m);
    assert WireInv(t) by { WireUntouched(s, t); }
  }

  lemma InsertKeepsFifo(s: State, m: PendingMsg)
    requires Inv(s) && Admissible(s.queue, m.priority) && m.id == s.nextId && IdsClose(s, 0)
    ensures Fifo(s.(queue := InsertSorted(s.queue, m), nextId := s.nextId + 1, enqueued := s.enqueued + [m]))
  {
    hide IsLine, WireInv, OfPriority, Ordered, Admissible, InsertSorted;
    var q, e := InsertSorted(s.queue, m), s.enqueued + [m];
    forall p: nat ensures OfPriority(p, s.dequeued) + OfPriority(p, q) == OfPriority(p, e) {
      InsertIsLast(s.queue, m, p);
      OfPriorityConcat(p, s.enqueued, [m]);
      assert OfPriority(p, s.dequeued) + OfPriority(p, s.queue) == OfPriority(p, s.enqueued);
      Assoc(OfPriority(p, s.dequeued), OfPriority(p, s.queue), OfPriority(p, [m]));
    }
  }

  lemma WireUntouched(s: State, t: State)
    requires WireInv(s)
    requires (s.sending, s.dequeued, s.sconn) == (t.sending, t.dequeued, t.sconn.(open := s.sconn.open))
    ensures WireInv(t)
  {
  }

  lemma TimeoutKeeps(s: State, flush: bool)
    requires Inv(s)
    ensures Inv(AddQueueTimeout(s, flush)) && AddQueueTimeout(s, flush).handshaken == s.handshaken
    ensures forall more: nat :: IdsClose(s, more) ==> IdsClose(AddQueueTimeout(s, flush), more)
  {
    hide IsLine, WireInv, Ordered, Fifo;
    FlagsUntouched(s, s.(timer := true));
    TickKeeps(s.(timer := true));
  }

  lemma EnqueueKeeps(s: State, msg: string, priority: nat, flush: bool, more: nat)
    requires Inv(s) && Admissible(s.queue, priority) && (s.handshaken || priority == NORMAL_PRIORITY)
    requires more <= 3 && IdsClose(s, more)
    ensures Inv(Enqueue(s, msg, priority, flush)) && Enqueue(s, msg, priority, flush).handshaken == s.handshaken
    ensures more > 0 ==> IdsClose(Enqueue(s, msg, priority, flush), more - 1)
  {
    hide Frame, IsLine, InsertSorted, AddQueueTimeout, Fifo, QueueInv, WireInv, AllLines, IdsClose, Admissible;
    var m := PendingMsg(Frame(msg), priority, s.nextId);
    FrameIsLine(msg);
    InsertKeeps(s, m, more);
    TimeoutKeeps(s.(queue := InsertSorted(s.queue, m), nextId := s.nextId + 1, enqueued := s.enqueued + [m]), flush);
  }

  lemma WelcomeKeeps(s: State, flush: bool)
    requires Inv(s)
    ensures Inv(Welcome(s, flush))
  {
    hide Inv, AddQueueTimeout;
    TimeoutKeeps(s, flush);
  }

  lemma HandshakeKeeps(s: State, c: Credentials, flush: bool)
    requires Inv(s) && !s.handshaken && IdsClose(s, 3)
    ensures Inv(Handshake(s, c, flush))
  {
    hide Enqueue, WireInv, Ordered, Fifo;
    var s0 := Opened(s, true).(connected := true, handshaken := true);
    WireUntouched(s, s0);
    FifoUntouched(s, s0);
    var s1 := s0;
    if c.password != "" {
      EnqueueKeeps(s0, "PASS " + c.password, PASS_PRIORITY, flush, 3);
      s1 := Enqueue(s0, "PASS " + c.password, PASS_PRIORITY, flush);
    }
    EnqueueKeeps(s1, "NICK " + c.nickname, NORMAL_PRIORITY, flush, 2);
    var s2 := Enqueue(s1, "NICK " + c.nickname, NORMAL_PRIORITY, flush);
    EnqueueKeeps(s2, "USER " + c.username + " 8 * :" + c.realname, NORMAL_PRIORITY, flush, 1);
    var s3 := Enqueue(s2, "USER " + c.username + " 8 * :" + c.realname, NORMAL_PRIORITY, flush);
    EnqueueKeeps(s3, "WHOIS " + c.nickname, NORMAL_PRIORITY, flush, 0);
  }

  lemma FifoUntouched(s: State, t: State)
    requires Fifo(s) && (s.queue, s.enqueued, s.dequeued) == (t.queue, t.enqueued, t.dequeued)
    ensures Fifo(t)
  {
  }

  lemma WrittenKeeps(s: State, n: nat)
    requires Inv(s) && s.sconn.writing && s.sconn.nwritten + n <= |s.sconn.buffer|
    ensures Inv(Written(s, n))
  {
    hide IsLine, Ordered, Fifo, WireInv;
    FifoUntouched(s, Written(s, n));
    WrittenKeepsWire(s, n);
  }

  lemma WrittenKeepsWire(s: State, n: nat)
    requires WireInv(s) && s.sconn.writing && s.sconn.nwritten + n <= |s.sconn.buffer|
    ensures WireInv(Written(s, n))
  {
    hide Lines;
    if !s.sconn.lost {
      WroteNext(s.sconn, n, Lines(s.dequeued[..|s.dequeued| - 1]));
      LastLine(s.dequeued);
    }
  }

  lemma LastLine(msgs: seq<PendingMsg>)
    requires msgs != []
    ensures Lines(msgs) == Lines(msgs[..|msgs| - 1]) + msgs[|msgs| - 1].message
  {
  }

  lemma KeepaliveKeeps(s: State, now: nat, interval: nat, flush: bool)
    requires Inv(s) && s.handshaken && IdsClose(s, 3)
    ensures Inv(Keepalive(s, now, interval, flush))
  {
    hide IsLine, Enqueue, WireInv, Ordered, Fifo, Decimal;
    var t := s.(pingTime := now);
    FlagsUntouched(s, t);
    FlagsUntouched(s, Opened(s, false));
    if s.connected && !s.quitting && s.pingTime == 0 && s.queue == [] {
      EnqueueKeeps(t, "PING " + Decimal(now), MIN_PRIORITY, flush, 3);
    }
  }

  lemma QuitKeeps(s: State, quitMessage: Option<string>, flush: bool)
    requires Inv(s) && IdsClose(s, 3)
    ensures Inv(Quit(s, quitMessage, flush))
  {
    hide IsLine, Enqueue, WireInv, Ordered, Fifo;
    if s.connected {
      var cmd := match quitMessage { case None => "QUIT" case Some(m) => "QUIT :" + m };
      EnqueueKeeps(s, cmd, MAX_PRIORITY, flush, 3);
      var t := Enqueue(s, cmd, MAX_PRIORITY, flush);
      FlagsUntouched(t, t.(quitting := true));
    }
  }

  lemma StepKeeps(s: State, e: Event)
    requires Inv(s) && Possible(s, e) && IdsClose(s, 3)
    ensures Inv(Step(s, e))
  {
    hide IsLine, Enqueue, Tick, Written, Handshake, Welcome, Keepalive, Quit, QueueInv, WireInv, Fifo, AllLines;
    match e
    case Connected(c, flush) => HandshakeKeeps(s, c, flush);
    case Welcomed(flush) => WelcomeKeeps(s, flush);
    case Send(msg, flush) => EnqueueKeeps(s, msg, NORMAL_PRIORITY, flush, 3);
    case ServerPing(arg, flush) => EnqueueKeeps(s, "PONG " + arg, MAX_PRIORITY, flush, 3);
    case KeepaliveTimeout(now, interval, flush) => KeepaliveKeeps(s, now, interval, flush);
    case Disconnect(quitMessage, flush) => QuitKeeps(s, quitMessage, flush);
    case QueueTimeout => TickKeeps(s);
    case WriteReady(n) => WrittenKeeps(s, n);
    case WriteFailed => FailedKeeps(s);
    case ServerPong => FlagsUntouched(s, s.(pingTime := 0));
    case Closing => FlagsUntouched(s, Opened(s, false));
    case Dropped => FlagsUntouched(s, Opened(s, false).(connected := false, timer := false));
    case Elsewhere(messages) => FlagsUntouched(s, s.(nextId := s.nextId + messages));
  }

  lemma FailedKeeps(s: State)
    requires Inv(s)
    ensures Inv(Failed(s))
  {
    hide IsLine, Ordered, Fifo;
    FifoUntouched(s, Failed(s));
  }

  lemma FlagsUntouched(s: State, t: State)
    requires Inv(s) && (t.connected ==> s.connected) && t.nextId >= s.nextId
    requires t == Opened(s, t.sconn.open).(connected := t.connected, quitting := t.quitting, pingTime := t.pingTime,
                                           timer := t.timer, nextId := t.nextId)
    ensures Inv(t)
  {
    hide IsLine, Ordered, WireInv, Fifo;
    WireUntouched(s, t);
    FifoUntouched(s, t);
  }

  // ---- Whole runs ----

  /** The states a run goes through. */
  ghost predicate IsRun(states: seq<State>, events: seq<Event>) {
    && |states| == |events| + 1 && states[0] == INITIAL
    && forall i :: 0 <= i < |events| ==>
         Possible(states[i], events[i]) && IdsClose(states[i], 3) && states[i + 1] == Step(states[i], events[i])
  }

  lemma {:induction false} RunKeeps(states: seq<State>, events: seq<Event>, i: nat)
    requires IsRun(states, events) && i < |states|
    ensures Inv(states[i])
  {
    hide Inv, Step;
    if i == 0 {
      InitialInv();
    } else {
      RunKeeps(states, events, i - 1);
      StepKeeps(states[i - 1], events[i - 1]);
    }
  }

  /**
   * In every state of every run, whatever the schedule of ticks, messages and writes:
   * of each priority, the messages sent so far are the first ones enqueued, in order,
   * and the others are waiting in order; and, until a command is lost to an error, the
   * wire carries the lines sent, the last one perhaps in part, each of at most 512 bytes
   * with its only line end at its end.
   */
  lemma EveryRun(states: seq<State>, events: seq<Event>, i: nat, p: nat)
    requires IsRun(states, events) && i < |states|
    ensures var s := states[i];
      && OfPriority(p, s.dequeued) + OfPriority(p, s.queue) == OfPriority(p, s.enqueued)
      && (forall j, k :: 0 <= j < k < |s.enqueued| ==> s.enqueued[j].id < s.enqueued[k].id)
      && AllLines(s.dequeued)
      && (!s.sconn.lost && !s.sending ==> s.sconn.wire == Lines(s.dequeued))
      && (!s.sconn.lost && s.sending ==>
            && s.dequeued != [] && s.sconn.nwritten <= |s.dequeued[|s.dequeued| - 1].message|
            && s.sconn.wire == Lines(s.dequeued[..|s.dequeued| - 1])
                               + s.dequeued[|s.dequeued| - 1].message[..s.sconn.nwritten])
  {
    hide IsLine, Ordered, OfPriority, Step;
    RunKeeps(states, events, i);
    var s := states[i];
    assert Fifo(s);
  }

  // ---- The timer ----

  /** Nothing waits on a stopped timer while the connection is up. */
  predicate Drains(s: State) {
    s.connected && s.queue != [] ==> s.timer
  }

  lemma EnqueueDrains(s: State, msg: string, priority: nat, flush: bool)
    ensures Drains(Enqueue(s, msg, priority, flush))
  {
    hide Frame, InsertPos;
  }

  lemma StepDrains(s: State, e: Event)
    requires Drains(s) && Possible(s, e)
    ensures Drains(Step(s, e))
  {
    hide Enqueue, Decimal;
    match e
    case Connected(c, flush) =>
      var s0 := Opened(s, true).(connected := true, handshaken := true);
      var s1 := if c.password != "" then Enqueue(s0, "PASS " + c.password, PASS_PRIORITY, flush) else s0;
      var s2 := Enqueue(s1, "NICK " + c.nickname, NORMAL_PRIORITY, flush);
      var s3 := Enqueue(s2, "USER " + c.username + " 8 * :" + c.realname, NORMAL_PRIORITY, flush);
      EnqueueDrains(s3, "WHOIS " + c.nickname, NORMAL_PRIORITY, flush);
    case Send(msg, flush) => EnqueueDrains(s, msg, NORMAL_PRIORITY, flush);
    case ServerPing(arg, flush) => EnqueueDrains(s, "PONG " + arg, MAX_PRIORITY, flush);
    case KeepaliveTimeout(now, _, flush) =>
      EnqueueDrains(s.(pingTime := now), "PING " + Decimal(now), MIN_PRIORITY, flush);
    case Disconnect(quitMessage, flush) =>
      EnqueueDrains(s, match quitMessage { case None => "QUIT" case Some(m) => "QUIT :" + m }, MAX_PRIORITY, flush);
    case _ =>
  }

  /** In every state of every run a message that waits on a connection that is up waits for
      a running timer; so the restart of the timer on the welcome of a connection that is up
      finds nothing to do. */
  lemma {:induction false} EveryRunDrains(states: seq<State>, events: seq<Event>, i: nat, flush: bool)
    requires IsRun(states, events) && i < |states|
    ensures Drains(states[i])
    ensures states[i].connected ==> Welcome(states[i], flush) == states[i]
  {
    hide Step;
    if i > 0 {
      EveryRunDrains(states, events, i - 1, flush);
      StepDrains(states[i - 1], events[i - 1]);
    }
  }

  // ---- What was sent ----

  /** The ordinary messages an event enqueues. */
  function NormalOf(e: Event): seq<string> {
    match e
    case Connected(c, _) =>
      ["NICK " + c.nickname, "USER " + c.username + " 8 * :" + c.realname, "WHOIS " + c.nickname]
    case Send(msg, _) => [msg]
    case _ => []
  }

  function NormalMessages(events: seq<Event>): seq<string> {
    if events == [] then [] else NormalMessages(events[..|events| - 1]) + NormalOf(events[|events| - 1])
  }

  function Frames(msgs: seq<string>): seq<string> {
    seq(|msgs|, i requires 0 <= i < |msgs| => Frame(msgs[i]))
  }

  function LinesOf(msgs: seq<PendingMsg>): seq<string> {
    seq(|msgs|, i requires 0 <= i < |msgs| => msgs[i].message)
  }

  function NormalLines(msgs: seq<PendingMsg>): seq<string> {
    LinesOf(OfPriority(NORMAL_PRIORITY, msgs))
  }

  /** What one call of `_send_with_priority` adds to the ordinary lines. */
  lemma EnqueueAddsLine(s: State, msg: string, priority: nat, flush: bool)
    ensures var t := Enqueue(s, msg, priority, flush);
      NormalLines(t.enqueued) == NormalLines(s.enqueued) + (if priority == NORMAL_PRIORITY then [Frame(msg)] else [])
  {
    hide Frame, InsertSorted, OfPriority;
    var m := PendingMsg(Frame(msg), priority, s.nextId);
    OfPriorityConcat(NORMAL_PRIORITY, s.enqueued, [m]);
    OfPriorityOne(NORMAL_PRIORITY, m);
  }

  lemma OfPriorityOne(p: nat, m: PendingMsg)
    ensures OfPriority(p, [m]) == if m.priority == p then [m] else []
  {
  }

  lemma StepAddsLines(s: State, e: Event)
    requires Possible(s, e)
    ensures NormalLines(Step(s, e).enqueued) == NormalLines(s.enqueued) + Frames(NormalOf(e))
  {
    hide Frame, Enqueue, NormalLines, Decimal;
    match e
    case Connected(c, flush) =>
      var s0 := Opened(s, true).(connected := true, handshaken := true);
      EnqueueAddsLine(s0, "PASS " + c.password, PASS_PRIORITY, flush);
      var s1 := if c.password != "" then Enqueue(s0, "PASS " + c.password, PASS_PRIORITY, flush) else s0;
      EnqueueAddsLine(s1, "NICK " + c.nickname, NORMAL_PRIORITY, flush);
      var s2 := Enqueue(s1, "NICK " + c.nickname, NORMAL_PRIORITY, flush);
      EnqueueAddsLine(s2, "USER " + c.username + " 8 * :" + c.realname, NORMAL_PRIORITY, flush);
      var s3 := Enqueue(s2, "USER " + c.username + " 8 * :" + c.realname, NORMAL_PRIORITY, flush);
      EnqueueAddsLine(s3, "WHOIS " + c.nickname, NORMAL_PRIORITY, flush);
    case Send(msg, flush) => EnqueueAddsLine(s, msg, NORMAL_PRIORITY, flush);
    case ServerPing(arg, flush) => EnqueueAddsLine(s, "PONG " + arg, MAX_PRIORITY, flush);
    case KeepaliveTimeout(now, _, flush) =>
      EnqueueAddsLine(s.(pingTime := now), "PING " + Decimal(now), MIN_PRIORITY, flush);
    case Disconnect(quitMessage, flush) =>
      EnqueueAddsLine(s, match quitMessage { case None => "QUIT" case Some(m) => "QUIT :" + m }, MAX_PRIORITY, flush);
    case _ =>
  }

  lemma {:induction false} EnqueuedAreSends(states: seq<State>, events: seq<Event>, i: nat)
    requires IsRun(states, events) && i <= |events|
    ensures NormalLines(states[i].enqueued) == Frames(NormalMessages(events[..i]))
  {
    hide Step, NormalLines, NormalOf;
    if i == 0 {
      assert NormalLines([]) == [] by { NoLines(); }
    } else {
      EnqueuedAreSends(states, events, i - 1);
      StepAddsLines(states[i - 1], events[i - 1]);
      assert events[..i][..i - 1] == events[..i - 1];
    }
  }

  lemma NoLines()
    ensures NormalLines([]) == []
  {
  }

  /** Once the queue of a run is empty, the ordinary lines sent are those of all messages
      ever given to it, in order. */
  lemma SendsLeaveInOrder(states: seq<State>, events: seq<Event>, i: nat)
    requires IsRun(states, events) && i <= |events| && states[i].queue == []
    ensures NormalLines(states[i].dequeued) == Frames(NormalMessages(events[..i]))
  {
    hide Step, NormalMessages, Frames;
    EnqueuedAreSends(states, events, i);
    EveryRun(states, events, i, NORMAL_PRIORITY);
    var d := OfPriority(NORMAL_PRIORITY, states[i].dequeued);
    assert d + [] == d;
  }

  predicate SameSend(s: State, t: State) {
    t.sending == s.sending && t.sconn == s.sconn.(open := t.sconn.open)
  }

  lemma EnqueueLeavesBuffer(s: State, msg: string, priority: nat, flush: bool)
    requires s.sending
    ensures SameSend(s, Enqueue(s, msg, priority, flush))
  {
    hide InsertSorted, Frame;
  }

  /** One send at a time: while one is under way nothing but the end of a write touches
      the buffer. */
  lemma BufferIsLeftAlone(s: State, e: Event)
    requires Possible(s, e) && s.sending && !e.WriteReady? && !e.WriteFailed?
    ensures SameSend(s, Step(s, e))
  {
    hide Enqueue, Decimal;
    match e
    case Connected(c, flush) =>
      var s0 := Opened(s, true).(connected := true, handshaken := true);
      EnqueueLeavesBuffer(s0, "PASS " + c.password, PASS_PRIORITY, flush);
      var s1 := if c.password != "" then Enqueue(s0, "PASS " + c.password, PASS_PRIORITY, flush) else s0;
      EnqueueLeavesBuffer(s1, "NICK " + c.nickname, NORMAL_PRIORITY, flush);
      var s2 := Enqueue(s1, "NICK " + c.nickname, NORMAL_PRIORITY, flush);
      EnqueueLeavesBuffer(s2, "USER " + c.username + " 8 * :" + c.realname, NORMAL_PRIORITY, flush);
      var s3 := Enqueue(s2, "USER " + c.username + " 8 * :" + c.realname, NORMAL_PRIORITY, flush);
      EnqueueLeavesBuffer(s3, "WHOIS " + c.nickname, NORMAL_PRIORITY, flush);
    case Send(msg, flush) => EnqueueLeavesBuffer(s, msg, NORMAL_PRIORITY, flush);
    case ServerPing(arg, flush) => EnqueueLeavesBuffer(s, "PONG " + arg, MAX_PRIORITY, flush);
    case KeepaliveTimeout(now, interval, flush) =>
      EnqueueLeavesBuffer(s.(pingTime := now), "PING " + Decimal(now), MIN_PRIORITY, flush);
    case Disconnect(quitMessage, flush) =>
      var cmd := match quitMessage { case None => "QUIT" case Some(m) => "QUIT :" + m };
      EnqueueLeavesBuffer(s, cmd, MAX_PRIORITY, flush);
    case _ =>
  }

  // ---- The fields themselves ----

  /** The queue, timer and output buffer of a connection, updated in place. */
  class IdleConnection {
    const conn: IdleServerConnection
    var sconnConnected: bool
    var quitting: bool
    var pingTime: nat
    var msgQueueTimeout: bool
    var msgQueue: seq<PendingMsg>
    var lastId: nat
    var msgSending: bool

    ghost var handshaken: bool
    ghost var enqueued: seq<PendingMsg>
    ghost var dequeued: seq<PendingMsg>

    ghost predicate Valid()
      reads this, conn
    {
      conn.Valid()
    }

    ghost function Now(): State
      reads this, conn, conn.outputBuffer
      requires Valid()
    {
      State(sconnConnected, handshaken, quitting, pingTime, msgQueueTimeout, msgQueue, lastId, msgSending,
            conn.Now(), enqueued, dequeued)
    }

    constructor ()
      ensures Valid() && Now() == INITIAL && fresh(conn) && fresh(conn.outputBuffer)
    {
      conn := new IdleServerConnection();
      sconnConnected, quitting, pingTime, msgQueueTimeout := false, false, 0, false;
      msgQueue, lastId, msgSending := [], 0, false;
      handshaken, enqueued, dequeued := false, [], [];
    }

    /** A write ended; after the last one of a command `_msg_queue_timeout_ready` runs. */
    method WriteReady(nwrite: int)
      requires Valid() && (nwrite == -1 || (0 <= nwrite && conn.nwritten + nwrite <= conn.count))
      modifies `msgSending, conn
      ensures Valid() && Now() == if nwrite == -1 then Failed(old(Now())) else Written(old(Now()), nwrite)
    {
      var done := conn.WriteReady(nwrite);
      msgSending := !done;
    }

    method MsgQueueTimeoutCb()
      requires Valid()
      modifies this, conn, conn.outputBuffer
      ensures Valid() && Now() == Tick(old(Now()))
    {
      if !sconnConnected {
        msgQueueTimeout := false;
        return;
      }
      if msgSending {
        return;
      }
      if msgQueue == [] {
        msgQueueTimeout := false;
        return;
      }
      var outputMsg := msgQueue[0];
      msgQueue := msgQueue[1..];
      dequeued := dequeued + [outputMsg];
      msgSending := true;
      conn.SendAsync(outputMsg.message);
    }

    /** `g_queue_insert_sorted`. */
    method QueueInsertSorted(m: PendingMsg)
      requires Valid()
      modifies `msgQueue
      ensures msgQueue == InsertSorted(old(msgQueue), m)
    {
      var k := 0;
      assert msgQueue[0..] == msgQueue;
      while k < |msgQueue| && Compare(msgQueue[k], m) < 0
        invariant 0 <= k <= |msgQueue|
        invariant k + InsertPos(msgQueue[k..], m) == InsertPos(msgQueue, m)
      {
        k := k + 1;
      }
      msgQueue := msgQueue[..k] + [m] + msgQueue[k..];
    }

    /** `idle_connection_add_queue_timeout`. */
    method StartQueueTimeout(flush: bool)
      requires Valid()
      modifies this, conn, conn.outputBuffer
      ensures Valid() && Now() == AddQueueTimeout(old(Now()), flush)
    {
      if !msgQueueTimeout {
        msgQueueTimeout := true;
        if flush {
          MsgQueueTimeoutCb();
        }
      }
    }

    /** `connection_connect_cb` on success. */
    method ConnectCb(flush: bool)
      requires Valid()
      modifies this, conn, conn.outputBuffer
      ensures Valid() && Now() == Welcome(old(Now()), flush)
    {
      if |msgQueue| > 0 {
        StartQueueTimeout(flush);
      }
    }

    method SendWithPriority(msg: string, priority: nat, flush: bool)
      requires Valid()
      modifies this, conn, conn.outputBuffer
      ensures Valid() && Now() == Enqueue(old(Now()), msg, priority, flush)
    {
      hide Frame, InsertSorted;
      var cmd := FrameLine(msg);
      var m := PendingMsg(cmd, priority, lastId);
      lastId := lastId + 1;
      QueueInsertSorted(m);
      enqueued := enqueued + [m];
      StartQueueTimeout(flush);
    }

    method IrcHandshakes(c: Credentials, flush: bool)
      requires Valid()
      modifies this, conn, conn.outputBuffer
      ensures Valid() && Now() == Handshake(old(Now()), c, flush)
    {
      hide Enqueue;
      sconnConnected, conn.open := true, true;
      handshaken := true;
      if c.password != "" {
        SendWithPriority("PASS " + c.password, PASS_PRIORITY, flush);
      }
      SendWithPriority("NICK " + c.nickname, NORMAL_PRIORITY, flush);
      SendWithPriority("USER " + c.username + " 8 * :" + c.realname, NORMAL_PRIORITY, flush);
      SendWithPriority("WHOIS " + c.nickname, NORMAL_PRIORITY, flush);
    }

    method KeepaliveTimeoutCb(now: nat, interval: nat, flush: bool)
      requires Valid()
      modifies this, conn, conn.outputBuffer
      ensures Valid() && Now() == Keepalive(old(Now()), now, interval, flush)
    {
      hide Enqueue;
      if !sconnConnected || quitting {
        return;
      }
      if pingTime != 0 {
        if Overdue(pingTime, now, interval) {
          conn.open := false;
        }
        return;
      }
      if |msgQueue| > 0 {
        return;
      }
      pingTime := now;
      SendWithPriority("PING " + Decimal(now), MIN_PRIORITY, flush);
    }

    method IfaceDisconnected(quitMessage: Option<string>, flush: bool)
      requires Valid()
      modifies this, conn, conn.outputBuffer
      ensures Valid() && Now() == Quit(old(Now()), quitMessage, flush)
    {
      hide Enqueue;
      if !sconnConnected {
        return;
      }
      var cmd := "QUIT";
      if quitMessage.Some? {
        cmd := "QUIT :" + quitMessage.value;
      }
      SendWithPriority(cmd, MAX_PRIORITY, flush);
      quitting := true;
    }
  }

  // ---- What does not hold ----

  /** In a run, a message of one of the priorities in use goes ahead of everything of lower
      priority that waits exactly when it is not of the highest one, or no ordinary message
      and no PING waits before a PASS. */
  lemma HigherFirstInRuns(states: seq<State>, events: seq<Event>, i: nat, m: PendingMsg)
    requires IsRun(states, events) && i < |events|
    requires Admissible(states[i].queue, m.priority) && m.id == states[i].nextId
    ensures AheadOfLower(states[i].queue, m) <==>
              m.priority != MAX_PRIORITY || AllBehindPass(states[i].queue)
  {
    hide Step, AheadOfLower, AllBehindPass, Admissible;
    RunKeeps(states, events, i);
    HigherFirst(states[i].queue, m);
  }

  /** So the server's ping is answered after an ordinary message that was waiting. */
  lemma AnswerQueuesBehind(s: State, m: PendingMsg, arg: string)
    requires s.queue == [m] && m.priority == NORMAL_PRIORITY && s.timer
    ensures Enqueue(s, "PONG " + arg, MAX_PRIORITY, false).queue
         == [m, PendingMsg(Frame("PONG " + arg), MAX_PRIORITY, s.nextId)]
  {
    hide Frame;
    assert s.queue[1..] == [];
  }

  /** First in, first out needs PASS to come before any answer: enqueued behind one, it
      lets the next answer overtake the first. */
  lemma LatePassBreaksFifo(normal: PendingMsg, first: PendingMsg, pass: PendingMsg, second: PendingMsg)
    requires normal.priority == NORMAL_PRIORITY && pass.priority == PASS_PRIORITY
    requires first.priority == MAX_PRIORITY == second.priority
    ensures InsertSorted(InsertSorted([normal, first], pass), second) == [second, pass, normal, first]
  {
    assert InsertPos([normal, first], pass) == 0;
    var q := InsertSorted([normal, first], pass);
    assert q == [pass, normal, first];
    assert InsertPos(q, second) == 0;
  }
}
