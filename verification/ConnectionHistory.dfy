/** The state of a connection told by the events of its run: what was queued, which ping is
    open, who closed the connection, and that everything leaves in time. */
module ConnectionHistory {
  import opened Irc
  import opened Framing
  import opened Outgoing
  import opened ServerConnection
  import opened Connection

  // ---- Every line queued, of whatever priority ----

  datatype Call = Call(priority: nat, text: string)

  /** The commands that an event queues, in order. */
  function Calls(s: State, e: Event): seq<Call> {
    match e
    case Connected(c, _) =>
      (if c.password == "" then [] else [Call(PASS_PRIORITY, "PASS " + c.password)]) +
      [Call(NORMAL_PRIORITY, "NICK " + c.nickname),
       Call(NORMAL_PRIORITY, "USER " + c.username + " 8 * :" + c.realname),
       Call(NORMAL_PRIORITY, "WHOIS " + c.nickname)]
    case Send(msg, _) => [Call(NORMAL_PRIORITY, msg)]
    case ServerPing(arg, _) => [Call(MAX_PRIORITY, "PONG " + arg)]
    case KeepaliveTimeout(now, _, _) =>
      if !s.connected || s.quitting || s.pingTime != 0 || s.queue != [] then []
      else [Call(MIN_PRIORITY, "PING " + Decimal(now))]
    case Disconnect(quitMessage, _) =>
      if !s.connected then [] else if quitMessage.None? then [Call(MAX_PRIORITY, "QUIT")]
      else [Call(MAX_PRIORITY, "QUIT :" + quitMessage.value)]
    case _ => []
  }

  /** Messages of the queue are the frames of these commands. */
  predicate Framed(msgs: seq<PendingMsg>, calls: seq<Call>) {
    |msgs| == |calls| &&
    forall i :: 0 <= i < |msgs| ==> msgs[i].priority == calls[i].priority && msgs[i].message == Frame(calls[i].text)
  }

  lemma FramedConcat(a: seq<PendingMsg>, c: seq<Call>, b: seq<PendingMsg>, d: seq<Call>)
    requires Framed(a, c) && Framed(b, d)
    ensures Framed(a + b, c + d)
  {
    hide Frame;
  }

  lemma EnqueueAddsCall(s: State, calls: seq<Call>, msg: string, priority: nat, flush: bool)
    requires Framed(s.enqueued, calls)
    ensures Framed(Enqueue(s, msg, priority, flush).enqueued, calls + [Call(priority, msg)])
  {
    hide Frame, InsertSorted;
    FramedConcat(s.enqueued, calls, [PendingMsg(Frame(msg), priority, s.nextId)], [Call(priority, msg)]);
  }

  lemma StepAddsCalls(s: State, e: Event, calls: seq<Call>)
    requires Possible(s, e) && Framed(s.enqueued, calls)
    ensures Framed(Step(s, e).enqueued, calls + Calls(s, e))
  {
    hide Enqueue, Decimal, Framed;
    assert calls + [] == calls;
    match e
    case Connected(c, flush) => HandshakeAddsCalls(s, c, flush, calls);
    case Send(msg, flush) => EnqueueAddsCall(s, calls, msg, NORMAL_PRIORITY, flush);
    case ServerPing(arg, flush) => EnqueueAddsCall(s, calls, "PONG " + arg, MAX_PRIORITY, flush);
    case KeepaliveTimeout(now, _, flush) =>
      EnqueueAddsCall(s.(pingTime := now), calls, "PING " + Decimal(now), MIN_PRIORITY, flush);
    case Disconnect(quitMessage, flush) =>
      var cmd := if quitMessage.None? then "QUIT" else "QUIT :" + quitMessage.value;
      EnqueueAddsCall(s, calls, cmd, MAX_PRIORITY, flush);
    case _ =>
  }

  lemma HandshakeAddsCalls(s: State, c: Credentials, flush: bool, calls: seq<Call>)
    requires Framed(s.enqueued, calls)
    ensures Framed(Handshake(s, c, flush).enqueued, calls + Calls(s, Connected(c, flush)))
  {
    hide Enqueue, Framed;
    var s0 := Opened(s, true).(connected := true, handshaken := true);
    var pass, nick := Call(PASS_PRIORITY, "PASS " + c.password), Call(NORMAL_PRIORITY, "NICK " + c.nickname);
    var user := Call(NORMAL_PRIORITY, "USER " + c.username + " 8 * :" + c.realname);
    var whois := Call(NORMAL_PRIORITY, "WHOIS " + c.nickname);
    var s1 := if c.password != "" then Enqueue(s0, pass.text, PASS_PRIORITY, flush) else s0;
    var calls1 := if c.password != "" then calls + [pass] else calls;
    if c.password != "" {
      EnqueueAddsCall(s0, calls, pass.text, PASS_PRIORITY, flush);
    }
    EnqueueAddsCall(s1, calls1, nick.text, NORMAL_PRIORITY, flush);
    var s2 := Enqueue(s1, nick.text, NORMAL_PRIORITY, flush);
    EnqueueAddsCall(s2, calls1 + [nick], user.text, NORMAL_PRIORITY, flush);
    var s3 := Enqueue(s2, user.text, NORMAL_PRIORITY, flush);
    EnqueueAddsCall(s3, calls1 + [nick] + [user], whois.text, NORMAL_PRIORITY, flush);
    assert calls1 + [nick] + [user] + [whois] == calls + Calls(s, Connected(c, flush));
  }

  function AllCalls(states: seq<State>, events: seq<Event>): seq<Call>
    requires |events| <= |states|
  {
    if events == [] then []
    else
      var n := |events| - 1;
      AllCalls(states, events[..n]) + Calls(states[n], events[n])
  }

  /** In every run the lines ever queued, of every priority, are those of its events, framed
      and in order. */
  lemma {:induction false} EnqueuedAreCalls(states: seq<State>, events: seq<Event>, i: nat)
    requires IsRun(states, events) && i <= |events|
    ensures Framed(states[i].enqueued, AllCalls(states, events[..i]))
  {
    hide Step, Calls, Possible;
    if i > 0 {
      EnqueuedAreCalls(states, events, i - 1);
      StepAddsCalls(states[i - 1], events[i - 1], AllCalls(states, events[..i - 1]));
      assert events[..i][..i - 1] == events[..i - 1];
    }
  }

  // ---- The flags, told by the past ----

  /** A handshake before `i`, and since then no event of the kind that ends what it began. */
  ghost predicate Since(events: seq<Event>, i: nat, ends: Event -> bool)
    requires i <= |events|
  {
    exists j :: 0 <= j < i && events[j].Connected? && forall k :: j < k < i ==> !ends(events[k])
  }

  lemma EnqueueKeepsFlags(s: State, msg: string, priority: nat, flush: bool)
    ensures var t := Enqueue(s, msg, priority, flush);
      && t.connected == s.connected && t.handshaken == s.handshaken && t.quitting == s.quitting
      && t.pingTime == s.pingTime && t.sconn.open == s.sconn.open
  {
    hide InsertSorted, Frame;
  }

  /** What one event makes of the flags. */
  lemma StepFlags(s: State, e: Event)
    requires Possible(s, e)
    ensures var t := Step(s, e);
      && t.handshaken == (s.handshaken || e.Connected?)
      && t.connected == (e.Connected? || (s.connected && !e.Dropped?))
      && t.quitting == (s.quitting || (e.Disconnect? && s.connected))
      && (!e.KeepaliveTimeout? ==>
            && t.pingTime == (if e.ServerPong? then 0 else s.pingTime)
            && t.sconn.open == (e.Connected? || (s.sconn.open && !e.Closing? && !e.Dropped?)))
  {
    hide Enqueue, Decimal;
    match e
    case Connected(c, flush) => HandshakeFlags(s, c, flush);
    case Send(msg, flush) => EnqueueKeepsFlags(s, msg, NORMAL_PRIORITY, flush);
    case ServerPing(arg, flush) => EnqueueKeepsFlags(s, "PONG " + arg, MAX_PRIORITY, flush);
    case KeepaliveTimeout(now, _, flush) =>
      EnqueueKeepsFlags(s.(pingTime := now), "PING " + Decimal(now), MIN_PRIORITY, flush);
    case Disconnect(quitMessage, flush) =>
      EnqueueKeepsFlags(s, if quitMessage.None? then "QUIT" else "QUIT :" + quitMessage.value, MAX_PRIORITY, flush);
    case _ =>
  }

  lemma HandshakeFlags(s: State, c: Credentials, flush: bool)
    ensures var t := Handshake(s, c, flush);
      t.connected && t.handshaken && t.quitting == s.quitting && t.pingTime == s.pingTime && t.sconn.open
  {
    hide Enqueue;
    var s0 := Opened(s, true).(connected := true, handshaken := true);
    EnqueueKeepsFlags(s0, "PASS " + c.password, PASS_PRIORITY, flush);
    var s1 := if c.password != "" then Enqueue(s0, "PASS " + c.password, PASS_PRIORITY, flush) else s0;
    EnqueueKeepsFlags(s1, "NICK " + c.nickname, NORMAL_PRIORITY, flush);
    var s2 := Enqueue(s1, "NICK " + c.nickname, NORMAL_PRIORITY, flush);
    EnqueueKeepsFlags(s2, "USER " + c.username + " 8 * :" + c.realname, NORMAL_PRIORITY, flush);
    var s3 := Enqueue(s2, "USER " + c.username + " 8 * :" + c.realname, NORMAL_PRIORITY, flush);
    EnqueueKeepsFlags(s3, "WHOIS " + c.nickname, NORMAL_PRIORITY, flush);
  }

  /** In every run we are connected from the handshake until the connection drops, and
      quitting from the first disconnection of a live connection on. */
  lemma {:induction false} FlagsTellHistory(states: seq<State>, events: seq<Event>, i: nat)
    requires IsRun(states, events) && i <= |events|
    ensures states[i].connected <==> Since(events, i, (e: Event) => e.Dropped?)
    ensures states[i].quitting <==> exists j :: 0 <= j < i && events[j].Disconnect? && states[j].connected
  {
    hide Step;
    if i > 0 {
      var e := events[i - 1];
      FlagsTellHistory(states, events, i - 1);
      StepFlags(states[i - 1], e);
      SinceStep(events, i, (e: Event) => e.Dropped?);
    }
  }

  lemma SinceStep(events: seq<Event>, i: nat, ends: Event -> bool)
    requires 0 < i <= |events|
    ensures Since(events, i, ends) <==> events[i - 1].Connected? || (Since(events, i - 1, ends) && !ends(events[i - 1]))
  {
  }

  // ---- Pings ----

  /** Event `j` queued our ping at time `time`. */
  ghost predicate Pings(states: seq<State>, events: seq<Event>, j: nat, time: nat)
    requires j < |events| < |states|
  {
    events[j].KeepaliveTimeout? && events[j].now == time && states[j + 1].enqueued != states[j].enqueued
  }

  /** A ping of that time, and no answer since. */
  ghost predicate Unanswered(states: seq<State>, events: seq<Event>, i: nat, time: nat)
    requires i <= |events| < |states|
  {
    exists j :: 0 <= j < i && Pings(states, events, j, time) && forall k :: j < k < i ==> !events[k].ServerPong?
  }

  /** What the keepalive timer does, in terms of the ping time. */
  lemma KeepaliveStep(s: State, now: nat, interval: nat, flush: bool)
    ensures var t := Keepalive(s, now, interval, flush);
      && (t.enqueued != s.enqueued <==> s.connected && !s.quitting && s.pingTime == 0 && s.queue == [])
      && t.pingTime == (if t.enqueued != s.enqueued then now else s.pingTime)
      && t.connected == s.connected && t.quitting == s.quitting
  {
    hide Frame, InsertSorted, Decimal;
  }

  /** In every run the ping time that is not zero is that of the ping without an answer. */
  lemma {:induction false} PingTimeTellsHistory(states: seq<State>, events: seq<Event>, i: nat, time: nat)
    requires IsRun(states, events) && i <= |events| && time > 0
    ensures states[i].pingTime == time <==> Unanswered(states, events, i, time)
  {
    hide Step, Possible, Keepalive;
    if i > 0 {
      var s, e, t := states[i - 1], events[i - 1], states[i];
      PingTimeTellsHistory(states, events, i - 1, time);
      StepFlags(s, e);
      UnansweredStep(states, events, i, time);
      if e.KeepaliveTimeout? {
        IsKeepalive(s, e);
        KeepaliveStep(s, e.now, e.interval, e.flush);
      }
    }
  }

  lemma IsKeepalive(s: State, e: Event)
    requires e.KeepaliveTimeout? && Possible(s, e)
    ensures Step(s, e) == Keepalive(s, e.now, e.interval, e.flush)
  {
    hide Keepalive;
  }

  lemma UnansweredStep(states: seq<State>, events: seq<Event>, i: nat, time: nat)
    requires 0 < i <= |events| < |states|
    ensures Unanswered(states, events, i, time) <==>
      Pings(states, events, i - 1, time) ||
      (Unanswered(states, events, i - 1, time) && !events[i - 1].ServerPong?)
  {
    hide Pings;
  }

  /** The answer is more than three intervals late, by a clock that went on. */
  predicate TooLate(time: nat, now: nat, interval: nat) {
    now > time && (now - time) / 1_000_000 > 3 * interval
  }

  /** In every run, while a ping is unanswered the keepalive timer queues nothing, and closes
      the server connection exactly when the answer is too late. */
  lemma UnansweredPing(states: seq<State>, events: seq<Event>, i: nat, time: nat)
    requires IsRun(states, events) && i < |events| && events[i].KeepaliveTimeout?
    requires states[i].connected && !states[i].quitting && time > 0 && Unanswered(states, events, i, time)
    ensures var s, e := states[i], events[i];
      states[i + 1] == s.(sconn := s.sconn.(open := s.sconn.open && !TooLate(time, e.now, e.interval)))
  {
    hide Step, Possible, Unanswered;
    PingTimeTellsHistory(states, events, i, time);
    IsKeepalive(states[i], events[i]);
  }

  lemma PingTimeIs(states: seq<State>, events: seq<Event>, i: nat)
    requires IsRun(states, events) && i <= |events|
    ensures states[i].pingTime > 0 ==> Unanswered(states, events, i, states[i].pingTime)
    ensures forall time: nat :: time > 0 && Unanswered(states, events, i, time) ==> time == states[i].pingTime
  {
    hide Step, Possible, Unanswered;
    if states[i].pingTime > 0 {
      PingTimeTellsHistory(states, events, i, states[i].pingTime);
    }
    forall time: nat | time > 0 && Unanswered(states, events, i, time) ensures time == states[i].pingTime {
      PingTimeTellsHistory(states, events, i, time);
    }
  }

  /** And it queues a ping exactly when the connection is up, not quitting and idle, and no
      ping is unanswered; a ping of the first instant is forgotten. */
  lemma PingsWhenIdle(states: seq<State>, events: seq<Event>, i: nat)
    requires IsRun(states, events) && i < |events| && events[i].KeepaliveTimeout?
    ensures Pings(states, events, i, events[i].now) <==>
      && states[i].connected && !states[i].quitting && states[i].queue == []
      && forall time: nat :: time > 0 ==> !Unanswered(states, events, i, time)
  {
    hide Step, Possible, Unanswered, Keepalive;
    var s, e := states[i], events[i];
    PingTimeIs(states, events, i);
    IsKeepalive(s, e);
    KeepaliveStep(s, e.now, e.interval, e.flush);
  }

  // ---- Who closes the connection, and what is lost ----

  ghost predicate Closes(states: seq<State>, events: seq<Event>, k: nat)
    requires k < |events| < |states|
  {
    || events[k].Closing? || events[k].Dropped?
    || (events[k].KeepaliveTimeout? && states[k].connected && !states[k].quitting &&
        exists time: nat :: time > 0 && Unanswered(states, events, k, time)
                            && TooLate(time, events[k].now, events[k].interval))
  }

  /** In every run the server connection takes commands from the handshake until it is
      closed. */
  lemma {:induction false} OpenTellsHistory(states: seq<State>, events: seq<Event>, i: nat)
    requires IsRun(states, events) && i <= |events|
    ensures states[i].sconn.open <==> NotClosed(states, events, i)
  {
    hide Step, Closes;
    if i > 0 {
      OpenTellsHistory(states, events, i - 1);
      StepCloses(states, events, i - 1);
    }
  }

  /** A handshake before event `i`, and nothing that closes the connection since. */
  ghost predicate NotClosed(states: seq<State>, events: seq<Event>, i: nat)
    requires i <= |events| < |states|
  {
    exists j :: 0 <= j < i && events[j].Connected? && forall k :: j < k < i ==> !Closes(states, events, k)
  }

  lemma StepCloses(states: seq<State>, events: seq<Event>, i: nat)
    requires IsRun(states, events) && i < |events|
    ensures states[i + 1].sconn.open <==>
      events[i].Connected? || (states[i].sconn.open && !Closes(states, events, i))
  {
    hide Step, Unanswered, TooLate;
    StepFlags(states[i], events[i]);
    if events[i].KeepaliveTimeout? {
      KeepaliveCloses(states, events, i);
    }
  }

  lemma KeepaliveCloses(states: seq<State>, events: seq<Event>, i: nat)
    requires IsRun(states, events) && i < |events| && events[i].KeepaliveTimeout?
    ensures states[i + 1].sconn.open == (states[i].sconn.open && !Closes(states, events, i))
  {
    hide Step, Possible, Unanswered;
    var s, e := states[i], events[i];
    IsKeepalive(s, e);
    PingTimeIs(states, events, i);
    EnqueueKeepsFlags(s.(pingTime := e.now), "PING " + Decimal(e.now), MIN_PRIORITY, e.flush);
    hide Enqueue, Decimal;
  }

  /** Event `k` loses a command: its write fails, or it is taken when the connection is closed. */
  ghost predicate Loses(states: seq<State>, events: seq<Event>, k: nat)
    requires k < |events| < |states|
  {
    events[k].WriteFailed? || (states[k + 1].dequeued != states[k].dequeued && !states[k + 1].sconn.open)
  }

  lemma EnqueueLoses(s: State, msg: string, priority: nat, flush: bool)
    ensures var t := Enqueue(s, msg, priority, flush);
      && t.sconn.lost == (s.sconn.lost || (t.dequeued != s.dequeued && !s.sconn.open))
      && s.dequeued <= t.dequeued
  {
    hide InsertSorted, Frame;
  }

  lemma StepLoses(s: State, e: Event)
    requires Possible(s, e)
    ensures var t := Step(s, e);
      t.sconn.lost == (s.sconn.lost || e.WriteFailed? || (t.dequeued != s.dequeued && !t.sconn.open))
  {
    hide Enqueue, Decimal;
    StepFlags(s, e);
    match e
    case Connected(c, flush) =>
      var s0 := Opened(s, true).(connected := true, handshaken := true);
      EnqueueLoses(s0, "PASS " + c.password, PASS_PRIORITY, flush);
      EnqueueKeepsFlags(s0, "PASS " + c.password, PASS_PRIORITY, flush);
      var s1 := if c.password != "" then Enqueue(s0, "PASS " + c.password, PASS_PRIORITY, flush) else s0;
      EnqueueLoses(s1, "NICK " + c.nickname, NORMAL_PRIORITY, flush);
      EnqueueKeepsFlags(s1, "NICK " + c.nickname, NORMAL_PRIORITY, flush);
      var s2 := Enqueue(s1, "NICK " + c.nickname, NORMAL_PRIORITY, flush);
      EnqueueLoses(s2, "USER " + c.username + " 8 * :" + c.realname, NORMAL_PRIORITY, flush);
      EnqueueKeepsFlags(s2, "USER " + c.username + " 8 * :" + c.realname, NORMAL_PRIORITY, flush);
      var s3 := Enqueue(s2, "USER " + c.username + " 8 * :" + c.realname, NORMAL_PRIORITY, flush);
      EnqueueLoses(s3, "WHOIS " + c.nickname, NORMAL_PRIORITY, flush);
    case Send(msg, flush) => EnqueueLoses(s, msg, NORMAL_PRIORITY, flush);
    case ServerPing(arg, flush) => EnqueueLoses(s, "PONG " + arg, MAX_PRIORITY, flush);
    case KeepaliveTimeout(now, _, flush) =>
      EnqueueKeepsFlags(s.(pingTime := now), "PING " + Decimal(now), MIN_PRIORITY, flush);
      EnqueueLoses(s.(pingTime := now), "PING " + Decimal(now), MIN_PRIORITY, flush);
    case Disconnect(quitMessage, flush) =>
      EnqueueLoses(s, if quitMessage.None? then "QUIT" else "QUIT :" + quitMessage.value, MAX_PRIORITY, flush);
    case _ =>
  }

  /** In every run a command was lost exactly when a write failed or a command was taken by a
      closed connection. */
  lemma {:induction false} LostTellsHistory(states: seq<State>, events: seq<Event>, i: nat)
    requires IsRun(states, events) && i <= |events|
    ensures states[i].sconn.lost <==> exists k :: 0 <= k < i && Loses(states, events, k)
  {
    hide Step, Possible;
    if i > 0 {
      LostTellsHistory(states, events, i - 1);
      StepLoses(states[i - 1], events[i - 1]);
      assert Loses(states, events, i - 1) <==>
        events[i - 1].WriteFailed? || (states[i].dequeued != states[i - 1].dequeued && !states[i].sconn.open);
    }
  }

  // ---- Everything leaves in time ----

  /** These events can happen one after the other, and lead from `s` to `t`. */
  ghost predicate Leads(s: State, events: seq<Event>, t: State)
    decreases |events|
  {
    if events == [] then s == t else Possible(s, events[0]) && Leads(Step(s, events[0]), events[1..], t)
  }

  /** From any state of a connection that is up and has lost nothing, ticks of the timer and
      completed writes alone empty the queue, in its order, and bring all of it to the wire. */
  lemma {:induction false} EverythingLeaves(s: State) returns (events: seq<Event>, t: State)
    requires Inv(s) && s.connected && s.sconn.open && !s.sconn.lost
    ensures Leads(s, events, t) && forall i :: 0 <= i < |events| ==> events[i].QueueTimeout? || events[i].WriteReady?
    ensures t.queue == [] && !t.sending && !t.sconn.lost
    ensures t.dequeued == s.dequeued + s.queue && t.sconn.wire == Lines(t.dequeued)
    decreases |s.queue|, s.sending
  {
    hide Lines, QueueInv, Fifo, AllLines;
    if !s.sending && s.queue == [] {
      events, t := [], s;
    } else {
      var e := if s.sending then WriteReady(|s.sconn.buffer| - s.sconn.nwritten) else QueueTimeout;
      if s.sending {
        WrittenKeeps(s, e.n);
      } else {
        TickKeeps(s);
      }
      var later;
      later, t := EverythingLeaves(Step(s, e));
      events := [e] + later;
      assert events[1..] == later;
      assert s.queue != [] ==> s.queue == [s.queue[0]] + s.queue[1..];
    }
  }

  /** A timer goes on after a tick only where a command is under way. */
  lemma TimerStops(s: State)
    ensures Step(s, QueueTimeout).timer && s.timer ==> s.connected && Step(s, QueueTimeout).sending
  {
  }

  /** A command queued when the timer is off and the last message is long ago leaves at once
      on an idle connection, and otherwise waits. */
  lemma FlushedAtOnce(s: State, msg: string, priority: nat, flush: bool)
    requires s.connected && !s.sending && s.queue == []
    ensures var t := Enqueue(s, msg, priority, flush); var m := PendingMsg(Frame(msg), priority, s.nextId);
      if flush && !s.timer then t.queue == [] && t.sending && t.dequeued == s.dequeued + [m]
      else t.queue == [m] && !t.sending && t.dequeued == s.dequeued
  {
    hide Frame;
    var m := PendingMsg(Frame(msg), priority, s.nextId);
    assert InsertPos([], m) == 0 && [] + [m] + [] == [m] && [m][1..] == [];
  }

  /** After a failed write the queue is free for the next command, and after the welcome the
      timer is on where something waits. */
  lemma FailureFreesQueue(s: State, flush: bool)
    ensures !Failed(s).sending && Failed(s).queue == s.queue && Failed(s).connected == s.connected
    ensures !flush ==> (Welcome(s, flush).timer <==> s.timer || s.queue != [])
  {
  }
}
