/** Contact information: one WHOIS at a time (`idle-contact-info.c`). */
module Whois {
  import opened Wrappers
  import Dispatch
  import Framing
  import Parser

  type Context = nat

  datatype Query = Query(handle: nat, nick: string, context: Context)

  datatype Verdict = Info | DoesNotExist | ServiceBusy | InvalidHandle

  datatype Reply = Reply(context: Context, verdict: Verdict)

  /** The queue of requests, the WHOIS commands sent for it, and the D-Bus answers given;
      `accepted` is every request ever queued, `refused` those whose handle was invalid. */
  datatype State = State(
    queue: seq<Query>, issued: seq<string>, replies: seq<Reply>, accepted: seq<Query>, refused: seq<Reply>)

  const INITIAL := State([], [], [], [], [])

  /** The nick is named twice, so that its own server answers. */
  function Command(q: Query): string {
    Framing.Clip("WHOIS " + q.nick + " " + q.nick)
  }

  /** The command that fits a line has the nick twice, as the server's name and as the user's. */
  lemma CommandNamesTwice(q: Query)
    requires Parser.Word(q.nick) && |q.nick| <= 240
    ensures Parser.Texts(Parser.Tokens(Command(q))) == ["WHOIS", q.nick, q.nick]
  {
    hide Parser.Tokens;
    var last := Parser.Tokens(q.nick);
    Parser.LastWordIs(q.nick);
    Parser.TokensOfFirst(q.nick, q.nick);
    Parser.TokensOfFirst("WHOIS", q.nick + " " + q.nick);
    assert Command(q) == "WHOIS" + " " + (q.nick + " " + q.nick);
  }

  // ---- Steps ----

  datatype Event =
    /** `RequestContactInfo`; no nick where the handle is invalid. */
    | Ask(handle: nat, nick: Option<string>, context: Context)
    | EndOfWhois(handle: nat)
    /** The handle of the server named in the message. */
    | NoSuchServer(handle: nat)
    | TryAgain(command: string)

  /** `_dequeue_request_contact_info`, after a reply to the head. */
  function Finish(s: State, verdict: Verdict): State
    requires s.queue != []
  {
    s.(queue := s.queue[1..],
       issued := s.issued + (if |s.queue| > 1 then [Command(s.queue[1])] else []),
       replies := s.replies + [Reply(s.queue[0].context, verdict)])
  }

  function Enqueue(s: State, q: Query): State {
    s.(queue := s.queue + [q], issued := s.issued + (if s.queue == [] then [Command(q)] else []),
       accepted := s.accepted + [q])
  }

  predicate HeadIs(s: State, handle: nat) {
    s.queue != [] && s.queue[0].handle == handle
  }

  function Step(s: State, e: Event): State {
    match e
    case Ask(handle, Some(nick), context) => Enqueue(s, Query(handle, nick, context))
    case Ask(_, None, context) => s.(refused := s.refused + [Reply(context, InvalidHandle)])
    case EndOfWhois(handle) => if HeadIs(s, handle) then Finish(s, Info) else s
    case NoSuchServer(handle) => if HeadIs(s, handle) then Finish(s, DoesNotExist) else s
    case TryAgain(command) => if s.queue != [] && Dispatch.CaseEq(command, "WHOIS") then Finish(s, ServiceBusy) else s
  }

  // ---- What every step keeps ----

  function Commands(qs: seq<Query>): seq<string> {
    seq(|qs|, i requires 0 <= i < |qs| => Command(qs[i]))
  }

  /** How many commands are on their way. */
  function Outstanding(s: State): nat {
    if s.queue == [] then 0 else 1
  }

  ghost predicate Inv(s: State) {
    && |s.replies| + |s.queue| == |s.accepted|
    && s.queue == s.accepted[|s.replies|..]
    && (forall i :: 0 <= i < |s.replies| ==> s.replies[i].context == s.accepted[i].context)
    && s.issued == Commands(s.accepted[..|s.replies| + Outstanding(s)])
  }

  lemma CommandsSnoc(qs: seq<Query>, q: Query)
    ensures Commands(qs + [q]) == Commands(qs) + [Command(q)]
  {
  }

  lemma FinishKeeps(s: State, verdict: Verdict)
    requires Inv(s) && s.queue != []
    ensures Inv(Finish(s, verdict))
  {
    hide Command;
    var n := |s.replies|;
    assert s.queue[0] == s.accepted[n];
    if |s.queue| > 1 {
      assert s.accepted[..n + 2] == s.accepted[..n + 1] + [s.accepted[n + 1]] && s.queue[1] == s.accepted[n + 1];
      CommandsSnoc(s.accepted[..n + 1], s.accepted[n + 1]);
    }
  }

  lemma EnqueueKeeps(s: State, q: Query)
    requires Inv(s)
    ensures Inv(Enqueue(s, q))
  {
    hide Command;
    var n, t := |s.replies|, Enqueue(s, q);
    if s.queue == [] {
      assert s.accepted[..n] == s.accepted && t.accepted[..n + 1] == s.accepted + [q];
      CommandsSnoc(s.accepted, q);
    } else {
      assert t.accepted[..n + 1] == s.accepted[..n + 1];
    }
  }

  lemma StepKeeps(s: State, e: Event)
    requires Inv(s)
    ensures Inv(Step(s, e))
  {
    hide Finish, Enqueue;
    match e
    case Ask(handle, Some(nick), context) => EnqueueKeeps(s, Query(handle, nick, context));
    case Ask(_, None, _) =>
    case EndOfWhois(handle) => if HeadIs(s, handle) { FinishKeeps(s, Info); }
    case NoSuchServer(handle) => if HeadIs(s, handle) { FinishKeeps(s, DoesNotExist); }
    case TryAgain(command) => if s.queue != [] { FinishKeeps(s, ServiceBusy); }
  }

  // ---- Whole runs ----

  function Run(s: State, events: seq<Event>): State {
    if events == [] then s else Step(Run(s, events[..|events| - 1]), events[|events| - 1])
  }

  lemma {:induction false} RunKeeps(events: seq<Event>)
    ensures Inv(Run(INITIAL, events))
  {
    hide Inv, Step;
    if events == [] {
      assert Inv(INITIAL) by { InitialInv(); }
    } else {
      RunKeeps(events[..|events| - 1]);
      StepKeeps(Run(INITIAL, events[..|events| - 1]), events[|events| - 1]);
    }
  }

  lemma InitialInv()
    ensures Inv(INITIAL)
  {
  }

  /**
   * After every run: the commands sent are those of the first requests in order, one
   * more than the requests completed when somebody waits and as many otherwise; the one
   * on its way is for the head of the queue; and the contexts have been answered once
   * each, in request order.
   */
  lemma OneAtATime(events: seq<Event>)
    ensures var s := Run(INITIAL, events);
      && |s.accepted| == |s.replies| + |s.queue|
      && s.accepted[|s.replies|..] == s.queue
      && |s.issued| == |s.replies| + Outstanding(s)
      && (s.queue != [] ==> s.issued[|s.issued| - 1] == Command(s.queue[0]))
      && (forall i :: 0 <= i < |s.issued| ==> s.issued[i] == Command(s.accepted[i]))
      && (forall i :: 0 <= i < |s.replies| ==> s.replies[i].context == s.accepted[i].context)
  {
    hide Run, Command;
    RunKeeps(events);
  }

  // ---- Which message answers which request ----

  /** A message of the server that answers a request for `handle` in this way. */
  predicate Completes(e: Event, handle: nat, verdict: Verdict) {
    match verdict
    case Info => e == EndOfWhois(handle)
    case DoesNotExist => e == NoSuchServer(handle)
    case ServiceBusy => e.TryAgain? && Dispatch.CaseEq(e.command, "WHOIS")
    case InvalidHandle => false
  }

  /** A message about the head answers and removes it; any other changes nothing, one about
      another contact included. */
  lemma HeadIsAnswered(s: State, e: Event)
    ensures forall v :: s.queue != [] && Completes(e, s.queue[0].handle, v) ==>
      Step(s, e).replies == s.replies + [Reply(s.queue[0].context, v)] && Step(s, e).queue == s.queue[1..]
    ensures !e.Ask? && (s.queue != [] ==> forall v :: !Completes(e, s.queue[0].handle, v)) ==> Step(s, e) == s
  {
    if s.queue != [] {
      var h := s.queue[0].handle;
      assert e == EndOfWhois(h) <==> Completes(e, h, Info);
      assert e == NoSuchServer(h) <==> Completes(e, h, DoesNotExist);
      assert e.TryAgain? && Dispatch.CaseEq(e.command, "WHOIS") <==> Completes(e, h, ServiceBusy);
    }
  }

  /** Reply number `i` was given when event number `k` came, which answers request `i`. */
  ghost predicate AnsweredBy(events: seq<Event>, i: nat, k: nat)
    requires i < |Run(INITIAL, events).replies| && k < |events|
    requires |Run(INITIAL, events).replies| <= |Run(INITIAL, events).accepted|
  {
    && |Run(INITIAL, events[..k]).replies| == i
    && Completes(events[k], Run(INITIAL, events).accepted[i].handle, Run(INITIAL, events).replies[i].verdict)
  }

  /** In every run, every reply was given when a message about the contact of its request
      came while that request was the oldest one without a reply, and says what the message
      says. */
  lemma {:induction false} EveryReplyHasItsMessage(events: seq<Event>, i: nat)
    requires i < |Run(INITIAL, events).replies|
    ensures |Run(INITIAL, events).replies| <= |Run(INITIAL, events).accepted|
    ensures exists k :: 0 <= k < |events| && AnsweredBy(events, i, k)
  {
    hide Step, Completes;
    var n := |events| - 1;
    var s, e := Run(INITIAL, events[..n]), events[n];
    RunKeeps(events);
    RunKeeps(events[..n]);
    StepGrows(s, e);
    if i < |s.replies| {
      EveryReplyHasItsMessage(events[..n], i);
      var k :| 0 <= k < n && AnsweredBy(events[..n], i, k);
      assert events[..n][..k] == events[..k];
      assert AnsweredBy(events, i, k);
    } else {
      assert AnsweredBy(events, i, n);
    }
  }

  /** A step adds one reply at most, to the oldest request. */
  lemma StepGrows(s: State, e: Event)
    requires Inv(s)
    ensures s.replies <= Step(s, e).replies && s.accepted <= Step(s, e).accepted
    ensures |Step(s, e).replies| <= |s.replies| + 1
    ensures |Step(s, e).replies| > |s.replies| ==>
      && s.queue != [] && s.queue[0] == s.accepted[|s.replies|]
      && Completes(e, s.queue[0].handle, Step(s, e).replies[|s.replies|].verdict)
  {
    hide Command;
  }

  /** The requests in the order in which clients made them, valid or not. */
  function Asked(events: seq<Event>): seq<Query> {
    if events == [] then []
    else
      Asked(events[..|events| - 1]) +
      match events[|events| - 1]
      case Ask(handle, Some(nick), context) => [Query(handle, nick, context)]
      case _ => []
  }

  function Invalid(events: seq<Event>): seq<Reply> {
    if events == [] then []
    else
      Invalid(events[..|events| - 1]) +
      match events[|events| - 1]
      case Ask(_, None, context) => [Reply(context, InvalidHandle)]
      case _ => []
  }

  /** No request is forgotten: those with a valid handle are queued, the others refused. */
  lemma {:induction false} EveryRequestIsKept(events: seq<Event>)
    ensures Run(INITIAL, events).accepted == Asked(events) && Run(INITIAL, events).refused == Invalid(events)
  {
    hide Command;
    if events != [] {
      EveryRequestIsKept(events[..|events| - 1]);
    }
  }

  // ---- The queue in place ----

  class ContactInfo {
    var contactInfoRequests: seq<Query>
    /** What was handed to the connection, and to D-Bus. */
    var sent: seq<string>
    var returned: seq<Reply>
    var errors: seq<Reply>
    ghost var accepted: seq<Query>

    ghost function Now(): State
      reads this
    {
      State(contactInfoRequests, sent, returned, accepted, errors)
    }

    constructor ()
      ensures Now() == INITIAL
    {
      contactInfoRequests, sent, returned, errors, accepted := [], [], [], [], [];
    }

    /** `_send_request_contact_info`. */
    method SendRequestContactInfo(q: Query)
      modifies `sent
      ensures sent == old(sent) + [Command(q)]
    {
      sent := sent + [Framing.Clip("WHOIS " + q.nick + " " + q.nick)];
    }

    /** A reply to the head, and `_dequeue_request_contact_info`. */
    method ReturnAndDequeue(verdict: Verdict)
      requires contactInfoRequests != []
      modifies this
      ensures Now() == Finish(old(Now()), verdict)
    {
      hide Command;
      returned := returned + [Reply(contactInfoRequests[0].context, verdict)];
      contactInfoRequests := contactInfoRequests[1..];
      if contactInfoRequests == [] {
        return;
      }
      SendRequestContactInfo(contactInfoRequests[0]);
    }

    /** `_get_matching_request`, as far as it decides. */
    method GetMatchingRequest(handle: nat) returns (found: bool)
      ensures found <==> HeadIs(Now(), handle)
    {
      if contactInfoRequests == [] {
        return false;
      }
      return contactInfoRequests[0].handle == handle;
    }

    /** `idle_connection_request_contact_info` with `_queue_request_contact_info`. */
    method RequestContactInfo(handle: nat, nick: Option<string>, context: Context)
      modifies this
      ensures Now() == Step(old(Now()), Ask(handle, nick, context))
    {
      hide Command;
      match nick
      case None => errors := errors + [Reply(context, InvalidHandle)];
      case Some(n) =>
        var request := Query(handle, n, context);
        if contactInfoRequests == [] {
          SendRequestContactInfo(request);
        }
        contactInfoRequests := contactInfoRequests + [request];
        accepted := accepted + [request];
    }

    /** `_end_of_whois_handler`. */
    method EndOfWhoisHandler(handle: nat)
      modifies this
      ensures Now() == Step(old(Now()), EndOfWhois(handle))
    {
      var found := GetMatchingRequest(handle);
      if found {
        ReturnAndDequeue(Info);
      }
    }

    /** `_no_such_server_handler`. */
    method NoSuchServerHandler(handle: nat)
      modifies this
      ensures Now() == Step(old(Now()), NoSuchServer(handle))
    {
      var found := GetMatchingRequest(handle);
      if found {
        ReturnAndDequeue(DoesNotExist);
      }
    }

    /** `_try_again_handler`, which does not know whose WHOIS it was. */
    method TryAgainHandler(command: string)
      modifies this
      ensures Now() == Step(old(Now()), TryAgain(command))
    {
      if contactInfoRequests == [] || !Dispatch.CaseEq(command, "WHOIS") {
        return;
      }
      ReturnAndDequeue(ServiceBusy);
    }
  }
}
