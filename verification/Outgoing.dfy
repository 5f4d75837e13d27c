/**
 * The outgoing half of a connection (`idle-connection.c`, `idle-server-connection.c`):
 * a queue kept in the order of a 32-bit comparison, drained one message at a time
 * through partial writes.
 */
module Outgoing {
  import opened Seqs

  // ---- The comparison ----

  const MIN_PRIORITY: nat := 0
  const NORMAL_PRIORITY: nat := 0x7FFF_FFFF
  const PASS_PRIORITY: nat := NORMAL_PRIORITY + 1
  const MAX_PRIORITY: nat := 0xFFFF_FFFF

  datatype PendingMsg = PendingMsg(message: string, priority: nat, id: nat)

  /** The signed 32-bit integer with the low 32 bits of `x`. */
  function AsInt32(x: int): int {
    var low := x % 0x1_0000_0000;
    if low < 0x8000_0000 then low else low - 0x1_0000_0000
  }

  /** `pending_msg_compare`: unsigned differences, returned as a signed integer. */
  function Compare(a: PendingMsg, b: PendingMsg): int {
    if a.priority == b.priority then AsInt32((a.id - b.id) % 0x1_0000_0000_0000_0000)
    else AsInt32(b.priority - a.priority)
  }

  /** The comparison is no order on the four priorities in use: two pairs come before
      each other, and three priorities form a cycle. */
  lemma CompareIsCyclic(id: nat)
    ensures var min, normal := PendingMsg("", MIN_PRIORITY, id), PendingMsg("", NORMAL_PRIORITY, id);
      var pass, max := PendingMsg("", PASS_PRIORITY, id), PendingMsg("", MAX_PRIORITY, id);
      && Compare(normal, max) < 0 && Compare(max, normal) < 0
      && Compare(pass, min) < 0 && Compare(min, pass) < 0
      && Compare(normal, min) < 0 && Compare(min, max) < 0 && Compare(max, pass) < 0 && Compare(pass, normal) < 0
  {
  }

  /** Of two messages of one priority the older comes first as long as their ids are
      at most 2^31 apart, modulo 2^32. */
  lemma OlderFirst(a: PendingMsg, b: PendingMsg)
    requires a.priority == b.priority && a.id < b.id
    ensures Compare(a, b) < 0 <==> 1 <= (b.id - a.id) % 0x1_0000_0000 <= 0x8000_0000
  {
    var d := b.id - a.id;
    var wide := (-d) % 0x1_0000_0000_0000_0000;
    LowBits(-d);
    assert wide % 0x1_0000_0000 == (-d) % 0x1_0000_0000;
    Negate(d);
  }

  lemma LowBits(x: int)
    ensures (x % 0x1_0000_0000_0000_0000) % 0x1_0000_0000 == x % 0x1_0000_0000
  {
  }

  lemma Negate(d: int)
    ensures (-d) % 0x1_0000_0000 == if d % 0x1_0000_0000 == 0 then 0 else 0x1_0000_0000 - d % 0x1_0000_0000
  {
  }

  /** `g_queue_insert_sorted`: before the first element that does not compare as less. */
  function InsertPos(queue: seq<PendingMsg>, m: PendingMsg): (k: nat)
    ensures k <= |queue|
    ensures forall i :: 0 <= i < k ==> Compare(queue[i], m) < 0
    ensures k < |queue| ==> Compare(queue[k], m) >= 0
  {
    if queue == [] || Compare(queue[0], m) >= 0 then 0 else 1 + InsertPos(queue[1..], m)
  }

  function InsertSorted(queue: seq<PendingMsg>, m: PendingMsg): seq<PendingMsg> {
    var k := InsertPos(queue, m);
    queue[..k] + [m] + queue[k..]
  }

  // ---- The order the queue keeps ----

  predicate KnownPriority(p: nat) {
    p == MIN_PRIORITY || p == NORMAL_PRIORITY || p == PASS_PRIORITY || p == MAX_PRIORITY
  }

  /** What holds of any message `a` that stands before `b` in the queue. */
  predicate MayPrecede(a: PendingMsg, b: PendingMsg) {
    && (a.priority == b.priority ==> a.id < b.id)
    && !(a.priority == MIN_PRIORITY && b.priority == NORMAL_PRIORITY)
    && !(a.priority == PASS_PRIORITY && b.priority == MAX_PRIORITY)
  }

  ghost predicate Ordered(queue: seq<PendingMsg>) {
    && (forall i :: 0 <= i < |queue| ==> KnownPriority(queue[i].priority))
    && (forall i, j :: 0 <= i < j < |queue| ==> MayPrecede(queue[i], queue[j]))
  }

  predicate AllNormal(queue: seq<PendingMsg>) {
    forall i :: 0 <= i < |queue| ==> queue[i].priority == NORMAL_PRIORITY
  }

  /** Where each priority is used: PASS when only ordinary messages can be waiting,
      PING when nothing is. */
  predicate Admissible(queue: seq<PendingMsg>, priority: nat) {
    || priority == NORMAL_PRIORITY
    || priority == MAX_PRIORITY
    || (priority == PASS_PRIORITY && AllNormal(queue))
    || (priority == MIN_PRIORITY && queue == [])
  }

  /** All ids in the queue are older than `id`, and not too old for 32 bits. */
  predicate InWindow(queue: seq<PendingMsg>, id: nat) {
    forall i :: 0 <= i < |queue| ==> queue[i].id < id <= queue[i].id + 0x8000_0000
  }

  /** One element against the new one: how the comparison comes out. */
  lemma CompareWith(a: PendingMsg, m: PendingMsg)
    requires KnownPriority(a.priority) && KnownPriority(m.priority) && a.id < m.id <= a.id + 0x8000_0000
    ensures a.priority == m.priority ==> Compare(a, m) < 0
    ensures m.priority == NORMAL_PRIORITY ==> (Compare(a, m) >= 0 <==> a.priority == MIN_PRIORITY)
    ensures m.priority == MAX_PRIORITY ==> (Compare(a, m) >= 0 <==> a.priority == PASS_PRIORITY)
    ensures m.priority == PASS_PRIORITY && a.priority == NORMAL_PRIORITY ==> Compare(a, m) >= 0
  {
    if a.priority == m.priority {
      OlderFirst(a, m);
    }
  }

  /** A message goes behind all messages of its own priority, and the order of the
      queue survives. */
  lemma InsertKeepsOrder(queue: seq<PendingMsg>, m: PendingMsg)
    requires Ordered(queue) && Admissible(queue, m.priority) && InWindow(queue, m.id)
    ensures Ordered(InsertSorted(queue, m))
    ensures forall j :: InsertPos(queue, m) <= j < |queue| ==> queue[j].priority != m.priority
  {
    hide Compare;
    var k := InsertPos(queue, m);
    forall i | 0 <= i < |queue| && KnownPriority(m.priority) ensures CompareFacts(queue[i], m) {
      CompareWith(queue[i], m);
    }
    forall i | 0 <= i < k ensures MayPrecede(queue[i], m) {
      assert CompareFacts(queue[i], m);
    }
    forall j | k <= j < |queue| ensures MayPrecede(m, queue[j]) && queue[j].priority != m.priority {
      assert CompareFacts(queue[k], m);
      assert j > k ==> MayPrecede(queue[k], queue[j]);
    }
    InsertedPairs(queue, k, m);
  }

  ghost predicate CompareFacts(a: PendingMsg, m: PendingMsg) {
    && (a.priority == m.priority ==> Compare(a, m) < 0)
    && (m.priority == NORMAL_PRIORITY ==> (Compare(a, m) >= 0 <==> a.priority == MIN_PRIORITY))
    && (m.priority == MAX_PRIORITY ==> (Compare(a, m) >= 0 <==> a.priority == PASS_PRIORITY))
    && (m.priority == PASS_PRIORITY && a.priority == NORMAL_PRIORITY ==> Compare(a, m) >= 0)
  }

  lemma InsertedPairs(queue: seq<PendingMsg>, k: nat, m: PendingMsg)
    requires Ordered(queue) && k <= |queue| && KnownPriority(m.priority)
    requires forall i :: 0 <= i < k ==> MayPrecede(queue[i], m)
    requires forall j :: k <= j < |queue| ==> MayPrecede(m, queue[j])
    ensures Ordered(queue[..k] + [m] + queue[k..])
  {
    hide MayPrecede;
    var q := queue[..k] + [m] + queue[k..];
    forall i, j | 0 <= i < j < |q| ensures MayPrecede(q[i], q[j]) {
      var a, b := if i < k then i else i - 1, if j < k then j else j - 1;
      assert i == k || q[i] == queue[a];
      assert j == k || q[j] == queue[b];
    }
  }

  // ---- When a higher priority goes first ----

  /** The comparison prefers the higher of two priorities exactly when they differ by less
      than 2^31. */
  lemma PrefersHigher(a: PendingMsg, m: PendingMsg)
    requires a.priority < m.priority <= MAX_PRIORITY
    ensures Compare(a, m) >= 0 <==> m.priority - a.priority < 0x8000_0000
  {
  }

  /** A new message goes ahead of all waiting messages of lower priority. */
  predicate AheadOfLower(queue: seq<PendingMsg>, m: PendingMsg) {
    forall j :: 0 <= j < |queue| && queue[j].priority < m.priority ==> InsertPos(queue, m) <= j
  }

  /** Every message below the highest priority has a PASS at its place or before it. */
  predicate AllBehindPass(queue: seq<PendingMsg>) {
    forall j :: 0 <= j < |queue| && queue[j].priority != MAX_PRIORITY ==>
      exists i :: 0 <= i <= j && queue[i].priority == PASS_PRIORITY
  }

  lemma HigherFirst(queue: seq<PendingMsg>, m: PendingMsg)
    requires Ordered(queue) && Admissible(queue, m.priority) && InWindow(queue, m.id)
    ensures AheadOfLower(queue, m) <==> m.priority != MAX_PRIORITY || AllBehindPass(queue)
  {
    hide Compare, MayPrecede;
    var k := InsertPos(queue, m);
    forall i | 0 <= i < |queue| ensures CompareFacts(queue[i], m) {
      CompareWith(queue[i], m);
    }
    if m.priority == MAX_PRIORITY {
      assert k < |queue| ==> queue[k].priority == PASS_PRIORITY;
      assert forall i :: 0 <= i < k ==> queue[i].priority != PASS_PRIORITY;
    }
  }

  // ---- First in, first out, priority by priority ----

  function OfPriority(p: nat, s: seq<PendingMsg>): seq<PendingMsg> {
    if s == [] then []
    else (if s[0].priority == p then [s[0]] else []) + OfPriority(p, s[1..])
  }

  lemma {:induction false} OfPriorityConcat(p: nat, a: seq<PendingMsg>, b: seq<PendingMsg>)
    ensures OfPriority(p, a + b) == OfPriority(p, a) + OfPriority(p, b)
  {
    if a == [] {
      assert a + b == b;
    } else {
      OfPriorityConcat(p, a[1..], b);
      Assoc(if a[0].priority == p then [a[0]] else [], OfPriority(p, a[1..]), OfPriority(p, b));
      assert (a + b)[0] == a[0] && (a + b)[1..] == a[1..] + b;
    }
  }

  lemma {:induction false} OfPriorityNone(p: nat, a: seq<PendingMsg>)
    requires forall i :: 0 <= i < |a| ==> a[i].priority != p
    ensures OfPriority(p, a) == []
  {
    if a != [] {
      OfPriorityNone(p, a[1..]);
    }
  }

  /** Among the messages of its priority a new message is the last. */
  lemma InsertIsLast(queue: seq<PendingMsg>, m: PendingMsg, p: nat)
    requires Ordered(queue) && Admissible(queue, m.priority) && InWindow(queue, m.id)
    ensures OfPriority(p, InsertSorted(queue, m)) == OfPriority(p, queue) + OfPriority(p, [m])
  {
    hide Ordered, Admissible, InWindow, InsertPos, OfPriority;
    InsertKeepsOrder(queue, m);
    OfPriorityInserted(queue, InsertPos(queue, m), m, p);
  }

  lemma OfPriorityInserted(queue: seq<PendingMsg>, k: nat, m: PendingMsg, p: nat)
    requires k <= |queue| && forall j :: k <= j < |queue| ==> queue[j].priority != m.priority
    ensures OfPriority(p, queue[..k] + [m] + queue[k..]) == OfPriority(p, queue) + OfPriority(p, [m])
  {
    hide OfPriority;
    var x, y, z := OfPriority(p, queue[..k]), OfPriority(p, [m]), OfPriority(p, queue[k..]);
    OfPriorityConcat(p, queue[..k] + [m], queue[k..]);
    OfPriorityConcat(p, queue[..k], [m]);
    OfPriorityConcat(p, queue[..k], queue[k..]);
    assert queue[..k] + queue[k..] == queue;
    if p == m.priority {
      OfPriorityNone(p, queue[k..]);
      assert x + y + [] == x + [] + y;
    } else {
      OfPriorityNone(p, [m]);
      assert x + [] + z == x + z + [];
    }
  }
}
