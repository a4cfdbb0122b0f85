/** Flow control towards one WebSocket client: a bounded queue in front of the socket, in
    which cumulative updates may replace one another or be dropped. What the socket and
    the clock answer is arbitrary; each answer is fixed by the number of the question. */
module OutboundFlow {
  import opened Text

  // --------------------------------------------------------------------------- messages

  /** A server message: what decides its treatment, and its serialization, if there is one. */
  datatype ServerMessage =
    | ToolUpdated(workspace: string, conversation: string, toolCall: string, json: Option<string>)
    | History(workspace: string, requestId: Option<string>, json: Option<string>)
    | Jobs(requestId: Option<string>, json: Option<string>)
    | OtherMessage(json: Option<string>)

  function CoalesceKey(m: ServerMessage): Option<string> {
    match m
    case ToolUpdated(w, c, t, _) => Some("tool:" + w + ":" + c + ":" + t)
    case History(w, None, _) => Some("history:" + w)
    case Jobs(None, _) => Some("jobs")
    case _ => None
  }

  predicate IsDroppable(m: ServerMessage) {
    m.ToolUpdated? || (m.History? && m.requestId.None?) || (m.Jobs? && m.requestId.None?)
  }

  /** Exactly the messages that may be replaced may be dropped. */
  lemma KeyedExactlyWhenDroppable(m: ServerMessage)
    ensures CoalesceKey(m).Some? <==> IsDroppable(m)
  {
  }

  /** Messages have the same key exactly if they are updates of the same tool call, histories
      of the same workspace, or both the list of jobs -- provided that the colon that
      separates identifiers in the key occurs in none but the last of them. */
  lemma SameKeyExactlyWhen(a: ServerMessage, b: ServerMessage)
    requires a.ToolUpdated? ==> ':' !in a.workspace && ':' !in a.conversation
    requires b.ToolUpdated? ==> ':' !in b.workspace && ':' !in b.conversation
    requires CoalesceKey(a).Some? && CoalesceKey(b).Some?
    ensures CoalesceKey(a) == CoalesceKey(b) <==>
      || (a.ToolUpdated? && b.ToolUpdated? && a.workspace == b.workspace && a.conversation == b.conversation && a.toolCall == b.toolCall)
      || (a.History? && b.History? && a.workspace == b.workspace)
      || (a.Jobs? && b.Jobs?)
  {
    var x, y := CoalesceKey(a).value, CoalesceKey(b).value;
    KeyStart(a);
    KeyStart(b);
    if a.ToolUpdated? && b.ToolUpdated? && x == y {
      ToolKeyParts(a);
      ToolKeyParts(b);
    }
    if a.History? && b.History? && x == y {
      assert a.workspace == x[|"history:"|..] && b.workspace == y[|"history:"|..];
    }
  }

  // The first letter tells the kinds apart.
  lemma KeyStart(m: ServerMessage)
    requires CoalesceKey(m).Some?
    ensures var k := CoalesceKey(m).value; k != [] && k[0] == (if m.ToolUpdated? then 't' else if m.History? then 'h' else 'j')
  {
    if m.ToolUpdated? { assert CoalesceKey(m).value == "tool:" + (m.workspace + ":" + m.conversation + ":" + m.toolCall); }
  }

  // The identifiers can be read off the key.
  lemma ToolKeyParts(m: ServerMessage)
    requires m.ToolUpdated? && ':' !in m.workspace && ':' !in m.conversation
    ensures Split(CoalesceKey(m).value, ':') == ["tool", m.workspace, m.conversation] + Split(m.toolCall, ':')
    ensures Join(Split(m.toolCall, ':'), ':') == m.toolCall
    ensures m.toolCall == Join(Split(CoalesceKey(m).value, ':')[3..], ':')
  {
    var w, c, t := m.workspace, m.conversation, m.toolCall;
    assert CoalesceKey(m).value == "tool" + [':'] + (w + [':'] + (c + [':'] + t));
    SplitAtSeparator("tool", w + [':'] + (c + [':'] + t), ':');
    SplitAtSeparator(w, c + [':'] + t, ':');
    SplitAtSeparator(c, t, ':');
    JoinSplit(t, ':');
    assert (["tool", w, c] + Split(t, ':'))[3..] == Split(t, ':');
  }

  /** Without that, updates of different tool calls may have the same key. */
  lemma KeysMayCollide(json: Option<string>)
    ensures CoalesceKey(ToolUpdated("a:b", "c", "t", json)) == CoalesceKey(ToolUpdated("a", "b:c", "t", json))
  {
    assert "tool:" + "a:b" + ":" + "c" + ":" + "t" == "tool:" + "a" + ":" + "b:c" + ":" + "t";
  }

  function Utf8Width(c: char): nat {
    if (c as int) < 0x80 then 1 else if (c as int) < 0x800 then 2 else if (c as int) < 0x10000 then 3 else 4
  }

  function Utf8Length(s: string): nat { if s == [] then 0 else Utf8Width(s[0]) + Utf8Length(s[1..]) }

  // A code point as section 3 of RFC 3629 writes it.
  function Utf8Bytes(c: char): seq<int> {
    var n := c as int;
    if n <= 0x7f then [n]
    else if n <= 0x7ff then [0xc0 + n / 0x40, 0x80 + n % 0x40]
    else if n <= 0xffff then [0xe0 + n / 0x1000, 0x80 + n / 0x40 % 0x40, 0x80 + n % 0x40]
    else [0xf0 + n / 0x40000, 0x80 + n / 0x1000 % 0x40, 0x80 + n / 0x40 % 0x40, 0x80 + n % 0x40]
  }

  function Utf8(s: string): seq<int> { if s == [] then [] else Utf8Bytes(s[0]) + Utf8(s[1..]) }

  /** What is counted are the bytes that are sent. */
  lemma {:induction false} Utf8LengthCounts(s: string)
    ensures Utf8Length(s) == |Utf8(s)| && forall k :: 0 <= k < |Utf8(s)| ==> 0 <= Utf8(s)[k] < 256
  {
    if s != [] { Utf8LengthCounts(s[1..]); }
  }

  datatype Item = Item(data: string, bytes: nat, key: Option<string>, droppable: bool)

  function ItemOf(m: ServerMessage): (item: Item)
    requires m.json.Some?
    ensures item.key.Some? <==> item.droppable
  {
    KeyedExactlyWhenDroppable(m);
    Item(m.json.value, Utf8Length(m.json.value), CoalesceKey(m), IsDroppable(m))
  }

  // ------------------------------------------------------------------------- the queue

  function Sum(q: seq<Item>): nat { if q == [] then 0 else q[0].bytes + Sum(q[1..]) }

  lemma {:induction false} SumOfBoth(p: seq<Item>, q: seq<Item>)
    ensures Sum(p + q) == Sum(p) + Sum(q)
  {
    if p == [] { assert p + q == q; } else {
      assert (p + q)[1..] == p[1..] + q;
      SumOfBoth(p[1..], q);
    }
  }

  lemma SumOfSplit(q: seq<Item>, i: nat)
    requires i < |q|
    ensures Sum(q) == Sum(q[..i]) + q[i].bytes + Sum(q[i + 1..])
    ensures Sum(q[..i] + q[i + 1..]) == Sum(q) - q[i].bytes
  {
    assert q == q[..i] + q[i..];
    SumOfBoth(q[..i], q[i..]);
    assert q[i..][1..] == q[i + 1..];
    SumOfBoth(q[..i], q[i + 1..]);
  }

  lemma SumOfPush(q: seq<Item>, item: Item)
    ensures Sum(q + [item]) == Sum(q) + item.bytes
  {
    SumOfBoth(q, [item]);
  }

  lemma SumWithoutLast(q: seq<Item>)
    requires q != []
    ensures Sum(q) == Sum(q[..|q| - 1]) + q[|q| - 1].bytes
  {
    SumOfPush(q[..|q| - 1], q[|q| - 1]);
    assert q == q[..|q| - 1] + [q[|q| - 1]];
  }

  lemma ReplacedLast(q: seq<Item>, item: Item)
    requires q != []
    ensures var r := q[|q| - 1 := item]; r == q[..|q| - 1] + [item] && r[..|q| - 1] == q[..|q| - 1]
  {
  }

  function Lasting(q: seq<Item>): seq<Item> {
    if q == [] then [] else if q[0].droppable then Lasting(q[1..]) else [q[0]] + Lasting(q[1..])
  }

  /** The queue after giving up droppable messages, oldest first, until so many bytes are
      no longer too many. */
  function Discarded(q: seq<Item>, excess: int): seq<Item> {
    if q == [] || excess <= 0 then q
    else if q[0].droppable then Discarded(q[1..], excess - q[0].bytes)
    else [q[0]] + Discarded(q[1..], excess)
  }

  // The discarding loop, at this index and with so many bytes too many, is to reach this.
  predicate Reaches(goal: seq<Item>, q: seq<Item>, i: nat, excess: int) {
    i <= |q| && goal == q[..i] + Discarded(q[i..], excess)
  }

  lemma DiscardTurn(goal: seq<Item>, q: seq<Item>, i: nat, excess: int)
    requires Reaches(goal, q, i, excess) && i < |q|
    ensures excess <= 0 ==> goal == q
    ensures excess > 0 && q[i].droppable ==> Reaches(goal, q[..i] + q[i + 1..], i, excess - q[i].bytes)
    ensures excess > 0 && !q[i].droppable ==> Reaches(goal, q, i + 1, excess)
  {
    assert q[i..][1..] == q[i + 1..];
    if excess <= 0 {
      assert q[..i] + q[i..] == q;
    } else if q[i].droppable {
      var r := q[..i] + q[i + 1..];
      assert r[..i] == q[..i] && r[i..] == q[i + 1..];
    } else {
      assert q[..i + 1] == q[..i] + [q[i]];
    }
  }

  // The queue after an update has taken the place of the last one, if that is not too much.
  function Superseded(q: seq<Item>, item: Item, limit: nat): seq<Item>
    requires q != []
  {
    var rest := q[..|q| - 1];
    if Sum(rest) + item.bytes > limit then rest else rest + [item]
  }

  /** Discarding makes room exactly when the messages that must not be dropped leave it. */
  lemma {:induction false} RoomExactlyWhen(q: seq<Item>, excess: int)
    ensures Sum(Discarded(q, excess)) <= Sum(q) - excess <==> Sum(Lasting(q)) <= Sum(q) - excess
    ensures Sum(Discarded(q, excess)) <= Sum(q) && Sum(Lasting(q)) <= Sum(Discarded(q, excess))
    ensures Lasting(Discarded(q, excess)) == Lasting(q)
  {
    if q != [] {
      RoomExactlyWhen(q[1..], if q[0].droppable then excess - q[0].bytes else excess);
      if excess > 0 && !q[0].droppable {
        var rest := Discarded(q[1..], excess);
        assert ([q[0]] + rest)[1..] == rest;
        assert ([q[0]] + Lasting(q[1..]))[1..] == Lasting(q[1..]);
      }
    }
  }

  // ------------------------------------------------------------- histories of messages

  // Messages are known by their number; the numbers of a history rise.
  predicate Rising(ids: seq<nat>) { forall i, j :: 0 <= i < j < |ids| ==> ids[i] < ids[j] }

  predicate Known(ids: seq<nat>, sent: seq<Item>) { forall i :: 0 <= i < |ids| ==> ids[i] < |sent| }

  // The queue holds the messages of these numbers.
  predicate Holds(queue: seq<Item>, waiting: seq<nat>, sent: seq<Item>)
    requires Known(waiting, sent)
  {
    |queue| == |waiting| && forall i :: 0 <= i < |queue| ==> queue[i] == sent[waiting[i]]
  }

  predicate Replaceable(items: seq<Item>) { forall i :: 0 <= i < |items| ==> (items[i].key.Some? <==> items[i].droppable) }

  predicate Kept(handed: seq<nat>, waiting: seq<nat>, i: nat) { i in handed || i in waiting }

  // What is neither handed over nor waiting could be dropped.
  predicate NothingLost(sent: seq<Item>, handed: seq<nat>, waiting: seq<nat>) {
    forall i: nat :: i < |sent| && !sent[i].droppable ==> Kept(handed, waiting, i)
  }

  /** Everything the histories promise: the messages handed over, followed by those still
      waiting, are a subsequence of those sent; and only droppable ones are missing. */
  predicate Traced(sent: seq<Item>, handed: seq<nat>, waiting: seq<nat>, queue: seq<Item>) {
    && Rising(handed + waiting) && Known(handed + waiting, sent) && Known(waiting, sent) && Holds(queue, waiting, sent)
    && Replaceable(sent)
  }

  predicate Written(written: seq<string>, handed: seq<nat>, sent: seq<Item>) {
    |written| == |handed| && forall k :: 0 <= k < |written| ==> handed[k] < |sent| && written[k] == sent[handed[k]].data
  }

  lemma TracedPush(sent: seq<Item>, handed: seq<nat>, waiting: seq<nat>, queue: seq<Item>, item: Item)
    requires Traced(sent, handed, waiting, queue) && (item.key.Some? <==> item.droppable)
    ensures Traced(sent + [item], handed, waiting + [|sent|], queue + [item])
    ensures Traced(sent + [item], handed, waiting, queue)
    ensures NothingLost(sent, handed, waiting) ==> NothingLost(sent + [item], handed, waiting + [|sent|])
    ensures NothingLost(sent, handed, waiting) && item.droppable ==> NothingLost(sent + [item], handed, waiting)
  {
    assert handed + (waiting + [|sent|]) == (handed + waiting) + [|sent|];
    forall i | 0 <= i < |waiting| ensures waiting[i] < |sent| {
      assert (handed + waiting)[|handed| + i] == waiting[i];
    }
    var longer := sent + [item];
    forall i: nat | i < |longer| && NothingLost(sent, handed, waiting)
      ensures !longer[i].droppable ==> Kept(handed, waiting + [|sent|], i)
      ensures !longer[i].droppable && item.droppable ==> Kept(handed, waiting, i)
    {
      if i < |sent| {
        assert longer[i].droppable || Kept(handed, waiting, i);
      } else {
        assert (waiting + [|sent|])[|waiting|] == i;
      }
    }
  }

  // The front of the queue is handed over.
  lemma TracedShift(sent: seq<Item>, handed: seq<nat>, waiting: seq<nat>, queue: seq<Item>)
    requires Traced(sent, handed, waiting, queue) && queue != []
    ensures Traced(sent, handed + [waiting[0]], waiting[1..], queue[1..])
    ensures NothingLost(sent, handed, waiting) ==> NothingLost(sent, handed + [waiting[0]], waiting[1..])
  {
    assert (handed + [waiting[0]]) + waiting[1..] == handed + waiting;
    forall i: nat | i < |sent| && !sent[i].droppable && NothingLost(sent, handed, waiting)
      ensures Kept(handed + [waiting[0]], waiting[1..], i)
    {
      assert Kept(handed, waiting, i);
      if i in waiting { InTail(waiting, i); }
    }
  }

  lemma InTail(s: seq<nat>, x: nat)
    requires x in s
    ensures x == s[0] || x in s[1..]
  {
    var i :| 0 <= i < |s| && s[i] == x;
    if i > 0 { assert s[1..][i - 1] == x; }
  }

  // A droppable message leaves the queue.
  lemma TracedDrop(sent: seq<Item>, handed: seq<nat>, waiting: seq<nat>, queue: seq<Item>, k: nat)
    requires Traced(sent, handed, waiting, queue) && k < |queue| && queue[k].droppable
    ensures Traced(sent, handed, waiting[..k] + waiting[k + 1..], queue[..k] + queue[k + 1..])
    ensures NothingLost(sent, handed, waiting) ==> NothingLost(sent, handed, waiting[..k] + waiting[k + 1..])
  {
    var rest := waiting[..k] + waiting[k + 1..];
    RisingDrop(handed + waiting, |handed| + k);
    assert (handed + waiting)[..|handed| + k] + (handed + waiting)[|handed| + k + 1..] == handed + rest;
    forall i | 0 <= i < |rest| ensures rest[i] == waiting[if i < k then i else i + 1] { }
    forall i: nat | i < |sent| && !sent[i].droppable && NothingLost(sent, handed, waiting) ensures Kept(handed, rest, i) {
      assert Kept(handed, waiting, i);
      if i in waiting {
        var j :| 0 <= j < |waiting| && waiting[j] == i;
        assert j != k;
        assert rest[if j < k then j else j - 1] == i;
      }
    }
  }

  // The last message waiting, and its successor, may both go.
  lemma TracedSupersede(sent: seq<Item>, handed: seq<nat>, waiting: seq<nat>, queue: seq<Item>, item: Item)
    requires Traced(sent, handed, waiting, queue) && queue != [] && queue[|queue| - 1].droppable
    requires item.droppable && item.key.Some?
    ensures |waiting| == |queue|
    ensures var items, numbers := queue[..|queue| - 1], waiting[..|queue| - 1];
      && Traced(sent + [item], handed, numbers + [|sent|], items + [item]) && Traced(sent + [item], handed, numbers, items)
      && (NothingLost(sent, handed, waiting) ==>
            NothingLost(sent + [item], handed, numbers + [|sent|]) && NothingLost(sent + [item], handed, numbers))
  {
    var last := |queue| - 1;
    TracedDrop(sent, handed, waiting, queue, last);
    assert queue[..last] + queue[last + 1..] == queue[..last] && waiting[..last] + waiting[last + 1..] == waiting[..last];
    TracedPush(sent, handed, waiting[..last], queue[..last], item);
  }

  lemma WrittenGrows(written: seq<string>, handed: seq<nat>, sent: seq<Item>, item: Item)
    requires Written(written, handed, sent)
    ensures Written(written, handed, sent + [item])
  {
  }

  lemma RisingDrop(ids: seq<nat>, k: nat)
    requires k < |ids|
    ensures Rising(ids) ==> Rising(ids[..k] + ids[k + 1..])
  {
  }

  // ----------------------------------------------------------------- socket and clock

  // How the socket takes one message. Whether the call also throws makes no difference,
  // since the error is only reported.
  datatype Reaction = Reaction(callsBack: bool, open: bool, bufferedAmount: nat)

  class Socket {
    const reactions: nat -> Reaction
    var calls: nat
    var open: bool
    var bufferedAmount: nat
    ghost var written: seq<string>

    constructor (reactions: nat -> Reaction, open: bool, bufferedAmount: nat)
      ensures written == [] && this.open == open && this.bufferedAmount == bufferedAmount
    {
      this.reactions, calls, this.open, this.bufferedAmount, written := reactions, 0, open, bufferedAmount, [];
    }

    /** The socket may call back before it returns. */
    method Send(data: string) returns (calledBack: bool)
      modifies this
      ensures written == old(written) + [data]
    {
      var r := reactions(calls);
      calls := calls + 1;
      written := written + [data];
      open, bufferedAmount := r.open, r.bufferedAmount;
      calledBack := r.callsBack;
    }

    method Close()
      modifies this
      ensures written == old(written) && !open
    {
      open := false;
    }

    /** Meanwhile: the network drains, stalls or breaks. */
    method Happens(open: bool, bufferedAmount: nat)
      modifies this
      ensures written == old(written) && this.open == open && this.bufferedAmount == bufferedAmount
    {
      this.open, this.bufferedAmount := open, bufferedAmount;
    }
  }

  class Clock {
    const readings: nat -> int
    var ticks: nat

    constructor (readings: nat -> int) { this.readings, ticks := readings, 0; }

    method Now() returns (t: int)
      modifies this
      ensures t == readings(old(ticks)) && ticks == old(ticks) + 1
    {
      t := readings(ticks);
      ticks := ticks + 1;
    }
  }

  // --------------------------------------------------------------------- the controller

  class OutboundFlowController {
    const socket: Socket
    const clock: Clock
    const highWaterBytes: nat
    const maxQueueBytes: nat
    const slowClientTimeoutMs: int
    var queue: seq<Item>
    var queuedBytes: int
    var pressureStartedAt: Option<int>
    var timer: bool
    var pumping: bool
    var disposed: bool
    // All messages accepted so far, and the numbers of those handed over and queued.
    ghost var sent: seq<Item>
    ghost var handed: seq<nat>
    ghost var waiting: seq<nat>

    /** Queued bytes are counted exactly and bounded; what was handed over and what waits
        is a subsequence of what was sent; nothing that must not be dropped is missing. */
    ghost predicate Valid()
      reads this, socket
    {
      && queuedBytes == Sum(queue) <= maxQueueBytes
      && Traced(sent, handed, waiting, queue) && Written(socket.written, handed, sent)
      && (if disposed then queue == [] && waiting == [] && !timer else NothingLost(sent, handed, waiting))
    }

    /** A live, non-empty queue is looked at again. */
    ghost predicate AtRest()
      reads this
    {
      !pumping && (!disposed && queue != [] ==> timer)
    }

    constructor (socket: Socket, clock: Clock, highWaterBytes: nat, maxQueueBytes: nat, slowClientTimeoutMs: int)
      requires socket.written == []
      ensures Valid() && AtRest() && Patient() && !disposed && sent == [] && this.socket == socket && this.clock == clock
      ensures this.maxQueueBytes == maxQueueBytes && this.highWaterBytes == highWaterBytes && this.slowClientTimeoutMs == slowClientTimeoutMs
      ensures queue == [] && !timer && pressureStartedAt == None
    {
      this.socket, this.clock := socket, clock;
      this.highWaterBytes, this.maxQueueBytes, this.slowClientTimeoutMs := highWaterBytes, maxQueueBytes, slowClientTimeoutMs;
      queue, queuedBytes, pressureStartedAt := [], 0, None;
      timer, pumping, disposed := false, false, false;
      sent, handed, waiting := [], [], [];
    }

    method Dispose()
      requires Valid()
      modifies this
      ensures Valid() && disposed
      ensures pumping == old(pumping) && sent == old(sent) && handed == old(handed)
      ensures pressureStartedAt == old(pressureStartedAt)
    {
      if disposed { return; }
      disposed := true;
      timer := false;
      assert (handed + waiting)[..|handed|] == handed;
      queue, waiting := [], [];
      assert handed + waiting == handed;
      queuedBytes := 0;
    }

    predicate Pressured()
      reads this, socket
    {
      queue != [] || socket.bufferedAmount >= highWaterBytes
    }

    // Pressure has lasted for too long, by the next readings of the clock.
    predicate TooSlow()
      reads this, clock
    {
      var now := clock.readings(if pressureStartedAt.Some? then clock.ticks else clock.ticks + 1);
      now - (if pressureStartedAt.Some? then pressureStartedAt.value else clock.readings(clock.ticks)) >= slowClientTimeoutMs
    }

    // While there is pressure, the clock has not yet shown that it has lasted too long.
    predicate Patient()
      reads this, clock
    {
      !disposed && pressureStartedAt.Some? ==>
        clock.ticks > 0 && clock.readings(clock.ticks - 1) - pressureStartedAt.value < slowClientTimeoutMs
    }

    /** The client is given up exactly if its socket is gone or it has been too slow for
        too long, and then the socket is closed; otherwise nothing queued is touched, there
        is a timer exactly while there is pressure, and pressure is counted from its start. */
    method UpdatePressure()
      requires Valid()
      modifies this, socket, clock
      ensures Valid() && pumping == old(pumping) && sent == old(sent) && handed == old(handed)
      ensures disposed <==> old(disposed || !socket.open || ((queue != [] || socket.bufferedAmount >= highWaterBytes) && TooSlow()))
      ensures !disposed ==> queue == old(queue) && waiting == old(waiting)
      ensures !disposed ==> (timer <==> Pressured()) && (timer <==> pressureStartedAt.Some?)
      ensures !disposed ==> (timer <==> queue != [] || socket.bufferedAmount >= highWaterBytes)
      ensures !disposed ==> socket.open && socket.bufferedAmount == old(socket.bufferedAmount)
      ensures !disposed && Pressured() ==>
        pressureStartedAt == Some(if old(pressureStartedAt).Some? then old(pressureStartedAt).value else clock.readings(old(clock.ticks)))
      ensures Patient() && (disposed && !old(disposed) ==> !socket.open) && (old(disposed || !socket.open) ==> unchanged(socket))
    {
      hide Traced, Written, NothingLost, Sum;
      if disposed || !socket.open {
        Dispose();
        return;
      }
      if !Pressured() {
        pressureStartedAt := None;
        timer := false;
        return;
      }
      if pressureStartedAt.None? {
        var started := clock.Now();
        pressureStartedAt := Some(started);
      }
      var now := clock.Now();
      if now - pressureStartedAt.value >= slowClientTimeoutMs {
        CloseSlowClient();
        return;
      }
      timer := true;
    }

    method CloseSlowClient()
      requires Valid()
      modifies this, socket
      ensures Valid() && disposed && pumping == old(pumping) && sent == old(sent) && handed == old(handed)
      ensures !old(disposed) ==> !socket.open
      ensures socket.written == old(socket.written)
    {
      if disposed { return; }
      socket.Close();
      Dispose();
    }

    /** One item, just taken from the front of the queue or never queued, is given to the
        socket; a callback during the call pumps, unless a pump is already at work. */
    method Write(item: Item, ghost id: nat)
      requires !disposed && queuedBytes == Sum(queue) <= maxQueueBytes
      requires Traced(sent, handed + [id], waiting, queue) && NothingLost(sent, handed + [id], waiting)
      requires Written(socket.written, handed, sent) && id < |sent| && item == sent[id]
      requires !pumping ==> queue == []
      modifies this, socket, clock
      ensures Valid() && pumping == old(pumping) && sent == old(sent) && old(handed) + [id] <= handed
      ensures !disposed ==> handed + waiting == old(handed) + [id] + old(waiting)
      ensures pumping ==> queue == old(queue) && waiting == old(waiting) && !disposed && handed == old(handed) + [id]
      ensures disposed && !old(disposed) ==> !socket.open
      decreases if pumping then 0 else 1, 1
    {
      handed := handed + [id];
      var calledBack := socket.Send(item.data);
      if calledBack { Pump(); }
    }

    // The front of the queue, ready to be handed over.
    method Shift() returns (item: Item, ghost id: nat)
      requires Valid() && !disposed && queue != []
      modifies this`queue, this`waiting, this`queuedBytes
      ensures queuedBytes == Sum(queue) <= maxQueueBytes && queue == old(queue)[1..]
      ensures Traced(sent, handed + [id], waiting, queue) && NothingLost(sent, handed + [id], waiting)
      ensures id < |sent| && item == sent[id] && handed + [id] + waiting == old(handed + waiting)
    {
      item, id := queue[0], waiting[0];
      TracedShift(sent, handed, waiting, queue);
      assert (handed + waiting)[|handed|] == id;
      queue, waiting := queue[1..], waiting[1..];
      queuedBytes := queuedBytes - item.bytes;
    }

    /** Hand over from the front while the socket takes more. A pump that returns with the
        flow alive has emptied the queue, or filled the socket. */
    method Pump()
      requires Valid()
      modifies this, socket, clock
      ensures Valid() && pumping == old(pumping) && sent == old(sent) && old(handed) <= handed
      ensures !disposed ==> handed + waiting == old(handed + waiting)
      ensures old(pumping || disposed) ==> unchanged(this) && unchanged(socket) && unchanged(clock)
      ensures !old(pumping) ==> AtRest()
      ensures !old(pumping) && !disposed ==> queue == [] || socket.bufferedAmount >= highWaterBytes
      ensures !old(pumping) ==> Patient()
      ensures disposed && !old(disposed) ==> !socket.open
      decreases if pumping then 0 else 1, 0
    {
      hide Traced, Written, NothingLost, Sum;
      if pumping || disposed { return; }
      pumping := true;
      while queue != [] && socket.open && socket.bufferedAmount < highWaterBytes
        invariant Valid() && pumping && !disposed && sent == old(sent) && old(handed) <= handed
        invariant handed + waiting == old(handed + waiting)
        decreases |queue|
      {
        var item, id := Shift();
        Write(item, id);
      }
      pumping := false;
      UpdatePressure();
    }

    /** The loop that gives up droppable messages, in place, until there is room. */
    method DiscardDroppableUntil(requiredBytes: nat)
      requires Valid() && !disposed
      modifies this`queue, this`queuedBytes, this`waiting
      ensures Valid() && queue == Discarded(old(queue), old(queuedBytes) + requiredBytes - maxQueueBytes)
    {
      hide Traced, Written, NothingLost;
      var index := 0;
      ghost var goal := Discarded(queue, queuedBytes + requiredBytes - maxQueueBytes);
      assert queue[0..] == queue;
      while index < |queue|
        invariant Valid() && Reaches(goal, queue, index, queuedBytes + requiredBytes - maxQueueBytes)
        decreases |queue| - index
      {
        DiscardTurn(goal, queue, index, queuedBytes + requiredBytes - maxQueueBytes);
        if queuedBytes + requiredBytes <= maxQueueBytes { return; }
        if !queue[index].droppable {
          index := index + 1;
        } else {
          Splice(index);
        }
      }
      assert queue[..index] == queue;
    }

    method Splice(index: nat)
      requires Valid() && !disposed && index < |queue| && queue[index].droppable
      modifies this`queue, this`queuedBytes, this`waiting
      ensures Valid() && queue == old(queue)[..index] + old(queue)[index + 1..]
      ensures queuedBytes == old(queuedBytes) - old(queue)[index].bytes
      ensures queue[..index] == old(queue)[..index] && queue[index..] == old(queue)[index + 1..]
      ensures waiting == old(waiting)[..index] + old(waiting)[index + 1..]
    {
      TracedDrop(sent, handed, waiting, queue, index);
      SumOfSplit(queue, index);
      queuedBytes := queuedBytes - queue[index].bytes;
      queue, waiting := queue[..index] + queue[index + 1..], waiting[..index] + waiting[index + 1..];
    }

    /** The newest update takes the place of the one it supersedes; if that is too much,
        both are given up. */
    method Supersede(item: Item)
      requires Valid() && AtRest() && !disposed && queue != [] && item.key.Some? && item.droppable
      requires queue[|queue| - 1].key == item.key && queue[|queue| - 1].droppable
      modifies this, socket, clock
      ensures Valid() && AtRest() && sent == old(sent) + [item] && handed == old(handed)
      ensures !disposed ==> queue == Superseded(old(queue), item, maxQueueBytes)
      ensures Patient() && (disposed ==> !socket.open)
    {
      hide Traced, Written, NothingLost, Sum;
      var last := |queue| - 1;
      var previous := queue[last];
      TracedSupersede(sent, handed, waiting, queue, item);
      WrittenGrows(socket.written, handed, sent, item);
      SumWithoutLast(queue);
      SumOfPush(queue[..last], item);
      ReplacedLast(queue, item);
      ghost var numbers := waiting[..last];
      queue := queue[last := item];
      waiting, sent := numbers + [|sent|], sent + [item];
      queuedBytes := queuedBytes + item.bytes - previous.bytes;
      if queuedBytes > maxQueueBytes {
        queue := queue[..last];
        queuedBytes := queuedBytes - item.bytes;
        waiting := numbers;
      }
      UpdatePressure();
    }

    method Enqueue(item: Item)
      requires Valid() && AtRest() && !disposed && (item.key.Some? <==> item.droppable)
      requires queuedBytes + item.bytes <= maxQueueBytes
      modifies this, socket, clock
      ensures Valid() && AtRest() && sent == old(sent) + [item] && old(handed) <= handed
      ensures !disposed ==> handed + waiting == old(handed + waiting) + [|old(sent)|]
      ensures Patient() && (disposed ==> !socket.open)
    {
      TracedPush(sent, handed, waiting, queue, item);
      SumOfPush(queue, item);
      assert handed + (waiting + [|sent|]) == handed + waiting + [|sent|];
      queue, waiting, sent := queue + [item], waiting + [|sent|], sent + [item];
      queuedBytes := queuedBytes + item.bytes;
      UpdatePressure();
      Pump();
    }

    // The message is accepted and then not kept.
    method GiveUp(item: Item)
      requires Valid() && AtRest() && !disposed && item.key.Some? && item.droppable
      modifies this, socket, clock
      ensures Valid() && AtRest() && sent == old(sent) + [item] && handed == old(handed)
      ensures !disposed ==> queue == old(queue) && waiting == old(waiting)
      ensures Patient() && (disposed ==> !socket.open)
    {
      TracedPush(sent, handed, waiting, queue, item);
      sent := sent + [item];
      UpdatePressure();
    }

    // A socket that is not under pressure takes the message at once.
    method WriteThrough(item: Item)
      requires Valid() && AtRest() && !disposed && queue == [] && (item.key.Some? <==> item.droppable)
      modifies this, socket, clock
      ensures Valid() && AtRest() && sent == old(sent) + [item] && old(handed) + [|old(sent)|] <= handed
      ensures Patient() && (disposed ==> !socket.open)
    {
      TracedPush(sent, handed, waiting, queue, item);
      sent := sent + [item];
      assert waiting == [] && (handed + [|sent| - 1]) + waiting == handed + (waiting + [|sent| - 1]);
      Passed(sent, handed, |sent| - 1);
      Write(item, |sent| - 1);
      UpdatePressure();
    }

    static lemma Passed(sent: seq<Item>, handed: seq<nat>, id: nat)
      requires NothingLost(sent, handed, [id])
      ensures NothingLost(sent, handed + [id], [])
    {
      forall i: nat | i < |sent| && !sent[i].droppable ensures Kept(handed + [id], [], i) {
        assert Kept(handed, [id], i);
        if i !in handed { assert (handed + [id])[|handed|] == i; }
      }
    }

    // What is in store for a message, by what it meets.
    function FateOf(m: ServerMessage): Fate
      reads this, socket
    {
      if disposed || !socket.open || m.json.None? then Ignored
      else if queue == [] && socket.bufferedAmount < highWaterBytes then PassedOn
      else if queue != [] && CoalesceKey(m).Some? && queue[|queue| - 1].key == CoalesceKey(m) then Superseding
      else if queuedBytes + ItemOf(m).bytes <= maxQueueBytes then Queued
      else if IsDroppable(m) then NotKept else Displacing
    }

    /** `send`: the message is ignored, given to the socket at once, put in the place of
        the update it supersedes, not kept, or queued behind everything else, if need be
        in the place of what may be dropped. The flow is given up because of a message
        only if that message must not be dropped and does not fit beside those that must
        not be dropped either. */
    method Send(m: ServerMessage)
      requires Valid() && AtRest()
      modifies this, socket, clock
      ensures Valid() && AtRest() && old(handed) <= handed
      ensures sent == if old(FateOf(m)).Ignored? then old(sent) else old(sent) + [ItemOf(m)]
      ensures match old(FateOf(m))
        case Ignored => unchanged(this)
        case PassedOn => old(handed) + [|old(sent)|] <= handed
        case Superseding => handed == old(handed) && (!disposed ==> queue == Superseded(old(queue), ItemOf(m), maxQueueBytes))
        case NotKept => handed == old(handed) && (!disposed ==> queue == old(queue))
        case Queued => !disposed ==> handed + waiting == old(handed + waiting) + [|old(sent)|]
        case Displacing =>
          && (Sum(Lasting(old(queue))) + ItemOf(m).bytes > maxQueueBytes ==> disposed)
          && (!disposed ==> Kept(handed, waiting, |old(sent)|))
      ensures (old(Patient()) ==> Patient()) && (disposed && !old(disposed) ==> !socket.open)
    {
      if disposed || !socket.open || m.json.None? { return; }
      var item := ItemOf(m);
      if queue == [] && socket.bufferedAmount < highWaterBytes {
        WriteThrough(item);
        return;
      }
      if item.key.Some? && queue != [] && queue[|queue| - 1].key == item.key {
        Supersede(item);
        return;
      }
      if queuedBytes + item.bytes > maxQueueBytes {
        if item.droppable {
          GiveUp(item);
          return;
        }
        var _ := MakeRoom(item);
        return;
      }
      Enqueue(item);
    }

    /** What must not be dropped takes the place of what may be, or ends the flow: exactly
        when it does not fit beside the other messages that must not be dropped. */
    method MakeRoom(item: Item) returns (gaveUp: bool)
      requires Valid() && AtRest() && !disposed && !item.droppable && item.key.None?
      requires queuedBytes + item.bytes > maxQueueBytes
      modifies this, socket, clock
      ensures Valid() && AtRest() && sent == old(sent) + [item] && old(handed) <= handed
      ensures gaveUp <==> Sum(Lasting(old(queue))) + item.bytes > maxQueueBytes
      ensures gaveUp ==> disposed
      ensures Patient() && (disposed ==> !socket.open)
    {
      RoomExactlyWhen(queue, queuedBytes + item.bytes - maxQueueBytes);
      DiscardDroppableUntil(item.bytes);
      if queuedBytes + item.bytes > maxQueueBytes {
        CloseSlowClient();
        TracedPush(sent, handed, waiting, queue, item);
        sent := sent + [item];
        return true;
      }
      Enqueue(item);
      gaveUp := false;
    }

    /** The poll timer fires. */
    method TimerFires()
      requires Valid() && AtRest() && timer
      modifies this, socket, clock
      ensures Valid() && AtRest() && sent == old(sent) && old(handed) <= handed
      ensures Patient()
      ensures disposed && !old(disposed) ==> !socket.open
    {
      timer := false;
      Pump();
    }
  }

  datatype Fate = Ignored | PassedOn | Superseding | NotKept | Displacing | Queued

  // ------------------------------------------------------------------- whole histories

  datatype Event =
    | Sends(message: ServerMessage)
    | TimerEvent
    | CallbackEvent
    | SocketChanges(open: bool, bufferedAmount: nat)
    | DisposeEvent

  /** The messages accepted are, in their order, some of those whose sending was asked for. */
  ghost predicate SentFrom(events: seq<Event>, origin: seq<nat>, sent: seq<Item>) {
    && |origin| == |sent| && Rising(origin)
    && forall i :: 0 <= i < |origin| ==> origin[i] < |events| && Asked(events[origin[i]], sent[i])
  }

  predicate Asked(e: Event, item: Item) { e.Sends? && e.message.json.Some? && item == ItemOf(e.message) }

  lemma SentFromGrows(events: seq<Event>, origin: seq<nat>, sent: seq<Item>, k: nat, item: Item)
    requires SentFrom(events, origin, sent) && (forall i :: 0 <= i < |origin| ==> origin[i] < k)
    requires k < |events| && Asked(events[k], item)
    ensures SentFrom(events, origin + [k], sent + [item])
  {
  }

  /** Whether the flow was given up, and whether its socket was open, before an event. */
  datatype Moment = Moment(disposed: bool, open: bool)

  // What an event means for these two: a flow that is given up without being told so finds
  // its socket closed, or closes it.
  predicate Follows(e: Event, before: Moment, after: Moment) {
    && (after.disposed && !before.disposed && !e.DisposeEvent? ==> !after.open)
    && (before.disposed ==> after.disposed) && (e.DisposeEvent? ==> after.disposed)
    && (e.SocketChanges? ==> after == before.(open := e.open))
  }

  predicate TakesMessage(e: Event, now: Moment) { e.Sends? && e.message.json.Some? && !now.disposed && now.open }

  method React(e: Event, flow: OutboundFlowController) returns (ghost accepted: bool)
    requires flow.Valid() && flow.AtRest() && flow.Patient()
    modifies flow, flow.socket, flow.clock
    ensures flow.Valid() && flow.AtRest() && flow.Patient()
    ensures accepted <==> TakesMessage(e, Moment(old(flow.disposed), old(flow.socket.open)))
    ensures flow.sent == if accepted then old(flow.sent) + [ItemOf(e.message)] else old(flow.sent)
    ensures Follows(e, Moment(old(flow.disposed), old(flow.socket.open)), Moment(flow.disposed, flow.socket.open))
  {
    accepted := e.Sends? && !flow.FateOf(e.message).Ignored?;
    match e
    case Sends(m) => flow.Send(m);
    case TimerEvent => if flow.timer { flow.TimerFires(); }
    case CallbackEvent => flow.Pump();
    case SocketChanges(open, bufferedAmount) => flow.socket.Happens(open, bufferedAmount);
    case DisposeEvent => flow.Dispose();
  }

  // The events so far: which messages were accepted, and when the flow was alive and open.
  ghost predicate Recorded(events: seq<Event>, k: nat, origin: seq<nat>, moments: seq<Moment>) {
    && k <= |events| && |moments| == k + 1 && (forall i :: 0 <= i < |origin| ==> origin[i] < k)
    && (forall i :: 0 <= i < k ==> Follows(events[i], moments[i], moments[i + 1]))
    && (forall i: nat :: i < k ==> (i in origin <==> TakesMessage(events[i], moments[i])))
  }

  lemma RecordedOneMore(events: seq<Event>, k: nat, origin: seq<nat>, moments: seq<Moment>, accepted: bool, next: Moment)
    requires Recorded(events, k, origin, moments) && k < |events|
    requires Follows(events[k], moments[k], next) && (accepted <==> TakesMessage(events[k], moments[k]))
    ensures Recorded(events, k + 1, if accepted then origin + [k] else origin, moments + [next])
  {
    var longer, after := if accepted then origin + [k] else origin, moments + [next];
    forall i: nat | i < k + 1 ensures i in longer <==> TakesMessage(events[i], after[i]) {
      if i < k { assert i in origin <==> TakesMessage(events[i], moments[i]); }
      if i == k { assert k !in origin; }
    }
  }

  /** Any history of sends, timer ticks, late callbacks, drains, stalls and breaks: exactly
      the messages that found the flow alive and its socket open were accepted; the strings
      given to the socket are those of a rising sequence of them; the queue is counted,
      bounded and watched; while there is pressure, the clock has not shown that it has
      lasted too long; and unless the flow was given up, every message that must not be
      dropped was handed over or is still queued. */
  method Drive(events: seq<Event>, flow: OutboundFlowController) returns (ghost origin: seq<nat>, ghost moments: seq<Moment>)
    requires flow.Valid() && flow.AtRest() && flow.Patient() && flow.sent == [] && flow.handed == []
    modifies flow, flow.socket, flow.clock
    ensures flow.Valid() && flow.AtRest() && flow.Patient()
    ensures Rising(flow.handed) && Written(flow.socket.written, flow.handed, flow.sent)
    ensures !flow.disposed ==> NothingLost(flow.sent, flow.handed, flow.waiting) && (flow.queue != [] ==> flow.timer)
    ensures SentFrom(events, origin, flow.sent) && Recorded(events, |events|, origin, moments)
    ensures moments[0] == Moment(old(flow.disposed), old(flow.socket.open))
    ensures moments[|events|] == Moment(flow.disposed, flow.socket.open)
  {
    hide Follows, TakesMessage;
    origin := [];
    moments := [Moment(flow.disposed, flow.socket.open)];
    for k := 0 to |events|
      invariant flow.Valid() && flow.AtRest() && flow.Patient()
      invariant SentFrom(events, origin, flow.sent) && Recorded(events, k, origin, moments)
      invariant moments[0] == Moment(old(flow.disposed), old(flow.socket.open))
      invariant moments[k] == Moment(flow.disposed, flow.socket.open)
    {
      ghost var before := flow.sent;
      ghost var accepted := React(events[k], flow);
      if accepted {
        TakenIsAsked(events[k], moments[k]);
        SentFromGrows(events, origin, before, k, ItemOf(events[k].message));
      }
      RecordedOneMore(events, k, origin, moments, accepted, Moment(flow.disposed, flow.socket.open));
      if accepted { origin := origin + [k]; }
      moments := moments + [Moment(flow.disposed, flow.socket.open)];
    }
    RisingFront(flow.handed, flow.waiting);
  }

  lemma TakenIsAsked(e: Event, now: Moment)
    requires TakesMessage(e, now)
    ensures e.Sends? && e.message.json.Some?
  {
  }

  lemma RisingFront(front: seq<nat>, back: seq<nat>)
    requires Rising(front + back)
    ensures Rising(front)
  {
    forall i, j | 0 <= i < j < |front| ensures front[i] < front[j] {
      assert (front + back)[i] < (front + back)[j];
    }
  }
}
