/** How a client follows a conversation: a snapshot, then events numbered by revision. The
    server's history is a log of changes; the change at position k takes revision k to
    revision k + 1. */
module Revisions {
  import opened Text
  import opened OutboundFlow

  const MAX_SAFE_INTEGER := 9007199254740991

  predicate IsRevision(n: int) { 0 <= n <= MAX_SAFE_INTEGER }

  datatype EventDecision = Apply | Ignore | Resync
  datatype SnapshotDecision = Replace | Skip

  function DecideEventRevision(current: int, incoming: int): EventDecision {
    if !IsRevision(current) || !IsRevision(incoming) then Resync
    else if incoming <= current then Ignore
    else if incoming == current + 1 then Apply else Resync
  }

  function DecideSnapshotRevision(current: Option<int>, incoming: int): SnapshotDecision {
    if !IsRevision(incoming) then Skip
    else if current.None? then Replace
    else if !IsRevision(current.value) || incoming < current.value then Skip
    else Replace
  }

  /** The next revision, unless it could not be written exactly. */
  function NextRevision(current: int): Option<int> {
    if !IsRevision(current) || current >= MAX_SAFE_INTEGER then None else Some(current + 1)
  }

  // --------------------------------------------------------------------- the server side

  function Fold<S, C>(apply: (S, C) -> S, start: S, log: seq<C>): S {
    if log == [] then start else apply(Fold(apply, start, log[..|log| - 1]), log[|log| - 1])
  }

  lemma FoldOneMore<S, C>(apply: (S, C) -> S, start: S, log: seq<C>, k: nat)
    requires k < |log|
    ensures Fold(apply, start, log[..k + 1]) == apply(Fold(apply, start, log[..k]), log[k])
  {
    assert log[..k + 1][..k] == log[..k];
  }

  /** A conversation on the server: its first state, and every change since. */
  datatype Server<!S, !C> = Server(apply: (S, C) -> S, start: S, log: seq<C>) {
    function At(revision: nat): S
      requires revision <= |log|
    {
      Fold(apply, start, log[..revision])
    }
    predicate Numbered() { |log| <= MAX_SAFE_INTEGER }
  }

  /** A log never outgrows its numbering: a change that could not be numbered is refused. */
  function Changed<S, C>(server: Server<S, C>, change: C): Option<Server<S, C>> {
    if NextRevision(|server.log|).None? then None else Some(server.(log := server.log + [change]))
  }

  lemma ChangeIsNumbered<S, C>(server: Server<S, C>, change: C)
    requires server.Numbered()
    ensures Changed(server, change).Some? <==> |server.log| < MAX_SAFE_INTEGER
    ensures Changed(server, change).Some? ==>
      var after := Changed(server, change).value;
      && after.Numbered() && NextRevision(|server.log|) == Some(|after.log|)
      && after.At(|after.log|) == server.apply(server.At(|server.log|), change)
      && forall k: nat :: k <= |server.log| ==> after.At(k) == server.At(k)
  {
    if Changed(server, change).Some? {
      var after := Changed(server, change).value;
      FoldOneMore(server.apply, server.start, after.log, |server.log|);
      assert after.log[..|server.log|] == server.log[..|server.log|] == server.log;
      forall k: nat | k <= |server.log| ensures after.At(k) == server.At(k) {
        assert after.log[..k] == server.log[..k];
      }
    }
  }

  // --------------------------------------------------------------------- the client side

  datatype Projection<S> = Absent | Present(revision: int, state: S)

  /** The client's copy, and whether it has asked for a snapshot. */
  datatype Client<S> = Client(projection: Projection<S>, resync: bool)

  datatype Input<S, C> = Event(revision: int, change: C) | Snapshot(revision: int, state: S)

  function Current<S>(p: Projection<S>): Option<int> { if p.Absent? then None else Some(p.revision) }

  function Receive<S, C>(apply: (S, C) -> S, client: Client<S>, input: Input<S, C>): Client<S> {
    match input
    case Snapshot(revision, state) =>
      if client.projection.Present? && DecideSnapshotRevision(Current(client.projection), revision) == Skip then client
      else Client(Present(revision, state), false)
    case Event(revision, change) =>
      if client.projection.Absent? then client.(resync := true)
      else
        match DecideEventRevision(client.projection.revision, revision)
        case Ignore => client
        case Resync => client.(resync := true)
        case Apply => Client(Present(revision, apply(client.projection.state, change)), false)
  }

  function ReceiveAll<S, C>(apply: (S, C) -> S, client: Client<S>, inputs: seq<Input<S, C>>): Client<S> {
    if inputs == [] then client
    else Receive(apply, ReceiveAll(apply, client, inputs[..|inputs| - 1]), inputs[|inputs| - 1])
  }

  // The server really sent this at some time: the change of that number, or its state
  // after so many changes.
  predicate Authentic<S(==), C(==)>(server: Server<S, C>, input: Input<S, C>) {
    match input
    case Event(revision, change) => 1 <= revision <= |server.log| && change == server.log[revision - 1]
    case Snapshot(revision, state) => 0 <= revision <= |server.log| && state == server.At(revision)
  }

  ghost predicate AllAuthentic<S, C>(server: Server<S, C>, inputs: seq<Input<S, C>>) {
    forall i :: 0 <= i < |inputs| ==> Authentic(server, inputs[i])
  }

  /** The copy is what the server had at the revision it claims. */
  ghost predicate Faithful<S, C>(server: Server<S, C>, client: Client<S>) {
    client.projection.Present? ==>
      0 <= client.projection.revision <= |server.log| && client.projection.state == server.At(client.projection.revision)
  }

  lemma OneInputKeepsFaith<S, C>(server: Server<S, C>, client: Client<S>, input: Input<S, C>)
    requires server.Numbered() && Faithful(server, client) && Authentic(server, input)
    ensures Faithful(server, Receive(server.apply, client, input))
  {
    if input.Event? && client.projection.Present? && input.revision == client.projection.revision + 1 {
      FoldOneMore(server.apply, server.start, server.log, client.projection.revision);
    }
  }

  /** Whatever snapshots and events arrive -- late, twice, in any order, with any of them
      missing -- the client's copy always has every change up to its revision applied,
      once each and in order, and no other. */
  lemma {:induction false} ClientIsFaithful<S, C>(server: Server<S, C>, client: Client<S>, inputs: seq<Input<S, C>>)
    requires server.Numbered() && Faithful(server, client) && AllAuthentic(server, inputs)
    ensures Faithful(server, ReceiveAll(server.apply, client, inputs))
  {
    if inputs != [] {
      var before := inputs[..|inputs| - 1];
      assert forall i :: 0 <= i < |before| ==> before[i] == inputs[i];
      ClientIsFaithful(server, client, before);
      OneInputKeepsFaith(server, ReceiveAll(server.apply, client, before), inputs[|inputs| - 1]);
    }
  }

  /** A snapshot becomes the copy, and settles what was asked for, unless the copy is ahead
      of it; then nothing changes. */
  lemma SnapshotTakenExactlyWhen<S, C>(apply: (S, C) -> S, client: Client<S>, revision: int, state: S)
    requires IsRevision(revision) && (client.projection.Present? ==> IsRevision(client.projection.revision))
    ensures Receive(apply, client, Snapshot(revision, state)) ==
      if client.projection.Present? && revision < client.projection.revision then client
      else Client(Present(revision, state), false)
    ensures DecideSnapshotRevision(None, revision) == Replace
  {
  }

  /** The event of the next revision is applied, one that the copy already contains changes
      nothing, and any other -- and any at all without a copy -- makes the client ask for a
      snapshot and leaves its copy alone. */
  lemma EventTakenExactlyWhen<S, C>(apply: (S, C) -> S, client: Client<S>, revision: int, change: C)
    requires IsRevision(revision) && (client.projection.Present? ==> IsRevision(client.projection.revision))
    ensures Receive(apply, client, Event(revision, change)) ==
      if client.projection.Absent? || revision > client.projection.revision + 1 then Client(client.projection, true)
      else if revision == client.projection.revision + 1 then Client(Present(revision, apply(client.projection.state, change)), false)
      else client
  {
  }

  /** The copy never goes back. */
  lemma {:induction false} ClientNeverGoesBack<S, C>(apply: (S, C) -> S, client: Client<S>, inputs: seq<Input<S, C>>)
    requires client.projection.Present?
    ensures var after := ReceiveAll(apply, client, inputs); after.projection.Present? && client.projection.revision <= after.projection.revision
  {
    if inputs != [] { ClientNeverGoesBack(apply, client, inputs[..|inputs| - 1]); }
  }

  // ------------------------------------------------------- what a lossy stream delivers

  // Some of the events of the log, in their order.
  function Events<S, C>(server: Server<S, C>, revisions: seq<nat>): (inputs: seq<Input<S, C>>)
    requires forall i :: 0 <= i < |revisions| ==> 1 <= revisions[i] <= |server.log|
    ensures |inputs| == |revisions| && AllAuthentic(server, inputs)
    ensures forall i :: 0 <= i < |inputs| ==> inputs[i] == Event(revisions[i], server.log[revisions[i] - 1])
  {
    seq(|revisions|, i requires 0 <= i < |revisions| => Event(revisions[i], server.log[revisions[i] - 1]))
  }

  // How far these revisions continue from `from` without a gap.
  function Reached(from: nat, revisions: seq<nat>): (r: nat)
    ensures r >= from
  {
    if revisions == [] then from
    else
      var before := Reached(from, revisions[..|revisions| - 1]);
      if revisions[|revisions| - 1] == before + 1 then before + 1 else before
  }

  // Some delivered event lies beyond one that was not delivered.
  predicate HasGap(from: nat, revisions: seq<nat>) {
    exists i :: 0 <= i < |revisions| && revisions[i] > Reached(from, revisions)
  }

  lemma {:induction false} ReachedIsContiguous(from: nat, revisions: seq<nat>)
    requires Rising(revisions)
    ensures forall r :: from < r <= Reached(from, revisions) ==> r in revisions
    ensures Reached(from, revisions) + 1 !in revisions
  {
    if revisions != [] {
      var before, last := revisions[..|revisions| - 1], revisions[|revisions| - 1];
      ReachedIsContiguous(from, before);
      var k := Reached(from, before);
      assert revisions == before + [last];
      forall r | from < r <= Reached(from, revisions) ensures r in revisions {
        if r == k + 1 { assert last == r; } else { assert r in before; }
      }
    }
  }

  lemma EventsFront<S, C>(server: Server<S, C>, revisions: seq<nat>)
    requires revisions != [] && forall i :: 0 <= i < |revisions| ==> 1 <= revisions[i] <= |server.log|
    ensures var front := revisions[..|revisions| - 1];
      && (forall i :: 0 <= i < |front| ==> 1 <= front[i] <= |server.log|)
      && Events(server, revisions)[..|revisions| - 1] == Events(server, front)
  {
  }

  // One more event of a rising stream: it continues the copy, or repeats, or shows a gap.
  lemma GapStep(from: nat, revisions: seq<nat>)
    requires Rising(revisions) && revisions != []
    ensures var front, last := revisions[..|revisions| - 1], revisions[|revisions| - 1];
      && Rising(front)
      && (last == Reached(from, front) + 1 ==> !HasGap(from, front) && !HasGap(from, revisions))
      && (last > Reached(from, front) + 1 ==> HasGap(from, revisions))
      && (last <= Reached(from, front) ==> (HasGap(from, front) <==> HasGap(from, revisions)))
  {
    var front, last := revisions[..|revisions| - 1], revisions[|revisions| - 1];
    assert forall i :: 0 <= i < |front| ==> front[i] == revisions[i] && front[i] < last;
    if HasGap(from, front) {
      var i :| 0 <= i < |front| && front[i] > Reached(from, front);
      assert revisions[i] < last;
    }
    if last > Reached(from, front) + 1 { assert revisions[|revisions| - 1] > Reached(from, revisions); }
    if last == Reached(from, front) + 1 {
      forall i | 0 <= i < |revisions| ensures revisions[i] <= Reached(from, revisions) {
        if i < |front| { assert front[i] < last; }
      }
    }
  }

  /** A client that starts from a snapshot and receives some of the later events, in their
      order, ends exactly where the first gap in them is: everything before it has been
      applied, nothing behind it has, and a snapshot is asked for if and only if an event
      behind the gap arrived. */
  lemma {:induction false} StreamStopsAtFirstGap<S, C>(server: Server<S, C>, from: nat, revisions: seq<nat>)
    requires server.Numbered() && from <= |server.log| && Rising(revisions)
    requires forall i :: 0 <= i < |revisions| ==> 1 <= revisions[i] <= |server.log|
    ensures var c := ReceiveAll(server.apply, Client(Present(from, server.At(from)), false), Events(server, revisions));
      var r := Reached(from, revisions);
      r <= |server.log| && c.projection == Present(r, server.At(r)) && (c.resync <==> HasGap(from, revisions))
  {
    hide HasGap, Server.At, Receive, Rising;
    if revisions == [] {
      NoGapYet(from);
    } else {
      var front, last := revisions[..|revisions| - 1], revisions[|revisions| - 1];
      EventsFront(server, revisions);
      GapStep(from, revisions);
      StreamStopsAtFirstGap(server, from, front);
      var r := Reached(from, front);
      NextEvent(server, Client(Present(r, server.At(r)), HasGap(from, front)), last);
    }
  }

  lemma NoGapYet(from: nat)
    ensures !HasGap(from, [])
  {
  }

  // What the event of this revision does to a faithful copy.
  lemma NextEvent<S, C>(server: Server<S, C>, c: Client<S>, r: nat)
    requires server.Numbered() && c.projection.Present? && 0 <= c.projection.revision <= |server.log| && 1 <= r <= |server.log|
    requires c.projection.state == server.At(c.projection.revision)
    ensures var k := c.projection.revision;
      Receive(server.apply, c, Event(r, server.log[r - 1])) ==
        if r == k + 1 then Client(Present(k + 1, server.At(k + 1)), false)
        else if r > k + 1 then Client(c.projection, true) else c
  {
    if r == c.projection.revision + 1 { FoldOneMore(server.apply, server.start, server.log, r - 1); }
  }

  // ------------------------------------------------------------ how a client recovers

  lemma {:induction false} ReceivedInTwoParts<S, C>(apply: (S, C) -> S, client: Client<S>, first: seq<Input<S, C>>, second: seq<Input<S, C>>)
    ensures ReceiveAll(apply, client, first + second) == ReceiveAll(apply, ReceiveAll(apply, client, first), second)
  {
    var inputs := first + second;
    if second == [] {
      assert inputs == first;
    } else {
      ReceivedInTwoParts(apply, client, first, second[..|second| - 1]);
      assert inputs[..|inputs| - 1] == first + second[..|second| - 1];
    }
  }

  // What a client makes of a snapshot and of some of the later events, in their order.
  lemma RestartsFrom<S, C>(server: Server<S, C>, client: Client<S>, r: nat, later: seq<nat>)
    requires server.Numbered() && Faithful(server, client) && r <= |server.log|
    requires client.projection.Present? ==> client.projection.revision <= r
    requires Rising(later) && forall i :: 0 <= i < |later| ==> 1 <= later[i] <= |server.log|
    ensures var end := Reached(r, later);
      && end <= |server.log|
      && ReceiveAll(server.apply, client, [Snapshot(r, server.At(r))] + Events(server, later)) == Client(Present(end, server.At(end)), HasGap(r, later))
  {
    hide Reached, HasGap, Server.At, Rising;
    var snapshot := Snapshot(r, server.At(r));
    ReceivedInTwoParts(server.apply, client, [snapshot], Events(server, later));
    OneInput(server.apply, client, snapshot);
    SnapshotTakenExactlyWhen(server.apply, client, r, server.At(r));
    StreamStopsAtFirstGap(server, r, later);
  }

  lemma OneInput<S, C>(apply: (S, C) -> S, client: Client<S>, input: Input<S, C>)
    ensures ReceiveAll(apply, client, [input]) == Receive(apply, client, input)
  {
    assert ReceiveAll(apply, client, [input][..0]) == client;
  }

  /** Whatever a client received and missed before: a snapshot that its copy is not ahead of
      ends the resync, and events are applied again from there, up to the next gap. */
  lemma SnapshotEndsResync<S, C>(server: Server<S, C>, client: Client<S>, before: seq<Input<S, C>>, r: nat, later: seq<nat>)
    requires server.Numbered() && Faithful(server, client) && AllAuthentic(server, before) && r <= |server.log|
    requires var c := ReceiveAll(server.apply, client, before); c.projection.Present? ==> c.projection.revision <= r
    requires Rising(later) && forall i :: 0 <= i < |later| ==> 1 <= later[i] <= |server.log|
    ensures var end := Reached(r, later);
      && end <= |server.log|
      && ReceiveAll(server.apply, client, before + ([Snapshot(r, server.At(r))] + Events(server, later))) ==
         Client(Present(end, server.At(end)), HasGap(r, later))
  {
    hide Reached, HasGap, Server.At, Rising, ReceiveAll;
    ClientIsFaithful(server, client, before);
    RestartsFrom(server, ReceiveAll(server.apply, client, before), r, later);
    ReceivedInTwoParts(server.apply, client, before, [Snapshot(r, server.At(r))] + Events(server, later));
  }

  /** In particular a snapshot of the present state brings any client up to date. */
  lemma PresentSnapshotCatchesUp<S, C>(server: Server<S, C>, client: Client<S>, before: seq<Input<S, C>>)
    requires server.Numbered() && Faithful(server, client) && AllAuthentic(server, before)
    ensures var n := |server.log|;
      ReceiveAll(server.apply, client, before + [Snapshot(n, server.At(n))]) == Client(Present(n, server.At(n)), false)
  {
    hide Server.At, ReceiveAll;
    var n := |server.log|;
    ClientIsFaithful(server, client, before);
    ReceivedInTwoParts(server.apply, client, before, [Snapshot(n, server.At(n))]);
    var c := ReceiveAll(server.apply, client, before);
    OneInput(server.apply, c, Snapshot(n, server.At(n)));
    SnapshotTakenExactlyWhen(server.apply, c, n, server.At(n));
  }

  /** A client that met a gap has applied what was before it. A snapshot from the gap or
      beyond ends the resync, and the events behind the snapshot are applied, of which
      some may have arrived before in vain. */
  lemma GapIsClosed<S, C>(server: Server<S, C>, from: nat, seen: seq<nat>, r: nat, later: seq<nat>)
    requires server.Numbered() && from <= |server.log| && Rising(seen) && Rising(later)
    requires forall i :: 0 <= i < |seen| ==> 1 <= seen[i] <= |server.log|
    requires forall i :: 0 <= i < |later| ==> 1 <= later[i] <= |server.log|
    requires HasGap(from, seen) && Reached(from, seen) <= r <= |server.log|
    ensures ReceiveAll(server.apply, Client(Present(from, server.At(from)), false), Events(server, seen)).resync
    ensures var end := Reached(r, later);
      var inputs := Events(server, seen) + ([Snapshot(r, server.At(r))] + Events(server, later));
      && end <= |server.log|
      && ReceiveAll(server.apply, Client(Present(from, server.At(from)), false), inputs) == Client(Present(end, server.At(end)), HasGap(r, later))
  {
    hide Reached, HasGap, Server.At, Rising, ReceiveAll;
    var start := Client(Present(from, server.At(from)), false);
    StreamStopsAtFirstGap(server, from, seen);
    SnapshotEndsResync(server, start, Events(server, seen), r, later);
  }

  // ------------------------------------------------- behind the outbound flow of a client

  // A revision that is missing from a rising stream stops the contiguous part before it.
  lemma {:induction false} StopsBeforeMissing(from: nat, revisions: seq<nat>, missing: nat)
    requires Rising(revisions) && from < missing && missing !in revisions
    ensures Reached(from, revisions) < missing
  {
    if revisions != [] {
      var front, last := revisions[..|revisions| - 1], revisions[|revisions| - 1];
      assert revisions == front + [last];
      StopsBeforeMissing(from, front, missing);
      assert last != missing;
    }
  }

  /** What the copy of one conversation makes of a string from the socket: an event of that
      conversation, or nothing, for other kinds of messages and other conversations. */
  type Parser<!S, !C> = string -> Option<Input<S, C>>

  predicate IsEvent<S, C>(eventOf: Parser<S, C>, data: string) { eventOf(data).Some? && eventOf(data).value.Event? }

  // The revision that a string announces, if it announces one.
  function RevisionOf<S, C>(eventOf: Parser<S, C>, data: string): int {
    if IsEvent(eventOf, data) then eventOf(data).value.revision else 0
  }

  // What a string announces has happened on the server.
  predicate Announces<S(==), C(==)>(server: Server<S, C>, eventOf: Parser<S, C>, data: string) {
    eventOf(data).Some? ==> IsEvent(eventOf, data) && Authentic(server, eventOf(data).value)
  }

  ghost predicate AllAnnounce<S, C>(server: Server<S, C>, eventOf: Parser<S, C>, texts: seq<string>) {
    forall i :: 0 <= i < |texts| ==> Announces(server, eventOf, texts[i])
  }

  predicate Before<S, C>(eventOf: Parser<S, C>, a: string, b: string) {
    IsEvent(eventOf, a) && IsEvent(eventOf, b) ==> RevisionOf(eventOf, a) < RevisionOf(eventOf, b)
  }

  // Events of the conversation come in the order of their revisions.
  predicate InOrder<S, C>(eventOf: Parser<S, C>, texts: seq<string>) {
    forall i, j :: 0 <= i < j < |texts| ==> Before(eventOf, texts[i], texts[j])
  }

  function Read<S, C>(eventOf: Parser<S, C>, texts: seq<string>): seq<Input<S, C>> {
    if texts == [] then []
    else
      var before, last := Read(eventOf, texts[..|texts| - 1]), eventOf(texts[|texts| - 1]);
      if last.Some? then before + [last.value] else before
  }

  // The revisions that these strings announce.
  function Announced<S, C>(eventOf: Parser<S, C>, texts: seq<string>): seq<nat> {
    if texts == [] then []
    else
      var before, r := Announced(eventOf, texts[..|texts| - 1]), RevisionOf(eventOf, texts[|texts| - 1]);
      if r > 0 then before + [r] else before
  }

  lemma {:induction false} AnnouncedExactly<S, C>(server: Server<S, C>, eventOf: Parser<S, C>, texts: seq<string>)
    requires AllAnnounce(server, eventOf, texts)
    ensures forall r :: r in Announced(eventOf, texts) <==>
      exists k :: 0 <= k < |texts| && IsEvent(eventOf, texts[k]) && RevisionOf(eventOf, texts[k]) == r
  {
    if texts != [] {
      var front, last := texts[..|texts| - 1], texts[|texts| - 1];
      assert forall k :: 0 <= k < |front| ==> front[k] == texts[k];
      AnnouncedExactly(server, eventOf, front);
      assert Announces(server, eventOf, last);
    }
  }

  // The last text is an event after all those before it, or none.
  lemma LastAnnounced<S, C>(server: Server<S, C>, eventOf: Parser<S, C>, texts: seq<string>)
    requires texts != [] && AllAnnounce(server, eventOf, texts) && InOrder(eventOf, texts)
    ensures var front, last := texts[..|texts| - 1], texts[|texts| - 1];
      && AllAnnounce(server, eventOf, front) && InOrder(eventOf, front) && Announces(server, eventOf, last)
      && (IsEvent(eventOf, last) ==> forall r :: r in Announced(eventOf, front) ==> r < RevisionOf(eventOf, last))
  {
    hide Announced, Announces;
    var front, last := texts[..|texts| - 1], texts[|texts| - 1];
    assert forall k :: 0 <= k < |front| ==> front[k] == texts[k];
    AnnouncedExactly(server, eventOf, front);
    forall r | IsEvent(eventOf, last) && r in Announced(eventOf, front) ensures r < RevisionOf(eventOf, last) {
      var k :| 0 <= k < |front| && IsEvent(eventOf, front[k]) && RevisionOf(eventOf, front[k]) == r;
      assert Before(eventOf, texts[k], texts[|texts| - 1]);
    }
  }

  lemma RisingGrows(ids: seq<nat>, id: nat)
    requires Rising(ids) && forall k :: k in ids ==> k < id
    ensures Rising(ids + [id])
  {
    forall i | 0 <= i < |ids| ensures ids[i] < id { assert ids[i] in ids; }
  }

  // One more text is one more event, or none.
  lemma OneMoreText<S, C>(server: Server<S, C>, eventOf: Parser<S, C>, texts: seq<string>)
    requires texts != [] && Announces(server, eventOf, texts[|texts| - 1])
    ensures var front, last := texts[..|texts| - 1], texts[|texts| - 1];
      if IsEvent(eventOf, last) then
        var r := RevisionOf(eventOf, last);
        && 1 <= r <= |server.log| && Announced(eventOf, texts) == Announced(eventOf, front) + [r]
        && Read(eventOf, texts) == Read(eventOf, front) + [Event(r, server.log[r - 1])]
      else Announced(eventOf, texts) == Announced(eventOf, front) && Read(eventOf, texts) == Read(eventOf, front)
  {
  }

  // What is read are the events of these revisions, which rise.
  lemma {:induction false} ReadInOrder<S, C>(server: Server<S, C>, eventOf: Parser<S, C>, texts: seq<string>)
    requires AllAnnounce(server, eventOf, texts) && InOrder(eventOf, texts)
    ensures var revisions := Announced(eventOf, texts);
      && Rising(revisions) && (forall i :: 0 <= i < |revisions| ==> 1 <= revisions[i] <= |server.log|)
      && Read(eventOf, texts) == Events(server, revisions)
  {
    hide Rising, AllAnnounce, InOrder, Events, Announced, Read, Announces;
    if texts == [] {
      NoEvents(server, eventOf);
    } else {
      var front, last := texts[..|texts| - 1], texts[|texts| - 1];
      LastAnnounced(server, eventOf, texts);
      OneMoreText(server, eventOf, texts);
      ReadInOrder(server, eventOf, front);
      if IsEvent(eventOf, last) {
        RisingGrows(Announced(eventOf, front), RevisionOf(eventOf, last));
        EventsOneMore(server, Announced(eventOf, front), RevisionOf(eventOf, last));
      }
    }
  }

  lemma NoEvents<S, C>(server: Server<S, C>, eventOf: Parser<S, C>)
    ensures Events(server, []) == [] && Rising([]) && Announced(eventOf, []) == [] && Read(eventOf, []) == []
  {
  }

  lemma EventsOneMore<S, C>(server: Server<S, C>, revisions: seq<nat>, r: nat)
    requires (forall i :: 0 <= i < |revisions| ==> 1 <= revisions[i] <= |server.log|) && 1 <= r <= |server.log|
    ensures Events(server, revisions + [r]) == Events(server, revisions) + [Event(r, server.log[r - 1])]
  {
  }

  function Texts(sent: seq<Item>): (texts: seq<string>)
    ensures |texts| == |sent| && forall i :: 0 <= i < |texts| ==> texts[i] == sent[i].data
  {
    seq(|sent|, i requires 0 <= i < |sent| => sent[i].data)
  }

  // What was handed over keeps the order of what was sent.
  lemma WrittenInOrder<S, C>(server: Server<S, C>, eventOf: Parser<S, C>, sent: seq<Item>, handed: seq<nat>, written: seq<string>)
    requires AllAnnounce(server, eventOf, Texts(sent)) && InOrder(eventOf, Texts(sent))
    requires Rising(handed) && Written(written, handed, sent)
    ensures AllAnnounce(server, eventOf, written) && InOrder(eventOf, written)
  {
    forall k | 0 <= k < |written| ensures written[k] == Texts(sent)[handed[k]] { }
    forall k | 0 <= k < |written| ensures Announces(server, eventOf, written[k]) {
      assert Announces(server, eventOf, Texts(sent)[handed[k]]);
    }
  }

  /** A message of the conversation that was sent but not handed over, though it would have
      been news to the client, and a later one that was. */
  predicate PassedOver<S, C>(eventOf: Parser<S, C>, from: nat, sent: seq<Item>, handed: seq<nat>, dropped: nat, later: nat) {
    && dropped < later < |sent| && IsEvent(eventOf, sent[dropped].data) && IsEvent(eventOf, sent[later].data)
    && dropped !in handed && later in handed && from < RevisionOf(eventOf, sent[dropped].data)
  }

  function Follower<S, C>(server: Server<S, C>, from: nat, eventOf: Parser<S, C>, written: seq<string>): Client<S>
    requires from <= |server.log|
  {
    ReceiveAll(server.apply, Client(Present(from, server.At(from)), false), Read(eventOf, written))
  }

  /** The client has applied exactly the contiguous part of what the socket was given. */
  lemma FollowerStopsAtFirstGap<S, C>(server: Server<S, C>, from: nat, eventOf: Parser<S, C>, sent: seq<Item>, handed: seq<nat>, written: seq<string>)
    requires server.Numbered() && from <= |server.log|
    requires AllAnnounce(server, eventOf, Texts(sent)) && InOrder(eventOf, Texts(sent))
    requires Rising(handed) && Written(written, handed, sent)
    ensures var c := Follower(server, from, eventOf, written);
      var revisions := Announced(eventOf, written);
      && Reached(from, revisions) <= |server.log|
      && c.projection == Present(Reached(from, revisions), server.At(Reached(from, revisions)))
      && (c.resync <==> HasGap(from, revisions))
  {
    hide Reached, HasGap;
    WrittenInOrder(server, eventOf, sent, handed, written);
    ReadInOrder(server, eventOf, written);
    StreamStopsAtFirstGap(server, from, Announced(eventOf, written));
  }

  /** An update that the flow dropped or replaced is never skipped silently: the copy stays
      behind it, and the first later event that does arrive makes the client ask for a
      snapshot. */
  lemma DroppedUpdateMakesResync<S, C>(
      server: Server<S, C>, from: nat, eventOf: Parser<S, C>, sent: seq<Item>, handed: seq<nat>, written: seq<string>,
      dropped: nat, later: nat)
    requires server.Numbered() && from <= |server.log|
    requires AllAnnounce(server, eventOf, Texts(sent)) && InOrder(eventOf, Texts(sent))
    requires Rising(handed) && Written(written, handed, sent) && PassedOver(eventOf, from, sent, handed, dropped, later)
    ensures var c := Follower(server, from, eventOf, written);
      c.resync && c.projection.Present? && c.projection.revision < RevisionOf(eventOf, sent[dropped].data) && Faithful(server, c)
  {
    hide Read, Announced, Reached, Follower;
    WrittenInOrder(server, eventOf, sent, handed, written);
    ReadInOrder(server, eventOf, written);
    FollowerStopsAtFirstGap(server, from, eventOf, sent, handed, written);
    AnnouncedExactly(server, eventOf, written);
    var revisions, missing := Announced(eventOf, written), RevisionOf(eventOf, sent[dropped].data);
    assert Announces(server, eventOf, Texts(sent)[dropped]);
    if missing in revisions {
      var k :| 0 <= k < |written| && IsEvent(eventOf, written[k]) && RevisionOf(eventOf, written[k]) == missing;
      OneRevisionOneMessage(eventOf, sent, handed[k], dropped);
      assert false;
    }
    StopsBeforeMissing(from, revisions, missing);
    var k :| 0 <= k < |handed| && handed[k] == later;
    assert RevisionOf(eventOf, written[k]) in revisions;
    assert RevisionOf(eventOf, Texts(sent)[later]) > RevisionOf(eventOf, Texts(sent)[dropped]);
    var i :| 0 <= i < |revisions| && revisions[i] == RevisionOf(eventOf, written[k]);
    assert HasGap(from, revisions);
  }

  lemma OneRevisionOneMessage<S, C>(eventOf: Parser<S, C>, sent: seq<Item>, i: nat, j: nat)
    requires InOrder(eventOf, Texts(sent)) && i < |sent| && j < |sent|
    requires IsEvent(eventOf, sent[i].data) && IsEvent(eventOf, sent[j].data)
    requires RevisionOf(eventOf, sent[i].data) == RevisionOf(eventOf, sent[j].data)
    ensures i == j
  {
    var texts := Texts(sent);
    assert IsEvent(eventOf, texts[i]) && IsEvent(eventOf, texts[j]);
  }

  // The server asks for its events to be sent as they happen.
  ghost predicate AsksInOrder<S, C>(server: Server<S, C>, eventOf: Parser<S, C>, events: seq<OutboundFlow.Event>) {
    && (forall i :: 0 <= i < |events| && Serialized(events[i]) ==> Announces(server, eventOf, events[i].message.json.value))
    && (forall i, j :: 0 <= i < j < |events| && Serialized(events[i]) && Serialized(events[j]) ==>
          Before(eventOf, events[i].message.json.value, events[j].message.json.value))
  }

  predicate Serialized(e: OutboundFlow.Event) { e.Sends? && e.message.json.Some? }

  lemma SentInOrder<S, C>(server: Server<S, C>, eventOf: Parser<S, C>, events: seq<OutboundFlow.Event>, origin: seq<nat>, sent: seq<Item>)
    requires AsksInOrder(server, eventOf, events) && SentFrom(events, origin, sent)
    ensures AllAnnounce(server, eventOf, Texts(sent)) && InOrder(eventOf, Texts(sent))
  {
    forall i | 0 <= i < |sent| ensures Serialized(events[origin[i]]) && Texts(sent)[i] == events[origin[i]].message.json.value {
      assert Asked(events[origin[i]], sent[i]);
    }
  }

  /** Whatever the flow goes through -- messages of other kinds and other conversations in
      between, stalls, drains, ticks, and updates that replace one another or are dropped --
      an event that it passed over makes its client ask for a snapshot as soon as a later
      one arrives. */
  method DriveToClient<S, C>(events: seq<OutboundFlow.Event>, flow: OutboundFlowController, server: Server<S, C>, from: nat, eventOf: Parser<S, C>)
    requires flow.Valid() && flow.AtRest() && flow.Patient() && flow.sent == [] && flow.handed == []
    requires server.Numbered() && from <= |server.log| && AsksInOrder(server, eventOf, events)
    modifies flow, flow.socket, flow.clock
    ensures flow.Valid() && flow.AtRest() && Faithful(server, Follower(server, from, eventOf, flow.socket.written))
    ensures forall dropped: nat, later: nat {:trigger PassedOver(eventOf, from, flow.sent, flow.handed, dropped, later)} ::
      PassedOver(eventOf, from, flow.sent, flow.handed, dropped, later) ==>
        var c := Follower(server, from, eventOf, flow.socket.written);
        c.resync && c.projection.Present? && c.projection.revision < RevisionOf(eventOf, flow.sent[dropped].data)
  {
    hide Follower, AllAnnounce, InOrder, AsksInOrder, SentFrom;
    ghost var origin, moments := Drive(events, flow);
    SentInOrder(server, eventOf, events, origin, flow.sent);
    FollowerStopsAtFirstGap(server, from, eventOf, flow.sent, flow.handed, flow.socket.written);
    forall dropped: nat, later: nat | PassedOver(eventOf, from, flow.sent, flow.handed, dropped, later)
      ensures var c := Follower(server, from, eventOf, flow.socket.written);
        c.resync && c.projection.Present? && c.projection.revision < RevisionOf(eventOf, flow.sent[dropped].data)
    {
      DroppedUpdateMakesResync(server, from, eventOf, flow.sent, flow.handed, flow.socket.written, dropped, later);
    }
  }
}
