/** The relay bridge between a guest TCP stream and the parent's Unix stream: two
    directions, each with a fixed buffer, driven by non-blocking reads and writes.
    Everything the operating system may answer is an input: a read may offer any
    bytes, a write may accept any amount, either may ask to be retried. */
module Bridge {

  import opened Bytes

  const RELAY_BUFFER_BYTES := 64 * 1024

  // A read takes as many of the offered bytes as there is room for.
  datatype ReadAnswer = Offers(bytes: seq<Byte>) | EndOfInput | ReadAgain | ReadError
  // A write accepts at most the given number of bytes; zero is allowed.
  datatype WriteAnswer = Accepts(count: nat) | WriteAgain | WriteError
  datatype ShutdownAnswer = ShutdownDone | NotConnected | ShutdownError

  datatype Answers = Answers(read: ReadAnswer, write: WriteAnswer, shutdown: ShutdownAnswer)

  // --------------------------------------------------- one direction, as a value

  /** `received` and `sent` are the whole histories of the two sockets; the bytes in
      the buffer are what lies between them, and they end at offset `end`. */
  datatype Pipe = Pipe(received: seq<Byte>, sent: seq<Byte>, end: nat, eof: bool, shutdown: bool) {
    function Held(): int { |received| - |sent| }
    predicate CanRead() { !eof && end < RELAY_BUFFER_BYTES }
    predicate CanWrite() { Held() > 0 }
    predicate Sound() {
      && sent <= received
      && Held() <= end <= RELAY_BUFFER_BYTES
      && (shutdown ==> eof && sent == received)
    }
  }

  const FRESH := Pipe([], [], 0, false, false)

  datatype Stage = Stage(pipe: Pipe, progress: bool) | Broken

  // `later` continues `earlier`: histories only grow, and it is still sound.
  predicate Continues(earlier: Pipe, later: Pipe) {
    later.Sound() && earlier.received <= later.received && earlier.sent <= later.sent
  }

  function Rewind(p: Pipe): Pipe { if p.Held() == 0 then p.(end := 0) else p }

  function AfterRead(p: Pipe, answer: ReadAnswer): (r: Stage)
    requires p.Sound()
    ensures r.Stage? ==> Continues(p, r.pipe)
  {
    if !p.CanRead() then Stage(p, false)
    else match answer
      case Offers(bytes) =>
        var n := Min(|bytes|, RELAY_BUFFER_BYTES - p.end);
        if n == 0 then Stage(p, false) else Stage(p.(received := p.received + bytes[..n], end := p.end + n), true)
      case EndOfInput => Stage(p.(eof := true), true)
      case ReadAgain => Stage(p, false)
      case ReadError => Broken
  }

  function AfterWrite(p: Pipe, answer: WriteAnswer): (r: Stage)
    requires p.Sound()
    ensures r.Stage? ==> Continues(p, r.pipe)
  {
    if !p.CanWrite() then Stage(p, false)
    else match answer
      case Accepts(count) =>
        var n := Min(count, p.Held());
        Stage(p.(sent := p.received[..|p.sent| + n]), n > 0)
      case WriteAgain => Stage(p, false)
      case WriteError => Broken
  }

  function AfterHalfClose(p: Pipe, answer: ShutdownAnswer): (r: Stage)
    requires p.Sound()
    ensures r.Stage? ==> Continues(p, r.pipe)
  {
    if !p.eof || p.Held() != 0 || p.shutdown then Stage(p, false)
    else if answer == ShutdownError then Broken
    else Stage(p.(shutdown := true), true)
  }

  lemma ContinuesTransitive(p: Pipe, q: Pipe, r: Pipe)
    requires Continues(p, q) && Continues(q, r)
    ensures Continues(p, r)
  {
  }

  /** One call of `transfer`: rewind, read, write, half-close. The pipe is reported
      also when the call fails, because its histories remain visible on the sockets. */
  function Transferred(p: Pipe, a: Answers): (r: (Pipe, Stage))
    requires p.Sound()
    ensures r.1.Stage? ==> r.1.pipe == r.0
    ensures Continues(p, r.0)
  {
    var p0 := Rewind(p);
    var s1 := AfterRead(p0, a.read);
    if s1.Broken? then (p0, Broken) else
    ContinuesTransitive(p, p0, s1.pipe);
    var s2 := AfterWrite(s1.pipe, a.write);
    if s2.Broken? then (s1.pipe, Broken) else
    ContinuesTransitive(p, s1.pipe, s2.pipe);
    var s3 := AfterHalfClose(s2.pipe, a.shutdown);
    if s3.Broken? then (s2.pipe, Broken) else
    ContinuesTransitive(p, s2.pipe, s3.pipe);
    (s3.pipe, Stage(s3.pipe, s1.progress || s2.progress || s3.progress))
  }

  /** Half-close happens only after end of input and with the buffer drained. */
  lemma HalfCloseOnlyWhenDrained(p: Pipe, a: Answers)
    requires p.Sound() && !p.shutdown
    ensures var q := Transferred(p, a).0; q.shutdown ==> q.eof && q.sent == q.received
  {
  }

  /** A call that makes no progress leaves a direction finished or waiting for
      something that poll can report. */
  lemma IdleMeansInterested(p: Pipe, a: Answers)
    requires p.Sound()
    requires Transferred(p, a).1 == Stage(Transferred(p, a).0, false)
    ensures var q := Transferred(p, a).0; q.shutdown || q.CanRead() || q.CanWrite()
  {
    var p0 := Rewind(p);
    var s1 := AfterRead(p0, a.read);
    assert s1.pipe == p0;
    var s2 := AfterWrite(p0, a.write);
    if p0.Held() != 0 {
      assert s2.pipe.CanWrite();
    } else {
      assert p0.sent == p0.received;
    }
  }

  // ------------------------------------------------------ one direction, in place

  // The front of what is held has been sent as well.
  lemma PartSent(received: seq<Byte>, sent: seq<Byte>, held: seq<Byte>, n: nat)
    requires received == sent + held && n <= |held|
    ensures received == sent + held[..n] + held[n..] && sent + held[..n] == received[..|sent| + n]
  {
    assert held == held[..n] + held[n..];
  }

  class Direction {
    const buffer: array<Byte>
    var start: nat
    var end: nat
    var eof: bool
    var shutdown: bool
    ghost var received: seq<Byte>
    ghost var sent: seq<Byte>

    ghost predicate Valid()
      reads this, buffer
    {
      && buffer.Length == RELAY_BUFFER_BYTES
      && start <= end <= buffer.Length
      && received == sent + buffer[start..end]
      && (shutdown ==> eof && start == end)
    }

    ghost function View(): Pipe
      reads this
    {
      Pipe(received, sent, end, eof, shutdown)
    }

    constructor ()
      ensures Valid() && View() == FRESH && fresh(buffer)
    {
      buffer := new Byte[RELAY_BUFFER_BYTES];
      start, end, eof, shutdown := 0, 0, false, false;
      received, sent := [], [];
    }

    method Fill(answer: ReadAnswer) returns (ok: bool, progress: bool)
      requires Valid() && View().Sound()
      modifies this, buffer
      ensures Valid() && (!ok ==> View() == old(View()))
      ensures AfterRead(old(View()), answer) == if ok then Stage(View(), progress) else Broken
    {
      ok, progress := true, false;
      if !eof && end < buffer.Length {
        match answer
        case Offers(bytes) =>
          var n := Min(|bytes|, buffer.Length - end);
          if n > 0 {
            ghost var before := buffer[start..end];
            forall k | 0 <= k < n { buffer[end + k] := bytes[k]; }
            assert buffer[start..end + n] == before + bytes[..n];
            end := end + n;
            received := received + bytes[..n];
            progress := true;
          }
        case EndOfInput => eof := true; progress := true;
        case ReadAgain =>
        case ReadError => ok := false;
      }
    }

    method Drain(answer: WriteAnswer) returns (ok: bool, progress: bool)
      requires Valid() && View().Sound()
      modifies this
      ensures Valid() && (!ok ==> View() == old(View()))
      ensures AfterWrite(old(View()), answer) == if ok then Stage(View(), progress) else Broken
    {
      ok, progress := true, false;
      if start < end {
        match answer
        case Accepts(count) =>
          var n := Min(count, end - start);
          ghost var held := buffer[start..end];
          assert buffer[start + n..end] == held[n..];
          PartSent(received, sent, held, n);
          sent := sent + held[..n];
          start := start + n;
          progress := n > 0;
        case WriteAgain =>
        case WriteError => ok := false;
      }
    }

    /** `transfer`, in place. */
    method Transfer(a: Answers) returns (ok: bool, progress: bool)
      requires Valid() && View().Sound()
      modifies this, buffer
      ensures Valid() && View().Sound()
      ensures Transferred(old(View()), a) == (View(), if ok then Stage(View(), progress) else Broken)
    {
      if start == end {
        start, end := 0, 0;
      }
      var filled, drained: bool;
      ok, filled := Fill(a.read);
      if !ok { return false, false; }
      ok, drained := Drain(a.write);
      if !ok { return false, false; }
      progress := filled || drained;
      if eof && start == end && !shutdown {
        if a.shutdown == ShutdownError {
          return false, false;
        }
        shutdown := true;
        progress := true;
      }
      ok := true;
    }
  }

  // ---------------------------------------------------------------- the relay loop

  datatype Round = Round(guestToParent: Answers, parentToGuest: Answers, pollFails: bool)

  datatype Ending = Finished | Failed | StillRunning

  // What one poll asks for, and which directions were already half-closed.
  datatype Poll = Poll(guestIn: bool, guestOut: bool, parentIn: bool, parentOut: bool,
                       outboundDone: bool, inboundDone: bool) {
    predicate Attentive() {
      && (!outboundDone ==> guestIn || parentOut)
      && (!inboundDone ==> parentIn || guestOut)
    }
  }

  function PollFor(outbound: Pipe, inbound: Pipe): Poll {
    Poll(outbound.CanRead(), inbound.CanWrite(), inbound.CanRead(), outbound.CanWrite(),
         outbound.shutdown, inbound.shutdown)
  }

  // What one turn of the loop leaves: the polls it entered, and how it ended, if it did.
  datatype Turn = Turn(polls: seq<Poll>, goesOn: bool, ending: Ending)

  /** One turn: both directions are transferred; with no progress in either, the relay
      polls for what they wait for. */
  function TurnOf(outbound: Pipe, inbound: Pipe, round: Round): (r: (Pipe, Pipe, Turn))
    requires outbound.Sound() && inbound.Sound()
    ensures Continues(outbound, r.0) && Continues(inbound, r.1)
  {
    var (out', s1) := Transferred(outbound, round.guestToParent);
    if s1.Broken? then (out', inbound, Turn([], false, Failed)) else
    var (in', s2) := Transferred(inbound, round.parentToGuest);
    if s2.Broken? then (out', in', Turn([], false, Failed)) else
    if out'.shutdown && in'.shutdown then (out', in', Turn([], false, Finished)) else
    if s1.progress || s2.progress then (out', in', Turn([], true, StillRunning)) else
    (out', in', Turn([PollFor(out', in')], !round.pollFails, Failed))
  }

  datatype Relayed = Relayed(ending: Ending, outbound: Pipe, inbound: Pipe, polls: seq<Poll>)

  /** The relay over a whole history of answers. */
  function Relaying(outbound: Pipe, inbound: Pipe, script: seq<Round>): (r: Relayed)
    requires outbound.Sound() && inbound.Sound()
    ensures Continues(outbound, r.outbound) && Continues(inbound, r.inbound)
    decreases |script|
  {
    if script == [] then Relayed(StillRunning, outbound, inbound, []) else
    var (out', in', turn) := TurnOf(outbound, inbound, script[0]);
    if !turn.goesOn then Relayed(turn.ending, out', in', turn.polls) else
    var rest := Relaying(out', in', script[1..]);
    rest.(polls := turn.polls + rest.polls)
  }

  /** For every history: what was written is a prefix of what was read, in both
      directions, also when the relay fails or is still running; a finished relay has
      read both inputs to their end and delivered every byte; and no poll was entered
      with an unfinished direction that asked for nothing. */
  lemma {:induction false} RelaySafety(outbound: Pipe, inbound: Pipe, script: seq<Round>)
    requires outbound.Sound() && inbound.Sound()
    ensures var r := Relaying(outbound, inbound, script);
      && outbound.received <= r.outbound.received && inbound.received <= r.inbound.received
      && r.outbound.sent <= r.outbound.received && r.inbound.sent <= r.inbound.received
      && (r.ending == Finished ==>
            && r.outbound.eof && r.outbound.sent == r.outbound.received
            && r.inbound.eof && r.inbound.sent == r.inbound.received)
      && (forall k :: 0 <= k < |r.polls| ==>
            && (!r.polls[k].outboundDone ==> r.polls[k].guestIn || r.polls[k].parentOut)
            && (!r.polls[k].inboundDone ==> r.polls[k].parentIn || r.polls[k].guestOut))
    decreases |script|
  {
    if script != [] {
      var (out', in', turn) := TurnOf(outbound, inbound, script[0]);
      TurnIsAttentive(outbound, inbound, script[0]);
      if turn.goesOn { RelaySafety(out', in', script[1..]); }
    }
  }

  lemma TurnIsAttentive(outbound: Pipe, inbound: Pipe, round: Round)
    requires outbound.Sound() && inbound.Sound()
    ensures forall k :: 0 <= k < |TurnOf(outbound, inbound, round).2.polls| ==> TurnOf(outbound, inbound, round).2.polls[k].Attentive()
  {
    var (out', s1) := Transferred(outbound, round.guestToParent);
    var (in', s2) := Transferred(inbound, round.parentToGuest);
    if s1.Stage? && !s1.progress && s2.Stage? && !s2.progress {
      IdleMeansInterested(outbound, round.guestToParent);
      IdleMeansInterested(inbound, round.parentToGuest);
    }
  }

  method Interest(outbound: Direction, inbound: Direction) returns (poll: Poll)
    requires outbound.Valid() && inbound.Valid()
    ensures poll == PollFor(outbound.View(), inbound.View())
  {
    poll := Poll(!outbound.eof && outbound.end < RELAY_BUFFER_BYTES, inbound.start < inbound.end,
                 !inbound.eof && inbound.end < RELAY_BUFFER_BYTES, outbound.start < outbound.end,
                 outbound.shutdown, inbound.shutdown);
  }

  method TakeTurn(outbound: Direction, inbound: Direction, round: Round) returns (turn: Turn)
    requires outbound.Valid() && inbound.Valid() && outbound.View().Sound() && inbound.View().Sound()
    requires outbound != inbound && outbound.buffer != inbound.buffer
    modifies outbound, outbound.buffer, inbound, inbound.buffer
    ensures outbound.Valid() && inbound.Valid() && outbound.View().Sound() && inbound.View().Sound()
    ensures (outbound.View(), inbound.View(), turn) == TurnOf(old(outbound.View()), old(inbound.View()), round)
  {
    ghost var inboundView := inbound.View();
    var ok, progress := outbound.Transfer(round.guestToParent);
    assert inbound.View() == inboundView;
    if !ok { return Turn([], false, Failed); }
    ghost var outboundView := outbound.View();
    var ok', progress' := inbound.Transfer(round.parentToGuest);
    assert outbound.View() == outboundView;
    if !ok' { return Turn([], false, Failed); }
    if outbound.shutdown && inbound.shutdown { return Turn([], false, Finished); }
    if progress || progress' { return Turn([], true, StillRunning); }
    var poll := Interest(outbound, inbound);
    turn := Turn([poll], !round.pollFails, Failed);
  }

  /** `relay`: fresh directions, then the loop. */
  method Relay(script: seq<Round>) returns (ending: Ending, polls: seq<Poll>)
    ensures var r := Relaying(FRESH, FRESH, script); ending == r.ending && polls == r.polls
    ensures forall k :: 0 <= k < |polls| ==>
      && (!polls[k].outboundDone ==> polls[k].guestIn || polls[k].parentOut)
      && (!polls[k].inboundDone ==> polls[k].parentIn || polls[k].guestOut)
  {
    RelaySafety(FRESH, FRESH, script);
    ghost var whole := Relaying(FRESH, FRESH, script);
    var outbound := new Direction();
    var inbound := new Direction();
    polls := [];
    var k := 0;
    while k < |script|
      invariant k <= |script|
      invariant outbound.Valid() && inbound.Valid() && outbound.View().Sound() && inbound.View().Sound()
      invariant fresh(outbound) && fresh(outbound.buffer) && fresh(inbound) && fresh(inbound.buffer)
      invariant outbound != inbound && outbound.buffer != inbound.buffer
      invariant var rest := Relaying(outbound.View(), inbound.View(), script[k..]);
        whole.ending == rest.ending && whole.polls == polls + rest.polls
    {
      assert script[k..][1..] == script[k + 1..];
      var turn := TakeTurn(outbound, inbound, script[k]);
      polls := polls + turn.polls;
      if !turn.goesOn { return turn.ending, polls; }
      k := k + 1;
    }
    assert script[k..] == [];
    ending := StillRunning;
  }
}
