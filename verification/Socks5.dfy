/** The SOCKS5 handshake of the policy proxy: a greeting and a request, parsed from
    whatever chunks the guest's bytes arrive in (sections 3 and 4 of RFC 1928). */
module Socks5 {
  import opened Bytes
  import opened Text
  import opened Addresses
  import opened AddressClasses
  import opened Policy

  const MAX_HANDSHAKE_BYTES := 512

  /** In the relay stage, `passed` is what the guest's bytes have been passed on as. */
  datatype Stage =
    | Greeting
    | Request
    | Connecting(host: Host, port: nat)
    | Relay(host: Host, port: nat, passed: seq<Byte>)
    | Closed

  /** `sent` is everything written to the guest. The buffer of a closed session is never
      looked at again, so that it is left empty. */
  datatype Session = Session(stage: Stage, buffer: seq<Byte>, sent: seq<Byte>)

  const START := Session(Greeting, [], [])

  /** What the platform does -- domain conversion, and decoding of names --, the policy in
      force, and whether a connection slot is free when this session asks for one. */
  datatype Context = Context(idna: Idna, utf8: seq<Byte> -> Option<string>, policy: Compiled, slotFree: bool)

  /** Section 6 of RFC 1928: version, reply, reserved, an IPv4 address and a port, all zero. */
  function Reply(code: Byte): (r: seq<Byte>)
    ensures |r| == 10 && r[0] == 5 && r[1] == code && r[2] == 0 && r[3] == 1 && forall k :: 4 <= k < 10 ==> r[k] == 0
  {
    [5, code, 0, 1, 0, 0, 0, 0, 0, 0]
  }

  function Drop(s: Session): Session { if s.stage.Closed? then s else Session(Closed, [], s.sent) }

  function Fail(s: Session, code: Byte): Session {
    if s.stage.Closed? then s else Session(Closed, [], s.sent + Reply(code))
  }

  // --------------------------------------------------------------------- the two stages

  function Greet(s: Session): Session {
    var b := s.buffer;
    if |b| < 2 then s
    else if b[0] != 5 || b[1] < 1 then Drop(s)
    else if 2 + b[1] as int > MAX_HANDSHAKE_BYTES then Drop(s)
    else if |b| < 2 + b[1] as int then s
    else if 0 !in b[2..2 + b[1] as int] then Session(Closed, [], s.sent + [5, 0xff])
    else Session(Request, b[2 + b[1] as int..], s.sent + [5, 0])
  }

  // The host as text, in the form that is then normalized.
  function RawHost(ctx: Context, kind: Byte, host: seq<Byte>): Option<string> {
    if kind == 1 then Some(FormatIpv4(host))
    else if kind == 4 && |host| % 2 == 0 then Some(Join(FormatGroups(GroupsOf(host)), ':'))
    else ctx.utf8(host)
  }

  function Ask(ctx: Context, s: Session): Session {
    var b := s.buffer;
    if |b| < 4 then s
    else if b[0] != 5 || b[2] != 0 then Fail(s, 1)
    else if b[1] != 1 then Fail(s, 7)
    else if b[3] != 1 && b[3] != 3 && b[3] != 4 then Fail(s, 8)
    else if b[3] == 3 && |b| < 5 then s
    else if b[3] == 3 && !(1 <= b[4] <= 253) then Fail(s, 8)
    else
      var offset: int := if b[3] == 3 then 5 else 4;
      var hostLength: int := if b[3] == 1 then 4 else if b[3] == 4 then 16 else b[4] as int;
      var total := offset + hostLength + 2;
      if total > MAX_HANDSHAKE_BYTES then Fail(s, 1)
      else if |b| < total then s
      else if |b| != total then Fail(s, 1)
      else Resolve(ctx, s, b[3], b[offset..offset + hostLength], Pair(b[total - 2], b[total - 1]))
  }

  // The destination of a request, unless it is not one.
  function Destination(ctx: Context, kind: Byte, host: seq<Byte>, port: nat): Option<Host> {
    var raw := RawHost(ctx, kind, host);
    if raw.None? || port == 0 then None else NormalizeHost(raw.value, ctx.idna)
  }

  function Resolve(ctx: Context, s: Session, kind: Byte, host: seq<Byte>, port: nat): Session {
    match Destination(ctx, kind, host, port)
    case None => Fail(s, 8)
    case Some(name) => Dial(ctx, s, name, port)
  }

  // `decideDestination`, on the text of the destination.
  function Verdict(ctx: Context, host: Host, port: nat): Decision {
    TablesFit();
    Decide(ctx.policy, host.Name(), port, ctx.idna, TABLES)
  }

  function DenialReply(reason: Reason): Byte { if reason == Allowlist then 5 else 2 }

  predicate Denied(ctx: Context, host: Host, port: nat) {
    Verdict(ctx, host, port).Decided? && !Verdict(ctx, host, port).Allowed()
  }

  /** `#connect` up to its first await: a denial, and a refusal for want of a slot, come
      before anything else can arrive. */
  function Dial(ctx: Context, s: Session, host: Host, port: nat): Session {
    if Denied(ctx, host, port) then Fail(s, DenialReply(Verdict(ctx, host, port).reason))
    else if Verdict(ctx, host, port).Decided? && !ctx.slotFree then Fail(s, 1)
    else Session(Connecting(host, port), [], s.sent)
  }

  function Parse(ctx: Context, s: Session): Session {
    if s.stage.Greeting? then
      var t := Greet(s);
      if t.stage.Request? then Ask(ctx, t) else t
    else if s.stage.Request? then Ask(ctx, s) else s
  }

  /** One chunk, in whatever stage; once the relay has started it goes to the destination. */
  function OnData(ctx: Context, s: Session, chunk: seq<Byte>): Session {
    if s.stage.Connecting? then Fail(s, 1)
    else if s.stage.Relay? then s.(stage := s.stage.(passed := s.stage.passed + chunk))
    else if s.stage.Closed? then s
    else if |s.buffer| + |chunk| > MAX_HANDSHAKE_BYTES then Drop(s)
    else Parse(ctx, s.(buffer := s.buffer + chunk))
  }

  function Feed(ctx: Context, s: Session, chunks: seq<seq<Byte>>): Session
    decreases |chunks|
  {
    if chunks == [] then s else Feed(ctx, OnData(ctx, s, chunks[0]), chunks[1..])
  }

  /** What becomes of an attempt to connect; a failure has the code of its reply. */
  datatype Outcome = Connected | ConnectFailed(code: Byte)

  /** The rest of `#connect`. An outcome that comes for a closed session finds it closed. */
  function Settle(s: Session, o: Outcome): Session {
    if !s.stage.Connecting? then s
    else
      match o
      case Connected => Session(Relay(s.stage.host, s.stage.port, []), [], s.sent + Reply(0))
      case ConnectFailed(code) => Fail(s, code)
  }

  // All the bytes at once.
  function AtOnce(ctx: Context, stream: seq<Byte>): Session { Parse(ctx, START.(buffer := stream)) }

  // ------------------------------------------------------- independence of fragmentation

  function GreetingLength(stream: seq<Byte>): Option<nat> {
    if |stream| < 2 || |stream| < 2 + stream[1] as int then None else Some(2 + stream[1] as int)
  }

  function RequestLength(b: seq<Byte>): Option<nat> {
    if |b| < 4 then None
    else if b[3] == 1 then Some(10)
    else if b[3] == 4 then Some(22)
    else if b[3] == 3 && |b| >= 5 then Some(7 + b[4] as int)
    else None
  }

  // A request that is good up to its address, and complete.
  predicate WholeRequest(b: seq<Byte>) {
    && |b| >= 4 && b[0] == 5 && b[1] == 1 && b[2] == 0
    && RequestLength(b).Some? && (b[3] == 3 ==> 1 <= b[4] <= 253) && RequestLength(b).value <= |b|
  }

  function AddressOffset(b: seq<Byte>): nat
    requires WholeRequest(b)
  {
    if b[3] == 3 then 5 else 4
  }

  function AddressOf(b: seq<Byte>): seq<Byte>
    requires WholeRequest(b)
  {
    b[AddressOffset(b)..RequestLength(b).value - 2]
  }

  function PortOf(b: seq<Byte>): nat
    requires WholeRequest(b)
  {
    Pair(b[RequestLength(b).value - 2], b[RequestLength(b).value - 1])
  }

  // The destination is not one, or the policy denies it.
  predicate TurnedDown(ctx: Context, kind: Byte, host: seq<Byte>, port: nat) {
    var d := Destination(ctx, kind, host, port); d.None? || Denied(ctx, d.value, port)
  }

  // The destination is fine, but there is no slot for another connection.
  predicate WantsSlot(ctx: Context, kind: Byte, host: seq<Byte>, port: nat) {
    var d := Destination(ctx, kind, host, port); d.Some? && Verdict(ctx, d.value, port).Allowed() && !ctx.slotFree
  }

  // What is left of the stream behind a greeting that is accepted.
  function BehindGreeting(stream: seq<Byte>): seq<Byte> { Greet(START.(buffer := stream)).buffer }

  /** A greeting that is accepted, a whole request, and then something more. */
  predicate Overruns(stream: seq<Byte>) {
    var b := BehindGreeting(stream);
    Greet(START.(buffer := stream)).stage.Request? && WholeRequest(b) && RequestLength(b).value < |b|
  }

  // The same, and the destination of the request is turned down.
  predicate OverrunsRefusal(ctx: Context, stream: seq<Byte>) {
    var b := BehindGreeting(stream); Overruns(stream) && TurnedDown(ctx, b[3], AddressOf(b), PortOf(b))
  }

  /** The stream goes on behind a whole request, unless that is refused for want of a slot. */
  predicate GoesOnBehind(ctx: Context, stream: seq<Byte>) {
    var b := BehindGreeting(stream); Overruns(stream) && !WantsSlot(ctx, b[3], AddressOf(b), PortOf(b))
  }

  // A request that has not been seen to its end is decided by what has been seen.
  lemma AskWithMore(ctx: Context, s: Session, more: seq<Byte>)
    requires s.stage.Request? && !Ask(ctx, s).stage.Request? && !WholeRequest(s.buffer)
    ensures Ask(ctx, s.(buffer := s.buffer + more)) == Ask(ctx, s)
  {
    hide Resolve, Pair;
  }

  lemma AskWhole(ctx: Context, s: Session)
    requires s.stage.Request? && WholeRequest(s.buffer)
    ensures Ask(ctx, s) == if |s.buffer| == RequestLength(s.buffer).value
                           then Resolve(ctx, s, s.buffer[3], AddressOf(s.buffer), PortOf(s.buffer)) else Fail(s, 1)
  {
    hide Resolve, Pair;
  }

  lemma WholeWithMore(b: seq<Byte>, more: seq<Byte>)
    requires WholeRequest(b)
    ensures WholeRequest(b + more) && RequestLength(b + more) == RequestLength(b)
    ensures AddressOf(b + more) == AddressOf(b) && PortOf(b + more) == PortOf(b)
  {
    hide Pair;
  }

  lemma GreetWithMore(s: Session, more: seq<Byte>)
    requires s.stage.Greeting? && !Greet(s).stage.Greeting?
    ensures var t, u := Greet(s), Greet(s.(buffer := s.buffer + more));
      if t.stage.Request? then u == t.(buffer := t.buffer + more) else u == t
  {
    var n := 2 + s.buffer[1] as int;
    if |s.buffer| >= n {
      assert (s.buffer + more)[2..n] == s.buffer[2..n];
      assert (s.buffer + more)[n..] == s.buffer[n..] + more;
    }
  }

  // A session that the last bytes of a request, or bytes behind it, have decided.
  lemma WholeInTwoParts(ctx: Context, t: Session, more: seq<Byte>)
    requires t.stage.Request? && WholeRequest(t.buffer) && more != []
    requires |t.buffer| == RequestLength(t.buffer).value ==> !TurnedDown(ctx, t.buffer[3], AddressOf(t.buffer), PortOf(t.buffer))
    ensures OnData(ctx, Ask(ctx, t), more) == Ask(ctx, t.(buffer := t.buffer + more))
  {
    hide Verdict, Destination, Pair;
    AskWhole(ctx, t);
    WholeWithMore(t.buffer, more);
    AskWhole(ctx, t.(buffer := t.buffer + more));
  }

  /** Reading in two steps is reading at once, unless the bytes go on behind a request that
      is turned down. */
  lemma InTwoParts(ctx: Context, a: seq<Byte>, more: seq<Byte>)
    requires |a + more| <= MAX_HANDSHAKE_BYTES && more != [] && !OverrunsRefusal(ctx, a + more)
    ensures OnData(ctx, AtOnce(ctx, a), more) == AtOnce(ctx, a + more)
  {
    hide Ask, TurnedDown, WholeRequest, AddressOf, PortOf, RequestLength;
    var s := START.(buffer := a);
    var t := Greet(s);
    if t.stage.Greeting? {
      assert t == s;
    } else {
      GreetWithMore(s, more);
      if t.stage.Request? {
        if WholeRequest(t.buffer) {
          WholeWithMore(t.buffer, more);
          WholeEnds(t.buffer);
          WholeInTwoParts(ctx, t, more);
        } else {
          PartInTwoParts(ctx, t, more);
        }
      }
    }
  }

  lemma WholeEnds(b: seq<Byte>)
    requires WholeRequest(b)
    ensures |b| >= 4 && RequestLength(b).Some? && RequestLength(b).value <= |b|
  {
  }

  lemma PartInTwoParts(ctx: Context, t: Session, more: seq<Byte>)
    requires t.stage.Request? && !WholeRequest(t.buffer) && more != [] && |t.buffer + more| <= MAX_HANDSHAKE_BYTES
    ensures OnData(ctx, Ask(ctx, t), more) == Ask(ctx, t.(buffer := t.buffer + more))
  {
    hide Resolve, Pair;
    if !Ask(ctx, t).stage.Request? { AskWithMore(ctx, t, more); }
  }

  lemma OverrunStays(ctx: Context, a: seq<Byte>, more: seq<Byte>)
    requires OverrunsRefusal(ctx, a)
    ensures OverrunsRefusal(ctx, a + more)
  {
    hide TurnedDown;
    var s := START.(buffer := a);
    GreetWithMore(s, more);
    WholeWithMore(Greet(s).buffer, more);
  }

  predicate NoneEmpty(chunks: seq<seq<Byte>>) { forall k :: 0 <= k < |chunks| ==> chunks[k] != [] }

  lemma {:induction false} FeedAfter(ctx: Context, before: seq<Byte>, chunks: seq<seq<Byte>>)
    requires |before + Joined(chunks)| <= MAX_HANDSHAKE_BYTES && !OverrunsRefusal(ctx, before + Joined(chunks))
    requires NoneEmpty(chunks)
    ensures Feed(ctx, AtOnce(ctx, before), chunks) == AtOnce(ctx, before + Joined(chunks))
    decreases |chunks|
  {
    hide OverrunsRefusal, AtOnce, OnData;
    if chunks == [] {
      assert before + [] == before;
    } else {
      var next := before + chunks[0];
      assert before + Joined(chunks) == next + Joined(chunks[1..]);
      if OverrunsRefusal(ctx, next) { OverrunStays(ctx, next, Joined(chunks[1..])); }
      InTwoParts(ctx, before, chunks[0]);
      FeedAfter(ctx, next, chunks[1..]);
    }
  }

  /** As long as no attempt to connect has come to its end: however at most 512 bytes are
      cut into chunks, the session is in the same state, with the same replies, as if they
      came in one piece, unless they go on behind a request that is turned down. */
  lemma FragmentationIsIrrelevant(ctx: Context, chunks: seq<seq<Byte>>)
    requires |Joined(chunks)| <= MAX_HANDSHAKE_BYTES && !OverrunsRefusal(ctx, Joined(chunks)) && NoneEmpty(chunks)
    ensures Feed(ctx, START, chunks) == AtOnce(ctx, Joined(chunks))
  {
    hide OverrunsRefusal;
    assert [] + Joined(chunks) == Joined(chunks);
    FeedAfter(ctx, [], chunks);
    assert AtOnce(ctx, []) == START;
  }

  // Where a stream goes on behind its request.
  function RequestEnd(stream: seq<Byte>): nat
    requires GreetingLength(stream).Some? && RequestLength(stream[GreetingLength(stream).value..]).Some?
  {
    GreetingLength(stream).value + RequestLength(stream[GreetingLength(stream).value..]).value
  }

  // Cut right behind the request, a stream that overruns it is decided by the request alone.
  lemma CutBehindRequest(ctx: Context, stream: seq<Byte>)
    requires |stream| <= MAX_HANDSHAKE_BYTES && Overruns(stream)
    ensures GreetingLength(stream).Some? && RequestLength(stream[GreetingLength(stream).value..]).Some?
    ensures 0 < RequestEnd(stream) < |stream| && AtOnce(ctx, stream) == Session(Closed, [], [5, 0] + Reply(1))
    ensures var b, n := BehindGreeting(stream), RequestEnd(stream);
      AtOnce(ctx, stream[..n]) ==
        Resolve(ctx, Session(Request, b[..RequestLength(b).value], [5, 0]), b[3], AddressOf(b), PortOf(b))
  {
    hide Resolve, Reply, Pair, WholeRequest, AddressOf, PortOf, Greet, RequestLength, Ask;
    var t := Greet(START.(buffer := stream));
    GreetedUpTo(stream, |stream|);
    assert stream[..|stream|] == stream;
    var g := GreetingLength(stream).value;
    assert t.buffer == stream[g..];
    WholeEnds(t.buffer);
    var n := RequestEnd(stream);
    GreetedUpTo(stream, n);
    AskWhole(ctx, t);
    var u := Greet(START.(buffer := stream[..n]));
    WholeUpTo(t.buffer, n - g);
    assert t.buffer[..n - g] == u.buffer;
    AskWhole(ctx, u);
  }

  // Cut there, a stream whose request is turned down is answered differently.
  lemma CutBehindRefusal(ctx: Context, stream: seq<Byte>)
    requires |stream| <= MAX_HANDSHAKE_BYTES && OverrunsRefusal(ctx, stream)
    ensures GreetingLength(stream).Some? && RequestLength(stream[GreetingLength(stream).value..]).Some? && RequestEnd(stream) < |stream|
    ensures var n := RequestEnd(stream);
      && NoneEmpty([stream[..n], stream[n..]]) && Joined([stream[..n], stream[n..]]) == stream
      && AtOnce(ctx, stream) == Session(Closed, [], [5, 0] + Reply(1))
      && (Feed(ctx, START, [stream[..n], stream[n..]]) == Session(Closed, [], [5, 0] + Reply(8)) ||
          Feed(ctx, START, [stream[..n], stream[n..]]) == Session(Closed, [], [5, 0] + Reply(2)))
  {
    hide Destination, Verdict, Reply, AddressOf, PortOf, Overruns, AtOnce;
    CutBehindRequest(ctx, stream);
    var n := RequestEnd(stream);
    TwoChunks(stream, n);
    FeedTwo(ctx, stream[..n], stream[n..]);
  }

  lemma GreetedUpTo(stream: seq<Byte>, n: nat)
    requires Greet(START.(buffer := stream)).stage.Request?
    ensures GreetingLength(stream).Some?
    ensures GreetingLength(stream).value <= n <= |stream| ==>
      Greet(START.(buffer := stream[..n])) == Session(Request, stream[GreetingLength(stream).value..n], [5, 0])
  {
    var g := GreetingLength(stream).value;
    if g <= n <= |stream| { assert stream[..n][2..g] == stream[2..g] && stream[..n][g..] == stream[g..n]; }
  }

  // The request by itself is whole, with the same address and port.
  lemma WholeUpTo(b: seq<Byte>, n: nat)
    requires WholeRequest(b) && n == RequestLength(b).value
    ensures var c := b[..n]; WholeRequest(c) && RequestLength(c).value == |c| && c[3] == b[3] && AddressOf(c) == AddressOf(b) && PortOf(c) == PortOf(b)
  {
    hide Pair;
  }

  lemma TwoChunks(stream: seq<Byte>, n: nat)
    requires n <= |stream|
    ensures Joined([stream[..n], stream[n..]]) == stream
  {
    var chunks: seq<seq<Byte>> := [stream[..n], stream[n..]];
    var tail: seq<seq<Byte>> := chunks[1..];
    assert tail == [stream[n..]] && tail[1..] == [];
    assert Joined(tail) == stream[n..] + Joined([]);
    assert Joined(chunks) == stream[..n] + Joined(tail);
  }

  lemma FeedTwo(ctx: Context, a: seq<Byte>, b: seq<Byte>)
    requires |a| <= MAX_HANDSHAKE_BYTES
    ensures Feed(ctx, START, [a, b]) == OnData(ctx, AtOnce(ctx, a), b)
  {
    hide Parse, OnData;
    var chunks: seq<seq<Byte>> := [a, b];
    var tail: seq<seq<Byte>> := chunks[1..];
    assert tail == [b] && tail[1..] == [];
    AtStart(ctx, a);
    var s := OnData(ctx, START, a);
    assert Feed(ctx, s, tail) == Feed(ctx, OnData(ctx, s, b), []);
    assert Feed(ctx, START, chunks) == Feed(ctx, s, tail);
  }

  lemma AtStart(ctx: Context, a: seq<Byte>)
    requires |a| <= MAX_HANDSHAKE_BYTES
    ensures OnData(ctx, START, a) == AtOnce(ctx, a)
  {
    assert [] + a == a;
  }

  /** As long as no attempt to connect has come to its end, that condition is exact. */
  lemma AlikeBeforeOutcomeExactlyWhen(ctx: Context, stream: seq<Byte>)
    requires |stream| <= MAX_HANDSHAKE_BYTES
    ensures (forall chunks :: NoneEmpty(chunks) && Joined(chunks) == stream ==> Feed(ctx, START, chunks) == AtOnce(ctx, stream))
            <==> !OverrunsRefusal(ctx, stream)
  {
    hide OverrunsRefusal, Feed, AtOnce;
    if OverrunsRefusal(ctx, stream) {
      CutBehindRefusal(ctx, stream);
      RepliesDiffer();
      var n := RequestEnd(stream);
      var cut := [stream[..n], stream[n..]];
      assert NoneEmpty(cut) && Joined(cut) == stream && Feed(ctx, START, cut) != AtOnce(ctx, stream);
    } else {
      forall chunks | NoneEmpty(chunks) && Joined(chunks) == stream ensures Feed(ctx, START, chunks) == AtOnce(ctx, stream) {
        FragmentationIsIrrelevant(ctx, chunks);
      }
    }
  }

  // ------------------------------------------------------- with the outcome of the attempt

  // The attempt to connect, if there is one, has begun.
  predicate Decided(s: Session) { !s.stage.Greeting? && !s.stage.Request? }

  /** The outcome of the attempt comes between these chunks: at any time after the attempt
      has begun, and at the latest after all chunks. */
  predicate Timely(ctx: Context, before: seq<seq<Byte>>, after: seq<seq<Byte>>) {
    NoneEmpty(before) && NoneEmpty(after) && (after == [] || Decided(Feed(ctx, START, before)))
  }

  function Ending(ctx: Context, before: seq<seq<Byte>>, o: Outcome, after: seq<seq<Byte>>): Session {
    Feed(ctx, Settle(Feed(ctx, START, before), o), after)
  }

  lemma OnlyWholeConnects(ctx: Context, s: Session)
    requires s.stage.Request? && Ask(ctx, s).stage.Connecting?
    ensures WholeRequest(s.buffer) && |s.buffer| == RequestLength(s.buffer).value
    ensures !WantsSlot(ctx, s.buffer[3], AddressOf(s.buffer), PortOf(s.buffer))
  {
    hide Verdict, Destination, Pair;
    if WholeRequest(s.buffer) { AskWhole(ctx, s); }
  }

  // Anything behind a request that is being connected goes on behind it.
  lemma ConnectingGoesOn(ctx: Context, a: seq<Byte>, more: seq<Byte>)
    requires AtOnce(ctx, a).stage.Connecting? && more != []
    ensures GoesOnBehind(ctx, a + more)
  {
    hide Ask, WantsSlot, AddressOf, PortOf;
    var t := Greet(START.(buffer := a));
    OnlyWholeConnects(ctx, t);
    GreetWithMore(START.(buffer := a), more);
    WholeWithMore(t.buffer, more);
    assert BehindGreeting(a + more) == t.buffer + more;
  }

  lemma RefusalGoesOn(ctx: Context, stream: seq<Byte>)
    requires OverrunsRefusal(ctx, stream)
    ensures GoesOnBehind(ctx, stream)
  {
    hide Verdict, Destination, AddressOf, PortOf;
  }

  lemma {:induction false} JoinedBoth(a: seq<seq<Byte>>, b: seq<seq<Byte>>)
    ensures Joined(a + b) == Joined(a) + Joined(b)
  {
    if a == [] {
      assert a + b == b;
    } else {
      assert (a + b)[1..] == a[1..] + b;
      JoinedBoth(a[1..], b);
    }
  }

  lemma {:induction false} ClosedStays(ctx: Context, s: Session, chunks: seq<seq<Byte>>)
    requires s.stage.Closed?
    ensures Feed(ctx, s, chunks) == s
    decreases |chunks|
  {
    if chunks != [] { ClosedStays(ctx, s, chunks[1..]); }
  }

  lemma JoinedSome(chunks: seq<seq<Byte>>)
    requires NoneEmpty(chunks) && chunks != []
    ensures Joined(chunks) != []
  {
  }

  lemma AtOnceIsNoRelay(ctx: Context, stream: seq<Byte>)
    ensures !AtOnce(ctx, stream).stage.Relay?
  {
    hide Destination, Verdict, Pair;
  }

  lemma EndsAlike(ctx: Context, before: seq<seq<Byte>>, o: Outcome, after: seq<seq<Byte>>)
    requires Timely(ctx, before, after) && |Joined(before + after)| <= MAX_HANDSHAKE_BYTES
    requires !GoesOnBehind(ctx, Joined(before + after))
    ensures Ending(ctx, before, o, after) == Settle(AtOnce(ctx, Joined(before + after)), o)
  {
    hide AtOnce, GoesOnBehind, OverrunsRefusal, OnData;
    var p, stream := Joined(before), Joined(before + after);
    JoinedBoth(before, after);
    if OverrunsRefusal(ctx, stream) { RefusalGoesOn(ctx, stream); }
    if OverrunsRefusal(ctx, p) { OverrunStays(ctx, p, Joined(after)); }
    FragmentationIsIrrelevant(ctx, before);
    if after == [] {
      assert p + [] == p;
    } else {
      JoinedSome(after);
      if AtOnce(ctx, p).stage.Connecting? { ConnectingGoesOn(ctx, p, Joined(after)); }
      AtOnceIsNoRelay(ctx, p);
      FeedAfter(ctx, p, after);
      ClosedStays(ctx, AtOnce(ctx, p), after);
    }
  }

  /** Cut behind the request, a stream that goes on behind it is refused or relayed, and not
      answered as in one piece. */
  lemma CutBehindAnswer(ctx: Context, stream: seq<Byte>)
    requires |stream| <= MAX_HANDSHAKE_BYTES && GoesOnBehind(ctx, stream)
    ensures GreetingLength(stream).Some? && RequestLength(stream[GreetingLength(stream).value..]).Some? && RequestEnd(stream) < |stream|
    ensures var n := RequestEnd(stream);
      var before, after := [stream[..n]], [stream[n..]];
      && Timely(ctx, before, after) && Joined(before + after) == stream
      && Settle(AtOnce(ctx, stream), Connected) == Session(Closed, [], [5, 0] + Reply(1))
      && (var e := Ending(ctx, before, Connected, after);
          || e == Session(Closed, [], [5, 0] + Reply(8)) || e == Session(Closed, [], [5, 0] + Reply(2))
          || (e.stage.Relay? && e.stage.passed == stream[n..] && e.sent == [5, 0] + Reply(0)))
  {
    hide Destination, Verdict, Reply, AddressOf, PortOf, Overruns, AtOnce;
    CutBehindRequest(ctx, stream);
    var n := RequestEnd(stream);
    var before, after := [stream[..n]], [stream[n..]];
    TwoChunks(stream, n);
    assert before + after == [stream[..n], stream[n..]];
    FeedOne(ctx, START, stream[..n]);
    AtStart(ctx, stream[..n]);
    FeedOne(ctx, Settle(AtOnce(ctx, stream[..n]), Connected), stream[n..]);
  }

  lemma FeedOne(ctx: Context, s: Session, a: seq<Byte>)
    ensures Feed(ctx, s, [a]) == OnData(ctx, s, a)
  {
    var chunks: seq<seq<Byte>> := [a];
    assert chunks[1..] == [];
  }

  /** The exact condition, over all fragmentations and all moments at which the attempt to
      connect may come to its end, whichever it is: at most 512 bytes end as in one piece
      if and only if they do not go on behind a whole request, or go on behind one that is
      refused for want of a slot. */
  lemma FragmentationIrrelevantExactlyWhen(ctx: Context, stream: seq<Byte>)
    requires |stream| <= MAX_HANDSHAKE_BYTES
    ensures (forall before, o, after :: Timely(ctx, before, after) && Joined(before + after) == stream ==>
               Ending(ctx, before, o, after) == Settle(AtOnce(ctx, stream), o))
            <==> !GoesOnBehind(ctx, stream)
  {
    hide GoesOnBehind, Ending, AtOnce, Timely;
    if GoesOnBehind(ctx, stream) {
      CutBehindAnswer(ctx, stream);
      RepliesDiffer();
      var n := RequestEnd(stream);
      var before, after := [stream[..n]], [stream[n..]];
      assert Timely(ctx, before, after) && Joined(before + after) == stream;
      assert Ending(ctx, before, Connected, after) != Settle(AtOnce(ctx, stream), Connected);
    } else {
      forall before, o, after | Timely(ctx, before, after) && Joined(before + after) == stream
        ensures Ending(ctx, before, o, after) == Settle(AtOnce(ctx, stream), o)
      {
        EndsAlike(ctx, before, o, after);
      }
    }
  }

  lemma RepliesDiffer()
    ensures forall a: seq<Byte> :: a + Reply(1) != a + Reply(8) && a + Reply(1) != a + Reply(2)
  {
    forall a: seq<Byte> ensures a + Reply(1) != a + Reply(8) && a + Reply(1) != a + Reply(2) {
      assert (a + Reply(1))[|a| + 1] == 1 && (a + Reply(8))[|a| + 1] == 8 && (a + Reply(2))[|a| + 1] == 2;
    }
  }

  // ------------------------------------------------------------------ what is connected to

  // Not an address, or a public one.
  predicate Public(host: Host) {
    TablesFit();
    host.Ip? ==> WellFormed(host.address) && Classify(host.address, TABLES) == AddressClasses.Public
  }

  predicate ConnectsLawfully(ctx: Context, s: Session) {
    s.stage.Connecting? || s.stage.Relay? ==>
      var d := Verdict(ctx, s.stage.host, s.stage.port); d.Allowed() && d.host == s.stage.host && Public(d.host) && ctx.slotFree
  }

  lemma AllowedIsPublic(ctx: Context, host: Host, port: nat)
    requires Verdict(ctx, host, port).Allowed()
    ensures Public(Verdict(ctx, host, port).host)
  {
    hide NormalizeHost, AnyMatches, Classify;
    HostIsWellFormed(host.Name(), ctx.idna);
  }

  lemma DestinationIsFixed(ctx: Context, kind: Byte, host: seq<Byte>, port: nat)
    requires ctx.idna.Stable() && Destination(ctx, kind, host, port).Some? && 0 < port < 65536
    ensures var name := Destination(ctx, kind, host, port).value; Verdict(ctx, name, port).Decided? && Verdict(ctx, name, port).host == name
  {
    hide NormalizeHost, RawHost, AnyMatches, IsPublic;
    HostIdempotent(RawHost(ctx, kind, host).value, ctx.idna);
  }

  lemma ResolvesLawfully(ctx: Context, s: Session, kind: Byte, host: seq<Byte>, port: nat)
    requires ctx.idna.Stable() && s.stage.Request? && port < 65536
    ensures ConnectsLawfully(ctx, Resolve(ctx, s, kind, host, port))
  {
    hide Verdict, Public;
    var d := Destination(ctx, kind, host, port);
    if d.Some? {
      DestinationIsFixed(ctx, kind, host, port);
      if Verdict(ctx, d.value, port).Allowed() { AllowedIsPublic(ctx, d.value, port); }
    }
  }

  lemma AsksLawfully(ctx: Context, s: Session)
    requires ctx.idna.Stable() && s.stage.Request?
    ensures ConnectsLawfully(ctx, Ask(ctx, s))
  {
    hide Verdict, Resolve, Public;
    if WholeRequest(s.buffer) && |s.buffer| == RequestLength(s.buffer).value {
      AskWhole(ctx, s);
      ResolvesLawfully(ctx, s, s.buffer[3], AddressOf(s.buffer), PortOf(s.buffer));
    }
  }

  lemma OneChunkLawfully(ctx: Context, s: Session, chunk: seq<Byte>)
    requires ctx.idna.Stable() && ConnectsLawfully(ctx, s)
    ensures ConnectsLawfully(ctx, OnData(ctx, s, chunk))
  {
    hide Ask, Verdict, Public;
    if s.stage.Greeting? || s.stage.Request? {
      var t := s.(buffer := s.buffer + chunk);
      if s.stage.Request? { AsksLawfully(ctx, t); } else if Greet(t).stage.Request? { AsksLawfully(ctx, Greet(t)); }
    }
  }

  lemma {:induction false} ChunksLawfully(ctx: Context, s: Session, chunks: seq<seq<Byte>>)
    requires ctx.idna.Stable() && ConnectsLawfully(ctx, s)
    ensures ConnectsLawfully(ctx, Feed(ctx, s, chunks))
    decreases |chunks|
  {
    hide ConnectsLawfully, OnData;
    if chunks != [] {
      OneChunkLawfully(ctx, s, chunks[0]);
      ChunksLawfully(ctx, OnData(ctx, s, chunks[0]), chunks[1..]);
    }
  }

  /** Whatever bytes come in whatever chunks, and whenever the attempt to connect comes to
      its end: a session connects to, and passes bytes on to, only a destination that the
      policy allows, in the form it has been normalized to, and no address that is not
      public. */
  lemma OnlyAllowedDestinations(ctx: Context, before: seq<seq<Byte>>, o: Outcome, after: seq<seq<Byte>>)
    requires ctx.idna.Stable()
    ensures ConnectsLawfully(ctx, Feed(ctx, START, before)) && ConnectsLawfully(ctx, Ending(ctx, before, o, after))
  {
    hide Verdict, Public, Feed;
    ChunksLawfully(ctx, START, before);
    ChunksLawfully(ctx, Settle(Feed(ctx, START, before), o), after);
  }

  // ------------------------------------------------------------ what a handshake says

  /** A destination as section 5 of RFC 1928 writes it. */
  datatype Target = V4(bytes: seq<Byte>) | V6(bytes: seq<Byte>) | Name(bytes: seq<Byte>) {
    predicate Legal() {
      match this
      case V4(b) => |b| == 4
      case V6(b) => |b| == 16
      case Name(b) => 1 <= |b| <= 253
    }
    function Kind(): Byte { match this case V4(_) => 1 case V6(_) => 4 case Name(_) => 3 }
    function Written(): seq<Byte>
      requires Legal()
    {
      match this
      case V4(b) => [1] + b
      case V6(b) => [4] + b
      case Name(b) => [3, |b|] + b
    }
  }

  function GreetingBytes(methods: seq<Byte>): seq<Byte>
    requires |methods| < 256
  {
    [5, |methods|] + methods
  }

  function RequestBytes(target: Target, port: Group): seq<Byte>
    requires target.Legal()
  {
    [5, 1, 0] + target.Written() + [port / 256, port % 256]
  }

  lemma GreetingIsAnswered(methods: seq<Byte>, rest: seq<Byte>)
    requires 1 <= |methods| < 256
    ensures Greet(START.(buffer := GreetingBytes(methods) + rest)) ==
            if 0 in methods then Session(Request, rest, [5, 0]) else Session(Closed, [], [5, 0xff])
  {
    var b := GreetingBytes(methods) + rest;
    assert b[2..2 + |methods|] == methods;
    assert b[2 + |methods|..] == rest;
  }

  // The head of a request up to its address.
  function Head(target: Target): (h: seq<Byte>)
    requires target.Legal()
    ensures |h| == if target.Name? then 5 else 4
    ensures h[0] == 5 && h[1] == 1 && h[2] == 0 && h[3] == target.Kind() && (target.Name? ==> h[4] == |target.bytes|)
  {
    [5, 1, 0, target.Kind()] + if target.Name? then [|target.bytes|] else []
  }

  lemma RequestParts(target: Target, port: Group)
    requires target.Legal()
    ensures RequestBytes(target, port) == Head(target) + target.bytes + [port / 256, port % 256]
  {
  }

  lemma MiddleOf(head: seq<Byte>, middle: seq<Byte>, high: Byte, low: Byte)
    ensures var b := head + middle + [high, low];
      && |b| == |head| + |middle| + 2 && b[..|head|] == head && b[|head|..|head| + |middle|] == middle
      && b[|b| - 2] == high && b[|b| - 1] == low
  {
  }

  lemma PortBytes(port: Group)
    ensures port / 256 < 256 && Pair(port / 256, port % 256) == port
  {
  }

  lemma RequestIsResolved(ctx: Context, sent: seq<Byte>, target: Target, port: Group)
    requires target.Legal()
    ensures var s := Session(Request, RequestBytes(target, port), sent);
      Ask(ctx, s) == Resolve(ctx, s, target.Kind(), target.bytes, port)
  {
    hide Resolve, RequestBytes, Head;
    var head := Head(target);
    RequestParts(target, port);
    PortBytes(port);
    MiddleOf(head, target.bytes, port / 256, port % 256);
    HeadDecides(ctx, Session(Request, RequestBytes(target, port), sent), target, port);
  }

  lemma HeadDecides(ctx: Context, s: Session, target: Target, port: Group)
    requires target.Legal() && s.stage == Request
    requires var head, n := Head(target), |Head(target)| + |target.bytes|;
      && |s.buffer| == n + 2 && s.buffer[..|head|] == head && s.buffer[|head|..n] == target.bytes
      && Pair(s.buffer[n], s.buffer[n + 1]) == port
    ensures Ask(ctx, s) == Resolve(ctx, s, target.Kind(), target.bytes, port)
  {
    hide Resolve, Pair;
    var head, b := Head(target), s.buffer;
    assert forall k :: 0 <= k < |head| ==> b[k] == b[..|head|][k];
    assert b[0] == 5 && b[1] == 1 && b[2] == 0 && b[3] == target.Kind();
    if target.Name? { assert b[4] == |target.bytes|; }
  }

  /** A greeting that offers no authentication, and a request to connect: having answered
      only the greeting, the session goes on to the destination if the policy allows it
      and a slot is free, and is closed with the reply for each of the refusals if not. */
  lemma HandshakeMeansItsTarget(ctx: Context, methods: seq<Byte>, target: Target, port: Group)
    requires 1 <= |methods| < 256 && 0 in methods && target.Legal() && ctx.idna.Stable()
    ensures var stream := GreetingBytes(methods) + RequestBytes(target, port);
      var raw := match target
        case V4(b) => Some(FormatIpv4(b))
        case V6(b) => Some(Join(FormatGroups(GroupsOf(b)), ':'))
        case Name(b) => ctx.utf8(b);
      var host := if raw.Some? then NormalizeHost(raw.value, ctx.idna) else None;
      AtOnce(ctx, stream) ==
        if host.None? || port == 0 then Session(Closed, [], [5, 0] + Reply(8))
        else if !Verdict(ctx, host.value, port).Allowed() then Session(Closed, [], [5, 0] + Reply(2))
        else if !ctx.slotFree then Session(Closed, [], [5, 0] + Reply(1))
        else Session(Connecting(host.value, port), [], [5, 0])
  {
    hide Verdict, NormalizeHost, RequestBytes, GreetingBytes, FormatIpv4, FormatGroups;
    var kind, host := target.Kind(), target.bytes;
    GreetingIsAnswered(methods, RequestBytes(target, port));
    RequestIsResolved(ctx, [5, 0], target, port);
    if Destination(ctx, kind, host, port).Some? { DestinationIsFixed(ctx, kind, host, port); }
  }

  /** What is not a request to connect is refused as soon as it shows: another version or a
      reserved byte that is not zero with the general failure, another command with reply 7,
      another kind of address, or a name of no length or of more than 253 bytes, with
      reply 8. What follows makes no difference. */
  lemma BadRequestIsAnswered(ctx: Context, methods: seq<Byte>, head: seq<Byte>, rest: seq<Byte>)
    requires 1 <= |methods| < 256 && 0 in methods && |head| == 5
    ensures var r := AtOnce(ctx, GreetingBytes(methods) + (head + rest));
      && (head[0] != 5 || head[2] != 0 ==> r == Session(Closed, [], [5, 0] + Reply(1)))
      && (head[0] == 5 && head[2] == 0 && head[1] != 1 ==> r == Session(Closed, [], [5, 0] + Reply(7)))
      && (head[0] == 5 && head[2] == 0 && head[1] == 1 && head[3] != 1 && head[3] != 3 && head[3] != 4 ==>
            r == Session(Closed, [], [5, 0] + Reply(8)))
      && (head[0] == 5 && head[2] == 0 && head[1] == 1 && head[3] == 3 && (head[4] == 0 || head[4] > 253) ==>
            r == Session(Closed, [], [5, 0] + Reply(8)))
  {
    hide GreetingBytes, Resolve, Pair;
    GreetingIsAnswered(methods, head + rest);
    var b := head + rest;
    assert b[0] == head[0] && b[1] == head[1] && b[2] == head[2] && b[3] == head[3] && b[4] == head[4];
  }

  /** What is not a greeting is dropped without an answer, and so is a handshake that grows
      beyond its limit. */
  lemma BadGreetingIsDropped(ctx: Context, stream: seq<Byte>, s: Session, chunk: seq<Byte>)
    requires |stream| >= 2 && (stream[0] != 5 || stream[1] == 0)
    requires (s.stage.Greeting? || s.stage.Request?) && |s.buffer| + |chunk| > 512
    ensures AtOnce(ctx, stream) == Session(Closed, [], []) && OnData(ctx, s, chunk) == Session(Closed, [], s.sent)
  {
    hide Ask;
  }

  lemma NothingBehind(ctx: Context, methods: seq<Byte>, target: Target, port: Group)
    requires 1 <= |methods| < 256 && target.Legal()
    ensures var stream := GreetingBytes(methods) + RequestBytes(target, port);
      !OverrunsRefusal(ctx, stream) && !GoesOnBehind(ctx, stream)
  {
    hide TurnedDown, WantsSlot;
    GreetingIsAnswered(methods, RequestBytes(target, port));
    RequestParts(target, port);
  }

  /** The same in any chunks, as long as they are at most 512 bytes together, and whatever
      becomes of the attempt to connect. */
  lemma HandshakeInAnyChunks(
      ctx: Context, methods: seq<Byte>, target: Target, port: Group, before: seq<seq<Byte>>, o: Outcome, after: seq<seq<Byte>>)
    requires 1 <= |methods| < 256 && target.Legal() && Timely(ctx, before, after)
    requires Joined(before + after) == GreetingBytes(methods) + RequestBytes(target, port) && |Joined(before + after)| <= MAX_HANDSHAKE_BYTES
    ensures Ending(ctx, before, o, after) == Settle(AtOnce(ctx, GreetingBytes(methods) + RequestBytes(target, port)), o)
    ensures Feed(ctx, START, before + after) == AtOnce(ctx, GreetingBytes(methods) + RequestBytes(target, port))
  {
    hide GoesOnBehind, OverrunsRefusal, Ending, AtOnce;
    NothingBehind(ctx, methods, target, port);
    EndsAlike(ctx, before, o, after);
    FragmentationIsIrrelevant(ctx, before + after);
  }

  /** The destination of an IPv4 request is the address of its four bytes. */
  lemma V4ConnectsToItsBytes(ctx: Context, b: seq<Byte>)
    requires |b| == 4
    ensures NormalizeHost(RawHost(ctx, 1, b).value, ctx.idna) == Some(Ip(Ipv4Address(b)))
  {
    var a := Ipv4Address(b);
    Ipv4TextParses(b);
    AddressTextIsPlain(a);
  }

  /** The destination of an IPv6 request is the address of its sixteen bytes, although it
      is spelled without any compression on the way. */
  lemma V6ConnectsToItsBytes(ctx: Context, b: seq<Byte>)
    requires |b| == 16
    ensures NormalizeHost(RawHost(ctx, 4, b).value, ctx.idna) == Some(Ip(Ipv6Address(b)))
  {
    var groups := GroupsOf(b);
    var t := Join(FormatGroups(groups), ':');
    FormattedParts(groups, true);
    FullDenotes(FormatGroups(groups), groups);
    FullAccepted(FormatGroups(groups), groups);
    BytesGroupsRoundTrip(b);
    GroupsTextChars(groups);
    NothingToTrim(t);
    Ipv6TextIsNoQuad(t);
    ParsedAsIpv6(t, groups);
  }

  lemma GroupsTextChars(groups: seq<Group>)
    requires |groups| == 8
    ensures var t := Join(FormatGroups(groups), ':'); t != [] && ':' in t && forall c :: c in t ==> IsHex(c) || c == ':'
  {
    var parts := FormatGroups(groups);
    var t := Join(parts, ':');
    forall c | c in t ensures IsHex(c) || c == ':' { JoinChars(parts, ':', c); }
    assert t == parts[0] + [':'] + Join(parts[1..], ':');
    assert t[|parts[0]|] == ':';
  }

  /** What a byte behind a request does: it is refused together with the request if it
      comes in one chunk with it; if it comes later, it finds the session closed with the
      reply of a refusal, ends the attempt to connect, or is relayed if that has succeeded. */
  lemma TrailingByteIsNoticedEarlyOrLate(ctx: Context, b: seq<Byte>, port: Group, extra: Byte)
    requires |b| == 4 && ctx.idna.Stable()
    ensures var stream := GreetingBytes([0]) + RequestBytes(V4(b), port);
      var host := Ip(Ipv4Address(b));
      && AtOnce(ctx, stream + [extra]) == Session(Closed, [], [5, 0] + Reply(1))
      && Feed(ctx, START, [stream, [extra]]) ==
           Session(Closed, [], [5, 0] + Reply(if port == 0 then 8 else if !Verdict(ctx, host, port).Allowed() then 2 else 1))
      && (port != 0 && Verdict(ctx, host, port).Allowed() && ctx.slotFree ==>
            Ending(ctx, [stream], Connected, [[extra]]) == Session(Relay(host, port, [extra]), [], [5, 0] + Reply(0)))
  {
    hide Verdict, RequestBytes, Ask, NormalizeHost, Ipv4Address, RawHost, Reply;
    var request := RequestBytes(V4(b), port);
    V4ConnectsToItsBytes(ctx, b);
    RawV4(ctx, b);
    HandshakeMeansItsTarget(ctx, [0], V4(b), port);
    assert GreetingBytes([0]) + request + [extra] == GreetingBytes([0]) + (request + [extra]);
    GreetingIsAnswered([0], request + [extra]);
    LongerRequestIsRefused(ctx, [5, 0], b, port, extra);
    V4Length(b, port);
    FeedTwo(ctx, GreetingBytes([0]) + request, [extra]);
    FeedOne(ctx, START, GreetingBytes([0]) + request);
    AtStart(ctx, GreetingBytes([0]) + request);
    FeedOne(ctx, Settle(AtOnce(ctx, GreetingBytes([0]) + request), Connected), [extra]);
    assert [] + [extra] == [extra];
  }

  lemma RawV4(ctx: Context, b: seq<Byte>)
    requires |b| == 4
    ensures RawHost(ctx, 1, b) == Some(FormatIpv4(b))
  {
  }

  lemma V4Length(b: seq<Byte>, port: Group)
    requires |b| == 4
    ensures |RequestBytes(V4(b), port)| == 10
  {
  }

  /** An input that is treated differently in one piece and in two: a request for port 0,
      and a byte behind it. */
  lemma PortZeroDependsOnFragments(ctx: Context, extra: Byte)
    requires ctx.idna.Stable()
    ensures var stream := GreetingBytes([0]) + RequestBytes(V4([192, 0, 2, 1]), 0);
      && AtOnce(ctx, stream + [extra]).sent == [5, 0] + Reply(1)
      && Feed(ctx, START, [stream, [extra]]).sent == [5, 0] + Reply(8)
  {
    hide AtOnce, Feed, RequestBytes, Verdict;
    TrailingByteIsNoticedEarlyOrLate(ctx, [192, 0, 2, 1], 0, extra);
  }

  lemma LongerRequestIsRefused(ctx: Context, sent: seq<Byte>, b: seq<Byte>, port: Group, extra: Byte)
    requires |b| == 4
    ensures Ask(ctx, Session(Request, RequestBytes(V4(b), port) + [extra], sent)) == Session(Closed, [], sent + Reply(1))
  {
    hide Resolve;
  }

  // ----------------------------------------------------------------------- the object

  /** One accepted connection. Neither of the two parts can be longer
      than the limit by itself, so that its two checks against the limit never fail. */
  class Acceptance {
    const ctx: Context
    var stage: Stage
    var buffer: seq<Byte>
    var sent: seq<Byte>

    ghost function View(): Session
      reads this
    {
      Session(stage, buffer, sent)
    }

    constructor (ctx: Context)
      ensures View() == START && this.ctx == ctx
    {
      this.ctx, stage, buffer, sent := ctx, Greeting, [], [];
    }

    method Refuse(reply: seq<Byte>)
      modifies this
      ensures View() == if old(stage).Closed? then old(View()) else Session(Closed, [], old(sent) + reply)
    {
      if stage.Closed? { return; }
      stage, buffer := Closed, [];
      sent := sent + reply;
    }

    method TakeGreeting()
      requires stage.Greeting?
      modifies this
      ensures View() == Greet(old(View()))
    {
      if |buffer| < 2 { return; }
      var methods := buffer[1];
      if buffer[0] != 5 || methods < 1 { Refuse([]); return; }
      var length := 2 + methods as int;
      assert length <= MAX_HANDSHAKE_BYTES;
      if |buffer| < length { return; }
      var offered := buffer[2..length];
      buffer := buffer[length..];
      if 0 !in offered { Refuse([5, 0xff]); return; }
      sent := sent + [5, 0];
      stage := Request;
    }

    method TakeRequest()
      requires stage.Request?
      modifies this
      ensures View() == Ask(ctx, old(View()))
    {
      hide Resolve, Reply, Pair;
      if |buffer| < 4 { return; }
      if buffer[0] != 5 || buffer[2] != 0 { Refuse(Reply(1)); return; }
      if buffer[1] != 1 { Refuse(Reply(7)); return; }
      var kind := buffer[3];
      var offset: int := 4;
      var hostLength: int := 0;
      if kind == 1 { hostLength := 4; }
      else if kind == 4 { hostLength := 16; }
      else if kind == 3 {
        if |buffer| < 5 { return; }
        hostLength, offset := buffer[4] as int, 5;
        if hostLength < 1 || hostLength > 253 { Refuse(Reply(8)); return; }
      } else { Refuse(Reply(8)); return; }
      var total := offset + hostLength + 2;
      assert total <= MAX_HANDSHAKE_BYTES;
      if |buffer| < total { return; }
      if |buffer| != total { Refuse(Reply(1)); return; }
      Target(kind, buffer[offset..offset + hostLength], Pair(buffer[total - 2], buffer[total - 1]));
    }

    method Target(kind: Byte, host: seq<Byte>, port: nat)
      requires stage.Request?
      modifies this
      ensures View() == Resolve(ctx, old(View()), kind, host, port)
    {
      hide Verdict;
      var raw := RawHost(ctx, kind, host);
      if raw.None? { Refuse(Reply(8)); return; }
      var name := NormalizeHost(raw.value, ctx.idna);
      if name.None? || port == 0 { Refuse(Reply(8)); return; }
      Connect(name.value, port);
    }

    // `#connect` up to its first await; a decision that throws leaves the session waiting.
    method Connect(host: Host, port: nat)
      requires stage.Request?
      modifies this
      ensures View() == Dial(ctx, old(View()), host, port)
    {
      hide Verdict;
      buffer := [];
      stage := Connecting(host, port);
      var decision := Verdict(ctx, host, port);
      if !decision.Decided? { return; }
      if !decision.Allowed() { Refuse(Reply(DenialReply(decision.reason))); return; }
      if !ctx.slotFree { Refuse(Reply(1)); }
    }

    method TakeData(chunk: seq<Byte>)
      modifies this
      ensures View() == OnData(ctx, old(View()), chunk)
    {
      if stage.Connecting? { Refuse(Reply(1)); return; }
      if stage.Relay? {
        stage := stage.(passed := stage.passed + chunk);
        return;
      }
      if stage.Closed? { return; }
      if |buffer| + |chunk| > MAX_HANDSHAKE_BYTES { Refuse([]); return; }
      buffer := buffer + chunk;
      if stage.Greeting? { TakeGreeting(); }
      if stage.Request? { TakeRequest(); }
    }

    // `#connect` after its await.
    method TakeOutcome(o: Outcome)
      requires stage.Connecting? || stage.Closed?
      modifies this
      ensures View() == Settle(old(View()), o)
    {
      if stage.Closed? { return; }
      match o
      case Connected =>
        sent, buffer := sent + Reply(0), [];
        stage := Relay(stage.host, stage.port, []);
      case ConnectFailed(code) => Refuse(Reply(code));
    }
  }
}
