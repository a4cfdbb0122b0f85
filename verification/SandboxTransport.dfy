/** The sandbox transport: length-prefixed frames, decoded from fragments of any size, and
    file contents that travel as a series of base64 chunks. The limits of the two layers
    have to fit together. */
module SandboxTransport {
  import opened Bytes
  import opened Text
  import Base64

  const MAX_FRAME_BYTES := 1024 * 1024
  const MAX_ASSEMBLED_BYTES := 16 * 1024 * 1024
  const MAX_RAW_CHUNK_BYTES := 767 * 1024
  const PREFIX_BYTES := 4

  // The quotient of the two limits, rounded up.
  const MAX_CHUNK_SEQUENCE := (MAX_ASSEMBLED_BYTES + MAX_RAW_CHUNK_BYTES - 1) / MAX_RAW_CHUNK_BYTES

  // ---------------------------------------------------------------------------- frames

  /** The frames that carry data, spelled out; any other is known by its serialization. */
  datatype Frame =
    | ChunkFrame(id: string, sequence: nat, data: string)
    | EndFrame(id: string, bytes: nat, sha256: string)
    | OtherFrame(payload: seq<Byte>)

  function Decimal(n: nat): (s: string)
    ensures s != [] && forall k :: 0 <= k < |s| ==> IsDigit(s[k])
  {
    if n < 10 then [Digit(n)] else Decimal(n / 10) + [Digit(n % 10)]
  }

  // The fixed parts of the serializations.
  function ChunkOpening(): (s: string) ensures |s| == 30 { "{\"type\":\"request.chunk\",\"id\":\"" }
  function SequenceField(): (s: string) ensures |s| == 13 { "\",\"sequence\":" }
  function DataField(): (s: string) ensures |s| == 29 { ",\"encoding\":\"base64\",\"data\":\"" }
  function Closing(): (s: string) ensures |s| == 2 { "\"}" }
  function EndOpening(): (s: string) ensures |s| == 28 { "{\"type\":\"request.end\",\"id\":\"" }
  function BytesField(): (s: string) ensures |s| == 10 { "\",\"bytes\":" }
  function DigestField(): (s: string) ensures |s| == 11 { ",\"sha256\":\"" }

  function ChunkText(id: string, sequence: nat, data: string): string {
    ChunkOpening() + id + SequenceField() + Decimal(sequence) + DataField() + data + Closing()
  }

  function EndText(id: string, bytes: nat, sha256: string): string {
    EndOpening() + id + BytesField() + Decimal(bytes) + DigestField() + sha256 + Closing()
  }

  // The bytes of a text without characters beyond ASCII.
  function AsciiBytes(s: string): (b: seq<Byte>)
    ensures |b| == |s|
  {
    seq(|s|, k requires 0 <= k < |s| => if s[k] < 128 as char then s[k] as int else 63)
  }

  function Payload(f: Frame): seq<Byte> {
    match f
    case ChunkFrame(id, sequence, data) => AsciiBytes(ChunkText(id, sequence, data))
    case EndFrame(id, bytes, sha256) => AsciiBytes(EndText(id, bytes, sha256))
    case OtherFrame(payload) => payload
  }

  // Four digits to the base 256, the highest first.
  function Prefix(n: nat): (p: seq<Byte>)
    requires n < 0x1_0000_0000
    ensures |p| == PREFIX_BYTES && Length(p) == n
  {
    var (b, c) := (n / 256, n / 256 / 256);
    [c / 256, c % 256, b % 256, n % 256]
  }

  function Length(p: seq<Byte>): nat
    requires |p| == PREFIX_BYTES
  {
    ((p[0] as int * 256 + p[1] as int) * 256 + p[2] as int) * 256 + p[3] as int
  }

  predicate Encodable(f: Frame) { 0 < |Payload(f)| <= MAX_FRAME_BYTES }

  /** `encodeSandboxFrame` */
  function EncodeFrame(f: Frame): (r: Option<seq<Byte>>)
    ensures r.Some? <==> Encodable(f)
  {
    var payload := Payload(f);
    if |payload| == 0 || |payload| > MAX_FRAME_BYTES then None else Some(Prefix(|payload|) + payload)
  }

  // ------------------------------------------------------------------ what a stream means

  /** The frames of a stream so far and the bytes of the next one; or the stream is bad. */
  datatype Parsed = Waiting(frames: seq<Frame>, rest: seq<Byte>) | Broken

  function Ahead(frames: seq<Frame>, p: Parsed): Parsed {
    match p
    case Broken => Broken
    case Waiting(more, rest) => Waiting(frames + more, rest)
  }

  // More bytes after what has been read.
  function Continued(read: Reader, p: Parsed, more: seq<Byte>): Parsed {
    match p
    case Broken => Broken
    case Waiting(frames, rest) => Ahead(frames, Parse(read, rest + more))
  }

  // What becomes of a payload: parsing and the schema check.
  type Reader = seq<Byte> -> Option<Frame>

  predicate GoodLength(n: nat) { 0 < n <= MAX_FRAME_BYTES }

  function Parse(read: Reader, stream: seq<Byte>): Parsed
    decreases |stream|
  {
    if |stream| < PREFIX_BYTES then Waiting([], stream)
    else
      var n := Length(stream[..PREFIX_BYTES]);
      if !GoodLength(n) then Broken
      else if |stream| < PREFIX_BYTES + n then Waiting([], stream)
      else
        match read(stream[PREFIX_BYTES..PREFIX_BYTES + n])
        case None => Broken
        case Some(frame) => Ahead([frame], Parse(read, stream[PREFIX_BYTES + n..]))
  }

  // The start of a stream that is not yet a whole frame, and not bad either.
  predicate Incomplete(pending: seq<Byte>) {
    |pending| >= PREFIX_BYTES ==>
      GoodLength(Length(pending[..PREFIX_BYTES])) && |pending| < PREFIX_BYTES + Length(pending[..PREFIX_BYTES])
  }

  lemma IncompleteWaits(read: Reader, pending: seq<Byte>)
    requires Incomplete(pending)
    ensures Parse(read, pending) == Waiting([], pending)
  {
  }

  lemma AheadTwice(a: seq<Frame>, b: seq<Frame>, p: Parsed)
    ensures Ahead(a, Ahead(b, p)) == Ahead(a + b, p) && Ahead([], p) == p
  {
    if p.Waiting? { assert a + (b + p.frames) == (a + b) + p.frames; }
  }

  // A whole frame in front of anything.
  lemma FrameInFront(read: Reader, prefix: seq<Byte>, payload: seq<Byte>, rest: seq<Byte>)
    requires |prefix| == PREFIX_BYTES && GoodLength(Length(prefix)) && |payload| == Length(prefix)
    ensures Parse(read, prefix + payload + rest) ==
            if read(payload).None? then Broken else Ahead([read(payload).value], Parse(read, rest))
  {
    var s := prefix + payload + rest;
    assert s[..PREFIX_BYTES] == prefix;
    assert s[PREFIX_BYTES..PREFIX_BYTES + |payload|] == payload;
    assert s[PREFIX_BYTES + |payload|..] == rest;
  }

  lemma BadLengthInFront(read: Reader, prefix: seq<Byte>, rest: seq<Byte>)
    requires |prefix| == PREFIX_BYTES && !GoodLength(Length(prefix))
    ensures Parse(read, prefix + rest) == Broken
  {
    assert (prefix + rest)[..PREFIX_BYTES] == prefix;
  }

  /** Reading a stream in two parts is reading it at once. */
  lemma {:induction false} ParseInParts(read: Reader, a: seq<Byte>, b: seq<Byte>)
    ensures Parse(read, a + b) == Continued(read, Parse(read, a), b)
    decreases |a|
  {
    if Incomplete(a) {
      IncompleteWaits(read, a);
      AheadTwice([], [], Parse(read, a + b));
    } else {
      var prefix := a[..PREFIX_BYTES];
      var n := Length(prefix);
      if !GoodLength(n) {
        assert a + b == prefix + (a[PREFIX_BYTES..] + b);
        BadLengthInFront(read, prefix, a[PREFIX_BYTES..] + b);
      } else {
        WholeFrameInParts(read, a, b);
      }
    }
  }

  lemma WholeFrameInParts(read: Reader, a: seq<Byte>, b: seq<Byte>)
    requires |a| >= PREFIX_BYTES && GoodLength(Length(a[..PREFIX_BYTES])) && |a| >= PREFIX_BYTES + Length(a[..PREFIX_BYTES])
    ensures Parse(read, a + b) == Continued(read, Parse(read, a), b)
    decreases |a|, 0
  {
    var prefix := a[..PREFIX_BYTES];
    var payload, tail := a[PREFIX_BYTES..PREFIX_BYTES + Length(prefix)], a[PREFIX_BYTES + Length(prefix)..];
    assert a == prefix + payload + tail && a + b == prefix + payload + (tail + b);
    FrameInFront(read, prefix, payload, tail);
    FrameInFront(read, prefix, payload, tail + b);
    ParseInParts(read, tail, b);
    if read(payload).Some? && Parse(read, tail).Waiting? {
      var later := Parse(read, tail);
      AheadTwice([read(payload).value], later.frames, Parse(read, later.rest + b));
    }
  }

  // ------------------------------------------------------------------ streams of frames

  ghost predicate Sendable(read: Reader, frames: seq<Frame>) {
    forall k :: 0 <= k < |frames| ==> Encodable(frames[k]) && read(Payload(frames[k])) == Some(frames[k])
  }

  // What is sent; a frame that cannot be encoded is not.
  function Stream(frames: seq<Frame>): seq<Byte> {
    if frames == [] then [] else Or(EncodeFrame(frames[0]), []) + Stream(frames[1..])
  }

  lemma EncodedInFront(read: Reader, f: Frame, rest: seq<Byte>)
    requires Encodable(f) && read(Payload(f)) == Some(f)
    ensures Parse(read, EncodeFrame(f).value + rest) == Ahead([f], Parse(read, rest))
  {
    FrameInFront(read, Prefix(|Payload(f)|), Payload(f), rest);
  }

  /** A stream of encoded frames, cut off inside the next frame or not at all, is read as
      exactly those frames; and it ends at a frame boundary exactly if it was not cut. */
  lemma {:induction false} StreamIsRead(read: Reader, frames: seq<Frame>, next: Frame, part: seq<Byte>)
    requires Sendable(read, frames) && Encodable(next) && part <= EncodeFrame(next).value && part != EncodeFrame(next).value
    ensures Parse(read, Stream(frames) + part) == Waiting(frames, part)
    decreases |frames|
  {
    hide Parse, EncodeFrame;
    if frames == [] {
      assert [] + part == part;
      PartIsIncomplete(next, part);
      IncompleteWaits(read, part);
    } else {
      StreamIsRead(read, frames[1..], next, part);
      assert Stream(frames) + part == EncodeFrame(frames[0]).value + (Stream(frames[1..]) + part);
      EncodedInFront(read, frames[0], Stream(frames[1..]) + part);
      assert [frames[0]] + frames[1..] == frames;
    }
  }

  lemma PartIsIncomplete(f: Frame, part: seq<Byte>)
    requires Encodable(f) && part <= EncodeFrame(f).value && part != EncodeFrame(f).value
    ensures Incomplete(part)
  {
    if |part| >= PREFIX_BYTES {
      assert part[..PREFIX_BYTES] == EncodeFrame(f).value[..PREFIX_BYTES] == Prefix(|Payload(f)|);
    }
  }

  // ----------------------------------------------------------------- the decoder object

  datatype TurnResult = NeedsMore | Complete(frame: Frame) | Bad

  class SandboxFrameDecoder {
    const read: Reader
    const prefix: array<Byte>
    var prefixBytes: nat
    var payload: array?<Byte>
    var payloadBytes: nat

    ghost predicate Valid()
      reads this, prefix, payload
    {
      && prefix.Length == PREFIX_BYTES && prefixBytes < PREFIX_BYTES
      && (payload != null ==> payload != prefix && prefixBytes == 0 && payloadBytes < payload.Length &&
                              GoodLength(payload.Length) && Length(prefix[..]) == payload.Length)
    }

    /** The bytes of the frame that is not complete yet. */
    ghost function Pending(): seq<Byte>
      reads this, prefix, payload
      requires Valid()
    {
      if payload == null then prefix[..prefixBytes] else prefix[..] + payload[..payloadBytes]
    }

    constructor (read: Reader)
      ensures Valid() && Pending() == [] && this.read == read
      ensures fresh(prefix) && payload == null
    {
      this.read := read;
      prefix := new Byte[PREFIX_BYTES](_ => 0);
      prefixBytes, payload, payloadBytes := 0, null, 0;
    }

    lemma PendingIsIncomplete()
      requires Valid()
      ensures Incomplete(Pending())
    {
      if payload != null { assert Pending()[..PREFIX_BYTES] == prefix[..]; }
    }

    // Complete the length first, and check it before room is made for the payload.
    method ReadPrefix(source: seq<Byte>, from: nat) returns (ok: bool, offset: nat)
      requires Valid() && payload == null && from < |source|
      modifies this, prefix
      ensures ok ==> Valid() && (payload != null ==> fresh(payload)) && from <= offset <= |source| && (payload == null ==> offset == |source|)
      ensures ok ==> Pending() + source[offset..] == old(Pending()) + source[from..]
      ensures !ok ==> Parse(read, old(Pending()) + source[from..]) == Broken
    {
      var take := Min(PREFIX_BYTES - prefixBytes, |source| - from);
      ghost var all := prefix[..prefixBytes] + source[from..];
      forall k | 0 <= k < take { prefix[prefixBytes + k] := source[from + k]; }
      prefixBytes := prefixBytes + take;
      offset := from + take;
      assert prefix[..prefixBytes] + source[offset..] == all;
      if prefixBytes < PREFIX_BYTES { return true, offset; }
      assert prefix[..] + source[offset..] == all;
      var length := Length(prefix[..]);
      prefixBytes := 0;
      if !GoodLength(length) {
        BadLengthInFront(read, prefix[..], source[offset..]);
        return false, offset;
      }
      payload := new Byte[length](_ => 0);
      payloadBytes := 0;
      assert prefix[..] + payload[..0] == prefix[..];
      ok := true;
    }

    method ReadPayload(source: seq<Byte>, from: nat) returns (complete: Option<seq<Byte>>, offset: nat)
      requires Valid() && payload != null && from <= |source|
      modifies this, payload
      ensures Valid() && from <= offset <= |source| && prefix[..] == old(prefix[..])
      ensures complete.None? ==> offset == |source| && payload == old(payload) && Pending() == old(Pending()) + source[from..]
      ensures complete.Some? ==>
        && payload == null && Pending() == [] && |complete.value| == Length(prefix[..]) && GoodLength(Length(prefix[..]))
        && old(Pending()) + source[from..] == prefix[..] + complete.value + source[offset..]
    {
      var take := Min(payload.Length - payloadBytes, |source| - from);
      ghost var held := payload[..payloadBytes];
      var target := payload;
      forall k | 0 <= k < take { target[payloadBytes + k] := source[from + k]; }
      payloadBytes := payloadBytes + take;
      offset := from + take;
      assert payload[..payloadBytes] == held + source[from..offset];
      assert source[from..] == source[from..offset] + source[offset..];
      if payloadBytes != payload.Length {
        assert offset == |source| && source[from..offset] == source[from..];
        assert prefix[..] + (held + source[from..]) == (prefix[..] + held) + source[from..];
        return None, offset;
      }
      assert payload[..payloadBytes] == payload[..];
      assert (prefix[..] + held) + source[from..] == prefix[..] + payload[..] + source[offset..];
      complete := Some(payload[..]);
      payload := null;
      payloadBytes := 0;
    }

    // One turn of the loop of `push`.
    method Turn(source: seq<Byte>, from: nat) returns (r: TurnResult, offset: nat)
      requires Valid() && from < |source|
      modifies this, prefix, payload
      ensures !r.Bad? ==> Valid() && from <= offset <= |source| && (payload == null || payload == old(payload) || fresh(payload))
      ensures r.NeedsMore? ==> offset == |source| && Pending() == old(Pending()) + source[from..]
      ensures r.Complete? ==> from < offset && Pending() == []
      ensures r.Complete? ==> Parse(read, old(Pending()) + source[from..]) == Ahead([r.frame], Parse(read, source[offset..]))
      ensures r.Bad? ==> Parse(read, old(Pending()) + source[from..]) == Broken
    {
      hide Parse, Ahead;
      offset := from;
      ghost var all := Pending() + source[from..];
      if payload == null {
        var ok;
        ok, offset := ReadPrefix(source, offset);
        if !ok { return Bad, offset; }
        assert Pending() + source[offset..] == all;
        if payload == null {
          assert source[offset..] == [];
          return NeedsMore, offset;
        }
      }
      ghost var before := offset;
      var complete;
      complete, offset := ReadPayload(source, offset);
      if complete.None? { return NeedsMore, offset; }
      FrameInFront(read, prefix[..], complete.value, source[offset..]);
      var value := read(complete.value);
      r := if value.None? then Bad else Complete(value.value);
    }

    /** `push`: whatever the bytes pending and whatever the new ones, the frames are those
        that the bytes together contain; a bad frame anywhere in them is an error. */
    method Push(source: seq<Byte>) returns (ok: bool, frames: seq<Frame>)
      requires Valid()
      modifies this, prefix, payload
      ensures ok <==> Parse(read, old(Pending()) + source).Waiting?
      ensures ok ==> Valid() && Parse(read, old(Pending()) + source) == Waiting(frames, Pending())
      ensures ok ==> payload == null || payload == old(payload) || fresh(payload)
    {
      hide Parse;
      frames := [];
      var offset := 0;
      ghost var goal := Parse(read, Pending() + source);
      AheadTwice([], [], goal);
      assert source[0..] == source;
      while offset < |source|
        invariant Valid() && offset <= |source| && (payload == null || payload == old(payload) || fresh(payload))
        invariant goal == Ahead(frames, Parse(read, Pending() + source[offset..]))
      {
        var turn, next := Turn(source, offset);
        if turn.Bad? { return false, []; }
        offset := next;
        if turn.NeedsMore? {
          assert Pending() + source[offset..] == Pending();
        } else {
          AheadTwice(frames, [turn.frame], Parse(read, source[offset..]));
          assert Pending() + source[offset..] == source[offset..];
          frames := frames + [turn.frame];
        }
      }
      assert Pending() + source[offset..] == Pending();
      PendingIsIncomplete();
      IncompleteWaits(read, Pending());
      ok := true;
    }

    /** `end` succeeds exactly at a frame boundary. */
    method End() returns (ok: bool)
      requires Valid()
      ensures ok <==> Pending() == []
    {
      ok := prefixBytes == 0 && payload == null;
    }
  }

  /** Any fragmentation of a stream gives the same frames, and the same error. */
  method PushAll(decoder: SandboxFrameDecoder, fragments: seq<seq<Byte>>) returns (ok: bool, frames: seq<Frame>)
    requires decoder.Valid() && decoder.Pending() == []
    modifies decoder, decoder.prefix, decoder.payload
    ensures ok <==> Parse(decoder.read, Joined(fragments)).Waiting?
    ensures ok ==> decoder.Valid() && Parse(decoder.read, Joined(fragments)) == Waiting(frames, decoder.Pending())
  {
    hide Parse;
    frames := [];
    ghost var goal := Parse(decoder.read, Joined(fragments));
    assert fragments[0..] == fragments;
    AheadTwice([], [], goal);
    assert decoder.Pending() + Joined(fragments) == Joined(fragments);
    for k := 0 to |fragments|
      invariant decoder.Valid() && (decoder.payload == null || decoder.payload == old(decoder.payload) || fresh(decoder.payload))
      invariant goal == Ahead(frames, Parse(decoder.read, decoder.Pending() + Joined(fragments[k..])))
    {
      ghost var pending := decoder.Pending();
      assert fragments[k..][1..] == fragments[k + 1..];
      assert pending + Joined(fragments[k..]) == (pending + fragments[k]) + Joined(fragments[k + 1..]);
      ParseInParts(decoder.read, pending + fragments[k], Joined(fragments[k + 1..]));
      var good, more := decoder.Push(fragments[k]);
      if !good { return false, []; }
      AheadTwice(frames, more, Parse(decoder.read, decoder.Pending() + Joined(fragments[k + 1..])));
      frames := frames + more;
    }
    assert decoder.Pending() + Joined(fragments[|fragments|..]) == decoder.Pending();
    decoder.PendingIsIncomplete();
    IncompleteWaits(decoder.read, decoder.Pending());
    ok := true;
  }

  // ----------------------------------------------------------------------------- chunks

  datatype Chunk = Chunk(sequence: nat, data: string)

  /** `chunkBuffer` for base64, as a function: pieces of the largest raw size, numbered. */
  function Chunked(data: seq<Byte>, sequence: nat): seq<Chunk>
    decreases |data|
  {
    if data == [] then []
    else
      var n := Min(|data|, MAX_RAW_CHUNK_BYTES);
      [Chunk(sequence, Base64.Encode(data[..n]))] + Chunked(data[n..], sequence + 1)
  }

  method ChunkBuffer(data: seq<Byte>) returns (chunks: seq<Chunk>)
    ensures chunks == Chunked(data, 0)
  {
    hide Chunked;
    chunks := [];
    var offset, sequence := 0, 0;
    assert data[0..] == data;
    ghost var goal := Chunked(data, 0);
    if data == [] { NoChunks(); }
    while offset < |data|
      invariant 0 <= offset && sequence >= 0
      invariant goal == chunks + (if offset < |data| then Chunked(data[offset..], sequence) else [])
      decreases |data| - offset
    {
      var end := Min(|data|, offset + MAX_RAW_CHUNK_BYTES);
      var chunk := data[offset..end];
      ChunkedStep(data, offset, end, sequence);
      chunks := chunks + [Chunk(sequence, Base64.Encode(chunk))];
      offset := offset + MAX_RAW_CHUNK_BYTES;
      sequence := sequence + 1;
    }
  }

  lemma NoChunks()
    ensures Chunked([], 0) == []
  {
  }

  lemma ChunkedStep(data: seq<Byte>, offset: nat, end: nat, sequence: nat)
    requires offset < |data| && end == Min(|data|, offset + MAX_RAW_CHUNK_BYTES)
    ensures Chunked(data[offset..], sequence) ==
            [Chunk(sequence, Base64.Encode(data[offset..end]))] +
            (if offset + MAX_RAW_CHUNK_BYTES < |data| then Chunked(data[offset + MAX_RAW_CHUNK_BYTES..], sequence + 1) else [])
  {
    var rest, n := data[offset..], end - offset;
    assert rest[..n] == data[offset..end];
    assert rest[n..] == data[end..];
  }

  /** What an assembler has taken so far. */
  datatype Assembly = Assembly(sequence: nat, data: seq<Byte>)

  const EMPTY := Assembly(0, [])

  /** `OrderedChunkAssembler.push` */
  function Take(a: Assembly, c: Chunk): Option<Assembly> {
    if c.sequence != a.sequence || a.sequence > MAX_CHUNK_SEQUENCE then None
    else match Base64.Decode(c.data)
      case None => None
      case Some(raw) =>
        if |raw| > MAX_RAW_CHUNK_BYTES || |a.data| + |raw| > MAX_ASSEMBLED_BYTES then None
        else Some(Assembly(a.sequence + 1, a.data + raw))
  }

  function TakeAll(a: Assembly, chunks: seq<Chunk>): Option<Assembly>
    decreases |chunks|
  {
    if chunks == [] then Some(a)
    else match Take(a, chunks[0])
      case None => None
      case Some(next) => TakeAll(next, chunks[1..])
  }

  // The bytes that chunks carry, one after another.
  function DataOf(chunks: seq<Chunk>): (data: Option<seq<Byte>>)
    decreases |chunks|
  {
    if chunks == [] then Some([])
    else match Base64.Decode(chunks[0].data)
      case None => None
      case Some(raw) => Prepend(raw, DataOf(chunks[1..]))
  }

  // A chunk of this number that decodes and is not too large.
  predicate IsChunk(c: Chunk, sequence: nat) {
    && c.sequence == sequence <= MAX_CHUNK_SEQUENCE
    && Base64.Decode(c.data).Some? && |Base64.Decode(c.data).value| <= MAX_RAW_CHUNK_BYTES
  }

  predicate InSequence(chunks: seq<Chunk>, from: nat) { forall i :: 0 <= i < |chunks| ==> IsChunk(chunks[i], from + i) }

  lemma TakenExactlyWhen(a: Assembly, c: Chunk)
    ensures Take(a, c).Some? <==> IsChunk(c, a.sequence) && |a.data| + |Base64.Decode(c.data).value| <= MAX_ASSEMBLED_BYTES
    ensures Take(a, c).Some? ==> Take(a, c).value == Assembly(a.sequence + 1, a.data + Base64.Decode(c.data).value)
    ensures IsChunk(c, a.sequence) ==> Base64.Decode(c.data).Some?
  {
    hide Base64.Decode;
  }

  lemma SequenceStep(chunks: seq<Chunk>, from: nat)
    requires chunks != []
    ensures InSequence(chunks, from) <==> IsChunk(chunks[0], from) && InSequence(chunks[1..], from + 1)
  {
    hide IsChunk;
    if IsChunk(chunks[0], from) && InSequence(chunks[1..], from + 1) {
      forall i | 0 <= i < |chunks| ensures IsChunk(chunks[i], from + i) {
        if i > 0 { assert IsChunk(chunks[1..][i - 1], from + 1 + (i - 1)); }
      }
    }
    if InSequence(chunks, from) {
      forall i | 0 <= i < |chunks[1..]| ensures IsChunk(chunks[1..][i], from + 1 + i) { assert IsChunk(chunks[i + 1], from + (i + 1)); }
    }
  }

  /** Chunks are assembled exactly if they are numbered in order without a gap or repetition,
      each of them decodes and is not too large, nor are all of them together; and then the
      data is what they carry, in order. Anything else is refused. */
  lemma {:induction false} AssembledExactlyWhen(a: Assembly, chunks: seq<Chunk>)
    requires |a.data| <= MAX_ASSEMBLED_BYTES
    ensures TakeAll(a, chunks).Some? <==>
            InSequence(chunks, a.sequence) && DataOf(chunks).Some? && |a.data| + |DataOf(chunks).value| <= MAX_ASSEMBLED_BYTES
    ensures TakeAll(a, chunks).Some? ==> TakeAll(a, chunks).value == Assembly(a.sequence + |chunks|, a.data + DataOf(chunks).value)
    decreases |chunks|
  {
    hide Take, InSequence, IsChunk, Base64.Decode;
    if chunks == [] {
      assert a.data + [] == a.data;
      NothingOutOfSequence(a.sequence);
    } else {
      TakenExactlyWhen(a, chunks[0]);
      SequenceStep(chunks, a.sequence);
      if Take(a, chunks[0]).Some? {
        var next := Take(a, chunks[0]).value;
        AssembledExactlyWhen(next, chunks[1..]);
        if DataOf(chunks[1..]).Some? {
          assert next.data + DataOf(chunks[1..]).value == a.data + (Base64.Decode(chunks[0].data).value + DataOf(chunks[1..]).value);
        }
      }
    }
  }

  lemma NothingOutOfSequence(from: nat)
    ensures InSequence([], from)
  {
  }

  // Before the last chunk, every chunk taken was full.
  predicate OnGrid(a: Assembly) { |a.data| == a.sequence * MAX_RAW_CHUNK_BYTES }

  lemma FewFullChunks(sequence: nat, size: nat)
    requires sequence * MAX_RAW_CHUNK_BYTES == size < MAX_ASSEMBLED_BYTES
    ensures sequence < MAX_CHUNK_SEQUENCE
  {
  }

  lemma ChunkedHead(data: seq<Byte>, sequence: nat, n: nat)
    requires data != [] && n == Min(|data|, MAX_RAW_CHUNK_BYTES)
    ensures Chunked(data, sequence) == [Chunk(sequence, Base64.Encode(data[..n]))] + Chunked(data[n..], sequence + 1)
  {
  }

  lemma TakeHead(a: Assembly, c: Chunk, rest: seq<Chunk>)
    ensures Take(a, c).Some? ==> TakeAll(a, [c] + rest) == TakeAll(Take(a, c).value, rest)
  {
    assert ([c] + rest)[1..] == rest;
  }

  lemma TakeEncoded(a: Assembly, raw: seq<Byte>)
    requires OnGrid(a) && 0 < |raw| <= MAX_RAW_CHUNK_BYTES && |a.data| + |raw| <= MAX_ASSEMBLED_BYTES
    ensures Take(a, Chunk(a.sequence, Base64.Encode(raw))) == Some(Assembly(a.sequence + 1, a.data + raw))
    ensures a.sequence < MAX_CHUNK_SEQUENCE
  {
    hide Base64.Encode, Base64.Decode;
    FewFullChunks(a.sequence, |a.data|);
    Base64.RoundTrip(raw);
  }

  lemma ChunkInFront(a: Assembly, data: seq<Byte>, n: nat, result: Assembly)
    requires OnGrid(a) && data != [] && n == Min(|data|, MAX_RAW_CHUNK_BYTES) && |a.data| + n <= MAX_ASSEMBLED_BYTES
    requires TakeAll(Assembly(a.sequence + 1, a.data + data[..n]), Chunked(data[n..], a.sequence + 1)) == Some(result)
    ensures TakeAll(a, Chunked(data, a.sequence)) == Some(result)
  {
    hide Take, TakeAll, Chunked, Base64.Encode;
    var raw, rest := data[..n], data[n..];
    TakeEncoded(a, raw);
    ChunkedHead(data, a.sequence, n);
    TakeHead(a, Chunk(a.sequence, Base64.Encode(raw)), Chunked(rest, a.sequence + 1));
  }

  lemma StillOnGrid(a: Assembly, raw: seq<Byte>)
    requires OnGrid(a) && |raw| == MAX_RAW_CHUNK_BYTES
    ensures OnGrid(Assembly(a.sequence + 1, a.data + raw))
  {
  }

  /** The chunks of any data of at most 16 MiB are all accepted -- none is too large, they
      are not too many, and together they are not too much -- and give the data back. */
  lemma {:induction false} ChunksAssemble(a: Assembly, data: seq<Byte>)
    requires OnGrid(a) && a.sequence <= MAX_CHUNK_SEQUENCE && |a.data| + |data| <= MAX_ASSEMBLED_BYTES
    ensures var r := TakeAll(a, Chunked(data, a.sequence));
      r.Some? && r.value.data == a.data + data && r.value.sequence <= MAX_CHUNK_SEQUENCE
    decreases |data|
  {
    hide TakeAll, Chunked, OnGrid;
    if data == [] {
      NothingLeft(a);
      assert a.data + data == a.data;
    } else {
      var n := Min(|data|, MAX_RAW_CHUNK_BYTES);
      var raw, rest := data[..n], data[n..];
      var next := Assembly(a.sequence + 1, a.data + raw);
      assert next.data + rest == a.data + data;
      TakeEncoded(a, raw);
      if rest == [] {
        NothingLeft(next);
        ChunkInFront(a, data, n, next);
      } else {
        StillOnGrid(a, raw);
        ChunksAssemble(next, rest);
        ChunkInFront(a, data, n, TakeAll(next, Chunked(rest, next.sequence)).value);
      }
    }
  }

  lemma NothingLeft(a: Assembly)
    ensures TakeAll(a, Chunked([], a.sequence)) == Some(a)
  {
  }

  class OrderedChunkAssembler {
    const sha: seq<Byte> -> string
    var sequence: nat
    var bytes: nat
    var chunks: seq<seq<Byte>>

    ghost predicate Valid()
      reads this
    {
      bytes == |Joined(chunks)| && bytes <= MAX_ASSEMBLED_BYTES
    }

    ghost function View(): Assembly
      reads this
    {
      Assembly(sequence, Joined(chunks))
    }

    constructor (sha: seq<Byte> -> string)
      ensures Valid() && View() == EMPTY && this.sha == sha
    {
      this.sha, sequence, bytes, chunks := sha, 0, 0, [];
    }

    method Push(c: Chunk) returns (ok: bool)
      requires Valid()
      modifies this
      ensures Valid()
      ensures var next := Take(old(View()), c); ok == next.Some? && View() == if ok then next.value else old(View())
    {
      if c.sequence != sequence { return false; }
      if sequence > MAX_CHUNK_SEQUENCE { return false; }
      var chunk := Base64.Decode(c.data);
      if chunk.None? || |chunk.value| > MAX_RAW_CHUNK_BYTES { return false; }
      if bytes + |chunk.value| > MAX_ASSEMBLED_BYTES { return false; }
      sequence := sequence + 1;
      bytes := bytes + |chunk.value|;
      JoinedOneMore(chunks, chunk.value);
      chunks := chunks + [chunk.value];
      ok := true;
    }

    method Finish(count: nat, digest: string) returns (r: Option<seq<Byte>>)
      requires Valid()
      ensures r == Finished(sha, View(), count, digest)
      ensures r.Some? <==> count == |View().data| && digest == sha(View().data)
      ensures r.Some? ==> r.value == View().data
    {
      var data := Joined(chunks);
      if count != bytes || digest != sha(data) { return None; }
      r := Some(data);
    }
  }

  function Finished(sha: seq<Byte> -> string, a: Assembly, count: nat, digest: string): Option<seq<Byte>> {
    if count != |a.data| || digest != sha(a.data) then None else Some(a.data)
  }

  lemma {:induction false} JoinedOneMore(chunks: seq<seq<Byte>>, chunk: seq<Byte>)
    ensures Joined(chunks + [chunk]) == Joined(chunks) + chunk
  {
    if chunks == [] {
      assert Joined([chunk]) == chunk + Joined([chunk][1..]);
    } else {
      assert (chunks + [chunk])[1..] == chunks[1..] + [chunk];
      JoinedOneMore(chunks[1..], chunk);
    }
  }

  // ---------------------------------------------------- frames that may be sent

  const MAX_SAFE_INTEGER := 9007199254740991

  predicate IdChar(c: char) { 'A' <= c <= 'Z' || 'a' <= c <= 'z' || IsDigit(c) || c == '_' || c == '-' }

  predicate Identifier(id: string) { 1 <= |id| <= 128 && forall c :: c in id ==> IdChar(c) }

  predicate DigestChar(c: char) { IsDigit(c) || 'a' <= c <= 'f' }

  predicate Digest(s: string) { |s| == 64 && forall c :: c in s ==> DigestChar(c) }

  /** What the schema of a frame demands. */
  predicate Legal(f: Frame) {
    match f
    case ChunkFrame(id, sequence, data) =>
      Identifier(id) && sequence <= MAX_SAFE_INTEGER && forall c :: c in data ==> Base64.Plain(c)
    case EndFrame(id, bytes, sha256) => Identifier(id) && bytes <= MAX_ASSEMBLED_BYTES && Digest(sha256)
    case OtherFrame(_) => false
  }

  // ---------------------------------------------------- frames are known by their bytes

  predicate Ascii(s: string) { forall c :: c in s ==> c as int < 128 }

  lemma AsciiBytesInjective(s: string, t: string)
    requires Ascii(s) && Ascii(t) && AsciiBytes(s) == AsciiBytes(t)
    ensures s == t
  {
    assert |s| == |t|;
    forall k | 0 <= k < |s| ensures s[k] == t[k] {
      assert AsciiBytes(s)[k] == AsciiBytes(t)[k] && s[k] in s && t[k] in t;
    }
  }

  // What comes before the first delimiter, and what comes after it.
  lemma Delimited(a: string, b: string, c: char, r: string, t: string)
    requires c !in a && c !in b && a + [c] + r == b + [c] + t
    ensures a == b && r == t
  {
    var s := a + [c] + r;
    assert s[|a|] == c && s[|b|] == c;
    assert (forall k :: 0 <= k < |a| ==> s[k] == a[k] != c) && (forall k :: 0 <= k < |b| ==> s[k] == b[k] != c);
    assert s[..|a|] == a && s[..|b|] == b;
    assert s[|a| + 1..] == r && s[|b| + 1..] == t;
  }

  lemma SameFront(front: string, r: string, t: string)
    requires front + r == front + t
    ensures r == t
  {
    assert (front + r)[|front|..] == r && (front + t)[|front|..] == t;
  }

  lemma SameBack(r: string, t: string, back: string)
    requires r + back == t + back
    ensures r == t
  {
    assert |r| == |t| && (r + back)[..|r|] == r && (t + back)[..|t|] == t;
  }

  lemma {:induction false} DecimalInjective(m: nat, n: nat)
    requires Decimal(m) == Decimal(n)
    ensures m == n
  {
    var s, t := Decimal(m), Decimal(n);
    assert DigitValue(s[|s| - 1]) == m % 10 && DigitValue(t[|t| - 1]) == n % 10;
    if m >= 10 && n >= 10 {
      assert s[..|s| - 1] == Decimal(m / 10) && t[..|t| - 1] == Decimal(n / 10);
      DecimalInjective(m / 10, n / 10);
    }
  }

  // A number and what follows it, behind the same field name.
  lemma NumberField(front: string, m: nat, n: nat, r: string, t: string)
    requires front + (Decimal(m) + [','] + r) == front + (Decimal(n) + [','] + t)
    ensures m == n && r == t
  {
    SameFront(front, Decimal(m) + [','] + r, Decimal(n) + [','] + t);
    Delimited(Decimal(m), Decimal(n), ',', r, t);
    DecimalInjective(m, n);
  }

  // The identifier and what follows it, behind the same opening.
  lemma IdentifierField(front: string, a: string, b: string, r: string, t: string)
    requires Identifier(a) && Identifier(b) && front + (a + ['"'] + r) == front + (b + ['"'] + t)
    ensures a == b && r == t
  {
    SameFront(front, a + ['"'] + r, b + ['"'] + t);
    Delimited(a, b, '"', r, t);
  }

  lemma ChunkTextInjective(f: Frame, g: Frame)
    requires f.ChunkFrame? && g.ChunkFrame? && Legal(f) && Legal(g)
    requires ChunkText(f.id, f.sequence, f.data) == ChunkText(g.id, g.sequence, g.data)
    ensures f == g
  {
    var q, d, z := SequenceField()[1..], DataField()[1..], Closing();
    ChunkTextParts(f.id, f.sequence, f.data);
    ChunkTextParts(g.id, g.sequence, g.data);
    var r, t := d + (f.data + z), d + (g.data + z);
    IdentifierField(ChunkOpening(), f.id, g.id, q + (Decimal(f.sequence) + [','] + r), q + (Decimal(g.sequence) + [','] + t));
    NumberField(q, f.sequence, g.sequence, r, t);
    SameFront(d, f.data + z, g.data + z);
    SameBack(f.data, g.data, z);
  }

  // A text of seven parts, bracketed at the delimiters that the third and fifth begin with.
  lemma Bracketed(opening: string, id: string, q: string, number: string, d: string, x: string, z: string)
    requires q != [] && d != []
    ensures opening + id + q + number + d + x + z ==
            opening + (id + [q[0]] + (q[1..] + (number + [d[0]] + (d[1..] + (x + z)))))
  {
    assert q == [q[0]] + q[1..] && d == [d[0]] + d[1..];
    assert number + [d[0]] + (d[1..] + (x + z)) == number + d + x + z;
    assert id + [q[0]] + (q[1..] + (number + d + x + z)) == id + q + (number + d + x + z);
  }

  lemma ChunkTextParts(id: string, sequence: nat, data: string)
    ensures ChunkText(id, sequence, data) ==
            ChunkOpening() + (id + ['"'] + (SequenceField()[1..] + (Decimal(sequence) + [','] + (DataField()[1..] + (data + Closing())))))
  {
    hide ChunkOpening, Closing, Decimal;
    var q, d := SequenceField(), DataField();
    assert q[0] == '"' && d[0] == ',';
    hide SequenceField, DataField;
    Bracketed(ChunkOpening(), id, q, Decimal(sequence), d, data, Closing());
  }

  lemma EndTextInjective(f: Frame, g: Frame)
    requires f.EndFrame? && g.EndFrame? && Legal(f) && Legal(g)
    requires EndText(f.id, f.bytes, f.sha256) == EndText(g.id, g.bytes, g.sha256)
    ensures f == g
  {
    var q, d, z := BytesField()[1..], DigestField()[1..], Closing();
    EndTextParts(f.id, f.bytes, f.sha256);
    EndTextParts(g.id, g.bytes, g.sha256);
    var r, t := d + (f.sha256 + z), d + (g.sha256 + z);
    IdentifierField(EndOpening(), f.id, g.id, q + (Decimal(f.bytes) + [','] + r), q + (Decimal(g.bytes) + [','] + t));
    NumberField(q, f.bytes, g.bytes, r, t);
    SameFront(d, f.sha256 + z, g.sha256 + z);
    SameBack(f.sha256, g.sha256, z);
  }

  lemma EndTextParts(id: string, bytes: nat, sha256: string)
    ensures EndText(id, bytes, sha256) ==
            EndOpening() + (id + ['"'] + (BytesField()[1..] + (Decimal(bytes) + [','] + (DigestField()[1..] + (sha256 + Closing())))))
  {
    hide EndOpening, Closing, Decimal;
    var q, d := BytesField(), DigestField();
    assert q[0] == '"' && d[0] == ',';
    hide BytesField, DigestField;
    Bracketed(EndOpening(), id, q, Decimal(bytes), d, sha256, Closing());
  }

  lemma ChunkPartsAreAscii()
    ensures Ascii(SequenceField()) && Ascii(DataField()) && Ascii(Closing())
  {
  }

  lemma EndPartsAreAscii()
    ensures Ascii(BytesField()) && Ascii(DigestField())
  {
  }

  lemma ChunkOpeningIsAscii()
    ensures Ascii(ChunkOpening())
  {
  }

  lemma EndOpeningIsAscii()
    ensures Ascii(EndOpening())
  {
  }

  function TextOf(f: Frame): string
    requires !f.OtherFrame?
  {
    if f.ChunkFrame? then ChunkText(f.id, f.sequence, f.data) else EndText(f.id, f.bytes, f.sha256)
  }

  lemma LegalTextIsAscii(f: Frame)
    requires Legal(f)
    ensures Ascii(TextOf(f))
  {
    hide ChunkOpening, SequenceField, DataField, Closing, EndOpening, BytesField, DigestField, Decimal;
    ChunkPartsAreAscii();
    EndPartsAreAscii();
    ChunkOpeningIsAscii();
    EndOpeningIsAscii();
    var number := Decimal(if f.ChunkFrame? then f.sequence else f.bytes);
    assert Ascii(number) by {
      forall c | c in number ensures c as int < 128 { assert IsDigit(c); }
    }
  }

  lemma ChunkIsNoEnd(f: Frame, g: Frame)
    requires f.ChunkFrame? && g.EndFrame?
    ensures TextOf(f) != TextOf(g)
  {
    assert TextOf(f)[17] == ChunkOpening()[17] == 'c';
    assert TextOf(g)[17] == EndOpening()[17] == 'e';
  }

  /** Two frames that may be sent have the same bytes only if they are the same frame. */
  lemma PayloadInjective(f: Frame, g: Frame)
    requires Legal(f) && Legal(g) && Payload(f) == Payload(g)
    ensures f == g
  {
    hide ChunkText, EndText;
    LegalTextIsAscii(f);
    LegalTextIsAscii(g);
    AsciiBytesInjective(TextOf(f), TextOf(g));
    if f.ChunkFrame? && g.ChunkFrame? { ChunkTextInjective(f, g); }
    else if f.EndFrame? && g.EndFrame? { EndTextInjective(f, g); }
    else if f.ChunkFrame? { ChunkIsNoEnd(f, g); }
    else { ChunkIsNoEnd(g, f); }
  }

  // The parser and the schema take back what was written.
  ghost predicate Trusted(read: Reader) {
    forall f: Frame :: Legal(f) && Encodable(f) ==> read(Payload(f)) == Some(f)
  }

  // A reader that gives back the frame with these bytes.
  ghost function ReadBack(payload: seq<Byte>): Option<Frame> {
    if exists f :: Legal(f) && Payload(f) == payload
    then var f :| Legal(f) && Payload(f) == payload; Some(f)
    else Some(OtherFrame(payload))
  }

  /** There is such a reader, since no two frames share their bytes. */
  lemma TrustedReaderExists()
    ensures exists read: Reader :: Trusted(read)
  {
    hide Legal, Payload, Encodable;
    forall f: Frame | Legal(f) && Encodable(f) ensures ReadBack(Payload(f)) == Some(f) {
      var g := ReadBack(Payload(f)).value;
      PayloadInjective(f, g);
    }
    assert Trusted(ReadBack);
  }

  // -------------------------------------------------------------------- sizes that fit

  lemma DecimalWidth(n: nat)
    requires n < 100_000_000
    ensures |Decimal(n)| <= 8
  {
    assert n / 10 < 10_000_000 && n / 10 / 10 < 1_000_000 && n / 10 / 10 / 10 < 100_000;
    WidthStep(n);
    WidthStep(n / 10);
    WidthStep(n / 10 / 10);
    FiveDigits(n / 10 / 10 / 10);
  }

  lemma WidthStep(n: nat)
    ensures |Decimal(n)| <= 1 + |Decimal(n / 10)|
  {
  }

  lemma FiveDigits(n: nat)
    requires n < 100_000
    ensures |Decimal(n)| <= 5
  {
    WidthStep(n);
    WidthStep(n / 10);
    WidthStep(n / 10 / 10);
    WidthStep(n / 10 / 10 / 10);
    assert |Decimal(n / 10 / 10 / 10 / 10)| == 1;
  }

  lemma ChunkTextLength(id: string, sequence: nat, data: string)
    ensures |ChunkText(id, sequence, data)| == 74 + |id| + |Decimal(sequence)| + |data|
  {
    hide ChunkOpening, SequenceField, DataField, Closing;
  }

  lemma EndTextLength(id: string, bytes: nat, sha256: string)
    ensures |EndText(id, bytes, sha256)| == 51 + |id| + |Decimal(bytes)| + |sha256|
  {
    hide EndOpening, BytesField, DigestField, Closing;
  }

  lemma EncodedWidth(raw: seq<Byte>)
    requires |raw| <= MAX_RAW_CHUNK_BYTES
    ensures |Base64.Encode(raw)| <= MAX_FRAME_BYTES - 1364
  {
    hide Base64.Encode;
  }

  /** The largest chunk still fits into one frame, with its identifier and number. */
  lemma ChunkFits(id: string, sequence: nat, raw: seq<Byte>)
    requires Identifier(id) && sequence <= MAX_CHUNK_SEQUENCE && |raw| <= MAX_RAW_CHUNK_BYTES
    ensures Encodable(ChunkFrame(id, sequence, Base64.Encode(raw)))
  {
    hide Payload, Base64.Encode, Decimal;
    DecimalWidth(sequence);
    EncodedWidth(raw);
    ChunkPayloadLength(id, sequence, Base64.Encode(raw));
  }

  lemma ChunkPayloadLength(id: string, sequence: nat, data: string)
    ensures |Payload(ChunkFrame(id, sequence, data))| == 74 + |id| + |Decimal(sequence)| + |data|
  {
    hide ChunkText, Decimal;
    ChunkTextLength(id, sequence, data);
  }

  lemma EndFits(id: string, bytes: nat, sha256: string)
    requires Identifier(id) && bytes <= MAX_ASSEMBLED_BYTES && Digest(sha256)
    ensures Encodable(EndFrame(id, bytes, sha256))
  {
    hide EndText, Decimal, AsciiBytes;
    DecimalWidth(bytes);
    EndTextLength(id, bytes, sha256);
  }

  // ----------------------------------------------------------------- both layers together

  // The chunks of some data, as frames of one request, and its end.
  function ChunkFrames(id: string, chunks: seq<Chunk>): (frames: seq<Frame>)
    ensures |frames| == |chunks|
    ensures forall k :: 0 <= k < |frames| ==> frames[k] == ChunkFrame(id, chunks[k].sequence, chunks[k].data)
  {
    seq(|chunks|, k requires 0 <= k < |chunks| => ChunkFrame(id, chunks[k].sequence, chunks[k].data))
  }

  function Frames(id: string, data: seq<Byte>, digest: string): seq<Frame> {
    ChunkFrames(id, Chunked(data, 0)) + [EndFrame(id, |data|, digest)]
  }

  lemma {:induction false} ChunkSequences(data: seq<Byte>, sequence: nat, k: nat)
    requires k < |Chunked(data, sequence)|
    ensures var c := Chunked(data, sequence)[k];
      c.sequence == sequence + k && k * MAX_RAW_CHUNK_BYTES < |data| &&
      exists raw: seq<Byte> :: |raw| <= MAX_RAW_CHUNK_BYTES && c.data == Base64.Encode(raw)
    decreases |data|
  {
    hide Base64.Encode;
    var n := Min(|data|, MAX_RAW_CHUNK_BYTES);
    if k > 0 {
      ChunkSequences(data[n..], sequence + 1, k - 1);
    } else {
      assert Chunked(data, sequence)[0].data == Base64.Encode(data[..n]);
    }
  }

  lemma ChunkFramesFit(id: string, data: seq<Byte>, k: nat)
    requires Identifier(id) && |data| <= MAX_ASSEMBLED_BYTES && k < |Chunked(data, 0)|
    ensures var c := Chunked(data, 0)[k]; var f := ChunkFrame(id, c.sequence, c.data); Legal(f) && Encodable(f)
  {
    hide Chunked, Encodable, Base64.Encode;
    ChunkSequences(data, 0, k);
    var c := Chunked(data, 0)[k];
    var raw: seq<Byte> :| |raw| <= MAX_RAW_CHUNK_BYTES && c.data == Base64.Encode(raw);
    ChunkFits(id, c.sequence, raw);
    Base64.EncodedPlainly(raw);
  }

  /** Every frame of a transfer may be sent. */
  lemma FramesFit(id: string, data: seq<Byte>, digest: string)
    requires Identifier(id) && |data| <= MAX_ASSEMBLED_BYTES && Digest(digest)
    ensures forall k :: 0 <= k < |Frames(id, data, digest)| ==> Legal(Frames(id, data, digest)[k]) && Encodable(Frames(id, data, digest)[k])
  {
    hide Chunked, Encodable, Identifier, Digest;
    EndFits(id, |data|, digest);
    var frames := Frames(id, data, digest);
    forall k | 0 <= k < |frames| ensures Legal(frames[k]) && Encodable(frames[k]) {
      if k < |Chunked(data, 0)| { ChunkFramesFit(id, data, k); }
    }
  }

  /** What a receiver holds for one request. */
  datatype Collection = Collecting(assembly: Assembly) | Done(data: seq<Byte>) | Failed

  predicate Concerns(f: Frame, id: string) { !f.OtherFrame? && f.id == id }

  // A frame arrives: chunks are pushed, the end finishes, and what follows it is an error.
  function Collect(sha: seq<Byte> -> string, id: string, c: Collection, f: Frame): Collection {
    if !Concerns(f, id) then c
    else if !c.Collecting? then Failed
    else if f.ChunkFrame? then
      match Take(c.assembly, Chunk(f.sequence, f.data))
      case None => Failed
      case Some(a) => Collecting(a)
    else
      match Finished(sha, c.assembly, f.bytes, f.sha256)
      case None => Failed
      case Some(data) => Done(data)
  }

  function CollectAll(sha: seq<Byte> -> string, id: string, c: Collection, frames: seq<Frame>): Collection
    decreases |frames|
  {
    if frames == [] then c else CollectAll(sha, id, Collect(sha, id, c, frames[0]), frames[1..])
  }

  // The frames of one request among all frames.
  function Concerning(id: string, frames: seq<Frame>): seq<Frame> {
    if frames == [] then []
    else if Concerns(frames[0], id) then [frames[0]] + Concerning(id, frames[1..]) else Concerning(id, frames[1..])
  }

  // Frames of other requests in between make no difference.
  lemma {:induction false} OthersDoNotMatter(sha: seq<Byte> -> string, id: string, c: Collection, frames: seq<Frame>)
    ensures CollectAll(sha, id, c, frames) == CollectAll(sha, id, c, Concerning(id, frames))
    decreases |frames|
  {
    hide Collect;
    if frames != [] {
      var rest := Concerning(id, frames[1..]);
      OthersDoNotMatter(sha, id, Collect(sha, id, c, frames[0]), frames[1..]);
      if Concerns(frames[0], id) {
        assert ([frames[0]] + rest)[1..] == rest;
      } else {
        ForeignIsIgnored(sha, id, c, frames[0]);
      }
    }
  }

  lemma ForeignIsIgnored(sha: seq<Byte> -> string, id: string, c: Collection, f: Frame)
    requires !Concerns(f, id)
    ensures Collect(sha, id, c, f) == c
  {
  }

  // Chunks that the assembler takes are collected, and then the end.
  lemma {:induction false} ChunksAreCollected(sha: seq<Byte> -> string, id: string, a: Assembly, chunks: seq<Chunk>, end: Frame)
    requires TakeAll(a, chunks).Some?
    ensures CollectAll(sha, id, Collecting(a), ChunkFrames(id, chunks) + [end]) ==
            Collect(sha, id, Collecting(TakeAll(a, chunks).value), end)
    decreases |chunks|
  {
    hide Take;
    var frames := ChunkFrames(id, chunks) + [end];
    if chunks == [] {
      assert frames == [end] && frames[1..] == [];
    } else {
      assert frames[0] == ChunkFrame(id, chunks[0].sequence, chunks[0].data);
      assert frames[1..] == ChunkFrames(id, chunks[1..]) + [end];
      assert Chunk(chunks[0].sequence, chunks[0].data) == chunks[0];
      ChunksAreCollected(sha, id, Take(a, chunks[0]).value, chunks[1..], end);
    }
  }

  lemma FramesAreCollected(sha: seq<Byte> -> string, id: string, data: seq<Byte>)
    requires |data| <= MAX_ASSEMBLED_BYTES
    ensures CollectAll(sha, id, Collecting(EMPTY), Frames(id, data, sha(data))) == Done(data)
  {
    hide Chunked, TakeAll, CollectAll;
    ChunksAssemble(EMPTY, data);
    assert EMPTY.data + data == data;
    ChunksAreCollected(sha, id, EMPTY, Chunked(data, 0), EndFrame(id, |data|, sha(data)));
  }

  // What is sent is written and read correctly: frames of requests by the schema, and
  // others because they are what they are.
  ghost predicate Carried(read: Reader, frames: seq<Frame>) {
    forall k :: 0 <= k < |frames| ==>
      Encodable(frames[k]) && (Legal(frames[k]) || (frames[k].OtherFrame? && read(frames[k].payload) == Some(frames[k])))
  }

  lemma CarriedIsSendable(read: Reader, frames: seq<Frame>)
    requires Trusted(read) && Carried(read, frames)
    ensures Sendable(read, frames)
  {
    hide Legal, Encodable;
  }

  lemma WholeStreamIsRead(read: Reader, frames: seq<Frame>)
    requires Sendable(read, frames)
    ensures Parse(read, Stream(frames)) == Waiting(frames, [])
  {
    hide Parse;
    var next := OtherFrame([0]);
    StreamIsRead(read, frames, next, []);
    assert Stream(frames) + [] == Stream(frames);
  }

  /** The two layers fit together. Whatever frames of other requests come in between and
      however the stream is cut: the decoder gives the frames that were sent and ends at a
      frame boundary, and the chunks and the end among them, pushed into an assembler in
      the order read, give back the data of at most 16 MiB that went in. */
  lemma TransferRoundTrip(read: Reader, sha: seq<Byte> -> string, id: string, data: seq<Byte>, frames: seq<Frame>, fragments: seq<seq<Byte>>)
    requires Trusted(read) && Identifier(id) && |data| <= MAX_ASSEMBLED_BYTES && Digest(sha(data))
    requires Carried(read, frames) && Concerning(id, frames) == Frames(id, data, sha(data))
    requires Joined(fragments) == Stream(frames)
    ensures var p := Parse(read, Joined(fragments));
      p.Waiting? && p.rest == [] && CollectAll(sha, id, Collecting(EMPTY), p.frames) == Done(data)
  {
    hide Parse, CollectAll, Frames, Trusted, Carried, Sendable;
    CarriedIsSendable(read, frames);
    WholeStreamIsRead(read, frames);
    OthersDoNotMatter(sha, id, Collecting(EMPTY), frames);
    FramesAreCollected(sha, id, data);
  }

  /** In particular for the transfer by itself, which can always be sent. */
  lemma TransferAlone(read: Reader, sha: seq<Byte> -> string, id: string, data: seq<Byte>, fragments: seq<seq<Byte>>)
    requires Trusted(read) && Identifier(id) && |data| <= MAX_ASSEMBLED_BYTES && Digest(sha(data))
    requires Joined(fragments) == Stream(Frames(id, data, sha(data)))
    ensures Carried(read, Frames(id, data, sha(data)))
    ensures var p := Parse(read, Joined(fragments));
      p.Waiting? && p.rest == [] && CollectAll(sha, id, Collecting(EMPTY), p.frames) == Done(data)
  {
    hide Parse, CollectAll, Frames, Trusted, Legal, Encodable;
    var frames := Frames(id, data, sha(data));
    FramesFit(id, data, sha(data));
    OnlyItsOwn(id, data, sha(data));
    TransferRoundTrip(read, sha, id, data, frames, fragments);
  }

  lemma OnlyItsOwn(id: string, data: seq<Byte>, digest: string)
    ensures Concerning(id, Frames(id, data, digest)) == Frames(id, data, digest)
  {
    hide Chunked;
    AllConcern(id, Frames(id, data, digest));
  }

  lemma {:induction false} AllConcern(id: string, frames: seq<Frame>)
    requires forall k :: 0 <= k < |frames| ==> Concerns(frames[k], id)
    ensures Concerning(id, frames) == frames
  {
    if frames != [] {
      AllConcern(id, frames[1..]);
      assert [frames[0]] + frames[1..] == frames;
    }
  }
}
