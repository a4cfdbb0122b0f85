/** IP literals: the parser and printer of canonical IPv4 and IPv6 text. The accepted
    texts are the three forms of section 2.2 of RFC 4291; the printed text follows
    sections 4.1 to 4.3 of RFC 5952. */
module Addresses {
  import opened Bytes
  import opened Text

  type Group = n: nat | n < 65536

  // A byte pair in network order.
  function Pair(high: Byte, low: Byte): Group { high as int * 256 + low as int }

  // ------------------------------------------------------------------------ IPv4

  // ^(?:0|[1-9][0-9]{0,2})$ with a value of at most 255
  function ParseOctet(part: string): Option<Byte> {
    if !(1 <= |part| <= 3) || !(forall k :: 0 <= k < |part| ==> IsDigit(part[k])) then None
    else if |part| > 1 && part[0] == '0' then None
    else
      var n := if |part| == 1 then DigitValue(part[0])
               else if |part| == 2 then DigitValue(part[0]) * 10 + DigitValue(part[1])
               else DigitValue(part[0]) * 100 + DigitValue(part[1]) * 10 + DigitValue(part[2]);
      if n > 255 then None else Some(n)
  }

  function FormatOctet(n: Byte): string {
    if n < 10 then [Digit(n)]
    else if n < 100 then [Digit(n / 10), Digit(n % 10)]
    else [Digit(n / 100), Digit(n / 10 % 10), Digit(n % 10)]
  }

  lemma ParsedOctetIsPrinted(part: string)
    requires ParseOctet(part).Some?
    ensures part == FormatOctet(ParseOctet(part).value)
  {
    var n := ParseOctet(part).value;
    if |part| == 3 {
      var a, b, c := DigitValue(part[0]), DigitValue(part[1]), DigitValue(part[2]);
      assert n / 100 == a && n / 10 == a * 10 + b && n / 10 % 10 == b && n % 10 == c;
    }
  }

  lemma PrintedOctetParses(n: Byte)
    ensures ParseOctet(FormatOctet(n)) == Some(n)
  {
  }

  /** An octet has exactly one accepted spelling. */
  lemma OctetRoundTrip(part: string, n: Byte)
    ensures ParseOctet(part) == Some(n) <==> part == FormatOctet(n)
  {
    PrintedOctetParses(n);
    if ParseOctet(part).Some? { ParsedOctetIsPrinted(part); }
  }

  function ParseOctets(parts: seq<string>): Option<seq<Byte>> {
    if parts == [] then Some([])
    else match ParseOctet(parts[0])
      case None => None
      case Some(b) => Prepend([b], ParseOctets(parts[1..]))
  }

  function FormatOctets(bytes: seq<Byte>): (parts: seq<string>)
    ensures |parts| == |bytes|
    ensures forall k :: 0 <= k < |bytes| ==> parts[k] == FormatOctet(bytes[k])
  {
    seq(|bytes|, k requires 0 <= k < |bytes| => FormatOctet(bytes[k]))
  }

  function Ipv4Bytes(input: string): Option<seq<Byte>> {
    var parts := Split(input, '.');
    if |parts| != 4 then None else ParseOctets(parts)
  }

  /** `parseIpv4`: split, then one octet after another. */
  method ParseIpv4(input: string) returns (r: Option<seq<Byte>>)
    ensures r == Ipv4Bytes(input)
    ensures r.Some? ==> |r.value| == 4
  {
    var parts := Split(input, '.');
    if |parts| != 4 { return None; }
    var bytes: seq<Byte> := [];
    for index := 0 to |parts|
      invariant |bytes| == index
      invariant ParseOctets(parts) == Prepend(bytes, ParseOctets(parts[index..]))
    {
      assert parts[index..][1..] == parts[index + 1..];
      var octet := ParseOctet(parts[index]);
      if octet == None { return None; }
      PrependTwice(bytes, [octet.value], ParseOctets(parts[index + 1..]));
      bytes := bytes + [octet.value];
    }
    assert parts[|parts|..] == [] && bytes + [] == bytes;
    r := Some(bytes);
  }

  function FormatIpv4(bytes: seq<Byte>): string { Join(FormatOctets(bytes), '.') }

  lemma FormatOctetsStep(bytes: seq<Byte>)
    requires bytes != []
    ensures FormatOctets(bytes) == [FormatOctet(bytes[0])] + FormatOctets(bytes[1..])
  {
  }

  lemma SameHeadAndTail<T>(s: seq<T>, x: T, t: seq<T>)
    ensures s == [x] + t <==> s != [] && s[0] == x && s[1..] == t
  {
    if s != [] { assert s == [s[0]] + s[1..]; }
  }

  lemma {:induction false} OctetsRoundTrip(parts: seq<string>, bytes: seq<Byte>)
    ensures ParseOctets(parts) == Some(bytes) <==> parts == FormatOctets(bytes)
  {
    if parts != [] && bytes != [] {
      var b, rest := bytes[0], bytes[1..];
      OctetRoundTrip(parts[0], b);
      OctetsRoundTrip(parts[1..], rest);
      FormatOctetsStep(bytes);
      SameHeadAndTail(parts, FormatOctet(b), FormatOctets(rest));
      if ParseOctet(parts[0]).Some? && ParseOctets(parts[1..]).Some? {
        SameHeadAndTail(bytes, ParseOctet(parts[0]).value, ParseOctets(parts[1..]).value);
      }
    } else if parts != [] && ParseOctet(parts[0]).Some? && ParseOctets(parts[1..]).Some? {
      assert ParseOctets(parts).value != [];
    }
  }

  predicate Ipv4Char(c: char) { IsDigit(c) || c == '.' }

  lemma Ipv4TextChars(bytes: seq<Byte>)
    ensures forall c :: c in FormatIpv4(bytes) ==> Ipv4Char(c)
  {
    forall c | c in FormatIpv4(bytes) ensures Ipv4Char(c) {
      JoinChars(FormatOctets(bytes), '.', c);
    }
  }

  /** An IPv4 address has exactly one accepted spelling: the printed one. */
  lemma Ipv4RoundTrip(input: string, bytes: seq<Byte>)
    ensures Ipv4Bytes(input) == Some(bytes) <==> |bytes| == 4 && input == FormatIpv4(bytes)
  {
    var parts := Split(input, '.');
    JoinSplit(input, '.');
    OctetsRoundTrip(parts, bytes);
    if |bytes| == 4 && input == FormatIpv4(bytes) {
      SplitJoin(FormatOctets(bytes), '.');
    }
  }

  // ---------------------------------------------------------- groups of IPv6 text

  // The two 16-bit groups of a dotted quad.
  function QuadGroups(b: seq<Byte>): seq<Group>
    requires |b| == 4
  {
    [Pair(b[0], b[1]), Pair(b[2], b[3])]
  }

  // One textual group; only the last of a sequence may be a dotted quad.
  function ParsePart(part: string, quadAllowed: bool): Option<seq<Group>> {
    if '.' in part then
      if !quadAllowed then None
      else match Ipv4Bytes(part)
        case None => None
        case Some(b) => Ipv4RoundTrip(part, b); Some(QuadGroups(b))
    else if 1 <= |part| <= 4 && AllHex(part) then HexGroup(part); Some([HexNumber(part)])
    else None
  }

  lemma HexGroup(part: string)
    requires |part| <= 4 && AllHex(part)
    ensures HexNumber(part) < 65536
  {
    var p3 := if |part| == 4 then part[..3] else part;
    var p2 := if |p3| == 3 then p3[..2] else p3;
    var p1 := if |p2| == 2 then p2[..1] else p2;
    assert |p1| == 1 ==> p1[..0] == [];
    assert HexNumber(p1) < 16 && HexNumber(p2) < 256 && HexNumber(p3) < 4096;
  }

  function ParseParts(parts: seq<string>, quadAllowed: bool): Option<seq<Group>> {
    if parts == [] then Some([])
    else match ParsePart(parts[0], quadAllowed && |parts| == 1)
      case None => None
      case Some(groups) => Prepend(groups, ParseParts(parts[1..], quadAllowed))
  }

  function Hextets(input: string, quadAllowed: bool): Option<seq<Group>> {
    if input == [] then Some([]) else ParseParts(Split(input, ':'), quadAllowed)
  }

  /** `parseHextetSequence`: the loop over colon-separated parts. */
  method ParseHextetSequence(input: string, allowIpv4: bool) returns (r: Option<seq<Group>>)
    ensures r == Hextets(input, allowIpv4)
  {
    if input == [] { return Some([]); }
    var parts := Split(input, ':');
    var groups: seq<Group> := [];
    for index := 0 to |parts|
      invariant ParseParts(parts, allowIpv4) == Prepend(groups, ParseParts(parts[index..], allowIpv4))
    {
      assert parts[index..][1..] == parts[index + 1..];
      var part := parts[index];
      if part == [] { return None; }
      var more: seq<Group>;
      if '.' in part {
        if !allowIpv4 || index != |parts| - 1 { return None; }
        var quad := ParseIpv4(part);
        if quad == None { return None; }
        more := [Pair(quad.value[0], quad.value[1]), Pair(quad.value[2], quad.value[3])];
      } else {
        if !(1 <= |part| <= 4 && AllHex(part)) { return None; }
        HexGroup(part);
        more := [HexNumber(part)];
      }
      PrependTwice(groups, more, ParseParts(parts[index + 1..], allowIpv4));
      groups := groups + more;
    }
    assert parts[|parts|..] == [] && groups + [] == groups;
    r := Some(groups);
  }

  predicate GroupChar(c: char) { IsHex(c) || c == '.' }

  /** Accepted parts are non-empty and never contain a colon. */
  lemma PartChars(part: string, quadAllowed: bool)
    requires ParsePart(part, quadAllowed).Some?
    ensures part != [] && forall c :: c in part ==> GroupChar(c)
  {
    if '.' in part {
      var b := Ipv4Bytes(part).value;
      Ipv4RoundTrip(part, b);
      Ipv4TextChars(b);
    }
  }

  lemma {:induction false} PartsChars(parts: seq<string>, quadAllowed: bool)
    requires ParseParts(parts, quadAllowed).Some?
    ensures forall k :: 0 <= k < |parts| ==> parts[k] != [] && forall c :: c in parts[k] ==> GroupChar(c)
    ensures |parts| <= |ParseParts(parts, quadAllowed).value|
  {
    if parts != [] {
      PartChars(parts[0], quadAllowed && |parts| == 1);
      PartsChars(parts[1..], quadAllowed);
      forall k | 0 < k < |parts| ensures parts[k] != [] && forall c :: c in parts[k] ==> GroupChar(c) {
        assert parts[k] == parts[1..][k - 1];
      }
    }
  }

  lemma HextetsChars(input: string, quadAllowed: bool)
    requires Hextets(input, quadAllowed).Some?
    ensures forall c :: c in input ==> GroupChar(c) || c == ':'
    ensures input != [] ==> input[0] != ':' && input[|input| - 1] != ':'
    ensures forall i :: !PairAt(input, ':', i)
  {
    if input != [] {
      var parts := Split(input, ':');
      JoinSplit(input, ':');
      PartsChars(parts, quadAllowed);
      JoinEnds(parts, ':');
      forall i ensures !PairAt(input, ':', i) { JoinHasNoPair(parts, ':', i); }
      forall c | c in input ensures GroupChar(c) || c == ':' { JoinChars(parts, ':', c); }
      assert parts[0][0] in parts[0];
      var last := parts[|parts| - 1];
      assert last[|last| - 1] in last;
    }
  }

  // ------------------------------------------------------------------------ IPv6

  function Zeros(n: nat): (z: seq<Group>)
    ensures |z| == n && forall k :: 0 <= k < n ==> z[k] == 0
  {
    seq(n, _ => 0)
  }

  // "::" stands for as many zero groups as make eight.
  function Expanded(left: seq<Group>, right: seq<Group>): (r: seq<Group>)
    requires |left| + |right| < 8
    ensures |r| == 8
  {
    left + Zeros(8 - |left| - |right|) + right
  }

  function Ipv6Groups(input: string): (r: Option<seq<Group>>)
    ensures r.Some? ==> |r.value| == 8
  {
    if input == [] || '%' in input then None
    else
      var compression := IndexOfPair(input, ':', 0);
      if compression != -1 && IndexOfPair(input, ':', compression + 2) != -1 then None
      else if compression == -1 then
        match Hextets(input, true)
        case None => None
        case Some(groups) => if |groups| != 8 then None else Some(groups)
      else
        match (Hextets(input[..compression], false), Hextets(input[compression + 2..], true))
        case (Some(left), Some(right)) =>
          if |left| + |right| >= 8 then None else Some(Expanded(left, right))
        case _ => None
  }

  function BytesOf(groups: seq<Group>): (bytes: seq<Byte>)
    ensures |bytes| == 2 * |groups|
  {
    seq(2 * |groups|, k requires 0 <= k < 2 * |groups| => if k % 2 == 0 then groups[k / 2] / 256 else groups[k / 2] % 256)
  }

  function GroupsOf(bytes: seq<Byte>): (groups: seq<Group>)
    requires |bytes| % 2 == 0
    ensures |groups| == |bytes| / 2
  {
    seq(|bytes| / 2, k requires 0 <= k < |bytes| / 2 => Pair(bytes[2 * k], bytes[2 * k + 1]))
  }

  lemma GroupBytes(groups: seq<Group>, j: nat)
    requires j < |groups|
    ensures BytesOf(groups)[2 * j] == groups[j] / 256 && BytesOf(groups)[2 * j + 1] == groups[j] % 256
  {
    assert (2 * j) % 2 == 0 && (2 * j) / 2 == j && (2 * j + 1) % 2 == 1 && (2 * j + 1) / 2 == j;
  }

  lemma PairBytes(high: Byte, low: Byte)
    ensures Pair(high, low) / 256 == high && Pair(high, low) % 256 == low
  {
  }

  lemma BytesGroupsRoundTrip(bytes: seq<Byte>)
    requires |bytes| % 2 == 0
    ensures BytesOf(GroupsOf(bytes)) == bytes
  {
    var groups := GroupsOf(bytes);
    forall k | 0 <= k < |bytes| ensures BytesOf(groups)[k] == bytes[k] {
      var j := k / 2;
      assert k == 2 * j || k == 2 * j + 1;
      GroupBytes(groups, j);
      PairBytes(bytes[2 * j], bytes[2 * j + 1]);
    }
  }

  // The filling loop of `parseIpv6`.
  method FillBytes(words: seq<Group>) returns (r: seq<Byte>)
    ensures r == BytesOf(words)
  {
    var bytes := new Byte[2 * |words|](_ => 0);
    for index := 0 to |words|
      invariant forall k :: 0 <= k < 2 * index ==> bytes[k] == BytesOf(words)[k]
    {
      bytes[index * 2] := words[index] / 256;
      bytes[index * 2 + 1] := words[index] % 256;
    }
    r := bytes[..];
  }

  /** `parseIpv6`. */
  method ParseIpv6(input: string) returns (r: Option<seq<Byte>>)
    ensures r == match Ipv6Groups(input) { case None => None case Some(groups) => Some(BytesOf(groups)) }
  {
    if input == [] || '%' in input { return None; }
    var compression := IndexOfPair(input, ':', 0);
    if compression != -1 && IndexOfPair(input, ':', compression + 2) != -1 { return None; }
    var words: seq<Group>;
    if compression == -1 {
      var parsed := ParseHextetSequence(input, true);
      if parsed == None || |parsed.value| != 8 { return None; }
      words := parsed.value;
    } else {
      var left := ParseHextetSequence(input[..compression], false);
      var right := ParseHextetSequence(input[compression + 2..], true);
      if left == None || right == None || |left.value| + |right.value| >= 8 { return None; }
      words := Expanded(left.value, right.value);
    }
    var bytes := FillBytes(words);
    r := Some(bytes);
  }

  // A group as it may be written: shortest or with leading zeros, in either case.
  ghost predicate WritesGroup(part: string, g: Group) {
    1 <= |part| <= 4 && exists zeros: nat :: Lower(part) == Repeated('0', zeros) + FormatHex(g)
  }

  // A dotted quad in place of two groups.
  ghost predicate WritesQuad(part: string, groups: seq<Group>) {
    exists b: seq<Byte> :: |b| == 4 && part == FormatIpv4(b) && groups == [b[0] as int * 256 + b[1] as int, b[2] as int * 256 + b[3] as int]
  }

  ghost predicate WriteGroups(parts: seq<string>, groups: seq<Group>) {
    |parts| == |groups| && forall k :: 0 <= k < |parts| ==> WritesGroup(parts[k], groups[k])
  }

  // Groups, of which the last two may be written as a quad where that is allowed.
  ghost predicate Write(parts: seq<string>, quadAllowed: bool, groups: seq<Group>) {
    || WriteGroups(parts, groups)
    || (quadAllowed && parts != [] && |groups| == |parts| + 1
        && WriteGroups(parts[..|parts| - 1], groups[..|parts| - 1]) && WritesQuad(parts[|parts| - 1], groups[|parts| - 1..]))
  }

  /** A spelling in the sense of section 2.2 of RFC 4291: eight groups, or fewer around one
      "::" that stands for the missing zeros, where the very end may be a dotted quad. */
  datatype Spelling = Full(groups: seq<string>) | Compressed(left: seq<string>, right: seq<string>) {
    function Written(): string {
      if Full? then Join(groups, ':') else Join(left, ':') + "::" + Join(right, ':')
    }
    ghost predicate Denotes(value: seq<Group>) {
      if Full? then |value| == 8 && Write(groups, true, value)
      else exists l, r :: Write(left, false, l) && Write(right, true, r) && |l| + |r| < 8 && value == l + Zeros(8 - |l| - |r|) + r
    }
  }

  lemma GroupIsWritten(part: string, g: Group)
    ensures WritesGroup(part, g) <==> ParsePart(part, false) == Some([g])
  {
    if 1 <= |part| <= 4 && AllHex(part) {
      HexGroup(part);
      var zeros := HexNumberIsSpelled(part);
      assert '.' !in part;
    }
    if WritesGroup(part, g) {
      var zeros: nat :| Lower(part) == Repeated('0', zeros) + FormatHex(g);
      SpelledHexNumber(part, zeros, g);
    }
  }

  lemma QuadIsWritten(part: string, groups: seq<Group>)
    ensures WritesQuad(part, groups) <==> '.' in part && ParsePart(part, true) == Some(groups)
  {
    hide FormatIpv4;
    if WritesQuad(part, groups) {
      var b: seq<Byte> :| |b| == 4 && part == FormatIpv4(b) && groups == [b[0] as int * 256 + b[1] as int, b[2] as int * 256 + b[3] as int];
      Ipv4RoundTrip(part, b);
      QuadHasDot(b);
    }
    if '.' in part && Ipv4Bytes(part).Some? {
      Ipv4RoundTrip(part, Ipv4Bytes(part).value);
    }
  }

  lemma QuadHasDot(b: seq<Byte>)
    requires |b| == 4
    ensures '.' in FormatIpv4(b)
  {
    assert FormatIpv4(b)[|FormatOctet(b[0])|] == '.';
  }

  lemma PartIsWritten(part: string, quadAllowed: bool, groups: seq<Group>)
    ensures ParsePart(part, quadAllowed) == Some(groups) <==>
            (|groups| == 1 && WritesGroup(part, groups[0])) || (quadAllowed && WritesQuad(part, groups))
  {
    hide WritesGroup, WritesQuad;
    if |groups| == 1 {
      GroupIsWritten(part, groups[0]);
      assert groups == [groups[0]];
    }
    QuadIsWritten(part, groups);
  }

  /** The loop over the parts finds the groups that they write. */
  lemma {:induction false} PartsAreWritten(parts: seq<string>, quadAllowed: bool, groups: seq<Group>)
    ensures ParseParts(parts, quadAllowed) == Some(groups) <==> Write(parts, quadAllowed, groups)
  {
    hide WritesGroup, WritesQuad, ParsePart, Write, Prepend;
    if |parts| == 1 {
      PartIsWritten(parts[0], quadAllowed, groups);
      LastPart(parts, quadAllowed, groups);
    } else if |parts| > 1 {
      FirstPart(parts, quadAllowed, groups);
      FirstWritten(parts, quadAllowed, groups);
      if groups != [] {
        GroupIsWritten(parts[0], groups[0]);
        PartsAreWritten(parts[1..], quadAllowed, groups[1..]);
      }
    } else {
      NoParts(quadAllowed, groups);
    }
  }

  lemma NoParts(quadAllowed: bool, groups: seq<Group>)
    ensures Write([], quadAllowed, groups) <==> groups == []
  {
  }

  lemma LastPart(parts: seq<string>, quadAllowed: bool, groups: seq<Group>)
    requires |parts| == 1
    ensures ParseParts(parts, quadAllowed) == ParsePart(parts[0], quadAllowed)
    ensures Write(parts, quadAllowed, groups) <==>
            (|groups| == 1 && WritesGroup(parts[0], groups[0])) || (quadAllowed && WritesQuad(parts[0], groups))
  {
    hide WritesGroup, ParsePart;
    assert ParseParts(parts[1..], quadAllowed) == Some([]);
    if ParsePart(parts[0], quadAllowed).Some? {
      assert ParsePart(parts[0], quadAllowed).value + [] == ParsePart(parts[0], quadAllowed).value;
    }
    assert |groups| == 2 ==> groups[0..] == groups;
  }

  lemma FirstPart(parts: seq<string>, quadAllowed: bool, groups: seq<Group>)
    requires |parts| > 1
    ensures ParseParts(parts, quadAllowed) == Some(groups) <==>
            groups != [] && ParsePart(parts[0], false) == Some([groups[0]]) && ParseParts(parts[1..], quadAllowed) == Some(groups[1..])
  {
    hide HexNumber, AllHex, Ipv4Bytes;
    var rest := ParseParts(parts[1..], quadAllowed);
    if ParsePart(parts[0], false).Some? && rest.Some? {
      var g := ParsePart(parts[0], false).value;
      assert |g| == 1;
      SameHeadAndTail(groups, g[0], rest.value);
      assert g == [g[0]];
    }
  }

  lemma FirstWritten(parts: seq<string>, quadAllowed: bool, groups: seq<Group>)
    requires |parts| > 1
    ensures Write(parts, quadAllowed, groups) <==>
            groups != [] && WritesGroup(parts[0], groups[0]) && Write(parts[1..], quadAllowed, groups[1..])
  {
    hide WritesGroup, WritesQuad;
    var m := |parts| - 1;
    if groups != [] {
      FirstOfGroups(parts, groups);
      if |groups| == |parts| + 1 {
        FirstOfGroups(parts[..m], groups[..m]);
        assert parts[..m][1..] == parts[1..][..m - 1] && groups[..m][1..] == groups[1..][..m - 1];
        assert groups[m..] == groups[1..][m - 1..];
      }
    }
  }

  lemma FirstOfGroups(parts: seq<string>, groups: seq<Group>)
    requires parts != [] && groups != []
    ensures WriteGroups(parts, groups) <==> WritesGroup(parts[0], groups[0]) && WriteGroups(parts[1..], groups[1..])
  {
    hide WritesGroup;
    if |parts| == |groups| && WritesGroup(parts[0], groups[0]) && WriteGroups(parts[1..], groups[1..]) {
      forall k | 0 <= k < |parts| ensures WritesGroup(parts[k], groups[k]) {
        if k > 0 { assert parts[k] == parts[1..][k - 1] && groups[k] == groups[1..][k - 1]; }
      }
    }
  }

  lemma FullDenotes(groups: seq<string>, value: seq<Group>)
    ensures Full(groups).Denotes(value) <==> |value| == 8 && ParseParts(groups, true) == Some(value)
  {
    hide Write, ParseParts;
    PartsAreWritten(groups, true, value);
  }

  lemma CompressedDenotes(left: seq<string>, right: seq<string>, value: seq<Group>)
    ensures Compressed(left, right).Denotes(value) <==>
      && ParseParts(left, false).Some? && ParseParts(right, true).Some?
      && var l, r := ParseParts(left, false).value, ParseParts(right, true).value;
         |l| + |r| < 8 && value == Expanded(l, r)
  {
    hide Write, ParseParts;
    if ParseParts(left, false).Some? && ParseParts(right, true).Some? {
      PartsAreWritten(left, false, ParseParts(left, false).value);
      PartsAreWritten(right, true, ParseParts(right, true).value);
    }
    if Compressed(left, right).Denotes(value) {
      var l, r :| Write(left, false, l) && Write(right, true, r) && |l| + |r| < 8 && value == l + Zeros(8 - |l| - |r|) + r;
      PartsAreWritten(left, false, l);
      PartsAreWritten(right, true, r);
    }
  }

  lemma HextetsOfParts(parts: seq<string>, quadAllowed: bool)
    requires ParseParts(parts, quadAllowed).Some?
    ensures Hextets(Join(parts, ':'), quadAllowed) == ParseParts(parts, quadAllowed)
  {
    if parts != [] {
      PartsChars(parts, quadAllowed);
      forall k | 0 <= k < |parts| ensures ':' !in parts[k] {
        assert !GroupChar(':');
      }
      SplitJoin(parts, ':');
      JoinEnds(parts, ':');
    }
  }

  lemma FullAccepted(groups: seq<string>, value: seq<Group>)
    requires Full(groups).Denotes(value)
    ensures Ipv6Groups(Join(groups, ':')) == Some(value)
  {
    hide Write;
    var t := Join(groups, ':');
    FullDenotes(groups, value);
    HextetsOfParts(groups, true);
    HextetsChars(t, true);
    assert IndexOfPair(t, ':', 0) == -1;
  }

  lemma CompressedAccepted(L: string, R: string)
    requires Hextets(L, false).Some? && Hextets(R, true).Some?
    requires |Hextets(L, false).value| + |Hextets(R, true).value| < 8
    ensures var l, r := Hextets(L, false).value, Hextets(R, true).value;
      Ipv6Groups(L + "::" + R) == Some(Expanded(l, r))
  {
    HextetsChars(L, false);
    HextetsChars(R, true);
    PairBetween(L, R, ':');
    var t := L + [':', ':'] + R;
    assert t == L + "::" + R;
    assert !GroupChar('%') && '%' !in t;
  }

  /** Every spelling is accepted, with the value it denotes. */
  lemma SpellingAccepted(spelling: Spelling, value: seq<Group>)
    requires spelling.Denotes(value)
    ensures Ipv6Groups(spelling.Written()) == Some(value)
  {
    hide Write, ParseParts, Hextets, Ipv6Groups, Expanded;
    match spelling
    case Full(groups) => FullAccepted(groups, value);
    case Compressed(left, right) =>
      CompressedDenotes(left, right, value);
      HextetsOfParts(left, false);
      HextetsOfParts(right, true);
      CompressedAccepted(Join(left, ':'), Join(right, ':'));
  }

  // The parts that a colon-separated text was read from.
  function PartsOf(input: string): seq<string> { if input == [] then [] else Split(input, ':') }

  lemma PartsOfText(input: string, quadAllowed: bool)
    ensures Join(PartsOf(input), ':') == input
    ensures ParseParts(PartsOf(input), quadAllowed) == Hextets(input, quadAllowed)
  {
    JoinSplit(input, ':');
  }

  /** And nothing else is accepted. */
  lemma AcceptedIsSpelling(input: string, value: seq<Group>) returns (spelling: Spelling)
    requires Ipv6Groups(input) == Some(value)
    ensures spelling.Written() == input && spelling.Denotes(value)
  {
    hide Write, Expanded, Hextets;
    var compression := IndexOfPair(input, ':', 0);
    if compression == -1 {
      PartsOfText(input, true);
      spelling := Full(PartsOf(input));
      FullDenotes(PartsOf(input), value);
    } else {
      var L, R := input[..compression], input[compression + 2..];
      spelling := Compressed(PartsOf(L), PartsOf(R));
      assert input == L + "::" + R;
      CompressedIsWritten(L, R);
      PartsOfText(L, false);
      PartsOfText(R, true);
      CompressedDenotes(PartsOf(L), PartsOf(R), value);
    }
  }

  lemma CompressedIsWritten(L: string, R: string)
    requires Hextets(L, false).Some? && Hextets(R, true).Some?
    ensures Compressed(PartsOf(L), PartsOf(R)).Written() == L + "::" + R
  {
    PartsOfText(L, false);
    PartsOfText(R, true);
  }

  /** The parser accepts exactly the spellings, and gives each its value. */
  lemma Ipv6ParserIsExact(input: string, value: seq<Group>)
    ensures Ipv6Groups(input) == Some(value) <==>
            exists spelling: Spelling :: spelling.Written() == input && spelling.Denotes(value)
  {
    if Ipv6Groups(input) == Some(value) {
      var spelling := AcceptedIsSpelling(input, value);
    }
    if exists spelling: Spelling :: spelling.Written() == input && spelling.Denotes(value) {
      var spelling: Spelling :| spelling.Written() == input && spelling.Denotes(value);
      SpellingAccepted(spelling, value);
    }
  }

  // -------------------------------------------------------------------- printing

  function ZeroRun(groups: seq<Group>, from: nat): (n: nat)
    requires from <= |groups|
    ensures from + n <= |groups|
    ensures forall k :: from <= k < from + n ==> groups[k] == 0
    ensures from + n < |groups| ==> groups[from + n] != 0
    decreases |groups| - from
  {
    if from < |groups| && groups[from] == 0 then 1 + ZeroRun(groups, from + 1) else 0
  }

  datatype Run = Run(start: nat, length: nat)

  // Which of two runs to shorten; the first wins a tie.
  function Longer(first: Run, second: Run): Run { if second.length > first.length then second else first }

  const NO_RUN := Run(0, 0)

  function BestRun(groups: seq<Group>, from: nat): (r: Run)
    requires from <= |groups|
    ensures r.start + r.length <= |groups| && r.length != 1 && (r.length == 0 ==> r == NO_RUN)
    ensures r.length > 0 ==> from <= r.start
    ensures forall k :: r.start <= k < r.start + r.length ==> groups[k] == 0
    decreases |groups| - from
  {
    if from == |groups| then NO_RUN
    else if groups[from] != 0 then BestRun(groups, from + 1)
    else
      var n := ZeroRun(groups, from);
      Longer(if n >= 2 then Run(from, n) else NO_RUN, BestRun(groups, from + n))
  }

  predicate AllZero(groups: seq<Group>, i: nat, j: nat)
    requires i <= j <= |groups|
  {
    forall k :: i <= k < j ==> groups[k] == 0
  }

  /** Sections 4.2.1 to 4.2.3 of RFC 5952: the run that is shortened is the longest,
      the first among equals, and never a single group. */
  lemma {:induction false} BestRunIsFirstLongest(groups: seq<Group>, from: nat, i: nat, j: nat)
    requires from <= i <= j <= |groups| && AllZero(groups, i, j) && j - i >= 2
    ensures var r := BestRun(groups, from);
      r.length >= j - i && (r.length == j - i ==> r.start <= i)
    decreases |groups| - from
  {
    if groups[from] != 0 {
      BestRunIsFirstLongest(groups, from + 1, i, j);
    } else {
      var n := ZeroRun(groups, from);
      if i < from + n {
        assert j <= from + n;
      } else {
        BestRunIsFirstLongest(groups, from + n, i, j);
      }
    }
  }

  function FormatGroups(groups: seq<Group>): (parts: seq<string>)
    ensures |parts| == |groups|
    ensures forall k :: 0 <= k < |groups| ==> parts[k] == FormatHex(groups[k])
  {
    seq(|groups|, k requires 0 <= k < |groups| => FormatHex(groups[k]))
  }

  function Canonical(groups: seq<Group>): Spelling {
    var best := BestRun(groups, 0);
    if best.length == 0 then Full(FormatGroups(groups))
    else Compressed(FormatGroups(groups[..best.start]), FormatGroups(groups[best.start + best.length..]))
  }

  function Ipv6Text(bytes: seq<Byte>): string
    requires |bytes| == 16
  {
    Canonical(GroupsOf(bytes)).Written()
  }

  lemma LongerAssociates(a: Run, b: Run, c: Run)
    ensures Longer(a, Longer(b, c)) == Longer(Longer(a, b), c)
  {
  }

  // The inner loop: past the end of a run of zero groups.
  method ZeroRunEnd(words: seq<Group>, index: nat) returns (end: nat)
    requires index < |words| && words[index] == 0
    ensures end == index + ZeroRun(words, index)
  {
    end := index + 1;
    while end < |words| && words[end] == 0
      invariant index < end <= |words|
      invariant end - index + ZeroRun(words, end) == ZeroRun(words, index)
    {
      end := end + 1;
    }
  }

  // The scanning loop of `formatIpv6`; -1 stands for no run at all.
  method FindBestRun(words: seq<Group>) returns (bestStart: int, bestLength: nat)
    ensures bestStart >= -1 && (bestStart == -1 <==> BestRun(words, 0).length == 0)
    ensures bestStart != -1 ==> BestRun(words, 0) == Run(bestStart, bestLength)
  {
    bestStart, bestLength := -1, 0;
    ghost var best := NO_RUN;
    var index := 0;
    while index < |words|
      invariant 0 <= index <= |words|
      invariant best == NO_RUN <==> bestStart == -1
      invariant bestStart >= -1 && best.length == bestLength && (bestStart != -1 ==> best.start == bestStart && bestLength > 0)
      invariant BestRun(words, 0) == Longer(best, BestRun(words, index))
      decreases |words| - index
    {
      if words[index] != 0 {
        index := index + 1;
      } else {
        var end := ZeroRunEnd(words, index);
        var length := end - index;
        ghost var next := if length >= 2 then Run(index, length) else NO_RUN;
        BestRunStep(words, index, end, next, best);
        best := Longer(best, next);
        if length >= 2 && length > bestLength {
          bestStart, bestLength := index, length;
        }
        index := end;
      }
    }
  }

  lemma BestRunStep(words: seq<Group>, index: nat, end: nat, next: Run, best: Run)
    requires index < |words| && words[index] == 0 && end == index + ZeroRun(words, index)
    requires next == if end - index >= 2 then Run(index, end - index) else NO_RUN
    ensures Longer(best, BestRun(words, index)) == Longer(Longer(best, next), BestRun(words, end))
  {
    assert BestRun(words, index) == Longer(next, BestRun(words, end));
    LongerAssociates(best, next, BestRun(words, end));
  }

  // The four ways to write a shortened text are one.
  function Around(left: string, right: string): (text: string)
    ensures text == left + "::" + right
  {
    if left == [] && right == [] then "::"
    else if left == [] then "::" + right
    else if right == [] then left + "::"
    else left + "::" + right
  }

  /** `formatIpv6`: find the run to shorten, then write around it. */
  method FormatIpv6(bytes: seq<Byte>) returns (text: string)
    requires |bytes| == 16
    ensures text == Ipv6Text(bytes)
  {
    var words := GroupsOf(bytes);
    var bestStart, bestLength := FindBestRun(words);
    text := Shortened(words, bestStart, bestLength);
  }

  method Shortened(words: seq<Group>, bestStart: int, bestLength: nat) returns (text: string)
    requires bestStart >= -1 && (bestStart == -1 <==> BestRun(words, 0).length == 0)
    requires bestStart != -1 ==> BestRun(words, 0) == Run(bestStart, bestLength)
    ensures text == Canonical(words).Written()
  {
    if bestStart == -1 { return Join(FormatGroups(words), ':'); }
    var left, right := FormatGroups(words[..bestStart]), FormatGroups(words[bestStart + bestLength..]);
    assert Canonical(words) == Compressed(left, right);
    text := Around(Join(left, ':'), Join(right, ':'));
  }

  lemma FormattedPart(g: Group, quadAllowed: bool)
    ensures ParsePart(FormatHex(g), quadAllowed) == Some([g])
  {
    HexRoundTrip(g);
    HexWidth(g);
    assert !IsHex('.');
  }

  lemma FormatGroupsStep(groups: seq<Group>)
    requires groups != []
    ensures FormatGroups(groups) == [FormatHex(groups[0])] + FormatGroups(groups[1..])
  {
  }

  lemma {:induction false} FormattedParts(groups: seq<Group>, quadAllowed: bool)
    ensures ParseParts(FormatGroups(groups), quadAllowed) == Some(groups)
  {
    if groups != [] {
      FormattedParts(groups[1..], quadAllowed);
      FormatGroupsStep(groups);
      FormattedPart(groups[0], quadAllowed && |groups| == 1);
      assert [groups[0]] + groups[1..] == groups;
    }
  }

  lemma CanonicalDenotes(groups: seq<Group>)
    requires |groups| == 8
    ensures Canonical(groups).Denotes(groups)
  {
    hide Write, ParseParts;
    var best := BestRun(groups, 0);
    var l, r := groups[..best.start], groups[best.start + best.length..];
    FullDenotes(FormatGroups(groups), groups);
    CompressedDenotes(FormatGroups(l), FormatGroups(r), groups);
    FormattedParts(groups, true);
    FormattedParts(l, false);
    FormattedParts(r, true);
    assert best.length > 0 ==> groups == Expanded(l, r);
  }

  /** Parsing the printed form of any 16 bytes gives those bytes back. */
  lemma Ipv6RoundTrip(bytes: seq<Byte>)
    requires |bytes| == 16
    ensures Ipv6Groups(Ipv6Text(bytes)) == Some(GroupsOf(bytes)) && BytesOf(GroupsOf(bytes)) == bytes
  {
    CanonicalDenotes(GroupsOf(bytes));
    SpellingAccepted(Canonical(GroupsOf(bytes)), GroupsOf(bytes));
    BytesGroupsRoundTrip(bytes);
  }

  // -------------------------------------------------------------- parseIpAddress

  datatype Address = Address(text: string, family: nat, bytes: seq<Byte>, mappedIpv4: Option<string>)

  function Mapped(bytes: seq<Byte>): Option<seq<Byte>> {
    if |bytes| != 16 || (exists k :: 0 <= k < 10 && bytes[k] != 0) || bytes[10] != 255 || bytes[11] != 255 then None
    else Some(bytes[12..])
  }

  function Ipv4Address(bytes: seq<Byte>): Address { Address(FormatIpv4(bytes), 4, bytes, None) }

  function Ipv6Address(bytes: seq<Byte>): Address
    requires |bytes| == 16
  {
    Address(Ipv6Text(bytes), 6, bytes, match Mapped(bytes) case None => None case Some(v4) => Some(FormatIpv4(v4)))
  }

  function ParseAddress(input: string): Option<Address> {
    if input == [] || Trim(input) != input || StartsWith(input, "[") || EndsWith(input, "]") then None
    else match Ipv4Bytes(input)
      case Some(b) => Some(Ipv4Address(b))
      case None => match Ipv6Groups(input)
        case None => None
        case Some(groups) => Some(Ipv6Address(BytesOf(groups)))
  }

  lemma Ipv6TextEnds(bytes: seq<Byte>)
    requires |bytes| == 16
    ensures var t := Ipv6Text(bytes);
      t != [] && ':' in t && forall c :: c in t ==> IsHex(c) || c == ':'
  {
    var groups := GroupsOf(bytes);
    var best := BestRun(groups, 0);
    var t := Ipv6Text(bytes);
    if best.length == 0 {
      assert t == FormatGroups(groups)[0] + [':'] + Join(FormatGroups(groups)[1..], ':');
      forall c | c in t ensures IsHex(c) || c == ':' { JoinChars(FormatGroups(groups), ':', c); }
    } else {
      var l, r := FormatGroups(groups[..best.start]), FormatGroups(groups[best.start + best.length..]);
      assert t == Join(l, ':') + "::" + Join(r, ':');
      assert t[|Join(l, ':')|] == ':';
      forall c | c in t ensures IsHex(c) || c == ':' {
        if c in Join(l, ':') { JoinChars(l, ':', c); } else if c in Join(r, ':') { JoinChars(r, ':', c); }
      }
    }
  }

  lemma Ipv4TextParses(bytes: seq<Byte>)
    requires |bytes| == 4
    ensures ParseAddress(FormatIpv4(bytes)) == Some(Ipv4Address(bytes))
  {
    var t := FormatIpv4(bytes);
    Ipv4RoundTrip(t, bytes);
    Ipv4TextChars(bytes);
    JoinEnds(FormatOctets(bytes), '.');
    assert t[0] in t && t[|t| - 1] in t;
    TrimIdentity(t);
  }

  lemma Ipv6TextParses(bytes: seq<Byte>)
    requires |bytes| == 16
    ensures ParseAddress(Ipv6Text(bytes)) == Some(Ipv6Address(bytes))
  {
    var t := Ipv6Text(bytes);
    Ipv6RoundTrip(bytes);
    Ipv6TextEnds(bytes);
    NothingToTrim(t);
    Ipv6TextIsNoQuad(t);
    ParsedAsIpv6(t, GroupsOf(bytes));
  }

  lemma ParsedAsIpv6(t: string, groups: seq<Group>)
    requires t != [] && Trim(t) == t && !StartsWith(t, "[") && !EndsWith(t, "]")
    requires Ipv4Bytes(t).None? && Ipv6Groups(t) == Some(groups)
    ensures |groups| == 8 && ParseAddress(t) == Some(Ipv6Address(BytesOf(groups)))
  {
  }

  lemma NothingToTrim(t: string)
    requires t != [] && forall c :: c in t ==> IsHex(c) || c == ':'
    ensures Trim(t) == t && !StartsWith(t, "[") && !EndsWith(t, "]")
  {
    assert t[0] in t && t[|t| - 1] in t;
    TrimIdentity(t);
  }

  // What contains a colon is not an IPv4 address.
  lemma Ipv6TextIsNoQuad(t: string)
    requires ':' in t
    ensures Ipv4Bytes(t).None?
  {
    if Ipv4Bytes(t).Some? {
      Ipv4RoundTrip(t, Ipv4Bytes(t).value);
      Ipv4TextChars(Ipv4Bytes(t).value);
    }
  }

  /** The canonical text of any address parses back to that address. */
  lemma CanonicalTextParses(address: Address)
    requires address.family == 4 || address.family == 6
    requires address.family == 4 ==> |address.bytes| == 4 && address == Ipv4Address(address.bytes)
    requires address.family == 6 ==> |address.bytes| == 16 && address == Ipv6Address(address.bytes)
    ensures ParseAddress(address.text) == Some(address)
  {
    if address.family == 4 { Ipv4TextParses(address.bytes); } else { Ipv6TextParses(address.bytes); }
  }

  /** Whatever spelling was accepted, re-parsing the printed text is a fixed point. */
  lemma ParseIsFixedPoint(input: string)
    requires ParseAddress(input).Some?
    ensures ParseAddress(ParseAddress(input).value.text) == ParseAddress(input)
  {
    if Ipv4Bytes(input).Some? { Ipv4RoundTrip(input, Ipv4Bytes(input).value); }
    CanonicalTextParses(ParseAddress(input).value);
  }

  // ------------------------------------------------------------------- letter case

  lemma PlainQuad(input: string)
    requires Ipv4Bytes(input).Some?
    ensures forall k :: 0 <= k < |input| ==> Ipv4Char(input[k])
  {
    Ipv4RoundTrip(input, Ipv4Bytes(input).value);
    Ipv4TextChars(Ipv4Bytes(input).value);
  }

  lemma LowerQuad(input: string)
    ensures Ipv4Bytes(Lower(input)) == Ipv4Bytes(input)
  {
    hide Ipv4Bytes;
    if Ipv4Bytes(input).Some? {
      PlainQuad(input);
      assert Lower(input) == input;
    }
    if Ipv4Bytes(Lower(input)).Some? {
      PlainQuad(Lower(input));
      forall k | 0 <= k < |input| ensures input[k] == Lower(input)[k] { assert Ipv4Char(Lower(input)[k]); }
      assert Lower(input) == input;
    }
  }

  lemma LowerPart(part: string, quadAllowed: bool)
    ensures ParsePart(Lower(part), quadAllowed) == ParsePart(part, quadAllowed)
  {
    hide Ipv4Bytes, HexNumber, AllHex, Lower;
    LowerQuad(part);
    LowerKeeps(part, '.');
    LowerHex(part);
  }

  lemma {:induction false} LowerParts(parts: seq<string>, quadAllowed: bool)
    ensures ParseParts(LowerAll(parts), quadAllowed) == ParseParts(parts, quadAllowed)
  {
    hide ParsePart, Lower;
    if parts != [] {
      LowerPart(parts[0], quadAllowed && |parts| == 1);
      LowerParts(parts[1..], quadAllowed);
      LowerAllStep(parts[0], parts[1..]);
      assert parts == [parts[0]] + parts[1..];
    }
  }

  lemma LowerHextets(input: string, quadAllowed: bool)
    ensures Hextets(Lower(input), quadAllowed) == Hextets(input, quadAllowed)
  {
    hide Lower, LowerAll;
    LowerSplit(input, ':');
    LowerParts(Split(input, ':'), quadAllowed);
  }

  lemma LowerPairs(input: string, from: nat)
    ensures IndexOfPair(Lower(input), ':', from) == IndexOfPair(input, ':', from)
  {
    hide IndexOfPair, Lower;
    LowerKeeps(input, ':');
    var a, b := IndexOfPair(input, ':', from), IndexOfPair(Lower(input), ':', from);
    assert forall i :: PairAt(input, ':', i) <==> PairAt(Lower(input), ':', i);
    assert a != -1 ==> PairAt(Lower(input), ':', a);
    assert b != -1 ==> PairAt(input, ':', b);
  }

  lemma LowerHalves(input: string, i: nat)
    requires i + 2 <= |input|
    ensures Lower(input)[..i] == Lower(input[..i]) && Lower(input)[i + 2..] == Lower(input[i + 2..])
  {
  }

  lemma LowerGroups(input: string)
    ensures Ipv6Groups(Lower(input)) == Ipv6Groups(input)
  {
    hide Hextets, IndexOfPair, Lower;
    LowerKeeps(input, '%');
    LowerPairs(input, 0);
    LowerHextets(input, true);
    var compression := IndexOfPair(input, ':', 0);
    if compression != -1 {
      LowerPairs(input, compression + 2);
      var left, right := input[..compression], input[compression + 2..];
      LowerHextets(left, false);
      LowerHextets(right, true);
      LowerHalves(input, compression);
      assert Hextets(Lower(input)[..compression], false) == Hextets(left, false);
      assert Hextets(Lower(input)[compression + 2..], true) == Hextets(right, true);
    }
  }

  /** A text means the same address, or none, in capital and in small letters. */
  lemma CaseDoesNotMatter(input: string)
    ensures ParseAddress(Lower(input)) == ParseAddress(input)
  {
    hide Ipv4Bytes, Ipv6Groups, Trim, Lower, StartsWith, EndsWith;
    LowerQuad(input);
    LowerGroups(input);
    LowerTrims(input);
    if input != [] { LowerBrackets(input); }
  }

  lemma LowerBrackets(input: string)
    requires input != []
    ensures StartsWith(Lower(input), "[") <==> StartsWith(input, "[")
    ensures EndsWith(Lower(input), "]") <==> EndsWith(input, "]")
  {
    var last := |input| - 1;
    LowerKeeps(input, '[');
    LowerKeeps(input, ']');
    assert input[last..] == [input[last]] && Lower(input)[last..] == [Lower(input)[last]];
  }

  /** Two accepted texts print alike exactly when they are the same address, as they are if
      they differ only in the case of letters. */
  lemma OneTextPerAddress(a: string, b: string)
    requires ParseAddress(a).Some? && ParseAddress(b).Some?
    ensures var x, y := ParseAddress(a).value, ParseAddress(b).value;
      && (x.text == y.text <==> x.family == y.family && x.bytes == y.bytes)
      && (Lower(a) == Lower(b) ==> x == y)
  {
    ParseIsFixedPoint(a);
    ParseIsFixedPoint(b);
    CaseDoesNotMatter(a);
    CaseDoesNotMatter(b);
  }

  /** A text without colons is never an IPv6 address. */
  lemma NoColonNoIpv6(input: string)
    requires ':' !in input
    ensures Ipv6Groups(input) == None
  {
    SplitNoSeparator(input, ':');
    assert ParseParts([input], true) == match ParsePart(input, true) {
      case None => None
      case Some(groups) => Prepend(groups, ParseParts([input][1..], true)) };
  }
}
