/** What the tables of address ranges come to: the category of every IPv4 address by its
    bytes, and of every IPv6 address by its groups. */
module PublicAddresses {
  import opened Bytes
  import opened Text
  import opened Addresses
  import opened AddressClasses

  // The rest of a table, from this entry on.
  lemma Entry(bytes: seq<Byte>, ranges: seq<Range>, k: nat)
    requires AllFit(ranges, |bytes|) && k < |ranges|
    ensures AllFit(ranges[k..], |bytes|) && AllFit(ranges[k + 1..], |bytes|) && ranges[k].Fits(|bytes|)
    ensures CategoryInRanges(bytes, ranges[k..]) ==
      if PrefixMatch(bytes, ranges[k].prefix, ranges[k].length) then Some(ranges[k].category) else CategoryInRanges(bytes, ranges[k + 1..])
  {
    hide PrefixMatch;
    assert ranges[k..][1..] == ranges[k + 1..];
  }

  // Whole bytes, and the first bits of one more.
  lemma Bitwise(bytes: seq<Byte>, prefix: seq<Byte>, whole: nat, rest: nat, weight: nat)
    requires |bytes| == |prefix| && rest < 8 && 8 * whole + rest <= 8 * |bytes| && weight == Pow2(8 - rest)
    ensures PrefixMatch(bytes, prefix, 8 * whole + rest) <==>
      && (forall k :: 0 <= k < whole ==> bytes[k] == prefix[k])
      && (rest != 0 ==> bytes[whole] / weight == prefix[whole] / weight)
  {
    hide MaskedEqual;
    assert (8 * whole + rest) / 8 == whole && (8 * whole + rest) % 8 == rest;
    if rest != 0 { MaskIsDivision(bytes[whole], prefix[whole], 8 - rest); }
  }

  lemma Weights()
    ensures Pow2(1) == 2 && Pow2(4) == 16 && Pow2(5) == 32 && Pow2(6) == 64 && Pow2(8) == 256
  {
    assert Pow2(1) == 2 * Pow2(0) && Pow2(2) == 2 * Pow2(1) && Pow2(3) == 2 * Pow2(2) && Pow2(4) == 2 * Pow2(3);
    assert Pow2(5) == 2 * Pow2(4) && Pow2(6) == 2 * Pow2(5) && Pow2(7) == 2 * Pow2(6) && Pow2(8) == 2 * Pow2(7);
  }

  // ------------------------------------------------------------------------ IPv4

  lemma OneByte(b: seq<Byte>, x: Byte)
    requires |b| == 4
    ensures PrefixMatch(b, [x, 0, 0, 0], 8) <==> b[0] == x
  {
    Bitwise(b, [x, 0, 0, 0], 1, 0, Pow2(8));
  }

  lemma TwoBytes(b: seq<Byte>, x: Byte, y: Byte)
    requires |b| == 4
    ensures PrefixMatch(b, [x, y, 0, 0], 16) <==> b[0] == x && b[1] == y
  {
    Bitwise(b, [x, y, 0, 0], 2, 0, Pow2(8));
  }

  lemma ThreeBytes(b: seq<Byte>, x: Byte, y: Byte, z: Byte)
    requires |b| == 4
    ensures PrefixMatch(b, [x, y, z, 0], 24) <==> b[0] == x && b[1] == y && b[2] == z
  {
    Bitwise(b, [x, y, z, 0], 3, 0, Pow2(8));
  }

  lemma OddLengths(b: seq<Byte>)
    requires |b| == 4
    ensures PrefixMatch(b, [100, 64, 0, 0], 10) <==> b[0] == 100 && 64 <= b[1] < 128
    ensures PrefixMatch(b, [172, 16, 0, 0], 12) <==> b[0] == 172 && 16 <= b[1] < 32
    ensures PrefixMatch(b, [198, 18, 0, 0], 15) <==> b[0] == 198 && 18 <= b[1] < 20
    ensures PrefixMatch(b, [224, 0, 0, 0], 4) <==> 224 <= b[0] < 240
    ensures PrefixMatch(b, [240, 0, 0, 0], 4) <==> 240 <= b[0]
  {
    hide PrefixMatch;
    Weights();
    Bitwise(b, [100, 64, 0, 0], 1, 2, 64);
    Bitwise(b, [172, 16, 0, 0], 1, 4, 16);
    Bitwise(b, [198, 18, 0, 0], 1, 7, 2);
    Bitwise(b, [224, 0, 0, 0], 0, 4, 16);
    Bitwise(b, [240, 0, 0, 0], 0, 4, 16);
  }

  lemma NoEntries(bytes: seq<Byte>, ranges: seq<Range>)
    requires ranges == []
    ensures AllFit(ranges, |bytes|) && CategoryInRanges(bytes, ranges) == None
  {
  }

  // What the entry of this number says about the bytes of an address.
  predicate InRange4(b: seq<Byte>, i: nat)
    requires |b| == 4 && i < 15
  {
    match i
    case 0 => b[0] == 0
    case 1 => b[0] == 10
    case 2 => b[0] == 100 && 64 <= b[1] < 128
    case 3 => b[0] == 127
    case 4 => b[0] == 169 && b[1] == 254
    case 5 => b[0] == 172 && 16 <= b[1] < 32
    case 6 => b[0] == 192 && b[1] == 0 && b[2] == 0
    case 7 => b[0] == 192 && b[1] == 0 && b[2] == 2
    case 8 => b[0] == 192 && b[1] == 88 && b[2] == 99
    case 9 => b[0] == 192 && b[1] == 168
    case 10 => b[0] == 198 && 18 <= b[1] < 20
    case 11 => b[0] == 198 && b[1] == 51 && b[2] == 100
    case 12 => b[0] == 203 && b[1] == 0 && b[2] == 113
    case 13 => 224 <= b[0] < 240
    case _ => 240 <= b[0]
  }

  function Category4(i: nat): Category
    requires i < 15
  {
    if i == 0 then Unspecified
    else if i == 1 || i == 5 || i == 9 then Private
    else if i == 2 then CarrierGradeNat
    else if i == 3 then Loopback
    else if i == 4 then LinkLocal
    else if i == 7 || i == 11 || i == 12 then Documentation
    else if i == 10 then Benchmark
    else if i == 13 then Multicast
    else Reserved
  }

  lemma Entry4(b: seq<Byte>, i: nat)
    requires |b| == 4 && i < 15
    ensures |IPV4_NON_PUBLIC| == 15 && IPV4_NON_PUBLIC[i].Fits(4) && IPV4_NON_PUBLIC[i].category == Category4(i)
    ensures PrefixMatch(b, IPV4_NON_PUBLIC[i].prefix, IPV4_NON_PUBLIC[i].length) <==> InRange4(b, i)
  {
    hide PrefixMatch;
    OddLengths(b);
    match i
    case 0 => OneByte(b, 0);
    case 1 => OneByte(b, 10);
    case 3 => OneByte(b, 127);
    case 4 => TwoBytes(b, 169, 254);
    case 6 => ThreeBytes(b, 192, 0, 0);
    case 7 => ThreeBytes(b, 192, 0, 2);
    case 8 => ThreeBytes(b, 192, 88, 99);
    case 9 => TwoBytes(b, 192, 168);
    case 11 => ThreeBytes(b, 198, 51, 100);
    case 12 => ThreeBytes(b, 203, 0, 113);
    case _ =>
  }

  // The first of the ranges, from this one on, that the address is in.
  function Found4(b: seq<Byte>, i: nat): Option<Category>
    requires |b| == 4 && i <= 15
    decreases 15 - i
  {
    if i == 15 then None else if InRange4(b, i) then Some(Category4(i)) else Found4(b, i + 1)
  }

  lemma {:induction false} TableSays4(b: seq<Byte>, i: nat)
    requires |b| == 4 && i <= 15
    ensures |IPV4_NON_PUBLIC| == 15 && AllFit(IPV4_NON_PUBLIC[i..], 4) && CategoryInRanges(b, IPV4_NON_PUBLIC[i..]) == Found4(b, i)
    decreases 15 - i
  {
    hide PrefixMatch, InRange4, CategoryInRanges, Category4;
    TablesFit();
    if i < 15 {
      Entry4(b, i);
      Entry(b, IPV4_NON_PUBLIC, i);
      TableSays4(b, i + 1);
    } else {
      NoEntries(b, IPV4_NON_PUBLIC[15..]);
    }
  }

  lemma NotFound4(b: seq<Byte>, i: nat)
    requires |b| == 4 && i <= 15
    ensures Found4(b, i) == None <==> forall k :: i <= k < 15 ==> !InRange4(b, k)
    ensures Found4(b, i) != Some(Public)
    decreases 15 - i
  {
    hide InRange4;
    if i < 15 { NotFound4(b, i + 1); }
  }

  /** Which IPv4 addresses are public, and what the others are. */
  lemma Ipv4Categories(b: seq<Byte>)
    requires |b| == 4
    ensures TABLES.Fit()
    ensures ClassifyIpv4(b, TABLES) == Or(Found4(b, 0), Public)
    ensures ClassifyIpv4(b, TABLES) == Public <==>
      && b[0] !in {0, 10, 127} && b[0] < 224
      && !(b[0] == 100 && 64 <= b[1] < 128) && !(b[0] == 169 && b[1] == 254) && !(b[0] == 172 && 16 <= b[1] < 32)
      && !(b[0] == 192 && (b[1] == 168 || (b[1] == 0 && b[2] in {0, 2}) || (b[1] == 88 && b[2] == 99)))
      && !(b[0] == 198 && (18 <= b[1] < 20 || (b[1] == 51 && b[2] == 100))) && !(b[0] == 203 && b[1] == 0 && b[2] == 113)
  {
    hide CategoryInRanges, Found4;
    TablesFit();
    TableSays4(b, 0);
    assert IPV4_NON_PUBLIC[0..] == IPV4_NON_PUBLIC;
    NotFound4(b, 0);
    if Found4(b, 0) == None { OutsideAll4(b); } else { InsideOne4(b); }
  }

  lemma OutsideAll4(b: seq<Byte>)
    requires |b| == 4 && forall k :: 0 <= k < 15 ==> !InRange4(b, k)
    ensures b[0] !in {0, 10, 127} && b[0] < 224
    ensures !(b[0] == 100 && 64 <= b[1] < 128) && !(b[0] == 169 && b[1] == 254) && !(b[0] == 172 && 16 <= b[1] < 32)
    ensures !(b[0] == 192 && (b[1] == 168 || (b[1] == 0 && b[2] in {0, 2}) || (b[1] == 88 && b[2] == 99)))
    ensures !(b[0] == 198 && (18 <= b[1] < 20 || (b[1] == 51 && b[2] == 100))) && !(b[0] == 203 && b[1] == 0 && b[2] == 113)
  {
    assert !InRange4(b, 0) && !InRange4(b, 1) && !InRange4(b, 2) && !InRange4(b, 3) && !InRange4(b, 4) && !InRange4(b, 5);
    assert !InRange4(b, 6) && !InRange4(b, 7) && !InRange4(b, 8) && !InRange4(b, 9) && !InRange4(b, 10);
    assert !InRange4(b, 11) && !InRange4(b, 12) && !InRange4(b, 13) && !InRange4(b, 14);
  }

  lemma InsideOne4(b: seq<Byte>)
    requires |b| == 4 && exists k :: 0 <= k < 15 && InRange4(b, k)
    ensures b[0] in {0, 10, 127} || b[0] >= 224
      || (b[0] == 100 && 64 <= b[1] < 128) || (b[0] == 169 && b[1] == 254) || (b[0] == 172 && 16 <= b[1] < 32)
      || (b[0] == 192 && (b[1] == 168 || (b[1] == 0 && b[2] in {0, 2}) || (b[1] == 88 && b[2] == 99)))
      || (b[0] == 198 && (18 <= b[1] < 20 || (b[1] == 51 && b[2] == 100))) || (b[0] == 203 && b[1] == 0 && b[2] == 113)
  {
  }

  // ------------------------------------------------------------------------ IPv6

  // A byte of a prefix that is given by its first groups.
  function ByteAt(groups: seq<Group>, k: nat): Byte {
    if k / 2 >= |groups| then 0 else if k % 2 == 0 then groups[k / 2] / 256 else groups[k / 2] % 256
  }

  lemma StartsWithGroups(b: seq<Byte>, groups: seq<Group>, whole: nat, rest: nat, weight: nat)
    requires |b| == 16 && |groups| <= 8 && rest < 8 && 8 * whole + rest <= 128 && weight == Pow2(8 - rest)
    ensures PrefixMatch(b, BytesOf(groups + Zeros(8 - |groups|)), 8 * whole + rest) <==>
      && (forall k :: 0 <= k < whole ==> b[k] == ByteAt(groups, k))
      && (rest != 0 ==> b[whole] / weight == ByteAt(groups, whole) / weight)
  {
    hide PrefixMatch;
    var prefix := BytesOf(groups + Zeros(8 - |groups|));
    Bitwise(b, prefix, whole, rest, weight);
    forall k | 0 <= k < 16 ensures prefix[k] == ByteAt(groups, k) { PaddedByte(groups, k); }
  }

  lemma PaddedByte(groups: seq<Group>, k: nat)
    requires |groups| <= 8 && k < 16
    ensures BytesOf(groups + Zeros(8 - |groups|))[k] == ByteAt(groups, k)
  {
    var padded := groups + Zeros(8 - |groups|);
    GroupBytes(padded, k / 2);
    assert k == 2 * (k / 2) || k == 2 * (k / 2) + 1;
    assert padded[k / 2] == if k / 2 < |groups| then groups[k / 2] else 0;
  }

  predicate ZeroBetween(b: seq<Byte>, i: nat, j: nat)
    requires |b| == 16 && i <= j <= 16
  {
    forall k :: i <= k < j ==> b[k] == 0
  }

  // What the entry of this number says about the bytes of an address.
  predicate InRange6(b: seq<Byte>, i: nat)
    requires |b| == 16 && i < 15
  {
    match i
    case 0 => ZeroBetween(b, 0, 12)
    case 1 => b[..4] == [0, 0x64, 0xff, 0x9b] && ZeroBetween(b, 4, 12)
    case 2 => b[..6] == [0, 0x64, 0xff, 0x9b, 0, 1]
    case 3 => b[..2] == [1, 0] && ZeroBetween(b, 2, 8)
    case 4 => b[..4] == [0x20, 1, 0, 2] && ZeroBetween(b, 4, 6)
    case 5 => b[..3] == [0x20, 1, 0] && 0x10 <= b[3] < 0x20
    case 6 => b[..3] == [0x20, 1, 0] && 0x20 <= b[3] < 0x30
    case 7 => b[..2] == [0x20, 1] && b[2] < 2
    case 8 => b[..4] == [0x20, 1, 0xd, 0xb8]
    case 9 => b[..2] == [0x20, 2]
    case 10 => b[..2] == [0x3f, 0xff] && b[2] < 0x10
    case 11 => b[..2] == [0x5f, 0]
    case 12 => 0xfc <= b[0] < 0xfe
    case 13 => b[0] == 0xfe && 0x80 <= b[1] < 0xc0
    case _ => b[0] == 0xff
  }

  // Some bytes, and then zeros.
  lemma ThenZeros(b: seq<Byte>, groups: seq<Group>, start: seq<Byte>, whole: nat)
    requires |b| == 16 && |groups| <= 8 && |start| <= whole <= 16 && |start| == 2 * |groups|
    requires forall k :: 0 <= k < |start| ==> start[k] == ByteAt(groups, k)
    ensures PrefixMatch(b, BytesOf(groups + Zeros(8 - |groups|)), 8 * whole) <==> b[..|start|] == start && ZeroBetween(b, |start|, whole)
  {
    hide PrefixMatch, BytesOf, Zeros;
    StartsWithGroups(b, groups, whole, 0, Pow2(8));
    if b[..|start|] == start && ZeroBetween(b, |start|, whole) {
      forall k | 0 <= k < whole ensures b[k] == ByteAt(groups, k) { if k < |start| { assert b[k] == b[..|start|][k]; } }
    }
  }

  lemma Entries0to2(b: seq<Byte>, i: nat)
    requires |b| == 16 && i < 3
    ensures IPV6_NON_PUBLIC[i].Fits(16)
    ensures PrefixMatch(b, IPV6_NON_PUBLIC[i].prefix, IPV6_NON_PUBLIC[i].length) <==> InRange6(b, i)
  {
    hide PrefixMatch, BytesOf, Zeros;
    match i
    case 0 => ThenZeros(b, [], [], 12);
    case 1 => ThenZeros(b, [0x64, 0xff9b], [0, 0x64, 0xff, 0x9b], 12);
    case 2 => ThenZeros(b, [0x64, 0xff9b, 1], [0, 0x64, 0xff, 0x9b, 0, 1], 6);
  }

  lemma Entries3to4(b: seq<Byte>, i: nat)
    requires |b| == 16 && 3 <= i < 5
    ensures IPV6_NON_PUBLIC[i].Fits(16)
    ensures PrefixMatch(b, IPV6_NON_PUBLIC[i].prefix, IPV6_NON_PUBLIC[i].length) <==> InRange6(b, i)
  {
    hide PrefixMatch, BytesOf, Zeros;
    match i
    case 3 => ThenZeros(b, [0x100], [1, 0], 8);
    case 4 => ThenZeros(b, [0x2001, 2], [0x20, 1, 0, 2], 6);
  }

  lemma Entries5to9(b: seq<Byte>, i: nat)
    requires |b| == 16 && 5 <= i < 10
    ensures IPV6_NON_PUBLIC[i].Fits(16)
    ensures PrefixMatch(b, IPV6_NON_PUBLIC[i].prefix, IPV6_NON_PUBLIC[i].length) <==> InRange6(b, i)
  {
    hide PrefixMatch, BytesOf, Zeros;
    Weights();
    match i
    case 5 => StartsWithGroups(b, [0x2001, 0x10], 3, 4, 16);
    case 6 => StartsWithGroups(b, [0x2001, 0x20], 3, 4, 16);
    case 7 => StartsWithGroups(b, [0x2001], 2, 7, 2);
    case 8 => StartsWithGroups(b, [0x2001, 0xdb8], 4, 0, Pow2(8));
    case 9 => StartsWithGroups(b, [0x2002], 2, 0, Pow2(8));
  }

  lemma Entries10to14(b: seq<Byte>, i: nat)
    requires |b| == 16 && 10 <= i < 15
    ensures IPV6_NON_PUBLIC[i].Fits(16)
    ensures PrefixMatch(b, IPV6_NON_PUBLIC[i].prefix, IPV6_NON_PUBLIC[i].length) <==> InRange6(b, i)
  {
    hide PrefixMatch, BytesOf, Zeros;
    Weights();
    match i
    case 10 => StartsWithGroups(b, [0x3fff], 2, 4, 16);
    case 11 => StartsWithGroups(b, [0x5f00], 2, 0, Pow2(8));
    case 12 => StartsWithGroups(b, [0xfc00], 0, 7, 2);
    case 13 => StartsWithGroups(b, [0xfe80], 1, 2, 64);
    case 14 => StartsWithGroups(b, [0xff00], 1, 0, Pow2(8));
  }

  function Category6(i: nat): Category
    requires i < 15
  {
    if i == 4 then Benchmark
    else if i == 8 || i == 10 then Documentation
    else if i == 12 then Private
    else if i == 13 then LinkLocal
    else if i == 14 then Multicast
    else Reserved
  }

  lemma Entry6(b: seq<Byte>, i: nat)
    requires |b| == 16 && i < 15
    ensures |IPV6_NON_PUBLIC| == 15 && IPV6_NON_PUBLIC[i].Fits(16) && IPV6_NON_PUBLIC[i].category == Category6(i)
    ensures PrefixMatch(b, IPV6_NON_PUBLIC[i].prefix, IPV6_NON_PUBLIC[i].length) <==> InRange6(b, i)
  {
    hide PrefixMatch, InRange6;
    if i < 3 { Entries0to2(b, i); }
    else if i < 5 { Entries3to4(b, i); }
    else if i < 10 { Entries5to9(b, i); }
    else { Entries10to14(b, i); }
  }

  // The first of the ranges, from this one on, that the address is in.
  function Found6(b: seq<Byte>, i: nat): Option<Category>
    requires |b| == 16 && i <= 15
    decreases 15 - i
  {
    if i == 15 then None else if InRange6(b, i) then Some(Category6(i)) else Found6(b, i + 1)
  }

  lemma {:induction false} TableSays(b: seq<Byte>, i: nat)
    requires |b| == 16 && i <= 15
    ensures |IPV6_NON_PUBLIC| == 15 && AllFit(IPV6_NON_PUBLIC[i..], 16) && CategoryInRanges(b, IPV6_NON_PUBLIC[i..]) == Found6(b, i)
    decreases 15 - i
  {
    hide PrefixMatch, InRange6, CategoryInRanges, Category6;
    TablesFit();
    if i < 15 {
      Entry6(b, i);
      Entry(b, IPV6_NON_PUBLIC, i);
      TableSays(b, i + 1);
    } else {
      NoEntries(b, IPV6_NON_PUBLIC[15..]);
    }
  }

  lemma Singletons(a: Address)
    requires WellFormed(a) && a.family == 6
    ensures a.text == "::" <==> ZeroBetween(a.bytes, 0, 16)
    ensures a.text == "::1" <==> IsOne(a.bytes)
  {
    var one: seq<Byte> := seq(16, k => if k == 15 then 1 else 0);
    var zero: seq<Byte> := seq(16, _ => 0);
    ZeroText(zero);
    OneText(one);
    SameTextSameNumber(a.bytes, zero);
    SameTextSameNumber(a.bytes, one);
    if a.text == "::" { NumberInjective(a.bytes, zero); }
    if a.text == "::1" { NumberInjective(a.bytes, one); }
    assert ZeroBetween(a.bytes, 0, 16) ==> a.bytes == zero;
    assert IsOne(a.bytes) ==> a.bytes == one;
  }

  // The block 2000::/3.
  lemma GlobalBlock(b: seq<Byte>)
    requires |b| == 16
    ensures GLOBAL_UNICAST.Fits(16) && (PrefixMatch(b, GLOBAL_UNICAST.prefix, GLOBAL_UNICAST.length) <==> 0x20 <= b[0] < 0x40)
  {
    hide PrefixMatch, BytesOf, Zeros;
    Weights();
    StartsWithGroups(b, [0x2000], 0, 3, 32);
  }

  lemma NotFound(b: seq<Byte>, i: nat)
    requires |b| == 16 && i <= 15
    ensures Found6(b, i) == None <==> forall k :: i <= k < 15 ==> !InRange6(b, k)
    decreases 15 - i
  {
    hide InRange6;
    if i < 15 { NotFound(b, i + 1); }
  }

  // Only these ranges lie inside the block that is public otherwise.
  lemma InsideGlobalBlock(b: seq<Byte>)
    requires |b| == 16 && 0x20 <= b[0] < 0x40
    ensures Found6(b, 0) == None <==>
            !(b[0] == 0x20 && b[1] == 1 && (b[2] < 2 || (b[2] == 0xd && b[3] == 0xb8))) && !(b[0] == 0x20 && b[1] == 2) &&
            !(b[0] == 0x3f && b[1] == 0xff && b[2] < 0x10)
  {
    NotFound(b, 0);
    assert b[..2] == [b[0], b[1]] && b[..3] == [b[0], b[1], b[2]] && b[..4] == [b[0], b[1], b[2], b[3]];
    assert !InRange6(b, 0) && b[..4][0] == b[0] && b[..6][0] == b[0];
    assert InRange6(b, 7) <==> b[0] == 0x20 && b[1] == 1 && b[2] < 2;
    assert InRange6(b, 8) <==> b[0] == 0x20 && b[1] == 1 && b[2] == 0xd && b[3] == 0xb8;
    assert InRange6(b, 9) <==> b[0] == 0x20 && b[1] == 2;
    assert InRange6(b, 10) <==> b[0] == 0x3f && b[1] == 0xff && b[2] < 0x10;
  }

  /** Which IPv6 addresses are public, and what the others are: a mapped one is what its
      IPv4 address is, and of the rest only those in 2000::/3 are public, without 2001::/23,
      2001:db8::/32, 2002::/16 and 3fff::/20. */
  lemma Ipv6Categories(a: Address)
    requires WellFormed(a) && a.family == 6
    ensures TABLES.Fit()
    ensures Mapped(a.bytes).Some? ==> Classify(a, TABLES) == ClassifyIpv4(a.bytes[12..], TABLES)
    ensures Mapped(a.bytes).None? ==>
      (if IsOne(a.bytes) then Classify(a, TABLES) == Loopback
       else if ZeroBetween(a.bytes, 0, 16) then Classify(a, TABLES) == Unspecified
       else Classify(a, TABLES) == Or(Found6(a.bytes, 0), if 0x20 <= a.bytes[0] < 0x40 then Public else Reserved))
    ensures Mapped(a.bytes).None? ==> (Classify(a, TABLES) == Public <==>
      var b := a.bytes;
      && 0x20 <= b[0] < 0x40
      && !(b[0] == 0x20 && b[1] == 1 && (b[2] < 2 || (b[2] == 0xd && b[3] == 0xb8))) && !(b[0] == 0x20 && b[1] == 2)
      && !(b[0] == 0x3f && b[1] == 0xff && b[2] < 0x10))
  {
    hide CategoryInRanges, PrefixMatch, InRange6, Found6, ClassifyIpv4;
    TablesFit();
    if Mapped(a.bytes).Some? {
      MappedClass(a, TABLES);
    } else {
      Singletons(a);
      TableSays(a.bytes, 0);
      assert IPV6_NON_PUBLIC[0..] == IPV6_NON_PUBLIC;
      GlobalBlock(a.bytes);
      FoundIsNotPublic(a.bytes, 0);
      if 0x20 <= a.bytes[0] < 0x40 { InsideGlobalBlock(a.bytes); }
    }
  }

  lemma FoundIsNotPublic(b: seq<Byte>, i: nat)
    requires |b| == 16 && i <= 15
    ensures Found6(b, i) != Some(Public)
    decreases 15 - i
  {
    hide InRange6;
    if i < 15 { FoundIsNotPublic(b, i + 1); }
  }
}
