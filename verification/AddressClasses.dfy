/** Classification of addresses by prefix tables: what masking bytes means for the
    address as one integer. */
module AddressClasses {
  import opened Bytes
  import opened Text
  import opened Addresses

  datatype Category = Public | Unspecified | Private | Loopback | LinkLocal | CarrierGradeNat
    | Documentation | Benchmark | Multicast | Reserved

  // ----------------------------------------------------------- prefix arithmetic

  function Pow2(n: nat): (p: nat)
    ensures p > 0
  {
    if n == 0 then 1 else 2 * Pow2(n - 1)
  }

  lemma {:induction false} Pow2Add(a: nat, b: nat)
    ensures Pow2(a + b) == Pow2(a) * Pow2(b)
  {
    if a > 0 {
      Pow2Add(a - 1, b);
      assert Pow2(a + b) == 2 * Pow2(a + b - 1);
      assert 2 * (Pow2(a - 1) * Pow2(b)) == (2 * Pow2(a - 1)) * Pow2(b);
    }
  }

  /** The address as a big-endian integer. */
  function Number(bytes: seq<Byte>): (n: nat)
    ensures n < Pow2(8 * |bytes|)
  {
    if bytes == [] then 0
    else
      var tail := bytes[1..];
      Pow2Add(8, 8 * |tail|);
      assert Pow2(8) == 256;
      assert bytes[0] * Pow2(8 * |tail|) <= 255 * Pow2(8 * |tail|) by { MulMonotone(bytes[0], 255, Pow2(8 * |tail|)); }
      bytes[0] as int * Pow2(8 * |tail|) + Number(tail)
  }

  lemma MulMonotone(a: nat, b: nat, c: nat)
    requires a <= b
    ensures a * c <= b * c
  {
  }

  lemma MulAtLeast(k: int, d: nat)
    requires k >= 1
    ensures k * d >= d
  {
  }

  lemma Distribute(a: int, b: int, d: int)
    ensures (a - b) * d == a * d - b * d
    ensures (a + b) * d == a * d + b * d
  {
  }

  lemma MulAssociates(a: int, b: int, c: int)
    ensures a * (b * c) == (a * b) * c
  {
  }

  // x == q * d + r pins down the quotient.
  lemma QuotientIs(x: nat, d: nat, q: nat, r: nat)
    requires r < d && x == q * d + r
    ensures x / d == q
  {
    var q', r' := x / d, x % d;
    assert x == q' * d + r';
    Distribute(q, q', d);
    Distribute(q', q, d);
    if q' < q { MulAtLeast(q - q', d); }
    if q' > q { MulAtLeast(q' - q, d); }
  }

  // (0xff << drop) & 0xff, the mask that drops the low bits of a byte; shifted bit by bit.
  function Mask(drop: nat): bv8 { if drop == 0 then 0xff else Mask(drop - 1) << 1 }

  /** The byte as eight bits, counted up so that it is pinned down by its number. */
  function Bits(a: Byte): bv8 { if a == 0 then 0 else Bits(a - 1) + 1 }

  lemma CountUp(x: bv8, n: nat)
    requires x as nat == n && n < 255
    ensures (x + 1) as nat == n + 1
  {
  }

  lemma {:induction false} BitsNumber(a: Byte)
    ensures Bits(a) as nat == a
  {
    if a > 0 {
      BitsNumber(a - 1);
      CountUp(Bits(a - 1), a - 1);
    }
  }

  predicate SameUnder(x: bv8, y: bv8, mask: bv8) { x & mask == y & mask }

  predicate MaskedEqual(a: Byte, b: Byte, drop: nat)
    requires drop < 8
  {
    SameUnder(Bits(a), Bits(b), Mask(drop))
  }

  lemma SameNumber(x: bv8, y: bv8)
    ensures x == y <==> x as nat == y as nat
  {
  }

  // Dropping low bits one at a time, on bits and on numbers.
  function DropBits(x: bv8, drop: nat): bv8 { if drop == 0 then x else DropBits(x >> 1, drop - 1) }

  function Halve(n: nat, times: nat): nat { if times == 0 then n else Halve(n / 2, times - 1) }

  lemma DropOne(x: bv8)
    ensures (x >> 1) as nat == x as nat / 2
  {
  }

  lemma {:induction false} DropIsHalving(x: bv8, drop: nat)
    ensures DropBits(x, drop) as nat == Halve(x as nat, drop)
  {
    if drop > 0 {
      DropOne(x);
      DropIsHalving(x >> 1, drop - 1);
    }
  }

  lemma DivideTwice(n: nat, d: nat)
    requires d > 0
    ensures n / 2 / d == n / (2 * d)
  {
    var h, b := n / 2, n % 2;
    var q, r := h / d, h % d;
    assert h == q * d + r && n == 2 * h + b;
    assert q * (2 * d) == 2 * (q * d);
    QuotientIs(n, 2 * d, q, 2 * r + b);
  }

  lemma {:induction false} HalvingIsDivision(n: nat, times: nat)
    ensures Halve(n, times) == n / Pow2(times)
  {
    if times > 0 {
      HalvingIsDivision(n / 2, times - 1);
      DivideTwice(n, Pow2(times - 1));
    }
  }

  lemma MaskStep(x: bv8, y: bv8, x1: bv8, y1: bv8, m: bv8, m1: bv8)
    requires m == m1 << 1 && x1 == x >> 1 && y1 == y >> 1
    ensures SameUnder(x, y, m) <==> SameUnder(x1, y1, m1)
  {
  }

  lemma FullMask(x: bv8, y: bv8)
    ensures SameUnder(x, y, Mask(0)) <==> x == y
  {
    assert x & 0xff == x && y & 0xff == y;
  }

  lemma {:induction false} MaskIsDrop(x: bv8, y: bv8, m: bv8, drop: nat)
    requires m == Mask(drop)
    ensures SameUnder(x, y, m) <==> DropBits(x, drop) == DropBits(y, drop)
    decreases drop
  {
    hide SameUnder;
    if drop == 0 {
      FullMask(x, y);
    } else {
      var x1, y1, m1 := x >> 1, y >> 1, Mask(drop - 1);
      MaskIsDrop(x1, y1, m1, drop - 1);
      MaskStep(x, y, x1, y1, m, m1);
      assert DropBits(x, drop) == DropBits(x1, drop - 1) && DropBits(y, drop) == DropBits(y1, drop - 1);
    }
  }

  lemma DropsAgree(x: bv8, y: bv8, drop: nat)
    ensures DropBits(x, drop) == DropBits(y, drop) <==> x as nat / Pow2(drop) == y as nat / Pow2(drop)
  {
    SameNumber(DropBits(x, drop), DropBits(y, drop));
    DropIsHalving(x, drop);
    DropIsHalving(y, drop);
    HalvingIsDivision(x as nat, drop);
    HalvingIsDivision(y as nat, drop);
  }

  lemma DropsAgreeOn(x: bv8, y: bv8, a: nat, b: nat, drop: nat)
    requires x as nat == a && y as nat == b
    ensures DropBits(x, drop) == DropBits(y, drop) <==> a / Pow2(drop) == b / Pow2(drop)
  {
    DropsAgree(x, y, drop);
  }

  lemma MaskOfBits(a: Byte, b: Byte, drop: nat)
    requires drop < 8
    ensures MaskedEqual(a, b, drop) <==> DropBits(Bits(a), drop) == DropBits(Bits(b), drop)
  {
    hide Bits, Mask, DropBits, SameUnder;
    MaskIsDrop(Bits(a), Bits(b), Mask(drop), drop);
  }

  /** Masking off the low bits of a byte is dividing by their weight. */
  lemma MaskIsDivision(a: Byte, b: Byte, drop: nat)
    requires drop < 8
    ensures MaskedEqual(a, b, drop) <==> a / Pow2(drop) == b / Pow2(drop)
  {
    MaskOfBits(a, b, drop);
    BitsNumber(a);
    BitsNumber(b);
    DropsAgreeOn(Bits(a), Bits(b), a, b, drop);
  }

  predicate PrefixMatch(bytes: seq<Byte>, range: seq<Byte>, length: nat)
    requires |bytes| == |range| && length <= 8 * |bytes|
  {
    && (forall k :: 0 <= k < length / 8 ==> bytes[k] == range[k])
    && (length % 8 != 0 ==> MaskedEqual(bytes[length / 8], range[length / 8], 8 - length % 8))
  }

  /** `matchesPrefix`: whole bytes first, then the remaining bits under a mask. */
  method MatchesPrefix(bytes: seq<Byte>, range: seq<Byte>, length: nat) returns (r: bool)
    requires |bytes| == |range| && length <= 8 * |bytes|
    ensures r <==> Number(bytes) / Pow2(8 * |bytes| - length) == Number(range) / Pow2(8 * |bytes| - length)
  {
    PrefixIsDivision(bytes, range, length);
    var wholeBytes := length / 8;
    for index := 0 to wholeBytes
      invariant forall k :: 0 <= k < index ==> bytes[k] == range[k]
    {
      if bytes[index] != range[index] { return false; }
    }
    var remainingBits := length % 8;
    if remainingBits == 0 { return true; }
    r := MaskedEqual(bytes[wholeBytes], range[wholeBytes], 8 - remainingBits);
  }

  /** Two addresses agree on a prefix exactly when they are equal after dropping the
      bits behind it. */
  lemma {:induction false} PrefixIsDivision(bytes: seq<Byte>, range: seq<Byte>, length: nat)
    requires |bytes| == |range| && length <= 8 * |bytes|
    ensures PrefixMatch(bytes, range, length) <==>
            Number(bytes) / Pow2(8 * |bytes| - length) == Number(range) / Pow2(8 * |bytes| - length)
    decreases |bytes|
  {
    var dropped := 8 * |bytes| - length;
    if length == 0 {
      SmallQuotient(Number(bytes), Pow2(dropped));
      SmallQuotient(Number(range), Pow2(dropped));
    } else if length < 8 {
      LeadingBitsAgree(bytes, range, length);
    } else {
      PrefixIsDivision(bytes[1..], range[1..], length - 8);
      LeadingByteAgrees(bytes, range, length);
      PrefixMatchTail(bytes, range, length);
    }
  }

  lemma NumberOf(bytes: seq<Byte>)
    requires bytes != []
    ensures Number(bytes) == bytes[0] * Pow2(8 * (|bytes| - 1)) + Number(bytes[1..])
    ensures Number(bytes[1..]) < Pow2(8 * (|bytes| - 1))
  {
  }

  lemma LeadingBitsAgree(bytes: seq<Byte>, range: seq<Byte>, length: nat)
    requires |bytes| == |range| > 0 && 0 < length < 8
    ensures PrefixMatch(bytes, range, length) <==>
            Number(bytes) / Pow2(8 * |bytes| - length) == Number(range) / Pow2(8 * |bytes| - length)
  {
    var tail, low := 8 * (|bytes| - 1), 8 - length;
    Pow2Add(low, tail);
    assert 8 * |bytes| - length == low + tail;
    NumberOf(bytes);
    NumberOf(range);
    HighPart(bytes[0], Number(bytes[1..]), Pow2(tail), Pow2(low));
    HighPart(range[0], Number(range[1..]), Pow2(tail), Pow2(low));
    MaskIsDivision(bytes[0], range[0], 8 - length);
    assert length / 8 == 0 && length % 8 == length;
  }

  lemma LeadingByteAgrees(bytes: seq<Byte>, range: seq<Byte>, length: nat)
    requires |bytes| == |range| && 8 <= length <= 8 * |bytes|
    ensures var d := Pow2(8 * |bytes| - length);
      Number(bytes) / d == Number(range) / d <==>
      bytes[0] == range[0] && Number(bytes[1..]) / d == Number(range[1..]) / d
  {
    var dropped, kept := 8 * |bytes| - length, length - 8;
    var d, k := Pow2(dropped), Pow2(kept);
    assert Pow2(8 * (|bytes| - 1)) == k * d by {
      Pow2Add(kept, dropped);
      assert 8 * (|bytes| - 1) == kept + dropped;
    }
    NumberOf(bytes);
    NumberOf(range);
    DigitsAgree(bytes[0], Number(bytes[1..]), range[0], Number(range[1..]), d, k);
  }

  lemma DigitsAgree(a: nat, m: nat, b: nat, n: nat, d: nat, k: nat)
    requires d > 0 && m < k * d && n < k * d
    ensures (a * (k * d) + m) / d == (b * (k * d) + n) / d <==> a == b && m / d == n / d
  {
    LeadingDigit(a, m, d, k);
    LeadingDigit(b, n, d, k);
    PositionalEquality(a, m / d, b, n / d, k);
  }

  lemma PrefixMatchTail(bytes: seq<Byte>, range: seq<Byte>, length: nat)
    requires |bytes| == |range| && 8 <= length <= 8 * |bytes|
    ensures PrefixMatch(bytes, range, length) <==> bytes[0] == range[0] && PrefixMatch(bytes[1..], range[1..], length - 8)
  {
    assert (length - 8) / 8 == length / 8 - 1 && (length - 8) % 8 == length % 8;
    if PrefixMatch(bytes, range, length) {
      forall k | 0 <= k < (length - 8) / 8 ensures bytes[1..][k] == range[1..][k] {
        assert bytes[k + 1] == range[k + 1];
      }
    }
    if bytes[0] == range[0] && PrefixMatch(bytes[1..], range[1..], length - 8) {
      forall k | 0 <= k < length / 8 ensures bytes[k] == range[k] {
        if k > 0 { assert bytes[1..][k - 1] == range[1..][k - 1]; }
      }
    }
  }

  lemma SmallQuotient(n: nat, d: nat)
    requires n < d
    ensures n / d == 0
  {
  }

  lemma PositionalEquality(a: nat, q: nat, b: nat, q': nat, base: nat)
    requires q < base && q' < base
    ensures a * base + q == b * base + q' <==> a == b && q == q'
  {
    QuotientIs(a * base + q, base, a, q);
    QuotientIs(b * base + q', base, b, q');
  }

  // The leading digit survives whole when less than a digit's worth is dropped.
  lemma LeadingDigit(b: nat, rest: nat, d: nat, k: nat)
    requires d > 0 && rest < k * d
    ensures (b * (k * d) + rest) / d == b * k + rest / d
    ensures rest / d < k
  {
    var q, r := rest / d, rest % d;
    assert rest == q * d + r;
    MulAssociates(b, k, d);
    Distribute(b * k, q, d);
    QuotientIs(b * (k * d) + rest, d, b * k + q, r);
    if q >= k { MulMonotone(k, q, d); }
  }

  // Only its high part survives when more is dropped.
  lemma HighPart(b: nat, rest: nat, d: nat, l: nat)
    requires l > 0 && rest < d
    ensures (b * d + rest) / (l * d) == b / l
  {
    var q, r := b / l, b % l;
    assert b == q * l + r;
    Distribute(q * l, r, d);
    MulAssociates(q, l, d);
    MulMonotone(r + 1, l, d);
    Distribute(r, 1, d);
    QuotientIs(b * d + rest, l * d, q, r * d + rest);
  }

  // -------------------------------------------------------------- the range tables

  // The greatest multiple of `d` that is at most `n`.
  function RoundDown(n: nat, d: nat): (r: nat)
    requires d > 0
  {
    MulMonotone(0, n / d, d);
    n / d * d
  }

  datatype Range = Range(prefix: seq<Byte>, length: nat, category: Category) {
    predicate Fits(size: nat) { |prefix| == size && length <= 8 * size }

    // The first address of the range, and one past its last.
    function First(): nat
      requires length <= 8 * |prefix|
    {
      RoundDown(Number(prefix), Pow2(8 * |prefix| - length))
    }
    function End(): nat
      requires length <= 8 * |prefix|
    {
      First() + Pow2(8 * |prefix| - length)
    }
  }

  const IPV4_NON_PUBLIC: seq<Range> := [
    Range([0, 0, 0, 0], 8, Unspecified),
    Range([10, 0, 0, 0], 8, Private),
    Range([100, 64, 0, 0], 10, CarrierGradeNat),
    Range([127, 0, 0, 0], 8, Loopback),
    Range([169, 254, 0, 0], 16, LinkLocal),
    Range([172, 16, 0, 0], 12, Private),
    Range([192, 0, 0, 0], 24, Reserved),
    Range([192, 0, 2, 0], 24, Documentation),
    Range([192, 88, 99, 0], 24, Reserved),
    Range([192, 168, 0, 0], 16, Private),
    Range([198, 18, 0, 0], 15, Benchmark),
    Range([198, 51, 100, 0], 24, Documentation),
    Range([203, 0, 113, 0], 24, Documentation),
    Range([224, 0, 0, 0], 4, Multicast),
    Range([240, 0, 0, 0], 4, Reserved)
  ]

  // A range given by its first groups.
  function Range6(groups: seq<Group>, length: nat, category: Category): (r: Range)
    requires |groups| <= 8 && length <= 128
    ensures r.Fits(16) && r.category == category
  {
    Range(BytesOf(groups + Zeros(8 - |groups|)), length, category)
  }

  const IPV6_NON_PUBLIC: seq<Range> := [
    Range6([], 96, Reserved),
    Range6([0x64, 0xff9b], 96, Reserved),
    Range6([0x64, 0xff9b, 1], 48, Reserved),
    Range6([0x100], 64, Reserved),
    Range6([0x2001, 2], 48, Benchmark),
    Range6([0x2001, 0x10], 28, Reserved),
    Range6([0x2001, 0x20], 28, Reserved),
    Range6([0x2001], 23, Reserved),
    Range6([0x2001, 0xdb8], 32, Documentation),
    Range6([0x2002], 16, Reserved),
    Range6([0x3fff], 20, Documentation),
    Range6([0x5f00], 16, Reserved),
    Range6([0xfc00], 7, Private),
    Range6([0xfe80], 10, LinkLocal),
    Range6([0xff00], 8, Multicast)
  ]

  const GLOBAL_UNICAST: Range := Range6([0x2000], 3, Public)

  datatype Tables = Tables(ipv4: seq<Range>, ipv6: seq<Range>, global: Range) {
    predicate Fit() { AllFit(ipv4, 4) && AllFit(ipv6, 16) && global.Fits(16) }
  }

  const TABLES := Tables(IPV4_NON_PUBLIC, IPV6_NON_PUBLIC, GLOBAL_UNICAST)

  predicate AllFit(ranges: seq<Range>, size: nat) { forall k :: 0 <= k < |ranges| ==> ranges[k].Fits(size) }

  lemma TablesFit()
    ensures TABLES.Fit()
  {
  }

  // ------------------------------------------------------------------ categories

  /** The category of the first matching range. */
  function CategoryInRanges(bytes: seq<Byte>, ranges: seq<Range>): Option<Category>
    requires AllFit(ranges, |bytes|)
  {
    if ranges == [] then None
    else if PrefixMatch(bytes, ranges[0].prefix, ranges[0].length) then Some(ranges[0].category)
    else CategoryInRanges(bytes, ranges[1..])
  }

  /** The same in terms of integer intervals only. */
  function FirstInterval(n: nat, ranges: seq<Range>, size: nat): Option<Category>
    requires AllFit(ranges, size)
  {
    if ranges == [] then None
    else if ranges[0].First() <= n < ranges[0].End() then Some(ranges[0].category)
    else FirstInterval(n, ranges[1..], size)
  }

  lemma MatchIsInterval(bytes: seq<Byte>, range: Range)
    requires range.Fits(|bytes|)
    ensures PrefixMatch(bytes, range.prefix, range.length) <==> range.First() <= Number(bytes) < range.End()
  {
    PrefixIsDivision(bytes, range.prefix, range.length);
    SameQuotient(Number(bytes), Number(range.prefix), Pow2(8 * |bytes| - range.length), range.First());
  }

  lemma SameQuotient(n: nat, m: nat, d: nat, low: nat)
    requires d > 0 && low == RoundDown(m, d)
    ensures n / d == m / d <==> low <= n < low + d
  {
    var q := m / d;
    if n / d == q { assert n == q * d + n % d; }
    if q * d <= n < q * d + d { QuotientIs(n, d, q, n - q * d); }
  }

  lemma {:induction false} RangesAreIntervals(bytes: seq<Byte>, ranges: seq<Range>)
    requires AllFit(ranges, |bytes|)
    ensures CategoryInRanges(bytes, ranges) == FirstInterval(Number(bytes), ranges, |bytes|)
  {
    if ranges != [] {
      MatchIsInterval(bytes, ranges[0]);
      RangesAreIntervals(bytes, ranges[1..]);
    }
  }

  function ClassifyIpv4(bytes: seq<Byte>, t: Tables): Category
    requires |bytes| == 4 && t.Fit()
  {
    match CategoryInRanges(bytes, t.ipv4) case None => Public case Some(c) => c
  }

  predicate WellFormed(a: Address) {
    && (a.family == 4 || a.family == 6)
    && (a.family == 4 ==> |a.bytes| == 4 && a == Ipv4Address(a.bytes))
    && (a.family == 6 ==> |a.bytes| == 16 && a == Ipv6Address(a.bytes))
  }

  lemma ParsedIsWellFormed(input: string)
    requires ParseAddress(input).Some?
    ensures WellFormed(ParseAddress(input).value)
  {
    if Ipv4Bytes(input).Some? { Ipv4RoundTrip(input, Ipv4Bytes(input).value); }
  }

  /** `classifyParsedAddress`, over any range tables. The mapped text of a mapped
      address always parses. */
  function Classify(a: Address, t: Tables): Category
    requires WellFormed(a) && t.Fit()
  {
    if a.family == 4 then ClassifyIpv4(a.bytes, t)
    else if a.mappedIpv4.Some? then
      Ipv4RoundTrip(a.mappedIpv4.value, a.bytes[12..]);
      ClassifyIpv4(Ipv4Bytes(a.mappedIpv4.value).value, t)
    else if a.text == "::1" then Loopback
    else if a.text == "::" then Unspecified
    else match CategoryInRanges(a.bytes, t.ipv6)
      case Some(c) => c
      case None => if PrefixMatch(a.bytes, t.global.prefix, t.global.length) then Public else Reserved
  }

  // --------------------------------------------- classification by integers alone

  const MAPPED_FIRST: nat := 0xffff_0000_0000

  function NumericCategory4(n: nat, t: Tables): Category
    requires t.Fit()
  {
    match FirstInterval(n, t.ipv4, 4) case None => Public case Some(c) => c
  }

  function NumericCategory6(n: nat, t: Tables): Category
    requires t.Fit()
  {
    if n == 0 then Unspecified
    else if n == 1 then Loopback
    else if MAPPED_FIRST <= n < MAPPED_FIRST + 0x1_0000_0000 then NumericCategory4(n - MAPPED_FIRST, t)
    else match FirstInterval(n, t.ipv6, 16)
      case Some(c) => c
      case None => if t.global.First() <= n < t.global.End() then Public else Reserved
  }

  lemma {:induction false} NumberAppend(front: seq<Byte>, back: seq<Byte>)
    ensures Number(front + back) == Number(front) * Pow2(8 * |back|) + Number(back)
  {
    if front == [] {
      assert front + back == back;
    } else {
      var t := front[1..];
      assert (front + back)[1..] == t + back;
      NumberAppend(t, back);
      Pow2Add(8 * |t|, 8 * |back|);
      assert 8 * |t + back| == 8 * |t| + 8 * |back|;
      var b, p, q := front[0], Pow2(8 * |t|), Pow2(8 * |back|);
      MulAssociates(b, p, q);
      Distribute(b * p, Number(t), q);
    }
  }

  lemma {:induction false} NumberInjective(a: seq<Byte>, b: seq<Byte>)
    requires |a| == |b| && Number(a) == Number(b)
    ensures a == b
  {
    if a != [] {
      PositionalEquality(a[0], Number(a[1..]), b[0], Number(b[1..]), Pow2(8 * (|a| - 1)));
      NumberInjective(a[1..], b[1..]);
      assert a == [a[0]] + a[1..] && b == [b[0]] + b[1..];
    }
  }

  predicate IsMappedPrefix(front: seq<Byte>) {
    |front| == 12 && (forall k :: 0 <= k < 10 ==> front[k] == 0) && front[10] == 255 && front[11] == 255
  }

  lemma SmallNumbers()
    ensures Number([1]) == 1 && Number([255]) == 255 && Number([255, 255]) == 0xffff
  {
    assert Pow2(0) == 1 && Pow2(8) == 256;
    NumberOf([1]);
    NumberOf([255]);
    NumberOf([255, 255]);
    assert [255, 255][1..] == [255];
  }

  lemma MappedPrefixNumber(front: seq<Byte>)
    requires IsMappedPrefix(front)
    ensures Number(front) == 0xffff
  {
    var zeros := front[..10];
    assert front == zeros + [255, 255];
    NumberAppend(zeros, [255, 255]);
    ZeroNumber(zeros);
    SmallNumbers();
  }

  lemma {:induction false} ZeroNumber(zeros: seq<Byte>)
    requires forall k :: 0 <= k < |zeros| ==> zeros[k] == 0
    ensures Number(zeros) == 0
  {
    if zeros != [] { ZeroNumber(zeros[1..]); }
  }

  lemma Pow32()
    ensures Pow2(32) == 0x1_0000_0000
  {
    assert Pow2(8) == 256;
    Pow2Add(8, 8);
    Pow2Add(16, 16);
  }

  lemma MappedIsPrefix(bytes: seq<Byte>)
    requires |bytes| == 16
    ensures Mapped(bytes).Some? <==> IsMappedPrefix(bytes[..12])
    ensures Mapped(bytes).Some? ==> Mapped(bytes).value == bytes[12..]
  {
  }

  /** The mapped block is one interval of the 128-bit numbers. */
  lemma MappedIsInterval(bytes: seq<Byte>)
    requires |bytes| == 16
    ensures Mapped(bytes).Some? <==> MAPPED_FIRST <= Number(bytes) < MAPPED_FIRST + 0x1_0000_0000
    ensures Mapped(bytes).Some? ==> Mapped(bytes).value == bytes[12..] && Number(bytes) == MAPPED_FIRST + Number(bytes[12..])
  {
    var front, back := bytes[..12], bytes[12..];
    assert bytes == front + back;
    NumberAppend(front, back);
    MappedIsPrefix(bytes);
    Pow32();
    if Mapped(bytes).Some? {
      MappedPrefixNumber(front);
    }
    if MAPPED_FIRST <= Number(bytes) < MAPPED_FIRST + 0x1_0000_0000 {
      HighWord(Number(front), Number(back), Number(bytes));
      var mapped := seq(10, _ => 0 as Byte) + [255, 255];
      MappedPrefixNumber(mapped);
      NumberInjective(front, mapped);
    }
  }

  lemma HighWord(front: nat, back: nat, n: nat)
    requires n == front * 0x1_0000_0000 + back && back < 0x1_0000_0000
    requires MAPPED_FIRST <= n < MAPPED_FIRST + 0x1_0000_0000
    ensures front == 0xffff
  {
  }

  /** Classification is membership in a union of integer intervals, and an
      IPv4-mapped address is classified as its IPv4 address. */
  lemma ClassifyIsNumeric(a: Address, t: Tables)
    requires WellFormed(a) && t.Fit()
    ensures a.family == 4 ==> Classify(a, t) == NumericCategory4(Number(a.bytes), t)
    ensures a.family == 6 ==> Classify(a, t) == NumericCategory6(Number(a.bytes), t)
    ensures a.family == 6 && a.mappedIpv4.Some? ==> Classify(a, t) == ClassifyIpv4(a.bytes[12..], t)
  {
    if a.family == 4 {
      RangesAreIntervals(a.bytes, t.ipv4);
    } else if a.mappedIpv4.Some? {
      MappedClass(a, t);
    } else {
      PlainIpv6Class(a, t);
    }
  }

  lemma MappedClass(a: Address, t: Tables)
    requires WellFormed(a) && t.Fit() && a.family == 6 && a.mappedIpv4.Some?
    ensures Classify(a, t) == ClassifyIpv4(a.bytes[12..], t)
    ensures ClassifyIpv4(a.bytes[12..], t) == NumericCategory6(Number(a.bytes), t)
  {
    var quad := a.bytes[12..];
    Ipv4RoundTrip(a.mappedIpv4.value, quad);
    RangesAreIntervals(quad, t.ipv4);
    MappedNumber(a.bytes);
    MappedCategory(Number(a.bytes), Number(quad), t);
  }

  lemma MappedNumber(bytes: seq<Byte>)
    requires |bytes| == 16 && Mapped(bytes).Some?
    ensures Number(bytes) == MAPPED_FIRST + Number(bytes[12..]) && Number(bytes[12..]) < 0x1_0000_0000
  {
    MappedIsInterval(bytes);
  }

  lemma MappedCategory(n: nat, quad: nat, t: Tables)
    requires t.Fit() && n == MAPPED_FIRST + quad && quad < 0x1_0000_0000
    ensures NumericCategory6(n, t) == NumericCategory4(quad, t)
  {
  }

  lemma PlainIpv6Class(a: Address, t: Tables)
    requires WellFormed(a) && t.Fit() && a.family == 6 && a.mappedIpv4.None?
    ensures Classify(a, t) == NumericCategory6(Number(a.bytes), t)
  {
    MappedIsInterval(a.bytes);
    SingletonTexts(a);
    RangesAreIntervals(a.bytes, t.ipv6);
    MatchIsInterval(a.bytes, t.global);
  }

  /** Exactly the number 0 prints as "::", and exactly 1 as "::1". */
  lemma SingletonTexts(a: Address)
    requires WellFormed(a) && a.family == 6
    ensures a.text == "::" <==> Number(a.bytes) == 0
    ensures a.text == "::1" <==> Number(a.bytes) == 1
  {
    var zero: seq<Byte>, one: seq<Byte> := seq(16, _ => 0), seq(16, k => if k == 15 then 1 else 0);
    ZeroText(zero);
    OneText(one);
    ZeroNumber(zero);
    OneNumber(one);
    SameTextSameNumber(a.bytes, zero);
    SameTextSameNumber(a.bytes, one);
  }

  lemma SameTextSameNumber(a: seq<Byte>, b: seq<Byte>)
    requires |a| == |b| == 16
    ensures Ipv6Text(a) == Ipv6Text(b) <==> Number(a) == Number(b)
  {
    Ipv6RoundTrip(a);
    Ipv6RoundTrip(b);
    if Number(a) == Number(b) { NumberInjective(a, b); }
  }

  lemma ZeroText(zero: seq<Byte>)
    requires |zero| == 16 && forall k :: 0 <= k < 16 ==> zero[k] == 0
    ensures Ipv6Text(zero) == "::"
  {
    var groups := GroupsOf(zero);
    AllZeroBest(groups);
    NothingAround(FormatGroups(groups[..0]), FormatGroups(groups[8..]));
  }

  lemma AllZeroBest(groups: seq<Group>)
    requires |groups| == 8 && forall k :: 0 <= k < 8 ==> groups[k] == 0
    ensures BestRun(groups, 0) == Run(0, 8)
  {
    BestRunIsFirstLongest(groups, 0, 0, 8);
  }

  lemma NothingAround(left: seq<string>, right: seq<string>)
    requires left == [] && right == []
    ensures Compressed(left, right).Written() == "::"
  {
  }

  predicate IsOne(one: seq<Byte>) { |one| == 16 && one[15] == 1 && forall k :: 0 <= k < 15 ==> one[k] == 0 }

  lemma OneText(one: seq<Byte>)
    requires IsOne(one)
    ensures Ipv6Text(one) == "::1"
  {
    var groups := GroupsOf(one);
    assert groups[7] == 1;
    BestRunIsFirstLongest(groups, 0, 0, 7);
    var best := BestRun(groups, 0);
    assert best == Run(0, 7) by {
      assert !(best.start <= 7 < best.start + best.length);
    }
    assert groups[..0] == [] && groups[7..] == [1];
    assert HexDigit(1) == '1' && FormatHex(1) == "1";
    assert FormatGroups([1]) == ["1"];
  }

  lemma OneNumber(one: seq<Byte>)
    requires IsOne(one)
    ensures Number(one) == 1
  {
    var zeros := one[..15];
    assert one == zeros + [1];
    NumberAppend(zeros, [1]);
    ZeroNumber(zeros);
    SmallNumbers();
  }
}
