/** Base64 with padding, as chunks travel in it. */
module Base64 {
  import opened Bytes
  import opened Text

  type Sextet = n: nat | n < 64

  function Symbol(n: Sextet): char {
    if n < 26 then 'A' + n as char
    else if n < 52 then 'a' + (n - 26) as char
    else if n < 62 then '0' + (n - 52) as char
    else if n == 62 then '+' else '/'
  }

  predicate IsSymbol(c: char) { 'A' <= c <= 'Z' || 'a' <= c <= 'z' || '0' <= c <= '9' || c == '+' || c == '/' }

  function Value(c: char): Sextet
    requires IsSymbol(c)
  {
    if 'A' <= c <= 'Z' then (c as int - 'A' as int)
    else if 'a' <= c <= 'z' then c as int - 'a' as int + 26
    else if '0' <= c <= '9' then c as int - '0' as int + 52
    else if c == '+' then 62 else 63
  }

  lemma SymbolValue(n: Sextet)
    ensures IsSymbol(Symbol(n)) && Value(Symbol(n)) == n
  {
  }

  /** Three bytes are four symbols; one or two bytes left over are padded. */
  function Encode(data: seq<Byte>): (text: string)
    ensures |text| == 4 * ((|data| + 2) / 3)
  {
    if data == [] then ""
    else if |data| == 1 then [Symbol(data[0] / 4), Symbol(data[0] % 4 * 16), '=', '=']
    else if |data| == 2 then
      [Symbol(data[0] / 4), Symbol(data[0] % 4 * 16 + data[1] / 16), Symbol(data[1] % 16 * 4), '=']
    else Group(data[0], data[1], data[2]) + Encode(data[3..])
  }

  function Group(a: Byte, b: Byte, c: Byte): (g: string)
    ensures |g| == 4
  {
    [Symbol(a / 4), Symbol(a % 4 * 16 + b / 16), Symbol(b % 16 * 4 + c / 64), Symbol(c % 64)]
  }

  predicate AllSymbols(s: string) { forall k :: 0 <= k < |s| ==> IsSymbol(s[k]) }

  // The bytes of a group of symbols; bits left over at the end are dropped.
  function First(a: char, b: char): Byte
    requires IsSymbol(a) && IsSymbol(b)
  {
    Value(a) * 4 + Value(b) / 16
  }
  function Second(b: char, c: char): Byte
    requires IsSymbol(b) && IsSymbol(c)
  {
    Value(b) % 16 * 16 + Value(c) / 4
  }
  function Third(c: char, d: char): Byte
    requires IsSymbol(c) && IsSymbol(d)
  {
    Value(c) % 4 * 64 + Value(d)
  }

  /** `decodeChunk` of base64: whole groups of four symbols, of which only the last may be
      padded; anything else is refused. */
  function Decode(s: string): Option<seq<Byte>> {
    if s == "" then Some([])
    else if |s| < 4 then None
    else if |s| == 4 && s[3] == '=' then
      if s[2] == '=' then
        if AllSymbols(s[..2]) then Some([First(s[0], s[1])]) else None
      else if AllSymbols(s[..3]) then Some([First(s[0], s[1]), Second(s[1], s[2])]) else None
    else if !AllSymbols(s[..4]) then None
    else Prepend([First(s[0], s[1]), Second(s[1], s[2]), Third(s[2], s[3])], Decode(s[4..]))
  }

  lemma FirstBack(a: Byte, rest: nat)
    requires rest < 16
    ensures First(Symbol(a / 4), Symbol(a % 4 * 16 + rest)) == a
  {
    SymbolValue(a / 4);
    SymbolValue(a % 4 * 16 + rest);
  }

  lemma HighDigits(a: nat, q: nat, r: nat, rest: nat)
    requires q < 16 && rest < 4
    ensures (a * 16 + q) % 16 == q && (r * 4 + rest) / 4 == r
  {
  }

  lemma SecondBack(a: nat, b: Byte, rest: nat)
    requires a < 4 && rest < 4
    ensures Second(Symbol(a * 16 + b / 16), Symbol(b % 16 * 4 + rest)) == b
  {
    var q, r := b / 16, b % 16;
    HighDigits(a, q, r, rest);
    SymbolValue(a * 16 + q);
    SymbolValue(r * 4 + rest);
  }

  lemma ThirdBack(b: nat, c: Byte)
    requires b < 16
    ensures Third(Symbol(b * 4 + c / 64), Symbol(c % 64)) == c
  {
    hide Symbol, Value, IsSymbol;
    SymbolValue(b * 4 + c / 64);
    SymbolValue(c % 64);
  }

  lemma AllAreSymbols()
    ensures forall n: Sextet :: IsSymbol(Symbol(n))
  {
  }

  lemma OneByteBack(a: Byte)
    ensures Decode(Encode([a])) == Some([a])
  {
    FirstBack(a, 0);
    AllAreSymbols();
  }

  lemma TwoBytesBack(a: Byte, b: Byte)
    ensures Decode(Encode([a, b])) == Some([a, b])
  {
    FirstBack(a, b / 16);
    SecondBack(a % 4, b, 0);
    AllAreSymbols();
  }

  // A whole group in front of what follows.
  lemma GroupBack(a: Byte, b: Byte, c: Byte, rest: string)
    ensures Decode(Group(a, b, c) + rest) == Prepend([a, b, c], Decode(rest))
  {
    FirstBack(a, b / 16);
    SecondBack(a % 4, b, c / 64);
    ThirdBack(b % 16, c);
    AllAreSymbols();
    var s := Group(a, b, c) + rest;
    assert s[4..] == rest;
    assert IsSymbol(s[3]) && AllSymbols(s[..4]);
  }

  /** Decoding what was encoded gives the same bytes. */
  lemma {:induction false} RoundTrip(data: seq<Byte>)
    ensures Decode(Encode(data)) == Some(data)
    decreases |data|
  {
    if |data| == 1 {
      assert data == [data[0]];
      OneByteBack(data[0]);
    } else if |data| == 2 {
      assert data == [data[0], data[1]];
      TwoBytesBack(data[0], data[1]);
    } else if |data| >= 3 {
      RoundTrip(data[3..]);
      LongerBack(data[0], data[1], data[2], data[3..], data);
    }
  }

  lemma LongerBack(a: Byte, b: Byte, c: Byte, rest: seq<Byte>, data: seq<Byte>)
    requires Decode(Encode(rest)) == Some(rest) && |data| >= 3
    requires data[0] == a && data[1] == b && data[2] == c && data[3..] == rest
    ensures Decode(Encode(data)) == Some(data)
  {
    hide Group, Decode;
    GroupBack(a, b, c, Encode(rest));
    assert Encode(data) == Group(a, b, c) + Encode(rest);
    assert [a, b, c] + rest == data;
  }

  /** What is accepted has a length that is a multiple of four, and decodes to three bytes
      a group, less the padding. */
  lemma {:induction false} DecodedSize(s: string)
    requires Decode(s).Some?
    ensures |s| % 4 == 0 && 3 * (|s| / 4) - 2 <= |Decode(s).value| <= 3 * (|s| / 4)
  {
    hide First, Second, Third, AllSymbols;
    if |s| >= 4 && !(|s| == 4 && s[3] == '=') { DecodedSize(s[4..]); }
  }

  /** The alphabet of section 4 of RFC 4648. */
  lemma Alphabet(n: Sextet)
    ensures n < 26 ==> Symbol(n) == "ABCDEFGHIJKLMNOPQRSTUVWXYZ"[n]
    ensures 26 <= n < 52 ==> Symbol(n) == "abcdefghijklmnopqrstuvwxyz"[n - 26]
    ensures 52 <= n ==> Symbol(n) == "0123456789+/"[n - 52]
  {
  }

  /** Three bytes are one number of 24 bits, whose digits to the base 64 are the symbols. */
  lemma GroupIsNumber(a: Byte, b: Byte, c: Byte)
    ensures var g := Group(a, b, c);
      && AllSymbols(g)
      && Value(g[0]) * 262144 + Value(g[1]) * 4096 + Value(g[2]) * 64 + Value(g[3]) == a as int * 65536 + b as int * 256 + c as int
  {
    SymbolValue(a / 4);
    SymbolValue(a % 4 * 16 + b / 16);
    SymbolValue(b % 16 * 4 + c / 64);
    SymbolValue(c % 64);
    assert a as int == a / 4 * 4 + a % 4 && b as int == b / 16 * 16 + b % 16 && c as int == c / 64 * 64 + c % 64;
  }

  /** What is encoded is one such group after another; a last group of one or two bytes is
      filled up with zeros, and the symbols that hold nothing else give way to padding. */
  lemma EncodedByGroups(data: seq<Byte>)
    ensures |data| == 1 ==> Encode(data) == Group(data[0], 0, 0)[..2] + "=="
    ensures |data| == 2 ==> Encode(data) == Group(data[0], data[1], 0)[..3] + "="
    ensures |data| >= 3 ==> Encode(data) == Group(data[0], data[1], data[2]) + Encode(data[3..])
  {
    hide Encode, Group;
    if |data| == 1 {
      LastByte(data[0]);
      assert data == [data[0]];
    } else if |data| == 2 {
      LastTwoBytes(data[0], data[1]);
      assert data == [data[0], data[1]];
    } else if |data| >= 3 {
      FirstThreeBytes(data);
    }
  }

  lemma FirstThreeBytes(data: seq<Byte>)
    requires |data| >= 3
    ensures Encode(data) == Group(data[0], data[1], data[2]) + Encode(data[3..])
  {
    hide Symbol, Group;
  }

  lemma LastByte(a: Byte)
    ensures Encode([a]) == Group(a, 0, 0)[..2] + "=="
  {
    hide Symbol;
    var g := Group(a, 0, 0);
    assert g[..2] == [g[0], g[1]] && Encode([a]) == [g[0], g[1], '=', '='];
  }

  lemma LastTwoBytes(a: Byte, b: Byte)
    ensures Encode([a, b]) == Group(a, b, 0)[..3] + "="
  {
    hide Symbol;
    var g := Group(a, b, 0);
    assert g[..3] == [g[0], g[1], g[2]] && Encode([a, b]) == [g[0], g[1], g[2], '='];
  }

  // Symbols up to the padding, which is of at most two signs.
  predicate Padded(s: string, pads: nat) {
    pads <= 2 && pads <= |s| && AllSymbols(s[..|s| - pads]) && forall k :: |s| - pads <= k < |s| ==> s[k] == '='
  }

  /** A text is decoded exactly if it has whole groups of four, of symbols but for up to two
      signs of padding at the very end. */
  lemma {:induction false} DecodedExactlyWhen(s: string)
    ensures Decode(s).Some? <==> |s| % 4 == 0 && exists pads: nat :: Padded(s, pads)
  {
    hide Decode, Padded, AllSymbols;
    if |s| < 4 {
      Short(s);
    } else if |s| == 4 {
      OneGroup(s);
    } else {
      DecodedExactlyWhen(s[4..]);
      FirstGroup(s);
      if |s| == 5 {
        assert Decode(s[4..]).None?;
      } else {
        forall pads: nat ensures Padded(s, pads) <==> AllSymbols(s[..4]) && Padded(s[4..], pads) { PaddedBehind(s, pads); }
      }
    }
  }

  lemma Short(s: string)
    requires |s| < 4
    ensures Decode(s).Some? <==> |s| == 0
    ensures |s| == 0 ==> Padded(s, 0)
  {
  }

  lemma FirstGroup(s: string)
    requires |s| > 4
    ensures Decode(s).Some? <==> AllSymbols(s[..4]) && Decode(s[4..]).Some?
  {
  }

  lemma PaddedBehind(s: string, pads: nat)
    requires |s| >= 6
    ensures Padded(s, pads) <==> AllSymbols(s[..4]) && Padded(s[4..], pads)
  {
    if pads <= 2 {
      var t, front := s[4..], s[..|s| - pads];
      assert front == s[..4] + t[..|t| - pads];
      if Padded(s, pads) {
        forall k | 0 <= k < 4 ensures IsSymbol(s[..4][k]) { assert front[k] == s[k]; }
        forall k | 0 <= k < |t| - pads ensures IsSymbol(t[k]) { assert front[k + 4] == t[k]; }
      }
      if AllSymbols(s[..4]) && Padded(t, pads) {
        forall k | 0 <= k < |front| ensures IsSymbol(front[k]) { if k >= 4 { assert front[k] == t[..|t| - pads][k - 4]; } else { assert front[k] == s[..4][k]; } }
        forall k | |s| - pads <= k < |s| ensures s[k] == '=' { assert s[k] == t[k - 4]; }
      }
    }
  }

  lemma OneGroup(s: string)
    requires |s| == 4
    ensures Decode(s).Some? <==> exists pads: nat :: Padded(s, pads)
  {
    assert s[4..] == "" && Decode(s[4..]) == Some([]);
    assert s[..4] == s;
    if Decode(s).Some? {
      if s[3] != '=' { assert Padded(s, 0); } else if s[2] != '=' { assert Padded(s, 1); } else { assert Padded(s, 2); }
    }
    if Padded(s, 0) { assert s[..4 - 0][3] == s[3]; }
    if Padded(s, 1) { assert s[..3][2] == s[2]; }
  }

  predicate Plain(c: char) { IsSymbol(c) || c == '=' }

  lemma {:induction false} EncodedPlainly(data: seq<Byte>)
    ensures forall c :: c in Encode(data) ==> Plain(c)
  {
    if |data| >= 3 { EncodedPlainly(data[3..]); }
  }
}
