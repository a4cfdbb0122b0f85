/** String operations of the source language, with the laws the parsers rely on. */
module Text {

  datatype Option<+T> = None | Some(value: T)

  function Or<T>(o: Option<T>, otherwise: T): T { if o.Some? then o.value else otherwise }

  // What a loop has parsed so far, in front of what is still to come.
  function Prepend<T>(done: seq<T>, rest: Option<seq<T>>): (r: Option<seq<T>>)
    ensures done == [] ==> r == rest
  {
    if rest.None? then None
    else
      assert done == [] ==> done + rest.value == rest.value;
      Some(done + rest.value)
  }

  lemma PrependTwice<T>(a: seq<T>, b: seq<T>, rest: Option<seq<T>>)
    ensures Prepend(a, Prepend(b, rest)) == Prepend(a + b, rest)
  {
    if rest.Some? { assert a + (b + rest.value) == (a + b) + rest.value; }
  }

  // The characters that `trim` removes.
  predicate IsSpace(c: char) {
    var n := c as int;
    9 <= n <= 13 || n == 32 || n == 0xA0 || n == 0x1680 || 0x2000 <= n <= 0x200A ||
    n == 0x2028 || n == 0x2029 || n == 0x202F || n == 0x205F || n == 0x3000 || n == 0xFEFF
  }

  function TrimStart(s: string): string {
    if s != [] && IsSpace(s[0]) then TrimStart(s[1..]) else s
  }

  function TrimEnd(s: string): string {
    if s != [] && IsSpace(s[|s| - 1]) then TrimEnd(s[..|s| - 1]) else s
  }

  function Trim(s: string): string { TrimEnd(TrimStart(s)) }

  /** Trimming never leaves a space at either end, so it is idempotent. */
  lemma {:induction false} TrimmedEnds(s: string)
    ensures var t := Trim(s); t == [] || (!IsSpace(t[0]) && !IsSpace(t[|t| - 1]))
  {
    TrimStartEnds(s);
    TrimEndEnds(TrimStart(s));
  }

  lemma {:induction false} TrimStartEnds(s: string)
    ensures var t := TrimStart(s); t == [] || !IsSpace(t[0])
  {
    if s != [] && IsSpace(s[0]) { TrimStartEnds(s[1..]); }
  }

  lemma {:induction false} TrimEndEnds(s: string)
    ensures var t := TrimEnd(s); (t == [] || !IsSpace(t[|t| - 1])) && t <= s
  {
    if s != [] && IsSpace(s[|s| - 1]) { TrimEndEnds(s[..|s| - 1]); }
  }

  lemma TrimIdentity(s: string)
    requires s == [] || (!IsSpace(s[0]) && !IsSpace(s[|s| - 1]))
    ensures Trim(s) == s
  {
  }

  predicate StartsWith(s: string, prefix: string) { prefix <= s }

  predicate EndsWith(s: string, suffix: string) {
    |suffix| <= |s| && s[|s| - |suffix|..] == suffix
  }

  // ------------------------------------------------------------ split and join

  function Split(s: string, sep: char): (parts: seq<string>)
    ensures parts != []
  {
    if s == [] then [""]
    else
      var rest := Split(s[1..], sep);
      if s[0] == sep then [""] + rest else [[s[0]] + rest[0]] + rest[1..]
  }

  function Join(parts: seq<string>, sep: char): string {
    if parts == [] then ""
    else if |parts| == 1 then parts[0]
    else parts[0] + [sep] + Join(parts[1..], sep)
  }

  lemma {:induction false} JoinSplit(s: string, sep: char)
    ensures Join(Split(s, sep), sep) == s
    ensures forall k :: 0 <= k < |Split(s, sep)| ==> sep !in Split(s, sep)[k]
  {
    if s != [] {
      JoinSplit(s[1..], sep);
      var rest, parts := Split(s[1..], sep), Split(s, sep);
      assert s == [s[0]] + s[1..];
      if s[0] == sep {
        assert parts[1..] == rest;
        assert Join(parts, sep) == "" + [sep] + Join(rest, sep);
      } else {
        assert parts[1..] == rest[1..];
        assert Join(parts, sep) == [s[0]] + Join(rest, sep);
        forall k | 0 <= k < |parts| ensures sep !in parts[k] {
          if k > 0 { assert parts[k] == rest[k]; }
        }
      }
    }
  }

  lemma {:induction false} SplitNoSeparator(s: string, sep: char)
    requires sep !in s
    ensures Split(s, sep) == [s]
  {
    if s != [] {
      SplitNoSeparator(s[1..], sep);
      assert [s[0]] + s[1..] == s;
    }
  }

  lemma {:induction false} SplitAtSeparator(head: string, tail: string, sep: char)
    requires sep !in head
    ensures Split(head + [sep] + tail, sep) == [head] + Split(tail, sep)
  {
    var s := head + [sep] + tail;
    if head == [] {
      assert s[1..] == tail;
    } else {
      SplitAtSeparator(head[1..], tail, sep);
      assert s[1..] == head[1..] + [sep] + tail;
      assert [head[0]] + head[1..] == head;
    }
  }

  lemma {:induction false} SplitJoin(parts: seq<string>, sep: char)
    requires parts != []
    requires forall k :: 0 <= k < |parts| ==> sep !in parts[k]
    ensures Split(Join(parts, sep), sep) == parts
  {
    if |parts| == 1 {
      SplitNoSeparator(parts[0], sep);
    } else {
      SplitJoin(parts[1..], sep);
      SplitAtSeparator(parts[0], Join(parts[1..], sep), sep);
    }
  }

  /** Two texts around a separator have the parts of both. */
  lemma {:induction false} SplitOfSum(left: string, right: string, sep: char)
    ensures Split(left + [sep] + right, sep) == Split(left, sep) + Split(right, sep)
  {
    var s := left + [sep] + right;
    if left == [] {
      assert s[1..] == right;
    } else {
      SplitOfSum(left[1..], right, sep);
      assert s[0] == left[0] && s[1..] == left[1..] + [sep] + right;
      SplitStep(s, sep, Split(left[1..], sep), Split(right, sep));
    }
  }

  lemma SplitStep(s: string, sep: char, first: seq<string>, second: seq<string>)
    requires s != [] && first != [] && Split(s[1..], sep) == first + second
    ensures Split(s, sep) == (if s[0] == sep then [""] + first else [[s[0]] + first[0]] + first[1..]) + second
  {
    var rest := Split(s[1..], sep);
    assert rest[0] == first[0] && rest[1..] == first[1..] + second;
  }

  lemma {:induction false} JoinOfSum(left: seq<string>, right: seq<string>, sep: char)
    requires left != [] && right != []
    ensures Join(left + right, sep) == Join(left, sep) + [sep] + Join(right, sep)
  {
    var parts := left + right;
    if |left| == 1 {
      assert parts[1..] == right;
    } else {
      JoinOfSum(left[1..], right, sep);
      assert parts[1..] == left[1..] + right;
    }
  }

  /** A text ends with a separator and another text exactly if its parts end with those of
      the other and there are more of them. */
  lemma EndsInParts(s: string, tail: string, sep: char)
    ensures EndsWith(s, [sep] + tail) <==> exists front: seq<string> :: front != [] && Split(s, sep) == front + Split(tail, sep)
  {
    hide Split, Join;
    if EndsWith(s, [sep] + tail) {
      var head := s[..|s| - |tail| - 1];
      assert s == head + [sep] + tail;
      SplitOfSum(head, tail, sep);
    }
    if exists front: seq<string> :: front != [] && Split(s, sep) == front + Split(tail, sep) {
      var front: seq<string> :| front != [] && Split(s, sep) == front + Split(tail, sep);
      JoinSplit(s, sep);
      JoinSplit(tail, sep);
      JoinOfSum(front, Split(tail, sep), sep);
      assert s == Join(front, sep) + ([sep] + tail);
    }
  }

  /** A joined text is made of the separator and characters of its parts. */
  lemma {:induction false} JoinChars(parts: seq<string>, sep: char, c: char)
    requires c in Join(parts, sep)
    ensures (c == sep && |parts| > 1) || exists k :: 0 <= k < |parts| && c in parts[k]
  {
    if |parts| > 1 && c != sep && c !in parts[0] {
      assert c in Join(parts[1..], sep);
      JoinChars(parts[1..], sep, c);
      var k :| 0 <= k < |parts[1..]| && c in parts[1..][k];
      assert c in parts[k + 1];
    } else if |parts| == 1 {
      assert c in parts[0];
    }
  }

  /** A text joined from non-empty parts starts and ends with the characters of its
      first and last part. */
  lemma {:induction false} JoinEnds(parts: seq<string>, sep: char)
    requires parts != []
    requires forall k :: 0 <= k < |parts| ==> parts[k] != []
    ensures var t := Join(parts, sep); var last := parts[|parts| - 1];
      t != [] && t[0] == parts[0][0] && t[|t| - 1] == last[|last| - 1]
  {
    if |parts| > 1 {
      JoinEnds(parts[1..], sep);
      assert parts[1..][|parts| - 2] == parts[|parts| - 1];
    }
  }

  // --------------------------------------------------------- positions of a pair

  predicate PairAt(s: string, c: char, i: int) { 0 <= i && i + 1 < |s| && s[i] == c && s[i + 1] == c }

  /** `indexOf` of a doubled character, from a position; -1 if there is none. */
  function IndexOfPair(s: string, c: char, from: nat): (r: int)
    ensures r == -1 || (from <= r && PairAt(s, c, r))
    ensures forall i :: from <= i && (r == -1 || i < r) ==> !PairAt(s, c, i)
    decreases |s| - from
  {
    if from + 1 >= |s| then -1
    else if PairAt(s, c, from) then from
    else IndexOfPair(s, c, from + 1)
  }

  /** Joining non-empty separator-free parts never doubles the separator. */
  lemma {:induction false} JoinHasNoPair(parts: seq<string>, sep: char, i: int)
    requires forall k :: 0 <= k < |parts| ==> parts[k] != [] && sep !in parts[k]
    ensures !PairAt(Join(parts, sep), sep, i)
  {
    if |parts| > 1 {
      var rest := Join(parts[1..], sep);
      JoinHasNoPair(parts[1..], sep, i - |parts[0]| - 1);
      JoinEnds(parts[1..], sep);
    }
  }

  /** Two pair-free texts around a pair: the pair is found where it was put, and there
      is no second one. */
  lemma PairBetween(left: string, right: string, c: char)
    requires forall i :: !PairAt(left, c, i)
    requires forall i :: !PairAt(right, c, i)
    requires left != [] ==> left[|left| - 1] != c
    ensures var t := left + [c, c] + right;
      && IndexOfPair(t, c, 0) == |left| && IndexOfPair(t, c, |left| + 2) == -1
      && t[..|left|] == left && t[|left| + 2..] == right
  {
    var t := left + [c, c] + right;
    assert PairAt(t, c, |left|);
    forall i | 0 <= i < |left| ensures !PairAt(t, c, i) {
      assert !PairAt(left, c, i) && t[i] == left[i];
    }
    forall i | |left| + 2 <= i ensures !PairAt(t, c, i) {
      var j := i - |left| - 2;
      assert !PairAt(right, c, j);
      if j + 1 < |right| { assert t[i] == right[j] && t[i + 1] == right[j + 1]; }
    }
  }

  // ------------------------------------------------------------------- letter case

  function LowerChar(c: char): char {
    if 'A' <= c <= 'Z' then (c as int - 'A' as int + 'a' as int) as char else c
  }

  /** The twenty-six capital letters, each for its small one, and nothing else. */
  lemma LowerCases(c: char)
    ensures var big, small := "ABCDEFGHIJKLMNOPQRSTUVWXYZ", "abcdefghijklmnopqrstuvwxyz";
      && (forall k :: 0 <= k < 26 && big[k] == c ==> LowerChar(c) == small[k])
      && (c !in big ==> LowerChar(c) == c)
  {
    var big := "ABCDEFGHIJKLMNOPQRSTUVWXYZ";
    if 'A' <= c <= 'Z' { assert big[c as int - 'A' as int] == c; }
  }

  function Lower(s: string): (r: string)
    ensures |r| == |s|
  {
    seq(|s|, k requires 0 <= k < |s| => LowerChar(s[k]))
  }

  lemma LowerOfSum(a: string, b: string)
    ensures Lower(a + b) == Lower(a) + Lower(b)
  {
  }

  lemma LowerOfSlice(s: string, i: nat, j: nat)
    requires i <= j <= |s|
    ensures Lower(s)[i..j] == Lower(s[i..j])
  {
  }

  // What is not a letter stays where it is.
  lemma LowerKeeps(s: string, c: char)
    requires !('A' <= c <= 'Z') && !('a' <= c <= 'z')
    ensures c in Lower(s) <==> c in s
    ensures forall k :: 0 <= k < |s| ==> (Lower(s)[k] == c <==> s[k] == c)
  {
    assert forall k :: 0 <= k < |s| ==> (Lower(s)[k] == c <==> s[k] == c);
  }

  function LowerAll(parts: seq<string>): (r: seq<string>)
    ensures |r| == |parts|
  {
    seq(|parts|, k requires 0 <= k < |parts| => Lower(parts[k]))
  }

  lemma LowerAllStep(head: string, rest: seq<string>)
    ensures LowerAll([head] + rest) == [Lower(head)] + LowerAll(rest)
  {
  }

  lemma {:induction false} LowerSplit(s: string, sep: char)
    requires !('A' <= sep <= 'Z') && !('a' <= sep <= 'z')
    ensures Split(Lower(s), sep) == LowerAll(Split(s, sep))
  {
    hide LowerAll;
    if s != [] {
      var rest, rest' := Split(s[1..], sep), Split(Lower(s[1..]), sep);
      LowerSplit(s[1..], sep);
      assert Lower(s)[1..] == Lower(s[1..]);
      if s[0] == sep {
        LowerAllStep("", rest);
        assert Lower("") == "";
      } else {
        LowerAllStep([s[0]] + rest[0], rest[1..]);
        LowerAllStep(rest[0], rest[1..]);
        assert rest == [rest[0]] + rest[1..];
        assert Lower([s[0]] + rest[0]) == [Lower(s)[0]] + rest'[0];
        assert rest'[1..] == LowerAll(rest[1..]);
      }
    } else {
      LowerAllStep("", []);
      assert Lower(s) == s && [""] + [] == [""];
    }
  }

  lemma LowerTrims(s: string)
    ensures Trim(Lower(s)) == Lower(s) <==> Trim(s) == s
  {
    TrimmedEnds(s);
    TrimmedEnds(Lower(s));
    if s != [] && !IsSpace(s[0]) && !IsSpace(s[|s| - 1]) {
      TrimIdentity(s);
      TrimIdentity(Lower(s));
    }
  }

  // -------------------------------------------------------- decimal and hex digits

  predicate IsDigit(c: char) { '0' <= c <= '9' }

  function DigitValue(c: char): (n: nat)
    requires IsDigit(c)
    ensures n < 10
  {
    c as int - '0' as int
  }

  function Digit(n: nat): (c: char)
    requires n < 10
    ensures IsDigit(c) && DigitValue(c) == n
  {
    ('0' as int + n) as char
  }

  predicate IsHex(c: char) { IsDigit(c) || 'a' <= c <= 'f' || 'A' <= c <= 'F' }

  function HexValue(c: char): (n: nat)
    requires IsHex(c)
    ensures n < 16
  {
    if IsDigit(c) then c as int - '0' as int
    else if 'a' <= c <= 'f' then c as int - 'a' as int + 10
    else c as int - 'A' as int + 10
  }

  function HexDigit(n: nat): (c: char)
    requires n < 16
    ensures IsHex(c) && HexValue(c) == n && !('A' <= c <= 'F')
  {
    if n < 10 then ('0' as int + n) as char else ('a' as int + n - 10) as char
  }

  /** A hexadecimal digit is one of these sixteen characters, in either case, and counts
      for its place among them; the small one is the one that is printed. */
  lemma HexDigits(c: char, n: nat)
    requires n < 16
    ensures IsHex(c) && HexValue(c) == n <==> c == "0123456789abcdef"[n] || c == "0123456789ABCDEF"[n]
    ensures LowerChar("0123456789ABCDEF"[n]) == HexDigit(n) == "0123456789abcdef"[n]
  {
  }

  predicate AllHex(s: string) { forall k :: 0 <= k < |s| ==> IsHex(s[k]) }

  function HexNumber(s: string): nat
    requires AllHex(s)
  {
    if s == [] then 0 else HexNumber(s[..|s| - 1]) * 16 + HexValue(s[|s| - 1])
  }

  /** The shortest lower-case spelling. */
  function FormatHex(n: nat): (s: string)
    ensures s != [] && AllHex(s)
    ensures forall k :: 0 <= k < |s| ==> !('A' <= s[k] <= 'F')
    ensures n != 0 ==> s[0] != '0'
  {
    if n < 16 then [HexDigit(n)] else FormatHex(n / 16) + [HexDigit(n % 16)]
  }

  lemma {:induction false} HexRoundTrip(n: nat)
    ensures HexNumber(FormatHex(n)) == n
  {
    var s := FormatHex(n);
    if n >= 16 {
      HexRoundTrip(n / 16);
      assert s[..|s| - 1] == FormatHex(n / 16);
    } else {
      assert s[..0] == [];
    }
  }

  lemma {:induction false} LowerHex(s: string)
    ensures AllHex(Lower(s)) <==> AllHex(s)
    ensures AllHex(s) ==> HexNumber(Lower(s)) == HexNumber(s)
  {
    forall k | 0 <= k < |s| ensures IsHex(Lower(s)[k]) <==> IsHex(s[k]) {
      assert Lower(s)[k] == LowerChar(s[k]);
    }
    if AllHex(s) && s != [] {
      LowerHex(s[..|s| - 1]);
      assert Lower(s)[..|s| - 1] == Lower(s[..|s| - 1]);
    }
  }

  function Repeated(c: char, n: nat): (s: string)
    ensures |s| == n && forall k :: 0 <= k < n ==> s[k] == c
  {
    seq(n, _ => c)
  }

  /** What a number in hexadecimal is written like: its shortest spelling, in either case,
      behind any number of zeros. */
  lemma {:induction false} HexNumberIsSpelled(s: string) returns (zeros: nat)
    requires s != [] && AllHex(s)
    ensures Lower(s) == Repeated('0', zeros) + FormatHex(HexNumber(s))
  {
    var q, n := s[..|s| - 1], HexNumber(s);
    var v := HexValue(s[|s| - 1]);
    HexDigits(s[|s| - 1], v);
    assert Lower(s) == Lower(q) + [HexDigit(v)];
    zeros := 0;
    if q != [] {
      zeros := HexNumberIsSpelled(q);
      assert n / 16 == HexNumber(q) && n % 16 == v;
      if HexNumber(q) == 0 {
        zeros := zeros + 1;
        assert Lower(q) == Repeated('0', zeros);
      }
    }
  }

  lemma {:induction false} SpelledHexNumber(s: string, zeros: nat, n: nat)
    requires Lower(s) == Repeated('0', zeros) + FormatHex(n)
    ensures s != [] && AllHex(s) && HexNumber(s) == n
  {
    LowerHex(s);
    ZerosAddNothing(zeros, FormatHex(n));
    HexRoundTrip(n);
  }

  lemma {:induction false} ZerosAddNothing(zeros: nat, s: string)
    requires AllHex(s)
    ensures AllHex(Repeated('0', zeros) + s) && HexNumber(Repeated('0', zeros) + s) == HexNumber(s)
    decreases |s|, zeros
  {
    var t := Repeated('0', zeros) + s;
    if s != [] {
      ZerosAddNothing(zeros, s[..|s| - 1]);
      assert t[..|t| - 1] == Repeated('0', zeros) + s[..|s| - 1];
    } else if zeros > 0 {
      ZerosAddNothing(zeros - 1, s);
      assert t[..|t| - 1] == Repeated('0', zeros - 1) + s;
    }
  }

  lemma HexWidth(n: nat)
    requires n < 65536
    ensures |FormatHex(n)| <= 4
  {
    assert n / 16 < 4096 && n / 16 / 16 < 256 && n / 16 / 16 / 16 < 16;
    assert |FormatHex(n / 16 / 16 / 16)| == 1;
    assert |FormatHex(n / 16 / 16)| <= 2;
    assert |FormatHex(n / 16)| <= 3;
  }
}
