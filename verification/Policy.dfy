/** Destination policy: host and pattern normalization, compilation, matching, and the
    decision that HTTP, CONNECT and SOCKS share. */
module Policy {
  import opened Text
  import opened Addresses
  import opened AddressClasses

  /** The two domain conversions of the platform. `toAscii` may throw. */
  datatype Idna = Idna(toAscii: string -> Option<string>, toUnicode: string -> string) {
    /** The one thing assumed of them: valid output converts to itself. */
    ghost predicate Stable() {
      forall t {:trigger toAscii(t)} :: toAscii(t).Some? && ValidAsciiDomain(Lower(toAscii(t).value), this) ==>
        toAscii(Lower(toAscii(t).value)) == Some(Lower(toAscii(t).value))
    }
  }

  predicate IsAlnum(c: char) { IsDigit(c) || 'a' <= c <= 'z' }

  // [a-z0-9](?:[a-z0-9-]*[a-z0-9])? of at most 63 characters, and a genuine A-part
  predicate ValidLabel(part: string, idna: Idna) {
    && 1 <= |part| <= 63
    && IsAlnum(part[0]) && IsAlnum(part[|part| - 1])
    && (forall k :: 0 <= k < |part| ==> IsAlnum(part[k]) || part[k] == '-')
    && !(StartsWith(part, "xn--") && idna.toUnicode(part) == part)
  }

  predicate ValidAsciiDomain(ascii: string, idna: Idna) {
    1 <= |ascii| <= 253 && forall k :: 0 <= k < |Split(ascii, '.')| ==> ValidLabel(Split(ascii, '.')[k], idna)
  }

  predicate NumericLabel(part: string) {
    || (part != [] && forall k :: 0 <= k < |part| ==> IsDigit(part[k]))
    || (|part| > 2 && part[0] == '0' && (part[1] == 'x' || part[1] == 'X') && AllHex(part[2..]))
  }

  predicate AmbiguousNumeric(host: string) {
    forall k :: 0 <= k < |Split(host, '.')| ==> NumericLabel(Split(host, '.')[k])
  }

  // A character that is never part of a name: URL syntax, controls, space, delete.
  predicate Forbidden(c: char) { c in ":/?#@%\\" || c as int <= 0x20 || c as int == 0x7f }

  datatype Host = Domain(name: string) | Ip(address: Address) {
    function Name(): string { if Domain? then name else address.text }
  }

  function DropFinalDot(host: string): string { if EndsWith(host, ".") then host[..|host| - 1] else host }

  function NormalizeDomain(text: string, idna: Idna): Option<Host> {
    if exists k :: 0 <= k < |text| && Forbidden(text[k]) then None
    else
      var host := DropFinalDot(text);
      if host == [] || EndsWith(host, ".") || AmbiguousNumeric(host) then None
      else match idna.toAscii(host)
        case None => None
        case Some(converted) =>
          var ascii := Lower(converted);
          if ValidAsciiDomain(ascii, idna) && !AmbiguousNumeric(ascii) then Some(Domain(ascii)) else None
  }

  /** `normalizeDestinationHost`; `None` is the thrown `invalid_host`. */
  function NormalizeHost(input: string, idna: Idna): Option<Host> {
    var host := Trim(input);
    if host == [] then None
    else if StartsWith(host, "[") || EndsWith(host, "]") then
      if !(StartsWith(host, "[") && EndsWith(host, "]")) then None
      else
        assert host[0] == '[' && host[|host| - |"]"|..][0] == ']';
        var literal := host[1..|host| - 1];
        if ':' !in literal then None
        else match ParseAddress(literal)
          case Some(a) => if a.family == 6 then Some(Ip(a)) else None
          case None => None
    else match ParseAddress(host)
      case Some(a) => Some(Ip(a))
      case None => NormalizeDomain(host, idna)
  }

  // --------------------------------------------------------- idempotence of hosts

  lemma AddressCharsArePlain(t: string)
    requires t != [] && forall c :: c in t ==> IsHex(c) || c == '.' || c == ':'
    ensures Trim(t) == t && !StartsWith(t, "[") && !EndsWith(t, "]") && '*' !in t && '[' !in t && ']' !in t
  {
    assert t[0] in t && t[|t| - 1] in t;
    TrimIdentity(t);
    assert t[|t| - 1..] == [t[|t| - 1]];
  }

  lemma AddressTextIsPlain(a: Address)
    requires ParseAddress(a.text) == Some(a)
    ensures Trim(a.text) == a.text && a.text != [] && !StartsWith(a.text, "[") && !EndsWith(a.text, "]")
    ensures '*' !in a.text && '[' !in a.text && ']' !in a.text
  {
    hide Trim, StartsWith, EndsWith;
    if Ipv4Bytes(a.text).Some? {
      Ipv4RoundTrip(a.text, Ipv4Bytes(a.text).value);
      Ipv4TextChars(Ipv4Bytes(a.text).value);
      assert a.text != [];
    } else {
      Ipv6TextEnds(a.bytes);
    }
    AddressCharsArePlain(a.text);
  }

  lemma {:induction false} LowerIdentity(s: string)
    requires forall k :: 0 <= k < |s| ==> !('A' <= s[k] <= 'Z')
    ensures Lower(s) == s
  {
  }

  predicate DomainChar(c: char) { IsAlnum(c) || c == '-' || c == '.' }

  lemma ValidDomainChars(ascii: string, idna: Idna)
    requires ValidAsciiDomain(ascii, idna)
    ensures ascii != [] && IsAlnum(ascii[0]) && IsAlnum(ascii[|ascii| - 1])
    ensures forall c :: c in ascii ==> DomainChar(c)
  {
    var labels := Split(ascii, '.');
    JoinSplit(ascii, '.');
    assert forall k :: 0 <= k < |labels| ==> ValidLabel(labels[k], idna);
    JoinEnds(labels, '.');
    forall c | c in ascii ensures DomainChar(c) { JoinChars(labels, '.', c); }
    assert ValidLabel(labels[|labels| - 1], idna);
  }

  lemma Ipv4TextIsNumeric(input: string)
    requires Ipv4Bytes(input).Some?
    ensures AmbiguousNumeric(input)
  {
    var bytes := Ipv4Bytes(input).value;
    Ipv4RoundTrip(input, bytes);
    SplitJoin(FormatOctets(bytes), '.');
  }

  lemma DomainIsNotAddress(ascii: string, idna: Idna)
    requires ValidAsciiDomain(ascii, idna) && !AmbiguousNumeric(ascii)
    ensures ParseAddress(ascii) == None
  {
    ValidDomainChars(ascii, idna);
    if Ipv4Bytes(ascii).Some? { Ipv4TextIsNumeric(ascii); }
    assert ':' !in ascii;
    NoColonNoIpv6(ascii);
  }

  lemma DomainIsPlain(ascii: string, idna: Idna)
    requires ValidAsciiDomain(ascii, idna)
    ensures Trim(ascii) == ascii && ascii != [] && Lower(ascii) == ascii
    ensures '*' !in ascii && '[' !in ascii && ']' !in ascii
    ensures DropFinalDot(ascii) == ascii && !EndsWith(ascii, ".")
    ensures forall k :: 0 <= k < |ascii| ==> !Forbidden(ascii[k])
  {
    ValidDomainChars(ascii, idna);
    TrimIdentity(ascii);
    forall k | 0 <= k < |ascii| ensures !Forbidden(ascii[k]) && !('A' <= ascii[k] <= 'Z') {
      assert ascii[k] in ascii;
    }
    LowerIdentity(ascii);
  }

  lemma DomainIsFixed(text: string, idna: Idna)
    requires idna.Stable() && NormalizeDomain(text, idna).Some?
    ensures NormalizeDomain(text, idna).value.Domain?
    ensures var ascii := NormalizeDomain(text, idna).value.name;
      && ValidAsciiDomain(ascii, idna) && !AmbiguousNumeric(ascii)
      && NormalizeDomain(ascii, idna) == Some(Domain(ascii))
  {
    var ascii := NormalizeDomain(text, idna).value.name;
    DomainIsPlain(ascii, idna);
    assert idna.toAscii(ascii) == Some(ascii);
  }

  lemma IpIsFixed(a: Address, idna: Idna)
    requires ParseAddress(a.text) == Some(a)
    ensures NormalizeHost(a.text, idna) == Some(Ip(a))
  {
    AddressTextIsPlain(a);
  }

  function Unbracketed(t: string): string { if StartsWith(t, "[") && |t| >= 2 then t[1..|t| - 1] else t }

  // An IP host is what parsing the text, inside its brackets, gave.
  lemma IpWasParsed(input: string, idna: Idna)
    requires NormalizeHost(input, idna).Some? && NormalizeHost(input, idna).value.Ip?
    ensures ParseAddress(Unbracketed(Trim(input))) == Some(NormalizeHost(input, idna).value.address)
  {
    hide Trim, ParseAddress, NormalizeDomain;
    DomainIsDomain(Trim(input), idna);
  }

  lemma NormalizedIpParses(input: string, idna: Idna)
    requires NormalizeHost(input, idna).Some? && NormalizeHost(input, idna).value.Ip?
    ensures var a := NormalizeHost(input, idna).value.address; ParseAddress(a.text) == Some(a)
  {
    IpWasParsed(input, idna);
    ParseIsFixedPoint(Unbracketed(Trim(input)));
  }

  lemma DomainIsDomain(text: string, idna: Idna)
    ensures NormalizeDomain(text, idna).Some? ==> NormalizeDomain(text, idna).value.Domain?
  {
  }

  lemma DomainNameIsFixed(name: string, idna: Idna)
    requires ValidAsciiDomain(name, idna) && !AmbiguousNumeric(name)
    ensures NormalizeHost(name, idna) == NormalizeDomain(name, idna)
  {
    DomainIsPlain(name, idna);
    DomainIsNotAddress(name, idna);
    ValidDomainChars(name, idna);
    assert !IsAlnum('[') && !IsAlnum(']');
  }

  /** Normalizing a normalized host changes nothing, and its text holds no wildcard,
      bracket or surrounding space. */
  lemma HostIdempotent(input: string, idna: Idna)
    requires idna.Stable() && NormalizeHost(input, idna).Some?
    ensures var name := NormalizeHost(input, idna).value.Name();
      && NormalizeHost(name, idna) == NormalizeHost(input, idna)
      && Trim(name) == name && name != [] && '*' !in name && '[' !in name && ']' !in name
  {
    var host := NormalizeHost(input, idna).value;
    if host.Ip? {
      NormalizedIpParses(input, idna);
      IpIsFixed(host.address, idna);
      AddressTextIsPlain(host.address);
    } else {
      DomainIsFixed(Trim(input), idna);
      DomainIsPlain(host.name, idna);
      DomainNameIsFixed(host.name, idna);
    }
  }

  // ---------------------------------------------------------------------- patterns

  function WildcardPrefix(value: string): string {
    if StartsWith(value, "**.") then "**." else if StartsWith(value, "*.") then "*." else ""
  }

  /** `normalizeDestinationPattern`; `None` is the thrown `invalid_pattern`. */
  function NormalizePattern(input: string, idna: Idna): Option<string> {
    var trimmed := Trim(input);
    if trimmed == "*" then Some(trimmed)
    else if trimmed == [] || '[' in trimmed || ']' in trimmed then None
    else
      var prefix := WildcardPrefix(trimmed);
      var value := trimmed[|prefix|..];
      if '*' in value then None
      else match NormalizeHost(value, idna)
        case None => None
        case Some(host) => if prefix != "" && host.Ip? then None else Some(prefix + host.Name())
  }

  lemma PrefixedIsPlain(prefix: string, name: string)
    requires prefix == "" || prefix == "*." || prefix == "**."
    requires name != [] && Trim(name) == name && '*' !in name && '[' !in name && ']' !in name
    ensures var r := prefix + name;
      && Trim(r) == r && r != [] && r != "*" && '[' !in r && ']' !in r
      && WildcardPrefix(r) == prefix && r[|prefix|..] == name
  {
    var r := prefix + name;
    TrimmedEnds(name);
    TrimIdentity(r);
    if prefix == "" {
      assert r == name && r[0] in name;
    } else if prefix == "*." {
      assert r[1] == '.' && r[0] == '*';
    }
  }

  /** The second normalization of a pattern, during compilation, neither fails nor
      changes it; compiling it normalizes its host a third time. */
  lemma PatternIdempotent(input: string, idna: Idna)
    requires idna.Stable() && NormalizePattern(input, idna).Some?
    ensures var p := NormalizePattern(input, idna).value;
      NormalizePattern(p, idna) == Some(p) && CompilePattern(p, idna).Some?
  {
    var trimmed := Trim(input);
    if trimmed != "*" {
      var prefix := WildcardPrefix(trimmed);
      var value := trimmed[|prefix|..];
      HostIdempotent(value, idna);
      PrefixedIsPlain(prefix, NormalizeHost(value, idna).value.Name());
    } else {
      TrimIdentity("*");
    }
  }

  datatype Mode = All | Exact | Subdomains | ApexAndSubdomains

  datatype Pattern = Pattern(normalized: string, mode: Mode, base: Option<Host>)

  /** `compilePattern`; its own normalization of the base may throw. */
  function CompilePattern(normalized: string, idna: Idna): Option<Pattern> {
    if normalized == "*" then Some(Pattern(normalized, All, None))
    else
      var prefix := WildcardPrefix(normalized);
      var mode := if prefix == "**." then ApexAndSubdomains else if prefix == "*." then Subdomains else Exact;
      match NormalizeHost(normalized[|prefix|..], idna)
      case None => None
      case Some(host) => Some(Pattern(normalized, mode, Some(host)))
  }

  /** `matches`. */
  predicate Matches(p: Pattern, host: Host) {
    if p.mode == All || p.base == None then p.mode == All
    else
      var base := p.base.value;
      if base.Ip? || host.Ip? then p.mode == Exact && base.Ip? == host.Ip? && base.Name() == host.Name()
      else if p.mode == Exact then base.name == host.name
      else EndsWith(host.name, "." + base.name) || (p.mode == ApexAndSubdomains && host.name == base.name)
  }

  /** What a normalized pattern is for. A star stands for at least one label in front of a
      name, two stars for any number of them; without stars a pattern is for the one host
      that it is. */
  ghost predicate Covers(pattern: string, host: Host, idna: Idna) {
    if pattern == "*" then true
    else if StartsWith(pattern, "**.") then
      host.Domain? && exists front: seq<string> :: Split(host.name, '.') == front + Split(pattern[3..], '.')
    else if StartsWith(pattern, "*.") then
      host.Domain? && exists front: seq<string> :: front != [] && Split(host.name, '.') == front + Split(pattern[2..], '.')
    else NormalizeHost(pattern, idna) == Some(host)
  }

  // The parts of a pattern that was normalized, and its compiled form.
  lemma NormalizedPatternShape(pattern: string, idna: Idna) returns (prefix: string, base: Host)
    requires idna.Stable() && WasNormalized(pattern, idna) && pattern != "*"
    ensures prefix == WildcardPrefix(pattern) && pattern == prefix + base.Name() && pattern[|prefix|..] == base.Name()
    ensures NormalizeHost(base.Name(), idna) == Some(base) && (prefix != "" ==> base.Domain?)
  {
    hide NormalizeHost, Idna.Stable, Trim;
    var input :| NormalizePattern(input, idna) == Some(pattern);
    var trimmed := Trim(input);
    prefix := WildcardPrefix(trimmed);
    var value := trimmed[|prefix|..];
    base := NormalizeHost(value, idna).value;
    HostIdempotent(value, idna);
    PrefixedIsPlain(prefix, base.Name());
  }

  lemma NamesAreDistinct(a: Host, b: Host, idna: Idna)
    requires NormalizeHost(a.Name(), idna) == Some(a) && NormalizeHost(b.Name(), idna) == Some(b)
    ensures a.Name() == b.Name() <==> a == b
  {
  }

  // Nothing, or something, in front of the labels of a name.
  lemma InFrontOf(name: string, base: string)
    ensures (exists front: seq<string> :: Split(name, '.') == front + Split(base, '.')) <==>
            name == base || exists front: seq<string> :: front != [] && Split(name, '.') == front + Split(base, '.')
  {
    JoinSplit(name, '.');
    JoinSplit(base, '.');
    if name == base { assert Split(name, '.') == [] + Split(base, '.'); }
    if exists front: seq<string> :: Split(name, '.') == front + Split(base, '.') {
      var front: seq<string> :| Split(name, '.') == front + Split(base, '.');
      if front == [] { assert Split(name, '.') == Split(base, '.'); }
    }
  }

  /** The comparison of texts in `matches` decides what a normalized pattern is for: whole
      labels are compared, never parts of them, and addresses only with themselves. */
  lemma MatchesByLabels(pattern: string, input: string, idna: Idna)
    requires idna.Stable() && WasNormalized(pattern, idna) && NormalizeHost(input, idna).Some?
    requires CompilePattern(pattern, idna).Some?
    ensures var host := NormalizeHost(input, idna).value;
      Matches(CompilePattern(pattern, idna).value, host) <==> Covers(pattern, host, idna)
  {
    hide NormalizeHost, Idna.Stable, WasNormalized, Split, Unbracketed;
    var host := NormalizeHost(input, idna).value;
    HostIdempotent(input, idna);
    if pattern != "*" {
      var prefix, base := NormalizedPatternShape(pattern, idna);
      NamesAreDistinct(base, host, idna);
      if prefix != "" && host.Domain? {
        EndsInParts(host.name, base.name, '.');
        InFrontOf(host.name, base.name);
      }
    }
  }

  // ------------------------------------------------------------------- compilation

  predicate Unique<T(==)>(items: seq<T>) {
    forall i, j :: 0 <= i < j < |items| ==> items[i] != items[j]
  }

  function NormalizeAll(patterns: seq<string>, idna: Idna): (r: Option<seq<string>>)
    ensures r.Some? ==> |r.value| == |patterns|
    ensures r.Some? ==> forall k :: 0 <= k < |patterns| ==> NormalizePattern(patterns[k], idna) == Some(r.value[k])
    ensures r.None? ==> exists k :: 0 <= k < |patterns| && NormalizePattern(patterns[k], idna) == None
  {
    if patterns == [] then Some([])
    else match (NormalizePattern(patterns[0], idna), NormalizeAll(patterns[1..], idna))
      case (Some(p), Some(rest)) => Some([p] + rest)
      case (None, _) => None
      case (Some(_), None) =>
        var k :| 0 <= k < |patterns[1..]| && NormalizePattern(patterns[1..][k], idna) == None;
        assert NormalizePattern(patterns[k + 1], idna) == None;
        None
  }

  function CompileAll(normalized: seq<string>, idna: Idna): (r: Option<seq<Pattern>>)
    ensures r.Some? ==> |r.value| == |normalized|
    ensures r.Some? ==> forall k :: 0 <= k < |normalized| ==> CompilePattern(normalized[k], idna) == Some(r.value[k])
    ensures r.None? ==> exists k :: 0 <= k < |normalized| && CompilePattern(normalized[k], idna) == None
  {
    if normalized == [] then Some([])
    else match (CompilePattern(normalized[0], idna), CompileAll(normalized[1..], idna))
      case (Some(p), Some(rest)) => Some([p] + rest)
      case (None, _) => None
      case (Some(_), None) =>
        var k :| 0 <= k < |normalized[1..]| && CompilePattern(normalized[1..][k], idna) == None;
        assert CompilePattern(normalized[k + 1], idna) == None;
        None
  }

  /** `normalizedUniquePatterns`. */
  function UniquePatterns(patterns: seq<string>, idna: Idna): Option<seq<Pattern>> {
    match NormalizeAll(patterns, idna)
    case None => None
    case Some(normalized) => if !Unique(normalized) then None else CompileAll(normalized, idna)
  }

  datatype Compiled = Compiled(allowed: seq<Pattern>, denied: seq<Pattern>, ports: set<int>)

  predicate PortInRange(port: int) { 1 <= port <= 65535 }

  /** `compileDestinationPolicy` from a port list; `None` is any thrown policy error. */
  function Compile(allowed: seq<string>, denied: seq<string>, ports: seq<int>, idna: Idna): Option<Compiled> {
    if !Unique(ports) || exists k :: 0 <= k < |ports| && !PortInRange(ports[k]) then None
    else match (UniquePatterns(allowed, idna), UniquePatterns(denied, idna))
      case (Some(a), Some(d)) => Some(Compiled(a, d, set p | p in ports))
      case _ => None
  }

  function NormalizedForms(patterns: seq<Pattern>): (r: seq<string>)
    ensures |r| == |patterns| && forall k :: 0 <= k < |patterns| ==> r[k] == patterns[k].normalized
  {
    seq(|patterns|, k requires 0 <= k < |patterns| => patterns[k].normalized)
  }

  // Patterns as configuration leaves them: normalized once, and without duplicates.
  ghost predicate Prepared(patterns: seq<string>, idna: Idna) {
    Unique(patterns) && forall k :: 0 <= k < |patterns| ==> WasNormalized(patterns[k], idna)
  }

  ghost predicate WasNormalized(pattern: string, idna: Idna) {
    exists input :: NormalizePattern(input, idna) == Some(pattern)
  }

  lemma NormalizedPatternCompiles(pattern: string, idna: Idna)
    requires idna.Stable() && WasNormalized(pattern, idna)
    ensures NormalizePattern(pattern, idna) == Some(pattern)
    ensures CompilePattern(pattern, idna).Some? && CompilePattern(pattern, idna).value.normalized == pattern
  {
    var input :| NormalizePattern(input, idna) == Some(pattern);
    PatternIdempotent(input, idna);
  }

  /** Prepared patterns always compile, and to themselves. */
  lemma PreparedCompiles(patterns: seq<string>, idna: Idna)
    requires idna.Stable() && Prepared(patterns, idna)
    ensures UniquePatterns(patterns, idna).Some?
    ensures NormalizedForms(UniquePatterns(patterns, idna).value) == patterns
  {
    hide NormalizePattern, CompilePattern, Idna.Stable, WasNormalized;
    forall k | 0 <= k < |patterns|
      ensures NormalizePattern(patterns[k], idna) == Some(patterns[k])
      ensures CompilePattern(patterns[k], idna).Some? && CompilePattern(patterns[k], idna).value.normalized == patterns[k]
    {
      NormalizedPatternCompiles(patterns[k], idna);
    }
    var normalized := NormalizeAll(patterns, idna).value;
    assert normalized == patterns;
    var compiled := CompileAll(patterns, idna).value;
    assert forall k :: 0 <= k < |patterns| ==> compiled[k].normalized == patterns[k];
  }

  // -------------------------------------------------------------------- decisions

  datatype Reason = Allowlist | ExplicitDeny | NotAllowed | LocalAddress | PortNotAllowed

  datatype Decision = InvalidPort | InvalidHost | Decided(reason: Reason, host: Host) {
    predicate Allowed() { Decided? && reason == Allowlist }
  }

  predicate AnyMatches(patterns: seq<Pattern>, host: Host) {
    exists k :: 0 <= k < |patterns| && Matches(patterns[k], host)
  }

  predicate IsPublic(host: Host, t: Tables)
    requires t.Fit() && (host.Ip? ==> WellFormed(host.address))
  {
    host.Ip? ==> Classify(host.address, t) == Public
  }

  lemma HostIsWellFormed(input: string, idna: Idna)
    requires NormalizeHost(input, idna).Some?
    ensures var host := NormalizeHost(input, idna).value; host.Ip? ==> WellFormed(host.address)
  {
    if NormalizeHost(input, idna).value.Ip? {
      IpWasParsed(input, idna);
      ParsedIsWellFormed(Unbracketed(Trim(input)));
    }
  }

  /** `decideDestination`. */
  function Decide(policy: Compiled, input: string, port: int, idna: Idna, t: Tables): Decision
    requires t.Fit()
  {
    if !PortInRange(port) then InvalidPort
    else match NormalizeHost(input, idna)
      case None => InvalidHost
      case Some(host) =>
        HostIsWellFormed(input, idna);
        if AnyMatches(policy.denied, host) then Decided(ExplicitDeny, host)
        else if port !in policy.ports then Decided(PortNotAllowed, host)
        else if !AnyMatches(policy.allowed, host) then Decided(NotAllowed, host)
        else if !IsPublic(host, t) then Decided(LocalAddress, host)
        else Decided(Allowlist, host)
  }

  lemma CompiledPatternCovers(patterns: seq<string>, k: nat, input: string, idna: Idna)
    requires idna.Stable() && NormalizeHost(input, idna).Some?
    requires UniquePatterns(patterns, idna).Some? && k < |patterns|
    ensures |UniquePatterns(patterns, idna).value| == |patterns| && NormalizePattern(patterns[k], idna).Some?
    ensures var host := NormalizeHost(input, idna).value;
      Matches(UniquePatterns(patterns, idna).value[k], host) <==> Covers(NormalizePattern(patterns[k], idna).value, host, idna)
  {
    hide Covers, Matches, NormalizePattern, NormalizeHost, CompilePattern, Idna.Stable;
    var normalized := NormalizeAll(patterns, idna).value;
    assert WasNormalized(normalized[k], idna);
    MatchesByLabels(normalized[k], input, idna);
  }

  // Some pattern of a list, as it was written, is for the host.
  ghost predicate Listed(patterns: seq<string>, host: Host, idna: Idna) {
    exists k :: 0 <= k < |patterns| && NormalizePattern(patterns[k], idna).Some? && Covers(NormalizePattern(patterns[k], idna).value, host, idna)
  }

  lemma ListedExactlyWhen(patterns: seq<string>, input: string, idna: Idna)
    requires idna.Stable() && NormalizeHost(input, idna).Some? && UniquePatterns(patterns, idna).Some?
    ensures AnyMatches(UniquePatterns(patterns, idna).value, NormalizeHost(input, idna).value) <==>
            Listed(patterns, NormalizeHost(input, idna).value, idna)
  {
    hide Covers, Matches, NormalizePattern, NormalizeHost, Idna.Stable, UniquePatterns;
    forall k: nat | k < |patterns|
      ensures |UniquePatterns(patterns, idna).value| == |patterns| && NormalizePattern(patterns[k], idna).Some?
      ensures Matches(UniquePatterns(patterns, idna).value[k], NormalizeHost(input, idna).value) <==>
              Covers(NormalizePattern(patterns[k], idna).value, NormalizeHost(input, idna).value, idna)
    {
      CompiledPatternCovers(patterns, k, input, idna);
    }
    if UniquePatterns(patterns, idna).value != [] { CompiledSize(patterns, idna); }
  }

  lemma CompiledSize(patterns: seq<string>, idna: Idna)
    requires UniquePatterns(patterns, idna).Some?
    ensures |UniquePatterns(patterns, idna).value| == |patterns|
  {
  }

  /** A destination is allowed exactly if its port is one and is listed, its host is one, no
      denied pattern is for that host, some allowed pattern is, and, if the host is an
      address, the address is public. Otherwise the reason is the first of these that
      fails, and a denied host is denied whatever else is configured. */
  lemma AllowedExactlyWhen(allowed: seq<string>, denied: seq<string>, ports: seq<int>, input: string, port: int, idna: Idna, t: Tables)
    requires idna.Stable() && t.Fit() && Compile(allowed, denied, ports, idna).Some?
    ensures var d := Decide(Compile(allowed, denied, ports, idna).value, input, port, idna, t);
      d.Allowed() <==>
        && 1 <= port <= 65535 && port in ports && NormalizeHost(input, idna).Some?
        && var host := NormalizeHost(input, idna).value;
           && !Listed(denied, host, idna) && Listed(allowed, host, idna)
           && (host.Ip? ==> WellFormed(host.address) && Classify(host.address, t) == Public)
    ensures var d := Decide(Compile(allowed, denied, ports, idna).value, input, port, idna, t);
      && (d == InvalidPort <==> !(1 <= port <= 65535))
      && (d == InvalidHost <==> 1 <= port <= 65535 && NormalizeHost(input, idna) == None)
      && (d.Decided? ==>
          && NormalizeHost(input, idna) == Some(d.host)
          && (d.reason == ExplicitDeny <==> Listed(denied, d.host, idna))
          && (d.reason == PortNotAllowed <==> !Listed(denied, d.host, idna) && port !in ports)
          && (d.reason == NotAllowed <==> !Listed(denied, d.host, idna) && port in ports && !Listed(allowed, d.host, idna)))
  {
    hide NormalizeHost, NormalizeAll, CompileAll, AnyMatches, Listed, Idna.Stable, Classify, WellFormed, Tables.Fit;
    if NormalizeHost(input, idna).Some? {
      ListedExactlyWhen(allowed, input, idna);
      ListedExactlyWhen(denied, input, idna);
      HostIsWellFormed(input, idna);
    }
  }
}
