/** Managed-egress configuration: administrator policy sets under a global ceiling. */
module NetworkConfig {
  import opened Text
  import opened AddressClasses
  import opened Policy

  const MAX_POLICY_SETS := 64
  const ID_MAX_LENGTH := 64
  const LABEL_MAX_LENGTH := 128
  const DEFAULT_ID := "default"
  const DEFAULT_LABEL := "Default"

  /** One entry of the configured array: either not an object of the right shape, or its
      four fields. */
  datatype SetInput = Malformed | SetInput(id: string, title: string, domains: seq<string>, ports: seq<int>)

  datatype PolicySet = PolicySet(id: string, title: string, domains: seq<string>, ports: seq<int>, policy: Compiled)

  // ^[a-z0-9](?:[a-z0-9_-]{0,62}[a-z0-9])?$
  predicate ValidId(id: string) {
    && 1 <= |id| <= ID_MAX_LENGTH
    && IsAlnum(id[0]) && IsAlnum(id[|id| - 1])
    && forall k :: 0 <= k < |id| ==> IsAlnum(id[k]) || id[k] == '_' || id[k] == '-'
  }

  predicate ValidTitle(title: string) {
    && 1 <= |title| <= LABEL_MAX_LENGTH && Trim(title) == title
    && forall k :: 0 <= k < |title| ==> title[k] as int > 0x1f && title[k] as int != 0x7f
  }

  // `parsePortValues`
  predicate ValidPorts(ports: seq<int>) {
    Unique(ports) && forall k :: 0 <= k < |ports| ==> PortInRange(ports[k])
  }

  predicate Subset<T(==)>(items: seq<T>, ceiling: seq<T>) {
    forall k :: 0 <= k < |items| ==> items[k] in ceiling
  }

  function CompileSet(id: string, title: string, domains: seq<string>, ports: seq<int>, denied: seq<string>, idna: Idna): Option<PolicySet> {
    match Compile(domains, denied, ports, idna)
    case None => None
    case Some(policy) => Some(PolicySet(id, title, domains, ports, policy))
  }

  datatype Globals = Globals(domains: seq<string>, denied: seq<string>, ports: seq<int>)

  /** Everything one entry must satisfy before it is compiled. */
  predicate Admissible(entry: SetInput, seen: set<string>, g: Globals, idna: Idna) {
    && entry.SetInput?
    && ValidId(entry.id) && entry.id !in seen
    && ValidTitle(entry.title)
    && entry.domains != [] && NormalizeAll(entry.domains, idna).Some?
    && Unique(NormalizeAll(entry.domains, idna).value)
    && Subset(NormalizeAll(entry.domains, idna).value, g.domains)
    && entry.ports != [] && ValidPorts(entry.ports) && Subset(entry.ports, g.ports)
  }

  function CompileEntry(entry: SetInput, seen: set<string>, g: Globals, idna: Idna): Option<PolicySet> {
    if !Admissible(entry, seen, g, idna) then None
    else CompileSet(entry.id, entry.title, NormalizeAll(entry.domains, idna).value, entry.ports, g.denied, idna)
  }

  function CompileEntries(entries: seq<SetInput>, seen: set<string>, g: Globals, idna: Idna): Option<seq<PolicySet>> {
    if entries == [] then Some([])
    else match CompileEntry(entries[0], seen, g, idna)
      case None => None
      case Some(first) => Prepend([first], CompileEntries(entries[1..], seen + {first.id}, g, idna))
  }

  predicate OneDefault(sets: seq<PolicySet>) {
    exists k :: 0 <= k < |sets| && sets[k].id == DEFAULT_ID
  }

  /** `parsePolicySets`, as a value: `None` is any thrown configuration error. */
  function PolicySets(raw: Option<seq<SetInput>>, g: Globals, idna: Idna): Option<seq<PolicySet>> {
    match raw
    case None =>
      (match CompileSet(DEFAULT_ID, DEFAULT_LABEL, g.domains, g.ports, g.denied, idna)
       case None => None
       case Some(only) => Some([only]))
    case Some(entries) =>
      if !(1 <= |entries| <= MAX_POLICY_SETS) then None
      else match CompileEntries(entries, {}, g, idna)
        case None => None
        case Some(sets) => if OneDefault(sets) then Some(sets) else None
  }

  /** `parsePolicySets`: the loop that grows the set of ids and the ordered list. */
  method ParsePolicySets(raw: Option<seq<SetInput>>, g: Globals, idna: Idna) returns (r: Option<seq<PolicySet>>)
    ensures r == PolicySets(raw, g, idna)
  {
    if raw.None? {
      var only := CompileSet(DEFAULT_ID, DEFAULT_LABEL, g.domains, g.ports, g.denied, idna);
      return if only.None? then None else Some([only.value]);
    }
    var entries := raw.value;
    if !(1 <= |entries| <= MAX_POLICY_SETS) { return None; }
    var ids: set<string>, ordered: seq<PolicySet> := {}, [];
    assert entries[0..] == entries;
    for index := 0 to |entries|
      invariant forall k :: 0 <= k < |ordered| ==> ordered[k].id in ids
      invariant CompileEntries(entries, {}, g, idna) == Prepend(ordered, CompileEntries(entries[index..], ids, g, idna))
    {
      assert entries[index..][1..] == entries[index + 1..];
      var entry := entries[index];
      if entry.Malformed? || !ValidId(entry.id) || entry.id in ids { return None; }
      if !ValidTitle(entry.title) || entry.domains == [] { return None; }
      var domains := NormalizeAll(entry.domains, idna);
      if domains.None? || !Unique(domains.value) || !Subset(domains.value, g.domains) { return None; }
      if entry.ports == [] || !ValidPorts(entry.ports) || !Subset(entry.ports, g.ports) { return None; }
      var compiled := CompileSet(entry.id, entry.title, domains.value, entry.ports, g.denied, idna);
      if compiled.None? { return None; }
      ids := ids + {entry.id};
      PrependTwice(ordered, [compiled.value], CompileEntries(entries[index + 1..], ids, g, idna));
      ordered := ordered + [compiled.value];
    }
    assert entries[|entries|..] == [] && ordered + [] == ordered;
    if !OneDefault(ordered) { return None; }
    r := Some(ordered);
  }

  // ------------------------------------------------------- the whole configuration

  datatype ConfigInput = ConfigInput(allowed: seq<string>, denied: seq<string>, ports: seq<int>, sets: Option<seq<SetInput>>)

  datatype Config = Config(globals: Globals, policy: Compiled, sets: seq<PolicySet>)

  // `parseDomainPatterns`
  function DomainPatterns(values: seq<string>, idna: Idna): Option<seq<string>> {
    match NormalizeAll(values, idna)
    case None => None
    case Some(normalized) => if Unique(normalized) then Some(normalized) else None
  }

  /** The part of `loadManagedNetworkConfig` that builds the ceiling and the sets. */
  function Load(input: ConfigInput, idna: Idna): Option<Config> {
    match (DomainPatterns(input.allowed, idna), DomainPatterns(input.denied, idna))
    case (Some(domains), Some(denied)) =>
      if !ValidPorts(input.ports) then None
      else
        var g := Globals(domains, denied, input.ports);
        (match (PolicySets(input.sets, g, idna), Compile(domains, denied, input.ports, idna))
         case (Some(sets), Some(policy)) => Some(Config(g, policy, sets))
         case _ => None)
    case _ => None
  }

  // A set stays under the globals: its patterns and ports are among theirs, and it is
  // compiled with exactly their denials.
  ghost predicate UnderCeiling(s: PolicySet, g: Globals, idna: Idna) {
    && Subset(s.domains, g.domains) && Subset(s.ports, g.ports)
    && Compile(s.domains, g.denied, s.ports, idna) == Some(s.policy)
  }

  lemma {:induction false} EntriesUnderCeiling(entries: seq<SetInput>, seen: set<string>, g: Globals, idna: Idna)
    requires CompileEntries(entries, seen, g, idna).Some?
    ensures var sets := CompileEntries(entries, seen, g, idna).value;
      && |sets| == |entries|
      && (forall k :: 0 <= k < |sets| ==> UnderCeiling(sets[k], g, idna) && sets[k].id !in seen)
      && (forall i, j :: 0 <= i < j < |sets| ==> sets[i].id != sets[j].id)
  {
    if entries != [] {
      var first := CompileEntry(entries[0], seen, g, idna).value;
      EntriesUnderCeiling(entries[1..], seen + {first.id}, g, idna);
    }
  }

  /** A compiled pattern list over fewer source patterns matches no more hosts. */
  lemma FewerPatternsMatchLess(few: seq<string>, many: seq<string>, idna: Idna, host: Host)
    requires UniquePatterns(few, idna).Some? && UniquePatterns(many, idna).Some?
    requires Subset(few, many)
    ensures AnyMatches(UniquePatterns(few, idna).value, host) ==> AnyMatches(UniquePatterns(many, idna).value, host)
  {
    var fewCompiled, manyCompiled := UniquePatterns(few, idna).value, UniquePatterns(many, idna).value;
    if AnyMatches(fewCompiled, host) {
      var k :| 0 <= k < |fewCompiled| && Matches(fewCompiled[k], host);
      var j :| 0 <= j < |many| && many[j] == few[k];
      assert manyCompiled[j] == fewCompiled[k];
    }
  }

  /** For every host and port: what a set under the ceiling allows, the ceiling allows. */
  lemma CeilingHolds(s: PolicySet, g: Globals, policy: Compiled, input: string, port: int, idna: Idna, t: Tables)
    requires t.Fit() && UnderCeiling(s, g, idna) && Compile(g.domains, g.denied, g.ports, idna) == Some(policy)
    requires Decide(s.policy, input, port, idna, t).Allowed()
    ensures Decide(policy, input, port, idna, t) == Decide(s.policy, input, port, idna, t)
  {
    hide NormalizeHost, Classify, Matches, Tables.Fit;
    var host := NormalizeHost(input, idna).value;
    FewerPatternsMatchLess(s.domains, g.domains, idna, host);
    var k :| 0 <= k < |s.ports| && s.ports[k] == port;
    assert s.ports[k] in g.ports;
  }

  /** The same for every set of every configuration that loads. */
  lemma LoadedSetsUnderCeiling(input: ConfigInput, idna: Idna)
    requires Load(input, idna).Some?
    ensures var c := Load(input, idna).value;
      && Compile(c.globals.domains, c.globals.denied, c.globals.ports, idna) == Some(c.policy)
      && (forall k :: 0 <= k < |c.sets| ==> UnderCeiling(c.sets[k], c.globals, idna))
      && (forall i, j :: 0 <= i < j < |c.sets| ==> c.sets[i].id != c.sets[j].id)
      && OneDefault(c.sets)
  {
    var c := Load(input, idna).value;
    if input.sets.Some? {
      EntriesUnderCeiling(input.sets.value, {}, c.globals, idna);
    } else {
      assert c.sets[0].id == DEFAULT_ID;
    }
  }

  lemma NothingEscapesTheCeiling(input: ConfigInput, k: nat, host: string, port: int, idna: Idna, t: Tables)
    requires t.Fit() && Load(input, idna).Some? && k < |Load(input, idna).value.sets|
    ensures var c := Load(input, idna).value;
      Decide(c.sets[k].policy, host, port, idna, t).Allowed() ==> Decide(c.policy, host, port, idna, t).Allowed()
  {
    LoadedSetsUnderCeiling(input, idna);
    var c := Load(input, idna).value;
    if Decide(c.sets[k].policy, host, port, idna, t).Allowed() {
      CeilingHolds(c.sets[k], c.globals, c.policy, host, port, idna, t);
    }
  }

  // Normalizing a list of patterns changes nothing about what it lists.
  lemma NormalizedListTheSame(values: seq<string>, host: Host, idna: Idna)
    requires idna.Stable() && NormalizeAll(values, idna).Some?
    ensures Listed(NormalizeAll(values, idna).value, host, idna) <==> Listed(values, host, idna)
  {
    hide NormalizePattern, CompilePattern, Covers, Idna.Stable;
    var normalized := NormalizeAll(values, idna).value;
    forall k | 0 <= k < |values|
      ensures NormalizePattern(values[k], idna) == Some(normalized[k]) && NormalizePattern(normalized[k], idna) == Some(normalized[k])
    {
      PatternIdempotent(values[k], idna);
    }
  }

  /** Whatever a set of a loaded configuration allows was allowed by the administrator: one
      of the allowed patterns as they were written is for its host and none of the denied
      ones, its port is among the ports, and if it is an address it is public. */
  lemma OnlyWhatIsConfigured(config: ConfigInput, k: nat, input: string, port: int, idna: Idna, t: Tables)
    requires idna.Stable() && t.Fit() && Load(config, idna).Some? && k < |Load(config, idna).value.sets|
    requires Decide(Load(config, idna).value.sets[k].policy, input, port, idna, t).Allowed()
    ensures 1 <= port <= 65535 && port in config.ports && NormalizeHost(input, idna).Some?
    ensures var host := NormalizeHost(input, idna).value;
      && Listed(config.allowed, host, idna) && !Listed(config.denied, host, idna)
      && (host.Ip? ==> WellFormed(host.address) && Classify(host.address, t) == Public)
  {
    hide Decide, Compile, Listed, NormalizeHost, Classify, WellFormed, PolicySets, NormalizeAll, Idna.Stable, Tables.Fit;
    LoadedSetsUnderCeiling(config, idna);
    NothingEscapesTheCeiling(config, k, input, port, idna, t);
    var g := Load(config, idna).value.globals;
    AllowedExactlyWhen(g.domains, g.denied, g.ports, input, port, idna, t);
    var host := NormalizeHost(input, idna).value;
    NormalizedListTheSame(config.allowed, host, idna);
    NormalizedListTheSame(config.denied, host, idna);
  }

  lemma NormalizedArePrepared(values: seq<string>, idna: Idna)
    requires NormalizeAll(values, idna).Some? && Unique(NormalizeAll(values, idna).value)
    ensures Prepared(NormalizeAll(values, idna).value, idna)
  {
    var normalized := NormalizeAll(values, idna).value;
    forall k | 0 <= k < |normalized| ensures WasNormalized(normalized[k], idna) {
      assert NormalizePattern(values[k], idna) == Some(normalized[k]);
    }
  }

  /** Compilation normalizes configured patterns a second time. That never turns an
      accepted configuration down: an admissible entry always compiles, and the patterns
      it was admitted with are the ones that decide. */
  lemma AdmissibleEntryCompiles(entry: SetInput, seen: set<string>, g: Globals, idna: Idna)
    requires idna.Stable() && Admissible(entry, seen, g, idna) && Prepared(g.denied, idna)
    ensures CompileEntry(entry, seen, g, idna).Some?
    ensures var s := CompileEntry(entry, seen, g, idna).value;
      NormalizedForms(s.policy.allowed) == s.domains && NormalizedForms(s.policy.denied) == g.denied
  {
    NormalizedArePrepared(entry.domains, idna);
    PreparedCompiles(NormalizeAll(entry.domains, idna).value, idna);
    PreparedCompiles(g.denied, idna);
  }

  lemma TrimmedMeans(s: string)
    ensures Trim(s) == s <==> s == [] || (!IsSpace(s[0]) && !IsSpace(s[|s| - 1]))
  {
    TrimmedEnds(s);
    if s == [] || (!IsSpace(s[0]) && !IsSpace(s[|s| - 1])) { TrimIdentity(s); }
  }

  /** An entry is accepted exactly if its identifier is a slug of at most 64 characters that
      is new, its label has at most 128 characters, none of them a control and no space at
      either end, its patterns are patterns, distinct once normalized, and all of them
      global ones, and its ports are ports, distinct, and all of them global ones; and
      neither list is empty. */
  lemma EntryAcceptedExactlyWhen(entry: SetInput, seen: set<string>, g: Globals, idna: Idna)
    requires idna.Stable() && Prepared(g.denied, idna)
    ensures CompileEntry(entry, seen, g, idna).Some? <==>
      && entry.SetInput? && 1 <= |entry.id| <= 64 && entry.id !in seen
      && (forall k :: 0 <= k < |entry.id| ==>
            || '0' <= entry.id[k] <= '9' || 'a' <= entry.id[k] <= 'z'
            || ((entry.id[k] == '_' || entry.id[k] == '-') && 0 < k < |entry.id| - 1))
      && 1 <= |entry.title| <= 128 && !IsSpace(entry.title[0]) && !IsSpace(entry.title[|entry.title| - 1])
      && (forall k :: 0 <= k < |entry.title| ==> entry.title[k] as int > 31 && entry.title[k] as int != 127)
      && entry.domains != []
      && (forall k :: 0 <= k < |entry.domains| ==>
            NormalizePattern(entry.domains[k], idna).Some? && NormalizePattern(entry.domains[k], idna).value in g.domains)
      && (forall i, j :: 0 <= i < j < |entry.domains| ==> NormalizePattern(entry.domains[i], idna) != NormalizePattern(entry.domains[j], idna))
      && entry.ports != [] && (forall k :: 0 <= k < |entry.ports| ==> 1 <= entry.ports[k] <= 65535 && entry.ports[k] in g.ports)
      && (forall i, j :: 0 <= i < j < |entry.ports| ==> entry.ports[i] != entry.ports[j])
  {
    hide NormalizePattern, Trim, IsSpace, Idna.Stable, Compile;
    if entry.SetInput? {
      TrimmedMeans(entry.title);
      if Admissible(entry, seen, g, idna) { AdmissibleEntryCompiles(entry, seen, g, idna); }
    }
  }

  // The identifiers of the entries in front of this one.
  function IdsBefore(entries: seq<SetInput>, k: nat): set<string>
    requires k <= |entries|
  {
    set i | 0 <= i < k && entries[i].SetInput? :: entries[i].id
  }

  lemma {:induction false} EntriesOneByOne(entries: seq<SetInput>, seen: set<string>, g: Globals, idna: Idna)
    ensures CompileEntries(entries, seen, g, idna).Some? <==>
            forall k :: 0 <= k < |entries| ==> CompileEntry(entries[k], seen + IdsBefore(entries, k), g, idna).Some?
    ensures CompileEntries(entries, seen, g, idna).Some? ==>
      var sets := CompileEntries(entries, seen, g, idna).value;
      |sets| == |entries| && forall k :: 0 <= k < |entries| ==> entries[k].SetInput? && sets[k].id == entries[k].id
  {
    hide Admissible, CompileSet;
    if entries != [] {
      var first := CompileEntry(entries[0], seen, g, idna);
      assert seen + IdsBefore(entries, 0) == seen;
      if first.Some? {
        EntryKeepsId(entries[0], seen, g, idna);
        var rest, more := entries[1..], seen + {first.value.id};
        EntriesOneByOne(rest, more, g, idna);
        forall k | 0 <= k < |rest| ensures more + IdsBefore(rest, k) == seen + IdsBefore(entries, k + 1) && rest[k] == entries[k + 1] {
          IdsOneFurther(entries, k);
        }
        if forall k :: 0 <= k < |entries| ==> CompileEntry(entries[k], seen + IdsBefore(entries, k), g, idna).Some? {
          forall k | 0 <= k < |rest| ensures CompileEntry(rest[k], more + IdsBefore(rest, k), g, idna).Some? {
            assert CompileEntry(entries[k + 1], seen + IdsBefore(entries, k + 1), g, idna).Some?;
          }
        }
        if CompileEntries(rest, more, g, idna).Some? {
          forall k | 0 <= k < |entries| ensures CompileEntry(entries[k], seen + IdsBefore(entries, k), g, idna).Some? {
            if k > 0 { assert CompileEntry(rest[k - 1], more + IdsBefore(rest, k - 1), g, idna).Some?; }
          }
        }
      }
    }
  }

  lemma EntryKeepsId(entry: SetInput, seen: set<string>, g: Globals, idna: Idna)
    requires CompileEntry(entry, seen, g, idna).Some?
    ensures entry.SetInput? && CompileEntry(entry, seen, g, idna).value.id == entry.id
  {
  }

  lemma IdsOneFurther(entries: seq<SetInput>, k: nat)
    requires k < |entries| && entries[0].SetInput?
    ensures {entries[0].id} + IdsBefore(entries[1..], k) == IdsBefore(entries, k + 1)
  {
    var rest := entries[1..];
    forall id | id in IdsBefore(entries, k + 1) ensures id in {entries[0].id} + IdsBefore(rest, k) {
      var i :| 0 <= i < k + 1 && entries[i].SetInput? && entries[i].id == id;
      if i > 0 { assert rest[i - 1] == entries[i]; }
    }
    forall id | id in IdsBefore(rest, k) ensures id in IdsBefore(entries, k + 1) {
      var i :| 0 <= i < k && rest[i].SetInput? && rest[i].id == id;
      assert entries[i + 1] == rest[i];
    }
  }

  // Patterns that are all patterns, no two of them the same once normalized.
  predicate DistinctPatterns(patterns: seq<string>, idna: Idna) {
    && (forall k :: 0 <= k < |patterns| ==> NormalizePattern(patterns[k], idna).Some?)
    && (forall i, j :: 0 <= i < j < |patterns| ==> NormalizePattern(patterns[i], idna) != NormalizePattern(patterns[j], idna))
  }

  lemma DomainPatternsExactly(patterns: seq<string>, idna: Idna)
    ensures DomainPatterns(patterns, idna).Some? <==> DistinctPatterns(patterns, idna)
    ensures DomainPatterns(patterns, idna).Some? ==> DomainPatterns(patterns, idna) == NormalizeAll(patterns, idna)
  {
    hide NormalizePattern;
  }

  /** A configuration loads exactly if its global patterns and ports are in order, and, where
      sets are given, there are between 1 and 64 of them, each is accepted behind those in
      front of it, and one is the default. Without sets it always loads. */
  lemma LoadsExactlyWhen(input: ConfigInput, idna: Idna)
    requires idna.Stable()
    ensures Load(input, idna).Some? <==>
      && DistinctPatterns(input.allowed, idna) && DistinctPatterns(input.denied, idna)
      && (forall k :: 0 <= k < |input.ports| ==> 1 <= input.ports[k] <= 65535)
      && (forall i, j :: 0 <= i < j < |input.ports| ==> input.ports[i] != input.ports[j])
      && (input.sets.Some? ==>
            var entries := input.sets.value;
            var g := Globals(NormalizeAll(input.allowed, idna).value, NormalizeAll(input.denied, idna).value, input.ports);
            && 1 <= |entries| <= 64
            && (forall k :: 0 <= k < |entries| ==> CompileEntry(entries[k], IdsBefore(entries, k), g, idna).Some?)
            && exists k :: 0 <= k < |entries| && entries[k].SetInput? && entries[k].id == "default")
  {
    hide NormalizePattern, NormalizeAll, CompileEntry, CompileEntries, DomainPatterns, DistinctPatterns, Compile, Idna.Stable, IdsBefore, Prepared;
    DomainPatternsExactly(input.allowed, idna);
    DomainPatternsExactly(input.denied, idna);
    if DistinctPatterns(input.allowed, idna) && DistinctPatterns(input.denied, idna) && ValidPorts(input.ports) {
      var g := Globals(NormalizeAll(input.allowed, idna).value, NormalizeAll(input.denied, idna).value, input.ports);
      GlobalsCompile(input, idna);
      if input.sets.Some? {
        EntriesOneByOne(input.sets.value, {}, g, idna);
        forall k | 0 <= k < |input.sets.value| ensures {} + IdsBefore(input.sets.value, k) == IdsBefore(input.sets.value, k) { }
      }
    }
  }

  lemma GlobalsCompile(input: ConfigInput, idna: Idna)
    requires idna.Stable() && DistinctPatterns(input.allowed, idna) && DistinctPatterns(input.denied, idna) && ValidPorts(input.ports)
    requires NormalizeAll(input.allowed, idna).Some? && NormalizeAll(input.denied, idna).Some?
    ensures Compile(NormalizeAll(input.allowed, idna).value, NormalizeAll(input.denied, idna).value, input.ports, idna).Some?
  {
    hide NormalizePattern, Idna.Stable, Prepared;
    NormalizedArePrepared(input.allowed, idna);
    NormalizedArePrepared(input.denied, idna);
    PreparedCompiles(NormalizeAll(input.allowed, idna).value, idna);
    PreparedCompiles(NormalizeAll(input.denied, idna).value, idna);
  }
}
