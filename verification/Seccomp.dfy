/** The seccomp filter generator: a compiler from a syscall policy to classic BPF
    with relative forward jumps, and the interpreter that gives the programs their
    meaning. */
module Seccomp {

  type Word = bv32

  const RET_KILL_PROCESS: Word := 0x8000_0000
  const RET_ALLOW: Word := 0x7fff_0000
  const RET_ERRNO: Word := 0x0005_0000
  const EPERM: Word := 1
  const ERRNO_ACTION: Word := RET_ERRNO | EPERM

  const NR_OFFSET: Word := 0
  const ARCH_OFFSET: Word := 4
  const ARG0_OFFSET: Word := 16
  const X32_SYSCALL_BIT: Word := 0x4000_0000

  const AF_UNIX: Word := 1
  const AF_INET: Word := 2
  const AF_INET6: Word := 10

  const LOAD_ABSOLUTE: bv16 := 0x00 | 0x00 | 0x20
  const JUMP_EQUAL: bv16 := 0x05 | 0x10 | 0x00
  const JUMP_SET: bv16 := 0x05 | 0x40 | 0x00
  const RETURN_CONSTANT: bv16 := 0x06 | 0x00

  datatype Architecture = X86_64 | Aarch64 {
    function Audit(): Word { if X86_64? then 0xc000_003e else 0xc000_00b7 }
    function SocketCall(): Word { if X86_64? then 41 else 198 }
    function SocketPairCall(): Word { if X86_64? then 53 else 199 }
    function DeniedCalls(): seq<Word> {
      if X86_64? then [101, 310, 311, 425, 426, 427] else [117, 270, 271, 425, 426, 427]
    }
  }

  // Jump distances are bytes in the instruction encoding.
  type Distance = n: nat | n < 256

  datatype Instruction = Instruction(code: bv16, jumpTrue: Distance, jumpFalse: Distance, value: Word)

  function Statement(code: bv16, value: Word): Instruction { Instruction(code, 0, 0, value) }

  // What the kernel hands to the filter for one system call.
  datatype Call = Call(arch: Word, nr: Word, arg0: Word)

  datatype Outcome = Return(action: Word) | UnexpectedLoad | UnexpectedOpcode | FellOffTheEnd

  function Loaded(offset: Word, call: Call): (r: seq<Word>)
    ensures |r| <= 1
  {
    if offset == ARCH_OFFSET then [call.arch]
    else if offset == NR_OFFSET then [call.nr]
    else if offset == ARG0_OFFSET then [call.arg0]
    else []
  }

  // How far a jump instruction skips, given the accumulator.
  function Skip(i: Instruction, acc: Word): Distance {
    if i.code == JUMP_EQUAL then (if acc == i.value then i.jumpTrue else i.jumpFalse)
    else if acc & i.value != 0 then i.jumpTrue else i.jumpFalse
  }

  /** Big-step meaning of a program from a program counter and accumulator. */
  function Run(program: seq<Instruction>, pc: nat, acc: Word, call: Call): Outcome
    decreases |program| - pc
  {
    if pc >= |program| then FellOffTheEnd
    else
      var i := program[pc];
      if i.code == LOAD_ABSOLUTE then
        var loaded := Loaded(i.value, call);
        if loaded == [] then UnexpectedLoad else Run(program, pc + 1, loaded[0], call)
      else if i.code == JUMP_EQUAL || i.code == JUMP_SET then Run(program, pc + 1 + Skip(i, acc), acc, call)
      else if i.code == RETURN_CONSTANT then Return(i.value)
      else UnexpectedOpcode
  }

  // One instruction of a program.
  lemma RunOnce(program: seq<Instruction>, pc: nat, acc: Word, call: Call)
    ensures pc >= |program| ==> Run(program, pc, acc, call) == FellOffTheEnd
    ensures pc < |program| ==>
      var i := program[pc];
      Run(program, pc, acc, call) ==
        if i.code == LOAD_ABSOLUTE then
          if Loaded(i.value, call) == [] then UnexpectedLoad else Run(program, pc + 1, Loaded(i.value, call)[0], call)
        else if i.code == JUMP_EQUAL || i.code == JUMP_SET then Run(program, pc + 1 + Skip(i, acc), acc, call)
        else if i.code == RETURN_CONSTANT then Return(i.value)
        else UnexpectedOpcode
  {
  }

  /** The interpreter loop: it computes `Run` one instruction at a time. */
  method Evaluate(program: seq<Instruction>, call: Call) returns (outcome: Outcome)
    ensures outcome == Run(program, 0, 0, call)
  {
    hide Run, Loaded;
    var acc: Word, pc: nat := 0, 0;
    while pc < |program|
      invariant Run(program, 0, 0, call) == Run(program, pc, acc, call)
      decreases |program| - pc
    {
      var i := program[pc];
      RunOnce(program, pc, acc, call);
      if i.code == LOAD_ABSOLUTE {
        var loaded := Loaded(i.value, call);
        if loaded == [] { return UnexpectedLoad; }
        acc, pc := loaded[0], pc + 1;
      } else if i.code == JUMP_EQUAL {
        pc := pc + 1 + (if acc == i.value then i.jumpTrue else i.jumpFalse);
      } else if i.code == JUMP_SET {
        pc := pc + 1 + (if acc & i.value != 0 then i.jumpTrue else i.jumpFalse);
      } else if i.code == RETURN_CONSTANT {
        return Return(i.value);
      } else {
        return UnexpectedOpcode;
      }
    }
    RunOnce(program, pc, acc, call);
    outcome := FellOffTheEnd;
  }

  // ---------------------------------------------------------------- the policy

  /** The declared policy, with no reference to instructions. */
  function Verdict(a: Architecture, denied: seq<Word>, call: Call): Word {
    if call.arch != a.Audit() then RET_KILL_PROCESS
    else if a.X86_64? && call.nr & X32_SYSCALL_BIT != 0 then ERRNO_ACTION
    else if call.nr in denied then ERRNO_ACTION
    else if call.nr == a.SocketCall() then
      if call.arg0 == AF_INET || call.arg0 == AF_INET6 then RET_ALLOW else ERRNO_ACTION
    else if call.nr == a.SocketPairCall() then
      if call.arg0 == AF_UNIX then RET_ALLOW else ERRNO_ACTION
    else RET_ALLOW
  }

  // ------------------------------------------------------------- the generator

  function Prologue(a: Architecture): seq<Instruction> {
    [ Statement(LOAD_ABSOLUTE, ARCH_OFFSET),
      Instruction(JUMP_EQUAL, 1, 0, a.Audit()),
      Statement(RETURN_CONSTANT, RET_KILL_PROCESS),
      Statement(LOAD_ABSOLUTE, NR_OFFSET) ]
  }

  function X32Guard(a: Architecture): seq<Instruction> {
    if a.X86_64? then [Instruction(JUMP_SET, 0, 1, X32_SYSCALL_BIT), Statement(RETURN_CONSTANT, ERRNO_ACTION)]
    else []
  }

  function DenyOne(nr: Word): seq<Instruction> {
    [Instruction(JUMP_EQUAL, 0, 1, nr), Statement(RETURN_CONSTANT, ERRNO_ACTION)]
  }

  function DenyAll(denied: seq<Word>): seq<Instruction> {
    if denied == [] then [] else DenyOne(denied[0]) + DenyAll(denied[1..])
  }

  function SocketRules(a: Architecture): seq<Instruction> {
    [ Instruction(JUMP_EQUAL, 0, 6, a.SocketCall()),
      Statement(LOAD_ABSOLUTE, ARG0_OFFSET),
      Instruction(JUMP_EQUAL, 0, 1, AF_INET),
      Statement(RETURN_CONSTANT, RET_ALLOW),
      Instruction(JUMP_EQUAL, 0, 1, AF_INET6),
      Statement(RETURN_CONSTANT, RET_ALLOW),
      Statement(RETURN_CONSTANT, ERRNO_ACTION) ]
  }

  function SocketPairRules(a: Architecture): seq<Instruction> {
    [ Instruction(JUMP_EQUAL, 0, 4, a.SocketPairCall()),
      Statement(LOAD_ABSOLUTE, ARG0_OFFSET),
      Instruction(JUMP_EQUAL, 0, 1, AF_UNIX),
      Statement(RETURN_CONSTANT, RET_ALLOW),
      Statement(RETURN_CONSTANT, ERRNO_ACTION),
      Statement(RETURN_CONSTANT, RET_ALLOW) ]
  }

  function Filter(a: Architecture, denied: seq<Word>): seq<Instruction> {
    Prologue(a) + (X32Guard(a) + (DenyAll(denied) + (SocketRules(a) + SocketPairRules(a))))
  }

  lemma FilterIsRight(a: Architecture, denied: seq<Word>)
    ensures forall call :: Run(Filter(a, denied), 0, 0, call) == Return(Verdict(a, denied, call))
    ensures JumpsInside(Filter(a, denied))
  {
    forall call ensures Run(Filter(a, denied), 0, 0, call) == Return(Verdict(a, denied, call)) {
      FilterImplementsPolicy(a, denied, call);
    }
    FilterJumpsInside(a, denied);
  }

  method AppendDenials(filter: seq<Instruction>, denied: seq<Word>) returns (longer: seq<Instruction>)
    ensures longer == filter + DenyAll(denied)
  {
    longer := filter;
    for k := 0 to |denied|
      invariant longer == filter + DenyAll(denied[..k])
    {
      longer := longer + [Instruction(JUMP_EQUAL, 0, 1, denied[k])];
      longer := longer + [Statement(RETURN_CONSTANT, ERRNO_ACTION)];
      assert denied[..k + 1] == denied[..k] + [denied[k]];
      DenyAllAppend(denied[..k], denied[k]);
    }
    assert denied[..|denied|] == denied;
  }

  /** `generate_filter`, for a deny list of any length. The program it builds decides
      every call as the policy says. */
  method GenerateFilter(a: Architecture, denied: seq<Word>) returns (filter: seq<Instruction>)
    ensures filter == Filter(a, denied)
    ensures forall call :: Run(filter, 0, 0, call) == Return(Verdict(a, denied, call))
    ensures JumpsInside(filter)
  {
    hide Run, Verdict, JumpsInside, DenyAll, SocketRules, SocketPairRules, Prologue, Filter;
    filter := Prologue(a);
    if a == X86_64 {
      filter := filter + [Instruction(JUMP_SET, 0, 1, X32_SYSCALL_BIT)];
      filter := filter + [Statement(RETURN_CONSTANT, ERRNO_ACTION)];
    }
    assert filter == Prologue(a) + X32Guard(a);
    filter := AppendDenials(filter, denied);
    filter := filter + SocketRules(a);
    filter := filter + SocketPairRules(a);
    FilterInParts(a, denied);
    FilterIsRight(a, denied);
  }

  lemma FilterInParts(a: Architecture, denied: seq<Word>)
    ensures Prologue(a) + X32Guard(a) + DenyAll(denied) + SocketRules(a) + SocketPairRules(a) == Filter(a, denied)
  {
    hide Prologue, X32Guard, DenyAll, SocketRules, SocketPairRules;
  }

  lemma {:induction false} DenyAllAppend(denied: seq<Word>, nr: Word)
    ensures DenyAll(denied + [nr]) == DenyAll(denied) + DenyOne(nr)
  {
    if denied != [] {
      assert (denied + [nr])[1..] == denied[1..] + [nr];
      DenyAllAppend(denied[1..], nr);
    }
  }

  // ------------------------------------------------------ compiler correctness

  /** Relative jumps make a suffix position-independent. */
  lemma {:induction false} RunShift(front: seq<Instruction>, back: seq<Instruction>, pc: nat, acc: Word, call: Call)
    ensures Run(front + back, |front| + pc, acc, call) == Run(back, pc, acc, call)
    decreases |back| - pc
  {
    if pc < |back| {
      var i := back[pc];
      assert (front + back)[|front| + pc] == i;
      if i.code == LOAD_ABSOLUTE {
        var loaded := Loaded(i.value, call);
        if loaded != [] { RunShift(front, back, pc + 1, loaded[0], call); }
      } else if i.code == JUMP_EQUAL || i.code == JUMP_SET {
        RunShift(front, back, pc + 1 + Skip(i, acc), acc, call);
        assert |front| + (pc + 1 + Skip(i, acc)) == |front| + pc + 1 + Skip(i, acc);
      }
    }
  }

  lemma {:induction false} DenyOneRuns(nr: Word, rest: seq<Instruction>, acc: Word, call: Call)
    ensures Run(DenyOne(nr) + rest, 0, acc, call) ==
            if acc == nr then Return(ERRNO_ACTION) else Run(rest, 0, acc, call)
  {
    var p := DenyOne(nr) + rest;
    assert p[0] == Instruction(JUMP_EQUAL, 0, 1, nr) && p[1] == Statement(RETURN_CONSTANT, ERRNO_ACTION);
    if acc == nr {
      assert Run(p, 0, acc, call) == Run(p, 1, acc, call);
    } else {
      assert Run(p, 0, acc, call) == Run(p, 2, acc, call);
      RunShift(DenyOne(nr), rest, 0, acc, call);
    }
  }

  lemma {:induction false} DenyAllRuns(denied: seq<Word>, rest: seq<Instruction>, acc: Word, call: Call)
    ensures Run(DenyAll(denied) + rest, 0, acc, call) ==
            if acc in denied then Return(ERRNO_ACTION) else Run(rest, 0, acc, call)
  {
    if denied == [] {
      assert DenyAll(denied) + rest == rest;
    } else {
      var tail := DenyAll(denied[1..]) + rest;
      assert DenyAll(denied) + rest == DenyOne(denied[0]) + tail;
      DenyOneRuns(denied[0], tail, acc, call);
      DenyAllRuns(denied[1..], rest, acc, call);
      assert acc in denied <==> acc == denied[0] || acc in denied[1..];
    }
  }

  lemma X32GuardRuns(a: Architecture, rest: seq<Instruction>, acc: Word, call: Call)
    ensures Run(X32Guard(a) + rest, 0, acc, call) ==
            if a.X86_64? && acc & X32_SYSCALL_BIT != 0 then Return(ERRNO_ACTION) else Run(rest, 0, acc, call)
  {
    var p := X32Guard(a) + rest;
    if a.X86_64? {
      assert p[0] == Instruction(JUMP_SET, 0, 1, X32_SYSCALL_BIT) && p[1] == Statement(RETURN_CONSTANT, ERRNO_ACTION);
      if acc & X32_SYSCALL_BIT != 0 {
        assert Run(p, 0, acc, call) == Run(p, 1, acc, call);
      } else {
        assert Run(p, 0, acc, call) == Run(p, 2, acc, call);
        RunShift(X32Guard(a), rest, 0, acc, call);
      }
    } else {
      assert p == rest;
    }
  }

  lemma SocketPairRulesRun(a: Architecture, acc: Word, call: Call)
    ensures Run(SocketPairRules(a), 0, acc, call) ==
            Return(if acc == a.SocketPairCall() && call.arg0 != AF_UNIX then ERRNO_ACTION else RET_ALLOW)
  {
    var p := SocketPairRules(a);
    if acc == a.SocketPairCall() {
      assert Run(p, 0, acc, call) == Run(p, 1, acc, call) == Run(p, 2, call.arg0, call);
      if call.arg0 == AF_UNIX {
        assert Run(p, 2, call.arg0, call) == Run(p, 3, call.arg0, call);
      } else {
        assert Run(p, 2, call.arg0, call) == Run(p, 4, call.arg0, call);
      }
    } else {
      assert Run(p, 0, acc, call) == Run(p, 5, acc, call);
    }
  }

  // Behind the load of the family.
  lemma FamilyRulesRun(a: Architecture, p: seq<Instruction>, call: Call)
    requires |p| >= 7 && forall k :: 0 <= k < 7 ==> p[k] == SocketRules(a)[k]
    ensures Run(p, 2, call.arg0, call) == Return(if call.arg0 == AF_INET || call.arg0 == AF_INET6 then RET_ALLOW else ERRNO_ACTION)
  {
    var f := call.arg0;
    if f == AF_INET {
      assert Run(p, 2, f, call) == Run(p, 3, f, call);
    } else {
      assert Run(p, 2, f, call) == Run(p, 4, f, call);
      if f == AF_INET6 {
        assert Run(p, 4, f, call) == Run(p, 5, f, call);
      } else {
        assert Run(p, 4, f, call) == Run(p, 6, f, call);
      }
    }
  }

  lemma SocketRulesRun(a: Architecture, rest: seq<Instruction>, acc: Word, call: Call)
    ensures Run(SocketRules(a) + rest, 0, acc, call) ==
            if acc != a.SocketCall() then Run(rest, 0, acc, call)
            else Return(if call.arg0 == AF_INET || call.arg0 == AF_INET6 then RET_ALLOW else ERRNO_ACTION)
  {
    var p := SocketRules(a) + rest;
    assert p[..7] == SocketRules(a);
    assert forall k :: 0 <= k < 7 ==> p[k] == SocketRules(a)[k];
    if acc == a.SocketCall() {
      assert Run(p, 0, acc, call) == Run(p, 1, acc, call) == Run(p, 2, call.arg0, call);
      FamilyRulesRun(a, p, call);
    } else {
      assert Run(p, 0, acc, call) == Run(p, 7, acc, call);
      RunShift(SocketRules(a), rest, 0, acc, call);
    }
  }

  // The architecture is checked, and the number of the call loaded.
  lemma PrologueRuns(a: Architecture, rest: seq<Instruction>, call: Call)
    ensures Run(Prologue(a) + rest, 0, 0, call) ==
            if call.arch != a.Audit() then Return(RET_KILL_PROCESS) else Run(rest, 0, call.nr, call)
  {
    var p := Prologue(a) + rest;
    assert forall k :: 0 <= k < 4 ==> p[k] == Prologue(a)[k];
    assert Run(p, 0, 0, call) == Run(p, 1, call.arch, call);
    if call.arch == a.Audit() {
      assert Run(p, 1, call.arch, call) == Run(p, 3, call.arch, call) == Run(p, 4, call.nr, call);
      RunShift(Prologue(a), rest, 0, call.nr, call);
    } else {
      assert Run(p, 1, call.arch, call) == Run(p, 2, call.arch, call);
    }
  }

  /** Every call, on every architecture word, is decided exactly by the policy: the
      program always returns, and from inside itself. */
  lemma FilterImplementsPolicy(a: Architecture, denied: seq<Word>, call: Call)
    ensures Run(Filter(a, denied), 0, 0, call) == Return(Verdict(a, denied, call))
  {
    var pairs := SocketPairRules(a);
    var sockets := SocketRules(a) + pairs;
    var denials := DenyAll(denied) + sockets;
    var rest := X32Guard(a) + denials;
    hide Run, SocketRules, SocketPairRules, DenyAll, X32Guard, Prologue;
    PrologueRuns(a, rest, call);
    if call.arch == a.Audit() {
      X32GuardRuns(a, denials, call.nr, call);
      DenyAllRuns(denied, sockets, call.nr, call);
      SocketRulesRun(a, pairs, call.nr, call);
      SocketPairRulesRun(a, call.nr, call);
    }
  }

  /** What the declared filter answers, in the numbers of the kernel: another architecture
      ends the process; on x86-64 the calls of x32, `ptrace`, the two calls on the memory of
      another process and the three of `io_uring` are denied, `socket` is allowed for
      AF_INET and AF_INET6 only and `socketpair` for AF_UNIX only; and everything else is
      allowed. On aarch64 it is the same, without x32. */
  lemma DeclaredFilter(a: Architecture, call: Call)
    ensures Run(Filter(a, a.DeniedCalls()), 0, 0, call) == Return(
      match a
      case X86_64 =>
        if call.arch != 0xc000_003e then 0x8000_0000
        else if call.nr & 0x4000_0000 != 0 || call.nr in [101, 310, 311, 425, 426, 427] then 0x0005_0001
        else if call.nr == 41 then (if call.arg0 == 2 || call.arg0 == 10 then 0x7fff_0000 else 0x0005_0001)
        else if call.nr == 53 then (if call.arg0 == 1 then 0x7fff_0000 else 0x0005_0001)
        else 0x7fff_0000
      case Aarch64 =>
        if call.arch != 0xc000_00b7 then 0x8000_0000
        else if call.nr in [117, 270, 271, 425, 426, 427] then 0x0005_0001
        else if call.nr == 198 then (if call.arg0 == 2 || call.arg0 == 10 then 0x7fff_0000 else 0x0005_0001)
        else if call.nr == 199 then (if call.arg0 == 1 then 0x7fff_0000 else 0x0005_0001)
        else 0x7fff_0000)
  {
    hide Filter, Run;
    FilterImplementsPolicy(a, a.DeniedCalls(), call);
  }

  // --------------------------------------------------- what the loader requires

  predicate JumpInside(program: seq<Instruction>, pc: nat)
    requires pc < |program|
  {
    var i := program[pc];
    (i.code == JUMP_EQUAL || i.code == JUMP_SET) ==>
      pc + 1 + i.jumpTrue < |program| && pc + 1 + i.jumpFalse < |program|
  }

  /** Both targets of every jump are instructions of the program. */
  predicate JumpsInside(program: seq<Instruction>) {
    forall pc :: 0 <= pc < |program| ==> JumpInside(program, pc)
  }

  lemma {:induction false} DenyAllJumps(denied: seq<Word>, rest: seq<Instruction>)
    requires rest != [] && JumpsInside(rest)
    ensures JumpsInside(DenyAll(denied) + rest)
  {
    if denied == [] {
      assert DenyAll(denied) + rest == rest;
    } else {
      var tail := DenyAll(denied[1..]) + rest;
      DenyAllJumps(denied[1..], rest);
      PrependJumps(DenyOne(denied[0]), tail);
      assert DenyAll(denied) + rest == DenyOne(denied[0]) + tail;
    }
  }

  /** A block whose jumps reach at most the first instruction after it can be put in
      front of any non-empty well-formed program. */
  lemma PrependJumps(block: seq<Instruction>, rest: seq<Instruction>)
    requires rest != [] && JumpsInside(rest)
    requires forall pc :: 0 <= pc < |block| ==>
      pc + 1 + block[pc].jumpTrue <= |block| && pc + 1 + block[pc].jumpFalse <= |block|
    ensures JumpsInside(block + rest)
  {
    var p := block + rest;
    forall pc | 0 <= pc < |p| ensures JumpInside(p, pc) {
      if pc < |block| {
        assert p[pc] == block[pc];
      } else {
        assert p[pc] == rest[pc - |block|] && JumpInside(rest, pc - |block|);
      }
    }
  }

  lemma FilterJumpsInside(a: Architecture, denied: seq<Word>)
    ensures JumpsInside(Filter(a, denied))
  {
    PrependJumps(SocketRules(a), SocketPairRules(a));
    DenyAllJumps(denied, SocketRules(a) + SocketPairRules(a));
    PrependJumps(X32Guard(a), DenyAll(denied) + (SocketRules(a) + SocketPairRules(a)));
    PrependJumps(Prologue(a), X32Guard(a) + (DenyAll(denied) + (SocketRules(a) + SocketPairRules(a))));
  }

  /** The distances of every jump, from the instruction behind it, stay inside the program. */
  lemma EveryJumpInside(a: Architecture, denied: seq<Word>)
    ensures var f := Filter(a, denied); forall pc :: 0 <= pc < |f| && (f[pc].code == JUMP_EQUAL || f[pc].code == JUMP_SET) ==>
      pc + 1 + f[pc].jumpTrue < |f| && pc + 1 + f[pc].jumpFalse < |f|
  {
    hide Filter;
    FilterJumpsInside(a, denied);
    var f := Filter(a, denied);
    forall pc | 0 <= pc < |f| && (f[pc].code == JUMP_EQUAL || f[pc].code == JUMP_SET)
      ensures pc + 1 + f[pc].jumpTrue < |f| && pc + 1 + f[pc].jumpFalse < |f|
    {
      assert JumpInside(f, pc);
    }
  }
}
