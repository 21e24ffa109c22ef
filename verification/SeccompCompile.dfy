/**
 From rules to classic BPF: the instructions that each step of the emitter adds, stated on rule
 texts as the source works on them and on rules as they are meant, and the proof that the
 program which results decides every system call as the rule list does.
 */
module SeccompCompile {
  import opened Bpf
  import opened Wrappers
  import opened Bytes
  import opened SeccompRules
  import opened SeccompArgs

  const OFFSET_NR: word := 0
  const OFFSET_ARCH: word := 4

  /** offsetof(struct seccomp_data, args[pos]), stored as a 32-bit offset. */
  function ArgOffset(pos: int): word { U32(16 + 8 * pos) }

  /** An errno return carries EPERM. */
  function PackErrno(code: word): word {
    if code == RET_ERRNO then U32(code + EPERM) else code
  }

  /** Distance from a rule's number test to the rule's end: its return and two instructions a check. */
  function CalcJump(args: string): int { 1 + 2 * |Words(args)| }

  /** The comparison for one argument; the "not" form is parsed but has none. */
  function ArgJump(typ: ArgType, value: int, jump: int): seq<Instr> {
    match typ
    case BitSet => [JumpIf(JSET, U32(value), 0, U8(jump))]
    case Less => [JumpIf(JLT, U32(value), 0, U8(jump))]
    case Greater => [JumpIf(JGT, U32(value), 0, U8(jump))]
    case Equal => [JumpIf(JEQ, U32(value), 0, U8(jump))]
    case NotEqual => [JumpIf(JNE, U32(value), 0, U8(jump))]
    case NotBit => []
    case BadType => []
  }

  /** What the argument loop emits from a text on, with the jump distance counting down. */
  function EmitArgs(args: string, jump: int): seq<Instr>
    decreases |args|
  {
    match GetArg(args)
    case NoArg => []
    case Arg(pos, typ, value, rest) =>
      if typ.BadType? then EmitArgs(rest, jump)
      else [Load(ArgOffset(pos))] + ArgJump(typ, value, jump - 2) + EmitArgs(rest, jump - 2)
  }

  function EmitSyscall(nr: int, args: string, code: word): seq<Instr> {
    [Load(OFFSET_NR), JumpIf(JEQ, U32(nr), 0, U8(CalcJump(args)))]
    + EmitArgs(args, CalcJump(args))
    + [Ret(PackErrno(code))]
  }

  function EmitArchCheck(arch: word): seq<Instr> {
    [Load(OFFSET_ARCH), JumpIf(JEQ, arch, 1, 0), Ret(RET_KILL)]
  }

  // ---------------------------------------------------------------- the same on rules

  function CheckJump(c: Check, jf: byte): Instr {
    match c
    case Bit(_, mask) => JumpIf(JSET, U32(mask), 0, jf)
    case Eq(_, value) => JumpIf(JEQ, U32(value), 0, jf)
  }

  /** Two instructions a check; a check that fails skips the checks behind it and the return. */
  function CompileChecks(cs: seq<Check>): (code: seq<Instr>)
    ensures |code| == 2 * |cs|
  {
    if cs == [] then []
    else [Load(ArgOffset(cs[0].pos)), CheckJump(cs[0], U8(2 * |cs| - 1))] + CompileChecks(cs[1..])
  }

  function CompileRule(r: Rule): (code: seq<Instr>)
    ensures |code| == 3 + 2 * |r.checks|
  {
    [Load(OFFSET_NR), JumpIf(JEQ, U32(r.nr), 0, U8(1 + 2 * |r.checks|))]
    + CompileChecks(r.checks)
    + [Ret(Verdict(r.action))]
  }

  function CompileRules(rules: seq<Rule>): seq<Instr> {
    if rules == [] then [] else CompileRule(rules[0]) + CompileRules(rules[1..])
  }

  function Program(arch: word, rules: seq<Rule>): seq<Instr> {
    EmitArchCheck(arch) + CompileRules(rules) + [Ret(RET_ALLOW)]
  }

  /** One turn of the argument loop, on the text of a check. */
  lemma EmitArgsStep(c: Check, tail: string, jump: int)
    requires Printable(c) && tail != "" && tail[0] == ' '
    ensures EmitArgs(CheckText(c) + tail, jump)
         == [Load(ArgOffset(c.pos)), CheckJump(c, U8(jump - 2))] + EmitArgs(tail, jump - 2)
  {
    hide CheckText, GetArg;
    GetArgOfCheck(c, tail);
  }

  lemma EmitArgsSkipsBlank(s: string, jump: int)
    ensures EmitArgs(" " + s, jump) == EmitArgs(s, jump)
  {
    hide GetArg;
    GetArgSkipsBlank(s);
  }

  lemma {:induction false} EmitArgsIsCompileChecks(cs: seq<Check>)
    requires AllPrintable(cs)
    ensures EmitArgs(ArgsText(cs), 1 + 2 * |cs|) == CompileChecks(cs)
  {
    hide EmitArgs, CheckText, CheckJump;
    if cs == [] {
      EmitArgsOfNothing();
    } else {
      EmitArgsIsCompileChecks(cs[1..]);
      EmitArgsSkipsBlank(ArgsText(cs[1..]), 1 + 2 * |cs[1..]|);
      EmitArgsStep(cs[0], " " + ArgsText(cs[1..]), 1 + 2 * |cs|);
    }
  }

  lemma EmitArgsOfNothing()
    ensures forall jump: int :: EmitArgs("", jump) == []
  {
  }

  /** Through the text and back, a rule is emitted as it is meant: the words counted are the checks read. */
  lemma EmitSyscallIsCompileRule(r: Rule)
    requires AllPrintable(r.checks)
    ensures EmitSyscall(r.nr, ArgsText(r.checks), ActionCode(r.action)) == CompileRule(r)
  {
    hide EmitArgs, ArgsText, Words, CompileChecks;
    WordsOfArgs(r.checks);
    EmitArgsIsCompileChecks(r.checks);
  }

  lemma {:induction false} CompileRulesConcat(r1: seq<Rule>, r2: seq<Rule>)
    ensures CompileRules(r1 + r2) == CompileRules(r1) + CompileRules(r2)
  {
    hide CompileRule, CompileRules;
    if r1 == [] {
      assert r1 + r2 == r2;
      NoRules();
      assert [] + CompileRules(r2) == CompileRules(r2);
    } else {
      CompileRulesConcat(r1[1..], r2);
      assert (r1 + r2)[1..] == r1[1..] + r2;
      FirstRule(r1);
      FirstRule(r1 + r2);
    }
  }

  lemma NoRules()
    ensures CompileRules([]) == []
  {
  }

  lemma FirstRule(rules: seq<Rule>)
    requires rules != []
    ensures CompileRules(rules) == CompileRule(rules[0]) + CompileRules(rules[1..])
  {
    hide CompileRule;
  }

  function TotalLength(rules: seq<Rule>): nat {
    if rules == [] then 0 else 3 + 2 * |rules[0].checks| + TotalLength(rules[1..])
  }

  lemma {:induction false} ProgramLength(arch: word, rules: seq<Rule>)
    ensures |Program(arch, rules)| == 4 + TotalLength(rules)
    ensures |CompileRules(rules)| == TotalLength(rules)
  {
    if rules != [] {
      ProgramLength(arch, rules[1..]);
    }
  }

  // ---------------------------------------------------------------- correctness

  /** Every forward distance of such a rule fits the eight bits it is stored in. */
  const MAX_CHECKS: nat := 127

  predicate Compilable(rules: seq<Rule>) {
    WellFormed(rules) && forall i :: 0 <= i < |rules| ==> |rules[i].checks| <= MAX_CHECKS
  }

  predicate CodeAt(prog: seq<Instr>, at: nat, code: seq<Instr>) {
    at + |code| <= |prog| && prog[at..at + |code|] == code
  }

  lemma CodeAtSplit(prog: seq<Instr>, at: nat, c1: seq<Instr>, c2: seq<Instr>)
    requires CodeAt(prog, at, c1 + c2)
    ensures CodeAt(prog, at, c1) && CodeAt(prog, at + |c1|, c2)
  {
    var n := |c1 + c2|;
    assert prog[at..at + n][..|c1|] == prog[at..at + |c1|];
    assert prog[at..at + n][|c1|..] == prog[at + |c1|..at + n];
  }

  lemma CodeAtElement(prog: seq<Instr>, at: nat, code: seq<Instr>, i: nat)
    requires CodeAt(prog, at, code) && i < |code|
    ensures prog[at + i] == code[i]
  {
    assert prog[at..at + |code|][i] == prog[at + i];
  }

  /** What a run yields when, wherever the accumulator stands, going on at pc yields v. */
  ghost predicate Yields(prog: seq<Instr>, d: syscall, pc: nat, v: Option<word>) {
    forall a: word :: Run(prog, d, pc, a) == v
  }

  lemma RunCheck(prog: seq<Instr>, d: syscall, at: nat, c: Check, jf: byte, a: word)
    requires c.pos < 6
    requires at + 2 <= |prog| && prog[at] == Load(ArgOffset(c.pos)) && prog[at + 1] == CheckJump(c, jf)
    ensures Run(prog, d, at, a) == Run(prog, d, at + 2 + (if CheckHolds(c, d) then 0 else jf), Low(d.args[c.pos]))
  {
    var w: word := Low(d.args[c.pos]);
    assert LoadWord(d, ArgOffset(c.pos)) == Some(w);
    assert Run(prog, d, at, a) == Run(prog, d, at + 1, w);
    assert Run(prog, d, at + 1, w) == Run(prog, d, at + 2 + (if CheckHolds(c, d) then 0 else jf), w);
  }

  lemma {:induction false} RunChecks(prog: seq<Instr>, d: syscall, at: nat, cs: seq<Check>,
                                     hit: Option<word>, miss: Option<word>)
    requires WellFormedChecks(cs) && |cs| <= MAX_CHECKS
    requires CodeAt(prog, at, CompileChecks(cs))
    requires Yields(prog, d, at + 2 * |cs|, hit) && Yields(prog, d, at + 2 * |cs| + 1, miss)
    ensures Yields(prog, d, at, if ChecksHold(cs, d) then hit else miss)
    decreases |cs|
  {
    hide Run, CheckHolds, ArgOffset, CheckJump;
    if cs != [] {
      var jf: byte := 2 * |cs| - 1;
      CodeAtElement(prog, at, CompileChecks(cs), 0);
      CodeAtElement(prog, at, CompileChecks(cs), 1);
      CodeAtSplit(prog, at, CompileChecks(cs)[..2], CompileChecks(cs[1..]));
      RunChecks(prog, d, at + 2, cs[1..], hit, miss);
      assert ChecksHold(cs, d) <==> CheckHolds(cs[0], d) && ChecksHold(cs[1..], d);
      forall a: word
        ensures Run(prog, d, at, a) == if ChecksHold(cs, d) then hit else miss
      {
        RunCheck(prog, d, at, cs[0], jf, a);
      }
    }
  }

  lemma RuleParts(prog: seq<Instr>, at: nat, r: Rule)
    requires |r.checks| <= MAX_CHECKS && CodeAt(prog, at, CompileRule(r))
    ensures |CompileRule(r)| == 3 + 2 * |r.checks| && at + |CompileRule(r)| <= |prog|
    ensures prog[at] == Load(OFFSET_NR) && prog[at + 1] == JumpIf(JEQ, U32(r.nr), 0, 1 + 2 * |r.checks|)
    ensures CodeAt(prog, at + 2, CompileChecks(r.checks))
    ensures prog[at + 2 + 2 * |r.checks|] == Ret(Verdict(r.action))
  {
    hide CompileChecks, Verdict;
    var code, n := CompileRule(r), 2 * |r.checks|;
    CodeAtElement(prog, at, code, 0);
    CodeAtElement(prog, at, code, 1);
    CodeAtElement(prog, at, code, n + 2);
    assert code == [Load(OFFSET_NR), JumpIf(JEQ, U32(r.nr), 0, U8(1 + n))]
                   + (CompileChecks(r.checks) + [Ret(Verdict(r.action))]);
    hide CodeAt;
    CodeAtSplit(prog, at, [Load(OFFSET_NR), JumpIf(JEQ, U32(r.nr), 0, U8(1 + n))],
                CompileChecks(r.checks) + [Ret(Verdict(r.action))]);
    CodeAtSplit(prog, at + 2, CompileChecks(r.checks), [Ret(Verdict(r.action))]);
  }

  lemma RunsReturn(prog: seq<Instr>, d: syscall, at: nat, v: word)
    requires at < |prog| && prog[at] == Ret(v)
    ensures Yields(prog, d, at, Some(v))
  {
  }

  /** A block that matches returns its verdict; one that does not ends exactly where the next block starts. */
  lemma RunRule(prog: seq<Instr>, d: syscall, at: nat, r: Rule, next: Option<word>)
    requires WellFormedChecks(r.checks) && |r.checks| <= MAX_CHECKS
    requires CodeAt(prog, at, CompileRule(r))
    requires Yields(prog, d, at + |CompileRule(r)|, next)
    ensures Yields(prog, d, at, if Matches(r, d) then Some(Verdict(r.action)) else next)
  {
    var n := 2 * |r.checks|;
    RuleParts(prog, at, r);
    RunsReturn(prog, d, at + 2 + n, Verdict(r.action));
    hide CodeAt, Verdict, CompileChecks, CompileRule, Run, Yields, ChecksHold;
    RunChecks(prog, d, at + 2, r.checks, Some(Verdict(r.action)), next);
    RunNumberTest(prog, d, at, r.nr, n + 1,
                  if ChecksHold(r.checks, d) then Some(Verdict(r.action)) else next, next);
  }

  lemma RunNumberTest(prog: seq<Instr>, d: syscall, at: nat, nr: int, jf: byte, same: Option<word>, other: Option<word>)
    requires at + 2 <= |prog| && prog[at] == Load(OFFSET_NR) && prog[at + 1] == JumpIf(JEQ, U32(nr), 0, jf)
    requires Yields(prog, d, at + 2, same) && Yields(prog, d, at + 2 + jf, other)
    ensures Yields(prog, d, at, if d.nr == U32(nr) then same else other)
  {
    forall a: word
      ensures Run(prog, d, at, a) == if d.nr == U32(nr) then same else other
    {
      assert Run(prog, d, at, a) == Run(prog, d, at + 1, d.nr);
      assert Run(prog, d, at + 1, d.nr) == Run(prog, d, at + 2 + (if d.nr == U32(nr) then 0 else jf), d.nr);
    }
  }

  lemma {:induction false} RunRules(prog: seq<Instr>, d: syscall, at: nat, rules: seq<Rule>)
    requires Compilable(rules)
    requires CodeAt(prog, at, CompileRules(rules) + [Ret(RET_ALLOW)])
    ensures Yields(prog, d, at, Some(Verdict(FirstMatch(rules, d))))
    decreases |rules|
  {
    if rules == [] {
      CodeAtElement(prog, at, CompileRules(rules) + [Ret(RET_ALLOW)], 0);
    } else {
      var block := CompileRule(rules[0]);
      var rest := CompileRules(rules[1..]) + [Ret(RET_ALLOW)];
      FirstRule(rules);
      hide Run, CompileRule, CompileRules, CodeAt, Yields, Verdict, Matches;
      assert CompileRules(rules) + [Ret(RET_ALLOW)] == block + rest;
      CodeAtSplit(prog, at, block, rest);
      RunRules(prog, d, at + |block|, rules[1..]);
      RunRule(prog, d, at, rules[0], Some(Verdict(FirstMatch(rules[1..], d))));
    }
  }

  /**
   Compiler correctness: for every rule list and every system call the program halts inside its own
   code and returns what the rule list decides.
   */
  lemma ProgramCorrect(arch: word, rules: seq<Rule>, d: syscall, acc: word)
    requires Compilable(rules)
    ensures Run(Program(arch, rules), d, 0, acc) == Some(Decide(arch, rules, d))
  {
    var prog, code := Program(arch, rules), CompileRules(rules) + [Ret(RET_ALLOW)];
    assert prog == EmitArchCheck(arch) + code;
    assert CodeAt(prog, 0, EmitArchCheck(arch) + code);
    CodeAtSplit(prog, 0, EmitArchCheck(arch), code);
    RunRules(prog, d, 3, rules);
    hide Run, CompileRules, FirstMatch, Verdict, Program, Compilable;
    RunArchCheck(prog, arch, d, acc);
    KilledIs();
  }

  lemma KilledIs()
    ensures Verdict(Kill) == RET_KILL
  {
  }

  /** The architecture test goes on behind itself or kills. */
  lemma RunArchCheck(prog: seq<Instr>, arch: word, d: syscall, acc: word)
    requires CodeAt(prog, 0, EmitArchCheck(arch))
    ensures Run(prog, d, 0, acc) == if d.arch == arch then Run(prog, d, 3, d.arch) else Some(RET_KILL)
  {
    hide AnyBit;
    CodeAtElement(prog, 0, EmitArchCheck(arch), 0);
    CodeAtElement(prog, 0, EmitArchCheck(arch), 1);
    CodeAtElement(prog, 0, EmitArchCheck(arch), 2);
    assert Run(prog, d, 0, acc) == Run(prog, d, 1, d.arch);
    assert Run(prog, d, 1, d.arch) == Run(prog, d, if d.arch == arch then 3 else 2, d.arch);
  }

  // ---------------------------------------------------------------- what the kernel takes

  /** BPF_MAXINSNS */
  const MAX_INSNS: nat := 4096

  /** Loads stay inside the record, jumps inside the program, and every instruction is classic BPF. */
  predicate Accepted(prog: seq<Instr>, i: nat)
    requires i < |prog|
  {
    match prog[i]
    case Load(offset) => offset % 4 == 0 && offset < 64
    case JumpIf(op, _, jt, jf) => op != JLT && op != JNE && i + 1 + jt < |prog| && i + 1 + jf < |prog|
    case Ret(_) => true
  }

  /** The kernel's check of a classic BPF program for seccomp. */
  predicate KernelTakes(prog: seq<Instr>) {
    && 0 < |prog| <= MAX_INSNS
    && prog[|prog| - 1].Ret?
    && forall i :: 0 <= i < |prog| ==> Accepted(prog, i)
  }

  /** Inside a block only its last instruction returns, and the rest of it never jumps further than just behind it. */
  lemma {:induction false} ChecksShape(cs: seq<Check>, i: nat)
    requires WellFormedChecks(cs) && |cs| <= MAX_CHECKS && i < 2 * |cs|
    ensures !CompileChecks(cs)[i].Ret? && AcceptedWithin(CompileChecks(cs)[i], i, 2 * |cs| + 2)
  {
    if i >= 2 {
      ChecksShape(cs[1..], i - 2);
    }
  }

  /** Accepted at place i of any program that is longer than n. */
  predicate AcceptedWithin(ins: Instr, i: nat, n: nat) {
    match ins
    case Load(offset) => offset % 4 == 0 && offset < 64
    case JumpIf(op, _, jt, jf) => op != JLT && op != JNE && i + 1 + jt < n && i + 1 + jf < n
    case Ret(_) => true
  }

  lemma RuleShape(r: Rule, i: nat)
    requires WellFormedChecks(r.checks) && |r.checks| <= MAX_CHECKS && i < |CompileRule(r)|
    ensures CompileRule(r)[i].Ret? <==> i == |CompileRule(r)| - 1
    ensures AcceptedWithin(CompileRule(r)[i], i, |CompileRule(r)| + 1)
    ensures CompileRule(r)[1] == JumpIf(JEQ, U32(r.nr), 0, |CompileRule(r)| - 2)
  {
    if 2 <= i < 2 + 2 * |r.checks| {
      ChecksShape(r.checks, i - 2);
    }
    hide CompileChecks;
  }

  /** The blocks and the closing return are accepted one and all. */
  lemma {:induction false} RulesShape(rules: seq<Rule>, i: nat)
    requires Compilable(rules) && i < |CompileRules(rules)| + 1
    ensures AcceptedWithin((CompileRules(rules) + [Ret(RET_ALLOW)])[i], i, |CompileRules(rules)| + 1)
    decreases |rules|
  {
    hide CompileRule;
    if rules != [] {
      var block := CompileRule(rules[0]);
      if i < |block| {
        RuleShape(rules[0], i);
      } else {
        RulesShape(rules[1..], i - |block|);
        assert (CompileRules(rules) + [Ret(RET_ALLOW)])[i]
          == (CompileRules(rules[1..]) + [Ret(RET_ALLOW)])[i - |block|];
      }
    }
  }

  /** Some instruction in front of n keeps a program from ending there: a jump leads out, or nothing returns. */
  predicate CutShows(code: seq<Instr>, n: nat)
    requires 0 < n <= |code|
  {
    || !code[n - 1].Ret?
    || exists i :: 0 <= i < n && code[i].JumpIf? && i + 1 + code[i].jf >= n
  }

  lemma {:induction false} CutRules(rules: seq<Rule>, n: nat)
    requires Compilable(rules) && 0 < n <= |CompileRules(rules)|
    ensures CutShows(CompileRules(rules), n)
    decreases |rules|
  {
    hide CompileRule;
    var code, block, rest := CompileRules(rules), CompileRule(rules[0]), CompileRules(rules[1..]);
    RuleShape(rules[0], if n < |block| then n - 1 else 0);
    if n == |block| {
      assert code[1].JumpIf? && 1 + 1 + code[1].jf >= n;
    } else if n > |block| {
      CutRules(rules[1..], n - |block|);
      if rest[n - |block| - 1].Ret? {
        var i :| 0 <= i < n - |block| && rest[i].JumpIf? && i + 1 + rest[i].jf >= n - |block|;
        assert code[|block| + i] == rest[i];
      }
    }
  }

  lemma ProgramTaken(arch: word, rules: seq<Rule>)
    requires Compilable(rules)
    ensures KernelTakes(Program(arch, rules)) <==> |Program(arch, rules)| <= 4096
  {
    hide CompileRules, Compilable;
    var prog, tail := Program(arch, rules), CompileRules(rules) + [Ret(RET_ALLOW)];
    assert prog == EmitArchCheck(arch) + tail;
    forall i | 0 <= i < |prog|
      ensures Accepted(prog, i)
    {
      if i >= 3 {
        RulesShape(rules, i - 3);
        assert prog[i] == tail[i - 3];
      }
    }
  }

  /** A program that is cut short is refused: it ends without a return, or a jump leads behind its end. */
  lemma CutRefused(arch: word, rules: seq<Rule>, n: nat)
    requires Compilable(rules) && n < |Program(arch, rules)|
    ensures !KernelTakes(Program(arch, rules)[..n])
  {
    hide CompileRules, Compilable;
    var cut, code := Program(arch, rules)[..n], CompileRules(rules);
    if n > 3 {
      CutRules(rules, n - 3);
      assert forall i :: 0 <= i < n - 3 ==> cut[i + 3] == code[i];
      if code[n - 4].Ret? {
        var i :| 0 <= i < n - 3 && code[i].JumpIf? && i + 1 + code[i].jf >= n - 3;
        assert !Accepted(cut, i + 3);
      }
    } else if n == 3 {
      assert cut[1] == JumpIf(JEQ, arch, 1, 0);
      assert !Accepted(cut, 1);
    }
  }
}
