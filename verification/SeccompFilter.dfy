/**
 The filter under construction and the code that grows it: a buffer of instructions and the count
 of those in use, extended rule by rule and handed over with a 16-bit length.
 */
module SeccompFilter {
  import opened Bpf
  import opened Wrappers
  import opened Bytes
  import opened SeccompRules
  import opened SeccompArgs
  import opened SeccompCompile
  import opened SeccompExpand
  import opened SeccompNames
  import opened Text

  const LEN_RANGE: nat := 0x1_0000

  /** One "name=value" word of unquoted configuration text; white space at the end of the value goes. */
  function PairOf(word: string): Directive {
    match GetToken(word, '=')
    case NoToken => Directive("", "")
    case Token(name, value) => Directive(name, StripTrailingWhitespace(value))
  }

  /** The directives that repeated GetNameValuePair calls deliver. */
  function Pairs(text: string): seq<Directive>
    decreases |text|
  {
    match NextWord(text)
    case NoToken => []
    case Token(word, rest) => [PairOf(word)] + Pairs(rest)
  }

  /** A rule text word by word: words end at blanks, tabs and line ends, and white space behind them is skipped. */
  lemma PairsOfWords(word: string, c: char, blanks: string, rest: string)
    requires Solid(word) && (c == ' ' || c == '\t' || c == '\n' || c == '\r')
    requires forall i :: 0 <= i < |blanks| ==> blanks[i] in " \t\n\r\U{000B}\U{000C}"
    requires rest == "" || rest[0] !in " \t\n\r\U{000B}\U{000C}"
    ensures Pairs(word + ([c] + (blanks + rest))) == [PairOf(word)] + Pairs(rest)
  {
    hide NextWord, PairOf, Solid;
    NextWordEnds(word, c, blanks, rest);
  }

  /** What stands in front of the first equals sign is the name, the rest the value, white space behind it gone. */
  lemma PairOfText(name: string, value: string, blanks: string)
    requires '=' !in name
    requires forall i :: 0 <= i < |blanks| ==> blanks[i] in " \t\n\r\U{000B}\U{000C}"
    requires value == "" || value[|value| - 1] !in " \t\n\r\U{000B}\U{000C}"
    ensures PairOf(name + ("=" + (value + blanks))) == Directive(name, value)
  {
    hide IndexOf, StripTrailingWhitespace;
    var word := name + ("=" + (value + blanks));
    IndexOfIsFirst(name, '=');
    IndexOfExtends(name, '=', "=" + (value + blanks));
    EqualsComesFirst(value + blanks);
    StripBlanks(value, blanks);
    assert word[..|name|] == name && word[|name| + 1..] == value + blanks;
  }

  lemma EqualsComesFirst(v: string)
    ensures IndexOf("=" + v, '=') == 0
  {
  }

  /** SysCallGetID answers -1 for the empty name. */
  type Kernel = p: Platform | "" !in p.nr witness Platform(0, map[])

  /** The blocks of the rules that a list of names stands for. */
  function NamesCode(p: Kernel, list: string, action: Action): seq<Instr> {
    CompileRules(ListRules(p, Tokens(list, ';'), action))
  }

  function NameCode(p: Kernel, token: string, action: Action): seq<Instr> {
    CompileRules(NameRules(p, token, action))
  }

  function DirectiveCode(p: Kernel, d: Directive): seq<Instr> {
    CompileRules(DirectiveRules(p, d))
  }

  /** The blocks of all the rules in a configuration text. */
  function TextCode(p: Kernel, text: string): seq<Instr> {
    CompileRules(RulesOf(p, Pairs(text)))
  }

  /** The program that a configuration text compiles to, and the part of it that its length field can name. */
  function FullProgram(p: Kernel, text: string): seq<Instr> {
    Program(p.arch, RulesOf(p, Pairs(text)))
  }

  function Handed(p: Kernel, text: string): seq<Instr> {
    var prog := FullProgram(p, text);
    prog[..|prog| % LEN_RANGE]
  }

  class Filter {
    const platform: Kernel
    var insns: seq<Instr>
    var InstructionCount: nat

    ghost predicate Valid()
      reads this
    {
      InstructionCount <= |insns|
    }

    ghost function Emitted(): seq<Instr>
      requires Valid()
      reads this
    {
      insns[..InstructionCount]
    }

    constructor (platform: Kernel)
      ensures Valid() && Emitted() == [] && this.platform == platform
    {
      this.platform := platform;
      insns, InstructionCount := [], 0;
    }

    method AddStmt(stmt: Instr) returns (count: nat)
      requires Valid()
      modifies this
      ensures Valid() && Emitted() == old(Emitted()) + [stmt] && count == InstructionCount
    {
      insns := insns[..InstructionCount] + [stmt];
      InstructionCount := InstructionCount + 1;
      count := InstructionCount;
    }

    method AddJump(op: Jump, arg: int, jumpEq: int, jumpNe: int) returns (count: nat)
      requires Valid()
      modifies this
      ensures Valid() && Emitted() == old(Emitted()) + [JumpIf(op, U32(arg), U8(jumpEq), U8(jumpNe))]
      ensures count == InstructionCount
    {
      count := AddStmt(JumpIf(op, U32(arg), U8(jumpEq), U8(jumpNe)));
    }

    method AddArchCheck()
      requires Valid()
      modifies this
      ensures Valid() && Emitted() == old(Emitted()) + EmitArchCheck(platform.arch)
    {
      var _ := AddStmt(Load(OFFSET_ARCH));
      var _ := AddJump(JEQ, platform.arch, 1, 0);
      var _ := AddStmt(Ret(RET_KILL));
    }

    static method CountJump(args: string) returns (jump: int)
      ensures jump == CalcJump(args)
    {
      jump := 1;
      var t := NextWord(args);
      ghost var ahead := args;
      while t.Token?
        invariant t == NextWord(ahead)
        invariant jump + 2 * |Words(ahead)| == CalcJump(args)
        decreases |ahead|
      {
        jump := jump + 2;
        ahead := t.rest;
        t := NextWord(t.rest);
      }
    }

    method AddArg(typ: ArgType, value: int, jump: int)
      requires Valid()
      modifies this
      ensures Valid() && Emitted() == old(Emitted()) + ArgJump(typ, value, jump)
    {
      match typ
      case BitSet => var _ := AddJump(JSET, value, 0, jump);
      case Less => var _ := AddJump(JLT, value, 0, jump);
      case Greater => var _ := AddJump(JGT, value, 0, jump);
      case Equal => var _ := AddJump(JEQ, value, 0, jump);
      case NotEqual => var _ := AddJump(JNE, value, 0, jump);
      case NotBit =>
      case BadType =>
    }

    method AddArgs(args: string, jump0: int)
      requires Valid()
      modifies this
      ensures Valid() && Emitted() == old(Emitted()) + EmitArgs(args, jump0)
    {
      hide GetArg, ArgJump, ArgOffset;
      var jump := jump0;
      var a := GetArg(args);
      ghost var ahead := args;
      while a.Arg?
        invariant Valid() && a == GetArg(ahead)
        invariant Emitted() + EmitArgs(ahead, jump) == old(Emitted()) + EmitArgs(args, jump0)
        decreases |ahead|
      {
        if !a.typ.BadType? {
          var _ := AddStmt(Load(ArgOffset(a.pos)));
          jump := jump - 2;
          AddArg(a.typ, a.value, jump);
        }
        ahead := a.rest;
        a := GetArg(a.rest);
      }
    }

    method AddSyscall(sysCall: int, args: string, action: word) returns (count: nat)
      requires Valid()
      modifies this
      ensures Valid() && Emitted() == old(Emitted()) + EmitSyscall(sysCall, args, action)
      ensures count == InstructionCount
    {
      hide EmitArgs, CalcJump;
      var jump := CountJump(args);
      var _ := AddStmt(Load(OFFSET_NR));
      var _ := AddJump(JEQ, sysCall, 0, jump);
      AddArgs(args, jump);
      count := AddStmt(Ret(PackErrno(action)));
    }

    /** Each name of a list becomes its rule's block, or nothing when the build does not know the call. */
    method AddSyscallNames(nameList: string, action: Action)
      requires Valid()
      modifies this
      ensures Valid()
      ensures Emitted() == old(Emitted()) + NamesCode(platform, nameList, action)
    {
      hide NamesCode, NameCode, GetToken;
      NoCode(platform, action);
      var t := GetToken(nameList, ';');
      ghost var ahead := nameList;
      while t.Token?
        invariant Valid() && t == GetToken(ahead, ';')
        invariant Emitted() + NamesCode(platform, ahead, action)
               == old(Emitted()) + NamesCode(platform, nameList, action)
        decreases |ahead|
      {
        ListStep(platform, ahead, action);
        AddName(t.text, action);
        ahead := t.rest;
        t := GetToken(t.rest, ';');
      }
    }

    method AddName(token: string, action: Action)
      requires Valid()
      modifies this
      ensures Valid()
      ensures Emitted() == old(Emitted()) + NameCode(platform, token, action)
    {
      hide NameCode, EmitSyscall, ParseChecks, ArgsText;
      UnknownName(platform, token, action);
      var id := SysCallGetID(platform, BaseName(token));
      var checks := ParseChecks(platform, token);
      if id > -1 {
        var _ := AddSyscall(id, ArgsText(checks), ActionCode(action));
        NameEmits(platform, token, action);
      }
    }

    method AddSyscallGroup(nameList: string, action: Action)
      requires Valid()
      modifies this
      ensures Valid()
      ensures Emitted() == old(Emitted()) + NamesCode(platform, Expand(nameList), action)
    {
      hide NamesCode, NameCode, GetToken, Expand;
      NoCode(platform, action);
      var expanded := Expand(nameList);
      var t := GetToken(expanded, ';');
      ghost var ahead := expanded;
      while t.Token?
        invariant Valid() && t == GetToken(ahead, ';')
        invariant Emitted() + NamesCode(platform, ahead, action)
               == old(Emitted()) + NamesCode(platform, expanded, action)
        decreases |ahead|
      {
        ListStep(platform, ahead, action);
        OneName(platform, ahead, action);
        AddSyscallNames(t.text, action);
        ahead := t.rest;
        t := GetToken(t.rest, ';');
      }
    }

    /** SeccompFilterSetup, on a text in which the tokenizer finds nothing to unquote. */
    method Setup(setup: string)
      requires Valid() && Unquoted(setup)
      modifies this
      ensures Valid()
      ensures Emitted() == old(Emitted()) + EmitArchCheck(platform.arch) + TextCode(platform, setup)
    {
      hide TextCode, DirectiveCode, NamesCode, Expand, NextWord, PairOf, EmitArchCheck;
      AddArchCheck();
      NoText(platform);
      var t := NextWord(setup);
      ghost var ahead := setup;
      while t.Token?
        invariant Valid() && t == NextWord(ahead)
        invariant Emitted() + TextCode(platform, ahead)
               == old(Emitted()) + EmitArchCheck(platform.arch) + TextCode(platform, setup)
        decreases |ahead|
      {
        var d := PairOf(t.text);
        SetupStep(platform, ahead);
        DirectiveCodeIs(platform, d);
        if d.name == "syscall_kill" {
          AddSyscallGroup(d.value, Kill);
        } else if d.name == "syscall_allow" {
          AddSyscallGroup(d.value, Allow);
        } else if d.name == "syscall_deny" {
          AddSyscallGroup(d.value, Deny);
        } else if d.name == "syscall_log" {
          AddSyscallGroup(d.value, Log);
        }
        ahead := t.rest;
        t := NextWord(t.rest);
      }
    }

    /**
     The closing return; the kernel is given the buffer and the count cut to 16 bits, and the count restarts. The
     kernel takes a program that its check accepts, if nothing else keeps it from doing so.
     */
    method Commit(action: word, willing: bool) returns (ok: bool, handed: seq<Instr>)
      requires Valid()
      modifies this
      ensures Valid() && Emitted() == []
      ensures var full := old(Emitted()) + [Ret(action)]; handed == full[..|full| % LEN_RANGE]
      ensures ok == (willing && KernelTakes(handed))
    {
      var count := AddStmt(Ret(action));
      handed := insns[..count % LEN_RANGE];
      InstructionCount := 0;
      ok := willing && KernelTakes(handed);
    }

    /** SeccompAddRules: what is installed is the whole program, and it is whenever the program is short enough. */
    method AddRules(ruleList: string, willing: bool) returns (ok: bool, handed: seq<Instr>)
      requires Valid() && Emitted() == [] && Unquoted(ruleList)
      modifies this
      ensures Valid() && Emitted() == []
      ensures handed == Handed(platform, ruleList)
      ensures ok == (willing && |FullProgram(platform, ruleList)| <= 4096)
      ensures ok ==> handed == FullProgram(platform, ruleList)
    {
      hide Program, RulesOf, TextCode, KernelTakes;
      Setup(ruleList);
      TextProgram(platform, ruleList);
      TakenIff(platform, ruleList);
      ok, handed := Commit(RET_ALLOW, willing);
    }
  }

  lemma NameEmits(p: Kernel, token: string, action: Action)
    requires SysCallGetID(p, BaseName(token)) > -1
    ensures EmitSyscall(SysCallGetID(p, BaseName(token)), ArgsText(ParseChecks(p, token)), ActionCode(action))
         == NameCode(p, token, action)
  {
    hide EmitSyscall, CompileRule, ParseChecks;
    var r := Rule(SysCallGetID(p, BaseName(token)), ParseChecks(p, token), action);
    ParsedChecks(p, token);
    EmitSyscallIsCompileRule(r);
    assert [r][1..] == [];
    assert CompileRules([r]) == CompileRule(r) + CompileRules([]);
  }

  lemma UnknownName(p: Kernel, token: string, action: Action)
    ensures SysCallGetID(p, BaseName(token)) <= -1 ==> NameCode(p, token, action) == []
  {
  }

  lemma NoCode(p: Kernel, action: Action)
    ensures NamesCode(p, "", action) == []
    ensures forall s :: GetToken(s, ';').NoToken? ==> s == ""
  {
  }

  lemma NoText(p: Kernel)
    ensures TextCode(p, "") == []
    ensures forall s :: NextWord(s).NoToken? ==> s == ""
  {
  }

  lemma ListStep(p: Kernel, list: string, action: Action)
    requires GetToken(list, ';').Token?
    ensures var t := GetToken(list, ';');
            NamesCode(p, list, action) == NameCode(p, t.text, action) + NamesCode(p, t.rest, action)
  {
    hide CompileRules, NameRules;
    var t := GetToken(list, ';');
    CompileRulesConcat(NameRules(p, t.text, action), ListRules(p, Tokens(t.rest, ';'), action));
  }

  lemma OneRule(p: Kernel, t: string, action: Action)
    ensures ListRules(p, [t], action) == NameRules(p, t, action)
  {
    assert [t][1..] == [];
    assert ListRules(p, [], action) == [];
  }

  /** A token of a list is a list of one name, or of none when it is empty. */
  lemma OneName(p: Kernel, list: string, action: Action)
    requires GetToken(list, ';').Token?
    ensures var t := GetToken(list, ';');
            NamesCode(p, t.text, action) == NameCode(p, t.text, action)
  {
    hide NameRules, CompileRules;
    var t := GetToken(list, ';');
    IndexOfIsFirst(list, ';');
    if t.text == "" {
      NoRuleForEmpty(p, action);
    } else {
      TokensOfOne(t.text, ';');
      OneRule(p, t.text, action);
    }
  }

  lemma SetupStep(p: Kernel, text: string)
    requires NextWord(text).Token?
    ensures var t := NextWord(text);
            TextCode(p, text) == DirectiveCode(p, PairOf(t.text)) + TextCode(p, t.rest)
  {
    hide CompileRules, DirectiveRules, PairOf;
    var t := NextWord(text);
    CompileRulesConcat(DirectiveRules(p, PairOf(t.text)), RulesOf(p, Pairs(t.rest)));
  }

  lemma TextProgram(p: Kernel, text: string)
    ensures FullProgram(p, text) == EmitArchCheck(p.arch) + TextCode(p, text) + [Ret(RET_ALLOW)]
  {
  }

  lemma DirectiveCodeIs(p: Kernel, d: Directive)
    ensures DirectiveCode(p, d) == if d.name == "syscall_kill" then NamesCode(p, Expand(d.value), Kill)
                                   else if d.name == "syscall_allow" then NamesCode(p, Expand(d.value), Allow)
                                   else if d.name == "syscall_deny" then NamesCode(p, Expand(d.value), Deny)
                                   else if d.name == "syscall_log" then NamesCode(p, Expand(d.value), Log)
                                   else []
  {
    assert CompileRules([]) == [];
  }

  // ---------------------------------------------------------------- main results

  /** The whole program is handed over exactly when its length fits the 16-bit length field. */
  lemma HandedWhole(p: Kernel, text: string)
    ensures Handed(p, text) == FullProgram(p, text) <==> |FullProgram(p, text)| < 65536
  {
    hide FullProgram;
  }

  /** The kernel never takes a program that the length field cut short, and takes every whole one up to its limit. */
  lemma TakenIff(p: Kernel, text: string)
    ensures KernelTakes(Handed(p, text)) <==> |FullProgram(p, text)| <= 4096
    ensures KernelTakes(Handed(p, text)) ==> Handed(p, text) == FullProgram(p, text)
  {
    hide RulesOf, Program, Compilable, KernelTakes;
    var rules := RulesOf(p, Pairs(text));
    RulesOfParsed(p, Pairs(text));
    ParsedIsCompilable(rules);
    ProgramTaken(p.arch, rules);
    HandedWhole(p, text);
    var n := |FullProgram(p, text)|;
    if n >= LEN_RANGE {
      CutRefused(p.arch, rules, n % LEN_RANGE);
    }
  }

  /**
   For every kernel and every configuration text without quotes, and for every system call: a filter that the
   kernel takes halts inside its own code and returns what the rules of the text decide.
   */
  lemma InstalledDecides(p: Kernel, text: string, d: syscall, acc: word)
    requires Unquoted(text) && KernelTakes(Handed(p, text))
    ensures WellFormed(RulesOf(p, Pairs(text)))
    ensures Run(Handed(p, text), d, 0, acc) == Some(Decide(p.arch, RulesOf(p, Pairs(text)), d))
  {
    hide RulesOf, Program, Run, Decide, KernelTakes, Handed;
    var rules := RulesOf(p, Pairs(text));
    RulesOfParsed(p, Pairs(text));
    ParsedIsCompilable(rules);
    ProgramCorrect(p.arch, rules, d, acc);
    TakenIff(p, text);
  }

  /** Four instructions frame the blocks, of three and two a check each. */
  lemma InstalledLength(p: Kernel, text: string)
    ensures |FullProgram(p, text)| == 4 + TotalLength(RulesOf(p, Pairs(text)))
  {
    ProgramLength(p.arch, RulesOf(p, Pairs(text)));
  }
}
