/**
 From the names in a directive to rules: a system-call name, and in parentheses up to two arguments
 that become argument checks.
 */
module SeccompNames {
  import opened Bpf
  import opened Bytes
  import opened SeccompRules
  import opened SeccompArgs
  import opened SeccompCompile
  import opened SeccompExpand
  import opened SeccompGroups
  import opened Text

  /** What the build knows about its kernel: the audit architecture and the numbers of the calls it has. */
  datatype Platform = Platform(arch: word, nr: map<string, nat>)

  const AF_UNIX := 1
  const AF_INET := 2
  const AF_INET6 := 10
  const AF_PACKET := 17
  const AF_BLUETOOTH := 31
  const PROT_EXEC := 4
  const MODE_EXEC := 73      // S_IXUSR | S_IXGRP | S_IXOTH
  const MODE_SUID := 3072    // S_ISUID | S_ISGID
  const O_CREAT := 64
  const O_WRITING := 1091    // O_CREAT | O_WRONLY | O_RDWR | O_APPEND
  const TCGETS := 0x5401
  const TCSETS := 0x5402

  /** SysCallGetID: the number of a known call, or -1. */
  function SysCallGetID(p: Platform, name: string): int {
    if name in p.nr then p.nr[name] else -1
  }

  function SocketCallGetID(name: string): int {
    if name == "socket" then 1
    else if name == "socketpair" then 8
    else if name == "connect" then 3
    else if name == "bind" then 2
    else if name == "listen" then 4
    else if name == "accept" then 5
    else if name == "accept4" then 18
    else -1
  }

  function LookupSocketFamily(name: string): int {
    if EqNoCase(name, "unix") then AF_UNIX
    else if EqNoCase(name, "ip") then AF_INET
    else if EqNoCase(name, "ip6") then AF_INET6
    else if EqNoCase(name, "bt") then AF_BLUETOOTH
    else if EqNoCase(name, "packet") then AF_PACKET
    else -1
  }

  /** case __NR_name: a label that exists only where the kernel has the call. */
  predicate IsCall(p: Platform, id: int, name: string) {
    name in p.nr && p.nr[name] == id
  }

  function When(b: bool, c: Check): seq<Check> {
    if b then [c] else []
  }

  /** Mode checks of the chmod family, creat and open. */
  function ModeChecks(name: string, pos: nat): seq<Check> {
    When(EqNoCase(name, "exec"), Bit(pos, MODE_EXEC)) + When(EqNoCase(name, "suid"), Bit(pos, MODE_SUID))
  }

  function OpenChecks(name: string, flags: nat, mode: nat): seq<Check> {
    When(EqNoCase(name, "create"), Bit(flags, O_CREAT))
    + When(EqNoCase(name, "write"), Bit(flags, O_WRITING))
    + When(EqNoCase(name, "suid"), Bit(mode, MODE_SUID))
    + When(EqNoCase(name, "exec"), Bit(flags, O_CREAT))
    + When(EqNoCase(name, "exec"), Bit(mode, MODE_EXEC))
  }

  /** The checks that SeccompParseArg0 adds for the first parenthesised argument. */
  function ParseArg0(p: Platform, id: int, name: string): seq<Check>
    requires name != ""
  {
    if IsDigit(name[0]) then [Eq(0, Strtol(name).value)]
    else if IsCall(p, id, "socketcall") then [Eq(0, SocketCallGetID(name))]
    else if IsCall(p, id, "socket") || IsCall(p, id, "socketpair") then [Eq(0, LookupSocketFamily(name))]
    else if IsCall(p, id, "mprotect") || IsCall(p, id, "mmap") || IsCall(p, id, "mmap2") then
      When(EqNoCase(name, "exec"), Bit(2, PROT_EXEC))
    else if IsCall(p, id, "chmod") || IsCall(p, id, "fchmod") || IsCall(p, id, "lchmod")
      || IsCall(p, id, "fchmodat") then
      ModeChecks(name, 2)
    else if IsCall(p, id, "creat") then
      When(EqNoCase(name, "create"), Bit(1, O_CREAT)) + When(EqNoCase(name, "write"), Bit(1, O_WRITING))
        + ModeChecks(name, 2)
    else if IsCall(p, id, "open") || IsCall(p, id, "open2") then OpenChecks(name, 1, 2)
    else if IsCall(p, id, "openat") || IsCall(p, id, "openat2") then OpenChecks(name, 2, 3)
    else if IsCall(p, id, "ioctl") then
      When(EqNoCase(name, "termget"), Eq(1, TCGETS)) + When(EqNoCase(name, "termset"), Eq(1, TCSETS))
    else []
  }

  /** The check that SeccompParseArg1 adds for the second: only a number is one. */
  function ParseArg1(name: string): seq<Check>
    requires name != ""
  {
    When(IsDigit(name[0]), Eq(2, Strtol(name).value))
  }

  /** Index of the first a or b that no backslash quotes, or |s|. */
  function SepEnd(s: string, a: char, b: char): (n: nat)
    ensures n <= |s|
  {
    if s == "" || s[0] == a || s[0] == b then 0
    else if s[0] == '\\' && |s| > 1 then 2 + SepEnd(s[2..], a, b)
    else 1 + SepEnd(s[1..], a, b)
  }

  /** GetToken with two separators. */
  function NextOfTwo(s: string, a: char, b: char): (t: Token)
    ensures t.NoToken? <==> s == ""
    ensures t.Token? ==> |t.rest| < |s|
  {
    if s == "" then NoToken
    else if SepEnd(s, a, b) == |s| then Token(s, "")
    else Token(s[..SepEnd(s, a, b)], s[SepEnd(s, a, b) + 1..])
  }

  function NextArg(s: string): Token { NextOfTwo(s, ',', ')') }

  function TokenText(t: Token): string {
    if t.NoToken? then "" else t.text
  }

  function TokenRest(t: Token): string {
    if t.NoToken? then "" else t.rest
  }

  /** The part of a name before its parenthesis. */
  function BaseName(token: string): string { TokenText(GetToken(token, '(')) }

  /** SeccompParseName: the call's number and the checks that its arguments ask for. */
  function ParseChecks(p: Platform, token: string): seq<Check> {
    var id := SysCallGetID(p, BaseName(token));
    var t0 := NextArg(TokenRest(GetToken(token, '(')));
    var t1 := NextArg(TokenRest(t0));
    (if TokenText(t0) == "" then [] else ParseArg0(p, id, TokenText(t0)))
    + (if TokenText(t1) == "" then [] else ParseArg1(TokenText(t1)))
  }

  /** The rule that one name adds: none for a call that the build does not know. */
  function NameRules(p: Platform, token: string, action: Action): seq<Rule> {
    var id := SysCallGetID(p, BaseName(token));
    if id > -1 then [Rule(id, ParseChecks(p, token), action)] else []
  }

  function ListRules(p: Platform, tokens: seq<string>, action: Action): seq<Rule> {
    if tokens == [] then [] else NameRules(p, tokens[0], action) + ListRules(p, tokens[1..], action)
  }

  /** A directive as the configuration text spells it, and the action that its name selects. */
  datatype Directive = Directive(name: string, value: string)

  datatype Selected = NoAction | Selected(action: Action)

  function SelectAction(name: string): Selected {
    if name == "syscall_kill" then Selected(Kill)
    else if name == "syscall_allow" then Selected(Allow)
    else if name == "syscall_deny" then Selected(Deny)
    else if name == "syscall_log" then Selected(Log)
    else NoAction
  }

  function DirectiveRules(p: Platform, d: Directive): seq<Rule> {
    match SelectAction(d.name)
    case NoAction => []
    case Selected(a) => ListRules(p, Tokens(Expand(d.value), ';'), a)
  }

  /** The rule list that a configuration means. */
  function RulesOf(p: Platform, ds: seq<Directive>): seq<Rule> {
    if ds == [] then [] else DirectiveRules(p, ds[0]) + RulesOf(p, ds[1..])
  }

  // ---------------------------------------------------------------- parsed rules are compilable

  lemma ParsedChecks(p: Platform, token: string)
    ensures |ParseChecks(p, token)| <= 3 && AllPrintable(ParseChecks(p, token))
  {
    var id := SysCallGetID(p, BaseName(token));
    var t0 := NextArg(TokenRest(GetToken(token, '(')));
    if TokenText(t0) != "" {
      ParsedArg0(p, id, TokenText(t0));
    }
  }

  /** A word that strcasecmp finds equal to one spelling is not equal to a different one. */
  lemma OneSpelling(name: string)
    ensures EqNoCase(name, "exec") ==> !EqNoCase(name, "suid")
    ensures EqNoCase(name, "create") ==> !EqNoCase(name, "exec") && !EqNoCase(name, "suid") && !EqNoCase(name, "write")
    ensures EqNoCase(name, "write") ==> !EqNoCase(name, "exec") && !EqNoCase(name, "suid")
    ensures EqNoCase(name, "termget") ==> !EqNoCase(name, "termset")
  {
    assert EqNoCase(name, "exec") ==> Lower(name[0]) == Lower("exec"[0]);
    assert EqNoCase(name, "suid") ==> Lower(name[0]) == Lower("suid"[0]);
    assert EqNoCase(name, "termget") ==> Lower(name[4]) == Lower("termget"[4]);
    assert EqNoCase(name, "termset") ==> Lower(name[4]) == Lower("termset"[4]);
  }

  lemma ModeChecksFew(name: string, pos: nat)
    requires pos < 6
    ensures |ModeChecks(name, pos)| <= 1 && AllPrintable(ModeChecks(name, pos))
  {
    hide EqNoCase;
    OneSpelling(name);
  }

  lemma CreatChecksFew(name: string)
    ensures var cs := When(EqNoCase(name, "create"), Bit(1, O_CREAT)) + When(EqNoCase(name, "write"), Bit(1, O_WRITING))
                      + ModeChecks(name, 2);
            |cs| <= 2 && AllPrintable(cs)
  {
    hide EqNoCase, ModeChecks;
    ModeChecksFew(name, 2);
    OneSpelling(name);
  }

  lemma OpenChecksFew(name: string, flags: nat, mode: nat)
    requires flags < 6 && mode < 6
    ensures |OpenChecks(name, flags, mode)| <= 2 && AllPrintable(OpenChecks(name, flags, mode))
  {
    hide EqNoCase;
    OneSpelling(name);
  }

  lemma ValueChecksFew(v: int, name: string)
    requires INT_MIN <= v <= INT_MAX
    ensures AllPrintable([Eq(0, v)]) && AllPrintable([])
    ensures AllPrintable(When(EqNoCase(name, "exec"), Bit(2, PROT_EXEC)))
    ensures var cs := When(EqNoCase(name, "termget"), Eq(1, TCGETS)) + When(EqNoCase(name, "termset"), Eq(1, TCSETS));
            AllPrintable(cs)
  {
    hide EqNoCase;
  }

  lemma SmallIds(name: string)
    ensures INT_MIN <= SocketCallGetID(name) <= INT_MAX && INT_MIN <= LookupSocketFamily(name) <= INT_MAX
  {
    hide EqNoCase;
  }

  lemma ParsedArg0(p: Platform, id: int, name: string)
    requires name != ""
    ensures |ParseArg0(p, id, name)| <= 2 && AllPrintable(ParseArg0(p, id, name))
  {
    hide EqNoCase, IsCall, Strtol, ModeChecks, OpenChecks, AllPrintable, SocketCallGetID, LookupSocketFamily;
    SmallIds(name);
    ModeChecksFew(name, 2);
    CreatChecksFew(name);
    OpenChecksFew(name, 1, 2);
    OpenChecksFew(name, 2, 3);
    ValueChecksFew(Strtol(name).value, name);
    ValueChecksFew(SocketCallGetID(name), name);
    ValueChecksFew(LookupSocketFamily(name), name);
  }

  /** Every rule that comes out of a configuration has at most three checks, on arguments the kernel passes. */
  predicate Parsed(rules: seq<Rule>) {
    forall i :: 0 <= i < |rules| ==> |rules[i].checks| <= 3 && AllPrintable(rules[i].checks)
  }

  lemma {:induction false} ListRulesParsed(p: Platform, tokens: seq<string>, action: Action)
    ensures Parsed(ListRules(p, tokens, action)) && AllActions(ListRules(p, tokens, action), action)
  {
    hide ParseChecks;
    if tokens != [] {
      ParsedChecks(p, tokens[0]);
      ListRulesParsed(p, tokens[1..], action);
    }
  }

  lemma {:induction false} RulesOfParsed(p: Platform, ds: seq<Directive>)
    ensures Parsed(RulesOf(p, ds))
  {
    hide ListRules;
    if ds != [] {
      if SelectAction(ds[0].name).Selected? {
        ListRulesParsed(p, Tokens(Expand(ds[0].value), ';'), SelectAction(ds[0].name).action);
      }
      RulesOfParsed(p, ds[1..]);
    }
  }

  lemma ParsedIsCompilable(rules: seq<Rule>)
    requires Parsed(rules)
    ensures Compilable(rules)
  {
  }

  // ---------------------------------------------------------------- directives as sets of names

  lemma {:induction false} InListRules(p: Platform, tokens: seq<string>, action: Action, r: Rule)
    ensures r in ListRules(p, tokens, action) <==> exists t :: t in tokens && r in NameRules(p, t, action)
  {
    hide NameRules;
    if tokens != [] {
      InListRules(p, tokens[1..], action, r);
      assert tokens == [tokens[0]] + tokens[1..];
    }
  }

  /**
   A directive means what its names mean after any further expansion, in any order: replacing its list
   by the names that two rounds of lookup reach leaves every decision as it was.
   */
  lemma DirectiveMeansItsNames(p: Platform, pre: seq<Rule>, d: Directive, names: seq<string>, post: seq<Rule>,
                               s: syscall)
    requires WellFormed(pre) && WellFormed(post) && SelectAction(d.name).Selected? && "" !in p.nr
    requires forall t :: t != "" ==> (t in names <==> t in ExpandNames(ExpandNames(Tokens(d.value, ';'))))
    ensures var a := SelectAction(d.name).action;
            && WellFormed(pre + (DirectiveRules(p, d) + post))
            && WellFormed(pre + (ListRules(p, names, a) + post))
            && FirstMatch(pre + (DirectiveRules(p, d) + post), s)
              == FirstMatch(pre + (ListRules(p, names, a) + post), s)
  {
    hide ListRules, NameRules, ExpandNames, Tokens, Expand, FirstMatch;
    var a := SelectAction(d.name).action;
    var tokens := Tokens(Expand(d.value), ';');
    ListRulesParsed(p, tokens, a);
    ListRulesParsed(p, names, a);
    forall r
      ensures r in ListRules(p, tokens, a) <==> r in ListRules(p, names, a)
    {
      InListRules(p, tokens, a, r);
      InListRules(p, names, a, r);
      NoRuleForEmpty(p, a);
      forall t | t != ""
        ensures t in tokens <==> t in names
      {
        ExpandNamesOf(d.value, t);
      }
    }
    DirectiveOrderIsFree(pre, ListRules(p, tokens, a), ListRules(p, names, a), post, a, s);
  }

  lemma NoRuleForEmpty(p: Platform, a: Action)
    requires "" !in p.nr
    ensures NameRules(p, "", a) == []
  {
  }
}
