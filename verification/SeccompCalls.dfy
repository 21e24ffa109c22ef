/**
 What a directive does to a call, in terms of the call's own arguments: which bits and values the words in
 parentheses test, and what the installed filter then returns.
 */
module SeccompCalls {
  import opened Bpf
  import opened Wrappers
  import opened Bytes
  import opened SeccompRules
  import opened SeccompArgs
  import opened SeccompCompile
  import opened SeccompGroups
  import opened SeccompExpand
  import opened SeccompNames
  import opened SeccompFilter
  import opened SeccompLevels
  import opened SeccompInstalled
  import opened SeccompMonotone
  import opened Text

  // ---------------------------------------------------------------- bits

  lemma BitsHalve(a: word, k: word)
    ensures AnyBit(a, 1) <==> a % 2 == 1
    ensures k > 0 && k % 2 == 0 ==> (AnyBit(a, k) <==> AnyBit(a / 2, k / 2))
    ensures k % 2 == 1 ==> (AnyBit(a, k) <==> a % 2 == 1 || AnyBit(a / 2, k / 2))
  {
    assert !AnyBit(a / 2, 0);
    assert 1 / 2 == 0;
  }

  lemma Doubled(a: word, k: word)
    ensures 2 * k / 2 == k && 2 * k % 2 == 0 && 4 * k == 2 * (2 * k) && 8 * k == 4 * (2 * k)
    ensures a / 2 / 2 == a / 4 && a / 4 / 2 == a / 8
  {
  }

  lemma BitsOverTwo(a: word, k: word)
    requires k > 0 && 2 * k < WORD
    ensures AnyBit(a, 2 * k) <==> AnyBit(a / 2, k)
  {
    hide AnyBit;
    Doubled(a, k);
    BitsHalve(a, 2 * k);
  }

  lemma BitsOverFour(a: word, k: word)
    requires k > 0 && 4 * k < WORD
    ensures AnyBit(a, 4 * k) <==> AnyBit(a / 4, k)
  {
    hide AnyBit;
    Doubled(a, k);
    BitsOverTwo(a, 2 * k);
    BitsOverTwo(a / 2, k);
  }

  lemma BitsOverEight(a: word, k: word)
    requires k > 0 && 8 * k < WORD
    ensures AnyBit(a, 8 * k) <==> AnyBit(a / 8, k)
  {
    hide AnyBit;
    Doubled(a, k);
    BitsOverFour(a, 2 * k);
    BitsOverTwo(a / 4, k);
  }

  /** The bits of the masks that the source tests: PROT_EXEC, O_CREAT, writing, execution, set-user-id. */
  lemma BitsOf4(a: word)
    ensures AnyBit(a, 4) <==> a / 4 % 2 == 1
  {
    hide AnyBit;
    BitsOverFour(a, 1);
    BitsHalve(a / 4, 1);
  }

  lemma BitsOf64(a: word)
    ensures AnyBit(a, 64) <==> a / 64 % 2 == 1
  {
    hide AnyBit;
    BitsOverEight(a, 8);
    BitsOverEight(a / 8, 1);
    BitsHalve(a / 8 / 8, 1);
  }

  lemma BitsOf73(a: word)
    ensures AnyBit(a, 73) <==> a % 2 == 1 || a / 8 % 2 == 1 || a / 64 % 2 == 1
  {
    hide AnyBit;
    BitsHalve(a, 73);
    BitsOverFour(a / 2, 9);
    BitsHalve(a / 2 / 4, 9);
    BitsOverFour(a / 2 / 4 / 2, 1);
    BitsHalve(a / 2 / 4 / 2 / 4, 1);
    assert a / 2 / 4 == a / 8 && a / 8 / 2 / 4 == a / 64;
  }

  lemma BitsOf3072(a: word)
    ensures AnyBit(a, 3072) <==> a / 1024 % 2 == 1 || a / 2048 % 2 == 1
  {
    hide AnyBit;
    BitsOverEight(a, 384);
    BitsOverEight(a / 8, 48);
    BitsOverEight(a / 8 / 8, 6);
    BitsHalve(a / 8 / 8 / 8, 6);
    BitsHalve(a / 8 / 8 / 8 / 2, 3);
    BitsHalve(a / 8 / 8 / 8 / 2 / 2, 1);
    Eighths(a);
  }

  lemma Eighths(a: word)
    ensures a / 8 / 8 / 8 / 2 == a / 1024 && a / 8 / 8 / 8 / 2 / 2 == a / 2048
  {
  }

  lemma BitsOf1091(a: word)
    ensures AnyBit(a, 1091) <==> a % 2 == 1 || a / 2 % 2 == 1 || a / 64 % 2 == 1 || a / 1024 % 2 == 1
  {
    hide AnyBit;
    BitsHalve(a, 1091);
    BitsHalve(a / 2, 545);
    BitsOverEight(a / 2 / 2, 34);
    BitsHalve(a / 2 / 2 / 8, 34);
    BitsHalve(a / 2 / 2 / 8 / 2, 17);
    BitsOverEight(a / 2 / 2 / 8 / 2 / 2, 1);
    BitsHalve(a / 2 / 2 / 8 / 2 / 2 / 8, 1);
    Mixed(a);
  }

  lemma Mixed(a: word)
    ensures a / 2 / 2 / 8 / 2 == a / 64 && a / 2 / 2 / 8 / 2 / 2 / 8 == a / 1024
  {
  }

  // ---------------------------------------------------------------- a text of one directive

  /** The words that name an action, and the value that a filter returns for it. */
  predicate Acts(directive: string, v: word) {
    || (directive == "syscall_kill" && v == 0)
    || (directive == "syscall_deny" && v == 0x0005_0001)
    || (directive == "syscall_log" && v == 0x7FFC_0000)
    || (directive == "syscall_allow" && v == 0x7FFF_0000)
  }

  lemma ActsAs(directive: string, v: word)
    requires Acts(directive, v)
    ensures DirectiveName(directive) && SelectAction(directive).Selected?
    ensures Verdict(SelectAction(directive).action) == v && Verdict(Kill) == 0 && Verdict(Allow) == 0x7FFF_0000
  {
  }

  lemma {:induction false} WordEndOfAll(t: string)
    requires Solid(t)
    ensures WordEnd(t) == |t|
  {
    if t != "" {
      WordEndOfAll(t[1..]);
    }
  }

  lemma RulesOfText(p: Kernel, o: Order)
    requires DirectiveName(o.directive) && SolidAll(o.names)
    ensures RulesOf(p, Pairs(OrderText(o))) == DirectiveRules(p, DirectiveOf(o))
  {
    hide DirectiveName, SolidAll, Solid, OrderText, DirectiveRules, DirectiveOf, WordEnd;
    OrderIsWord(o);
    WordEndOfAll(OrderText(o));
    assert Pairs("") == [];
    assert Pairs(OrderText(o)) == [DirectiveOf(o)];
    assert [DirectiveOf(o)][1..] == [];
    assert RulesOf(p, []) == [];
  }

  /** The filter of a text of one directive is short enough, and decides as its rules do. */
  lemma TextDecides(p: Kernel, o: Order, d: syscall, acc: word)
    requires DirectiveName(o.directive) && SolidAll(o.names) && |DirectiveRules(p, DirectiveOf(o))| <= 450
    ensures KernelTakes(Handed(p, OrderText(o))) && WellFormed(DirectiveRules(p, DirectiveOf(o)))
    ensures Run(Handed(p, OrderText(o)), d, 0, acc) == Some(Decide(p.arch, DirectiveRules(p, DirectiveOf(o)), d))
  {
    hide DirectiveName, SolidAll, OrderText, DirectiveRules, DirectiveOf, Pairs, RulesOf, Parsed, TotalLength;
    hide KernelTakes, Run, Program, Handed, Decide;
    var text := OrderText(o);
    RulesOfText(p, o);
    InstalledLength(p, text);
    RulesOfParsed(p, Pairs(text));
    ParsedLength(RulesOf(p, Pairs(text)));
    TakenIff(p, text);
    RulesWellFormed(p, Pairs(text));
    ProgramCorrect(p.arch, RulesOf(p, Pairs(text)), d, acc);
  }

  lemma UniformMatch(rules: seq<Rule>, a: Action, d: syscall)
    requires WellFormed(rules) && AllActions(rules, a)
    ensures FirstMatch(rules, d) == if SomeMatch(rules, d) then a else Allow
  {
    if SomeMatch(rules, d) {
      FirstMatchUniform(rules, a, d);
    } else {
      NoMatch(rules, d);
    }
  }

  lemma {:induction false} NoMatch(rules: seq<Rule>, d: syscall)
    requires WellFormed(rules) && !SomeMatch(rules, d)
    ensures FirstMatch(rules, d) == Allow
  {
    if rules != [] {
      assert !Matches(rules[0], d);
      assert forall i :: 0 <= i < |rules[1..]| ==> rules[1..][i] == rules[i + 1];
      NoMatch(rules[1..], d);
    }
  }

  /** A name with its arguments is for a call, and what it asks of the arguments holds. */
  predicate Hits(p: Kernel, t: string, call: string, d: syscall) {
    BaseName(t) == call && WellFormedChecks(ParseChecks(p, t)) && ChecksHold(ParseChecks(p, t), d)
  }

  ghost predicate Reaches(p: Kernel, names: seq<string>, call: string, d: syscall) {
    exists t :: t in ExpandNames(ExpandNames(names)) && Hits(p, t, call, d)
  }

  lemma OneRuleMatches(p: Kernel, t: string, a: Action, call: string, d: syscall)
    requires OneNumberEach(p) && IsNumberOf(p, d.nr, call)
    ensures WellFormed(NameRules(p, t, a))
    ensures SomeMatch(NameRules(p, t, a), d) <==> Hits(p, t, call, d)
  {
    hide ParseChecks, BaseName, ChecksHold;
    ParsedChecks(p, t);
    var rules := NameRules(p, t, a);
    assert BaseName(t) in p.nr && U32(p.nr[BaseName(t)]) == d.nr <==> BaseName(t) == call;
    assert rules != [] ==> rules == [Rule(p.nr[BaseName(t)], ParseChecks(p, t), a)];
    if Hits(p, t, call, d) {
      assert Matches(rules[0], d);
    }
  }

  lemma TokenMatches(p: Kernel, tokens: seq<string>, a: Action, call: string, d: syscall)
    requires OneNumberEach(p) && IsNumberOf(p, d.nr, call)
    ensures WellFormed(ListRules(p, tokens, a))
    ensures SomeMatch(ListRules(p, tokens, a), d) <==> exists t :: t in tokens && Hits(p, t, call, d)
  {
    hide NameRules, ListRules, Hits, OneNumberEach, IsNumberOf;
    var rules := ListRules(p, tokens, a);
    ListRulesParsed(p, tokens, a);
    if SomeMatch(rules, d) {
      var i :| 0 <= i < |rules| && Matches(rules[i], d);
      InListRules(p, tokens, a, rules[i]);
      var t :| t in tokens && rules[i] in NameRules(p, t, a);
      OneRuleMatches(p, t, a, call, d);
      var j :| 0 <= j < |NameRules(p, t, a)| && NameRules(p, t, a)[j] == rules[i];
      assert Matches(NameRules(p, t, a)[j], d);
    }
    if t :| t in tokens && Hits(p, t, call, d) {
      OneRuleMatches(p, t, a, call, d);
      var j :| 0 <= j < |NameRules(p, t, a)| && Matches(NameRules(p, t, a)[j], d);
      InListRules(p, tokens, a, NameRules(p, t, a)[j]);
      var i :| 0 <= i < |rules| && rules[i] == NameRules(p, t, a)[j];
      assert Matches(rules[i], d);
    }
  }

  lemma EmptyHitsNothing(p: Kernel, call: string, d: syscall)
    requires call != ""
    ensures !Hits(p, "", call, d)
  {
  }

  /** A directive has a rule for a call exactly when one of the names that it comes down to is for that call. */
  lemma DirectiveMatches(p: Kernel, o: Order, call: string, d: syscall)
    requires OneNumberEach(p) && IsNumberOf(p, d.nr, call)
    requires SelectAction(o.directive).Selected? && SolidAll(o.names)
    ensures WellFormed(DirectiveRules(p, DirectiveOf(o)))
    ensures AllActions(DirectiveRules(p, DirectiveOf(o)), SelectAction(o.directive).action)
    ensures SomeMatch(DirectiveRules(p, DirectiveOf(o)), d) <==> Reaches(p, o.names, call, d)
  {
    hide Tokens, ListRules, Expand, Join, SolidAll, ExpandNames, Hits, SomeMatch, OneNumberEach;
    SolidAllClean(o.names);
    TokensOfJoin(o.names, ';');
    var list, a := Join(o.names, ';'), SelectAction(o.directive).action;
    var tokens := Tokens(Expand(list), ';');
    ListRulesParsed(p, tokens, a);
    TokenMatches(p, tokens, a, call, d);
    EmptyHitsNothing(p, call, d);
    forall t | t != ""
      ensures t in tokens <==> t in ExpandNames(ExpandNames(o.names))
    {
      ExpandNamesOf(list, t);
    }
  }

  /** What the installed filter of one directive returns for a call of the kernel. */
  lemma DirectiveVerdict(p: Kernel, o: Order, v: word, call: string, d: syscall, acc: word)
    requires OneNumberEach(p) && IsNumberOf(p, d.nr, call) && Acts(o.directive, v) && SolidAll(o.names)
    requires |DirectiveRules(p, DirectiveOf(o))| <= 450
    ensures KernelTakes(Handed(p, OrderText(o)))
    ensures Run(Handed(p, OrderText(o)), d, 0, acc)
         == Some(if d.arch != p.arch then 0 else if Reaches(p, o.names, call, d) then v else 0x7FFF_0000)
  {
    hide OneNumberEach, IsNumberOf, SolidAll, DirectiveRules, DirectiveOf, OrderText, Handed, Run, KernelTakes;
    hide Reaches, Acts, FirstMatch, SomeMatch, SelectAction, DirectiveName, AllActions, Verdict;
    ActsAs(o.directive, v);
    TextDecides(p, o, d, acc);
    DirectiveMatches(p, o, call, d);
    UniformMatch(DirectiveRules(p, DirectiveOf(o)), SelectAction(o.directive).action, d);
  }

  // ---------------------------------------------------------------- a name with arguments

  lemma {:induction false} SepEndOfWord(w: string, rest: string)
    requires forall i :: 0 <= i < |w| ==> w[i] != ',' && w[i] != ')' && w[i] != '\\'
    requires rest != "" && (rest[0] == ',' || rest[0] == ')')
    ensures SepEnd(w + rest, ',', ')') == |w|
  {
    if w == "" {
      assert w + rest == rest;
    } else {
      assert (w + rest)[1..] == w[1..] + rest;
      SepEndOfWord(w[1..], rest);
    }
  }

  lemma NextArgIs(w: string, c: char, rest: string)
    requires forall i :: 0 <= i < |w| ==> w[i] != ',' && w[i] != ')' && w[i] != '\\'
    requires c == ',' || c == ')'
    ensures NextArg(w + ([c] + rest)) == Token(w, rest)
  {
    SepEndOfWord(w, [c] + rest);
    var s := w + ([c] + rest);
    assert s[..|w|] == w && s[|w| + 1..] == rest;
  }

  lemma BaseAndRest(t: string, call: string, rest: string)
    requires '(' !in call && t == call + ("(" + rest)
    ensures BaseName(t) == call && TokenRest(GetToken(t, '(')) == rest
  {
    IndexOfIsFirst(call, '(');
    IndexOfExtends(call, '(', "(" + rest);
    assert t[..|call|] == call && t[|call| + 1..] == rest;
  }

  /** A word that can stand in parentheses. */
  predicate Argument(w: string) {
    w != "" && forall i :: 0 <= i < |w| ==> w[i] != ',' && w[i] != ')' && w[i] != '\\'
  }

  /** One word in parentheses. */
  lemma OneArgument(p: Kernel, t: string, call: string, w: string)
    requires '(' !in call && Argument(w) && t == call + ("(" + (w + ")")) && call in p.nr
    ensures BaseName(t) == call && ParseChecks(p, t) == ParseArg0(p, p.nr[call], w)
  {
    hide ParseArg0, ParseArg1, BaseName, GetToken, SepEnd;
    BaseAndRest(t, call, w + ")");
    assert w + ")" == w + ([')'] + "");
    NextArgIs(w, ')', "");
    assert NextArg("") == NoToken;
  }

  /** Two words in parentheses: of the second only a number counts. */
  lemma TwoArguments(p: Kernel, t: string, call: string, w: string, w2: string)
    requires '(' !in call && Argument(w) && Argument(w2) && t == call + ("(" + (w + ("," + (w2 + ")"))))
    requires call in p.nr
    ensures BaseName(t) == call && ParseChecks(p, t) == ParseArg0(p, p.nr[call], w) + ParseArg1(w2)
  {
    hide ParseArg0, ParseArg1, BaseName, GetToken, SepEnd;
    BaseAndRest(t, call, w + ("," + (w2 + ")")));
    assert w + ("," + (w2 + ")")) == w + ([','] + (w2 + ")"));
    NextArgIs(w, ',', w2 + ")");
    assert w2 + ")" == w2 + ([')'] + "");
    NextArgIs(w2, ')', "");
  }

  lemma NoArgument(p: Kernel, t: string)
    requires '(' !in t
    ensures BaseName(t) == t && ParseChecks(p, t) == []
  {
    hide ParseArg0, ParseArg1, IndexOf;
    IndexOfIsFirst(t, '(');
    assert GetToken(t, '(') == Token(t, "") || t == "";
    assert NextArg("") == NoToken;
  }

  /** The names of calls are told apart by their numbers. */
  lemma CallIs(p: Kernel, call: string, name: string)
    requires OneNumberEach(p) && call in p.nr
    ensures IsCall(p, p.nr[call], name) <==> name == call
  {
  }

  lemma OneNameText(directive: string, n: string)
    ensures OrderText(Order(directive, [n])) == directive + ("=" + n)
  {
  }

  /** The filter of a directive for one name. */
  lemma NameVerdict(p: Kernel, directive: string, v: word, n: string, k: nat, call: string, d: syscall, acc: word)
    requires OneNumberEach(p) && IsNumberOf(p, d.nr, call) && Acts(directive, v)
    requires Graphic(n) && Small(n, k) && k <= 450
    ensures KernelTakes(Handed(p, directive + ("=" + n)))
    ensures Run(Handed(p, directive + ("=" + n)), d, 0, acc)
         == Some(if d.arch != p.arch then 0
                 else if exists t :: t in Members(n) && Hits(p, t, call, d) then v else 0x7FFF_0000)
  {
    hide OneNumberEach, IsNumberOf, Graphic, DirectiveRules, DirectiveOf, OrderText, Handed, Run, KernelTakes;
    hide Acts, Members, ExpandNames, Hits, Small;
    var o := Order(directive, [n]);
    assert SolidAll([n]) && AllSmall([n], k);
    SmallOrderCount(p, o, k);
    OneNameText(directive, n);
    DirectiveVerdict(p, o, v, call, d, acc);
    ReachesOne(n, k);
  }

  /** A small name comes down to its members. */
  lemma ReachesOne(n: string, k: nat)
    requires Small(n, k)
    ensures forall t :: t in ExpandNames(ExpandNames([n])) <==> t in Members(n)
  {
    hide Members, ExpandNames;
    assert AllSmall([n], k);
    forall t
      ensures t in ExpandNames(ExpandNames([n])) <==> t in Members(n)
    {
      InExpandNames([n], t);
      TwoRoundsClose([n], t);
      if t in ExpandNames(ExpandNames([n])) {
        SmallIsClosed([n], k, t);
      }
      assert t in ExpandNames([n]) <==> t in Members(n);
    }
  }

  // ---------------------------------------------------------------- names that stand for themselves

  predicate FiveKeys(n: string) {
    n == "socket(ip)" || n == "socket(unix)" || n == "socket(packet)" || n == "chmod(exec)" || n == "mmap(exec)"
  }

  /** A name with a parenthesis in it that is none of the five that the table lists. */
  lemma ParenIsPlain(n: string, k: nat)
    requires k < |n| && n[k] == '(' && !FiveKeys(n)
    ensures CallTable(n) == [n]
  {
    hide FileTable;
    ParenIsNoFile(n, k);
  }

  lemma ParenIsNoFile(n: string, k: nat)
    requires k < |n| && n[k] == '(' && !FiveKeys(n)
    ensures FileTable(n) == [n]
  {
    ShortKeys();
    LongKeys();
    assert '(' in n;
    KeyTable(n);
    hide FileTable;
  }

  lemma ShortKeys()
    ensures '(' !in "link" && '(' !in "mkdir" && '(' !in "rmdir" && '(' !in "chown" && '(' !in "chmod" && '(' !in "mmap"
  {
  }

  lemma LongKeys()
    ensures '(' !in "symlink" && '(' !in "unlink" && '(' !in "rename" && '(' !in "utimes" && '(' !in "truncate"
  {
  }

  lemma KeyTable(n: string)
    ensures FileTable(n) == [n] || n == "link" || n == "symlink" || n == "unlink" || n == "mkdir" || n == "rmdir"
      || n == "rename" || n == "utimes" || n == "truncate" || n == "chown" || n == "chmod" || n == "mmap" || FiveKeys(n)
  {
  }

  /** A call with one word in parentheses, as a rule text spells it. */
  function Spelled(call: string, w: string): string { call + ("(" + (w + ")")) }

  lemma SpelledIs(call: string, w: string)
    requires Graphic(call) && Graphic(w) && '(' !in call
    ensures Graphic(Spelled(call, w)) && |call| < |Spelled(call, w)| && Spelled(call, w)[|call|] == '('
    ensures Spelled(call, w)[0] == call[0]
  {
  }

  lemma PlainSpelling(call: string, w: string)
    requires Graphic(call) && Graphic(w) && '(' !in call && call[0] != 'g' && !FiveKeys(Spelled(call, w))
    ensures Members(Spelled(call, w)) == [Spelled(call, w)]
  {
    hide FiveKeys, CallTable, GroupTable, Graphic, Spelled;
    SpelledIs(call, w);
    GroupNameStart(Spelled(call, w));
    ParenIsPlain(Spelled(call, w), |call|);
  }

  lemma ChecksWellFormed(p: Kernel, call: string, w: string)
    requires w != "" && call in p.nr
    ensures WellFormedChecks(ParseArg0(p, p.nr[call], w))
  {
    hide ParseArg0;
    ParsedArg0(p, p.nr[call], w);
  }

  lemma SpelledHits(p: Kernel, call: string, w: string, d: syscall)
    requires '(' !in call && Argument(w) && call in p.nr
    ensures WellFormedChecks(ParseArg0(p, p.nr[call], w))
    ensures BaseName(Spelled(call, w)) == call
    ensures Hits(p, Spelled(call, w), call, d) <==> ChecksHold(ParseArg0(p, p.nr[call], w), d)
  {
    hide ParseArg0, BaseName, ParseChecks, ChecksHold, Argument;
    OneArgument(p, Spelled(call, w), call, w);
    assert w != "" by { WordIsSomething(w); }
    ChecksWellFormed(p, call, w);
  }

  lemma WordIsSomething(w: string)
    requires Argument(w)
    ensures w != ""
  {
  }

  /** The filter of a directive for a call with a word that no group table lists. */
  lemma WordVerdict(p: Kernel, directive: string, v: word, call: string, w: string, d: syscall, acc: word)
    requires OneNumberEach(p) && IsNumberOf(p, d.nr, call) && Acts(directive, v)
    requires Graphic(call) && Graphic(w) && '(' !in call && call[0] != 'g' && Argument(w)
    requires !FiveKeys(Spelled(call, w))
    ensures WellFormedChecks(ParseArg0(p, p.nr[call], w))
    ensures Run(Handed(p, directive + ("=" + Spelled(call, w))), d, 0, acc)
         == Some(if d.arch != p.arch then 0
                 else if ChecksHold(ParseArg0(p, p.nr[call], w), d) then v else 0x7FFF_0000)
  {
    hide OneNumberEach, Graphic, Handed, Run, KernelTakes, FiveKeys, ChecksHold;
    hide Acts, Members, Hits, Small, Spelled, ParseArg0, Argument;
    var n := Spelled(call, w);
    SpelledIs(call, w);
    PlainSpelling(call, w);
    AloneIsSmall(n, 1);
    NameVerdict(p, directive, v, n, 1, call, d, acc);
    SpelledHits(p, call, w, d);
    assert n in Members(n);
  }

  // ---------------------------------------------------------------- what the words test

  lemma OneBitSet(pos: nat, mask: int, d: syscall)
    requires pos < 6 && 0 <= mask < WORD
    ensures WellFormedChecks([Bit(pos, mask)])
    ensures ChecksHold([Bit(pos, mask)], d) <==> AnyBit(d.args[pos] % 0x1_0000_0000, mask)
  {
    hide AnyBit;
    assert [Bit(pos, mask)][0] == Bit(pos, mask);
  }

  lemma OneValue(pos: nat, value: int, d: syscall)
    requires pos < 6 && 0 <= value < WORD
    ensures WellFormedChecks([Eq(pos, value)])
    ensures ChecksHold([Eq(pos, value)], d) <==> d.args[pos] % 0x1_0000_0000 == value
  {
    assert [Eq(pos, value)][0] == Eq(pos, value);
  }

  lemma NoCheck(d: syscall)
    ensures WellFormedChecks([]) && ChecksHold([], d)
  {
  }

  /** mmap, mmap2 and mprotect: whether the memory is to be executed, in bit 2 of the third argument. */
  lemma ProtectionWords(p: Kernel, call: string, w: string, d: syscall)
    requires OneNumberEach(p) && call in p.nr && (call == "mmap" || call == "mmap2" || call == "mprotect")
    requires w != "" && !IsDigit(w[0])
    ensures WellFormedChecks(ParseArg0(p, p.nr[call], w))
    ensures ChecksHold(ParseArg0(p, p.nr[call], w), d)
        <==> (EqNoCase(w, "exec") ==> d.args[2] % 0x1_0000_0000 / 4 % 2 == 1)
  {
    hide EqNoCase, ChecksHold, AnyBit, OneNumberEach, IsCall;
    CallIs(p, call, "socketcall");
    CallIs(p, call, "socket");
    CallIs(p, call, "socketpair");
    CallIs(p, call, "mprotect");
    CallIs(p, call, "mmap");
    CallIs(p, call, "mmap2");
    OneBitSet(2, 4, d);
    BitsOf4(d.args[2] % 0x1_0000_0000);
    NoCheck(d);
  }

  /** open and open2: flags in the second argument, the mode in the third. */
  lemma OpenWords(p: Kernel, call: string, w: string, d: syscall)
    requires OneNumberEach(p) && call in p.nr && (call == "open" || call == "open2")
    requires w != "" && !IsDigit(w[0])
    ensures WellFormedChecks(ParseArg0(p, p.nr[call], w))
    ensures ChecksHold(ParseArg0(p, p.nr[call], w), d) <==>
            var flags, mode := d.args[1] % 0x1_0000_0000, d.args[2] % 0x1_0000_0000;
            && (EqNoCase(w, "create") ==> flags / 64 % 2 == 1)
            && (EqNoCase(w, "write") ==>
                  flags % 2 == 1 || flags / 2 % 2 == 1 || flags / 64 % 2 == 1 || flags / 1024 % 2 == 1)
            && (EqNoCase(w, "suid") ==> mode / 1024 % 2 == 1 || mode / 2048 % 2 == 1)
            && (EqNoCase(w, "exec") ==>
                  flags / 64 % 2 == 1 && (mode % 2 == 1 || mode / 8 % 2 == 1 || mode / 64 % 2 == 1))
  {
    hide EqNoCase, ChecksHold, AnyBit, OneNumberEach, IsCall, OpenChecks;
    NotEarlier(p, call);
    CallIs(p, call, "open");
    CallIs(p, call, "open2");
    OpenChecksHold(w, 1, 2, d);
  }

  /** openat and openat2 have a directory in front: flags in the third argument, the mode in the fourth. */
  lemma OpenatWords(p: Kernel, call: string, w: string, d: syscall)
    requires OneNumberEach(p) && call in p.nr && (call == "openat" || call == "openat2")
    requires w != "" && !IsDigit(w[0])
    ensures WellFormedChecks(ParseArg0(p, p.nr[call], w))
    ensures ChecksHold(ParseArg0(p, p.nr[call], w), d) <==>
            var flags, mode := d.args[2] % 0x1_0000_0000, d.args[3] % 0x1_0000_0000;
            && (EqNoCase(w, "create") ==> flags / 64 % 2 == 1)
            && (EqNoCase(w, "write") ==>
                  flags % 2 == 1 || flags / 2 % 2 == 1 || flags / 64 % 2 == 1 || flags / 1024 % 2 == 1)
            && (EqNoCase(w, "suid") ==> mode / 1024 % 2 == 1 || mode / 2048 % 2 == 1)
            && (EqNoCase(w, "exec") ==>
                  flags / 64 % 2 == 1 && (mode % 2 == 1 || mode / 8 % 2 == 1 || mode / 64 % 2 == 1))
  {
    hide EqNoCase, ChecksHold, AnyBit, OneNumberEach, IsCall, OpenChecks;
    NotEarlier(p, call);
    CallIs(p, call, "open");
    CallIs(p, call, "open2");
    CallIs(p, call, "openat");
    CallIs(p, call, "openat2");
    OpenChecksHold(w, 2, 3, d);
  }

  lemma NotEarlier(p: Kernel, call: string)
    requires OneNumberEach(p) && call in p.nr
    requires call == "open" || call == "open2" || call == "openat" || call == "openat2" || call == "ioctl"
    ensures var id := p.nr[call];
            && !IsCall(p, id, "socketcall") && !IsCall(p, id, "socket") && !IsCall(p, id, "socketpair")
            && !IsCall(p, id, "mprotect") && !IsCall(p, id, "mmap") && !IsCall(p, id, "mmap2")
            && !IsCall(p, id, "chmod") && !IsCall(p, id, "fchmod") && !IsCall(p, id, "lchmod")
            && !IsCall(p, id, "fchmodat") && !IsCall(p, id, "creat")
  {
    hide IsCall, OneNumberEach;
    CallIs(p, call, "socketcall");
    CallIs(p, call, "socket");
    CallIs(p, call, "socketpair");
    CallIs(p, call, "mprotect");
    CallIs(p, call, "mmap");
    CallIs(p, call, "mmap2");
    CallIs(p, call, "chmod");
    CallIs(p, call, "fchmod");
    CallIs(p, call, "lchmod");
    CallIs(p, call, "fchmodat");
    CallIs(p, call, "creat");
  }

  lemma OpenChecksHold(w: string, f: nat, m: nat, d: syscall)
    requires f < 6 && m < 6
    ensures WellFormedChecks(OpenChecks(w, f, m))
    ensures ChecksHold(OpenChecks(w, f, m), d) <==>
            var flags, mode := d.args[f] % 0x1_0000_0000, d.args[m] % 0x1_0000_0000;
            && (EqNoCase(w, "create") ==> flags / 64 % 2 == 1)
            && (EqNoCase(w, "write") ==>
                  flags % 2 == 1 || flags / 2 % 2 == 1 || flags / 64 % 2 == 1 || flags / 1024 % 2 == 1)
            && (EqNoCase(w, "suid") ==> mode / 1024 % 2 == 1 || mode / 2048 % 2 == 1)
            && (EqNoCase(w, "exec") ==>
                  flags / 64 % 2 == 1 && (mode % 2 == 1 || mode / 8 % 2 == 1 || mode / 64 % 2 == 1))
  {
    hide EqNoCase, ChecksHold, AnyBit, When, WellFormedChecks;
    var flags, mode := d.args[f] % 0x1_0000_0000, d.args[m] % 0x1_0000_0000;
    BitsOf64(flags);
    BitsOf1091(flags);
    BitsOf3072(mode);
    BitsOf73(mode);
    WhenHolds(EqNoCase(w, "create"), f, O_CREAT, d);
    WhenHolds(EqNoCase(w, "write"), f, O_WRITING, d);
    WhenHolds(EqNoCase(w, "suid"), m, MODE_SUID, d);
    WhenHolds(EqNoCase(w, "exec"), f, O_CREAT, d);
    WhenHolds(EqNoCase(w, "exec"), m, MODE_EXEC, d);
    var c := When(EqNoCase(w, "create"), Bit(f, O_CREAT));
    var cw := c + When(EqNoCase(w, "write"), Bit(f, O_WRITING));
    var cws := cw + When(EqNoCase(w, "suid"), Bit(m, MODE_SUID));
    var cwse := cws + When(EqNoCase(w, "exec"), Bit(f, O_CREAT));
    BothHold(c, When(EqNoCase(w, "write"), Bit(f, O_WRITING)), d);
    BothHold(cw, When(EqNoCase(w, "suid"), Bit(m, MODE_SUID)), d);
    BothHold(cws, When(EqNoCase(w, "exec"), Bit(f, O_CREAT)), d);
    BothHold(cwse, When(EqNoCase(w, "exec"), Bit(m, MODE_EXEC)), d);
  }

  lemma WhenHolds(b: bool, pos: nat, mask: int, d: syscall)
    requires pos < 6 && 0 <= mask < WORD
    ensures WellFormedChecks(When(b, Bit(pos, mask)))
    ensures ChecksHold(When(b, Bit(pos, mask)), d) <==> (b ==> AnyBit(d.args[pos] % 0x1_0000_0000, mask))
  {
    hide AnyBit, ChecksHold;
    OneBitSet(pos, mask, d);
    NoCheck(d);
  }

  lemma BothHold(a: seq<Check>, b: seq<Check>, d: syscall)
    requires WellFormedChecks(a) && WellFormedChecks(b)
    ensures WellFormedChecks(a + b)
    ensures ChecksHold(a + b, d) <==> ChecksHold(a, d) && ChecksHold(b, d)
  {
    hide CheckHolds;
    assert forall i :: 0 <= i < |a| ==> (a + b)[i] == a[i];
    assert forall i :: 0 <= i < |b| ==> (a + b)[|a| + i] == b[i];
  }

  /** The calls that change a file's mode, all by their third argument; for chmod, fchmod and lchmod that is none. */
  lemma ModeWords(p: Kernel, call: string, w: string, d: syscall)
    requires OneNumberEach(p) && call in p.nr
    requires call == "chmod" || call == "fchmod" || call == "lchmod" || call == "fchmodat"
    requires w != "" && !IsDigit(w[0])
    ensures WellFormedChecks(ParseArg0(p, p.nr[call], w))
    ensures ChecksHold(ParseArg0(p, p.nr[call], w), d) <==>
            var mode := d.args[2] % 0x1_0000_0000;
            && (EqNoCase(w, "exec") ==> mode % 2 == 1 || mode / 8 % 2 == 1 || mode / 64 % 2 == 1)
            && (EqNoCase(w, "suid") ==> mode / 1024 % 2 == 1 || mode / 2048 % 2 == 1)
  {
    hide EqNoCase, ChecksHold, AnyBit, OneNumberEach, IsCall, ModeChecks;
    CallIs(p, call, "socketcall");
    CallIs(p, call, "socket");
    CallIs(p, call, "socketpair");
    CallIs(p, call, "mprotect");
    CallIs(p, call, "mmap");
    CallIs(p, call, "mmap2");
    CallIs(p, call, call);
    ModeChecksHold(w, 2, d);
  }

  lemma ModeChecksHold(w: string, m: nat, d: syscall)
    requires m < 6
    ensures WellFormedChecks(ModeChecks(w, m))
    ensures ChecksHold(ModeChecks(w, m), d) <==>
            var mode := d.args[m] % 0x1_0000_0000;
            && (EqNoCase(w, "exec") ==> mode % 2 == 1 || mode / 8 % 2 == 1 || mode / 64 % 2 == 1)
            && (EqNoCase(w, "suid") ==> mode / 1024 % 2 == 1 || mode / 2048 % 2 == 1)
  {
    hide EqNoCase, ChecksHold, AnyBit, When, WellFormedChecks;
    var mode := d.args[m] % 0x1_0000_0000;
    BitsOf73(mode);
    BitsOf3072(mode);
    WhenHolds(EqNoCase(w, "exec"), m, MODE_EXEC, d);
    WhenHolds(EqNoCase(w, "suid"), m, MODE_SUID, d);
    BothHold(When(EqNoCase(w, "exec"), Bit(m, MODE_EXEC)), When(EqNoCase(w, "suid"), Bit(m, MODE_SUID)), d);
  }

  /** creat is taken to have flags in its second argument, where it has the mode, and the mode in its third. */
  lemma CreatWords(p: Kernel, w: string, d: syscall)
    requires OneNumberEach(p) && "creat" in p.nr && w != "" && !IsDigit(w[0])
    ensures WellFormedChecks(ParseArg0(p, p.nr["creat"], w))
    ensures ChecksHold(ParseArg0(p, p.nr["creat"], w), d) <==>
            var flags, mode := d.args[1] % 0x1_0000_0000, d.args[2] % 0x1_0000_0000;
            && (EqNoCase(w, "create") ==> flags / 64 % 2 == 1)
            && (EqNoCase(w, "write") ==>
                  flags % 2 == 1 || flags / 2 % 2 == 1 || flags / 64 % 2 == 1 || flags / 1024 % 2 == 1)
            && (EqNoCase(w, "exec") ==> mode % 2 == 1 || mode / 8 % 2 == 1 || mode / 64 % 2 == 1)
            && (EqNoCase(w, "suid") ==> mode / 1024 % 2 == 1 || mode / 2048 % 2 == 1)
  {
    hide EqNoCase, ChecksHold, AnyBit, OneNumberEach, IsCall, ModeChecks, When;
    NotMode(p, "creat");
    CallIs(p, "creat", "creat");
    var flags := d.args[1] % 0x1_0000_0000;
    BitsOf64(flags);
    BitsOf1091(flags);
    WhenHolds(EqNoCase(w, "create"), 1, O_CREAT, d);
    WhenHolds(EqNoCase(w, "write"), 1, O_WRITING, d);
    ModeChecksHold(w, 2, d);
    var c, cw := When(EqNoCase(w, "create"), Bit(1, O_CREAT)), When(EqNoCase(w, "write"), Bit(1, O_WRITING));
    BothHold(c, cw, d);
    BothHold(c + cw, ModeChecks(w, 2), d);
  }

  lemma NotMode(p: Kernel, call: string)
    requires OneNumberEach(p) && call in p.nr && (call == "creat" || call == "ioctl")
    ensures var id := p.nr[call];
            && !IsCall(p, id, "socketcall") && !IsCall(p, id, "socket") && !IsCall(p, id, "socketpair")
            && !IsCall(p, id, "mprotect") && !IsCall(p, id, "mmap") && !IsCall(p, id, "mmap2")
            && !IsCall(p, id, "chmod") && !IsCall(p, id, "fchmod") && !IsCall(p, id, "lchmod")
            && !IsCall(p, id, "fchmodat")
  {
    hide IsCall, OneNumberEach;
    CallIs(p, call, "socketcall");
    CallIs(p, call, "socket");
    CallIs(p, call, "socketpair");
    CallIs(p, call, "mprotect");
    CallIs(p, call, "mmap");
    CallIs(p, call, "mmap2");
    CallIs(p, call, "chmod");
    CallIs(p, call, "fchmod");
    CallIs(p, call, "lchmod");
    CallIs(p, call, "fchmodat");
  }

  /** ioctl: the request, in the second argument. */
  lemma IoctlWords(p: Kernel, w: string, d: syscall)
    requires OneNumberEach(p) && "ioctl" in p.nr && w != "" && !IsDigit(w[0])
    ensures WellFormedChecks(ParseArg0(p, p.nr["ioctl"], w))
    ensures ChecksHold(ParseArg0(p, p.nr["ioctl"], w), d) <==>
            && (EqNoCase(w, "termget") ==> d.args[1] % 0x1_0000_0000 == 0x5401)
            && (EqNoCase(w, "termset") ==> d.args[1] % 0x1_0000_0000 == 0x5402)
  {
    hide EqNoCase, ChecksHold, OneNumberEach, IsCall, When;
    NotEarlier(p, "ioctl");
    CallIs(p, "ioctl", "open");
    CallIs(p, "ioctl", "open2");
    CallIs(p, "ioctl", "openat");
    CallIs(p, "ioctl", "openat2");
    CallIs(p, "ioctl", "ioctl");
    WhenEquals(EqNoCase(w, "termget"), 1, TCGETS, d);
    WhenEquals(EqNoCase(w, "termset"), 1, TCSETS, d);
    BothHold(When(EqNoCase(w, "termget"), Eq(1, TCGETS)), When(EqNoCase(w, "termset"), Eq(1, TCSETS)), d);
  }

  lemma WhenEquals(b: bool, pos: nat, value: int, d: syscall)
    requires pos < 6 && 0 <= value < WORD
    ensures WellFormedChecks(When(b, Eq(pos, value)))
    ensures ChecksHold(When(b, Eq(pos, value)), d) <==> (b ==> d.args[pos] % 0x1_0000_0000 == value)
  {
    hide ChecksHold;
    OneValue(pos, value, d);
    NoCheck(d);
  }

  /** socket and socketpair: the address family, in the first argument; an unknown word is the family -1. */
  lemma SocketWords(p: Kernel, call: string, w: string, d: syscall)
    requires OneNumberEach(p) && call in p.nr && (call == "socket" || call == "socketpair")
    requires w != "" && !IsDigit(w[0])
    ensures WellFormedChecks(ParseArg0(p, p.nr[call], w))
    ensures ChecksHold(ParseArg0(p, p.nr[call], w), d) <==>
            d.args[0] % 0x1_0000_0000 == if EqNoCase(w, "unix") then 1 else if EqNoCase(w, "ip") then 2
                                         else if EqNoCase(w, "ip6") then 10 else if EqNoCase(w, "bt") then 31
                                         else if EqNoCase(w, "packet") then 17 else 0xFFFF_FFFF
  {
    hide EqNoCase, ChecksHold, OneNumberEach, IsCall;
    CallIs(p, call, "socketcall");
    CallIs(p, call, "socket");
    CallIs(p, call, "socketpair");
    AnyValue(0, LookupSocketFamily(w), d);
  }

  lemma AnyValue(pos: nat, value: int, d: syscall)
    requires pos < 6
    ensures WellFormedChecks([Eq(pos, value)])
    ensures ChecksHold([Eq(pos, value)], d) <==> d.args[pos] % 0x1_0000_0000 == value % 0x1_0000_0000
  {
    assert [Eq(pos, value)][0] == Eq(pos, value);
  }

  /** socketcall: which of the socket calls, in the first argument. */
  lemma SocketcallWords(p: Kernel, w: string, d: syscall)
    requires OneNumberEach(p) && "socketcall" in p.nr && w != "" && !IsDigit(w[0])
    ensures WellFormedChecks(ParseArg0(p, p.nr["socketcall"], w))
    ensures ChecksHold(ParseArg0(p, p.nr["socketcall"], w), d) <==>
            d.args[0] % 0x1_0000_0000 == if w == "socket" then 1 else if w == "bind" then 2
                                         else if w == "connect" then 3 else if w == "listen" then 4
                                         else if w == "accept" then 5 else if w == "socketpair" then 8
                                         else if w == "accept4" then 18 else 0xFFFF_FFFF
  {
    hide ChecksHold, OneNumberEach, IsCall;
    CallIs(p, "socketcall", "socketcall");
    CallNumber(w);
    AnyValue(0, SocketCallGetID(w), d);
    hide SocketCallGetID;
  }

  lemma CallNumber(w: string)
    ensures SocketCallGetID(w) == if w == "socket" then 1 else if w == "bind" then 2
                                  else if w == "connect" then 3 else if w == "listen" then 4
                                  else if w == "accept" then 5 else if w == "socketpair" then 8
                                  else if w == "accept4" then 18 else -1
  {
  }

  /** A number is compared with the first argument, and one behind it with the third. */
  lemma NumberWords(p: Kernel, call: string, n: nat, m: nat, d: syscall)
    requires call in p.nr && n < 0x8000_0000 && m < 0x8000_0000
    ensures ParseArg0(p, p.nr[call], FormatInt(n)) == [Eq(0, n)] && ParseArg1(FormatInt(m)) == [Eq(2, m)]
    ensures ChecksHold([Eq(0, n)] + [Eq(2, m)], d)
        <==> d.args[0] % 0x1_0000_0000 == n && d.args[2] % 0x1_0000_0000 == m
  {
    hide ChecksHold, Strtol;
    DigitsAreDigits(n);
    DigitsAreDigits(m);
    StrtolOfFormat(n, "");
    StrtolOfFormat(m, "");
    assert FormatInt(n) + "" == FormatInt(n) && FormatInt(m) + "" == FormatInt(m);
    AnyValue(0, n, d);
    AnyValue(2, m, d);
    BothHold([Eq(0, n)], [Eq(2, m)], d);
  }

  // ---------------------------------------------------------------- lists of names

  lemma BareHits(p: Kernel, t: string, call: string, d: syscall)
    requires '(' !in t
    ensures Hits(p, t, call, d) <==> t == call
  {
    hide BaseName, ParseChecks;
    NoArgument(p, t);
    NoCheck(d);
  }

  /** A call with a word is never taken for another call. */
  lemma SpelledHitsOwn(p: Kernel, t: string, c: string, w: string, call: string, d: syscall)
    requires '(' !in c && Argument(w) && call in p.nr && t == Spelled(c, w)
    ensures WellFormedChecks(ParseArg0(p, p.nr[call], w))
    ensures Hits(p, t, call, d) <==> c == call && ChecksHold(ParseArg0(p, p.nr[call], w), d)
  {
    hide ParseArg0, BaseName, ParseChecks, ChecksHold;
    BaseAndRest(t, c, w + ")");
    ChecksWellFormed(p, call, w);
    if c == call {
      SpelledHits(p, call, w, d);
    }
  }
}
