/**
 When a higher level is less severe than a lower one. The levels never unblock a call, but a level may deny
 what one below it kills. Which calls that happens to is stated exactly, for every kernel.
 */
module SeccompSeverity {
  import opened Bpf
  import opened Wrappers
  import opened Bytes
  import opened SeccompRules
  import opened SeccompGroups
  import opened SeccompExpand
  import opened SeccompNames
  import opened SeccompFilter
  import opened SeccompLevels
  import opened SeccompFamilies
  import opened SeccompInstalled
  import opened SeccompMonotone
  import opened Text

  // ---------------------------------------------------------------- what becomes of a call

  /** What the rules of a level decide on a call of the right architecture. */
  function Fate(p: Kernel, rank: nat, d: syscall): Action
    requires rank <= 10
  {
    RulesWellFormed(p, Pairs(LevelText(rank)));
    FirstMatch(LevelRules(p, rank), d)
  }

  lemma FateDecides(p: Kernel, rank: nat, d: syscall, acc: word)
    requires rank <= 10 && d.arch == p.arch
    ensures LevelVerdict(p, rank, d, acc) == Some(Verdict(Fate(p, rank, d)))
  {
    hide LevelVerdict, LevelRules, FirstMatch, Verdict;
    LevelDecides(p, rank, d, acc);
  }

  lemma FateStep(p: Kernel, rank: nat, d: syscall)
    requires 1 <= rank <= 10
    ensures WellFormed(OrdersRules(p, OwnOrders(rank)))
    ensures Fate(p, rank, d) == if SomeMatch(OrdersRules(p, OwnOrders(rank)), d)
                                then FirstMatch(OrdersRules(p, OwnOrders(rank)), d) else Fate(p, rank - 1, d)
  {
    RulesWellFormed(p, DirectivesOf(OwnOrders(rank)));
    RulesWellFormed(p, Pairs(LevelText(rank - 1)));
    hide OrdersRules, OwnOrders, FirstMatch, SomeMatch;
    LevelRulesStep(p, rank);
    hide LevelRules;
    FirstMatchSplit(OrdersRules(p, OwnOrders(rank)), LevelRules(p, rank - 1), d);
  }

  lemma FateOfNothing(p: Kernel, d: syscall)
    ensures Fate(p, 0, d) == Allow
  {
    NoLevelRules(p);
  }

  /** The rule that decides a call, if some rule matches. */
  lemma {:induction false} Decider(rules: seq<Rule>, d: syscall) returns (r: Rule)
    requires WellFormed(rules) && SomeMatch(rules, d)
    ensures r in rules && d.nr == U32(r.nr) && r.action == FirstMatch(rules, d)
    decreases |rules|
  {
    r := rules[0];
    if !Matches(r, d) {
      var i :| 0 <= i < |rules| && Matches(rules[i], d);
      assert Matches(rules[1..][i - 1], d);
      r := Decider(rules[1..], d);
    }
  }

  lemma OwnName(p: Kernel, rank: nat, d: syscall) returns (b: string)
    requires 1 <= rank <= 10 && WellFormed(OrdersRules(p, OwnOrders(rank)))
    requires SomeMatch(OrdersRules(p, OwnOrders(rank)), d)
    ensures Named(p, FirstMatch(OrdersRules(p, OwnOrders(rank)), d) == Kill, rank, d.nr, b)
  {
    hide OrdersRules, OwnOrders, FirstMatch, SomeMatch, Named;
    var r := Decider(OrdersRules(p, OwnOrders(rank)), d);
    var i;
    i, b := OwnOrigin(p, rank, r);
  }

  lemma KillingRule(p: Kernel, rank: nat, d: syscall) returns (r: Rule)
    requires rank <= 10 && Fate(p, rank, d) == Kill
    ensures r in LevelRules(p, rank) && U32(r.nr) == d.nr && r.action == Kill
  {
    hide RulesOf, Pairs, LevelText, FirstMatch, SomeMatch;
    RulesWellFormed(p, Pairs(LevelText(rank)));
    MatchToBlock(LevelRules(p, rank), d);
    r := Decider(LevelRules(p, rank), d);
  }

  /** A call that is killed has a name that a level up to this one kills. */
  lemma KilledName(p: Kernel, rank: nat, d: syscall) returns (j: nat, b: string)
    requires rank <= 10 && Fate(p, rank, d) == Kill
    ensures 1 <= j <= rank && Named(p, true, j, d.nr, b)
  {
    hide Fate, LevelRules, Named;
    var r := KillingRule(p, rank, d);
    j, b := LevelOrigin(p, rank, r);
  }

  lemma {:induction false} MatchToBlock(rules: seq<Rule>, d: syscall)
    requires WellFormed(rules)
    ensures FirstMatch(rules, d) != Allow ==> SomeMatch(rules, d)
  {
    if rules != [] {
      MatchToBlock(rules[1..], d);
      assert Matches(rules[0], d) ==> SomeMatch(rules, d);
      if SomeMatch(rules[1..], d) {
        var i :| 0 <= i < |rules[1..]| && Matches(rules[1..][i], d);
        assert Matches(rules[i + 1], d);
      }
    }
  }

  predicate IsLinkNumber(p: Kernel, nr: word) {
    || IsNumberOf(p, nr, "link") || IsNumberOf(p, nr, "linkat")
    || IsNumberOf(p, nr, "symlink") || IsNumberOf(p, nr, "symlinkat")
  }

  /** The two ways to lose severity on the way up from one level to another. */
  predicate Softened(p: Kernel, lo: nat, hi: nat, nr: word) {
    hi >= 9 && ((lo == 8 && IsLinkNumber(p, nr)) || (3 <= lo <= 8 && IsNumberOf(p, nr, "mknod")))
  }

  lemma SoftAndHard(p: Kernel, j: nat, lo: nat, hi: nat, nr: word, b: string)
    requires Named(p, true, j, nr, b) && Named(p, false, hi, nr, b) && j <= lo < hi <= 10
    ensures lo <= 8 ==> Softened(p, lo, hi, nr)
    ensures hi == 9
  {
    hide FamilyOf, IsNumberOf;
    SoftAboveHard(j, hi, FamilyOf(b));
  }

  lemma {:induction false} OnlySoftened(p: Kernel, lo: nat, hi: nat, d: syscall)
    requires OneNumberEach(p) && lo <= hi <= 10 && Fate(p, lo, d) == Kill && Fate(p, hi, d) != Kill
    ensures Softened(p, lo, hi, d.nr)
    decreases hi
  {
    hide Fate, OrdersRules, OwnOrders, Named, FirstMatch, SomeMatch, OneNumberEach, IsNumberOf, IsLinkNumber;
    FateStep(p, hi, d);
    if Fate(p, hi - 1, d) != Kill {
      OnlySoftened(p, lo, hi - 1, d);
    } else {
      var j, b := KilledName(p, lo, d);
      var c := OwnName(p, hi, d);
      NamedIsNumber(p, true, j, d.nr, b);
      NamedIsNumber(p, false, hi, d.nr, c);
      SameName(p, d.nr, b, c);
      SoftAndHard(p, j, lo, hi, d.nr, b);
    }
  }

  // ---------------------------------------------------------------- the calls that lose severity

  /** A directive that comes down to a bare call name has a rule for that call. */
  lemma NameMatches(p: Kernel, o: Order, name: string, d: syscall)
    requires SelectAction(o.directive).Selected? && SolidAll(o.names)
    requires '(' !in name && IsNumberOf(p, d.nr, name) && name in ExpandNames(ExpandNames(o.names))
    ensures WellFormed(DirectiveRules(p, DirectiveOf(o))) && SomeMatch(DirectiveRules(p, DirectiveOf(o)), d)
  {
    hide Tokens, ListRules, Expand, Join, SolidAll, ExpandNames, NameRules;
    SolidAllClean(o.names);
    TokensOfJoin(o.names, ';');
    var list, a := Join(o.names, ';'), SelectAction(o.directive).action;
    var rules := ListRules(p, Tokens(Expand(list), ';'), a);
    ListRulesParsed(p, Tokens(Expand(list), ';'), a);
    ExpandNamesOf(list, name);
    var r := Rule(p.nr[name], [], a);
    BareName(p, name, a);
    InListRules(p, Tokens(Expand(list), ';'), a, r);
    var i :| 0 <= i < |rules| && rules[i] == r;
    assert Matches(rules[i], d);
  }

  lemma BareName(p: Kernel, name: string, a: Action)
    requires '(' !in name && name in p.nr
    ensures NameRules(p, name, a) == [Rule(p.nr[name], [], a)]
  {
    hide ParseArg0, ParseArg1, IndexOf;
    IndexOfIsFirst(name, '(');
    assert GetToken(name, '(') == Token(name, "");
    assert NextArg("") == NoToken;
    assert ParseChecks(p, name) == [];
  }

  lemma TwoRounds(names: seq<string>, n: string, m: string, t: string)
    requires n in names && m in Members(n) && t in Members(m)
    ensures t in ExpandNames(ExpandNames(names))
  {
    hide Members, ExpandNames;
    InExpandNames(names, m);
    InExpandNames(ExpandNames(names), t);
  }

  /** The name that the tables list for a call. */
  function Root(t: string): string {
    if t == "link" || t == "linkat" then "link" else if t == "mknod" then t else "symlink"
  }

  lemma RootTables()
    ensures CallTable("link") == ["link", "linkat"] && CallTable("symlink") == ["symlink", "symlinkat"]
    ensures CallTable("mknod") == ["mknod"]
  {
  }

  lemma RootMembers(t: string)
    requires IsLink(t) || t == "mknod"
    ensures t in Members(Root(t)) && Root(t) in Members(Root(t))
  {
    hide CallTable, IsGroupName;
    RootTables();
    NotAGroup(Root(t));
    var names := CallTable(Root(t));
    assert names[0] == Root(t);
    assert t == Root(t) || names[1] == t;
  }

  lemma FilesReach(t: string)
    requires IsLink(t) || t == "mknod"
    ensures t in ExpandNames(ExpandNames(["group:filesystem"]))
  {
    FileGroups();
    var names := GroupTable("group:filesystem");
    assert names[0] == "link" && names[1] == "symlink" && names[6] == "mknod";
    assert Root(t) in Members("group:filesystem");
    hide Members, ExpandNames;
    assert ["group:filesystem"][0] == "group:filesystem";
    RootMembers(t);
    TwoRounds(["group:filesystem"], "group:filesystem", Root(t), t);
  }

  lemma ParanoidReaches(t: string)
    requires IsLink(t)
    ensures t in ExpandNames(ExpandNames(["group:kill", "link", "symlink", "group:exec"]))
  {
    var names := ["group:kill", "link", "symlink", "group:exec"];
    assert names[1] == "link" && names[2] == "symlink";
    assert Root(t) in names;
    hide Members, ExpandNames, IsLink;
    RootMembers(t);
    TwoRounds(names, Root(t), Root(t), t);
  }

  lemma AdminReaches()
    ensures "mknod" in ExpandNames(ExpandNames(["group:sysadmin", "bpf", "capset"]))
  {
    AdminGroups();
    assert GroupTable("group:sysadmin")[10] == "mknod";
    assert "mknod" in Members("group:sysadmin");
    var names := ["group:sysadmin", "bpf", "capset"];
    assert names[0] == "group:sysadmin";
    assert Root("mknod") == "mknod";
    hide Members, ExpandNames;
    RootMembers("mknod");
    TwoRounds(names, "group:sysadmin", "mknod", "mknod");
  }

  /** A level with a rule for a call kills it exactly when the call is of a family that the level kills. */
  lemma OwnRuleKills(p: Kernel, rank: nat, name: string, d: syscall)
    requires OneNumberEach(p) && 1 <= rank <= 10 && IsNumberOf(p, d.nr, name)
    requires WellFormed(OrdersRules(p, OwnOrders(rank))) && SomeMatch(OrdersRules(p, OwnOrders(rank)), d)
    ensures Fate(p, rank, d) == Kill ==> Hard(rank, FamilyOf(name))
    ensures Fate(p, rank, d) != Kill ==> Soft(rank, FamilyOf(name))
  {
    hide Fate, OrdersRules, OwnOrders, FirstMatch, SomeMatch, OneNumberEach, IsNumberOf, FamilyOf, Hard, Soft;
    FateStep(p, rank, d);
    var b := OwnName(p, rank, d);
    SameName(p, d.nr, name, b);
  }

  /** A level of one directive has a rule for every bare call name that the directive comes down to. */
  lemma MatchInOnly(p: Kernel, o: Order, name: string, d: syscall)
    requires o.directive == "syscall_kill" || o.directive == "syscall_deny"
    requires SolidAll(o.names)
    requires '(' !in name && IsNumberOf(p, d.nr, name) && name in ExpandNames(ExpandNames(o.names))
    ensures WellFormed(OrdersRules(p, [o])) && SomeMatch(OrdersRules(p, [o]), d)
  {
    hide OrdersRules, DirectiveRules, DirectiveOf, SolidAll, ExpandNames, IsNumberOf;
    NameMatches(p, o, name, d);
    OneOrder(p, o);
  }

  lemma ParanoidIs()
    ensures OwnOrders(8) == [Order("syscall_kill", ["group:kill", "link", "symlink", "group:exec"])]
    ensures Hard(8, Links) && !Soft(8, Links)
  {
  }

  lemma ParanoidKillsLinks(p: Kernel, name: string, d: syscall)
    requires OneNumberEach(p) && IsLink(name) && IsNumberOf(p, d.nr, name)
    ensures Fate(p, 8, d) == Kill
  {
    hide *;
    ParanoidIs();
    SolidStores();
    PlainNames(name);
    ParanoidReaches(name);
    LinkFamilies(name);
    MatchInOnly(p, OwnOrders(8)[0], name, d);
    OwnRuleKills(p, 8, name, d);
  }

  lemma LinkFamilies(name: string)
    ensures IsLink(name) ==> FamilyOf(name) == Links
    ensures name == "mknod" ==> FamilyOf(name) == Nodes
  {
    hide FamilyOf;
    FileFamily();
    OpenNames();
  }

  lemma WorkerIs()
    ensures OwnOrders(9) == [Order("syscall_deny", ["group:filesystem"])]
    ensures !Hard(9, Links) && !Hard(9, Nodes)
  {
  }

  lemma WorkerDeniesFiles(p: Kernel, name: string, d: syscall)
    requires OneNumberEach(p) && (IsLink(name) || name == "mknod") && IsNumberOf(p, d.nr, name)
    ensures Fate(p, 9, d) != Kill
  {
    hide *;
    WorkerIs();
    SolidStores();
    PlainNames(name);
    FilesReach(name);
    LinkFamilies(name);
    MatchInOnly(p, OwnOrders(9)[0], name, d);
    OwnRuleKills(p, 9, name, d);
  }

  lemma UserIs()
    ensures OwnOrders(3) == [Order("syscall_deny", ["chown", "chmod(exec)"]),
                             Order("syscall_kill", ["group:sysadmin", "bpf", "capset"])]
    ensures Hard(3, Nodes) && !Soft(3, Nodes)
  {
  }

  lemma UserKillsMknod(p: Kernel, d: syscall)
    requires OneNumberEach(p) && IsNumberOf(p, d.nr, "mknod")
    ensures Fate(p, 3, d) == Kill
  {
    hide *;
    UserIs();
    SolidUsers();
    PlainNames("mknod");
    AdminReaches();
    LinkFamilies("mknod");
    MatchInSecond(p, OwnOrders(3)[0], OwnOrders(3)[1], "mknod", d);
    OwnRuleKills(p, 3, "mknod", d);
  }

  lemma MatchInSecond(p: Kernel, o1: Order, o2: Order, name: string, d: syscall)
    requires o2.directive == "syscall_kill" && SolidAll(o2.names)
    requires '(' !in name && IsNumberOf(p, d.nr, name) && name in ExpandNames(ExpandNames(o2.names))
    ensures WellFormed(OrdersRules(p, [o1, o2])) && SomeMatch(OrdersRules(p, [o1, o2]), d)
  {
    RulesWellFormed(p, DirectivesOf([o1, o2]));
    assert WellFormed(OrdersRules(p, [o1, o2]));
    hide OrdersRules, DirectiveRules, DirectiveOf, SolidAll, ExpandNames, IsNumberOf;
    NameMatches(p, o2, name, d);
    TwoOrders(p, o1, o2);
    MatchBehind(DirectiveRules(p, DirectiveOf(o1)), DirectiveRules(p, DirectiveOf(o2)), d);
  }

  lemma MatchBehind(r1: seq<Rule>, r2: seq<Rule>, d: syscall)
    requires WellFormed(r1 + r2) && WellFormed(r2) && SomeMatch(r2, d)
    ensures SomeMatch(r1 + r2, d)
  {
    var i :| 0 <= i < |r2| && Matches(r2[i], d);
    assert (r1 + r2)[|r1| + i] == r2[i];
  }

  /** The level above "worker" leaves these calls alone. */
  lemma MemWorkerPasses(p: Kernel, name: string, d: syscall)
    requires OneNumberEach(p) && (IsLink(name) || name == "mknod") && IsNumberOf(p, d.nr, name)
    ensures Fate(p, 10, d) != Kill
  {
    hide Fate, OrdersRules, OwnOrders, FirstMatch, SomeMatch, OneNumberEach, FamilyOf, IsLink;
    WorkerDeniesFiles(p, name, d);
    FateStep(p, 10, d);
    LinkFamilies(name);
    if SomeMatch(OrdersRules(p, OwnOrders(10)), d) {
      OwnRuleKills(p, 10, name, d);
    }
  }

  lemma SoftenedIs(p: Kernel, lo: nat, hi: nat, d: syscall)
    requires OneNumberEach(p) && lo <= hi <= 10 && Softened(p, lo, hi, d.nr)
    ensures Fate(p, lo, d) == Kill && Fate(p, hi, d) != Kill
  {
    hide Fate, OneNumberEach, IsNumberOf;
    if lo == 8 && IsLinkNumber(p, d.nr) {
      var name :| IsLink(name) && IsNumberOf(p, d.nr, name);
      hide IsLink;
      ParanoidKillsLinks(p, name, d);
      WorkerDeniesFiles(p, name, d);
      MemWorkerPasses(p, name, d);
    } else {
      UserKillsMknod(p, d);
      WorkerDeniesFiles(p, "mknod", d);
      MemWorkerPasses(p, "mknod", d);
      if Fate(p, lo, d) != Kill {
        OnlySoftened(p, 3, lo, d);
      }
    }
  }

  /**
   Severity is lost in two ways only. On every kernel and for every call: one level kills it and a higher level
   does not exactly when the higher one is "worker" or "memworker", and either the lower one is "paranoid" and
   the call makes a link, or the lower one is "user" to "paranoid" and the call is mknod.
   */
  lemma SeverityLostIff(p: Kernel, lo: nat, hi: nat, d: syscall, acc: word)
    requires OneNumberEach(p) && lo <= hi <= 10 && d.arch == p.arch
    ensures LevelVerdict(p, lo, d, acc) == Some(Verdict(Kill)) && LevelVerdict(p, hi, d, acc) != Some(Verdict(Kill))
        <==> hi >= 9 && ((lo == 8 && IsLinkNumber(p, d.nr)) || (3 <= lo <= 8 && IsNumberOf(p, d.nr, "mknod")))
  {
    hide LevelVerdict, Fate, OneNumberEach, IsNumberOf, IsLinkNumber;
    FateDecides(p, lo, d, acc);
    FateDecides(p, hi, d, acc);
    if Fate(p, lo, d) == Kill && Fate(p, hi, d) != Kill {
      OnlySoftened(p, lo, hi, d);
    }
    if Softened(p, lo, hi, d.nr) {
      SoftenedIs(p, lo, hi, d);
    }
  }

  /**
   A call that makes a link shows it: "paranoid" kills the process, and the higher "worker" only denies the call.
   */
  lemma SeverityIsNotMonotone(p: Kernel, paranoid: string, worker: string, d: syscall, acc: word)
    requires OneNumberEach(p) && SettingOf(paranoid) == Paranoid && SettingOf(worker) == Worker
    requires IsNumberOf(p, d.nr, "link") && d.arch == p.arch
    ensures Run(Handed(p, SetupText(paranoid)), d, 0, acc) == Some(Verdict(Kill))
    ensures Run(Handed(p, SetupText(worker)), d, 0, acc) == Some(Verdict(Deny))
  {
    hide SettingOf, Run, Handed, LevelText, SetupText, OneNumberEach, IsNumberOf;
    LevelWord(paranoid);
    LevelWord(worker);
    SeverityLostIff(p, 8, 9, d, acc);
    LevelsMonotone(p, 8, 9, d, acc);
  }

  // ---------------------------------------------------------------- kernel modules

  predicate IsModuleCall(s: string) {
    s == "init_module" || s == "finit_module" || s == "delete_module" || s == "create_module" || s == "query_module"
  }

  lemma ModuleNames()
    ensures FamilyOf("init_module") == FamilyOf("finit_module") == FamilyOf("delete_module") == Modules
    ensures FamilyOf("create_module") == FamilyOf("query_module") == Modules
  {
  }

  lemma {:induction false} ModulesPass(p: Kernel, rank: nat, name: string, d: syscall)
    requires OneNumberEach(p) && rank <= 10 && FamilyOf(name) == Modules && IsNumberOf(p, d.nr, name)
    ensures Fate(p, rank, d) == Allow
  {
    hide Fate, OrdersRules, OwnOrders, FirstMatch, SomeMatch, OneNumberEach, FamilyOf, IsNumberOf;
    FateOfNothing(p, d);
    if rank > 0 {
      FateStep(p, rank, d);
      ModulesPass(p, rank - 1, name, d);
      if SomeMatch(OrdersRules(p, OwnOrders(rank)), d) {
        OwnRuleKills(p, rank, name, d);
      }
    }
  }

  /**
   The lowest level asks for "group:kern_mods" to be killed, and the group is called "group:kern_mod": no level
   keeps a program from loading or removing kernel modules.
   */
  lemma EveryLevelAllowsModules(p: Kernel, rank: nat, name: string, d: syscall, acc: word)
    requires OneNumberEach(p) && rank <= 10 && d.arch == p.arch
    requires IsModuleCall(name) && IsNumberOf(p, d.nr, name)
    ensures LevelVerdict(p, rank, d, acc) == Some(Verdict(Allow))
  {
    hide LevelVerdict, Fate, OneNumberEach, FamilyOf;
    ModuleNames();
    ModulesPass(p, rank, name, d);
    FateDecides(p, rank, d, acc);
  }
}
