/**
 Levels are monotone: what a level adds in front of the rules below it only tightens them. Every rule is traced back
 to the directive it comes from and to the family of its name, and one that lets calls through is for calls that no
 level below it touches.
 */
module SeccompMonotone {
  import opened Bpf
  import opened Bytes
  import opened SeccompRules
  import opened SeccompGroups
  import opened SeccompExpand
  import opened SeccompNames
  import opened SeccompFilter
  import opened SeccompLevels
  import opened SeccompFamilies
  import opened SeccompInstalled
  import opened Text

  // ---------------------------------------------------------------- which name a rule is for

  /** The number that a kernel gives to a call. */
  predicate IsNumberOf(p: Kernel, nr: word, name: string) {
    name in p.nr && U32(p.nr[name]) == nr
  }

  lemma {:induction false} BaseOf(t: string)
    ensures BaseName(t) <= t && '(' !in BaseName(t)
    ensures |BaseName(t)| < |t| ==> t[|BaseName(t)|] == '('
  {
    IndexOfIsFirst(t, '(');
  }

  /** What is in parentheses behind a name leaves its family as it is. */
  lemma BaseFamily(t: string)
    requires FamilyOf(t) != Modules
    ensures FamilyOf(BaseName(t)) == FamilyOf(t)
  {
    hide BaseName;
    BaseOf(t);
    var b := BaseName(t);
    assert forall i :: 0 <= i < |b| ==> b[i] == t[i];
  }

  lemma BaseOfPlain(t: string)
    requires '(' !in t
    ensures BaseName(t) == t
  {
    hide BaseName;
    BaseOf(t);
  }

  /** A call that the level of a rank kills, or denies or allows. */
  predicate Named(p: Kernel, kill: bool, rank: nat, nr: word, b: string) {
    && IsNumberOf(p, nr, b)
    && (if kill then Hard(rank, FamilyOf(b)) else Soft(rank, FamilyOf(b)))
    && (FamilyOf(b) == Links ==> IsLink(b))
    && (FamilyOf(b) == Nodes ==> b == "mknod")
  }

  lemma FitsNamed(p: Kernel, kill: bool, rank: nat, nr: word, t: string)
    requires Fits(kill, rank, t) && IsNumberOf(p, nr, BaseName(t))
    ensures Named(p, kill, rank, nr, BaseName(t))
  {
    hide BaseName, FamilyOf, IsNumberOf;
    BaseFamily(t);
    if IsLink(t) || t == "mknod" {
      hide IsLink;
      PlainNames(t);
      BaseOfPlain(t);
    }
  }

  lemma PlainNames(t: string)
    requires IsLink(t) || t == "mknod"
    ensures '(' !in t
  {
  }

  lemma SameName(p: Kernel, nr: word, a: string, b: string)
    requires OneNumberEach(p) && IsNumberOf(p, nr, a) && IsNumberOf(p, nr, b)
    ensures a == b
  {
  }

  lemma NamedIsNumber(p: Kernel, kill: bool, rank: nat, nr: word, b: string)
    requires Named(p, kill, rank, nr, b)
    ensures IsNumberOf(p, nr, b)
  {
  }

  // ---------------------------------------------------------------- where a rule comes from

  lemma OrderOrigin(p: Kernel, o: Order, r: Rule) returns (t: string)
    requires SolidAll(o.names) && r in DirectiveRules(p, DirectiveOf(o))
    ensures SelectAction(o.directive) == Selected(r.action)
    ensures t in ExpandNames(ExpandNames(o.names)) && IsNumberOf(p, U32(r.nr), BaseName(t))
  {
    hide Tokens, ListRules, Expand, Join, SolidAll, ExpandNames, NameRules, BaseName;
    var list := Join(o.names, ';');
    var a := SelectAction(o.directive).action;
    SolidAllClean(o.names);
    TokensOfJoin(o.names, ';');
    ListRulesParsed(p, Tokens(Expand(list), ';'), a);
    InListRules(p, Tokens(Expand(list), ';'), a, r);
    t :| t in Tokens(Expand(list), ';') && r in NameRules(p, t, a);
    NoRuleForEmpty(p, a);
    ExpandNamesOf(list, t);
    RuleNumber(p, t, a, r);
  }

  lemma RuleNumber(p: Kernel, t: string, a: Action, r: Rule)
    requires r in NameRules(p, t, a)
    ensures BaseName(t) in p.nr && r.nr == p.nr[BaseName(t)]
  {
  }

  lemma {:induction false} OrdersOrigin(p: Kernel, orders: seq<Order>, r: Rule) returns (i: nat, t: string)
    requires Readable(orders) && r in OrdersRules(p, orders)
    ensures i < |orders| && SelectAction(orders[i].directive) == Selected(r.action)
    ensures t in ExpandNames(ExpandNames(orders[i].names)) && IsNumberOf(p, U32(r.nr), BaseName(t))
    decreases |orders|
  {
    hide DirectiveRules, OrdersRules, DirectiveOf, SolidAll, ExpandNames, BaseName, IsNumberOf, SelectAction;
    NoOrders(p);
    UnfoldOrders(p, orders);
    if r in DirectiveRules(p, DirectiveOf(orders[0])) {
      t := OrderOrigin(p, orders[0], r);
      i := 0;
    } else {
      i, t := OrdersOrigin(p, orders[1..], r);
      i := i + 1;
    }
  }

  /** A rule that a level adds is for a call of a family that the level kills, or else denies or allows. */
  lemma OwnOrigin(p: Kernel, rank: nat, r: Rule) returns (i: nat, b: string)
    requires 1 <= rank <= 10 && r in OrdersRules(p, OwnOrders(rank))
    ensures i < |OwnOrders(rank)| && SelectAction(OwnOrders(rank)[i].directive) == Selected(r.action)
    ensures Named(p, r.action == Kill, rank, U32(r.nr), b)
  {
    hide OrdersRules, OwnOrders, ExpandNames, BaseName, IsNumberOf, Fits, Named, Entry, Readable;
    LevelsReadable(rank);
    var t;
    i, t := OrdersOrigin(p, OwnOrders(rank), r);
    LevelFits(rank, i);
    var o := OwnOrders(rank)[i];
    ReachedFits(o.directive == "syscall_kill", rank, o.names, t);
    FitsNamed(p, o.directive == "syscall_kill", rank, U32(r.nr), t);
    b := BaseName(t);
  }

  lemma {:induction false} LevelOrigin(p: Kernel, rank: nat, r: Rule) returns (j: nat, b: string)
    requires rank <= 10 && r in LevelRules(p, rank)
    ensures 1 <= j <= rank && Named(p, r.action == Kill, j, U32(r.nr), b)
  {
    hide LevelRules, OrdersRules, OwnOrders, Named;
    NoLevelRules(p);
    LevelRulesStep(p, rank);
    if r in OrdersRules(p, OwnOrders(rank)) {
      var i;
      i, b := OwnOrigin(p, rank, r);
      j := rank;
    } else {
      j, b := LevelOrigin(p, rank - 1, r);
    }
  }

  // ---------------------------------------------------------------- levels only tighten

  /** The ioctls that a level allows are calls of a family that no level below it has a rule for. */
  lemma AllowedIsUntouched(p: Kernel, rank: nat, r: Rule, below: Rule)
    requires OneNumberEach(p) && 1 <= rank <= 10
    requires r in OrdersRules(p, OwnOrders(rank)) && below in LevelRules(p, rank - 1)
    requires !r.action.Kill? && !r.action.Deny?
    ensures U32(below.nr) != U32(r.nr)
  {
    hide OrdersRules, OwnOrders, LevelRules, OneNumberEach, Named, FamilyOf;
    var i, b := OwnOrigin(p, rank, r);
    var j, c := LevelOrigin(p, rank - 1, below);
    OrdersWithoutAllow(rank, i);
    NamedFamily(p, false, rank, U32(r.nr), b);
    NamedFamily(p, below.action == Kill, j, U32(below.nr), c);
    if U32(below.nr) == U32(r.nr) {
      SameName(p, U32(r.nr), b, c);
    }
  }

  lemma NamedFamily(p: Kernel, kill: bool, rank: nat, nr: word, b: string)
    requires Named(p, kill, rank, nr, b)
    ensures IsNumberOf(p, nr, b) && if kill then Hard(rank, FamilyOf(b)) else Soft(rank, FamilyOf(b))
  {
  }

  /** What a level adds only tightens what is below it. */
  lemma LevelTightens(p: Kernel, rank: nat)
    requires OneNumberEach(p) && 1 <= rank <= 10
    ensures WellFormed(OrdersRules(p, OwnOrders(rank))) && WellFormed(LevelRules(p, rank - 1))
    ensures OnlyTightens(OrdersRules(p, OwnOrders(rank)), LevelRules(p, rank - 1))
  {
    RulesWellFormed(p, DirectivesOf(OwnOrders(rank)));
    RulesWellFormed(p, Pairs(LevelText(rank - 1)));
    var front, back := OrdersRules(p, OwnOrders(rank)), LevelRules(p, rank - 1);
    hide OrdersRules, OwnOrders, LevelRules, OneNumberEach;
    forall i, j | 0 <= i < |front| && !front[i].action.Kill? && !front[i].action.Deny? && 0 <= j < |back|
      ensures U32(back[j].nr) != U32(front[i].nr)
    {
      AllowedIsUntouched(p, rank, front[i], back[j]);
    }
  }

  lemma NextLevelKeepsBlocks(p: Kernel, rank: nat, d: syscall, acc: word)
    requires OneNumberEach(p) && 1 <= rank <= 10
    ensures Blocked(LevelVerdict(p, rank - 1, d, acc)) ==> Blocked(LevelVerdict(p, rank, d, acc))
  {
    hide LevelVerdict, LevelRules, OrdersRules, OwnOrders, OneNumberEach, Decide;
    LevelDecides(p, rank, d, acc);
    LevelDecides(p, rank - 1, d, acc);
    LevelTightens(p, rank);
    LevelRulesStep(p, rank);
    TighteningKeepsBlocks(p.arch, OrdersRules(p, OwnOrders(rank)), LevelRules(p, rank - 1), d);
  }

  /**
   Levels are monotone: on every kernel and for every system call, what the installed filter of one
   level denies or kills, the installed filter of every higher level denies or kills.
   */
  lemma {:induction false} LevelsMonotone(p: Kernel, lo: nat, hi: nat, d: syscall, acc: word)
    requires OneNumberEach(p) && lo <= hi <= 10
    ensures Blocked(LevelVerdict(p, lo, d, acc)) ==> Blocked(LevelVerdict(p, hi, d, acc))
    decreases hi - lo
  {
    hide LevelVerdict, OneNumberEach;
    if lo < hi {
      NextLevelKeepsBlocks(p, hi, d, acc);
      LevelsMonotone(p, lo, hi - 1, d, acc);
    }
  }

  /** The same for two level words as a user writes them. */
  lemma LevelWordsMonotone(p: Kernel, lower: string, higher: string, d: syscall, acc: word)
    requires OneNumberEach(p)
    requires 1 <= Rank(SettingOf(lower)) <= Rank(SettingOf(higher))
    ensures Blocked(Run(Handed(p, SetupText(lower)), d, 0, acc))
        ==> Blocked(Run(Handed(p, SetupText(higher)), d, 0, acc))
  {
    hide SettingOf, Run, Handed, OneNumberEach, LevelText;
    LevelWord(lower);
    LevelWord(higher);
    LevelsMonotone(p, Rank(SettingOf(lower)), Rank(SettingOf(higher)), d, acc);
  }
}
