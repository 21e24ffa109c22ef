/**
 What a seccomp rule list means, apart from how it is compiled: the wrong
 architecture is killed, otherwise the first rule that matches decides, otherwise the
 system call is allowed.
 */
module SeccompRules {
  import opened Bpf
  import opened Bytes

  const RET_KILL: word := 0x0000_0000
  const RET_ERRNO: word := 0x0005_0000
  const RET_LOG: word := 0x7FFC_0000
  const RET_ALLOW: word := 0x7FFF_0000
  const EPERM: int := 1

  datatype Action = Kill | Deny | Log | Allow

  /** The action as the SECCOMP_RET_ code that a rule is compiled with. */
  function ActionCode(a: Action): word {
    match a
    case Kill => RET_KILL
    case Deny => RET_ERRNO
    case Log => RET_LOG
    case Allow => RET_ALLOW
  }

  /** What the filter hands the kernel: a denial carries EPERM in its low 16 bits. */
  function Verdict(a: Action): word {
    if a.Deny? then RET_ERRNO + EPERM else ActionCode(a)
  }

  predicate Blocks(v: word) {
    v == Verdict(Kill) || v == Verdict(Deny)
  }

  /** A test on the low 32 bits of one argument: some bit of the mask is set, or the value is equal. */
  datatype Check = Bit(pos: nat, mask: int) | Eq(pos: nat, value: int)

  datatype Rule = Rule(nr: int, checks: seq<Check>, action: Action)

  predicate CheckHolds(c: Check, d: syscall)
    requires c.pos < 6
  {
    match c
    case Bit(pos, mask) => AnyBit(Low(d.args[pos]), U32(mask))
    case Eq(pos, value) => Low(d.args[pos]) == U32(value)
  }

  predicate WellFormedChecks(cs: seq<Check>) {
    forall i :: 0 <= i < |cs| ==> cs[i].pos < 6
  }

  predicate WellFormed(rules: seq<Rule>) {
    forall i :: 0 <= i < |rules| ==> WellFormedChecks(rules[i].checks)
  }

  predicate ChecksHold(cs: seq<Check>, d: syscall)
    requires WellFormedChecks(cs)
  {
    forall i :: 0 <= i < |cs| ==> CheckHolds(cs[i], d)
  }

  predicate Matches(r: Rule, d: syscall)
    requires WellFormedChecks(r.checks)
  {
    d.nr == U32(r.nr) && ChecksHold(r.checks, d)
  }

  /** The first matching rule decides; no match allows. */
  function FirstMatch(rules: seq<Rule>, d: syscall): Action
    requires WellFormed(rules)
  {
    if rules == [] then Allow
    else if Matches(rules[0], d) then rules[0].action
    else FirstMatch(rules[1..], d)
  }

  function Decide(arch: word, rules: seq<Rule>, d: syscall): word
    requires WellFormed(rules)
  {
    if d.arch != arch then Verdict(Kill) else Verdict(FirstMatch(rules, d))
  }

  // ---------------------------------------------------- order and repetition inside a directive

  predicate SomeMatch(rules: seq<Rule>, d: syscall)
    requires WellFormed(rules)
  {
    exists i :: 0 <= i < |rules| && Matches(rules[i], d)
  }

  predicate AllActions(rules: seq<Rule>, a: Action) {
    forall i :: 0 <= i < |rules| ==> rules[i].action == a
  }

  lemma {:induction false} FirstMatchSplit(r1: seq<Rule>, r2: seq<Rule>, d: syscall)
    requires WellFormed(r1) && WellFormed(r2)
    ensures WellFormed(r1 + r2)
    ensures FirstMatch(r1 + r2, d) == if SomeMatch(r1, d) then FirstMatch(r1, d) else FirstMatch(r2, d)
  {
    if r1 == [] {
      assert r1 + r2 == r2;
    } else {
      FirstMatchSplit(r1[1..], r2, d);
      assert (r1 + r2)[1..] == r1[1..] + r2;
      assert (r1 + r2)[0] == r1[0];
      if SomeMatch(r1[1..], d) {
        var i :| 0 <= i < |r1[1..]| && Matches(r1[1..][i], d);
        assert Matches(r1[i + 1], d);
      }
      if !Matches(r1[0], d) && SomeMatch(r1, d) {
        var i :| 0 <= i < |r1| && Matches(r1[i], d);
        assert Matches(r1[1..][i - 1], d);
      }
    }
  }

  lemma {:induction false} FirstMatchUniform(rules: seq<Rule>, a: Action, d: syscall)
    requires WellFormed(rules) && AllActions(rules, a) && SomeMatch(rules, d)
    ensures FirstMatch(rules, d) == a
  {
    if !Matches(rules[0], d) {
      var i :| 0 <= i < |rules| && Matches(rules[i], d);
      assert Matches(rules[1..][i - 1], d);
      FirstMatchUniform(rules[1..], a, d);
    }
  }

  /**
   Within one directive every rule has the same action, so only the set of its rules counts:
   they may be reordered, repeated or thinned out without changing any decision.
   */
  lemma DirectiveOrderIsFree(pre: seq<Rule>, r1: seq<Rule>, r2: seq<Rule>, post: seq<Rule>, a: Action, d: syscall)
    requires WellFormed(pre) && WellFormed(r1) && WellFormed(r2) && WellFormed(post)
    requires AllActions(r1, a) && AllActions(r2, a)
    requires forall r :: r in r1 <==> r in r2
    ensures WellFormed(pre + (r1 + post)) && WellFormed(pre + (r2 + post))
    ensures FirstMatch(pre + (r1 + post), d) == FirstMatch(pre + (r2 + post), d)
  {
    FirstMatchSplit(r1, post, d);
    FirstMatchSplit(r2, post, d);
    FirstMatchSplit(pre, r1 + post, d);
    FirstMatchSplit(pre, r2 + post, d);
    SameSetSameMatch(r1, r2, d);
    SameSetSameMatch(r2, r1, d);
    if SomeMatch(r1, d) {
      FirstMatchUniform(r1, a, d);
      FirstMatchUniform(r2, a, d);
    }
  }

  lemma SameSetSameMatch(r1: seq<Rule>, r2: seq<Rule>, d: syscall)
    requires WellFormed(r1) && WellFormed(r2)
    requires forall r :: r in r1 ==> r in r2
    ensures SomeMatch(r1, d) ==> SomeMatch(r2, d)
  {
    if SomeMatch(r1, d) {
      var i :| 0 <= i < |r1| && Matches(r1[i], d);
      assert r1[i] in r2;
    }
  }

  // ---------------------------------------------------- adding rules in front

  /** Rules that may let a call through only when the rules behind them would not block it. */
  ghost predicate OnlyTightens(front: seq<Rule>, back: seq<Rule>)
    requires WellFormed(front) && WellFormed(back)
  {
    forall i :: 0 <= i < |front| ==>
      || front[i].action.Kill?
      || front[i].action.Deny?
      || forall j :: 0 <= j < |back| ==> U32(back[j].nr) != U32(front[i].nr)
  }

  lemma {:induction false} NumberUnused(nr: int, rules: seq<Rule>, d: syscall)
    requires WellFormed(rules) && d.nr == U32(nr)
    requires forall j :: 0 <= j < |rules| ==> U32(rules[j].nr) != U32(nr)
    ensures FirstMatch(rules, d) == Allow
  {
    if rules != [] {
      NumberUnused(nr, rules[1..], d);
    }
  }

  /** Such rules in front of a list never unblock what the list blocks. */
  lemma {:induction false} TighteningKeepsBlocks(arch: word, front: seq<Rule>, back: seq<Rule>, d: syscall)
    requires WellFormed(front) && WellFormed(back) && OnlyTightens(front, back)
    ensures WellFormed(front + back)
    ensures Blocks(Decide(arch, back, d)) ==> Blocks(Decide(arch, front + back, d))
  {
    if front == [] {
      assert front + back == back;
    } else {
      TighteningKeepsBlocks(arch, front[1..], back, d);
      assert (front + back)[1..] == front[1..] + back;
      assert (front + back)[0] == front[0];
      if Matches(front[0], d) && !front[0].action.Kill? && !front[0].action.Deny? {
        NumberUnused(front[0].nr, back, d);
      }
    }
  }
}
