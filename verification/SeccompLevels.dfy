/**
 Named security levels. Each level's text is its own directives followed by those of the level below,
 because the source lets one case fall through to the next. The words of a security configuration are read by
 the loop that the source has, and what is written for a level is read back as its directives.
 */
module SeccompLevels {
  import opened Bytes
  import opened SeccompRules
  import opened SeccompArgs
  import opened SeccompCompile
  import opened SeccompNames
  import opened SeccompFilter
  import opened Text

  datatype Setting =
    | Minimal | Basic | User | Guest | Untrusted | Constrained | High | Paranoid | Worker | MemWorker
    | Client | Local | NoNet | KillNet | NoExec | KillExec | NoPid | NoShm | NoMsgq | NoIpc
    | Unmatched

  datatype Flag = NoNewPrivs | ContainerNet | ContainerPid | ContainerIpc

  /** How many levels a setting stands above the ground; 0 for what is not a level. */
  function Rank(s: Setting): (r: nat)
    ensures r <= 10
  {
    match s
    case Minimal => 1
    case Basic => 2
    case User => 3
    case Guest => 4
    case Untrusted => 5
    case Constrained => 6
    case High => 7
    case Paranoid => 8
    case Worker => 9
    case MemWorker => 10
    case _ => 0
  }

  /** MatchTokenFromList over the level names, without regard to case. */
  function SettingOf(token: string): Setting {
    if EqNoCase(token, "minimal") then Minimal
    else if EqNoCase(token, "basic") then Basic
    else if EqNoCase(token, "user") then User
    else if EqNoCase(token, "guest") then Guest
    else if EqNoCase(token, "untrusted") then Untrusted
    else if EqNoCase(token, "constrained") then Constrained
    else if EqNoCase(token, "high") then High
    else if EqNoCase(token, "worker") then Worker
    else if EqNoCase(token, "memworker") then MemWorker
    else if EqNoCase(token, "paranoid") then Paranoid
    else if EqNoCase(token, "client") then Client
    else if EqNoCase(token, "local") then Local
    else if EqNoCase(token, "nonet") then NoNet
    else if EqNoCase(token, "killnet") then KillNet
    else if EqNoCase(token, "noexec") then NoExec
    else if EqNoCase(token, "killexec") then KillExec
    else if EqNoCase(token, "nopid") then NoPid
    else if EqNoCase(token, "noshm") then NoShm
    else if EqNoCase(token, "nomsgq") then NoMsgq
    else if EqNoCase(token, "noipc") then NoIpc
    else Unmatched
  }

  datatype Order = Order(directive: string, names: seq<string>)

  /** The text of a list of directives, a blank after each. */
  function Render(orders: seq<Order>): string {
    if orders == [] then ""
    else orders[0].directive + ("=" + Join(orders[0].names, ';')) + (" " + Render(orders[1..]))
  }

  /** The directives that a level of a given rank adds to those below it. */
  function OwnOrders(rank: nat): seq<Order>
    requires 1 <= rank <= 10
  {
    match rank
    case 10 => [Order("syscall_kill", ["group:open", "group:filesystem:pipe"])]
    case 9 => [Order("syscall_deny", ["group:filesystem"])]
    case 8 => [Order("syscall_kill", ["group:kill", "link", "symlink", "group:exec"])]
    case 7 => [Order("syscall_deny", ["group:kill", "link", "symlink"])]
    case 6 => [Order("syscall_allow", ["ioctl(termget)", "ioctl(termset)"]),
               Order("syscall_kill", ["mprotect(exec)", "mmap(exec)", "ioctl", "group:ptrace", "utimes"])]
    case 5 => [Order("syscall_kill", ["group:chroot", "group:keyring", "group:ns", "acct", "pidfd_open"]),
               Order("syscall_deny", ["utimes"])]
    case 4 => [Order("syscall_deny", ["group:keyring"])]
    case 3 => [Order("syscall_deny", ["chown", "chmod(exec)"]),
               Order("syscall_kill", ["group:sysadmin", "bpf", "capset"])]
    case 2 => [Order("syscall_deny", ["acct", "capset"])]
    case 1 => [Order("syscall_deny", ["ptrace"]),
               Order("syscall_kill",
                     ["group:kexec", "uselib", "userfaultfd", "personality", "perf_event_open", "group:kern_mods",
                      "kexec_load", "get_kernel_syms", "lookup_dcookie", "vm86", "vm86old", "mbind", "move_pages"])]
  }

  /** What falling through from a rank downwards appends. */
  function LevelText(rank: nat): string
    requires rank <= 10
  {
    if rank == 0 then "" else Render(OwnOrders(rank)) + LevelText(rank - 1)
  }

  function ModifierText(s: Setting): string {
    match s
    case Client => "syscall_deny=group:server "
    case Local =>
      "syscall_allow=socket(unix);socketpair(unix);socketcall(socket);socketcall(socketpair) "
      + "syscall_deny=socket;socketpair "
    case NoNet => "syscall_deny=group:net "
    case KillNet => "syscall_kill=group:net "
    case NoExec => "syscall_deny=group:exec "
    case KillExec => "syscall_kill=group:exec "
    case NoShm => "syscall_deny=group:shm"
    case NoMsgq => "syscall_deny=group:msgq"
    case NoIpc => "syscall_deny=group:ipc "
    case _ => ""
  }

  function ModifierFlags(s: Setting): set<Flag> {
    match s
    case Local => {NoNewPrivs, ContainerNet}
    case NoNet => {NoNewPrivs, ContainerNet}
    case KillNet => {NoNewPrivs, ContainerNet}
    case NoPid => {NoNewPrivs, ContainerPid}
    case NoIpc => {NoNewPrivs, ContainerIpc}
    case _ => {}
  }

  predicate StartsWith(s: string, prefix: string) {
    |prefix| <= |s| && s[..|prefix|] == prefix
  }

  /** Rules that the user supplies pass through as they are. */
  function DirectText(token: string): string {
    if SettingOf(token) != Unmatched && SettingOf(token) != NoExec then ""
    else if StartsWith(token, "syscall_allow=") || StartsWith(token, "syscall_kill=")
            || StartsWith(token, "syscall_deny=")
      then token + " "
    else ""
  }

  /** What one word of a security configuration contributes to the rule text. */
  function WordText(token: string): string {
    ModifierText(SettingOf(token)) + LevelText(Rank(SettingOf(token))) + DirectText(token)
  }

  function ConfigText(tokens: seq<string>): string {
    if tokens == [] then "" else WordText(tokens[0]) + ConfigText(tokens[1..])
  }

  function ConfigFlags(tokens: seq<string>): set<Flag> {
    if tokens == [] then {} else ModifierFlags(SettingOf(tokens[0])) + ConfigFlags(tokens[1..])
  }

  /** One case label: it runs when the switch was entered at it or above it. */
  method CaseLabel(entered: nat, label_: nat, text: string) returns (r: string)
    requires entered <= 10 && 1 <= label_ <= 10
    ensures Pending(r, entered, label_ - 1) == Pending(text, entered, label_)
  {
    hide Render, OwnOrders;
    r := if entered >= label_ then text + Render(OwnOrders(label_)) else text;
  }

  function Min(a: nat, b: nat): nat { if a < b then a else b }

  /** The text so far and what the labels from one on will still append. */
  function Pending(text: string, entered: nat, from: nat): string
    requires entered <= 10
  {
    text + LevelText(Min(entered, from))
  }

  /** The fall-through: from the case that matches, every case below runs too. */
  method FallThrough(val: Setting) returns (text: string)
    ensures text == LevelText(Rank(val))
  {
    hide Pending, LevelText, Rank;
    var entered := Rank(val);
    text := CaseLabel(entered, 10, "");
    text := CaseLabel(entered, 9, text);
    text := CaseLabel(entered, 8, text);
    text := CaseLabel(entered, 7, text);
    text := CaseLabel(entered, 6, text);
    text := CaseLabel(entered, 5, text);
    text := CaseLabel(entered, 4, text);
    text := CaseLabel(entered, 3, text);
    text := CaseLabel(entered, 2, text);
    text := CaseLabel(entered, 1, text);
    PendingEnds(text, entered);
  }

  lemma PendingEnds(text: string, entered: nat)
    requires entered <= 10
    ensures Pending(text, entered, 0) == text
    ensures Pending("", entered, 10) == LevelText(entered)
  {
  }

  /** The words of a security configuration, between blanks and plus signs. */
  function SecurityWords(config: string): seq<string>
    decreases |config|
  {
    match NextOfTwo(config, ' ', '+')
    case NoToken => []
    case Token(word, rest) => [word] + SecurityWords(rest)
  }

  /** What a security configuration adds to the rule text. */
  function SetupText(config: string): string { ConfigText(SecurityWords(config)) }

  /** ProcessParseSecurity */
  method ParseSecurity(config: string) returns (setup: string, flags: set<Flag>)
    ensures setup == SetupText(config)
    ensures flags == ConfigFlags(SecurityWords(config)) + if config != "" then {NoNewPrivs} else {}
  {
    hide WordText, ModifierText, ModifierFlags, DirectText, SettingOf, LevelText, Rank, NextOfTwo;
    setup := "";
    flags := if config != "" then {NoNewPrivs} else {};
    ghost var base, ahead := flags, config;
    var t := NextOfTwo(config, ' ', '+');
    while t.Token?
      invariant t == NextOfTwo(ahead, ' ', '+')
      invariant setup + SetupText(ahead) == SetupText(config)
      invariant flags + ConfigFlags(SecurityWords(ahead)) == ConfigFlags(SecurityWords(config)) + base
      decreases |ahead|
    {
      var val := SettingOf(t.text);
      var levels := FallThrough(val);
      WordTextIs(t.text, levels);
      FirstWord(ahead);
      setup := setup + (ModifierText(val) + levels + DirectText(t.text));
      flags := flags + ModifierFlags(val);
      ahead := t.rest;
      t := NextOfTwo(t.rest, ' ', '+');
    }
  }

  lemma FirstWord(config: string)
    requires config != ""
    ensures var t := NextOfTwo(config, ' ', '+');
            && SetupText(config) == WordText(t.text) + SetupText(t.rest)
            && ConfigFlags(SecurityWords(config))
            == ModifierFlags(SettingOf(t.text)) + ConfigFlags(SecurityWords(t.rest))
  {
    hide WordText, ModifierFlags, SettingOf, NextOfTwo;
    var t := NextOfTwo(config, ' ', '+');
    assert ([t.text] + SecurityWords(t.rest))[1..] == SecurityWords(t.rest);
  }

  lemma WordTextIs(token: string, levels: string)
    requires levels == LevelText(Rank(SettingOf(token)))
    ensures WordText(token) == ModifierText(SettingOf(token)) + levels + DirectText(token)
  {
    hide ModifierText, DirectText, SettingOf, LevelText, Rank;
  }

  predicate Letters(s: string) {
    s != "" && forall i :: 0 <= i < |s| ==> 'a' <= Lower(s[i]) <= 'z'
  }

  lemma LettersNoCase(a: string, b: string)
    requires Letters(b)
    ensures EqNoCase(a, b) ==> Letters(a)
  {
  }

  lemma LevelNames()
    ensures Letters("minimal") && Letters("basic") && Letters("user") && Letters("guest") && Letters("untrusted")
  {
  }

  lemma HighLevelNames()
    ensures Letters("constrained") && Letters("high") && Letters("worker") && Letters("memworker")
    ensures Letters("paranoid")
  {
  }

  lemma LevelIsLetters(token: string)
    requires Rank(SettingOf(token)) > 0
    ensures Letters(token)
  {
    hide Letters, EqNoCase;
    LevelNames();
    HighLevelNames();
    LettersNoCase(token, "minimal");
    LettersNoCase(token, "basic");
    LettersNoCase(token, "user");
    LettersNoCase(token, "guest");
    LettersNoCase(token, "untrusted");
    LettersNoCase(token, "constrained");
    LettersNoCase(token, "high");
    LettersNoCase(token, "worker");
    LettersNoCase(token, "memworker");
    LettersNoCase(token, "paranoid");
  }

  lemma {:induction false} LettersHaveNoEnd(s: string)
    requires forall i :: 0 <= i < |s| ==> 'a' <= Lower(s[i]) <= 'z'
    ensures SepEnd(s, ' ', '+') == |s|
  {
    if s != "" {
      LettersHaveNoEnd(s[1..]);
    }
  }

  /** A single level word contributes the text of its level and nothing else. */
  lemma LevelWord(token: string)
    requires Rank(SettingOf(token)) > 0
    ensures SetupText(token) == LevelText(Rank(SettingOf(token)))
  {
    LevelIsLetters(token);
    LettersHaveNoEnd(token);
    OnlyWord(token);
    LevelWordText(token);
    hide *;
  }

  lemma OnlyWord(token: string)
    requires token != "" && SepEnd(token, ' ', '+') == |token|
    ensures SetupText(token) == WordText(token) + ""
  {
    hide WordText;
    assert NextOfTwo(token, ' ', '+') == Token(token, "");
    FirstWord(token);
    assert SecurityWords("") == [];
  }

  lemma LevelWordText(token: string)
    requires Rank(SettingOf(token)) > 0
    ensures WordText(token) + "" == LevelText(Rank(SettingOf(token)))
  {
    hide SettingOf, LevelText;
  }

  // ---------------------------------------------------------------- the words of a security configuration

  /** A number that tells the words apart: length, first and third letter. */
  function Mark(s: string): int {
    if |s| < 3 then 0 else |s| * 0x1_0000 + Lower(s[0]) as int * 0x100 + Lower(s[2]) as int
  }

  lemma SameMark(a: string, b: string)
    ensures EqNoCase(a, b) ==> Mark(a) == Mark(b)
  {
  }

  lemma Marks1()
    ensures Mark("minimal") == 486766 && Mark("basic") == 352883 && Mark("user") == 292197
    ensures Mark("guest") == 354149 && Mark("untrusted") == 619892
  {
  }

  lemma Marks2()
    ensures Mark("constrained") == 746350 && Mark("high") == 288871 && Mark("worker") == 423794
    ensures Mark("memworker") == 617837 && Mark("paranoid") == 553074
  {
  }

  lemma Marks3()
    ensures Mark("client") == 418665 && Mark("local") == 355427 && Mark("nonet") == 355950
    ensures Mark("killnet") == 486252 && Mark("noexec") == 421477
  {
  }

  lemma Marks4()
    ensures Mark("killexec") == 551788 && Mark("nopid") == 355952 && Mark("noshm") == 355955
    ensures Mark("nomsgq") == 421485 && Mark("noipc") == 355945
  {
  }

  /** Each word is known in any case, and taken for no other. */
  lemma WordsAreKnown(token: string)
    ensures SettingOf(token) == Minimal <==> EqNoCase(token, "minimal")
    ensures SettingOf(token) == Basic <==> EqNoCase(token, "basic")
    ensures SettingOf(token) == User <==> EqNoCase(token, "user")
    ensures SettingOf(token) == Guest <==> EqNoCase(token, "guest")
    ensures SettingOf(token) == Untrusted <==> EqNoCase(token, "untrusted")
    ensures SettingOf(token) == Constrained <==> EqNoCase(token, "constrained")
    ensures SettingOf(token) == High <==> EqNoCase(token, "high")
    ensures SettingOf(token) == Worker <==> EqNoCase(token, "worker")
    ensures SettingOf(token) == MemWorker <==> EqNoCase(token, "memworker")
    ensures SettingOf(token) == Paranoid <==> EqNoCase(token, "paranoid")
    ensures SettingOf(token) == Client <==> EqNoCase(token, "client")
    ensures SettingOf(token) == Local <==> EqNoCase(token, "local")
    ensures SettingOf(token) == NoNet <==> EqNoCase(token, "nonet")
    ensures SettingOf(token) == KillNet <==> EqNoCase(token, "killnet")
    ensures SettingOf(token) == NoExec <==> EqNoCase(token, "noexec")
    ensures SettingOf(token) == KillExec <==> EqNoCase(token, "killexec")
    ensures SettingOf(token) == NoPid <==> EqNoCase(token, "nopid")
    ensures SettingOf(token) == NoShm <==> EqNoCase(token, "noshm")
    ensures SettingOf(token) == NoMsgq <==> EqNoCase(token, "nomsgq")
    ensures SettingOf(token) == NoIpc <==> EqNoCase(token, "noipc")
  {
    hide EqNoCase, Mark;
    Marks1();
    Marks2();
    Marks3();
    Marks4();
    SameMark(token, "minimal");
    SameMark(token, "basic");
    SameMark(token, "user");
    SameMark(token, "guest");
    SameMark(token, "untrusted");
    SameMark(token, "constrained");
    SameMark(token, "high");
    SameMark(token, "worker");
    SameMark(token, "memworker");
    SameMark(token, "paranoid");
    SameMark(token, "client");
    SameMark(token, "local");
    SameMark(token, "nonet");
    SameMark(token, "killnet");
    SameMark(token, "noexec");
    SameMark(token, "killexec");
    SameMark(token, "nopid");
    SameMark(token, "noshm");
    SameMark(token, "nomsgq");
    SameMark(token, "noipc");
  }

  lemma WordsAreLetters()
    ensures Letters("client") && Letters("local") && Letters("nonet") && Letters("killnet") && Letters("noexec")
  {
  }

  lemma MoreWordsAreLetters()
    ensures Letters("killexec") && Letters("nopid") && Letters("noshm") && Letters("nomsgq") && Letters("noipc")
  {
  }

  /** A configuration of one word. */
  lemma OneSetting(token: string, word: string)
    requires EqNoCase(token, word) && Letters(word) && SettingOf(token) != Unmatched && SettingOf(token) != NoExec
    ensures SetupText(token) == ModifierText(SettingOf(token)) + LevelText(Rank(SettingOf(token)))
    ensures ConfigFlags(SecurityWords(token)) == ModifierFlags(SettingOf(token))
  {
    LettersNoCase(token, word);
    LettersHaveNoEnd(token);
    hide EqNoCase, Letters;
    OneFlag(token);
    OnlyWord(token);
    OneWordText(token);
    hide *;
  }

  lemma OneFlag(token: string)
    requires token != "" && SepEnd(token, ' ', '+') == |token|
    ensures ConfigFlags(SecurityWords(token)) == ModifierFlags(SettingOf(token))
  {
    hide SettingOf, ModifierFlags, WordText;
    assert NextOfTwo(token, ' ', '+') == Token(token, "");
    FirstWord(token);
    assert SecurityWords("") == [] && ConfigFlags([]) == {};
  }

  lemma OneWordText(token: string)
    requires SettingOf(token) != Unmatched && SettingOf(token) != NoExec
    ensures WordText(token) + "" == ModifierText(SettingOf(token)) + LevelText(Rank(SettingOf(token)))
  {
    hide SettingOf, LevelText, ModifierText, Rank;
  }

  /** What the words that are no levels add to the rule text. */
  lemma NetworkTexts(token: string)
    ensures EqNoCase(token, "client") ==> SetupText(token) == "syscall_deny=group:server "
    ensures EqNoCase(token, "nonet") ==> SetupText(token) == "syscall_deny=group:net "
    ensures EqNoCase(token, "killnet") ==> SetupText(token) == "syscall_kill=group:net "
  {
    hide EqNoCase, SettingOf, SetupText, Letters, SecurityWords, ConfigFlags, ModifierFlags;
    WordsAreKnown(token);
    WordsAreLetters();
    assert LevelText(0) == "";
    hide LevelText;
    if EqNoCase(token, "client") { OneSetting(token, "client"); }
    if EqNoCase(token, "nonet") { OneSetting(token, "nonet"); }
    if EqNoCase(token, "killnet") { OneSetting(token, "killnet"); }
  }

  lemma ProcessTexts(token: string)
    ensures EqNoCase(token, "killexec") ==> SetupText(token) == "syscall_kill=group:exec "
    ensures EqNoCase(token, "nopid") ==> SetupText(token) == ""
  {
    hide EqNoCase, SettingOf, SetupText, Letters, SecurityWords, ConfigFlags, ModifierFlags;
    WordsAreKnown(token);
    MoreWordsAreLetters();
    assert LevelText(0) == "";
    hide LevelText;
    if EqNoCase(token, "killexec") { OneSetting(token, "killexec"); }
    if EqNoCase(token, "nopid") { OneSetting(token, "nopid"); }
  }

  lemma MessageTexts(token: string)
    ensures EqNoCase(token, "noshm") ==> SetupText(token) == "syscall_deny=group:shm"
    ensures EqNoCase(token, "nomsgq") ==> SetupText(token) == "syscall_deny=group:msgq"
    ensures EqNoCase(token, "noipc") ==> SetupText(token) == "syscall_deny=group:ipc "
  {
    hide EqNoCase, SettingOf, SetupText, Letters, SecurityWords, ConfigFlags, ModifierFlags;
    WordsAreKnown(token);
    MoreWordsAreLetters();
    assert LevelText(0) == "";
    hide LevelText;
    if EqNoCase(token, "noshm") { OneSetting(token, "noshm"); }
    if EqNoCase(token, "nomsgq") { OneSetting(token, "nomsgq"); }
    if EqNoCase(token, "noipc") { OneSetting(token, "noipc"); }
  }

  lemma {:induction false} LettersThenBlank(s: string, rest: string)
    requires forall i :: 0 <= i < |s| ==> 'a' <= Lower(s[i]) <= 'z'
    ensures SepEnd(s + (" " + rest), ' ', '+') == |s|
  {
    if s == "" {
      assert s + (" " + rest) == " " + rest;
    } else {
      assert (s + (" " + rest))[1..] == s[1..] + (" " + rest);
      LettersThenBlank(s[1..], rest);
    }
  }

  /** The words for shared memory and message queues leave out the blank: the text of the next word is glued on. */
  lemma GluesOn(token: string, rest: string)
    ensures EqNoCase(token, "noshm") ==> SetupText(token + (" " + rest)) == "syscall_deny=group:shm" + SetupText(rest)
    ensures EqNoCase(token, "nomsgq") ==> SetupText(token + (" " + rest)) == "syscall_deny=group:msgq" + SetupText(rest)
  {
    hide EqNoCase, SettingOf, SetupText, Letters;
    WordsAreKnown(token);
    MoreWordsAreLetters();
    assert LevelText(0) == "";
    hide LevelText;
    if EqNoCase(token, "noshm") { SettingGoesOn(token, "noshm", rest); }
    if EqNoCase(token, "nomsgq") { SettingGoesOn(token, "nomsgq", rest); }
  }

  lemma SettingGoesOn(token: string, word: string, rest: string)
    requires EqNoCase(token, word) && Letters(word) && SettingOf(token) != Unmatched && SettingOf(token) != NoExec
    ensures SetupText(token + (" " + rest))
         == ModifierText(SettingOf(token)) + LevelText(Rank(SettingOf(token))) + SetupText(rest)
  {
    LettersNoCase(token, word);
    LettersThenBlank(token, rest);
    hide *;
    WordThenRest(token, rest);
    OneWordText(token);
    assert WordText(token) + "" == WordText(token);
  }

  lemma WordThenRest(token: string, rest: string)
    requires SepEnd(token + (" " + rest), ' ', '+') == |token|
    ensures SetupText(token + (" " + rest)) == WordText(token) + SetupText(rest)
  {
    hide WordText, SepEnd;
    var config := token + (" " + rest);
    assert config[..|token|] == token && config[|token| + 1..] == rest;
    assert NextOfTwo(config, ' ', '+') == Token(token, rest);
    FirstWord(config);
  }

  /** So "noshm nonet" is one directive for a group that there is none of. */
  lemma GluedDirective()
    ensures Pairs("syscall_deny=group:shm" + "syscall_deny=group:net ")
         == [Directive("syscall_deny", "group:shmsyscall_deny=group:net")]
  {
    GluedIs();
    GluedIsSolid();
    hide Pairs, PairOf, Solid;
    var n, v := "syscall_deny", "group:shmsyscall_deny=group:net";
    SolidConcat("=", v);
    SolidConcat(n, "=" + v);
    PairOfText(n, v, "");
    assert v + "" == v;
    PairsOfWords(n + ("=" + v), ' ', "", "");
    assert ("" + "") == "" && [' '] + "" == " ";
    assert Pairs("") == [] by { NoWords(); }
  }

  lemma GluedIs()
    ensures "syscall_deny=group:shm" + "syscall_deny=group:net "
         == "syscall_deny" + ("=" + "group:shmsyscall_deny=group:net") + " "
    ensures "group:shmsyscall_deny=group:net"[|"group:shmsyscall_deny=group:net"| - 1] == 't'
  {
  }

  lemma GluedIsSolid()
    ensures Solid("syscall_deny") && '=' !in "syscall_deny" && Solid("=")
    ensures Solid("group:shmsyscall_deny=group:net")
  {
  }

  lemma NoWords()
    ensures Pairs("") == []
  {
  }

  lemma LocalText(token: string)
    requires EqNoCase(token, "local")
    ensures SetupText(token)
         == "syscall_allow=socket(unix);socketpair(unix);socketcall(socket);socketcall(socketpair) "
            + "syscall_deny=socket;socketpair "
  {
    LocalIs();
    hide *;
    WordsAreKnown(token);
    WordsAreLetters();
    OneSetting(token, "local");
    assert ModifierText(Local) + "" == ModifierText(Local);
  }

  lemma LocalIs()
    ensures ModifierText(Local)
         == "syscall_allow=socket(unix);socketpair(unix);socketcall(socket);socketcall(socketpair) "
            + "syscall_deny=socket;socketpair "
    ensures Rank(Local) == 0 && LevelText(0) == ""
  {
  }

  lemma NoExecText(token: string)
    requires EqNoCase(token, "noexec")
    ensures SetupText(token) == "syscall_deny=group:exec "
  {
    WordsAreKnown(token);
    WordsAreLetters();
    LettersNoCase(token, "noexec");
    LettersHaveNoEnd(token);
    hide SettingOf, Letters;
    assert |token| == 6;
    hide EqNoCase;
    OnlyWord(token);
    hide SetupText;
    assert DirectText(token) == "";
    assert LevelText(0) == "";
  }

  /** Rules of the user's own pass through as they are, with a blank behind them. */
  lemma OwnRules(token: string)
    requires || StartsWith(token, "syscall_kill=") || StartsWith(token, "syscall_deny=")
             || StartsWith(token, "syscall_allow=")
    requires ' ' !in token && '+' !in token && '\\' !in token
    ensures SetupText(token) == token + " "
  {
    NoEnd(token);
    WordsAreKnown(token);
    hide SettingOf;
    assert |token| > 12;
    assert SettingOf(token) == Unmatched;
    hide EqNoCase;
    OnlyWord(token);
    hide SetupText, StartsWith;
    assert LevelText(0) == "";
    assert WordText(token) == token + " ";
  }

  lemma {:induction false} NoEnd(s: string)
    requires ' ' !in s && '+' !in s && '\\' !in s
    ensures SepEnd(s, ' ', '+') == |s|
  {
    if s != "" {
      NoEnd(s[1..]);
    }
  }

  /** And which parts of the process they keep apart from the system. */
  lemma ModifierContainers(token: string)
    ensures EqNoCase(token, "client") ==> ConfigFlags(SecurityWords(token)) == {}
    ensures EqNoCase(token, "local") || EqNoCase(token, "nonet") || EqNoCase(token, "killnet")
        ==> ConfigFlags(SecurityWords(token)) == {NoNewPrivs, ContainerNet}
    ensures EqNoCase(token, "nopid") ==> ConfigFlags(SecurityWords(token)) == {NoNewPrivs, ContainerPid}
    ensures EqNoCase(token, "noipc") ==> ConfigFlags(SecurityWords(token)) == {NoNewPrivs, ContainerIpc}
  {
    hide EqNoCase, SettingOf, SetupText, Letters, SecurityWords, ConfigFlags, ModifierText, LevelText;
    WordsAreKnown(token);
    WordsAreLetters();
    MoreWordsAreLetters();
    if EqNoCase(token, "client") { OneSetting(token, "client"); }
    if EqNoCase(token, "local") { OneSetting(token, "local"); }
    if EqNoCase(token, "nonet") { OneSetting(token, "nonet"); }
    if EqNoCase(token, "killnet") { OneSetting(token, "killnet"); }
    if EqNoCase(token, "nopid") { OneSetting(token, "nopid"); }
    if EqNoCase(token, "noipc") { OneSetting(token, "noipc"); }
  }

  // ---------------------------------------------------------------- the text read back

  /** A name without blanks, backslashes and semicolons. */
  predicate Graphic(s: string) {
    s != "" && forall i :: 0 <= i < |s| ==> s[i] > ' ' && s[i] != '\\' && s[i] != ';'
  }

  predicate SolidAll(names: seq<string>) {
    forall i :: 0 <= i < |names| ==> Graphic(names[i])
  }

  lemma GraphicIsSolid(s: string)
    requires Graphic(s)
    ensures s != "" && ';' !in s && Solid(s)
  {
  }

  lemma SolidAllClean(names: seq<string>)
    requires SolidAll(names)
    ensures Clean(names, ';')
  {
    hide Graphic;
    forall i | 0 <= i < |names|
      ensures names[i] != "" && ';' !in names[i]
    {
      GraphicIsSolid(names[i]);
    }
  }

  predicate DirectiveName(s: string) {
    s == "syscall_kill" || s == "syscall_deny" || s == "syscall_allow" || s == "syscall_log"
  }

  predicate Readable(orders: seq<Order>) {
    forall i :: 0 <= i < |orders| ==> DirectiveName(orders[i].directive) && SolidAll(orders[i].names)
  }

  function DirectiveOf(o: Order): Directive {
    Directive(o.directive, Join(o.names, ';'))
  }

  function DirectivesOf(orders: seq<Order>): seq<Directive> {
    if orders == [] then [] else [DirectiveOf(orders[0])] + DirectivesOf(orders[1..])
  }

  lemma {:induction false} SolidJoin(names: seq<string>)
    requires SolidAll(names)
    ensures Solid(Join(names, ';'))
  {
    hide Graphic;
    if names != [] {
      GraphicIsSolid(names[0]);
    }
    if |names| > 1 {
      SolidJoin(names[1..]);
      assert Solid([';']);
      SolidConcat(names[0], [';']);
      SolidConcat(names[0] + [';'], Join(names[1..], ';'));
    }
  }

  lemma SolidConcat(a: string, b: string)
    requires Solid(a) && Solid(b)
    ensures Solid(a + b)
  {
  }

  lemma DirectiveNameSolid(s: string)
    requires DirectiveName(s)
    ensures Solid(s) && s != "" && s[0] == 's' && '=' !in s
  {
  }

  lemma OrderIsWord(o: Order)
    requires DirectiveName(o.directive) && SolidAll(o.names)
    ensures Solid(OrderText(o)) && OrderText(o) != "" && !IsSpace(OrderText(o)[0])
        && PairOf(OrderText(o)) == DirectiveOf(o)
  {
    hide DirectiveName, SolidAll, Solid, IndexOf;
    var v := Join(o.names, ';');
    var word := o.directive + ("=" + v);
    DirectiveNameSolid(o.directive);
    SolidJoin(o.names);
    EqualsSignSolid();
    SolidConcat("=", v);
    SolidConcat(o.directive, "=" + v);
    IndexOfIsFirst(o.directive, '=');
    IndexOfExtends(o.directive, '=', "=" + v);
    EqualsComesFirst(v);
    SolidStrips(v);
    assert word[..|o.directive|] == o.directive && word[|o.directive| + 1..] == v;
  }

  lemma SolidStrips(v: string)
    requires Solid(v)
    ensures StripTrailingWhitespace(v) == v
  {
  }

  lemma EqualsSignSolid()
    ensures Solid("=")
  {
  }

  function OrderText(o: Order): string {
    o.directive + ("=" + Join(o.names, ';'))
  }

  lemma RenderStep(orders: seq<Order>, rest: string)
    requires orders != []
    ensures Render(orders) + rest == OrderText(orders[0]) + (" " + (Render(orders[1..]) + rest))
  {
    hide Join;
  }

  lemma PairsStep(word: string, tail: string)
    requires Solid(word) && (tail == "" || !IsSpace(tail[0]))
    ensures Pairs(word + (" " + tail)) == [PairOf(word)] + Pairs(tail)
  {
    hide NextWord, PairOf, Solid;
    NextWordOfSolid(word, tail);
  }

  lemma WordThenTail(word: string, tail: string)
    requires word != "" && !IsSpace(word[0])
    ensures word + (" " + tail) != "" && !IsSpace((word + (" " + tail))[0])
  {
  }

  lemma PairsOfOrder(o: Order, tail: string, ds: seq<Directive>, ps: seq<Directive>)
    requires DirectiveName(o.directive) && SolidAll(o.names)
    requires (tail == "" || !IsSpace(tail[0])) && Pairs(tail) == ds + ps
    ensures Pairs(OrderText(o) + (" " + tail)) == [DirectiveOf(o)] + ds + ps
    ensures OrderText(o) + (" " + tail) != "" && !IsSpace((OrderText(o) + (" " + tail))[0])
  {
    hide *;
    OrderIsWord(o);
    PairsStep(OrderText(o), tail);
    WordThenTail(OrderText(o), tail);
    assert [DirectiveOf(o)] + (ds + ps) == [DirectiveOf(o)] + ds + ps;
  }

  /** Reading back what was rendered gives the directives, in order. */
  lemma {:induction false} PairsOfRender(orders: seq<Order>, rest: string)
    requires Readable(orders) && (rest == "" || !IsSpace(rest[0]))
    ensures Pairs(Render(orders) + rest) == DirectivesOf(orders) + Pairs(rest)
    ensures Render(orders) + rest == "" || !IsSpace((Render(orders) + rest)[0])
  {
    hide Pairs, SolidAll, DirectiveName, DirectiveOf, OrderText, IsSpace;
    if orders == [] {
      assert Render(orders) + rest == rest;
    } else {
      PairsOfRender(orders[1..], rest);
      PairsOfOrder(orders[0], Render(orders[1..]) + rest, DirectivesOf(orders[1..]), Pairs(rest));
      hide Render;
      RenderStep(orders, rest);
    }
  }

  // ---------------------------------------------------------------- the levels, one by one

  lemma GraphicFiles()
    ensures Graphic("group:open") && Graphic("group:filesystem:pipe") && Graphic("group:filesystem")
    ensures Graphic("group:exec")
  {
  }

  lemma GraphicLinks()
    ensures Graphic("group:kill") && Graphic("link") && Graphic("symlink") && Graphic("utimes") && Graphic("ioctl")
  {
  }

  lemma GraphicIoctls()
    ensures Graphic("ioctl(termget)") && Graphic("ioctl(termset)") && Graphic("mprotect(exec)")
    ensures Graphic("mmap(exec)")
  {
  }

  lemma GraphicContainers()
    ensures Graphic("group:ptrace") && Graphic("group:chroot") && Graphic("group:keyring") && Graphic("group:ns")
    ensures Graphic("acct")
  {
  }

  lemma GraphicUsers()
    ensures Graphic("pidfd_open") && Graphic("chown") && Graphic("chmod(exec)") && Graphic("bpf")
    ensures Graphic("capset")
  {
  }

  lemma GraphicAdmin()
    ensures Graphic("group:sysadmin") && Graphic("ptrace") && Graphic("group:kexec") && Graphic("uselib")
  {
  }

  lemma GraphicProcess()
    ensures Graphic("userfaultfd") && Graphic("personality") && Graphic("perf_event_open")
    ensures Graphic("group:kern_mods")
  {
  }

  lemma GraphicKernel()
    ensures Graphic("kexec_load") && Graphic("get_kernel_syms") && Graphic("lookup_dcookie") && Graphic("vm86")
  {
  }

  lemma GraphicMemory()
    ensures Graphic("vm86old") && Graphic("mbind") && Graphic("move_pages")
  {
  }

  lemma SolidStores()
    ensures SolidAll(["group:open", "group:filesystem:pipe"]) && SolidAll(["group:filesystem"])
    ensures SolidAll(["group:kill", "link", "symlink", "group:exec"]) && SolidAll(["group:kill", "link", "symlink"])
  {
    hide Graphic;
    GraphicFiles();
    GraphicLinks();
  }

  lemma SolidTerminals()
    ensures SolidAll(["ioctl(termget)", "ioctl(termset)"])
  {
    hide Graphic;
    GraphicIoctls();
  }

  lemma SolidIoctls()
    ensures SolidAll(["mprotect(exec)", "mmap(exec)", "ioctl", "group:ptrace", "utimes"]) && SolidAll(["utimes"])
  {
    hide Graphic;
    GraphicIoctls();
    GraphicLinks();
    GraphicContainers();
  }

  lemma SolidContainers()
    ensures SolidAll(["group:chroot", "group:keyring", "group:ns", "acct", "pidfd_open"]) && SolidAll(["group:keyring"])
  {
    hide Graphic;
    GraphicContainers();
    GraphicUsers();
  }

  lemma SolidUsers()
    ensures SolidAll(["chown", "chmod(exec)"]) && SolidAll(["group:sysadmin", "bpf", "capset"])
    ensures SolidAll(["acct", "capset"]) && SolidAll(["ptrace"])
  {
    hide Graphic;
    GraphicContainers();
    GraphicUsers();
    GraphicAdmin();
  }

  lemma SolidKernel()
    ensures SolidAll(["group:kexec", "uselib", "userfaultfd", "personality", "perf_event_open", "group:kern_mods",
                      "kexec_load", "get_kernel_syms", "lookup_dcookie", "vm86", "vm86old", "mbind", "move_pages"])
  {
    hide Graphic;
    GraphicAdmin();
    GraphicProcess();
    GraphicKernel();
    GraphicMemory();
  }

  lemma LevelsReadable(rank: nat)
    requires 1 <= rank <= 10
    ensures Readable(OwnOrders(rank))
  {
    hide SolidAll;
    SolidStores();
    SolidTerminals();
    SolidIoctls();
    SolidContainers();
    SolidUsers();
    SolidKernel();
  }

  // ---------------------------------------------------------------- the rules of a level

  /** Two names of calls never share a number: they are labels of one switch. */
  ghost predicate OneNumberEach(p: Kernel) {
    forall a, b :: a in p.nr && b in p.nr && U32(p.nr[a]) == U32(p.nr[b]) ==> a == b
  }

  function OrdersRules(p: Kernel, orders: seq<Order>): seq<Rule> {
    RulesOf(p, DirectivesOf(orders))
  }

  lemma UnfoldOrders(p: Kernel, orders: seq<Order>)
    requires orders != []
    ensures OrdersRules(p, orders) == DirectiveRules(p, DirectiveOf(orders[0])) + OrdersRules(p, orders[1..])
  {
    hide DirectiveRules, DirectiveOf;
  }

  lemma NoOrders(p: Kernel)
    ensures OrdersRules(p, []) == []
  {
  }

  /** Only "constrained" has a directive that is no block. */
  lemma OrdersWithoutAllow(rank: nat, i: nat)
    requires 1 <= rank <= 10 && i < |OwnOrders(rank)|
    ensures OwnOrders(rank)[i].directive != "syscall_kill" && OwnOrders(rank)[i].directive != "syscall_deny"
        ==> rank == 6
  {
  }

  /** The rules of a level: its own, then those of the level below. */
  function LevelRules(p: Kernel, rank: nat): seq<Rule>
    requires rank <= 10
  {
    RulesOf(p, Pairs(LevelText(rank)))
  }

  lemma {:induction false} RulesOfConcat(p: Kernel, d1: seq<Directive>, d2: seq<Directive>)
    ensures RulesOf(p, d1 + d2) == RulesOf(p, d1) + RulesOf(p, d2)
  {
    hide DirectiveRules;
    if d1 == [] {
      assert d1 + d2 == d2;
    } else {
      assert (d1 + d2)[0] == d1[0];
      RulesOfConcat(p, d1[1..], d2);
      assert (d1 + d2)[1..] == d1[1..] + d2;
    }
  }

  lemma {:induction false} LevelTextStart(rank: nat)
    requires rank <= 10
    ensures LevelText(rank) == "" || !IsSpace(LevelText(rank)[0])
  {
    hide OwnOrders, Readable, Render;
    if rank > 0 {
      LevelTextStart(rank - 1);
      LevelsReadable(rank);
      PairsOfRender(OwnOrders(rank), LevelText(rank - 1));
    }
  }

  lemma LevelRulesStep(p: Kernel, rank: nat)
    requires 1 <= rank <= 10
    ensures LevelRules(p, rank) == OrdersRules(p, OwnOrders(rank)) + LevelRules(p, rank - 1)
  {
    hide OwnOrders, Readable, Render, RulesOf, Pairs, DirectivesOf;
    LevelTextStart(rank - 1);
    LevelsReadable(rank);
    PairsOfRender(OwnOrders(rank), LevelText(rank - 1));
    RulesOfConcat(p, DirectivesOf(OwnOrders(rank)), Pairs(LevelText(rank - 1)));
  }

  lemma NoLevelRules(p: Kernel)
    ensures LevelRules(p, 0) == []
  {
  }

  lemma TwoOrders(p: Kernel, o1: Order, o2: Order)
    ensures OrdersRules(p, [o1, o2]) == DirectiveRules(p, DirectiveOf(o1)) + DirectiveRules(p, DirectiveOf(o2))
  {
    hide DirectiveRules, DirectiveOf, OrdersRules;
    UnfoldOrders(p, [o1, o2]);
    assert [o1, o2][1..] == [o2];
    UnfoldOrders(p, [o2]);
    assert [o2][1..] == [];
    NoOrders(p);
  }

  lemma RulesWellFormed(p: Kernel, ds: seq<Directive>)
    ensures WellFormed(RulesOf(p, ds)) && Compilable(RulesOf(p, ds))
  {
    hide RulesOf;
    RulesOfParsed(p, ds);
    ParsedIsCompilable(RulesOf(p, ds));
  }

  lemma OneOrder(p: Kernel, o: Order)
    ensures OrdersRules(p, [o]) == DirectiveRules(p, DirectiveOf(o))
  {
    hide DirectiveRules, DirectiveOf, OrdersRules;
    UnfoldOrders(p, [o]);
    assert [o][1..] == [];
    NoOrders(p);
  }
}
