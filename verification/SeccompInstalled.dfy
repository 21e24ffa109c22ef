/**
 The programs of the security levels are short enough for the kernel: the names that a level's directives come down
 to are counted, and with them its rules and instructions. What is said of levels is so said of installed filters.
 */
module SeccompInstalled {
  import opened Bpf
  import opened Wrappers
  import opened Bytes
  import opened SeccompRules
  import opened SeccompCompile
  import opened SeccompGroups
  import opened SeccompExpand
  import opened SeccompNames
  import opened SeccompFilter
  import opened SeccompLevels
  import opened SeccompFamilies
  import opened Text

  // ---------------------------------------------------------------- counting the tokens of an expansion

  lemma AddUniqueCount(list: string, item: string)
    requires item != "" && ';' !in item
    ensures |Tokens(AddUnique(list, item), ';')|
         <= |Tokens(list, ';')| + if item in Tokens(list, ';') then 0 else 2
  {
    hide Tokens;
    NoTokens(';');
    if item !in Tokens(list, ';') {
      if list == "" {
        TokensOfOne(item, ';');
      } else {
        TokensAppend(list, ';', item);
      }
    }
  }

  /** Only names that are new count: extra holds those that the list lacks. */
  lemma {:induction false} AddAllCount(list: string, items: seq<string>, extra: set<string>)
    requires forall i :: 0 <= i < |items| ==> items[i] != "" && ';' !in items[i]
    requires forall i :: 0 <= i < |items| ==> items[i] in Tokens(list, ';') || items[i] in extra
    ensures |Tokens(AddAllUnique(list, items), ';')| <= |Tokens(list, ';')| + 2 * |extra|
    decreases |items|
  {
    hide Tokens, AddUnique;
    if items != [] {
      var item, next := items[0], AddUnique(list, items[0]);
      AddUniqueCount(list, item);
      forall i | 0 <= i < |items|
        ensures items[i] in Tokens(next, ';') || items[i] in extra - {item}
      {
        AddUniqueKeepsNames(list, item, items[i]);
      }
      AddAllCount(next, items[1..], if item in Tokens(list, ';') then extra else extra - {item});
    }
  }

  lemma {:induction false} NoEmptyMembers(names: seq<string>)
    requires forall i :: 0 <= i < |names| ==> names[i] != ""
    ensures forall i :: 0 <= i < |ExpandNames(names)| ==> ExpandNames(names)[i] != ""
  {
    hide Members;
    if names != [] {
      MembersOf(names[0]);
      NoEmptyMembers(names[1..]);
    }
  }

  /** A list of names expands to what one round yields, and to the names that only the second round finds. */
  lemma ExpandCount(names: seq<string>, extra: set<string>)
    requires Clean(names, ';')
    requires forall t :: t in ExpandNames(ExpandNames(names)) ==> t in ExpandNames(names) || t in extra
    ensures |Tokens(Expand(Join(names, ';')), ';')| <= |ExpandNames(names)| + 2 * |extra|
  {
    hide Tokens, ExpandOnce, ExpandNames, AddAllUnique;
    var list := Join(names, ';');
    var once := ExpandOnce(list);
    TokensOfJoin(names, ';');
    ExpandOnceTokens(list);
    ExpandOnceTokens(once);
    TokensAreFree(ExpandOnce(once), ';');
    NoEmptyMembers(names);
    NoEmptyMembers(ExpandNames(names));
    AddAllCount(once, Tokens(ExpandOnce(once), ';'), extra);
  }

  // ---------------------------------------------------------------- counting names

  /** A name with at most k members, which stand for themselves and each other. */
  predicate Small(n: string, k: nat) {
    |Members(n)| <= k && forall m, t :: m in Members(n) && t in Members(m) ==> t in Members(n)
  }

  predicate PlainName(n: string) {
    NoCallKey(n) && n[0] != 'g'
  }

  lemma PlainMembers(n: string)
    requires PlainName(n)
    ensures Members(n) == [n]
  {
    GroupNameStart(n);
    NoCallKeyIsPlain(n);
  }

  lemma AloneIsSmall(n: string, k: nat)
    requires Members(n) == [n] && k > 0
    ensures Small(n, k)
  {
  }

  lemma PlainIsSmall(n: string, k: nat)
    requires PlainName(n) && k > 0
    ensures Small(n, k)
  {
    hide Members, PlainName;
    PlainMembers(n);
    AloneIsSmall(n, k);
  }

  /** A call with variants. */
  lemma CallIsSmall(n: string, k: nat)
    requires CleanName(n) && |CallTable(n)| <= k
    ensures Small(n, k)
  {
    hide CallTable, Members;
    CleanIsCall(n);
    CleanIsSettled(n);
  }

  /** A group of calls that have no variants. */
  lemma GroupIsSmall(n: string, k: nat, names: seq<string>)
    requires IsGroupName(n) && GroupTable(n) == names && |names| <= k
    requires forall i :: 0 <= i < |names| ==> PlainName(names[i])
    ensures Small(n, k)
  {
    assert Members(n) == names;
    hide Members, PlainName, GroupTable;
    forall m, t | m in names && t in Members(m)
      ensures t in names
    {
      PlainMembers(m);
    }
  }

  predicate AllSmall(names: seq<string>, k: nat) {
    forall n :: n in names ==> Small(n, k)
  }

  lemma {:induction false} SmallExpands(names: seq<string>, k: nat)
    requires AllSmall(names, k)
    ensures |ExpandNames(names)| <= k * |names|
  {
    hide Members;
    if names != [] {
      assert names[0] in names;
      assert forall n :: n in names[1..] ==> n in names;
      SmallExpands(names[1..], k);
      Distributes(k, |names|);
    }
  }

  lemma Distributes(k: nat, n: nat)
    requires n > 0
    ensures k + k * (n - 1) == k * n
  {
  }

  lemma SmallIsClosed(names: seq<string>, k: nat, t: string)
    requires AllSmall(names, k) && t in ExpandNames(ExpandNames(names))
    ensures t in ExpandNames(names)
  {
    hide Members, ExpandNames;
    InExpandNames(ExpandNames(names), t);
    var m :| m in ExpandNames(names) && t in Members(m);
    InExpandNames(names, m);
    var n :| n in names && m in Members(n);
    assert Small(n, k);
    InExpandNames(names, t);
  }

  // ---------------------------------------------------------------- counting rules

  lemma {:induction false} ListRulesCount(p: Kernel, tokens: seq<string>, a: Action)
    ensures |ListRules(p, tokens, a)| <= |tokens|
  {
    hide ParseChecks, BaseName;
    if tokens != [] {
      ListRulesCount(p, tokens[1..], a);
    }
  }

  lemma OrderCount(p: Kernel, o: Order, extra: set<string>)
    requires SolidAll(o.names)
    requires forall t :: t in ExpandNames(ExpandNames(o.names)) ==> t in ExpandNames(o.names) || t in extra
    ensures |DirectiveRules(p, DirectiveOf(o))| <= |ExpandNames(o.names)| + 2 * |extra|
  {
    hide Tokens, ListRules, Expand, Join, ExpandNames, SolidAll;
    SolidAllClean(o.names);
    ExpandCount(o.names, extra);
    if SelectAction(o.directive).Selected? {
      ListRulesCount(p, Tokens(Expand(Join(o.names, ';')), ';'), SelectAction(o.directive).action);
    }
  }

  /** A directive of small names has at most k rules for each of them. */
  lemma SmallOrderCount(p: Kernel, o: Order, k: nat)
    requires SolidAll(o.names) && AllSmall(o.names, k)
    ensures |DirectiveRules(p, DirectiveOf(o))| <= k * |o.names|
  {
    hide DirectiveRules, DirectiveOf, ExpandNames, AllSmall, SolidAll;
    SmallExpands(o.names, k);
    forall t | t in ExpandNames(ExpandNames(o.names))
      ensures t in ExpandNames(o.names)
    {
      SmallIsClosed(o.names, k, t);
    }
    OrderCount(p, o, {});
  }

  // ---------------------------------------------------------------- the levels, one by one

  lemma PlainProcess()
    ensures PlainName("kill") && PlainName("tkill") && PlainName("tgkill") && PlainName("exec_with_loader")
    ensures PlainName("execv") && PlainName("execve") && PlainName("execveat")
  {
  }

  lemma PlainOpen()
    ensures PlainName("ptrace") && PlainName("process_vm_readv") && PlainName("process_vm_writev")
    ensures PlainName("kcmp") && PlainName("open") && PlainName("openat") && PlainName("open2")
    ensures PlainName("openat2") && PlainName("creat")
  {
  }

  lemma PlainContainer()
    ensures PlainName("chroot") && PlainName("pivot_root") && PlainName("add_key") && PlainName("request_key")
    ensures PlainName("keyctl") && PlainName("unshare") && PlainName("setns") && PlainName("acct")
    ensures PlainName("pidfd_open")
  {
  }

  lemma PlainAdmin()
    ensures PlainName("settimeofday") && PlainName("clock_settime") && PlainName("clock_adjtime")
    ensures PlainName("quotactl") && PlainName("reboot") && PlainName("swapon") && PlainName("swapoff")
    ensures PlainName("mount")
  {
  }

  lemma PlainMount()
    ensures PlainName("umount") && PlainName("umount2") && PlainName("mknod") && PlainName("sethostname")
    ensures PlainName("setdomainname") && PlainName("bpf") && PlainName("capset")
  {
  }

  lemma PlainIoctl()
    ensures PlainName("ioctl(termget)") && PlainName("ioctl(termset)") && PlainName("ioctl")
    ensures PlainName("mprotect(exec)")
  {
  }

  lemma PlainKernel()
    ensures PlainName("kexec_load") && PlainName("kexec_file_load") && PlainName("uselib")
    ensures PlainName("userfaultfd") && PlainName("personality") && PlainName("perf_event_open")
  {
  }

  lemma PlainMemory()
    ensures PlainName("lookup_dcookie") && PlainName("vm86") && PlainName("vm86old") && PlainName("mbind")
    ensures PlainName("move_pages")
  {
  }

  lemma ProcessSmall(k: nat)
    requires k >= 3
    ensures Small("group:kill", k)
    ensures k >= 4 ==> Small("group:exec", k) && Small("group:ptrace", k)
  {
    hide Small, PlainName, GroupTable, IsGroupName;
    ProcessGroups();
    PlainProcess();
    PlainOpen();
    GroupIsSmall("group:kill", k, GroupTable("group:kill"));
    if k >= 4 {
      GroupIsSmall("group:exec", k, GroupTable("group:exec"));
      GroupIsSmall("group:ptrace", k, GroupTable("group:ptrace"));
    }
  }

  lemma OpenSmall()
    ensures Small("group:open", 5) && Small("group:filesystem:pipe", 5)
  {
    hide Small, PlainName, GroupTable, IsGroupName;
    FileGroups();
    PlainOpen();
    GroupIsSmall("group:open", 5, GroupTable("group:open"));
    AloneIsSmall("group:filesystem:pipe", 5);
  }

  lemma ContainerSmall()
    ensures Small("group:chroot", 3) && Small("group:keyring", 3) && Small("group:ns", 3)
    ensures Small("acct", 3) && Small("pidfd_open", 3)
  {
    hide Small, PlainName, GroupTable, IsGroupName;
    ContainerGroups();
    PlainContainer();
    GroupIsSmall("group:chroot", 3, GroupTable("group:chroot"));
    GroupIsSmall("group:keyring", 3, GroupTable("group:keyring"));
    GroupIsSmall("group:ns", 3, GroupTable("group:ns"));
    PlainIsSmall("acct", 3);
    PlainIsSmall("pidfd_open", 3);
  }

  lemma AdminSmall()
    ensures Small("group:sysadmin", 14) && Small("bpf", 14) && Small("capset", 14)
  {
    hide Small, PlainName, GroupTable, IsGroupName;
    AdminGroups();
    PlainAdmin();
    PlainMount();
    GroupIsSmall("group:sysadmin", 14, GroupTable("group:sysadmin"));
    PlainIsSmall("bpf", 14);
    PlainIsSmall("capset", 14);
  }

  lemma KernelSmall()
    ensures Small("group:kexec", 2) && Small("group:kern_mods", 2) && Small("get_kernel_syms", 2)
    ensures Small("kexec_load", 2) && Small("uselib", 2) && Small("userfaultfd", 2) && Small("personality", 2)
    ensures Small("perf_event_open", 2)
  {
    hide Small, PlainName, GroupTable, IsGroupName;
    AdminGroups();
    PlainKernel();
    GroupIsSmall("group:kexec", 2, GroupTable("group:kexec"));
    AloneIsSmall("group:kern_mods", 2);
    SymsAlone();
    AloneIsSmall("get_kernel_syms", 2);
    PlainIsSmall("kexec_load", 2);
    PlainIsSmall("uselib", 2);
    PlainIsSmall("userfaultfd", 2);
    PlainIsSmall("personality", 2);
    PlainIsSmall("perf_event_open", 2);
  }

  lemma SymsAlone()
    ensures Members("get_kernel_syms") == ["get_kernel_syms"]
  {
    NotAGroup("get_kernel_syms");
    assert NoCallKey("get_kernel_syms");
    hide CallTable, GroupTable;
    NoCallKeyIsPlain("get_kernel_syms");
  }

  lemma MemorySmall()
    ensures Small("lookup_dcookie", 2) && Small("vm86", 2) && Small("vm86old", 2) && Small("mbind", 2)
    ensures Small("move_pages", 2)
  {
    hide Small, PlainName;
    PlainMemory();
    PlainIsSmall("lookup_dcookie", 2);
    PlainIsSmall("vm86", 2);
    PlainIsSmall("vm86old", 2);
    PlainIsSmall("mbind", 2);
    PlainIsSmall("move_pages", 2);
  }

  lemma LinkCounts()
    ensures CleanName("link") && CleanName("symlink") && CleanName("mmap(exec)")
    ensures |CallTable("link")| == 2 && |CallTable("symlink")| == 2 && |CallTable("mmap(exec)")| == 2
  {
  }

  lemma OwnerCounts()
    ensures CleanName("utimes") && CleanName("chown") && |CallTable("utimes")| == 5 && |CallTable("chown")| == 7
  {
  }

  lemma ModeCounts()
    ensures CleanName("chmod(exec)") && |CallTable("chmod(exec)")| == 9
  {
  }

  lemma VariantsSmall(k: nat)
    requires k >= 2
    ensures Small("link", k) && Small("symlink", k) && Small("mmap(exec)", k)
    ensures k >= 5 ==> Small("utimes", k)
    ensures k >= 9 ==> Small("chown", k) && Small("chmod(exec)", k)
  {
    hide Small, CallTable, CleanName;
    LinkCounts();
    OwnerCounts();
    ModeCounts();
    CallIsSmall("link", k);
    CallIsSmall("symlink", k);
    CallIsSmall("mmap(exec)", k);
    if k >= 5 { CallIsSmall("utimes", k); }
    if k >= 9 {
      CallIsSmall("chown", k);
      CallIsSmall("chmod(exec)", k);
    }
  }

  /** No call has more than nine variants. */
  lemma FewVariants(m: string)
    ensures |CallTable(m)| <= 9
  {
    hide FileTable;
    assert |FileTable(m)| <= 9 by { FewFiles(m); }
  }

  lemma FewFiles(m: string)
    ensures |FileTable(m)| <= 9
  {
  }

  lemma IoctlSmall(k: nat)
    requires k >= 1
    ensures Small("ioctl(termget)", k) && Small("ioctl(termset)", k) && Small("ioctl", k)
    ensures Small("mprotect(exec)", k) && Small("ptrace", k) && Small("acct", k) && Small("capset", k)
  {
    hide Small, PlainName;
    PlainIoctl();
    PlainOpen();
    PlainContainer();
    PlainMount();
    PlainIsSmall("ioctl(termget)", k);
    PlainIsSmall("ioctl(termset)", k);
    PlainIsSmall("ioctl", k);
    PlainIsSmall("mprotect(exec)", k);
    PlainIsSmall("ptrace", k);
    PlainIsSmall("acct", k);
    PlainIsSmall("capset", k);
  }

  // ---------------------------------------------------------------- the largest directive

  lemma {:induction false} SetOfSeq(s: seq<string>)
    ensures |set t | t in s| <= |s|
  {
    if s != [] {
      SetOfSeq(s[1..]);
      assert (set t | t in s) == {s[0]} + set t | t in s[1..];
    }
  }

  lemma FilesAre()
    ensures AllClean(GroupTable("group:filesystem")) && |GroupTable("group:filesystem")| == 10
    ensures ExpandNames(["group:filesystem"]) == GroupTable("group:filesystem")
  {
    FileNames();
    FileGroups();
    hide GroupTable;
    assert ["group:filesystem"][1..] == [];
    assert Members("group:filesystem") == GroupTable("group:filesystem");
  }

  /** The only directive whose second round finds names that the first one does not. */
  lemma FilesCount(p: Kernel)
    ensures |DirectiveRules(p, DirectiveOf(Order("syscall_deny", ["group:filesystem"])))| <= 190
  {
    hide DirectiveRules, DirectiveOf, ExpandNames, GroupTable, Small, CallTable, CleanName, SolidAll;
    SolidStores();
    FilesAre();
    var once := GroupTable("group:filesystem");
    forall n | n in once
      ensures Small(n, 9)
    {
      var i :| 0 <= i < |once| && once[i] == n;
      FewVariants(n);
      CallIsSmall(n, 9);
    }
    SmallExpands(once, 9);
    SetOfSeq(ExpandNames(once));
    OrderCount(p, Order("syscall_deny", ["group:filesystem"]), set t | t in ExpandNames(once));
  }

  // ---------------------------------------------------------------- the rules of a level, counted

  /** A bound on the number of rules of a level. */
  function MostRules(rank: nat): (n: nat)
    requires rank <= 10
    ensures n <= 364
  {
    match rank
    case 0 => 0
    case 1 => 27
    case 2 => 29
    case 3 => 89
    case 4 => 92
    case 5 => 112
    case 6 => 139
    case 7 => 148
    case 8 => 164
    case 9 => 354
    case 10 => 364
  }

  lemma CountOne(p: Kernel, o: Order, k: nat)
    requires SolidAll(o.names) && AllSmall(o.names, k)
    ensures |OrdersRules(p, [o])| <= k * |o.names|
  {
    hide *;
    OneOrder(p, o);
    SmallOrderCount(p, o, k);
  }

  lemma CountTwo(p: Kernel, o1: Order, k1: nat, o2: Order, k2: nat)
    requires SolidAll(o1.names) && AllSmall(o1.names, k1) && SolidAll(o2.names) && AllSmall(o2.names, k2)
    ensures |OrdersRules(p, [o1, o2])| <= k1 * |o1.names| + k2 * |o2.names|
  {
    hide *;
    TwoOrders(p, o1, o2);
    SmallOrderCount(p, o1, k1);
    SmallOrderCount(p, o2, k2);
  }

  lemma SmallStores()
    ensures AllSmall(["group:open", "group:filesystem:pipe"], 5)
    ensures AllSmall(["group:kill", "link", "symlink", "group:exec"], 4)
    ensures AllSmall(["group:kill", "link", "symlink"], 3)
  {
    hide Small;
    OpenSmall();
    ProcessSmall(4);
    ProcessSmall(3);
    VariantsSmall(4);
    VariantsSmall(3);
  }

  lemma SmallIoctls()
    ensures AllSmall(["ioctl(termget)", "ioctl(termset)"], 1)
    ensures AllSmall(["mprotect(exec)", "mmap(exec)", "ioctl", "group:ptrace", "utimes"], 5)
    ensures AllSmall(["utimes"], 5)
  {
    hide Small;
    IoctlSmall(1);
    IoctlSmall(5);
    ProcessSmall(5);
    VariantsSmall(5);
  }

  lemma SmallContainers()
    ensures AllSmall(["group:chroot", "group:keyring", "group:ns", "acct", "pidfd_open"], 3)
    ensures AllSmall(["group:keyring"], 3)
  {
    hide Small;
    ContainerSmall();
  }

  lemma SmallUsers()
    ensures AllSmall(["chown", "chmod(exec)"], 9) && AllSmall(["group:sysadmin", "bpf", "capset"], 14)
    ensures AllSmall(["acct", "capset"], 1) && AllSmall(["ptrace"], 1)
  {
    hide Small;
    VariantsSmall(9);
    AdminSmall();
    IoctlSmall(1);
  }

  lemma SmallKernel()
    ensures AllSmall(["group:kexec", "uselib", "userfaultfd", "personality", "perf_event_open", "group:kern_mods",
                      "kexec_load", "get_kernel_syms", "lookup_dcookie", "vm86", "vm86old", "mbind", "move_pages"], 2)
  {
    hide Small;
    KernelSmall();
    MemorySmall();
  }

  lemma HighCount(p: Kernel, rank: nat)
    requires 7 <= rank <= 10
    ensures |OrdersRules(p, OwnOrders(rank))| <= MostRules(rank) - MostRules(rank - 1)
  {
    hide OrdersRules, SolidAll, AllSmall, DirectiveRules, DirectiveOf;
    SolidStores();
    SmallStores();
    FilesCount(p);
    var own := OwnOrders(rank);
    if rank == 9 {
      OneOrder(p, own[0]);
    } else {
      CountOne(p, own[0], if rank == 10 then 5 else if rank == 8 then 4 else 3);
    }
  }

  lemma MiddleCount(p: Kernel, rank: nat)
    requires 4 <= rank <= 6
    ensures |OrdersRules(p, OwnOrders(rank))| <= MostRules(rank) - MostRules(rank - 1)
  {
    hide OrdersRules, SolidAll, AllSmall, DirectiveRules, DirectiveOf;
    SolidTerminals();
    SolidIoctls();
    SolidContainers();
    SmallIoctls();
    SmallContainers();
    var own := OwnOrders(rank);
    if rank == 6 {
      CountTwo(p, own[0], 1, own[1], 5);
    } else if rank == 5 {
      CountTwo(p, own[0], 3, own[1], 5);
    } else {
      CountOne(p, own[0], 3);
    }
  }

  lemma LowCount(p: Kernel, rank: nat)
    requires 1 <= rank <= 3
    ensures |OrdersRules(p, OwnOrders(rank))| <= MostRules(rank) - MostRules(rank - 1)
  {
    hide OrdersRules, SolidAll, AllSmall, DirectiveRules, DirectiveOf;
    SolidUsers();
    SolidKernel();
    SmallUsers();
    SmallKernel();
    var own := OwnOrders(rank);
    if rank == 3 {
      CountTwo(p, own[0], 9, own[1], 14);
    } else if rank == 2 {
      CountOne(p, own[0], 1);
    } else {
      CountTwo(p, own[0], 1, own[1], 2);
    }
  }

  lemma OwnCount(p: Kernel, rank: nat)
    requires 1 <= rank <= 10
    ensures |OrdersRules(p, OwnOrders(rank))| <= MostRules(rank) - MostRules(rank - 1)
  {
    hide *;
    if rank <= 3 {
      LowCount(p, rank);
    } else if rank <= 6 {
      MiddleCount(p, rank);
    } else {
      HighCount(p, rank);
    }
  }

  lemma {:induction false} LevelCount(p: Kernel, rank: nat)
    requires rank <= 10
    ensures |LevelRules(p, rank)| <= MostRules(rank)
  {
    hide LevelRules, OrdersRules, OwnOrders;
    if rank == 0 {
      NoLevelRules(p);
    } else {
      LevelRulesStep(p, rank);
      OwnCount(p, rank);
      LevelCount(p, rank - 1);
    }
  }

  // ---------------------------------------------------------------- installed filters

  lemma {:induction false} ParsedLength(rules: seq<Rule>)
    requires Parsed(rules)
    ensures TotalLength(rules) <= 9 * |rules|
  {
    if rules != [] {
      ParsedLength(rules[1..]);
    }
  }

  /** On every kernel, the kernel takes the filter of every level, and it is the whole program. */
  lemma LevelTaken(p: Kernel, rank: nat)
    requires rank <= 10
    ensures |FullProgram(p, LevelText(rank))| <= 3280
    ensures KernelTakes(Handed(p, LevelText(rank)))
    ensures Handed(p, LevelText(rank)) == FullProgram(p, LevelText(rank))
  {
    hide LevelText, FullProgram, KernelTakes, Handed, Pairs, RulesOf, Parsed, TotalLength, MostRules;
    InstalledLength(p, LevelText(rank));
    RulesOfParsed(p, Pairs(LevelText(rank)));
    ParsedLength(LevelRules(p, rank));
    LevelCount(p, rank);
    TakenIff(p, LevelText(rank));
  }

  predicate Blocked(r: Option<word>) {
    r.Some? && Blocks(r.value)
  }

  /** What the filter that is handed to the kernel for a level returns. */
  function LevelVerdict(p: Kernel, rank: nat, d: syscall, acc: word): Option<word>
    requires rank <= 10
  {
    Run(Handed(p, LevelText(rank)), d, 0, acc)
  }

  lemma LevelDecides(p: Kernel, rank: nat, d: syscall, acc: word)
    requires rank <= 10
    ensures WellFormed(LevelRules(p, rank))
    ensures LevelVerdict(p, rank, d, acc) == Some(Decide(p.arch, LevelRules(p, rank), d))
  {
    hide Run, Program, RulesOf, Decide, Handed, LevelText, KernelTakes;
    LevelTaken(p, rank);
    RulesWellFormed(p, Pairs(LevelText(rank)));
    ProgramCorrect(p.arch, LevelRules(p, rank), d, acc);
  }
}
