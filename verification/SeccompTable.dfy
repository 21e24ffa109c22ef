/**
 The security levels, call by call: for every level and every call of the kernel, what the filter that is handed over
 returns. A level acts on the calls that are listed here, and leaves all others to the level below it.
 */
module SeccompTable {
  import opened Bpf
  import opened Wrappers
  import opened Bytes
  import opened SeccompRules
  import opened SeccompGroups
  import opened SeccompNames
  import opened SeccompFilter
  import opened SeccompLevels
  import opened SeccompFamilies
  import opened SeccompInstalled
  import opened SeccompMonotone
  import opened SeccompSeverity
  import opened SeccompCalls
  import opened SeccompTexts
  import opened Text

  // ---------------------------------------------------------------- a directive in front of other rules

  lemma FrontDecides(p: Kernel, o: Order, v: word, back: seq<Rule>, call: string, d: syscall)
    requires OneNumberEach(p) && IsNumberOf(p, d.nr, call) && d.arch == p.arch
    requires Acts(o.directive, v) && SolidAll(o.names) && WellFormed(back)
    ensures WellFormed(DirectiveRules(p, DirectiveOf(o)) + back)
    ensures Decide(p.arch, DirectiveRules(p, DirectiveOf(o)) + back, d)
         == if Reaches(p, o.names, call, d) then v else Decide(p.arch, back, d)
  {
    hide OneNumberEach, IsNumberOf, SolidAll, DirectiveRules, DirectiveOf, Reaches, Acts, FirstMatch, SomeMatch;
    hide SelectAction, AllActions, Verdict, DirectiveName;
    ActsAs(o.directive, v);
    DirectiveMatches(p, o, call, d);
    UniformMatch(DirectiveRules(p, DirectiveOf(o)), SelectAction(o.directive).action, d);
    FirstMatchSplit(DirectiveRules(p, DirectiveOf(o)), back, d);
  }

  lemma LevelOfOne(p: Kernel, rank: nat, o: Order, v: word, call: string, d: syscall, acc: word)
    requires OneNumberEach(p) && IsNumberOf(p, d.nr, call) && d.arch == p.arch
    requires 1 <= rank <= 10 && OwnOrders(rank) == [o] && Acts(o.directive, v) && SolidAll(o.names)
    ensures LevelVerdict(p, rank, d, acc)
         == if Reaches(p, o.names, call, d) then Some(v) else LevelVerdict(p, rank - 1, d, acc)
  {
    hide *;
    LevelDecides(p, rank, d, acc);
    LevelDecides(p, rank - 1, d, acc);
    LevelRulesStep(p, rank);
    OneOrder(p, o);
    FrontDecides(p, o, v, LevelRules(p, rank - 1), call, d);
  }

  lemma LevelOfTwo(p: Kernel, rank: nat, o1: Order, v1: word, o2: Order, v2: word, call: string, d: syscall, acc: word)
    requires OneNumberEach(p) && IsNumberOf(p, d.nr, call) && d.arch == p.arch
    requires 1 <= rank <= 10 && OwnOrders(rank) == [o1, o2]
    requires Acts(o1.directive, v1) && SolidAll(o1.names) && Acts(o2.directive, v2) && SolidAll(o2.names)
    ensures LevelVerdict(p, rank, d, acc)
         == if Reaches(p, o1.names, call, d) then Some(v1)
            else if Reaches(p, o2.names, call, d) then Some(v2) else LevelVerdict(p, rank - 1, d, acc)
  {
    hide *;
    LevelDecides(p, rank, d, acc);
    LevelDecides(p, rank - 1, d, acc);
    LevelRulesStep(p, rank);
    TwoOrders(p, o1, o2);
    var below := LevelRules(p, rank - 1);
    var r1, r2 := DirectiveRules(p, DirectiveOf(o1)), DirectiveRules(p, DirectiveOf(o2));
    FrontDecides(p, o2, v2, below, call, d);
    FrontDecides(p, o1, v1, r2 + below, call, d);
    assert (r1 + r2) + below == r1 + (r2 + below);
  }

  // ---------------------------------------------------------------- what lists of names come down to

  lemma ReachesSmall(p: Kernel, names: seq<string>, k: nat, call: string, d: syscall)
    requires AllSmall(names, k)
    ensures Reaches(p, names, call, d) <==> exists t :: t in ExpandNames(names) && Hits(p, t, call, d)
  {
    hide AllSmall, ExpandNames, Hits;
    forall t
      ensures t in ExpandNames(ExpandNames(names)) <==> t in ExpandNames(names)
    {
      TwoRoundsClose(names, t);
      if t in ExpandNames(ExpandNames(names)) {
        SmallIsClosed(names, k, t);
      }
    }
  }

  predicate Bare(names: seq<string>) {
    forall i :: 0 <= i < |names| ==> '(' !in names[i]
  }

  lemma BareListHits(p: Kernel, ts: seq<string>, call: string, d: syscall)
    requires Bare(ts)
    ensures (exists t :: t in ts && Hits(p, t, call, d)) <==> call in ts
  {
    hide Hits;
    forall t | t in ts
      ensures Hits(p, t, call, d) <==> t == call
    {
      var i :| 0 <= i < |ts| && ts[i] == t;
      BareHits(p, t, call, d);
    }
  }

  /** Calls with a word in front of calls without. */
  lemma MixedListHits(p: Kernel, calls: seq<string>, w: string, ts: seq<string>, call: string, d: syscall)
    requires call in p.nr && Argument(w) && Bare(calls) && Bare(ts)
    ensures WellFormedChecks(ParseArg0(p, p.nr[call], w))
    ensures (exists t :: t in Spellings(calls, w) + ts && Hits(p, t, call, d))
        <==> (call in calls && ChecksHold(ParseArg0(p, p.nr[call], w), d)) || call in ts
  {
    hide Hits, ParseArg0, ChecksHold, Argument, Spellings;
    SpellingsHit(p, calls, w, call, d);
    BareListHits(p, ts, call, d);
    assert forall t :: t in Spellings(calls, w) + ts <==> t in Spellings(calls, w) || t in ts;
  }

  lemma ExpandNext(n: string, rest: seq<string>)
    ensures ExpandNames([n] + rest) == Members(n) + ExpandNames(rest)
  {
    assert ([n] + rest)[1..] == rest;
  }

  lemma ExpandNothing()
    ensures ExpandNames([]) == []
  {
  }

  // ---------------------------------------------------------------- the members of each name

  lemma LinkMembers()
    ensures Members("link") == ["link", "linkat"]
    ensures Members("symlink") == ["symlink", "symlinkat"]
  {
    assert CleanName("link");
    CleanIsCall("link");
    assert CleanName("symlink");
    CleanIsCall("symlink");
  }

  lemma DirectoryMembers()
    ensures Members("mkdir") == ["mkdir", "mkdirat"]
    ensures Members("rmdir") == ["rmdir", "rmdirat"]
    ensures Members("unlink") == ["unlink", "unlinkat"]
  {
    assert CleanName("mkdir");
    CleanIsCall("mkdir");
    assert CleanName("rmdir");
    CleanIsCall("rmdir");
    assert CleanName("unlink");
    CleanIsCall("unlink");
  }

  lemma RenameMembers()
    ensures Members("rename") == ["rename", "renameat", "renameat2"]
    ensures Members("utimes") == ["utimes", "utimesat", "futimesat", "utimensat", "futimens"]
  {
    assert CleanName("rename");
    CleanIsCall("rename");
    assert CleanName("utimes");
    CleanIsCall("utimes");
  }

  lemma TruncateMembers()
    ensures Members("truncate") == ["truncate", "ftruncate", "truncate64", "ftruncate64"]
    ensures Members("chmod") == ["chmod", "fchmod", "fchmodat", "lchmod"]
  {
    assert CleanName("truncate");
    CleanIsCall("truncate");
    assert CleanName("chmod");
    CleanIsCall("chmod");
  }

  lemma ChownMembers()
    ensures Members("chown") == ["chown", "chown32", "fchown", "fchown32", "fchownat", "lchown", "lchown32"]
  {
    assert CleanName("chown");
    CleanIsCall("chown");
  }

  lemma ProcessMembers()
    ensures Members("group:kill") == ["kill", "tkill", "tgkill"]
    ensures Members("group:exec") == ["exec_with_loader", "execv", "execve", "execveat"]
    ensures Members("group:ptrace") == ["ptrace", "process_vm_readv", "process_vm_writev", "kcmp"]
  {
    ProcessGroups();
    hide GroupTable, IsGroupName;
  }

  lemma FileMembers()
    ensures Members("group:open") == ["open", "openat", "open2", "openat2", "creat"]
    ensures Members("group:filesystem:pipe") == ["group:filesystem:pipe"]
  {
    FileGroups();
    hide GroupTable, IsGroupName;
  }

  lemma ContainerMembers()
    ensures Members("group:chroot") == ["chroot", "pivot_root"]
    ensures Members("group:keyring") == ["add_key", "request_key", "keyctl"]
    ensures Members("group:ns") == ["unshare", "setns"]
  {
    ContainerGroups();
    hide GroupTable, IsGroupName;
  }

  lemma AdminMembers()
    ensures Members("group:sysadmin") ==
            ["settimeofday", "clock_settime", "clock_adjtime", "quotactl", "reboot", "swapon", "swapoff", "mount",
             "umount", "umount2", "mknod", "quotactl", "sethostname", "setdomainname"]
    ensures Members("group:kexec") == ["kexec_load", "kexec_file_load"]
    ensures Members("group:kern_mods") == ["group:kern_mods"]
  {
    AdminGroups();
    hide GroupTable, IsGroupName;
  }

  // ---------------------------------------------------------------- the levels, from the highest down

  lemma ActsKill()
    ensures WORD == 0x1_0000_0000 && Acts("syscall_kill", 0) 
    ensures Acts("syscall_deny", 0x0005_0001) && Acts("syscall_allow", 0x7FFF_0000)
  {
  }

  /** A level of one directive for calls without arguments. */
  lemma OneList(p: Kernel, rank: nat, o: Order, k: nat, v: word, calls: seq<string>, call: string, d: syscall,
                acc: word)
    requires OneNumberEach(p) && IsNumberOf(p, d.nr, call) && d.arch == p.arch
    requires 1 <= rank <= 10 && OwnOrders(rank) == [o] && Acts(o.directive, v) && SolidAll(o.names)
    requires AllSmall(o.names, k) && ExpandNames(o.names) == calls && Bare(calls)
    ensures LevelVerdict(p, rank, d, acc) == if call in calls then Some(v) else LevelVerdict(p, rank - 1, d, acc)
  {
    hide *;
    ReachesSmall(p, o.names, k, call, d);
    BareListHits(p, calls, call, d);
    LevelOfOne(p, rank, o, v, call, d, acc);
  }

  /** A level of two directives for calls without arguments. */
  lemma TwoLists(p: Kernel, rank: nat, o1: Order, k1: nat, v1: word, calls1: seq<string>,
                 o2: Order, k2: nat, v2: word, calls2: seq<string>, call: string, d: syscall, acc: word)
    requires OneNumberEach(p) && IsNumberOf(p, d.nr, call) && d.arch == p.arch
    requires 1 <= rank <= 10 && OwnOrders(rank) == [o1, o2]
    requires Acts(o1.directive, v1) && SolidAll(o1.names) && Acts(o2.directive, v2) && SolidAll(o2.names)
    requires AllSmall(o1.names, k1) && ExpandNames(o1.names) == calls1 && Bare(calls1)
    requires AllSmall(o2.names, k2) && ExpandNames(o2.names) == calls2 && Bare(calls2)
    ensures LevelVerdict(p, rank, d, acc)
         == if call in calls1 then Some(v1) else if call in calls2 then Some(v2) else LevelVerdict(p, rank - 1, d, acc)
  {
    hide *;
    ReachesSmall(p, o1.names, k1, call, d);
    BareListHits(p, calls1, call, d);
    ReachesSmall(p, o2.names, k2, call, d);
    BareListHits(p, calls2, call, d);
    LevelOfTwo(p, rank, o1, v1, o2, v2, call, d, acc);
  }

  lemma MemWorkerIs()
    ensures OwnOrders(10) == [Order("syscall_kill", ["group:open", "group:filesystem:pipe"])]
  {
  }

  lemma MemWorkerNames()
    ensures ExpandNames(["group:open", "group:filesystem:pipe"])
         == ["open", "openat", "open2", "openat2", "creat", "group:filesystem:pipe"]
  {
    hide ExpandNames, Members, PlainName;
    ExpandNothing();
    FileMembers();
    var l1 := ["group:filesystem:pipe"] + [];
    ExpandNext("group:filesystem:pipe", []);
    var l0 := ["group:open"] + l1;
    ExpandNext("group:open", l1);
    assert l0 == ["group:open", "group:filesystem:pipe"];
  }

  lemma MemWorkerBare()
    ensures Bare(["open", "openat", "open2", "openat2", "creat", "group:filesystem:pipe"])
  {
  }

  /** "memworker" kills what opens files. The pipe is a name that no table has. */
  lemma MemWorkerTable(p: Kernel, call: string, d: syscall, acc: word)
    requires OneNumberEach(p) && IsNumberOf(p, d.nr, call) && d.arch == p.arch
    ensures LevelVerdict(p, 10, d, acc)
         == if call in ["open", "openat", "open2", "openat2", "creat", "group:filesystem:pipe"]
            then Some(0) else LevelVerdict(p, 9, d, acc)
  {
    hide *;
    ActsKill();
    MemWorkerIs();
    SolidStores();
    SmallStores();
    MemWorkerNames();
    MemWorkerBare();
    var o := OwnOrders(10)[0];
    OneList(p, 10, o, 5, 0, ExpandNames(o.names), call, d, acc);
  }

  lemma LaterFiles()
    ensures ExpandNames(["mknod", "chmod", "chown", "truncate"])
         == ["mknod", "chmod", "fchmod", "fchmodat", "lchmod", "chown", "chown32", "fchown", "fchown32", "fchownat",
            "lchown", "lchown32", "truncate", "ftruncate", "truncate64", "ftruncate64"]
  {
    hide ExpandNames, Members, PlainName;
    ExpandNothing();
    ChownMembers();
    PlainMount();
    TruncateMembers();
    PlainMembers("mknod");
    var l3 := ["truncate"] + [];
    ExpandNext("truncate", []);
    var l2 := ["chown"] + l3;
    ExpandNext("chown", l3);
    var l1 := ["chmod"] + l2;
    ExpandNext("chmod", l2);
    var l0 := ["mknod"] + l1;
    ExpandNext("mknod", l1);
    assert l0 == ["mknod", "chmod", "chown", "truncate"];
  }

  lemma EarlierFiles(later: seq<string>)
    ensures ExpandNames(["link", "symlink", "unlink", "rmdir", "rename", "mkdir"] + later)
         == ["link", "linkat", "symlink", "symlinkat", "unlink", "unlinkat", "rmdir", "rmdirat", "rename",
            "renameat", "renameat2", "mkdir", "mkdirat"] + ExpandNames(later)
  {
    hide ExpandNames, Members;
    LinkMembers();
    DirectoryMembers();
    RenameMembers();
    ExpandNext("mkdir", later);
    var l5 := ["mkdir"] + later;
    ExpandNext("rename", l5);
    var l4 := ["rename"] + l5;
    ExpandNext("rmdir", l4);
    var l3 := ["rmdir"] + l4;
    ExpandNext("unlink", l3);
    var l2 := ["unlink"] + l3;
    ExpandNext("symlink", l2);
    var l1 := ["symlink"] + l2;
    ExpandNext("link", l1);
    assert ["link"] + l1 == ["link", "symlink", "unlink", "rmdir", "rename", "mkdir"] + later;
  }

  lemma FileNamesExpanded()
    ensures ExpandNames(["link", "symlink", "unlink", "rmdir", "rename", "mkdir", "mknod", "chmod", "chown",
                        "truncate"])
         == ["link", "linkat", "symlink", "symlinkat", "unlink", "unlinkat", "rmdir", "rmdirat", "rename",
            "renameat", "renameat2", "mkdir", "mkdirat", "mknod", "chmod", "fchmod", "fchmodat", "lchmod", "chown",
            "chown32", "fchown", "fchown32", "fchownat", "lchown", "lchown32", "truncate", "ftruncate",
            "truncate64", "ftruncate64"]
  {
    hide ExpandNames;
    LaterFiles();
    EarlierFiles(["mknod", "chmod", "chown", "truncate"]);
    assert ["link", "symlink", "unlink", "rmdir", "rename", "mkdir"]
           + ["mknod", "chmod", "chown", "truncate"]
           == ["link", "symlink", "unlink", "rmdir", "rename", "mkdir", "mknod", "chmod", "chown", "truncate"];
  }

  lemma FilesBare()
    ensures Bare(["link", "linkat", "symlink", "symlinkat", "unlink", "unlinkat", "rmdir", "rmdirat", "rename",
                 "renameat", "renameat2", "mkdir", "mkdirat", "mknod", "chmod", "fchmod", "fchmodat", "lchmod",
                 "chown", "chown32", "fchown", "fchown32", "fchownat", "lchown", "lchown32", "truncate",
                 "ftruncate", "truncate64", "ftruncate64"])
  {
  }

  lemma FilesReached(p: Kernel, call: string, d: syscall)
    ensures Reaches(p, ["group:filesystem"], call, d)
        <==> call in ExpandNames(GroupTable("group:filesystem"))
  {
    hide ExpandNames, GroupTable, Hits;
    FilesAre();
    FileNamesExpanded();
    FilesBare();
    FileGroups();
    BareListHits(p, ExpandNames(GroupTable("group:filesystem")), call, d);
  }

  /** \"worker\" denies what changes the names, modes and owners of files. */
  lemma WorkerTable(p: Kernel, call: string, d: syscall, acc: word)
    requires OneNumberEach(p) && IsNumberOf(p, d.nr, call) && d.arch == p.arch
    ensures LevelVerdict(p, 9, d, acc)
         == if call in ["link", "linkat", "symlink", "symlinkat", "unlink", "unlinkat", "rmdir", "rmdirat",
                      "rename", "renameat", "renameat2", "mkdir", "mkdirat", "mknod", "chmod", "fchmod", "fchmodat",
                      "lchmod", "chown", "chown32", "fchown", "fchown32", "fchownat", "lchown", "lchown32",
                      "truncate", "ftruncate", "truncate64", "ftruncate64"]
            then Some(0x0005_0001) else LevelVerdict(p, 8, d, acc)
  {
    hide *;
    ActsKill();
    WorkerIs();
    SolidStores();
    FileGroups();
    FileNamesExpanded();
    FilesReached(p, call, d);
    LevelOfOne(p, 9, OwnOrders(9)[0], 0x0005_0001, call, d, acc);
  }

  lemma ParanoidIs()
    ensures OwnOrders(8) == [Order("syscall_kill", ["group:kill", "link", "symlink", "group:exec"])]
  {
  }

  lemma ParanoidNames()
    ensures ExpandNames(["group:kill", "link", "symlink", "group:exec"])
         == ["kill", "tkill", "tgkill", "link", "linkat", "symlink", "symlinkat", "exec_with_loader", "execv",
            "execve", "execveat"]
  {
    hide ExpandNames, Members, PlainName;
    ExpandNothing();
    LinkMembers();
    ProcessMembers();
    var l3 := ["group:exec"] + [];
    ExpandNext("group:exec", []);
    var l2 := ["symlink"] + l3;
    ExpandNext("symlink", l3);
    var l1 := ["link"] + l2;
    ExpandNext("link", l2);
    var l0 := ["group:kill"] + l1;
    ExpandNext("group:kill", l1);
    assert l0 == ["group:kill", "link", "symlink", "group:exec"];
  }

  lemma ParanoidBare()
    ensures Bare(["kill", "tkill", "tgkill", "link", "linkat", "symlink", "symlinkat", "exec_with_loader", "execv",
                 "execve", "execveat"])
  {
  }

  /** "paranoid" kills signals, links and new programs. */
  lemma ParanoidTable(p: Kernel, call: string, d: syscall, acc: word)
    requires OneNumberEach(p) && IsNumberOf(p, d.nr, call) && d.arch == p.arch
    ensures LevelVerdict(p, 8, d, acc)
         == if call in ["kill", "tkill", "tgkill", "link", "linkat", "symlink", "symlinkat", "exec_with_loader",
                      "execv", "execve", "execveat"]
            then Some(0) else LevelVerdict(p, 7, d, acc)
  {
    hide *;
    ActsKill();
    ParanoidIs();
    SolidStores();
    SmallStores();
    ParanoidNames();
    ParanoidBare();
    var o := OwnOrders(8)[0];
    OneList(p, 8, o, 4, 0, ExpandNames(o.names), call, d, acc);
  }

  lemma HighIs()
    ensures OwnOrders(7) == [Order("syscall_deny", ["group:kill", "link", "symlink"])]
  {
  }

  lemma HighNames()
    ensures ExpandNames(["group:kill", "link", "symlink"])
         == ["kill", "tkill", "tgkill", "link", "linkat", "symlink", "symlinkat"]
  {
    hide ExpandNames, Members, PlainName;
    ExpandNothing();
    LinkMembers();
    ProcessMembers();
    var l2 := ["symlink"] + [];
    ExpandNext("symlink", []);
    var l1 := ["link"] + l2;
    ExpandNext("link", l2);
    var l0 := ["group:kill"] + l1;
    ExpandNext("group:kill", l1);
    assert l0 == ["group:kill", "link", "symlink"];
  }

  lemma HighBare()
    ensures Bare(["kill", "tkill", "tgkill", "link", "linkat", "symlink", "symlinkat"])
  {
  }

  /** "high" denies signals and links. */
  lemma HighTable(p: Kernel, call: string, d: syscall, acc: word)
    requires OneNumberEach(p) && IsNumberOf(p, d.nr, call) && d.arch == p.arch
    ensures LevelVerdict(p, 7, d, acc)
         == if call in ["kill", "tkill", "tgkill", "link", "linkat", "symlink", "symlinkat"]
            then Some(0x0005_0001) else LevelVerdict(p, 6, d, acc)
  {
    hide *;
    ActsKill();
    HighIs();
    SolidStores();
    SmallStores();
    HighNames();
    HighBare();
    var o := OwnOrders(7)[0];
    OneList(p, 7, o, 3, 0x0005_0001, ExpandNames(o.names), call, d, acc);
  }

  lemma ConstrainedIs()
    ensures OwnOrders(6) == [Order("syscall_allow", ["ioctl(termget)", "ioctl(termset)"]),
                             Order("syscall_kill",
                                   ["mprotect(exec)", "mmap(exec)", "ioctl", "group:ptrace", "utimes"])]
  {
  }

  lemma TerminalNames()
    ensures ExpandNames(["ioctl(termget)", "ioctl(termset)"]) == ["ioctl(termget)", "ioctl(termset)"]
  {
    hide ExpandNames, Members, PlainName;
    ExpandNothing();
    PlainIoctl();
    PlainMembers("ioctl(termget)");
    PlainMembers("ioctl(termset)");
    ExpandNext("ioctl(termset)", []);
    ExpandNext("ioctl(termget)", ["ioctl(termset)"]);
    assert ["ioctl(termset)"] + [] == ["ioctl(termset)"];
    assert ["ioctl(termget)"] + ["ioctl(termset)"] == ["ioctl(termget)", "ioctl(termset)"];
  }

  lemma TerminalWords()
    ensures Spelled("ioctl", "termget") == "ioctl(termget)" && Spelled("ioctl", "termset") == "ioctl(termset)"
    ensures Argument("termget") && Argument("termset") && '(' !in "ioctl"
    ensures !IsDigit("termget"[0]) && !IsDigit("termset"[0])
  {
  }

  /** The two requests that are allowed to terminals. */
  lemma TerminalsReached(p: Kernel, call: string, d: syscall)
    requires OneNumberEach(p) && call in p.nr
    ensures Reaches(p, ["ioctl(termget)", "ioctl(termset)"], call, d)
        <==> call == "ioctl" && (d.args[1] % 0x1_0000_0000 == 0x5401 || d.args[1] % 0x1_0000_0000 == 0x5402)
  {
    var names := ["ioctl(termget)", "ioctl(termset)"];
    TerminalWords();
    hide *;
    TerminalNames();
    SmallIoctls();
    SpellingsDiffer();
    ReachesSmall(p, names, 1, call, d);
    SpelledHitsOwn(p, names[0], "ioctl", "termget", call, d);
    SpelledHitsOwn(p, names[1], "ioctl", "termset", call, d);
    if call == "ioctl" {
      IoctlWords(p, "termget", d);
      IoctlWords(p, "termset", d);
    }
    assert forall t :: t in names <==> t == names[0] || t == names[1];
  }

  function ProtectedCalls(): seq<string> { ["mprotect", "mmap", "mmap2"] }

  function ConstrainedCalls(): seq<string> {
    ["ioctl", "ptrace", "process_vm_readv", "process_vm_writev", "kcmp", "utimes", "utimesat", "futimesat",
     "utimensat", "futimens"]
  }

  lemma ProtectedSpellings()
    ensures Spellings(ProtectedCalls(), "exec") == ["mprotect(exec)", "mmap(exec)", "mmap2(exec)"]
  {
    MprotectSpelled();
    MmapSpelled();
    NoSpellings("exec");
    hide Spellings, Spelled;
    SpellingsNext("mmap2", [], "exec");
    SpellingsNext("mmap", ["mmap2"], "exec");
    SpellingsNext("mprotect", ["mmap", "mmap2"], "exec");
    assert ["mmap2"] + [] == ["mmap2"] && ["mmap"] + ["mmap2"] == ["mmap", "mmap2"];
    assert ProtectedCalls() == ["mprotect"] + ["mmap", "mmap2"];
  }

  lemma MprotectSpelled()
    ensures Spelled("mprotect", "exec") == "mprotect(exec)"
  {
  }

  lemma MmapMembers()
    ensures Members("mmap(exec)") == ["mmap(exec)", "mmap2(exec)"]
  {
    MmapIsGood();
    MmapSpelled();
    hide CallTable, CleanName, Graphic;
    CleanIsCall("mmap(exec)");
  }

  lemma ConstrainedNames()
    ensures ExpandNames(["mprotect(exec)", "mmap(exec)", "ioctl", "group:ptrace", "utimes"])
         == Spellings(ProtectedCalls(), "exec") + ConstrainedCalls()
  {
    hide ExpandNames, Members, PlainName, Spellings, ProtectedCalls;
    ProtectedSpellings();
    ExpandNothing();
    PlainIoctl();
    MmapMembers();
    ProcessMembers();
    RenameMembers();
    PlainMembers("mprotect(exec)");
    PlainMembers("ioctl");
    var l4 := ["utimes"] + [];
    ExpandNext("utimes", []);
    var l3 := ["group:ptrace"] + l4;
    ExpandNext("group:ptrace", l4);
    var l2 := ["ioctl"] + l3;
    ExpandNext("ioctl", l3);
    var l1 := ["mmap(exec)"] + l2;
    ExpandNext("mmap(exec)", l2);
    ExpandNext("mprotect(exec)", l1);
    assert ["mprotect(exec)"] + l1 == ["mprotect(exec)", "mmap(exec)", "ioctl", "group:ptrace", "utimes"];
  }

  lemma ConstrainedBare()
    ensures Bare(ConstrainedCalls()) && Bare(ProtectedCalls()) && Argument("exec")
  {
  }

  lemma ConstrainedHits(p: Kernel, call: string, d: syscall)
    requires OneNumberEach(p) && call in p.nr
    ensures WellFormedChecks(ParseArg0(p, p.nr[call], "exec"))
    ensures Reaches(p, ["mprotect(exec)", "mmap(exec)", "ioctl", "group:ptrace", "utimes"], call, d)
        <==> (call in ProtectedCalls() && ChecksHold(ParseArg0(p, p.nr[call], "exec"), d)) || call in ConstrainedCalls()
  {
    var names := ["mprotect(exec)", "mmap(exec)", "ioctl", "group:ptrace", "utimes"];
    hide *;
    ConstrainedNames();
    ConstrainedBare();
    SmallIoctls();
    ReachesSmall(p, names, 5, call, d);
    MixedListHits(p, ProtectedCalls(), "exec", ConstrainedCalls(), call, d);
  }

  /** Memory to be executed, all other requests to devices, tracing, and changing times. */
  lemma ConstrainedReached(p: Kernel, call: string, d: syscall)
    requires OneNumberEach(p) && call in p.nr
    ensures Reaches(p, ["mprotect(exec)", "mmap(exec)", "ioctl", "group:ptrace", "utimes"], call, d)
        <==> ((call == "mprotect" || call == "mmap" || call == "mmap2") && d.args[2] % 0x1_0000_0000 / 4 % 2 == 1)
             || call in ConstrainedCalls()
  {
    ExecIs();
    ProtectedIs(call);
    hide *;
    ConstrainedHits(p, call, d);
    if call in ProtectedCalls() {
      ProtectionWords(p, call, "exec", d);
    }
  }

  lemma ProtectedIs(call: string)
    ensures call in ProtectedCalls() <==> call == "mprotect" || call == "mmap" || call == "mmap2"
  {
  }

  lemma ConstrainedSplit(p: Kernel, call: string, d: syscall, acc: word)
    requires OneNumberEach(p) && IsNumberOf(p, d.nr, call) && d.arch == p.arch
    ensures LevelVerdict(p, 6, d, acc)
         == if Reaches(p, ["ioctl(termget)", "ioctl(termset)"], call, d) then Some(0x7FFF_0000)
            else if Reaches(p, ["mprotect(exec)", "mmap(exec)", "ioctl", "group:ptrace", "utimes"], call, d)
            then Some(0) else LevelVerdict(p, 5, d, acc)
  {
    hide *;
    ActsKill();
    ConstrainedIs();
    SolidTerminals();
    SolidIoctls();
    var o1, o2 := OwnOrders(6)[0], OwnOrders(6)[1];
    LevelOfTwo(p, 6, o1, 0x7FFF_0000, o2, 0, call, d, acc);
  }

  lemma ConstrainedVerdict(p: Kernel, call: string, d: syscall, acc: word)
    requires OneNumberEach(p) && IsNumberOf(p, d.nr, call) && d.arch == p.arch
    ensures LevelVerdict(p, 6, d, acc)
         == if call == "ioctl" && (d.args[1] % 0x1_0000_0000 == 0x5401 || d.args[1] % 0x1_0000_0000 == 0x5402)
            then Some(0x7FFF_0000)
            else if ((call == "mprotect" || call == "mmap" || call == "mmap2")
                     && d.args[2] % 0x1_0000_0000 / 4 % 2 == 1)
                    || call in ConstrainedCalls()
            then Some(0) else LevelVerdict(p, 5, d, acc)
  {
    hide *;
    NumberOfCall(p, call, d);
    ConstrainedSplit(p, call, d, acc);
    TerminalsReached(p, call, d);
    ConstrainedReached(p, call, d);
  }

  /**
   "constrained" allows a terminal's settings to be read and written, and kills every other request to a device,
   memory that is to be executed, tracing, and changing times.
   */
  lemma ConstrainedTable(p: Kernel, call: string, d: syscall, acc: word)
    requires OneNumberEach(p) && IsNumberOf(p, d.nr, call) && d.arch == p.arch
    ensures LevelVerdict(p, 6, d, acc)
         == if call == "ioctl" && (d.args[1] % 0x1_0000_0000 == 0x5401 || d.args[1] % 0x1_0000_0000 == 0x5402)
            then Some(0x7FFF_0000)
            else if ((call == "mprotect" || call == "mmap" || call == "mmap2")
                     && d.args[2] % 0x1_0000_0000 / 4 % 2 == 1)
                    || call in ["ioctl", "ptrace", "process_vm_readv", "process_vm_writev", "kcmp", "utimes",
                                 "utimesat", "futimesat", "utimensat", "futimens"]
            then Some(0) else LevelVerdict(p, 5, d, acc)
  {
    ConstrainedVerdict(p, call, d, acc);
    assert ConstrainedCalls() ==
           ["ioctl", "ptrace", "process_vm_readv", "process_vm_writev", "kcmp", "utimes", "utimesat", "futimesat",
            "utimensat", "futimens"];
    hide *;
  }

  lemma UntrustedIs()
    ensures OwnOrders(5) == [Order("syscall_kill",
                                   ["group:chroot", "group:keyring", "group:ns", "acct", "pidfd_open"]),
                             Order("syscall_deny", ["utimes"])]
  {
  }

  lemma UntrustedNames()
    ensures ExpandNames(["group:chroot", "group:keyring", "group:ns", "acct", "pidfd_open"])
         == ["chroot", "pivot_root", "add_key", "request_key", "keyctl", "unshare", "setns", "acct", "pidfd_open"]
  {
    hide ExpandNames, Members, PlainName;
    ExpandNothing();
    ContainerMembers();
    PlainContainer();
    PlainMembers("acct");
    PlainMembers("pidfd_open");
    var l4 := ["pidfd_open"] + [];
    ExpandNext("pidfd_open", []);
    var l3 := ["acct"] + l4;
    ExpandNext("acct", l4);
    var l2 := ["group:ns"] + l3;
    ExpandNext("group:ns", l3);
    var l1 := ["group:keyring"] + l2;
    ExpandNext("group:keyring", l2);
    var l0 := ["group:chroot"] + l1;
    ExpandNext("group:chroot", l1);
    assert l0 == ["group:chroot", "group:keyring", "group:ns", "acct", "pidfd_open"];
  }

  lemma UntrustedNamesBehind()
    ensures ExpandNames(["utimes"])
         == ["utimes", "utimesat", "futimesat", "utimensat", "futimens"]
  {
    hide ExpandNames, Members, PlainName;
    ExpandNothing();
    RenameMembers();
    var l0 := ["utimes"] + [];
    ExpandNext("utimes", []);
    assert l0 == ["utimes"];
  }

  lemma UntrustedBare()
    ensures Bare(["chroot", "pivot_root", "add_key", "request_key", "keyctl", "unshare", "setns", "acct",
                 "pidfd_open"])
  {
  }

  lemma UntrustedBareBehind()
    ensures Bare(["utimes", "utimesat", "futimesat", "utimensat", "futimens"])
  {
  }

  /** "untrusted" kills what leaves or makes containers, and denies changing times. */
  lemma UntrustedTable(p: Kernel, call: string, d: syscall, acc: word)
    requires OneNumberEach(p) && IsNumberOf(p, d.nr, call) && d.arch == p.arch
    ensures LevelVerdict(p, 5, d, acc)
         == if call in ["chroot", "pivot_root", "add_key", "request_key", "keyctl", "unshare", "setns", "acct",
                      "pidfd_open"]
            then Some(0)
            else if call in ["utimes", "utimesat", "futimesat", "utimensat", "futimens"]
            then Some(0x0005_0001) else LevelVerdict(p, 4, d, acc)
  {
    hide *;
    ActsKill();
    UntrustedIs();
    SolidContainers();
    SolidIoctls();
    SmallContainers();
    SmallIoctls();
    UntrustedNames();
    UntrustedNamesBehind();
    UntrustedBare();
    UntrustedBareBehind();
    var o1, o2 := OwnOrders(5)[0], OwnOrders(5)[1];
    TwoLists(p, 5, o1, 3, 0, ExpandNames(o1.names), o2, 5, 0x0005_0001, ExpandNames(o2.names), call, d, acc);
  }

  lemma GuestIs()
    ensures OwnOrders(4) == [Order("syscall_deny", ["group:keyring"])]
  {
  }

  lemma GuestNames()
    ensures ExpandNames(["group:keyring"])
         == ["add_key", "request_key", "keyctl"]
  {
    hide ExpandNames, Members, PlainName;
    ExpandNothing();
    ContainerMembers();
    var l0 := ["group:keyring"] + [];
    ExpandNext("group:keyring", []);
    assert l0 == ["group:keyring"];
  }

  lemma GuestBare()
    ensures Bare(["add_key", "request_key", "keyctl"])
  {
  }

  /** "guest" denies the kernel's keyrings. */
  lemma GuestTable(p: Kernel, call: string, d: syscall, acc: word)
    requires OneNumberEach(p) && IsNumberOf(p, d.nr, call) && d.arch == p.arch
    ensures LevelVerdict(p, 4, d, acc)
         == if call in ["add_key", "request_key", "keyctl"]
            then Some(0x0005_0001) else LevelVerdict(p, 3, d, acc)
  {
    hide *;
    ActsKill();
    GuestIs();
    SolidContainers();
    SmallContainers();
    GuestNames();
    GuestBare();
    var o := OwnOrders(4)[0];
    OneList(p, 4, o, 3, 0x0005_0001, ExpandNames(o.names), call, d, acc);
  }

  lemma OwnerNames()
    ensures ExpandNames(["chown", "chmod(exec)"])
         == ["chown", "chown32", "fchown", "fchown32", "fchownat", "lchown", "lchown32"]
            + Spellings(ChmodCalls(), "exec")
  {
    hide ExpandNames, Members, Spellings, ChmodCalls;
    ChmodListed();
    ChownMembers();
    ExpandNothing();
    ExpandNext("chmod(exec)", []);
    ExpandNext("chown", ["chmod(exec)"]);
    assert ["chmod(exec)"] + [] == ["chmod(exec)"];
    assert ["chown"] + ["chmod(exec)"] == ["chown", "chmod(exec)"];
  }

  lemma OwnerBare()
    ensures Bare(["chown", "chown32", "fchown", "fchown32", "fchownat", "lchown", "lchown32"])
  {
  }

  /** What makes a file executable, as far as it is tested. */
  lemma ExecReached(p: Kernel, call: string, d: syscall)
    requires OneNumberEach(p) && call in p.nr
    ensures WellFormedChecks(ParseArg0(p, p.nr[call], "exec"))
    ensures call in ChmodCalls() && ChecksHold(ParseArg0(p, p.nr[call], "exec"), d) <==>
            var f1, f2 := d.args[1] % 0x1_0000_0000, d.args[2] % 0x1_0000_0000;
            var m2, m3 := d.args[2] % 0x1_0000_0000, d.args[3] % 0x1_0000_0000;
            || (call in ["chmod", "fchmod", "lchmod", "fchmodat", "creat"]
                && (m2 % 2 == 1 || m2 / 8 % 2 == 1 || m2 / 64 % 2 == 1))
            || (call in ["open", "open2"] && f1 / 64 % 2 == 1
                && (m2 % 2 == 1 || m2 / 8 % 2 == 1 || m2 / 64 % 2 == 1))
            || (call in ["openat", "openat2"] && f2 / 64 % 2 == 1
                && (m3 % 2 == 1 || m3 / 8 % 2 == 1 || m3 / 64 % 2 == 1))
  {
    ExecIs();
    InChmodCalls(call);
    hide *;
    ChecksWellFormed(p, call, "exec");
    if call == "open" || call == "open2" {
      OpenWords(p, call, "exec", d);
    } else if call == "openat" || call == "openat2" {
      OpenatWords(p, call, "exec", d);
    } else if call == "creat" {
      CreatWords(p, "exec", d);
    } else if call in ChmodCalls() {
      ModeWords(p, call, "exec", d);
    }
  }

  lemma AdminNamesExpanded()
    ensures ExpandNames(["group:sysadmin", "bpf", "capset"])
         == ["settimeofday", "clock_settime", "clock_adjtime", "quotactl", "reboot", "swapon", "swapoff", "mount",
            "umount", "umount2", "mknod", "quotactl", "sethostname", "setdomainname", "bpf", "capset"]
  {
    hide ExpandNames, Members, PlainName;
    ExpandNothing();
    AdminMembers();
    PlainMount();
    PlainMembers("bpf");
    PlainMembers("capset");
    var l2 := ["capset"] + [];
    ExpandNext("capset", []);
    var l1 := ["bpf"] + l2;
    ExpandNext("bpf", l2);
    var l0 := ["group:sysadmin"] + l1;
    ExpandNext("group:sysadmin", l1);
    assert l0 == ["group:sysadmin", "bpf", "capset"];
  }

  lemma AdminBare()
    ensures Bare(["settimeofday", "clock_settime", "clock_adjtime", "quotactl", "reboot", "swapon", "swapoff",
                 "mount", "umount", "umount2", "mknod", "quotactl", "sethostname", "setdomainname", "bpf", "capset"])
  {
  }

  lemma OwnersReached(p: Kernel, call: string, d: syscall)
    requires OneNumberEach(p) && call in p.nr
    ensures WellFormedChecks(ParseArg0(p, p.nr[call], "exec"))
    ensures Reaches(p, ["chown", "chmod(exec)"], call, d)
        <==> call in ["chown", "chown32", "fchown", "fchown32", "fchownat", "lchown", "lchown32"]
             || (call in ChmodCalls() && ChecksHold(ParseArg0(p, p.nr[call], "exec"), d))
  {
    var bare := ["chown", "chown32", "fchown", "fchown32", "fchownat", "lchown", "lchown32"];
    var names := ["chown", "chmod(exec)"];
    hide *;
    OwnerNames();
    OwnerBare();
    ChmodBare();
    SmallUsers();
    ReachesSmall(p, names, 9, call, d);
    MixedListHits(p, ChmodCalls(), "exec", bare, call, d);
    assert forall t :: t in bare + Spellings(ChmodCalls(), "exec") <==> t in Spellings(ChmodCalls(), "exec") + bare;
  }

  lemma ChmodBare()
    ensures Bare(ChmodCalls()) && Argument("exec")
  {
  }

  lemma AdminsReached(p: Kernel, call: string, d: syscall)
    ensures Reaches(p, ["group:sysadmin", "bpf", "capset"], call, d)
        <==> call in ExpandNames(["group:sysadmin", "bpf", "capset"])
  {
    var names := ["group:sysadmin", "bpf", "capset"];
    hide *;
    AdminNamesExpanded();
    AdminBare();
    SmallUsers();
    ReachesSmall(p, names, 14, call, d);
    BareListHits(p, ExpandNames(names), call, d);
  }

  /** "user" denies changing owners and making files executable, as far as that is tested, and kills administration. */
  lemma UserTable(p: Kernel, call: string, d: syscall, acc: word)
    requires OneNumberEach(p) && IsNumberOf(p, d.nr, call) && d.arch == p.arch
    ensures LevelVerdict(p, 3, d, acc)
         == var f1, f2 := d.args[1] % 0x1_0000_0000, d.args[2] % 0x1_0000_0000;
            var m2, m3 := d.args[2] % 0x1_0000_0000, d.args[3] % 0x1_0000_0000;
            if || call in ["chown", "chown32", "fchown", "fchown32", "fchownat", "lchown", "lchown32"]
               || (call in ["chmod", "fchmod", "lchmod", "fchmodat", "creat"]
                   && (m2 % 2 == 1 || m2 / 8 % 2 == 1 || m2 / 64 % 2 == 1))
               || (call in ["open", "open2"] && f1 / 64 % 2 == 1
                   && (m2 % 2 == 1 || m2 / 8 % 2 == 1 || m2 / 64 % 2 == 1))
               || (call in ["openat", "openat2"] && f2 / 64 % 2 == 1
                   && (m3 % 2 == 1 || m3 / 8 % 2 == 1 || m3 / 64 % 2 == 1))
            then Some(0x0005_0001)
            else if call in ["settimeofday", "clock_settime", "clock_adjtime", "quotactl", "reboot", "swapon",
                               "swapoff", "mount", "umount", "umount2", "mknod", "quotactl", "sethostname",
                               "setdomainname", "bpf", "capset"]
            then Some(0) else LevelVerdict(p, 2, d, acc)
  {
    NumberOfCall(p, call, d);
    hide *;
    ActsKill();
    UserIs();
    SolidUsers();
    OwnersReached(p, call, d);
    ExecReached(p, call, d);
    AdminsReached(p, call, d);
    AdminNamesExpanded();
    LevelOfTwo(p, 3, OwnOrders(3)[0], 0x0005_0001, OwnOrders(3)[1], 0, call, d, acc);
  }

  lemma BasicIs()
    ensures OwnOrders(2) == [Order("syscall_deny", ["acct", "capset"])]
  {
  }

  lemma BasicNames()
    ensures ExpandNames(["acct", "capset"])
         == ["acct", "capset"]
  {
    hide ExpandNames, Members, PlainName;
    ExpandNothing();
    PlainContainer();
    PlainMount();
    PlainMembers("acct");
    PlainMembers("capset");
    var l1 := ["capset"] + [];
    ExpandNext("capset", []);
    var l0 := ["acct"] + l1;
    ExpandNext("acct", l1);
    assert l0 == ["acct", "capset"];
  }

  lemma BasicBare()
    ensures Bare(["acct", "capset"])
  {
  }

  /** "basic" denies accounting and capabilities. */
  lemma BasicTable(p: Kernel, call: string, d: syscall, acc: word)
    requires OneNumberEach(p) && IsNumberOf(p, d.nr, call) && d.arch == p.arch
    ensures LevelVerdict(p, 2, d, acc)
         == if call in ["acct", "capset"]
            then Some(0x0005_0001) else LevelVerdict(p, 1, d, acc)
  {
    hide *;
    ActsKill();
    BasicIs();
    SolidUsers();
    SmallUsers();
    BasicNames();
    BasicBare();
    var o := OwnOrders(2)[0];
    OneList(p, 2, o, 1, 0x0005_0001, ExpandNames(o.names), call, d, acc);
  }

  lemma MinimalIs()
    ensures OwnOrders(1) == [Order("syscall_deny", ["ptrace"]),
                             Order("syscall_kill",
                                   ["group:kexec", "uselib", "userfaultfd", "personality", "perf_event_open",
                                    "group:kern_mods", "kexec_load", "get_kernel_syms", "lookup_dcookie", "vm86",
                                    "vm86old", "mbind", "move_pages"])]
  {
  }

  lemma MinimalNames()
    ensures ExpandNames(["ptrace"])
         == ["ptrace"]
  {
    hide ExpandNames, Members, PlainName;
    ExpandNothing();
    PlainOpen();
    PlainMembers("ptrace");
    var l0 := ["ptrace"] + [];
    ExpandNext("ptrace", []);
    assert l0 == ["ptrace"];
  }

  lemma MinimalNamesBehind()
    ensures ExpandNames(["group:kexec", "uselib", "userfaultfd", "personality", "perf_event_open",
                        "group:kern_mods", "kexec_load", "get_kernel_syms", "lookup_dcookie", "vm86", "vm86old",
                        "mbind", "move_pages"])
         == ["kexec_load", "kexec_file_load", "uselib", "userfaultfd", "personality", "perf_event_open",
            "group:kern_mods", "kexec_load", "get_kernel_syms", "lookup_dcookie", "vm86", "vm86old", "mbind",
            "move_pages"]
  {
    hide ExpandNames, Members, PlainName;
    ExpandNothing();
    AdminMembers();
    PlainKernel();
    PlainMemory();
    SymsAlone();
    PlainMembers("uselib");
    PlainMembers("userfaultfd");
    PlainMembers("personality");
    PlainMembers("perf_event_open");
    PlainMembers("kexec_load");
    PlainMembers("lookup_dcookie");
    PlainMembers("vm86");
    PlainMembers("vm86old");
    PlainMembers("mbind");
    PlainMembers("move_pages");
    var l12 := ["move_pages"] + [];
    ExpandNext("move_pages", []);
    var l11 := ["mbind"] + l12;
    ExpandNext("mbind", l12);
    var l10 := ["vm86old"] + l11;
    ExpandNext("vm86old", l11);
    var l9 := ["vm86"] + l10;
    ExpandNext("vm86", l10);
    var l8 := ["lookup_dcookie"] + l9;
    ExpandNext("lookup_dcookie", l9);
    var l7 := ["get_kernel_syms"] + l8;
    ExpandNext("get_kernel_syms", l8);
    var l6 := ["kexec_load"] + l7;
    ExpandNext("kexec_load", l7);
    var l5 := ["group:kern_mods"] + l6;
    ExpandNext("group:kern_mods", l6);
    var l4 := ["perf_event_open"] + l5;
    ExpandNext("perf_event_open", l5);
    var l3 := ["personality"] + l4;
    ExpandNext("personality", l4);
    var l2 := ["userfaultfd"] + l3;
    ExpandNext("userfaultfd", l3);
    var l1 := ["uselib"] + l2;
    ExpandNext("uselib", l2);
    var l0 := ["group:kexec"] + l1;
    ExpandNext("group:kexec", l1);
    assert l0 == ["group:kexec", "uselib", "userfaultfd", "personality", "perf_event_open", "group:kern_mods",
              "kexec_load", "get_kernel_syms", "lookup_dcookie", "vm86", "vm86old", "mbind", "move_pages"];
  }

  lemma MinimalBare()
    ensures Bare(["ptrace"])
  {
  }

  lemma MinimalBareBehind()
    ensures Bare(["kexec_load", "kexec_file_load", "uselib", "userfaultfd", "personality", "perf_event_open",
                 "group:kern_mods", "kexec_load", "get_kernel_syms", "lookup_dcookie", "vm86", "vm86old", "mbind",
                 "move_pages"])
  {
  }

  /** "minimal" denies tracing, and kills what replaces or inspects the kernel; its group of modules is misspelt. */
  lemma MinimalTable(p: Kernel, call: string, d: syscall, acc: word)
    requires OneNumberEach(p) && IsNumberOf(p, d.nr, call) && d.arch == p.arch
    ensures LevelVerdict(p, 1, d, acc)
         == if call in ["ptrace"]
            then Some(0x0005_0001)
            else if call in ["kexec_load", "kexec_file_load", "uselib", "userfaultfd", "personality",
                               "perf_event_open", "group:kern_mods", "kexec_load", "get_kernel_syms",
                               "lookup_dcookie", "vm86", "vm86old", "mbind", "move_pages"]
            then Some(0) else LevelVerdict(p, 0, d, acc)
  {
    hide *;
    ActsKill();
    MinimalIs();
    SolidUsers();
    SolidKernel();
    SmallUsers();
    SmallKernel();
    MinimalNames();
    MinimalNamesBehind();
    MinimalBare();
    MinimalBareBehind();
    var o1, o2 := OwnOrders(1)[0], OwnOrders(1)[1];
    TwoLists(p, 1, o1, 1, 0x0005_0001, ExpandNames(o1.names), o2, 2, 0, ExpandNames(o2.names), call, d, acc);
  }

  lemma GroundIs(p: Kernel, d: syscall, acc: word)
    requires d.arch == p.arch
    ensures LevelVerdict(p, 0, d, acc) == Some(0x7FFF_0000)
  {
    ActsKill();
    AllowIs();
    NoLevelRules(p);
    hide LevelVerdict, LevelRules;
    LevelDecides(p, 0, d, acc);
  }

  lemma AllowIs()
    ensures Verdict(Allow) == 0x7FFF_0000
  {
  }

  lemma ProtectionIsNoFile(p: Kernel, call: string, d: syscall, acc: word)
    requires OneNumberEach(p) && IsNumberOf(p, d.nr, call) && d.arch == p.arch
    requires call == "mmap" || call == "mmap2" || call == "mprotect"
    ensures LevelVerdict(p, 9, d, acc) == LevelVerdict(p, 8, d, acc)
  {
    hide *;
    WorkerTable(p, call, d, acc);
  }

  lemma ProtectionIsNoProcess(p: Kernel, call: string, d: syscall, acc: word)
    requires OneNumberEach(p) && IsNumberOf(p, d.nr, call) && d.arch == p.arch
    requires call == "mmap" || call == "mmap2" || call == "mprotect"
    ensures LevelVerdict(p, 8, d, acc) == LevelVerdict(p, 6, d, acc)
  {
    hide *;
    HighTable(p, call, d, acc);
    ParanoidTable(p, call, d, acc);
  }

  /** From "constrained" on, every level kills a call that asks for memory to be executed. */
  lemma ExecutableMemory(p: Kernel, rank: nat, call: string, d: syscall, acc: word)
    requires OneNumberEach(p) && IsNumberOf(p, d.nr, call) && d.arch == p.arch && 6 <= rank <= 10
    requires (call == "mmap" || call == "mmap2" || call == "mprotect") && d.args[2] % 0x1_0000_0000 / 4 % 2 == 1
    ensures LevelVerdict(p, rank, d, acc) == Some(0)
  {
    hide *;
    ConstrainedVerdict(p, call, d, acc);
    if rank == 7 {
      HighTable(p, call, d, acc);
    } else if rank > 7 {
      ProtectionIsNoProcess(p, call, d, acc);
      ProtectionIsNoFile(p, call, d, acc);
      if rank == 10 {
        MemWorkerTable(p, call, d, acc);
      }
    }
  }
}
