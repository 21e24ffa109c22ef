/**
 The names that the directives of the security levels come down to, told apart by their first letters: calls
 whose names start alike are of one family, variants of a call are of its family, and each level kills, denies
 or allows calls of certain families only.
 */
module SeccompFamilies {
  import opened SeccompGroups
  import opened SeccompLevels

  // ---------------------------------------------------------------- names by their first letters

  datatype Family =
    | Tracing | Accounting | Owning | Opening | Keys | Times | Control | Signals | Links | Nodes | Files
    | Modules | Others

  function Start(a: char, b: char, c: char): Family {
    if a == 'u' then
      (if b == 'n' && c == 'l' then Files else if b == 't' && c == 'i' then Times else Others)
    else if a == 'r' then
      (if (b == 'm' && c == 'd') || (b == 'e' && c == 'n') then Files
       else if b == 'e' && c == 'q' then Keys else Others)
    else if a == 'm' then (if b == 'k' && c == 'd' then Files else if b == 'k' && c == 'n' then Nodes else Others)
    else if a == 't' then
      (if b == 'r' && c == 'u' then Files
       else if (b == 'k' && c == 'i') || (b == 'g' && c == 'k') then Signals else Others)
    else if a == 'f' then
      (if b == 't' && c == 'r' then Files else if b == 'c' && c == 'h' then Owning
       else if b == 'u' && c == 't' then Times
       else if b == 'i' && c == 'n' then Modules else Others)
    else if a == 'c' then
      (if b == 'h' && (c == 'o' || c == 'm') then Owning else if b == 'r' && c == 'e' then Opening
       else if b == 'a' && c == 'p' then Accounting else Others)
    else if a == 'l' then (if b == 'c' && c == 'h' then Owning else if b == 'i' && c == 'n' then Links else Others)
    else if a == 's' then (if b == 'y' && c == 'm' then Links else Others)
    else if a == 'k' then (if b == 'i' && c == 'l' then Signals else if b == 'e' && c == 'y' then Keys else Others)
    else if a == 'a' then (if b == 'd' && c == 'd' then Keys else if b == 'c' && c == 'c' then Accounting else Others)
    else if a == 'i' then (if b == 'n' && c == 'i' then Modules else if b == 'o' && c == 'c' then Control else Others)
    else if a == 'o' then (if b == 'p' && c == 'e' then Opening else Others)
    else if a == 'p' then (if b == 't' && c == 'r' then Tracing else Others)
    else if a == 'd' then (if b == 'e' && c == 'l' then Modules else Others)
    else if a == 'q' then (if b == 'u' && c == 'e' then Modules else Others)
    else Others
  }

  /** Calls whose names start alike; create_module is not creat, and accept is not acct. */
  function FamilyOf(s: string): Family {
    if |s| < 3 then Others
    else
      var f := Start(s[0], s[1], s[2]);
      if f == Opening && s[0] == 'c' && |s| > 5 && s[5] == 'e' then Modules
      else if f == Accounting && |s| > 3 && s[3] == 'e' then Others
      else f
  }

  /** Names of one family. */
  predicate AllOf(f: Family, names: seq<string>) {
    forall i :: 0 <= i < |names| ==> FamilyOf(names[i]) == f
  }

  // ---------------------------------------------------------------- variants start alike

  lemma SocketFamily()
    ensures FamilyOf("socket") == FamilyOf("socketpair") == Others
    ensures FamilyOf("socketcall(socket)") == FamilyOf("socketcall(socketpair)") == Others
    ensures FamilyOf("socket(ip)") == FamilyOf("socketpair(ip)") == Others
    ensures FamilyOf("socketcall(socket,ip)") == FamilyOf("socketcall(socketpair,ip)") == Others
  {
  }

  lemma LocalSocketFamily()
    ensures FamilyOf("socket(unix)") == FamilyOf("socketpair(unix)") == Others
    ensures FamilyOf("socketcall(socket,unix)") == FamilyOf("socketcall(socketpair,unix)") == Others
    ensures FamilyOf("socket(packet)") == FamilyOf("socketpair(packet)") == Others
    ensures FamilyOf("socketcall(socket,packet)") == FamilyOf("socketcall(socketpair,packet)") == Others
  {
  }

  lemma ServerFamily()
    ensures FamilyOf("connect") == FamilyOf("socketcall(connect)") == Others
    ensures FamilyOf("bind") == FamilyOf("socketcall(bind)") == Others
    ensures FamilyOf("accept") == FamilyOf("accept4") == Others
    ensures FamilyOf("socketcall(accept)") == FamilyOf("socketcall(accept4)") == Others
    ensures FamilyOf("listen") == FamilyOf("socketcall(listen)") == Others
  {
  }

  lemma FileFamily()
    ensures FamilyOf("link") == FamilyOf("linkat") == FamilyOf("symlink") == FamilyOf("symlinkat") == Links
    ensures FamilyOf("unlink") == FamilyOf("unlinkat") == Files
    ensures FamilyOf("mkdir") == FamilyOf("mkdirat") == Files
    ensures FamilyOf("rmdir") == FamilyOf("rmdirat") == Files
  {
  }

  lemma RenameFamily()
    ensures FamilyOf("rename") == FamilyOf("renameat") == FamilyOf("renameat2") == Files
    ensures FamilyOf("truncate") == FamilyOf("ftruncate") == FamilyOf("truncate64") == FamilyOf("ftruncate64") == Files
  {
  }

  lemma OwnerFamily()
    ensures FamilyOf("utimes") == FamilyOf("utimesat") == FamilyOf("futimesat") == Times
    ensures FamilyOf("utimensat") == FamilyOf("futimens") == Times
    ensures FamilyOf("mmap") == FamilyOf("mmap2") == FamilyOf("mmap(exec)") == FamilyOf("mmap2(exec)") == Others
  {
  }

  lemma ModeFamily()
    ensures FamilyOf("chown") == FamilyOf("chown32") == FamilyOf("fchown") == FamilyOf("fchown32") == Owning
    ensures FamilyOf("fchownat") == FamilyOf("lchown") == FamilyOf("lchown32") == Owning
    ensures FamilyOf("chmod") == FamilyOf("fchmod") == FamilyOf("fchmodat") == FamilyOf("lchmod") == Owning
  {
  }

  lemma FileTableFamily(m: string)
    requires m != "chmod(exec)"
    ensures AllOf(FamilyOf(m), FileTable(m))
  {
    hide FamilyOf;
    FileFamily();
    RenameFamily();
    OwnerFamily();
    ModeFamily();
  }

  /** The variants of a call are of its family, but for what "chmod(exec)" stands for. */
  lemma CallTableFamily(m: string)
    requires m != "chmod(exec)"
    ensures AllOf(FamilyOf(m), CallTable(m))
  {
    hide FamilyOf, FileTable;
    SocketFamily();
    LocalSocketFamily();
    ServerFamily();
    FileTableFamily(m);
  }

  // ---------------------------------------------------------------- what the directives come down to

  /** The families of the calls that a level denies or allows. */
  predicate Soft(rank: nat, f: Family) {
    match f
    case Tracing => rank == 1
    case Accounting => rank == 2
    case Owning => rank == 3 || rank == 9
    case Opening => rank == 3
    case Keys => rank == 4
    case Times => rank == 5
    case Control => rank == 6
    case Signals => rank == 7
    case Links => rank == 7 || rank == 9
    case Nodes => rank == 9
    case Files => rank == 9
    case _ => false
  }

  /** The families of the calls that it kills. */
  predicate Hard(rank: nat, f: Family) {
    match f
    case Nodes => rank == 3
    case Accounting => rank == 3 || rank == 5
    case Keys => rank == 5
    case Control => rank == 6
    case Tracing => rank == 6
    case Times => rank == 6
    case Signals => rank == 8
    case Links => rank == 8
    case Opening => rank == 10
    case Others => rank in {1, 3, 5, 6, 8, 10}
    case _ => false
  }

  /** A level that denies or allows what one below it kills is "worker". */
  lemma SoftAboveHard(lo: nat, hi: nat, f: Family)
    requires lo < hi && Hard(lo, f) && Soft(hi, f)
    ensures hi == 9 && ((lo == 3 && f == Nodes) || (lo == 8 && f == Links))
  {
  }

  predicate IsLink(s: string) {
    s == "link" || s == "linkat" || s == "symlink" || s == "symlinkat"
  }

  /** A name that a directive of the level of a rank may come down to. */
  predicate Fits(kill: bool, rank: nat, s: string) {
    && (if kill then Hard(rank, FamilyOf(s)) else Soft(rank, FamilyOf(s)))
    && (FamilyOf(s) == Links ==> IsLink(s))
    && (FamilyOf(s) == Nodes ==> s == "mknod")
    && (FamilyOf(s) == Owning && s == "chmod(exec)" ==> rank == 3)
  }

  lemma ExecFits()
    ensures FamilyOf("chmod(exec)") == FamilyOf("fchmod(exec)") == Owning
    ensures FamilyOf("fchmodat(exec)") == FamilyOf("lchmod(exec)") == Owning
    ensures FamilyOf("open(exec)") == FamilyOf("openat(exec)") == FamilyOf("open2(exec)") == Opening
    ensures FamilyOf("openat2(exec)") == FamilyOf("creat(exec)") == Opening
  {
  }

  lemma ExecVariantsFit(t: string)
    requires t in CallTable("chmod(exec)")
    ensures Fits(false, 3, t)
  {
    hide FamilyOf, IsLink;
    ExecFits();
  }

  lemma LinkVariantsOnly(m: string, t: string)
    requires t in CallTable(m) && (IsLink(m) || m == "mknod")
    ensures IsLink(m) ==> IsLink(t)
    ensures m == "mknod" ==> t == m
  {
    hide FileTable;
    LinkFiles(m);
  }

  lemma LinkFiles(m: string)
    requires IsLink(m) || m == "mknod"
    ensures m == "mknod" ==> FileTable(m) == [m]
    ensures forall t :: IsLink(m) && t in FileTable(m) ==> IsLink(t)
  {
  }

  lemma VariantsFit(kill: bool, rank: nat, m: string, t: string)
    requires Fits(kill, rank, m) && t in CallTable(m)
    ensures Fits(kill, rank, t)
  {
    if m == "chmod(exec)" {
      ExecFits();
      ExecVariantsFit(t);
    } else {
      hide FamilyOf, CallTable, Soft, Hard, IsLink;
      CallTableFamily(m);
      assert FamilyOf(t) == FamilyOf(m);
      if IsLink(m) || m == "mknod" {
        LinkVariantsOnly(m, t);
      }
      NotExec(m, t);
    }
  }

  lemma NotExec(m: string, t: string)
    requires t in CallTable(m) && m != "chmod(exec)"
    ensures t != "chmod(exec)"
  {
    hide CallTable;
    CallEntries(m);
    assert !NoCallKey("chmod(exec)");
  }

  /** What a name stands for after one round of lookup. */
  predicate Entry(kill: bool, rank: nat, n: string) {
    forall m :: m in Members(n) ==> Fits(kill, rank, m)
  }

  lemma NotAGroup(n: string)
    requires |n| > 1 && n[1] != 'r'
    ensures !IsGroupName(n)
  {
    if |n| >= 6 {
      assert n[..6][1] == n[1];
    }
  }

  lemma CallEntry(kill: bool, rank: nat, n: string)
    requires Fits(kill, rank, n) && |n| > 1 && n[1] != 'r'
    ensures Entry(kill, rank, n)
  {
    NotAGroup(n);
    hide Fits, CallTable;
    forall m | m in Members(n)
      ensures Fits(kill, rank, m)
    {
      VariantsFit(kill, rank, n, m);
    }
  }

  lemma SecondRound(n: string, m: string, t: string)
    requires m in Members(n) && t in Members(m)
    ensures t == m || t in CallTable(m)
  {
    hide Members, CallTable, GroupTable;
    MembersOf(n);
    if Members(n) != [n] {
      CleanIsCall(m);
    }
  }

  /** After two rounds every name still fits. */
  lemma ReachedFits(kill: bool, rank: nat, names: seq<string>, t: string)
    requires forall n :: n in names ==> Entry(kill, rank, n)
    requires t in ExpandNames(ExpandNames(names))
    ensures Fits(kill, rank, t)
  {
    hide Members, ExpandNames, Fits, CallTable;
    InExpandNames(ExpandNames(names), t);
    var m :| m in ExpandNames(names) && t in Members(m);
    InExpandNames(names, m);
    var n :| n in names && m in Members(n);
    SecondRound(n, m, t);
    assert Fits(kill, rank, m);
    if t != m {
      VariantsFit(kill, rank, m, t);
    }
  }

  // ---------------------------------------------------------------- the directives of every level

  predicate AllFit(kill: bool, rank: nat, names: seq<string>) {
    forall i :: 0 <= i < |names| ==> Fits(kill, rank, names[i])
  }

  lemma GroupEntry(kill: bool, rank: nat, n: string, names: seq<string>)
    requires IsGroupName(n) && GroupTable(n) == names && AllFit(kill, rank, names)
    ensures Entry(kill, rank, n)
  {
    hide Fits, GroupTable;
  }

  /** The names of a directive fit one by one. */
  predicate OrderFits(rank: nat, o: Order) {
    forall n :: n in o.names ==> Entry(o.directive == "syscall_kill", rank, n)
  }

  lemma SignalNames()
    ensures FamilyOf("kill") == FamilyOf("tkill") == FamilyOf("tgkill") == Signals
    ensures FamilyOf("exec_with_loader") == FamilyOf("execv") == FamilyOf("execve") == Others
    ensures FamilyOf("execveat") == Others
  {
  }

  lemma OpenNames()
    ensures FamilyOf("open") == FamilyOf("openat") == FamilyOf("open2") == FamilyOf("openat2") == Opening
    ensures FamilyOf("creat") == Opening
    ensures FamilyOf("mknod") == Nodes
    ensures FamilyOf("group:filesystem:pipe") == FamilyOf("group:kern_mods") == Others
  {
  }

  lemma PtraceNames()
    ensures FamilyOf("ptrace") == Tracing
    ensures FamilyOf("process_vm_readv") == FamilyOf("process_vm_writev") == FamilyOf("kcmp") == Others
    ensures FamilyOf("mprotect(exec)") == Others
    ensures FamilyOf("ioctl") == FamilyOf("ioctl(termget)") == FamilyOf("ioctl(termset)") == Control
  {
  }

  lemma ContainerNames()
    ensures FamilyOf("add_key") == FamilyOf("request_key") == FamilyOf("keyctl") == Keys
    ensures FamilyOf("acct") == FamilyOf("capset") == Accounting
    ensures FamilyOf("chroot") == FamilyOf("pivot_root") == FamilyOf("unshare") == FamilyOf("setns") == Others
    ensures FamilyOf("pidfd_open") == Others
  {
  }

  lemma AdminNames()
    ensures FamilyOf("settimeofday") == FamilyOf("clock_settime") == FamilyOf("clock_adjtime") == Others
    ensures FamilyOf("quotactl") == FamilyOf("reboot") == FamilyOf("swapon") == FamilyOf("swapoff") == Others
    ensures FamilyOf("mount") == FamilyOf("umount") == FamilyOf("umount2") == FamilyOf("sethostname") == Others
    ensures FamilyOf("setdomainname") == Others
  {
  }

  lemma KernelNames()
    ensures FamilyOf("kexec_load") == FamilyOf("kexec_file_load") == FamilyOf("uselib") == Others
    ensures FamilyOf("userfaultfd") == FamilyOf("personality") == FamilyOf("perf_event_open") == Others
    ensures FamilyOf("get_kernel_syms") == Others
  {
  }

  lemma MemoryNames()
    ensures FamilyOf("lookup_dcookie") == FamilyOf("vm86") == FamilyOf("vm86old") == FamilyOf("mbind") == Others
    ensures FamilyOf("move_pages") == FamilyOf("bpf") == Others
  {
  }

  lemma ProcessGroups()
    ensures IsGroupName("group:kill") && GroupTable("group:kill") == ["kill", "tkill", "tgkill"]
    ensures IsGroupName("group:exec") && GroupTable("group:exec") ==
      ["exec_with_loader", "execv", "execve", "execveat"]
    ensures IsGroupName("group:ptrace") && GroupTable("group:ptrace") ==
      ["ptrace", "process_vm_readv", "process_vm_writev", "kcmp"]
  {
  }

  lemma ProcessEntries()
    ensures Entry(true, 8, "group:kill") && Entry(false, 7, "group:kill") && Entry(true, 8, "group:exec")
    ensures Entry(true, 6, "group:ptrace")
  {
    hide FamilyOf, GroupTable, Entry, IsGroupName;
    ProcessGroups();
    SignalNames();
    PtraceNames();
    GroupEntry(true, 8, "group:kill", GroupTable("group:kill"));
    GroupEntry(false, 7, "group:kill", GroupTable("group:kill"));
    GroupEntry(true, 8, "group:exec", GroupTable("group:exec"));
    GroupEntry(true, 6, "group:ptrace", GroupTable("group:ptrace"));
  }

  lemma FileGroups()
    ensures IsGroupName("group:open") && GroupTable("group:open") == ["open", "openat", "open2", "openat2", "creat"]
    ensures IsGroupName("group:filesystem:pipe") && GroupTable("group:filesystem:pipe") == ["group:filesystem:pipe"]
    ensures IsGroupName("group:filesystem") && GroupTable("group:filesystem") ==
      ["link", "symlink", "unlink", "rmdir", "rename", "mkdir", "mknod", "chmod", "chown", "truncate"]
  {
  }

  lemma FileEntries()
    ensures Entry(true, 10, "group:open") && Entry(true, 10, "group:filesystem:pipe")
    ensures Entry(false, 9, "group:filesystem")
  {
    hide FamilyOf, GroupTable, Entry, IsGroupName;
    FileGroups();
    OpenNames();
    FileFamily();
    RenameFamily();
    OwnerFamily();
    ModeFamily();
    GroupEntry(true, 10, "group:open", GroupTable("group:open"));
    GroupEntry(true, 10, "group:filesystem:pipe", GroupTable("group:filesystem:pipe"));
    GroupEntry(false, 9, "group:filesystem", GroupTable("group:filesystem"));
  }

  lemma ContainerGroups()
    ensures IsGroupName("group:chroot") && GroupTable("group:chroot") == ["chroot", "pivot_root"]
    ensures IsGroupName("group:keyring") && GroupTable("group:keyring") == ["add_key", "request_key", "keyctl"]
    ensures IsGroupName("group:ns") && GroupTable("group:ns") == ["unshare", "setns"]
  {
  }

  lemma ContainerEntries()
    ensures Entry(true, 5, "group:chroot") && Entry(true, 5, "group:keyring") && Entry(false, 4, "group:keyring")
    ensures Entry(true, 5, "group:ns")
  {
    hide FamilyOf, GroupTable, Entry, IsGroupName;
    ContainerGroups();
    ContainerNames();
    GroupEntry(true, 5, "group:chroot", GroupTable("group:chroot"));
    GroupEntry(true, 5, "group:keyring", GroupTable("group:keyring"));
    GroupEntry(false, 4, "group:keyring", GroupTable("group:keyring"));
    GroupEntry(true, 5, "group:ns", GroupTable("group:ns"));
  }

  lemma AdminGroups()
    ensures IsGroupName("group:sysadmin") && GroupTable("group:sysadmin") ==
      ["settimeofday", "clock_settime", "clock_adjtime", "quotactl", "reboot", "swapon", "swapoff", "mount",
       "umount", "umount2", "mknod", "quotactl", "sethostname", "setdomainname"]
    ensures IsGroupName("group:kexec") && GroupTable("group:kexec") == ["kexec_load", "kexec_file_load"]
    ensures IsGroupName("group:kern_mods") && GroupTable("group:kern_mods") == ["group:kern_mods"]
  {
  }

  lemma AdminEntries()
    ensures Entry(true, 3, "group:sysadmin") && Entry(true, 1, "group:kexec") && Entry(true, 1, "group:kern_mods")
  {
    hide FamilyOf, GroupTable, Entry, IsGroupName;
    AdminGroups();
    AdminNames();
    OpenNames();
    KernelNames();
    GroupEntry(true, 3, "group:sysadmin", GroupTable("group:sysadmin"));
    GroupEntry(true, 1, "group:kexec", GroupTable("group:kexec"));
    GroupEntry(true, 1, "group:kern_mods", GroupTable("group:kern_mods"));
  }

  lemma StoreOrders()
    ensures OrderFits(10, Order("syscall_kill", ["group:open", "group:filesystem:pipe"]))
    ensures OrderFits(9, Order("syscall_deny", ["group:filesystem"]))
    ensures OrderFits(4, Order("syscall_deny", ["group:keyring"]))
  {
    hide Entry;
    FileEntries();
    ContainerEntries();
  }

  lemma ParanoidOrders()
    ensures OrderFits(8, Order("syscall_kill", ["group:kill", "link", "symlink", "group:exec"]))
  {
    hide FamilyOf, IsGroupName, Entry;
    FileFamily();
    ProcessEntries();
    CallEntry(true, 8, "link");
    CallEntry(true, 8, "symlink");
  }

  lemma HighOrders()
    ensures OrderFits(7, Order("syscall_deny", ["group:kill", "link", "symlink"]))
  {
    hide FamilyOf, IsGroupName, Entry;
    FileFamily();
    ProcessEntries();
    CallEntry(false, 7, "link");
    CallEntry(false, 7, "symlink");
  }

  lemma ConstrainedOrders()
    ensures OrderFits(6, Order("syscall_allow", ["ioctl(termget)", "ioctl(termset)"]))
    ensures OrderFits(6, Order("syscall_kill", ["mprotect(exec)", "mmap(exec)", "ioctl", "group:ptrace", "utimes"]))
  {
    hide FamilyOf, IsGroupName, Entry;
    OwnerFamily();
    ModeFamily();
    PtraceNames();
    ProcessEntries();
    CallEntry(false, 6, "ioctl(termget)");
    CallEntry(false, 6, "ioctl(termset)");
    CallEntry(true, 6, "mprotect(exec)");
    CallEntry(true, 6, "mmap(exec)");
    CallEntry(true, 6, "ioctl");
    CallEntry(true, 6, "utimes");
  }

  lemma UntrustedOrders()
    ensures OrderFits(5, Order("syscall_kill", ["group:chroot", "group:keyring", "group:ns", "acct", "pidfd_open"]))
    ensures OrderFits(5, Order("syscall_deny", ["utimes"]))
  {
    hide FamilyOf, IsGroupName, Entry;
    OwnerFamily();
    ModeFamily();
    ContainerNames();
    ContainerEntries();
    CallEntry(true, 5, "acct");
    CallEntry(true, 5, "pidfd_open");
    CallEntry(false, 5, "utimes");
  }

  lemma UserOrders()
    ensures OrderFits(3, Order("syscall_deny", ["chown", "chmod(exec)"]))
    ensures OrderFits(3, Order("syscall_kill", ["group:sysadmin", "bpf", "capset"]))
  {
    hide FamilyOf, IsGroupName, Entry;
    OwnerFamily();
    ModeFamily();
    ExecFits();
    ContainerNames();
    MemoryNames();
    AdminEntries();
    CallEntry(false, 3, "chown");
    CallEntry(false, 3, "chmod(exec)");
    CallEntry(true, 3, "bpf");
    CallEntry(true, 3, "capset");
  }

  lemma BasicOrders()
    ensures OrderFits(2, Order("syscall_deny", ["acct", "capset"]))
  {
    hide FamilyOf, IsGroupName, Entry;
    ContainerNames();
    CallEntry(false, 2, "acct");
    CallEntry(false, 2, "capset");
  }

  lemma MinimalOrders()
    ensures OrderFits(1, Order("syscall_deny", ["ptrace"]))
    ensures OrderFits(1, Order("syscall_kill",
      ["group:kexec", "uselib", "userfaultfd", "personality", "perf_event_open", "group:kern_mods", "kexec_load",
       "get_kernel_syms", "lookup_dcookie", "vm86", "vm86old", "mbind", "move_pages"]))
  {
    hide FamilyOf, IsGroupName, Entry;
    PtraceNames();
    KernelNames();
    MemoryNames();
    AdminEntries();
    CallEntry(false, 1, "ptrace");
    CallEntry(true, 1, "uselib");
    CallEntry(true, 1, "userfaultfd");
    CallEntry(true, 1, "personality");
    CallEntry(true, 1, "perf_event_open");
    CallEntry(true, 1, "kexec_load");
    CallEntry(true, 1, "get_kernel_syms");
    CallEntry(true, 1, "lookup_dcookie");
    CallEntry(true, 1, "vm86");
    CallEntry(true, 1, "vm86old");
    CallEntry(true, 1, "mbind");
    CallEntry(true, 1, "move_pages");
  }

  lemma LevelFits(rank: nat, i: nat)
    requires 1 <= rank <= 10 && i < |OwnOrders(rank)|
    ensures OrderFits(rank, OwnOrders(rank)[i])
  {
    hide OrderFits;
    StoreOrders();
    ParanoidOrders();
    HighOrders();
    ConstrainedOrders();
    UntrustedOrders();
    UserOrders();
    BasicOrders();
    MinimalOrders();
  }
}
