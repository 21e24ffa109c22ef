/**
 The table of system-call groups and the two rounds of expansion that a rule's name list goes
 through before it is compiled.
 */
module SeccompGroups {

  /** The groups that are named after one of their members. */
  function CallTable(name: string): seq<string> {
    if name == "socket" then ["socket", "socketpair", "socketcall(socket)", "socketcall(socketpair)"]
    else if name == "socket(ip)"
      then ["socket(ip)", "socketpair(ip)", "socketcall(socket,ip)", "socketcall(socketpair,ip)"]
    else if name == "socket(unix)"
      then ["socket(unix)", "socketpair(unix)", "socketcall(socket,unix)", "socketcall(socketpair,unix)"]
    else if name == "socket(packet)"
      then ["socket(packet)", "socketpair(packet)", "socketcall(socket,packet)", "socketcall(socketpair,packet)"]
    else if name == "connect" then ["connect", "socketcall(connect)"]
    else if name == "accept" then ["accept", "accept4", "socketcall(accept)", "socketcall(accept4)"]
    else if name == "bind" then ["bind", "socketcall(bind)"]
    else if name == "listen" then ["listen", "socketcall(listen)"]
    else FileTable(name)
  }

  function FileTable(name: string): seq<string> {
    if name == "link" then ["link", "linkat"]
    else if name == "symlink" then ["symlink", "symlinkat"]
    else if name == "unlink" then ["unlink", "unlinkat"]
    else if name == "mkdir" then ["mkdir", "mkdirat"]
    else if name == "rmdir" then ["rmdir", "rmdirat"]
    else if name == "rename" then ["rename", "renameat", "renameat2"]
    else if name == "utimes" then ["utimes", "utimesat", "futimesat", "utimensat", "futimens"]
    else if name == "truncate" then ["truncate", "ftruncate", "truncate64", "ftruncate64"]
    else if name == "chown" then ["chown", "chown32", "fchown", "fchown32", "fchownat", "lchown", "lchown32"]
    else if name == "chmod" then ["chmod", "fchmod", "fchmodat", "lchmod"]
    else if name == "chmod(exec)" then
      ["chmod(exec)", "fchmod(exec)", "fchmodat(exec)", "lchmod(exec)", "open(exec)", "openat(exec)", "open2(exec)",
       "openat2(exec)", "creat(exec)"]
    else if name == "mmap" then ["mmap", "mmap2"]
    else if name == "mmap(exec)" then ["mmap(exec)", "mmap2(exec)"]
    else [name]
  }

  /** The groups with names of their own. */
  function GroupTable(name: string): seq<string> {
    if name == "group:open" then ["open", "openat", "open2", "openat2", "creat"]
    else if name == "group:creat()" then ["open(create)", "openat(create)", "open2(create)", "openat2(create)", "creat"]
    else if name == "group:fork" then ["clone", "clone2", "clone3", "fork", "vfork"]
    else if name == "group:uid" then ["setuid", "setreuid", "setresuid"]
    else if name == "group:ugid" then ["setuid", "setreuid", "setresuid", "setgid", "setregid", "setresgid"]
    else if name == "group:mount" then ["mount", "umount", "umount2"]
    else if name == "group:chroot" then ["chroot", "pivot_root"]
    else if name == "group:kill" then ["kill", "tkill", "tgkill"]
    else if name == "group:settime" then ["settimeofday", "clock_settime", "clock_adjtime"]
    else if name == "group:server" then ["accept", "accept4", "listen"]
    else if name == "group:swap" then ["swapon", "swapoff"]
    else if name == "group:ns" then ["unshare", "setns"]
    else if name == "group:net" then ["socket", "socketcall", "connect", "bind", "listen", "accept", "accept4"]
    else SystemTable(name)
  }

  function SystemTable(name: string): seq<string> {
    if name == "group:sysadmin" then
      ["settimeofday", "clock_settime", "clock_adjtime", "quotactl", "reboot", "swapon", "swapoff", "mount",
       "umount", "umount2",
       "mknod", "quotactl", "sethostname", "setdomainname"]
    else if name == "group:keyring" then ["add_key", "request_key", "keyctl"]
    else if name == "group:shm" then ["shmat", "shmdt", "shmget", "shmctl"]
    else if name == "group:fsrm" then ["unlink", "rmdir"]
    else if name == "group:filesystem" then
      ["link", "symlink", "unlink", "rmdir", "rename", "mkdir", "mknod", "chmod", "chown", "truncate"]
    else if name == "group:ptrace" then ["ptrace", "process_vm_readv", "process_vm_writev", "kcmp"]
    else if name == "group:kern_mod"
      then ["create_module", "delete_module", "init_module", "finit_module", "query_module"]
    else if name == "group:exec" then ["exec_with_loader", "execv", "execve", "execveat"]
    else if name == "group:kexec" then ["kexec_load", "kexec_file_load"]
    else if name == "group:sem" then ["semop", "semget", "semctl"]
    else if name == "group:msgq" then ["msgrcv", "msgsnd", "msgget", "msgctl"]
    else if name == "group:ipc" then
      ["shmat", "shmdt", "shmget", "shmctl", "semop", "semget", "semctl", "msgrcv", "msgsnd", "msgget", "msgctl"]
    else [name]
  }

  predicate IsGroupName(name: string) {
    |name| >= 6 && name[..6] == "group:"
  }

  function Members(name: string): seq<string> {
    if IsGroupName(name) then GroupTable(name) else CallTable(name)
  }

  // ---------------------------------------------------------------- the table, name by name

  /** Shapes that no name of the first table has: told apart by two letters and a length. */
  predicate NoCallKey(s: string) {
    && |s| >= 2
    && (s[0] == 's' && s[1] == 'o' ==> |s| > 6 && s[6] != '(')
    && (s[0] == 'c' && s[1] == 'o' ==> |s| != 7)
    && (s[0] == 'a' && s[1] == 'c' ==> |s| != 6)
    && (s[0] == 'b' && s[1] == 'i' ==> |s| != 4)
    && (s[0] == 'l' && s[1] == 'i' ==> |s| != 4 && (|s| != 6 || s[2] != 's'))
    && (s[0] == 's' && s[1] == 'y' ==> |s| != 7)
    && (s[0] == 'u' && s[1] == 'n' ==> |s| != 6)
    && (s[0] == 'm' && s[1] == 'k' ==> |s| != 5 || s[2] != 'd')
    && (s[0] == 'r' && s[1] == 'm' ==> |s| != 5)
    && (s[0] == 'r' && s[1] == 'e' ==> |s| != 6 || s[2] != 'n')
    && (s[0] == 'u' && s[1] == 't' ==> |s| != 6)
    && (s[0] == 't' && s[1] == 'r' ==> |s| != 8)
    && (s[0] == 'c' && s[1] == 'h' ==> |s| != 5 && |s| != 11)
    && (s[0] == 'm' && s[1] == 'm' ==> |s| != 4 && |s| != 10)
  }

  lemma NoCallKeyIsPlain(s: string)
    requires NoCallKey(s)
    ensures CallTable(s) == [s]
  {
    hide FileTable;
    NoFileKey(s);
  }

  lemma NoFileKey(s: string)
    requires NoCallKey(s)
    ensures FileTable(s) == [s]
  {
  }

  predicate CleanName(s: string) {
    s != "" && ';' !in s && s[0] != 'g'
  }

  /** An entry of the first table: clean names, the group's own name first and no other group. */
  predicate Variants(k: string, names: seq<string>) {
    && |names| > 0 && names[0] == k
    && forall i :: 0 <= i < |names| ==> CleanName(names[i]) && (names[i] == k || NoCallKey(names[i]))
  }

  lemma SocketVariants()
    ensures Variants("socket", ["socket", "socketpair", "socketcall(socket)", "socketcall(socketpair)"])
    ensures Variants("socket(ip)",
                     ["socket(ip)", "socketpair(ip)", "socketcall(socket,ip)", "socketcall(socketpair,ip)"])
  {
  }

  lemma FamilyVariants()
    ensures Variants("socket(unix)",
                     ["socket(unix)", "socketpair(unix)", "socketcall(socket,unix)", "socketcall(socketpair,unix)"])
    ensures Variants("socket(packet)",
                     ["socket(packet)", "socketpair(packet)", "socketcall(socket,packet)",
                      "socketcall(socketpair,packet)"])
  {
  }

  lemma ServerVariants()
    ensures Variants("connect", ["connect", "socketcall(connect)"])
    ensures Variants("accept", ["accept", "accept4", "socketcall(accept)", "socketcall(accept4)"])
    ensures Variants("bind", ["bind", "socketcall(bind)"])
    ensures Variants("listen", ["listen", "socketcall(listen)"])
  {
  }

  lemma LinkVariants()
    ensures Variants("link", ["link", "linkat"])
    ensures Variants("symlink", ["symlink", "symlinkat"])
    ensures Variants("unlink", ["unlink", "unlinkat"])
    ensures Variants("mkdir", ["mkdir", "mkdirat"])
    ensures Variants("rmdir", ["rmdir", "rmdirat"])
    ensures Variants("rename", ["rename", "renameat", "renameat2"])
  {
  }

  lemma OwnerVariants()
    ensures Variants("utimes", ["utimes", "utimesat", "futimesat", "utimensat", "futimens"])
    ensures Variants("truncate", ["truncate", "ftruncate", "truncate64", "ftruncate64"])
  {
  }

  lemma ModeVariants()
    ensures Variants("chown", ["chown", "chown32", "fchown", "fchown32", "fchownat", "lchown", "lchown32"])
    ensures Variants("chmod", ["chmod", "fchmod", "fchmodat", "lchmod"])
  {
  }

  lemma ExecVariants()
    ensures Variants("chmod(exec)",
                     ["chmod(exec)", "fchmod(exec)", "fchmodat(exec)", "lchmod(exec)", "open(exec)", "openat(exec)",
                      "open2(exec)", "openat2(exec)", "creat(exec)"])
    ensures Variants("mmap", ["mmap", "mmap2"])
    ensures Variants("mmap(exec)", ["mmap(exec)", "mmap2(exec)"])
  {
  }

  lemma CallEntries(k: string)
    ensures CallTable(k) == [k] || Variants(k, CallTable(k))
  {
    hide Variants, FileTable;
    SocketVariants();
    FamilyVariants();
    ServerVariants();
    FileEntries(k);
  }

  lemma FileEntries(k: string)
    ensures FileTable(k) == [k] || Variants(k, FileTable(k))
  {
    hide Variants;
    LinkVariants();
    OwnerVariants();
    ModeVariants();
    ExecVariants();
  }

  /** An entry of the second table: clean names, so none of them a "group:" name. */
  predicate AllClean(names: seq<string>) {
    |names| > 0 && forall i :: 0 <= i < |names| ==> CleanName(names[i])
  }

  lemma ProcessNames()
    ensures AllClean(["open", "openat", "open2", "openat2", "creat"])
    ensures AllClean(["open(create)", "openat(create)", "open2(create)", "openat2(create)", "creat"])
    ensures AllClean(["clone", "clone2", "clone3", "fork", "vfork"])
    ensures AllClean(["setuid", "setreuid", "setresuid"])
    ensures AllClean(["setuid", "setreuid", "setresuid", "setgid", "setregid", "setresgid"])
    ensures AllClean(["mount", "umount", "umount2"])
    ensures AllClean(["chroot", "pivot_root"])
  {
  }

  lemma NetNames()
    ensures AllClean(["kill", "tkill", "tgkill"])
    ensures AllClean(["settimeofday", "clock_settime", "clock_adjtime"])
    ensures AllClean(["accept", "accept4", "listen"])
    ensures AllClean(["swapon", "swapoff"])
    ensures AllClean(["unshare", "setns"])
    ensures AllClean(["socket", "socketcall", "connect", "bind", "listen", "accept", "accept4"])
  {
  }

  lemma AdminNames()
    ensures AllClean(["settimeofday", "clock_settime", "clock_adjtime", "quotactl", "reboot", "swapon", "swapoff",
                      "mount", "umount", "umount2", "mknod", "quotactl", "sethostname", "setdomainname"])
    ensures AllClean(["add_key", "request_key", "keyctl"])
    ensures AllClean(["shmat", "shmdt", "shmget", "shmctl"])
    ensures AllClean(["unlink", "rmdir"])
  {
  }

  lemma FileNames()
    ensures AllClean(["link", "symlink", "unlink", "rmdir", "rename", "mkdir", "mknod", "chmod", "chown", "truncate"])
    ensures AllClean(["ptrace", "process_vm_readv", "process_vm_writev", "kcmp"])
    ensures AllClean(["create_module", "delete_module", "init_module", "finit_module", "query_module"])
  {
  }

  lemma KernelNames()
    ensures AllClean(["exec_with_loader", "execv", "execve", "execveat"])
    ensures AllClean(["kexec_load", "kexec_file_load"])
    ensures AllClean(["semop", "semget", "semctl"])
    ensures AllClean(["msgrcv", "msgsnd", "msgget", "msgctl"])
    ensures AllClean(["shmat", "shmdt", "shmget", "shmctl", "semop", "semget", "semctl", "msgrcv", "msgsnd",
                      "msgget", "msgctl"])
  {
  }

  lemma GroupEntries(g: string)
    ensures GroupTable(g) == [g] || AllClean(GroupTable(g))
  {
    hide AllClean, SystemTable;
    ProcessNames();
    NetNames();
    SystemEntries(g);
  }

  lemma SystemEntries(g: string)
    ensures SystemTable(g) == [g] || AllClean(SystemTable(g))
  {
    hide AllClean;
    AdminNames();
    FileNames();
    KernelNames();
  }

  // ---------------------------------------------------------------- what the table amounts to

  /** A name that stands for itself and whose group holds no further group. */
  predicate Settled(m: string) {
    m in Members(m) && forall k :: k in Members(m) ==> k == m || Members(k) == [k]
  }

  lemma MembersOf(n: string)
    ensures Members(n) == [n] || (Members(n) != [] && forall i :: 0 <= i < |Members(n)| ==> CleanName(Members(n)[i]))
  {
    hide CallTable, GroupTable;
    CallEntries(n);
    GroupEntries(n);
  }

  lemma GroupNameStart(m: string)
    ensures IsGroupName(m) ==> m[0] == 'g'
  {
    assert IsGroupName(m) ==> m[..6][0] == "group:"[0];
  }

  lemma CleanIsCall(m: string)
    requires CleanName(m)
    ensures Members(m) == CallTable(m)
  {
    hide CallTable, GroupTable;
    GroupNameStart(m);
  }

  lemma CleanIsSettled(m: string)
    requires CleanName(m)
    ensures Settled(m)
  {
    hide CallTable, GroupTable, Members;
    CleanIsCall(m);
    CallEntries(m);
    forall k | k in Members(m)
      ensures k == m || Members(k) == [k]
    {
      if CallTable(m) != [m] {
        var i :| 0 <= i < |CallTable(m)| && CallTable(m)[i] == k;
        CleanIsCall(k);
        if k != m {
          NoCallKeyIsPlain(k);
        }
      }
    }
  }

  /** One lookup is enough to reach settled names; the second only fills in their variants. */
  lemma MembersAreSettled(n: string, m: string)
    requires m in Members(n)
    ensures Settled(m)
  {
    hide CallTable, GroupTable, Members, CleanName;
    MembersOf(n);
    if Members(n) == [n] {
      assert m == n;
    } else {
      var i :| 0 <= i < |Members(n)| && Members(n)[i] == m;
      CleanIsSettled(m);
    }
  }

  /** Expansion on lists of names rather than on their text. */
  function ExpandNames(names: seq<string>): seq<string> {
    if names == [] then [] else Members(names[0]) + ExpandNames(names[1..])
  }

  lemma {:induction false} InExpandNames(names: seq<string>, m: string)
    ensures m in ExpandNames(names) <==> exists n :: n in names && m in Members(n)
  {
    hide Members;
    if names != [] {
      InExpandNames(names[1..], m);
      assert names == [names[0]] + names[1..];
    }
  }

  /** For every name list, what two rounds of expansion reach is closed under a third. */
  lemma TwoRoundsClose(names: seq<string>, m: string)
    ensures m in ExpandNames(ExpandNames(ExpandNames(names))) <==> m in ExpandNames(ExpandNames(names))
    ensures m in ExpandNames(names) ==> m in ExpandNames(ExpandNames(names))
  {
    hide Members, ExpandNames;
    var e1 := ExpandNames(names);
    var e2 := ExpandNames(e1);
    InExpandNames(e2, m);
    InExpandNames(e1, m);
    if m in e1 {
      SettledInOneRound(names, m);
    }
    if m in e2 {
      var n :| n in e1 && m in Members(n);
      MembersAreSettled(n, m);
    }
    if n :| n in e2 && m in Members(n) {
      InExpandNames(e1, n);
      var k :| k in e1 && n in Members(k);
      SettledInOneRound(names, k);
    }
  }

  lemma SettledInOneRound(names: seq<string>, m: string)
    requires m in ExpandNames(names)
    ensures Settled(m)
  {
    hide Members, ExpandNames;
    InExpandNames(names, m);
    var n :| n in names && m in Members(n);
    MembersAreSettled(n, m);
  }
}
