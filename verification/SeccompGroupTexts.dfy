/**
 Directives for whole groups and for calls by their names alone: exactly the calls that the installed filter then
 acts on.
 */
module SeccompGroupTexts {
  import opened Bpf
  import opened Wrappers
  import opened Bytes
  import opened SeccompGroups
  import opened SeccompFilter
  import opened SeccompLevels
  import opened SeccompInstalled
  import opened SeccompMonotone
  import opened SeccompCalls

  /** A call by its name alone: exactly that call, whatever its arguments. */
  lemma BareVerdict(p: Kernel, directive: string, v: word, n: string, call: string, d: syscall, acc: word)
    requires OneNumberEach(p) && IsNumberOf(p, d.nr, call) && Acts(directive, v)
    requires Graphic(n) && '(' !in n && PlainName(n)
    ensures Run(Handed(p, directive + ("=" + n)), d, 0, acc)
         == Some(if d.arch != p.arch then 0 else if call == n then v else 0x7FFF_0000)
  {
    hide OneNumberEach, IsNumberOf, Handed, Run, Members, Small, Graphic, Hits, PlainName, Acts;
    PlainMembers(n);
    PlainIsSmall(n, 1);
    NameVerdict(p, directive, v, n, 1, call, d, acc);
    BareHits(p, n, call, d);
    assert n in Members(n);
  }

  predicate PlainCall(n: string) { PlainName(n) && '(' !in n }

  predicate AllPlain(names: seq<string>) {
    forall i :: 0 <= i < |names| ==> PlainCall(names[i])
  }

  /** A group of calls that stand for themselves. */
  predicate PlainGroup(g: string, names: seq<string>) {
    IsGroupName(g) && Graphic(g) && GroupTable(g) == names && |names| <= 14 && AllPlain(names)
  }

  /** A group by its name: exactly the calls of the group. */
  lemma GroupVerdict(p: Kernel, directive: string, v: word, g: string, names: seq<string>, call: string, d: syscall,
                     acc: word)
    requires OneNumberEach(p) && IsNumberOf(p, d.nr, call) && Acts(directive, v) && PlainGroup(g, names)
    ensures Run(Handed(p, directive + ("=" + g)), d, 0, acc)
         == Some(if d.arch != p.arch then 0 else if call in names then v else 0x7FFF_0000)
  {
    hide OneNumberEach, IsNumberOf, Handed, Run, Small, Graphic, Hits, PlainName, Acts, GroupTable;
    assert Members(g) == names;
    hide Members;
    assert forall i :: 0 <= i < |names| ==> PlainCall(names[i]);
    GroupIsSmall(g, 14, names);
    NameVerdict(p, directive, v, g, 14, call, d, acc);
    forall t | t in names
      ensures Hits(p, t, call, d) <==> t == call
    {
      var i :| 0 <= i < |names| && names[i] == t;
      assert PlainCall(names[i]);
      BareHits(p, t, call, d);
    }
  }

  lemma PlainCalls1()
    ensures PlainCall("open") && PlainCall("openat") && PlainCall("open2")
    ensures PlainCall("openat2") && PlainCall("creat") && PlainCall("clone")
  {
  }

  lemma PlainCalls2()
    ensures PlainCall("clone2") && PlainCall("clone3") && PlainCall("fork")
    ensures PlainCall("vfork") && PlainCall("setuid") && PlainCall("setreuid")
  {
  }

  lemma PlainCalls3()
    ensures PlainCall("setresuid") && PlainCall("setgid") && PlainCall("setregid")
    ensures PlainCall("setresgid") && PlainCall("mount") && PlainCall("umount")
  {
  }

  lemma PlainCalls4()
    ensures PlainCall("umount2") && PlainCall("chroot") && PlainCall("pivot_root")
    ensures PlainCall("kill") && PlainCall("tkill") && PlainCall("tgkill")
  {
  }

  lemma PlainCalls5()
    ensures PlainCall("settimeofday") && PlainCall("clock_settime") && PlainCall("clock_adjtime")
    ensures PlainCall("swapon") && PlainCall("swapoff") && PlainCall("unshare")
  {
  }

  lemma PlainCalls6()
    ensures PlainCall("setns") && PlainCall("quotactl") && PlainCall("reboot")
    ensures PlainCall("mknod") && PlainCall("sethostname") && PlainCall("setdomainname")
  {
  }

  lemma PlainCalls7()
    ensures PlainCall("add_key") && PlainCall("request_key") && PlainCall("keyctl")
    ensures PlainCall("shmat") && PlainCall("shmdt") && PlainCall("shmget")
  {
  }

  lemma PlainCalls8()
    ensures PlainCall("shmctl") && PlainCall("ptrace") && PlainCall("process_vm_readv")
    ensures PlainCall("process_vm_writev") && PlainCall("kcmp") && PlainCall("create_module")
  {
  }

  lemma PlainCalls9()
    ensures PlainCall("delete_module") && PlainCall("init_module") && PlainCall("finit_module")
    ensures PlainCall("query_module") && PlainCall("exec_with_loader") && PlainCall("execv")
  {
  }

  lemma PlainCalls10()
    ensures PlainCall("execve") && PlainCall("execveat") && PlainCall("kexec_load")
    ensures PlainCall("kexec_file_load") && PlainCall("semop") && PlainCall("semget")
  {
  }

  lemma PlainCalls11()
    ensures PlainCall("semctl") && PlainCall("msgrcv") && PlainCall("msgsnd")
    ensures PlainCall("msgget") && PlainCall("msgctl")
  {
  }

  lemma GroupWords1()
    ensures IsGroupName("group:open") && Graphic("group:open")
    ensures IsGroupName("group:fork") && Graphic("group:fork")
    ensures IsGroupName("group:uid") && Graphic("group:uid")
    ensures IsGroupName("group:ugid") && Graphic("group:ugid")
  {
  }

  lemma GroupWords2()
    ensures IsGroupName("group:mount") && Graphic("group:mount")
    ensures IsGroupName("group:chroot") && Graphic("group:chroot")
    ensures IsGroupName("group:kill") && Graphic("group:kill")
    ensures IsGroupName("group:settime") && Graphic("group:settime")
  {
  }

  lemma GroupWords3()
    ensures IsGroupName("group:swap") && Graphic("group:swap")
    ensures IsGroupName("group:ns") && Graphic("group:ns")
    ensures IsGroupName("group:sysadmin") && Graphic("group:sysadmin")
    ensures IsGroupName("group:keyring") && Graphic("group:keyring")
  {
  }

  lemma GroupWords4()
    ensures IsGroupName("group:shm") && Graphic("group:shm")
    ensures IsGroupName("group:ptrace") && Graphic("group:ptrace")
    ensures IsGroupName("group:kern_mod") && Graphic("group:kern_mod")
    ensures IsGroupName("group:exec") && Graphic("group:exec")
  {
  }

  lemma GroupWords5()
    ensures IsGroupName("group:kexec") && Graphic("group:kexec")
    ensures IsGroupName("group:sem") && Graphic("group:sem")
    ensures IsGroupName("group:msgq") && Graphic("group:msgq")
    ensures IsGroupName("group:ipc") && Graphic("group:ipc")
  {
  }

  lemma GroupLists1()
    ensures GroupTable("group:open") == ["open", "openat", "open2", "openat2", "creat"]
    ensures GroupTable("group:fork") == ["clone", "clone2", "clone3", "fork", "vfork"]
  {
  }

  lemma GroupLists2()
    ensures GroupTable("group:uid") == ["setuid", "setreuid", "setresuid"]
    ensures GroupTable("group:ugid") == ["setuid", "setreuid", "setresuid", "setgid", "setregid", "setresgid"]
  {
  }

  lemma GroupLists3()
    ensures GroupTable("group:mount") == ["mount", "umount", "umount2"]
    ensures GroupTable("group:chroot") == ["chroot", "pivot_root"]
  {
  }

  lemma GroupLists4()
    ensures GroupTable("group:kill") == ["kill", "tkill", "tgkill"]
    ensures GroupTable("group:settime") == ["settimeofday", "clock_settime", "clock_adjtime"]
  {
  }

  lemma GroupLists5()
    ensures GroupTable("group:swap") == ["swapon", "swapoff"]
    ensures GroupTable("group:ns") == ["unshare", "setns"]
  {
  }

  lemma GroupLists6()
    ensures GroupTable("group:sysadmin") ==
            ["settimeofday", "clock_settime", "clock_adjtime", "quotactl", "reboot", "swapon", "swapoff", "mount",
             "umount", "umount2", "mknod", "quotactl", "sethostname", "setdomainname"]
    ensures GroupTable("group:keyring") == ["add_key", "request_key", "keyctl"]
  {
  }

  lemma GroupLists7()
    ensures GroupTable("group:shm") == ["shmat", "shmdt", "shmget", "shmctl"]
    ensures GroupTable("group:ptrace") == ["ptrace", "process_vm_readv", "process_vm_writev", "kcmp"]
  {
  }

  lemma GroupLists8()
    ensures GroupTable("group:kern_mod") ==
            ["create_module", "delete_module", "init_module", "finit_module", "query_module"]
    ensures GroupTable("group:exec") == ["exec_with_loader", "execv", "execve", "execveat"]
  {
  }

  lemma GroupLists9()
    ensures GroupTable("group:kexec") == ["kexec_load", "kexec_file_load"]
    ensures GroupTable("group:sem") == ["semop", "semget", "semctl"]
  {
  }

  lemma GroupLists10()
    ensures GroupTable("group:msgq") == ["msgrcv", "msgsnd", "msgget", "msgctl"]
    ensures GroupTable("group:ipc") ==
            ["shmat", "shmdt", "shmget", "shmctl", "semop", "semget", "semctl", "msgrcv", "msgsnd", "msgget",
             "msgctl"]
  {
  }

  // ---------------------------------------------------------------- the calls of each group, name by name

  lemma OpenAndForkCalls()
    ensures PlainGroup("group:open", ["open", "openat", "open2", "openat2", "creat"])
    ensures PlainGroup("group:fork", ["clone", "clone2", "clone3", "fork", "vfork"])
  {
    hide IsGroupName, Graphic, GroupTable, PlainCall;
    GroupWords1();
    GroupLists1();
    PlainCalls1();
    PlainCalls2();
  }

  lemma UserCalls()
    ensures PlainGroup("group:uid", ["setuid", "setreuid", "setresuid"])
    ensures PlainGroup("group:ugid", ["setuid", "setreuid", "setresuid", "setgid", "setregid", "setresgid"])
  {
    hide IsGroupName, Graphic, GroupTable, PlainCall;
    GroupWords1();
    GroupLists2();
    PlainCalls2();
    PlainCalls3();
  }

  lemma MountAndRootCalls()
    ensures PlainGroup("group:mount", ["mount", "umount", "umount2"])
    ensures PlainGroup("group:chroot", ["chroot", "pivot_root"])
  {
    hide IsGroupName, Graphic, GroupTable, PlainCall;
    GroupWords2();
    GroupLists3();
    PlainCalls3();
    PlainCalls4();
  }

  lemma KillAndTimeCalls()
    ensures PlainGroup("group:kill", ["kill", "tkill", "tgkill"])
    ensures PlainGroup("group:settime", ["settimeofday", "clock_settime", "clock_adjtime"])
  {
    hide IsGroupName, Graphic, GroupTable, PlainCall;
    GroupWords2();
    GroupLists4();
    PlainCalls4();
    PlainCalls5();
  }

  lemma SwapAndNamespaceCalls()
    ensures PlainGroup("group:swap", ["swapon", "swapoff"])
    ensures PlainGroup("group:ns", ["unshare", "setns"])
  {
    hide IsGroupName, Graphic, GroupTable, PlainCall;
    GroupWords3();
    GroupLists5();
    PlainCalls5();
    PlainCalls6();
  }

  lemma AdminAndKeyCalls()
    ensures PlainGroup("group:sysadmin",
                       ["settimeofday", "clock_settime", "clock_adjtime", "quotactl", "reboot", "swapon", "swapoff",
                        "mount", "umount", "umount2", "mknod", "quotactl", "sethostname", "setdomainname"])
    ensures PlainGroup("group:keyring", ["add_key", "request_key", "keyctl"])
  {
    hide IsGroupName, Graphic, GroupTable, PlainCall;
    GroupWords3();
    GroupLists6();
    PlainCalls3();
    PlainCalls4();
    PlainCalls5();
    PlainCalls6();
    PlainCalls7();
  }

  lemma SharedAndTraceCalls()
    ensures PlainGroup("group:shm", ["shmat", "shmdt", "shmget", "shmctl"])
    ensures PlainGroup("group:ptrace", ["ptrace", "process_vm_readv", "process_vm_writev", "kcmp"])
  {
    hide IsGroupName, Graphic, GroupTable, PlainCall;
    GroupWords4();
    GroupLists7();
    PlainCalls7();
    PlainCalls8();
  }

  lemma ModuleAndExecCalls()
    ensures PlainGroup("group:kern_mod",
                       ["create_module", "delete_module", "init_module", "finit_module", "query_module"])
    ensures PlainGroup("group:exec", ["exec_with_loader", "execv", "execve", "execveat"])
  {
    hide IsGroupName, Graphic, GroupTable, PlainCall;
    GroupWords4();
    GroupLists8();
    PlainCalls8();
    PlainCalls9();
    PlainCalls10();
  }

  lemma KexecAndSemaphoreCalls()
    ensures PlainGroup("group:kexec", ["kexec_load", "kexec_file_load"])
    ensures PlainGroup("group:sem", ["semop", "semget", "semctl"])
  {
    hide IsGroupName, Graphic, GroupTable, PlainCall;
    GroupWords5();
    GroupLists9();
    PlainCalls10();
    PlainCalls11();
  }

  lemma MessageAndIpcCalls()
    ensures PlainGroup("group:msgq", ["msgrcv", "msgsnd", "msgget", "msgctl"])
    ensures PlainGroup("group:ipc",
                       ["shmat", "shmdt", "shmget", "shmctl", "semop", "semget", "semctl", "msgrcv", "msgsnd",
                        "msgget", "msgctl"])
  {
    hide IsGroupName, Graphic, GroupTable, PlainCall;
    GroupWords5();
    GroupLists10();
    PlainCalls7();
    PlainCalls8();
    PlainCalls10();
    PlainCalls11();
  }
}
