/**
 Rule texts as a user writes them, word for word, and exactly which calls the installed filter then kills.
 */
module SeccompTexts {
  import opened Bpf
  import opened Wrappers
  import opened Bytes
  import opened SeccompRules
  import opened SeccompGroups
  import opened SeccompNames
  import opened SeccompFilter
  import opened SeccompLevels
  import opened SeccompInstalled
  import opened SeccompMonotone
  import opened SeccompCalls
  import opened Text

  // ---------------------------------------------------------------- words

  /** Small letters, digits and underscores, with a letter in front. */
  predicate Simple(w: string) {
    && w != "" && 'a' <= w[0] <= 'z'
    && forall i :: 0 <= i < |w| ==> 'a' <= w[i] <= 'z' || '0' <= w[i] <= '9' || w[i] == '_'
  }

  lemma SimpleIs(w: string)
    requires Simple(w)
    ensures Graphic(w) && Argument(w) && !IsDigit(w[0]) && '(' !in w
  {
  }

  /** Two calls with a word are spelled alike only if both are the same. */
  lemma SpelledApart(call: string, w: string, call2: string, w2: string)
    requires Simple(call) && Simple(call2) && Spelled(call, w) == Spelled(call2, w2)
    ensures call == call2 && w == w2
  {
    var s := Spelled(call, w);
    assert s[|call|] == '(' && s[|call2|] == '(';
    assert forall i :: 0 <= i < |call| ==> s[i] == call[i];
    assert forall i :: 0 <= i < |call2| ==> s[i] == call2[i];
    assert |call| == |call2|;
    assert call == s[..|call|] && call2 == s[..|call|];
    assert s[|call| + 1..|s| - 1] == w && s[|call| + 1..|s| - 1] == w2;
  }

  lemma TableWords()
    ensures Simple("socket") && Simple("chmod") && Simple("mmap")
    ensures Spelled("socket", "ip") == "socket(ip)" && Spelled("socket", "unix") == "socket(unix)"
    ensures Spelled("socket", "packet") == "socket(packet)" && Spelled("chmod", "exec") == "chmod(exec)"
    ensures Spelled("mmap", "exec") == "mmap(exec)"
  {
  }

  lemma NotInTable(call: string, w: string)
    requires Simple(call) && call != "chmod" && call != "mmap" && (call == "socket" ==> w == "ip6" || w == "bt")
    ensures !FiveKeys(Spelled(call, w))
  {
    TableWords();
    hide Simple, Spelled;
    if Spelled(call, w) == Spelled("socket", "ip") { SpelledApart(call, w, "socket", "ip"); }
    if Spelled(call, w) == Spelled("socket", "unix") { SpelledApart(call, w, "socket", "unix"); }
    if Spelled(call, w) == Spelled("socket", "packet") { SpelledApart(call, w, "socket", "packet"); }
    if Spelled(call, w) == Spelled("chmod", "exec") { SpelledApart(call, w, "chmod", "exec"); }
    if Spelled(call, w) == Spelled("mmap", "exec") { SpelledApart(call, w, "mmap", "exec"); }
  }

  /** A text that kills a call when what a word asks of its arguments holds. */
  lemma Kills(p: Kernel, call: string, w: string, d: syscall, acc: word)
    requires OneNumberEach(p) && IsNumberOf(p, d.nr, call) && d.arch == p.arch
    requires Simple(call) && Simple(w) && call[0] != 'g' && call != "chmod" && call != "mmap"
    requires call == "socket" ==> w == "ip6" || w == "bt"
    ensures w != "" && !IsDigit(w[0])
    ensures WellFormedChecks(ParseArg0(p, p.nr[call], w))
    ensures Run(Handed(p, "syscall_kill" + ("=" + Spelled(call, w))), d, 0, acc)
         == Some(if ChecksHold(ParseArg0(p, p.nr[call], w), d) then 0 else 0x7FFF_0000)
  {
    hide OneNumberEach, Graphic, Handed, Run, FiveKeys, ChecksHold, Spelled, ParseArg0, Argument;
    SimpleIs(call);
    SimpleIs(w);
    hide Simple;
    NotInTable(call, w);
    WordVerdict(p, "syscall_kill", 0, call, w, d, acc);
  }

  lemma OpenWordsAreSimple()
    ensures Simple("open") && Simple("openat") && Simple("creat") && Simple("create") && Simple("write")
    ensures Simple("suid") && Simple("exec")
  {
  }

  lemma OtherCallsAreSimple()
    ensures Simple("mprotect") && Simple("fchmodat") && Simple("ioctl") && Simple("termget")
    ensures Simple("termset")
  {
  }

  lemma SocketWordsAreSimple()
    ensures Simple("socket") && Simple("socketpair") && Simple("socketcall") && Simple("unix") && Simple("ip")
    ensures Simple("ip6") && Simple("bt") && Simple("packet")
  {
  }

  lemma SocketCallsAreSimple()
    ensures Simple("connect") && Simple("listen") && Simple("accept") && Simple("accept4") && Simple("bind")
  {
  }

  lemma NumberOfCall(p: Kernel, call: string, d: syscall)
    requires IsNumberOf(p, d.nr, call)
    ensures call in p.nr
  {
  }

  lemma SpellingsDiffer()
    ensures EqNoCase("create", "create") && EqNoCase("write", "write") && EqNoCase("suid", "suid")
    ensures EqNoCase("exec", "exec") && EqNoCase("termget", "termget") && EqNoCase("termset", "termset")
    ensures !EqNoCase("create", "write") && !EqNoCase("create", "suid") && !EqNoCase("create", "exec")
    ensures !EqNoCase("write", "create") && !EqNoCase("write", "suid") && !EqNoCase("write", "exec")
    ensures !EqNoCase("suid", "create") && !EqNoCase("suid", "write") && !EqNoCase("suid", "exec")
    ensures !EqNoCase("exec", "create") && !EqNoCase("exec", "write") && !EqNoCase("exec", "suid")
    ensures !EqNoCase("termget", "termset") && !EqNoCase("termset", "termget")
  {
    OneSpelling("create");
    OneSpelling("write");
    OneSpelling("suid");
    OneSpelling("exec");
    OneSpelling("termget");
    OneSpelling("termset");
    AlikeIsSame("create");
    AlikeIsSame("write");
    AlikeIsSame("suid");
    AlikeIsSame("exec");
    AlikeIsSame("termget");
    AlikeIsSame("termset");
    hide EqNoCase;
  }

  lemma AlikeIsSame(w: string)
    ensures EqNoCase(w, w)
  {
  }

  lemma FamiliesDiffer()
    ensures EqNoCase("unix", "unix") && EqNoCase("ip", "ip") && EqNoCase("ip6", "ip6") && EqNoCase("bt", "bt")
    ensures EqNoCase("packet", "packet") && !EqNoCase("ip", "unix") && !EqNoCase("ip6", "unix")
    ensures !EqNoCase("ip6", "ip") && !EqNoCase("bt", "unix") && !EqNoCase("bt", "ip") && !EqNoCase("bt", "ip6")
    ensures !EqNoCase("packet", "unix") && !EqNoCase("packet", "ip") && !EqNoCase("packet", "ip6")
    ensures !EqNoCase("packet", "bt")
  {
    AlikeIsSame("unix");
    AlikeIsSame("ip");
    AlikeIsSame("ip6");
    AlikeIsSame("bt");
    AlikeIsSame("packet");
    assert Lower("bt"[0]) != Lower("ip"[0]);
  }

  lemma SocketNamesDiffer()
    ensures "bind" != "socket" && "connect" != "socket" && "connect" != "bind" && "listen" != "socket"
    ensures "listen" != "bind" && "listen" != "connect" && "accept" != "socket" && "accept" != "bind"
    ensures "accept" != "connect" && "accept" != "listen" && "socketpair" != "socket" && "socketpair" != "bind"
    ensures "socketpair" != "connect" && "socketpair" != "listen" && "socketpair" != "accept"
    ensures "accept4" != "socket" && "accept4" != "bind" && "accept4" != "connect" && "accept4" != "listen"
    ensures "accept4" != "accept" && "accept4" != "socketpair"
  {
  }

  lemma OpenTexts()
    ensures "syscall_kill" + ("=" + Spelled("open", "create")) == "syscall_kill=open(create)"
    ensures "syscall_kill" + ("=" + Spelled("open", "write")) == "syscall_kill=open(write)"
    ensures "syscall_kill" + ("=" + Spelled("open", "suid")) == "syscall_kill=open(suid)"
    ensures "syscall_kill" + ("=" + Spelled("open", "exec")) == "syscall_kill=open(exec)"
  {
  }

  /** open, killed word for word. */
  lemma KillsOpen(p: Kernel, d: syscall, acc: word)
    requires OneNumberEach(p) && IsNumberOf(p, d.nr, "open") && d.arch == p.arch
    ensures var f := d.args[1] % 0x1_0000_0000;
            Run(Handed(p, "syscall_kill=open(create)"), d, 0, acc)
            == Some(if f / 64 % 2 == 1 then 0 else 0x7FFF_0000)
    ensures var f := d.args[1] % 0x1_0000_0000;
            Run(Handed(p, "syscall_kill=open(write)"), d, 0, acc)
            == Some(if f % 2 == 1 || f / 2 % 2 == 1 || f / 64 % 2 == 1 || f / 1024 % 2 == 1 then 0 else 0x7FFF_0000)
    ensures var m := d.args[2] % 0x1_0000_0000;
            Run(Handed(p, "syscall_kill=open(suid)"), d, 0, acc)
            == Some(if m / 1024 % 2 == 1 || m / 2048 % 2 == 1 then 0 else 0x7FFF_0000)
    ensures var f, m := d.args[1] % 0x1_0000_0000, d.args[2] % 0x1_0000_0000;
            Run(Handed(p, "syscall_kill=open(exec)"), d, 0, acc)
            == Some(if f / 64 % 2 == 1 && (m % 2 == 1 || m / 8 % 2 == 1 || m / 64 % 2 == 1) then 0 else 0x7FFF_0000)
  {
    hide *;
    OpenTexts();
    OpenWordsAreSimple();
    SpellingsDiffer();
    NumberOfCall(p, "open", d);
    Kills(p, "open", "create", d, acc);
    OpenWords(p, "open", "create", d);
    Kills(p, "open", "write", d, acc);
    OpenWords(p, "open", "write", d);
    Kills(p, "open", "suid", d, acc);
    OpenWords(p, "open", "suid", d);
    Kills(p, "open", "exec", d, acc);
    OpenWords(p, "open", "exec", d);
  }

  lemma OpenatTexts()
    ensures "syscall_kill" + ("=" + Spelled("openat", "create")) == "syscall_kill=openat(create)"
    ensures "syscall_kill" + ("=" + Spelled("openat", "write")) == "syscall_kill=openat(write)"
    ensures "syscall_kill" + ("=" + Spelled("openat", "suid")) == "syscall_kill=openat(suid)"
    ensures "syscall_kill" + ("=" + Spelled("openat", "exec")) == "syscall_kill=openat(exec)"
  {
  }

  /** openat, with a directory in front. */
  lemma KillsOpenat(p: Kernel, d: syscall, acc: word)
    requires OneNumberEach(p) && IsNumberOf(p, d.nr, "openat") && d.arch == p.arch
    ensures var f := d.args[2] % 0x1_0000_0000;
            Run(Handed(p, "syscall_kill=openat(create)"), d, 0, acc)
            == Some(if f / 64 % 2 == 1 then 0 else 0x7FFF_0000)
    ensures var f := d.args[2] % 0x1_0000_0000;
            Run(Handed(p, "syscall_kill=openat(write)"), d, 0, acc)
            == Some(if f % 2 == 1 || f / 2 % 2 == 1 || f / 64 % 2 == 1 || f / 1024 % 2 == 1 then 0 else 0x7FFF_0000)
    ensures var m := d.args[3] % 0x1_0000_0000;
            Run(Handed(p, "syscall_kill=openat(suid)"), d, 0, acc)
            == Some(if m / 1024 % 2 == 1 || m / 2048 % 2 == 1 then 0 else 0x7FFF_0000)
    ensures var f, m := d.args[2] % 0x1_0000_0000, d.args[3] % 0x1_0000_0000;
            Run(Handed(p, "syscall_kill=openat(exec)"), d, 0, acc)
            == Some(if f / 64 % 2 == 1 && (m % 2 == 1 || m / 8 % 2 == 1 || m / 64 % 2 == 1) then 0 else 0x7FFF_0000)
  {
    hide *;
    OpenatTexts();
    OpenWordsAreSimple();
    SpellingsDiffer();
    NumberOfCall(p, "openat", d);
    Kills(p, "openat", "create", d, acc);
    OpenatWords(p, "openat", "create", d);
    Kills(p, "openat", "write", d, acc);
    OpenatWords(p, "openat", "write", d);
    Kills(p, "openat", "suid", d, acc);
    OpenatWords(p, "openat", "suid", d);
    Kills(p, "openat", "exec", d, acc);
    OpenatWords(p, "openat", "exec", d);
  }

  lemma CreatTexts()
    ensures "syscall_kill" + ("=" + Spelled("creat", "create")) == "syscall_kill=creat(create)"
    ensures "syscall_kill" + ("=" + Spelled("creat", "write")) == "syscall_kill=creat(write)"
    ensures "syscall_kill" + ("=" + Spelled("creat", "suid")) == "syscall_kill=creat(suid)"
    ensures "syscall_kill" + ("=" + Spelled("creat", "exec")) == "syscall_kill=creat(exec)"
  {
  }

  /** creat, whose second argument is tested as if it were flags, and whose third as if it were the mode. */
  lemma KillsCreat(p: Kernel, d: syscall, acc: word)
    requires OneNumberEach(p) && IsNumberOf(p, d.nr, "creat") && d.arch == p.arch
    ensures var f := d.args[1] % 0x1_0000_0000;
            Run(Handed(p, "syscall_kill=creat(create)"), d, 0, acc)
            == Some(if f / 64 % 2 == 1 then 0 else 0x7FFF_0000)
    ensures var f := d.args[1] % 0x1_0000_0000;
            Run(Handed(p, "syscall_kill=creat(write)"), d, 0, acc)
            == Some(if f % 2 == 1 || f / 2 % 2 == 1 || f / 64 % 2 == 1 || f / 1024 % 2 == 1 then 0 else 0x7FFF_0000)
    ensures var m := d.args[2] % 0x1_0000_0000;
            Run(Handed(p, "syscall_kill=creat(suid)"), d, 0, acc)
            == Some(if m / 1024 % 2 == 1 || m / 2048 % 2 == 1 then 0 else 0x7FFF_0000)
    ensures var m := d.args[2] % 0x1_0000_0000;
            Run(Handed(p, "syscall_kill=creat(exec)"), d, 0, acc)
            == Some(if m % 2 == 1 || m / 8 % 2 == 1 || m / 64 % 2 == 1 then 0 else 0x7FFF_0000)
  {
    hide *;
    CreatTexts();
    OpenWordsAreSimple();
    SpellingsDiffer();
    NumberOfCall(p, "creat", d);
    Kills(p, "creat", "create", d, acc);
    CreatWords(p, "create", d);
    Kills(p, "creat", "write", d, acc);
    CreatWords(p, "write", d);
    Kills(p, "creat", "suid", d, acc);
    CreatWords(p, "suid", d);
    Kills(p, "creat", "exec", d, acc);
    CreatWords(p, "exec", d);
  }

  lemma FchmodatTexts()
    ensures "syscall_kill" + ("=" + Spelled("fchmodat", "exec")) == "syscall_kill=fchmodat(exec)"
    ensures "syscall_kill" + ("=" + Spelled("fchmodat", "suid")) == "syscall_kill=fchmodat(suid)"
  {
  }

  /** fchmodat, by its mode. */
  lemma KillsFchmodat(p: Kernel, d: syscall, acc: word)
    requires OneNumberEach(p) && IsNumberOf(p, d.nr, "fchmodat") && d.arch == p.arch
    ensures var m := d.args[2] % 0x1_0000_0000;
            Run(Handed(p, "syscall_kill=fchmodat(exec)"), d, 0, acc)
            == Some(if m % 2 == 1 || m / 8 % 2 == 1 || m / 64 % 2 == 1 then 0 else 0x7FFF_0000)
    ensures var m := d.args[2] % 0x1_0000_0000;
            Run(Handed(p, "syscall_kill=fchmodat(suid)"), d, 0, acc)
            == Some(if m / 1024 % 2 == 1 || m / 2048 % 2 == 1 then 0 else 0x7FFF_0000)
  {
    hide *;
    FchmodatTexts();
    OpenWordsAreSimple();
    OtherCallsAreSimple();
    SpellingsDiffer();
    NumberOfCall(p, "fchmodat", d);
    Kills(p, "fchmodat", "exec", d, acc);
    ModeWords(p, "fchmodat", "exec", d);
    Kills(p, "fchmodat", "suid", d, acc);
    ModeWords(p, "fchmodat", "suid", d);
  }

  lemma MprotectTexts()
    ensures "syscall_kill" + ("=" + Spelled("mprotect", "exec")) == "syscall_kill=mprotect(exec)"
  {
  }

  /** mprotect, for memory that is to be executed. */
  lemma KillsMprotect(p: Kernel, d: syscall, acc: word)
    requires OneNumberEach(p) && IsNumberOf(p, d.nr, "mprotect") && d.arch == p.arch
    ensures var a := d.args[2] % 0x1_0000_0000;
            Run(Handed(p, "syscall_kill=mprotect(exec)"), d, 0, acc)
            == Some(if a / 4 % 2 == 1 then 0 else 0x7FFF_0000)
  {
    hide *;
    MprotectTexts();
    OpenWordsAreSimple();
    OtherCallsAreSimple();
    SpellingsDiffer();
    NumberOfCall(p, "mprotect", d);
    Kills(p, "mprotect", "exec", d, acc);
    ProtectionWords(p, "mprotect", "exec", d);
  }

  lemma IoctlTexts()
    ensures "syscall_kill" + ("=" + Spelled("ioctl", "termget")) == "syscall_kill=ioctl(termget)"
    ensures "syscall_kill" + ("=" + Spelled("ioctl", "termset")) == "syscall_kill=ioctl(termset)"
  {
  }

  /** ioctl, by its request. */
  lemma KillsIoctl(p: Kernel, d: syscall, acc: word)
    requires OneNumberEach(p) && IsNumberOf(p, d.nr, "ioctl") && d.arch == p.arch
    ensures Run(Handed(p, "syscall_kill=ioctl(termget)"), d, 0, acc)
         == Some(if d.args[1] % 0x1_0000_0000 == 0x5401 then 0 else 0x7FFF_0000)
    ensures Run(Handed(p, "syscall_kill=ioctl(termset)"), d, 0, acc)
         == Some(if d.args[1] % 0x1_0000_0000 == 0x5402 then 0 else 0x7FFF_0000)
  {
    hide *;
    IoctlTexts();
    OtherCallsAreSimple();
    SpellingsDiffer();
    NumberOfCall(p, "ioctl", d);
    Kills(p, "ioctl", "termget", d, acc);
    IoctlWords(p, "termget", d);
    Kills(p, "ioctl", "termset", d, acc);
    IoctlWords(p, "termset", d);
  }

  lemma SocketTexts()
    ensures "syscall_kill" + ("=" + Spelled("socket", "ip6")) == "syscall_kill=socket(ip6)"
    ensures "syscall_kill" + ("=" + Spelled("socket", "bt")) == "syscall_kill=socket(bt)"
  {
  }

  /** socket, by the families that have no entry of their own in the table. */
  lemma KillsSocket(p: Kernel, d: syscall, acc: word)
    requires OneNumberEach(p) && IsNumberOf(p, d.nr, "socket") && d.arch == p.arch
    ensures Run(Handed(p, "syscall_kill=socket(ip6)"), d, 0, acc)
         == Some(if d.args[0] % 0x1_0000_0000 == 10 then 0 else 0x7FFF_0000)
    ensures Run(Handed(p, "syscall_kill=socket(bt)"), d, 0, acc)
         == Some(if d.args[0] % 0x1_0000_0000 == 31 then 0 else 0x7FFF_0000)
  {
    hide *;
    SocketTexts();
    SocketWordsAreSimple();
    FamiliesDiffer();
    NumberOfCall(p, "socket", d);
    Kills(p, "socket", "ip6", d, acc);
    SocketWords(p, "socket", "ip6", d);
    Kills(p, "socket", "bt", d, acc);
    SocketWords(p, "socket", "bt", d);
  }

  lemma SocketpairTexts1()
    ensures "syscall_kill" + ("=" + Spelled("socketpair", "unix")) == "syscall_kill=socketpair(unix)"
    ensures "syscall_kill" + ("=" + Spelled("socketpair", "ip")) == "syscall_kill=socketpair(ip)"
  {
  }

  lemma SocketpairTexts2()
    ensures "syscall_kill" + ("=" + Spelled("socketpair", "ip6")) == "syscall_kill=socketpair(ip6)"
    ensures "syscall_kill" + ("=" + Spelled("socketpair", "bt")) == "syscall_kill=socketpair(bt)"
  {
  }

  lemma SocketpairTexts3()
    ensures "syscall_kill" + ("=" + Spelled("socketpair", "packet")) == "syscall_kill=socketpair(packet)"
  {
  }

  /** socketpair, by the address family. */
  lemma KillsSocketpair(p: Kernel, d: syscall, acc: word)
    requires OneNumberEach(p) && IsNumberOf(p, d.nr, "socketpair") && d.arch == p.arch
    ensures Run(Handed(p, "syscall_kill=socketpair(unix)"), d, 0, acc)
         == Some(if d.args[0] % 0x1_0000_0000 == 1 then 0 else 0x7FFF_0000)
    ensures Run(Handed(p, "syscall_kill=socketpair(ip)"), d, 0, acc)
         == Some(if d.args[0] % 0x1_0000_0000 == 2 then 0 else 0x7FFF_0000)
    ensures Run(Handed(p, "syscall_kill=socketpair(ip6)"), d, 0, acc)
         == Some(if d.args[0] % 0x1_0000_0000 == 10 then 0 else 0x7FFF_0000)
    ensures Run(Handed(p, "syscall_kill=socketpair(bt)"), d, 0, acc)
         == Some(if d.args[0] % 0x1_0000_0000 == 31 then 0 else 0x7FFF_0000)
    ensures Run(Handed(p, "syscall_kill=socketpair(packet)"), d, 0, acc)
         == Some(if d.args[0] % 0x1_0000_0000 == 17 then 0 else 0x7FFF_0000)
  {
    hide *;
    SocketpairTexts1();
    SocketpairTexts2();
    SocketpairTexts3();
    SocketWordsAreSimple();
    FamiliesDiffer();
    NumberOfCall(p, "socketpair", d);
    Kills(p, "socketpair", "unix", d, acc);
    SocketWords(p, "socketpair", "unix", d);
    Kills(p, "socketpair", "ip", d, acc);
    SocketWords(p, "socketpair", "ip", d);
    Kills(p, "socketpair", "ip6", d, acc);
    SocketWords(p, "socketpair", "ip6", d);
    Kills(p, "socketpair", "bt", d, acc);
    SocketWords(p, "socketpair", "bt", d);
    Kills(p, "socketpair", "packet", d, acc);
    SocketWords(p, "socketpair", "packet", d);
  }

  lemma SocketcallTexts1()
    ensures "syscall_kill" + ("=" + Spelled("socketcall", "socket")) == "syscall_kill=socketcall(socket)"
    ensures "syscall_kill" + ("=" + Spelled("socketcall", "bind")) == "syscall_kill=socketcall(bind)"
  {
  }

  lemma SocketcallTexts2()
    ensures "syscall_kill" + ("=" + Spelled("socketcall", "connect")) == "syscall_kill=socketcall(connect)"
    ensures "syscall_kill" + ("=" + Spelled("socketcall", "listen")) == "syscall_kill=socketcall(listen)"
  {
  }

  lemma SocketcallTexts3()
    ensures "syscall_kill" + ("=" + Spelled("socketcall", "accept")) == "syscall_kill=socketcall(accept)"
    ensures "syscall_kill" + ("=" + Spelled("socketcall", "socketpair")) == "syscall_kill=socketcall(socketpair)"
  {
  }

  lemma SocketcallTexts4()
    ensures "syscall_kill" + ("=" + Spelled("socketcall", "accept4")) == "syscall_kill=socketcall(accept4)"
  {
  }

  /** socketcall, by the number of the socket call. */
  lemma KillsSocketcall(p: Kernel, d: syscall, acc: word)
    requires OneNumberEach(p) && IsNumberOf(p, d.nr, "socketcall") && d.arch == p.arch
    ensures Run(Handed(p, "syscall_kill=socketcall(socket)"), d, 0, acc)
         == Some(if d.args[0] % 0x1_0000_0000 == 1 then 0 else 0x7FFF_0000)
    ensures Run(Handed(p, "syscall_kill=socketcall(bind)"), d, 0, acc)
         == Some(if d.args[0] % 0x1_0000_0000 == 2 then 0 else 0x7FFF_0000)
    ensures Run(Handed(p, "syscall_kill=socketcall(connect)"), d, 0, acc)
         == Some(if d.args[0] % 0x1_0000_0000 == 3 then 0 else 0x7FFF_0000)
    ensures Run(Handed(p, "syscall_kill=socketcall(listen)"), d, 0, acc)
         == Some(if d.args[0] % 0x1_0000_0000 == 4 then 0 else 0x7FFF_0000)
    ensures Run(Handed(p, "syscall_kill=socketcall(accept)"), d, 0, acc)
         == Some(if d.args[0] % 0x1_0000_0000 == 5 then 0 else 0x7FFF_0000)
    ensures Run(Handed(p, "syscall_kill=socketcall(socketpair)"), d, 0, acc)
         == Some(if d.args[0] % 0x1_0000_0000 == 8 then 0 else 0x7FFF_0000)
    ensures Run(Handed(p, "syscall_kill=socketcall(accept4)"), d, 0, acc)
         == Some(if d.args[0] % 0x1_0000_0000 == 18 then 0 else 0x7FFF_0000)
  {
    hide *;
    SocketcallTexts1();
    SocketcallTexts2();
    SocketcallTexts3();
    SocketcallTexts4();
    SocketWordsAreSimple();
    SocketCallsAreSimple();
    SocketNamesDiffer();
    NumberOfCall(p, "socketcall", d);
    Kills(p, "socketcall", "socket", d, acc);
    SocketcallWords(p, "socket", d);
    Kills(p, "socketcall", "bind", d, acc);
    SocketcallWords(p, "bind", d);
    Kills(p, "socketcall", "connect", d, acc);
    SocketcallWords(p, "connect", d);
    Kills(p, "socketcall", "listen", d, acc);
    SocketcallWords(p, "listen", d);
    Kills(p, "socketcall", "accept", d, acc);
    SocketcallWords(p, "accept", d);
    Kills(p, "socketcall", "socketpair", d, acc);
    SocketcallWords(p, "socketpair", d);
    Kills(p, "socketcall", "accept4", d, acc);
    SocketcallWords(p, "accept4", d);
  }

  // ---------------------------------------------------------------- words that the group table lists

  /** Calls that all have the same word. */
  function Spellings(calls: seq<string>, w: string): seq<string> {
    if calls == [] then [] else [Spelled(calls[0], w)] + Spellings(calls[1..], w)
  }

  lemma {:induction false} SpellingsHit(p: Kernel, calls: seq<string>, w: string, call: string, d: syscall)
    requires call in p.nr && Argument(w) && forall i :: 0 <= i < |calls| ==> '(' !in calls[i]
    ensures WellFormedChecks(ParseArg0(p, p.nr[call], w))
    ensures (exists t :: t in Spellings(calls, w) && Hits(p, t, call, d))
        <==> call in calls && ChecksHold(ParseArg0(p, p.nr[call], w), d)
  {
    hide Hits, ParseArg0, ChecksHold, Argument, Spelled;
    WordIsSomething(w);
    ChecksWellFormed(p, call, w);
    if calls != [] {
      SpellingsHit(p, calls[1..], w, call, d);
      SpelledHitsOwn(p, Spelled(calls[0], w), calls[0], w, call, d);
      var first, rest := Spelled(calls[0], w), Spellings(calls[1..], w);
      assert forall t :: t in [first] + rest <==> t == first || t in rest;
      assert calls == [calls[0]] + calls[1..];
    }
  }

  /** A text that kills with a word of which the table lists several calls. */
  lemma KillsListed(p: Kernel, n: string, k: nat, calls: seq<string>, w: string, call: string, d: syscall, acc: word)
    requires OneNumberEach(p) && IsNumberOf(p, d.nr, call) && d.arch == p.arch
    requires Graphic(n) && Small(n, k) && k <= 450 && Members(n) == Spellings(calls, w)
    requires Argument(w) && forall i :: 0 <= i < |calls| ==> '(' !in calls[i]
    ensures WellFormedChecks(ParseArg0(p, p.nr[call], w))
    ensures Run(Handed(p, "syscall_kill" + ("=" + n)), d, 0, acc)
         == Some(if call in calls && ChecksHold(ParseArg0(p, p.nr[call], w), d) then 0 else 0x7FFF_0000)
  {
    hide OneNumberEach, Graphic, Handed, Run, ChecksHold, ParseArg0, Argument, Members, Small, Spellings, Hits;
    SpellingsHit(p, calls, w, call, d);
    NameVerdict(p, "syscall_kill", 0, n, k, call, d, acc);
  }

  function MmapCalls(): seq<string> { ["mmap", "mmap2"] }

  lemma SpellingsNext(c: string, rest: seq<string>, w: string)
    ensures Spellings([c] + rest, w) == [Spelled(c, w)] + Spellings(rest, w)
  {
    assert ([c] + rest)[1..] == rest;
  }

  lemma NoSpellings(w: string)
    ensures Spellings([], w) == []
  {
  }

  lemma MmapSpelled()
    ensures Spelled("mmap", "exec") == "mmap(exec)" && Spelled("mmap2", "exec") == "mmap2(exec)"
    ensures CallTable("mmap(exec)") == ["mmap(exec)", "mmap2(exec)"]
  {
  }

  lemma MmapIsGood()
    ensures CleanName("mmap(exec)") && Graphic("mmap(exec)") && Argument("exec")
    ensures forall i :: 0 <= i < |MmapCalls()| ==> '(' !in MmapCalls()[i]
  {
  }

  lemma MmapListed()
    ensures Members("mmap(exec)") == Spellings(MmapCalls(), "exec")
  {
    MmapIsGood();
    MmapSpelled();
    NoSpellings("exec");
    hide CallTable, Members, Spellings, Spelled, CleanName;
    CleanIsCall("mmap(exec)");
    SpellingsNext("mmap2", [], "exec");
    SpellingsNext("mmap", ["mmap2"], "exec");
    assert ["mmap2"] == ["mmap2"] + [] && MmapCalls() == ["mmap"] + ["mmap2"];
  }

  /** mmap and mmap2, for memory that is to be executed. */
  lemma KillsMmap(p: Kernel, call: string, d: syscall, acc: word)
    requires OneNumberEach(p) && IsNumberOf(p, d.nr, call) && d.arch == p.arch && (call == "mmap" || call == "mmap2")
    ensures var a := d.args[2] % 0x1_0000_0000;
            Run(Handed(p, "syscall_kill=mmap(exec)"), d, 0, acc) == Some(if a / 4 % 2 == 1 then 0 else 0x7FFF_0000)
  {
    hide OneNumberEach, IsNumberOf, Handed, Run, ChecksHold, ParseArg0, Argument, Members, Small, Spellings, Graphic;
    hide EqNoCase;
    NumberOfCall(p, call, d);
    MmapIsGood();
    MmapListed();
    VariantsSmall(2);
    SpellingsDiffer();
    KillsListed(p, "mmap(exec)", 2, MmapCalls(), "exec", call, d, acc);
    ProtectionWords(p, call, "exec", d);
    assert "syscall_kill" + ("=" + "mmap(exec)") == "syscall_kill=mmap(exec)";
  }

  /** The calls that make a file executable, by the word of the first. */
  function ChmodCalls(): seq<string> {
    ["chmod", "fchmod", "fchmodat", "lchmod", "open", "openat", "open2", "openat2", "creat"]
  }

  lemma ChmodSpelled()
    ensures Spelled("chmod", "exec") == "chmod(exec)" && Spelled("fchmod", "exec") == "fchmod(exec)"
    ensures Spelled("fchmodat", "exec") == "fchmodat(exec)" && Spelled("lchmod", "exec") == "lchmod(exec)"
  {
  }

  lemma ChmodOpenSpelled()
    ensures Spelled("open", "exec") == "open(exec)" && Spelled("openat", "exec") == "openat(exec)"
    ensures Spelled("open2", "exec") == "open2(exec)" && Spelled("openat2", "exec") == "openat2(exec)"
    ensures Spelled("creat", "exec") == "creat(exec)"
  {
  }

  lemma ChmodTable()
    ensures CallTable("chmod(exec)") ==
            ["chmod(exec)", "fchmod(exec)", "fchmodat(exec)", "lchmod(exec)", "open(exec)", "openat(exec)",
             "open2(exec)", "openat2(exec)", "creat(exec)"]
  {
  }

  lemma ChmodIsGood()
    ensures CleanName("chmod(exec)") && Graphic("chmod(exec)") && Argument("exec")
  {
  }

  lemma ChmodCallsArePlain()
    ensures forall i :: 0 <= i < |ChmodCalls()| ==> '(' !in ChmodCalls()[i]
  {
  }

  lemma OpenSpellings()
    ensures Spellings(["open", "openat", "open2", "openat2", "creat"], "exec")
         == ["open(exec)", "openat(exec)", "open2(exec)", "openat2(exec)", "creat(exec)"]
  {
    ChmodOpenSpelled();
    NoSpellings("exec");
    hide Spellings, Spelled;
    SpellingsNext("creat", [], "exec");
    SpellingsNext("openat2", ["creat"], "exec");
    SpellingsNext("open2", ["openat2", "creat"], "exec");
    SpellingsNext("openat", ["open2", "openat2", "creat"], "exec");
    SpellingsNext("open", ["openat", "open2", "openat2", "creat"], "exec");
    assert ["creat"] + [] == ["creat"] && ["openat2"] + ["creat"] == ["openat2", "creat"];
    assert ["open2"] + ["openat2", "creat"] == ["open2", "openat2", "creat"];
    assert ["openat"] + ["open2", "openat2", "creat"] == ["openat", "open2", "openat2", "creat"];
    assert ["open"] + ["openat", "open2", "openat2", "creat"] == ["open", "openat", "open2", "openat2", "creat"];
  }

  lemma ChmodListed()
    ensures Members("chmod(exec)") == Spellings(ChmodCalls(), "exec")
  {
    ChmodIsGood();
    ChmodTable();
    ChmodSpelled();
    OpenSpellings();
    hide CallTable, Members, Spellings, Spelled, CleanName;
    CleanIsCall("chmod(exec)");
    var open := ["open", "openat", "open2", "openat2", "creat"];
    SpellingsNext("lchmod", open, "exec");
    SpellingsNext("fchmodat", ["lchmod"] + open, "exec");
    SpellingsNext("fchmod", ["fchmodat"] + (["lchmod"] + open), "exec");
    SpellingsNext("chmod", ["fchmod"] + (["fchmodat"] + (["lchmod"] + open)), "exec");
    assert ChmodCalls() == ["chmod"] + (["fchmod"] + (["fchmodat"] + (["lchmod"] + open)));
  }

  lemma ExecIs()
    ensures EqNoCase("exec", "exec") && !EqNoCase("exec", "suid") && !EqNoCase("exec", "create")
    ensures !EqNoCase("exec", "write") && "exec" != "" && !IsDigit("exec"[0])
  {
    SpellingsDiffer();
  }

  lemma KillsExec(p: Kernel, call: string, d: syscall, acc: word)
    requires OneNumberEach(p) && IsNumberOf(p, d.nr, call) && d.arch == p.arch && call in ChmodCalls()
    ensures call in p.nr && WellFormedChecks(ParseArg0(p, p.nr[call], "exec"))
    ensures Run(Handed(p, "syscall_kill=chmod(exec)"), d, 0, acc)
         == Some(if ChecksHold(ParseArg0(p, p.nr[call], "exec"), d) then 0 else 0x7FFF_0000)
  {
    hide OneNumberEach, IsNumberOf, Handed, Run, ChecksHold, ParseArg0, Argument, Members, Small, Spellings, Graphic;
    hide ChmodCalls;
    NumberOfCall(p, call, d);
    ChmodIsGood();
    ChmodCallsArePlain();
    ChmodListed();
    VariantsSmall(9);
    KillsListed(p, "chmod(exec)", 9, ChmodCalls(), "exec", call, d, acc);
    assert "syscall_kill" + ("=" + "chmod(exec)") == "syscall_kill=chmod(exec)";
  }

  /**
   What is made executable, by the call that does it. The mode that is tested is the third argument of chmod, fchmod
   and creat, which have theirs in the second: what those calls do is never tested.
   */
  lemma KillsChmodExec(p: Kernel, call: string, d: syscall, acc: word)
    requires OneNumberEach(p) && IsNumberOf(p, d.nr, call) && d.arch == p.arch
    ensures call == "chmod" || call == "fchmod" || call == "lchmod" || call == "fchmodat" || call == "creat"
        ==> var m := d.args[2] % 0x1_0000_0000;
            Run(Handed(p, "syscall_kill=chmod(exec)"), d, 0, acc)
            == Some(if m % 2 == 1 || m / 8 % 2 == 1 || m / 64 % 2 == 1 then 0 else 0x7FFF_0000)
    ensures call == "open" || call == "open2"
        ==> var f, m := d.args[1] % 0x1_0000_0000, d.args[2] % 0x1_0000_0000;
            Run(Handed(p, "syscall_kill=chmod(exec)"), d, 0, acc)
            == Some(if f / 64 % 2 == 1 && (m % 2 == 1 || m / 8 % 2 == 1 || m / 64 % 2 == 1) then 0 else 0x7FFF_0000)
    ensures call == "openat" || call == "openat2"
        ==> var f, m := d.args[2] % 0x1_0000_0000, d.args[3] % 0x1_0000_0000;
            Run(Handed(p, "syscall_kill=chmod(exec)"), d, 0, acc)
            == Some(if f / 64 % 2 == 1 && (m % 2 == 1 || m / 8 % 2 == 1 || m / 64 % 2 == 1) then 0 else 0x7FFF_0000)
  {
    ExecIs();
    InChmodCalls(call);
    hide *;
    if call in ChmodCalls() {
      KillsExec(p, call, d, acc);
      if call == "open" || call == "open2" {
        OpenWords(p, call, "exec", d);
      } else if call == "openat" || call == "openat2" {
        OpenatWords(p, call, "exec", d);
      } else if call == "creat" {
        CreatWords(p, "exec", d);
      } else {
        ModeWords(p, call, "exec", d);
      }
    }
  }

  lemma InChmodCalls(call: string)
    ensures call in ChmodCalls() <==>
            || call == "chmod" || call == "fchmod" || call == "lchmod" || call == "fchmodat" || call == "creat"
            || call == "open" || call == "open2" || call == "openat" || call == "openat2"
  {
  }

  // ---------------------------------------------------------------- socket families

  /** A socket call behind socketcall, with the family that cannot be tested there. */
  function Behind(w: string, family: string): string { "socketcall" + ("(" + (w + ("," + (family + ")")))) }

  lemma BehindHits(p: Kernel, w: string, family: string, call: string, d: syscall)
    requires OneNumberEach(p) && call in p.nr && Argument(w) && Argument(family)
    requires !IsDigit(w[0]) && !IsDigit(family[0])
    requires w == "socket" || w == "socketpair"
    ensures Hits(p, Behind(w, family), call, d)
        <==> call == "socketcall" && d.args[0] % 0x1_0000_0000 == if w == "socket" then 1 else 8
  {
    hide OneNumberEach, BaseName, ParseChecks, ParseArg0, ChecksHold, Argument;
    BaseAndRest(Behind(w, family), "socketcall", w + ("," + (family + ")")));
    if call == "socketcall" {
      TwoArguments(p, Behind(w, family), "socketcall", w, family);
      WordIsSomething(family);
      WordIsSomething(w);
      SocketcallWords(p, w, d);
      assert ParseArg1(family) == [];
      assert ParseArg0(p, p.nr["socketcall"], w) + [] == ParseArg0(p, p.nr["socketcall"], w);
    }
  }

  predicate FamilyListed(n: string, family: string) {
    && Graphic(n) && Small(n, 4) && Argument(family) && !IsDigit(family[0])
    && Members(n) == [Spelled("socket", family), Spelled("socketpair", family), Behind("socket", family),
                      Behind("socketpair", family)]
  }

  lemma SocketArguments()
    ensures Argument("socket") && Argument("socketpair") && !IsDigit("socket"[0]) && !IsDigit("socketpair"[0])
    ensures '(' !in "socket" && '(' !in "socketpair"
  {
  }

  lemma FamilyHits(p: Kernel, family: string, call: string, d: syscall)
    requires OneNumberEach(p) && call in p.nr && Argument(family) && !IsDigit(family[0])
    ensures WellFormedChecks(ParseArg0(p, p.nr[call], family))
    ensures var ts := [Spelled("socket", family), Spelled("socketpair", family), Behind("socket", family),
                       Behind("socketpair", family)];
            (exists t :: t in ts && Hits(p, t, call, d)) <==>
            || ((call == "socket" || call == "socketpair") && ChecksHold(ParseArg0(p, p.nr[call], family), d))
            || (call == "socketcall"
                && (d.args[0] % 0x1_0000_0000 == 1 || d.args[0] % 0x1_0000_0000 == 8))
  {
    hide OneNumberEach, Hits, ParseArg0, ChecksHold, Argument, Spelled, Behind;
    SocketArguments();
    SpelledHitsOwn(p, Spelled("socket", family), "socket", family, call, d);
    SpelledHitsOwn(p, Spelled("socketpair", family), "socketpair", family, call, d);
    BehindHits(p, "socket", family, call, d);
    BehindHits(p, "socketpair", family, call, d);
    var ts := [Spelled("socket", family), Spelled("socketpair", family), Behind("socket", family),
               Behind("socketpair", family)];
    assert ts[0] in ts && ts[1] in ts && ts[2] in ts && ts[3] in ts;
    assert forall t :: t in ts ==> t == ts[0] || t == ts[1] || t == ts[2] || t == ts[3];
  }

  lemma KillsFamily(p: Kernel, n: string, family: string, call: string, d: syscall, acc: word)
    requires OneNumberEach(p) && IsNumberOf(p, d.nr, call) && d.arch == p.arch && FamilyListed(n, family)
    ensures call in p.nr && WellFormedChecks(ParseArg0(p, p.nr[call], family))
    ensures Run(Handed(p, "syscall_kill" + ("=" + n)), d, 0, acc)
         == Some(if || ((call == "socket" || call == "socketpair")
                        && ChecksHold(ParseArg0(p, p.nr[call], family), d))
                    || (call == "socketcall"
                        && (d.args[0] % 0x1_0000_0000 == 1 || d.args[0] % 0x1_0000_0000 == 8))
                 then 0 else 0x7FFF_0000)
  {
    hide OneNumberEach, IsNumberOf, Handed, Run, ChecksHold, ParseArg0, Argument, Members, Small, Graphic, Hits;
    hide Spelled, Behind;
    NumberOfCall(p, call, d);
    FamilyHits(p, family, call, d);
    NameVerdict(p, "syscall_kill", 0, n, 4, call, d, acc);
  }

  lemma FamilyTable()
    ensures CallTable("socket(ip)")
         == ["socket(ip)", "socketpair(ip)", "socketcall(socket,ip)", "socketcall(socketpair,ip)"]
    ensures CallTable("socket(unix)")
         == ["socket(unix)", "socketpair(unix)", "socketcall(socket,unix)", "socketcall(socketpair,unix)"]
    ensures CallTable("socket(packet)")
         == ["socket(packet)", "socketpair(packet)", "socketcall(socket,packet)", "socketcall(socketpair,packet)"]
  {
  }

  lemma FamilyWords()
    ensures Graphic("socket(ip)") && Graphic("socket(unix)") && Graphic("socket(packet)")
    ensures CleanName("socket(ip)") && CleanName("socket(unix)") && CleanName("socket(packet)")
    ensures Argument("ip") && Argument("unix") && Argument("packet")
  {
  }

  lemma IpSpelled()
    ensures Spelled("socketpair", "ip") == "socketpair(ip)" && Behind("socket", "ip") == "socketcall(socket,ip)"
    ensures Behind("socketpair", "ip") == "socketcall(socketpair,ip)"
  {
  }

  lemma UnixSpelled()
    ensures Spelled("socketpair", "unix") == "socketpair(unix)" && Behind("socket", "unix") == "socketcall(socket,unix)"
    ensures Behind("socketpair", "unix") == "socketcall(socketpair,unix)"
  {
  }

  lemma PacketSpelled()
    ensures Spelled("socketpair", "packet") == "socketpair(packet)"
    ensures Behind("socket", "packet") == "socketcall(socket,packet)"
    ensures Behind("socketpair", "packet") == "socketcall(socketpair,packet)"
  {
  }

  lemma FamiliesListed()
    ensures FamilyListed("socket(ip)", "ip") && FamilyListed("socket(unix)", "unix")
    ensures FamilyListed("socket(packet)", "packet")
  {
    hide Graphic, Small, Argument, Members, Spelled, Behind, CallTable, CleanName;
    TableWords();
    FamilyTable();
    FamilyWords();
    IpSpelled();
    UnixSpelled();
    PacketSpelled();
    CleanIsCall("socket(ip)");
    CleanIsCall("socket(unix)");
    CleanIsCall("socket(packet)");
    CallIsSmall("socket(ip)", 4);
    CallIsSmall("socket(unix)", 4);
    CallIsSmall("socket(packet)", 4);
  }

  lemma FamilyTexts()
    ensures "syscall_kill" + ("=" + "socket(ip)") == "syscall_kill=socket(ip)"
    ensures "syscall_kill" + ("=" + "socket(unix)") == "syscall_kill=socket(unix)"
    ensures "syscall_kill" + ("=" + "socket(packet)") == "syscall_kill=socket(packet)"
  {
  }

  /** socket and socketpair, by the families of the table. Behind socketcall the family is not tested. */
  lemma KillsFamilies(p: Kernel, call: string, d: syscall, acc: word)
    requires OneNumberEach(p) && IsNumberOf(p, d.nr, call) && d.arch == p.arch
    requires call == "socket" || call == "socketpair" || call == "socketcall"
    ensures var a := d.args[0] % 0x1_0000_0000;
            && Run(Handed(p, "syscall_kill=socket(unix)"), d, 0, acc)
               == Some(if (if call == "socketcall" then a == 1 || a == 8 else a == 1) then 0 else 0x7FFF_0000)
            && Run(Handed(p, "syscall_kill=socket(ip)"), d, 0, acc)
               == Some(if (if call == "socketcall" then a == 1 || a == 8 else a == 2) then 0 else 0x7FFF_0000)
            && Run(Handed(p, "syscall_kill=socket(packet)"), d, 0, acc)
               == Some(if (if call == "socketcall" then a == 1 || a == 8 else a == 17) then 0 else 0x7FFF_0000)
  {
    FamilyWordsAreWords();
    hide *;
    FamiliesListed();
    FamilyTexts();
    FamiliesDiffer();
    KillsFamily(p, "socket(unix)", "unix", call, d, acc);
    KillsFamily(p, "socket(ip)", "ip", call, d, acc);
    KillsFamily(p, "socket(packet)", "packet", call, d, acc);
    if call != "socketcall" {
      SocketWords(p, call, "unix", d);
      SocketWords(p, call, "ip", d);
      SocketWords(p, call, "packet", d);
    }
  }

  lemma FamilyWordsAreWords()
    ensures !IsDigit("unix"[0]) && !IsDigit("ip"[0]) && !IsDigit("packet"[0])
    ensures "socketcall" != "socket" && "socketcall" != "socketpair" && "socket" != "socketpair"
  {
  }
}
