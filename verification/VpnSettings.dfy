/**
 What a line of the configuration file sets, and what is written for a configuration: every setting by its name, as
 the file spells it, with plain values, quoted values and white space behind them.
 */
module VpnSettings {
  import opened Text
  import opened VpnConfig

  // ---------------------------------------------------------------- one line

  /** Names of settings are compared without regard to case. */
  lemma AnyCaseHasLetters(name: string, k: Key)
    requires Is(name, k)
    ensures name != "" && Letters(name)
  {
    NameHasLetters(k);
    CaseOfLetters(name, Name(k));
    hide Name, EqNoCase;
    assert forall i :: 0 <= i < |name| ==> 'A' <= Name(k)[i] <= 'Z' || 'a' <= Name(k)[i] <= 'z';
  }

  lemma LineHasNoEnd(name: string, value: string)
    requires Letters(name) && '\n' !in value
    ensures '\n' !in name + "=" + value
  {
  }

  /** A file of one line. */
  lemma OneLine(st: State, line: string, w: World)
    requires '\n' !in line
    ensures ReadText(st, line + "\n", w) == ReadLine(st, StripTrailingWhitespace(line), w)
  {
    hide Tokens, ReadLine, StripTrailingWhitespace;
    TokensOfTerminatedOne(line, '\n');
    assert line + "\n" == line + ['\n'];
    assert [line][..0] == [];
    assert ReadLines(st, [], w) == st;
  }

  /** One name and one value on a line: the setting of that name gets the value, as far as reading leaves it. */
  lemma LineSets(st: State, name: string, k: Key, value: string, v: string, w: World)
    requires Is(name, k) && '\n' !in value
    requires var s := StripTrailingWhitespace(value); FindSeparator(s, ' ').at == |s| && StripQuotes(s) == v
    ensures ReadText(st, name + "=" + value + "\n", w) == Set(st, k, v, w)
  {
    hide Is, Letters, FindSeparator, StripTrailingWhitespace, StripQuotes, GetNameValuePair, Apply, Set;
    AnyCaseHasLetters(name, k);
    LineHasNoEnd(name, value);
    OneLine(st, name + "=" + value, w);
    FirstPair(name, value, w);
    var s := StripTrailingWhitespace(value);
    assert s[..|s|] == s;
    ApplyIsSet(st, name, k, v, w);
    NoMorePairs(w);
  }

  /** A value that comes back as it was written is set, and white space behind it goes. */
  lemma ValueSets(st: State, name: string, k: Key, v: string, blanks: string, w: World)
    requires Is(name, k) && OneWord(v)
    requires forall i :: 0 <= i < |blanks| ==> blanks[i] in " \t\r\U{000B}\U{000C}"
    ensures ReadText(st, name + "=" + (v + blanks) + "\n", w) == Set(st, k, v, w)
  {
    hide Is, FindSeparator, StripQuotes, ReadText, Set;
    QuotesShorten(v);
    if v != "" {
      StrippedEnd(v);
    }
    StripBlanks(v, blanks);
    hide StripTrailingWhitespace;
    LineSets(st, name, k, v + blanks, v, w);
  }

  lemma StrippedEnd(v: string)
    requires StripTrailingWhitespace(v) == v && v != ""
    ensures v[|v| - 1] !in " \t\n\r\U{000B}\U{000C}"
  {
    if IsSpace(v[|v| - 1]) {
      StripShortens(v[..|v| - 1]);
    }
  }

  /** A value without white space, quotes and backslashes is one that comes back. */
  lemma PlainIsWord(v: string)
    requires forall i :: 0 <= i < |v| ==> v[i] !in " \t\n\r\U{000B}\U{000C}\"'\\"
    ensures OneWord(v)
  {
    hide OneWord;
    PlainIsOneWord(v);
  }

  lemma {:induction false} UpToEnd(v: string, q: char)
    requires q !in v && '\\' !in v
    ensures UpTo(v + [q], q) == |v|
  {
    if v == "" {
      assert (v + [q])[0] == q;
    } else {
      assert (v + [q])[1..] == v[1..] + [q];
      UpToEnd(v[1..], q);
    }
  }

  lemma StripEnded(v: string)
    requires v == "" || !IsSpace(v[|v| - 1])
    ensures StripTrailingWhitespace(v) == v
  {
  }

  lemma QuotesGo(q: char, v: string)
    requires (q == '"' || q == '\'') && q !in v && '\\' !in v
    ensures var s := [q] + v + [q];
            StripTrailingWhitespace(s) == s && FindSeparator(s, ' ').at == |s| && StripQuotes(s) == v
  {
    var s := [q] + v + [q];
    StripEnded(s);
    UpToEnd(v, q);
    assert s[1..] == v + [q] && s[1..|s| - 1] == v;
    assert s[|s|..] == "";
    hide UpTo, StripTrailingWhitespace;
  }

  /** Quotes around a value go: both of them, and nothing else but white space behind the second. */
  lemma QuotedSets(st: State, name: string, k: Key, q: char, v: string, blanks: string, w: World)
    requires Is(name, k) && (q == '"' || q == '\'') && q !in v && '\n' !in v && '\\' !in v
    requires forall i :: 0 <= i < |blanks| ==> blanks[i] in " \t\r\U{000B}\U{000C}"
    ensures ReadText(st, name + "=" + ([q] + v + [q] + blanks) + "\n", w) == Set(st, k, v, w)
  {
    hide Is, FindSeparator, StripQuotes, ReadText, Set, StripTrailingWhitespace;
    QuotesGo(q, v);
    StripBlanks([q] + v + [q], blanks);
    LineSets(st, name, k, [q] + v + [q] + blanks, v, w);
  }

  // ---------------------------------------------------------------- setting by setting

  lemma SpelledIs(k: Key)
    ensures Is(Name(k), k)
  {
    SameIsEqual(Name(k));
  }

  /** A written line, with the name as it is written. */
  lemma Sets(st: State, k: Key, v: string, w: World)
    requires OneWord(v)
    ensures ReadText(st, Name(k) + "=" + v + "\n", w) == Set(st, k, v, w)
  {
    hide Is, OneWord, ReadText, Set, Name;
    SpelledIs(k);
    ValueSets(st, Name(k), k, v, "", w);
    assert v + "" == v;
  }

  /** The settings that are stored as they are. */
  lemma TextSettings(st: State, v: string, w: World)
    requires OneWord(v)
    ensures ReadText(st, "Server=" + v + "\n", w) == st.(c := st.c.(server := v))
    ensures ReadText(st, "LocalAddress=" + v + "\n", w) == st.(c := st.c.(localAddress := v))
    ensures ReadText(st, "RemoteDev=" + v + "\n", w) == st.(c := st.c.(remoteDev := v))
    ensures ReadText(st, "DNS=" + v + "\n", w) == st.(c := st.c.(dns := v))
  {
    hide OneWord, ReadText;
    Sets(st, Server, v, w);
    Sets(st, LocalAddress, v, w);
    Sets(st, RemoteDev, v, w);
    Sets(st, DNS, v, w);
    assert Name(Server) + "=" == "Server=" && Name(LocalAddress) + "=" == "LocalAddress=";
    assert Name(RemoteDev) + "=" == "RemoteDev=" && Name(DNS) + "=" == "DNS=";
  }

  lemma UserSettings(st: State, v: string, w: World)
    requires OneWord(v)
    ensures ReadText(st, "ClientID=" + v + "\n", w) == st.(c := st.c.(clientID := v))
    ensures ReadText(st, "UserName=" + v + "\n", w) == st.(c := st.c.(userName := v))
    ensures ReadText(st, "Password=" + v + "\n", w) == st.(c := st.c.(password := v))
    ensures ReadText(st, "RemoteSearchPath=" + v + "\n", w) == st.(c := st.c.(remoteSearchPath := v))
  {
    hide OneWord, ReadText;
    Sets(st, ClientID, v, w);
    Sets(st, UserName, v, w);
    Sets(st, Password, v, w);
    Sets(st, RemoteSearchPath, v, w);
    assert Name(ClientID) + "=" == "ClientID=" && Name(UserName) + "=" == "UserName=";
    assert Name(Password) + "=" == "Password=" && Name(RemoteSearchPath) + "=" == "RemoteSearchPath=";
  }

  /** Addresses are gathered in a list; a time-out is a duration; any protocol means TCP. */
  lemma OtherSettings(st: State, v: string, w: World)
    requires OneWord(v)
    ensures ReadText(st, "AllowedIPs=" + v + "\n", w)
         == st.(c := st.c.(allowedIPs := if st.c.allowedIPs == "" then v else st.c.allowedIPs + ", " + v))
    ensures ReadText(st, "Timeout=" + v + "\n", w) == st.(c := st.c.(timeout := w.duration(v)))
    ensures ReadText(st, "Protocol=" + v + "\n", w) == st.(c := st.c.(tcp := true))
  {
    hide OneWord, ReadText;
    Sets(st, AllowedIPs, v, w);
    Sets(st, Timeout, v, w);
    Sets(st, Protocol, v, w);
    assert Name(AllowedIPs) + "=" == "AllowedIPs=" && Name(Timeout) + "=" == "Timeout=";
    assert Name(Protocol) + "=" == "Protocol=";
  }

  /** A path that starts with "~/" is one under the home directory. */
  lemma CertSettings(st: State, v: string, stored: string, w: World)
    requires OneWord(v)
    requires stored == if |v| >= 2 && v[0] == '~' && v[1] == '/' then w.home + v[1..] else v
    ensures ReadText(st, "ClientCert=" + v + "\n", w) == st.(c := st.c.(clientCert := stored))
    ensures ReadText(st, "ClientKey=" + v + "\n", w) == st.(c := st.c.(clientKey := stored))
    ensures ReadText(st, "VerifyCert=" + v + "\n", w) == st.(c := st.c.(verifyCert := stored))
    ensures ReadText(st, "ServerCert=" + v + "\n", w) == st.(c := st.c.(verifyCert := stored))
  {
    hide OneWord, ReadText;
    Sets(st, ClientCert, v, w);
    Sets(st, ClientKey, v, w);
    Sets(st, VerifyCert, v, w);
    Sets(st, ServerCert, v, w);
    assert Name(ClientCert) + "=" == "ClientCert=" && Name(ClientKey) + "=" == "ClientKey=";
    assert Name(VerifyCert) + "=" == "VerifyCert=" && Name(ServerCert) + "=" == "ServerCert=";
  }

  lemma FileSettings(st: State, v: string, stored: string, w: World)
    requires OneWord(v)
    requires stored == if |v| >= 2 && v[0] == '~' && v[1] == '/' then w.home + v[1..] else v
    ensures ReadText(st, "ConfFile=" + v + "\n", w) == st.(c := st.c.(confFile := stored))
    ensures ReadText(st, "UpFile=" + v + "\n", w) == st.(c := st.c.(upFile := stored))
    ensures ReadText(st, "DownFile=" + v + "\n", w) == st.(c := st.c.(downFile := stored))
  {
    hide OneWord, ReadText;
    Sets(st, ConfFile, v, w);
    Sets(st, UpFile, v, w);
    Sets(st, DownFile, v, w);
    assert Name(ConfFile) + "=" == "ConfFile=" && Name(UpFile) + "=" == "UpFile=";
    assert Name(DownFile) + "=" == "DownFile=";
  }

  /** Which of su and sudo each end uses: at most one of them, and neither for any other word. */
  lemma SideSettings(st: State, v: string, w: World)
    requires OneWord(v)
    ensures ReadText(st, "LocalSU=" + v + "\n", w)
         == st.(flags := st.flags - {FlagLocalSU, FlagLocalSUDO}
                         + if v == "su" then {FlagLocalSU} else if v == "sudo" then {FlagLocalSUDO} else {})
    ensures ReadText(st, "RemoteSU=" + v + "\n", w)
         == st.(flags := st.flags - {FlagRemoteSU, FlagRemoteSUDO}
                         + if v == "su" then {FlagRemoteSU} else if v == "sudo" then {FlagRemoteSUDO} else {})
  {
    hide OneWord, ReadText;
    Sets(st, LocalSU, v, w);
    Sets(st, RemoteSU, v, w);
    assert Name(LocalSU) + "=" == "LocalSU=" && Name(RemoteSU) + "=" == "RemoteSU=";
  }

  // ---------------------------------------------------------------- what is written

  /** A line for a text that is not empty. */
  function Row(name: string, value: string): string {
    if value == "" then "" else name + "=" + value + "\n"
  }

  /** A path as it is written: one under the home directory starts with "~/". */
  function Written(path: string, home: string): string {
    if |path| > |home| && path[..|home|] == home && path[|home|] == '/' then "~" + path[|home|..] else path
  }

  lemma RenderRow(k: Key, v: string)
    ensures Render(Opt(k, v)) == Row(Name(k), v)
  {
    hide Name;
    RenderOne(Pair(k, v));
    RenderNothing();
  }

  lemma RowBehind(front: seq<Pair>, k: Key, v: string)
    ensures Render(front + Opt(k, v)) == Render(front) + Row(Name(k), v)
  {
    hide Render, Opt, Row, Name;
    RenderJoin(front, Opt(k, v));
    RenderRow(k, v);
  }

  lemma WrittenIs(path: string, home: string)
    ensures Shorten(path, home) == Written(path, home)
  {
    var start := if |path| > |home| then path[..|home| + 1] else path;
    assert home + "/" <= path <==> |path| > |home| && start == home + "/";
    assert |path| > |home| ==> start == path[..|home|] + [path[|home|]];
    assert |path| > |home| && path[|home|] == '/' ==> "~" + path[|home|..] == "~/" + path[|home| + 1..];
  }

  /** The paths, line by line. */
  lemma PathRows(c: Config, home: string)
    ensures Render([Pair(Server, c.server)]
                   + Opt(ClientCert, Shorten(c.clientCert, home)) + Opt(ClientKey, Shorten(c.clientKey, home))
                   + Opt(VerifyCert, Shorten(c.verifyCert, home)) + Opt(ConfFile, Shorten(c.confFile, home))
                   + Opt(UpFile, Shorten(c.upFile, home)) + Opt(DownFile, Shorten(c.downFile, home)))
         == "Server=" + c.server + "\n"
            + Row("ClientCert", Written(c.clientCert, home)) + Row("ClientKey", Written(c.clientKey, home))
            + Row("VerifyCert", Written(c.verifyCert, home)) + Row("ConfFile", Written(c.confFile, home))
            + Row("UpFile", Written(c.upFile, home)) + Row("DownFile", Written(c.downFile, home))
  {
    hide Render, Opt, Row, Shorten, Written;
    WrittenIs(c.clientCert, home);
    WrittenIs(c.clientKey, home);
    WrittenIs(c.verifyCert, home);
    WrittenIs(c.confFile, home);
    WrittenIs(c.upFile, home);
    WrittenIs(c.downFile, home);
    var ps := [Pair(Server, c.server)];
    RenderOne(Pair(Server, c.server));
    assert Line(Pair(Server, c.server)) == "Server=" + c.server;
    RowBehind(ps, ClientCert, Shorten(c.clientCert, home));
    ps := ps + Opt(ClientCert, Shorten(c.clientCert, home));
    RowBehind(ps, ClientKey, Shorten(c.clientKey, home));
    ps := ps + Opt(ClientKey, Shorten(c.clientKey, home));
    RowBehind(ps, VerifyCert, Shorten(c.verifyCert, home));
    ps := ps + Opt(VerifyCert, Shorten(c.verifyCert, home));
    RowBehind(ps, ConfFile, Shorten(c.confFile, home));
    ps := ps + Opt(ConfFile, Shorten(c.confFile, home));
    RowBehind(ps, UpFile, Shorten(c.upFile, home));
    ps := ps + Opt(UpFile, Shorten(c.upFile, home));
    RowBehind(ps, DownFile, Shorten(c.downFile, home));
  }

  /** And the settings of the network and the user behind them. */
  lemma UserRows(front: seq<Pair>, c: Config)
    ensures Render(front + Opt(LocalAddress, c.localAddress) + Opt(AllowedIPs, c.allowedIPs)
                   + Opt(RemoteDev, c.remoteDev) + Opt(DNS, c.dns) + Opt(ClientID, c.clientID)
                   + Opt(UserName, c.userName) + Opt(Password, c.password)
                   + Opt(RemoteSearchPath, c.remoteSearchPath))
         == Render(front) + Row("LocalAddress", c.localAddress) + Row("AllowedIPs", c.allowedIPs)
            + Row("RemoteDev", c.remoteDev) + Row("DNS", c.dns) + Row("ClientID", c.clientID)
            + Row("UserName", c.userName) + Row("Password", c.password) + Row("RemoteSearchPath", c.remoteSearchPath)
  {
    hide Render, Opt, Row;
    var ps := front;
    RowBehind(ps, LocalAddress, c.localAddress);
    ps := ps + Opt(LocalAddress, c.localAddress);
    RowBehind(ps, AllowedIPs, c.allowedIPs);
    ps := ps + Opt(AllowedIPs, c.allowedIPs);
    RowBehind(ps, RemoteDev, c.remoteDev);
    ps := ps + Opt(RemoteDev, c.remoteDev);
    RowBehind(ps, DNS, c.dns);
    ps := ps + Opt(DNS, c.dns);
    RowBehind(ps, ClientID, c.clientID);
    ps := ps + Opt(ClientID, c.clientID);
    RowBehind(ps, UserName, c.userName);
    ps := ps + Opt(UserName, c.userName);
    RowBehind(ps, Password, c.password);
    ps := ps + Opt(Password, c.password);
    RowBehind(ps, RemoteSearchPath, c.remoteSearchPath);
  }

  /** The lines of the switches. A side with both ways to become root has no line. */
  lemma SwitchRows(c: Config, flags: set<GlobalFlag>)
    ensures Render(Switches(c, flags))
         == (if c.tcp then "Protocol=tcp\n" else "")
            + (if FlagLocalSU in flags && FlagLocalSUDO in flags then ""
               else if FlagLocalSU in flags then "LocalSU=su\n"
               else if FlagLocalSUDO in flags then "LocalSU=sudo\n" else "LocalSU=none\n")
            + (if FlagRemoteSU in flags && FlagRemoteSUDO in flags then ""
               else if FlagRemoteSU in flags then "RemoteSU=su\n"
               else if FlagRemoteSUDO in flags then "RemoteSU=sudo\n" else "RemoteSU=none\n")
  {
    hide Render, Opt;
    var ps := if c.tcp then [Pair(Protocol, "tcp")] else [];
    RenderNothing();
    RenderOne(Pair(Protocol, "tcp"));
    assert Line(Pair(Protocol, "tcp")) + "\n" == "Protocol=tcp\n";
    RowBehind(ps, LocalSU, SuValue(flags, FlagLocalSU, FlagLocalSUDO));
    ps := ps + Opt(LocalSU, SuValue(flags, FlagLocalSU, FlagLocalSUDO));
    RowBehind(ps, RemoteSU, SuValue(flags, FlagRemoteSU, FlagRemoteSUDO));
    SideRows();
  }

  lemma SideRows()
    ensures Row("LocalSU", "su") == "LocalSU=su\n" && Row("LocalSU", "sudo") == "LocalSU=sudo\n"
    ensures Row("LocalSU", "none") == "LocalSU=none\n" && Row("LocalSU", "") == "" == Row("RemoteSU", "")
    ensures Row("RemoteSU", "su") == "RemoteSU=su\n" && Row("RemoteSU", "sudo") == "RemoteSU=sudo\n"
    ensures Row("RemoteSU", "none") == "RemoteSU=none\n"
  {
  }

  /** The whole file as it is written, in the order of its lines. */
  lemma WrittenFile(c: Config, flags: set<GlobalFlag>, home: string)
    ensures FileText(c, flags, home)
         == "Server=" + c.server + "\n"
            + Row("ClientCert", Written(c.clientCert, home)) + Row("ClientKey", Written(c.clientKey, home))
            + Row("VerifyCert", Written(c.verifyCert, home)) + Row("ConfFile", Written(c.confFile, home))
            + Row("UpFile", Written(c.upFile, home)) + Row("DownFile", Written(c.downFile, home))
            + Row("LocalAddress", c.localAddress) + Row("AllowedIPs", c.allowedIPs)
            + Row("RemoteDev", c.remoteDev) + Row("DNS", c.dns) + Row("ClientID", c.clientID)
            + Row("UserName", c.userName) + Row("Password", c.password) + Row("RemoteSearchPath", c.remoteSearchPath)
            + (if c.timeout > 0 then "Timeout=" + FormatInt(c.timeout) else "")
            + ((if c.tcp then "Protocol=tcp\n" else "")
               + (if FlagLocalSU in flags && FlagLocalSUDO in flags then ""
                  else if FlagLocalSU in flags then "LocalSU=su\n"
                  else if FlagLocalSUDO in flags then "LocalSU=sudo\n" else "LocalSU=none\n")
               + (if FlagRemoteSU in flags && FlagRemoteSUDO in flags then ""
                  else if FlagRemoteSU in flags then "RemoteSU=su\n"
                  else if FlagRemoteSUDO in flags then "RemoteSU=sudo\n" else "RemoteSU=none\n"))
  {
    hide Render, Opt, Row, Shorten, Written, Switches, FormatInt;
    PathRows(c, home);
    UserRows([Pair(Server, c.server)]
             + Opt(ClientCert, Shorten(c.clientCert, home)) + Opt(ClientKey, Shorten(c.clientKey, home))
             + Opt(VerifyCert, Shorten(c.verifyCert, home)) + Opt(ConfFile, Shorten(c.confFile, home))
             + Opt(UpFile, Shorten(c.upFile, home)) + Opt(DownFile, Shorten(c.downFile, home)), c);
    SwitchRows(c, flags);
  }
}
