/**
 The configuration file of a vpn: one "Key=value" line for each setting that is not empty, home-relative paths
 shortened. Reading the file back into a context restores what was saved.
 */
module VpnConfig {
  import opened Text

  datatype Key =
    | Server | ClientCert | ClientKey | VerifyCert | ServerCert | ConfFile | UpFile | DownFile | LocalAddress
    | AllowedIPs | RemoteDev | ClientID | UserName | Password | RemoteSearchPath | DNS | Timeout | Protocol
    | RemoteSU | LocalSU

  function Name(k: Key): string {
    match k
    case Server => "Server" case ClientCert => "ClientCert" case ClientKey => "ClientKey"
    case VerifyCert => "VerifyCert" case ServerCert => "ServerCert" case ConfFile => "ConfFile"
    case UpFile => "UpFile" case DownFile => "DownFile"
    case LocalAddress => "LocalAddress" case AllowedIPs => "AllowedIPs" case RemoteDev => "RemoteDev"
    case ClientID => "ClientID" case UserName => "UserName" case Password => "Password"
    case RemoteSearchPath => "RemoteSearchPath" case DNS => "DNS" case Timeout => "Timeout" case Protocol => "Protocol"
    case RemoteSU => "RemoteSU" case LocalSU => "LocalSU"
  }

  predicate Is(name: string, k: Key) { EqNoCase(name, Name(k)) }

  /** The settings of a vpn that the file holds. */
  datatype Config = Config(
    server: string, clientCert: string, clientKey: string, verifyCert: string, confFile: string, upFile: string,
    downFile: string, localAddress: string, allowedIPs: string, remoteDev: string, clientID: string, userName: string,
    password: string, remoteSearchPath: string, dns: string, timeout: int, tcp: bool)

  datatype GlobalFlag =
    | FlagExit | FlagLocalSU | FlagLocalSUDO | FlagRemoteSU | FlagRemoteSUDO | FlagNoDNS | FlagDebug | FlagVerbose

  /** What reading changes: the vpn's settings and the program's flags. */
  datatype State = State(c: Config, flags: set<GlobalFlag>)

  // ---------------------------------------------------------------- paths

  /** SaveFilePath: a path under the home directory is written relative to it. */
  function Shorten(path: string, home: string): string {
    if home + "/" <= path then "~/" + path[|home| + 1..] else path
  }

  /** ReadFileConf */
  function Expand(value: string, home: string): string {
    if "~/" <= value then home + value[1..] else value
  }

  lemma TildeStays(path: string, home: string)
    requires "~/" <= path
    ensures home + path[1..] == path <==> home == "~"
    ensures home == "~" ==> home + "/" <= path
  {
    assert path == "~" + path[1..];
    if |home| == 1 {
      assert (home + path[1..])[0] == home[0] && path[0] == '~';
    }
  }

  /** A path survives exactly when, in case it starts with "~/" itself, that is the start of the home directory. */
  lemma PathSurvives(path: string, home: string)
    ensures Expand(Shorten(path, home), home) == path <==> ("~/" <= path ==> home + "/" <= path)
  {
    var h := home + "/";
    if h <= path {
      var s := Shorten(path, home);
      assert s[1..] == "/" + path[|h|..];
      assert path == h + path[|h|..] == home + ("/" + path[|h|..]);
    } else if "~/" <= path {
      TildeStays(path, home);
    }
  }

  // ---------------------------------------------------------------- writing

  datatype Pair = Pair(key: Key, value: string)

  function Line(p: Pair): string { Name(p.key) + "=" + p.value }

  function Render(ps: seq<Pair>): string {
    if ps == [] then "" else Render(ps[..|ps| - 1]) + Line(ps[|ps| - 1]) + "\n"
  }

  /** A setting is written when it is not empty. */
  function Opt(key: Key, value: string): seq<Pair> { if value == "" then [] else [Pair(key, value)] }

  function SuValue(flags: set<GlobalFlag>, su: GlobalFlag, sudo: GlobalFlag): string {
    if su in flags && sudo in flags then ""
    else if su in flags then "su" else if sudo in flags then "sudo" else "none"
  }

  /** The settings in front of the timeout. */
  function Texts(c: Config, home: string): seq<Pair> {
    [Pair(Server, c.server)]
    + Opt(ClientCert, Shorten(c.clientCert, home)) + Opt(ClientKey, Shorten(c.clientKey, home))
    + Opt(VerifyCert, Shorten(c.verifyCert, home)) + Opt(ConfFile, Shorten(c.confFile, home))
    + Opt(UpFile, Shorten(c.upFile, home)) + Opt(DownFile, Shorten(c.downFile, home))
    + Opt(LocalAddress, c.localAddress) + Opt(AllowedIPs, c.allowedIPs) + Opt(RemoteDev, c.remoteDev) + Opt(DNS, c.dns)
    + Opt(ClientID, c.clientID) + Opt(UserName, c.userName) + Opt(Password, c.password)
    + Opt(RemoteSearchPath, c.remoteSearchPath)
  }

  /** The settings behind it. */
  function Switches(c: Config, flags: set<GlobalFlag>): seq<Pair> {
    (if c.tcp then [Pair(Protocol, "tcp")] else [])
    + Opt(LocalSU, SuValue(flags, FlagLocalSU, FlagLocalSUDO))
      + Opt(RemoteSU, SuValue(flags, FlagRemoteSU, FlagRemoteSUDO))
  }

  /** The whole file. No line end is written behind the timeout. */
  function FileText(c: Config, flags: set<GlobalFlag>, home: string): string {
    Render(Texts(c, home))
    + (if c.timeout > 0 then "Timeout=" + FormatInt(c.timeout) else "")
    + Render(Switches(c, flags))
  }

  class Stream {
    var Text: string

    constructor ()
      ensures Text == ""
    {
      Text := "";
    }

    method WriteLine(line: string)
      modifies this
      ensures Text == old(Text) + line
    {
      Text := Text + line;
    }
  }

  lemma RenderNext(ps: seq<Pair>, p: Pair)
    ensures Render(ps + [p]) == Render(ps) + (Line(p) + "\n")
  {
    hide Line;
    assert (ps + [p])[..|ps|] == ps;
  }

  lemma {:induction false} RenderJoin(a: seq<Pair>, b: seq<Pair>)
    ensures Render(a + b) == Render(a) + Render(b)
  {
    hide Line;
    if b == [] {
      assert a + b == a;
    } else {
      hide Render;
      var c, p := b[..|b| - 1], b[|b| - 1];
      assert a + b == (a + c) + [p] && b == c + [p];
      RenderJoin(a, c);
      RenderNext(a + c, p);
      RenderNext(c, p);
      assert Render(a) + Render(c) + Line(p) == Render(a) + (Render(c) + Line(p));
    }
  }

  method SaveValue(s: Stream, key: Key, value: string, ghost before: seq<Pair>)
    requires s.Text == Render(before)
    modifies s
    ensures s.Text == Render(before + Opt(key, value))
  {
    if value != "" {
      RenderNext(before, Pair(key, value));
      s.WriteLine(Name(key) + "=" + value + "\n");
      assert Line(Pair(key, value)) + "\n" == Name(key) + "=" + value + "\n";
    } else {
      assert before + [] == before;
    }
  }

  /** SaveFilePath */
  method SaveFilePath(s: Stream, key: Key, path: string, home: string, ghost before: seq<Pair>)
    requires s.Text == Render(before)
    modifies s
    ensures s.Text == Render(before + Opt(key, Shorten(path, home)))
  {
    if path != "" {
      var line := Name(key) + "=";
      var prefix := home + "/";
      RenderNext(before, Pair(key, Shorten(path, home)));
      if prefix <= path {
        line := line + ("~/" + path[|prefix|..]) + "\n";
      } else {
        line := line + path + "\n";
      }
      s.WriteLine(line);
      assert line == Line(Pair(key, Shorten(path, home))) + "\n";
    } else {
      assert before + [] == before;
    }
  }

  class Globals {
    var Flags: set<GlobalFlag>

    constructor (flags: set<GlobalFlag>)
      ensures Flags == flags
    {
      Flags := flags;
    }
  }

  /** A vpn context, as far as its file goes. */
  class TVpn {
    var Server: string
    var ClientCert: string
    var ClientKey: string
    var VerifyCert: string
    var ConfFile: string
    var UpFile: string
    var DownFile: string
    var LocalAddress: string
    var AllowedIPs: string
    var RemoteDev: string
    var ClientID: string
    var UserName: string
    var Password: string
    var RemoteSearchPath: string
    var DNS: string
    var Timeout: int
    var Tcp: bool     // VPN_TCP in Flags

    constructor (c: Config)
      ensures Value() == c
    {
      Server, ClientCert, ClientKey, VerifyCert := c.server, c.clientCert, c.clientKey, c.verifyCert;
      ConfFile, UpFile, DownFile, LocalAddress := c.confFile, c.upFile, c.downFile, c.localAddress;
      AllowedIPs, RemoteDev, ClientID, UserName := c.allowedIPs, c.remoteDev, c.clientID, c.userName;
      Password, RemoteSearchPath, DNS, Timeout, Tcp := c.password, c.remoteSearchPath, c.dns, c.timeout, c.tcp;
    }

    function Value(): Config
      reads this
    {
      Config(Server, ClientCert, ClientKey, VerifyCert, ConfFile, UpFile, DownFile, LocalAddress, AllowedIPs, RemoteDev,
             ClientID, UserName, Password, RemoteSearchPath, DNS, Timeout, Tcp)
    }
  }

  method WritePair(s: Stream, key: Key, value: string, ghost front: string, ghost before: seq<Pair>)
    requires s.Text == front + Render(before)
    modifies s
    ensures s.Text == front + Render(before + [Pair(key, value)])
  {
    ghost var line := Line(Pair(key, value)) + "\n";
    RenderNext(before, Pair(key, value));
    assert front + (Render(before) + line) == front + Render(before) + line;
    s.WriteLine(Name(key) + "=" + value + "\n");
  }

  /** One of the two switch statements at the end of WriteConfig. */
  method SaveSu(s: Stream, g: Globals, key: Key, su: GlobalFlag, sudo: GlobalFlag, ghost front: string,
                ghost before: seq<Pair>)
    requires su != sudo && s.Text == front + Render(before)
    modifies s
    ensures s.Text == front + Render(before + Opt(key, SuValue(g.Flags, su, sudo)))
  {
    hide Render;
    assert before + [] == before;
    if su !in g.Flags && sudo !in g.Flags {
      WritePair(s, key, "none", front, before);
    } else if su in g.Flags && sudo !in g.Flags {
      WritePair(s, key, "su", front, before);
    } else if su !in g.Flags && sudo in g.Flags {
      WritePair(s, key, "sudo", front, before);
    }
  }

  /** WriteConfig into an empty file. */
  method WriteConfig(vpn: TVpn, g: Globals, home: string) returns (s: Stream)
    ensures fresh(s) && s.Text == FileText(vpn.Value(), g.Flags, home)
  {
    hide Render, Shorten, SuValue;
    s := new Stream();
    ghost var none: seq<Pair> := [];
    RenderNothing();
    RenderNext(none, Pair(Server, vpn.Server));
    s.WriteLine("Server=" + vpn.Server + "\n");
    ghost var texts := [Pair(Server, vpn.Server)];
    assert s.Text == Render(texts) by {
      assert none + texts == texts && Line(Pair(Server, vpn.Server)) + "\n" == "Server=" + vpn.Server + "\n";
    }
    SaveFilePath(s, ClientCert, vpn.ClientCert, home, texts);
    texts := texts + Opt(ClientCert, Shorten(vpn.ClientCert, home));
    SaveFilePath(s, ClientKey, vpn.ClientKey, home, texts);
    texts := texts + Opt(ClientKey, Shorten(vpn.ClientKey, home));
    SaveFilePath(s, VerifyCert, vpn.VerifyCert, home, texts);
    texts := texts + Opt(VerifyCert, Shorten(vpn.VerifyCert, home));
    SaveFilePath(s, ConfFile, vpn.ConfFile, home, texts);
    texts := texts + Opt(ConfFile, Shorten(vpn.ConfFile, home));
    SaveFilePath(s, UpFile, vpn.UpFile, home, texts);
    texts := texts + Opt(UpFile, Shorten(vpn.UpFile, home));
    SaveFilePath(s, DownFile, vpn.DownFile, home, texts);
    texts := texts + Opt(DownFile, Shorten(vpn.DownFile, home));
    SaveValue(s, LocalAddress, vpn.LocalAddress, texts);
    texts := texts + Opt(LocalAddress, vpn.LocalAddress);
    SaveValue(s, AllowedIPs, vpn.AllowedIPs, texts);
    texts := texts + Opt(AllowedIPs, vpn.AllowedIPs);
    SaveValue(s, RemoteDev, vpn.RemoteDev, texts);
    texts := texts + Opt(RemoteDev, vpn.RemoteDev);
    SaveValue(s, DNS, vpn.DNS, texts);
    texts := texts + Opt(DNS, vpn.DNS);
    SaveValue(s, ClientID, vpn.ClientID, texts);
    texts := texts + Opt(ClientID, vpn.ClientID);
    SaveValue(s, UserName, vpn.UserName, texts);
    texts := texts + Opt(UserName, vpn.UserName);
    SaveValue(s, Password, vpn.Password, texts);
    texts := texts + Opt(Password, vpn.Password);
    SaveValue(s, RemoteSearchPath, vpn.RemoteSearchPath, texts);
    texts := texts + Opt(RemoteSearchPath, vpn.RemoteSearchPath);
    assert texts == Texts(vpn.Value(), home);
    SaveRest(s, vpn, g, s.Text);
  }

  lemma RenderNothing()
    ensures Render([]) == ""
  {
  }

  /** The timeout and what comes behind it. */
  method SaveRest(s: Stream, vpn: TVpn, g: Globals, ghost front: string)
    requires s.Text == front
    modifies s
    ensures var c := vpn.Value();
            s.Text == front + (if c.timeout > 0 then "Timeout=" + FormatInt(c.timeout) else "")
              + Render(Switches(c, g.Flags))
  {
    hide Render, SuValue;
    RenderNothing();
    ghost var switches: seq<Pair> := [];
    if vpn.Timeout > 0 {
      s.WriteLine("Timeout=" + FormatInt(vpn.Timeout));
    }
    ghost var head := s.Text;
    assert head == head + Render([]);
    if vpn.Tcp {
      RenderNext([], Pair(Protocol, "tcp"));
      s.WriteLine("Protocol=tcp\n");
      switches := [Pair(Protocol, "tcp")];
      assert [] + switches == switches && Line(Pair(Protocol, "tcp")) + "\n" == "Protocol=tcp\n";
    }
    SaveSu(s, g, LocalSU, FlagLocalSU, FlagLocalSUDO, head, switches);
    switches := switches + Opt(LocalSU, SuValue(g.Flags, FlagLocalSU, FlagLocalSUDO));
    SaveSu(s, g, RemoteSU, FlagRemoteSU, FlagRemoteSUDO, head, switches);
  }

  // ---------------------------------------------------------------- reading

  /** CommaList */
  function CommaList(list: string, item: string): string {
    if list == "" then item else list + ", " + item
  }

  /** The flags after "su", "sudo" or anything else was read for one side. */
  function SetSu(flags: set<GlobalFlag>, su: GlobalFlag, sudo: GlobalFlag, value: string): set<GlobalFlag> {
    var cleared := flags - {su, sudo};
    if value == "su" then cleared + {su} else if value == "sudo" then cleared + {sudo} else cleared
  }

  /** What readers need from outside: the home directory, the reading of durations, and of backslashes in a name. */
  datatype World = World(home: string, duration: string -> int, unquote: string -> string)

  /** What one setting does to the vpn. Each key has a field of its own, but for the two names of one. */
  function ApplyConfig(c: Config, name: string, value: string, w: World): Config {
    Config(
      if Is(name, Server) then value else c.server,
      if Is(name, ClientCert) then Expand(value, w.home) else c.clientCert,
      if Is(name, ClientKey) then Expand(value, w.home) else c.clientKey,
      if Is(name, VerifyCert) || Is(name, ServerCert) then Expand(value, w.home) else c.verifyCert,
      if Is(name, ConfFile) then Expand(value, w.home) else c.confFile,
      if Is(name, UpFile) then Expand(value, w.home) else c.upFile,
      if Is(name, DownFile) then Expand(value, w.home) else c.downFile,
      if Is(name, LocalAddress) then value else c.localAddress,
      if Is(name, AllowedIPs) then CommaList(c.allowedIPs, value) else c.allowedIPs,
      if Is(name, RemoteDev) then value else c.remoteDev,
      if Is(name, ClientID) then value else c.clientID,
      if Is(name, UserName) then value else c.userName,
      if Is(name, Password) then value else c.password,
      if Is(name, RemoteSearchPath) then value else c.remoteSearchPath,
      if Is(name, DNS) then value else c.dns,
      if Is(name, Timeout) then w.duration(value) else c.timeout,
      c.tcp || Is(name, Protocol))
  }

  function ApplySides(flags: set<GlobalFlag>, name: string, value: string): set<GlobalFlag> {
    if Is(name, LocalSU) then SetSu(flags, FlagLocalSU, FlagLocalSUDO, value)
    else if Is(name, RemoteSU) then SetSu(flags, FlagRemoteSU, FlagRemoteSUDO, value) else flags
  }

  function Apply(st: State, name: string, value: string, w: World): State {
    State(ApplyConfig(st.c, name, value, w), ApplySides(st.flags, name, value))
  }

  // ---------------------------------------------------------------- the tokenizer

  predicate IsQuote(c: char) { c == '"' || c == '\'' }

  /** traverse_until: how many characters there are in front of c, a backslash hiding the one behind it. */
  function UpTo(s: string, c: char): (n: nat)
    ensures n <= |s|
  {
    if s == "" || s[0] == c then 0
    else if s[0] == '\\' && |s| > 1 then 2 + UpTo(s[2..], c)
    else 1 + UpTo(s[1..], c)
  }

  /** The length of what stands in quotes at the start of s, the quotes included; the closing one may be missing. */
  function QuotedLength(s: string): (n: nat)
    requires s != ""
    ensures 1 <= n <= |s|
  {
    var n := 1 + UpTo(s[1..], s[0]);
    if n < |s| then n + 1 else n
  }

  /** Where a separator was found, the end of the text if nowhere, and whether a backslash was passed on the way. */
  datatype Found = Found(at: nat, backslash: bool)

  function Passing(n: nat, backslash: bool, f: Found): Found { Found(n + f.at, backslash || f.backslash) }

  /** GetTokenFindSeparator with quotes honoured. */
  function FindSeparator(s: string, c: char): (f: Found)
    ensures f.at <= |s|
  {
    if s == "" then Found(0, false)
    else if s[0] == '\\' then (if |s| == 1 then Found(1, true) else Passing(2, true, FindSeparator(s[2..], c)))
    else if s[0] == c then Found(0, false)
    else if IsQuote(s[0]) then Passing(QuotedLength(s), false, FindSeparator(s[QuotedLength(s)..], c))
    else Passing(1, false, FindSeparator(s[1..], c))
  }

  /** What is left behind a separator. */
  function Behind(s: string, at: nat): string
    requires at <= |s|
  {
    if at < |s| then s[at + 1..] else ""
  }

  /** StripQuotes: white space at the end, and quotes of one kind around the rest. */
  function StripQuotes(v: string): string {
    var s := StripTrailingWhitespace(v);
    var t := SkipSpace(s);
    if t == "" || !IsQuote(t[0]) || t[|t| - 1] != t[0] then s
    else if |t| == 1 then "" else t[1..|t| - 1]
  }

  /** The name in front of the separator: its own quotes go, and without those the backslashes in it are resolved. */
  function NameOf(t: string, f: Found, w: World): string
    requires t != "" && f.at <= |t|
  {
    var raw := t[..f.at];
    if IsQuote(t[0]) then
      (if raw == "" || raw[|raw| - 1] != t[0] then raw else if |raw| == 1 then t[1..] else raw[1..|raw| - 1])
    else if f.backslash then w.unquote(raw) else raw
  }

  datatype NameValue = NoPair | NameValue(name: string, value: string, rest: string)

  /** GetNameValuePair with a blank between pairs and "=" inside them. */
  function GetNameValuePair(input: string, w: World): (r: NameValue)
    ensures r.NameValue? ==> |r.rest| < |input|
  {
    if input == "" then NoPair
    else
      var i := FindSeparator(input, ' ').at;
      var t, rest := input[..i], Behind(input, i);
      if t == "" then NameValue("", "", rest)
      else
        var f := FindSeparator(t, '=');
        NameValue(NameOf(t, f, w), StripQuotes(Behind(t, f.at)), rest)
  }

  /** All the settings of a line. */
  function ReadLine(st: State, line: string, w: World): State
    decreases |line|
  {
    match GetNameValuePair(line, w)
    case NoPair => st
    case NameValue(name, value, rest) => ReadLine(Apply(st, name, value, w), rest, w)
  }

  function ReadLines(st: State, lines: seq<string>, w: World): State {
    if lines == [] then st
    else ReadLine(ReadLines(st, lines[..|lines| - 1], w), StripTrailingWhitespace(lines[|lines| - 1]), w)
  }

  function ReadText(st: State, text: string, w: World): State {
    ReadLines(st, Tokens(text, '\n'), w)
  }

  /** The settings that name certificates and keys. */
  method ReadCerts(vpn: TVpn, key: string, value: string, w: World)
    modifies vpn`ClientCert, vpn`ClientKey, vpn`VerifyCert
    ensures vpn.ClientCert == if Is(key, ClientCert) then Expand(value, w.home) else old(vpn.ClientCert)
    ensures vpn.ClientKey == if Is(key, ClientKey) then Expand(value, w.home) else old(vpn.ClientKey)
    ensures vpn.VerifyCert ==
            if Is(key, VerifyCert) || Is(key, ServerCert) then Expand(value, w.home) else old(vpn.VerifyCert)
  {
    hide Is, Expand;
    if Is(key, ClientCert) { vpn.ClientCert := Expand(value, w.home); }
    if Is(key, ClientKey) { vpn.ClientKey := Expand(value, w.home); }
    if Is(key, VerifyCert) { vpn.VerifyCert := Expand(value, w.home); }
    if Is(key, ServerCert) { vpn.VerifyCert := Expand(value, w.home); }
  }

  /** The settings that name other files. */
  method ReadScripts(vpn: TVpn, key: string, value: string, w: World)
    modifies vpn`ConfFile, vpn`UpFile, vpn`DownFile
    ensures vpn.ConfFile == if Is(key, ConfFile) then Expand(value, w.home) else old(vpn.ConfFile)
    ensures vpn.UpFile == if Is(key, UpFile) then Expand(value, w.home) else old(vpn.UpFile)
    ensures vpn.DownFile == if Is(key, DownFile) then Expand(value, w.home) else old(vpn.DownFile)
  {
    hide Is, Expand;
    if Is(key, ConfFile) { vpn.ConfFile := Expand(value, w.home); }
    if Is(key, UpFile) { vpn.UpFile := Expand(value, w.home); }
    if Is(key, DownFile) { vpn.DownFile := Expand(value, w.home); }
  }

  /** Where to and where from. */
  method ReadAddresses(vpn: TVpn, key: string, value: string, w: World)
    modifies vpn`Server, vpn`LocalAddress, vpn`AllowedIPs, vpn`RemoteDev, vpn`ClientID
    ensures vpn.Server == if Is(key, Server) then value else old(vpn.Server)
    ensures vpn.LocalAddress == if Is(key, LocalAddress) then value else old(vpn.LocalAddress)
    ensures vpn.AllowedIPs == if Is(key, AllowedIPs) then CommaList(old(vpn.AllowedIPs), value) else old(vpn.AllowedIPs)
    ensures vpn.RemoteDev == if Is(key, RemoteDev) then value else old(vpn.RemoteDev)
    ensures vpn.ClientID == if Is(key, ClientID) then value else old(vpn.ClientID)
  {
    hide Is, Expand, CommaList;
    if Is(key, Server) { vpn.Server := value; }
    if Is(key, LocalAddress) { vpn.LocalAddress := value; }
    if Is(key, AllowedIPs) { vpn.AllowedIPs := CommaList(vpn.AllowedIPs, value); }
    if Is(key, RemoteDev) { vpn.RemoteDev := value; }
    if Is(key, ClientID) { vpn.ClientID := value; }
  }

  /** Who, and how to find things there. */
  method ReadAccess(vpn: TVpn, key: string, value: string, w: World)
    modifies vpn`UserName, vpn`Password, vpn`RemoteSearchPath, vpn`DNS
    ensures vpn.UserName == if Is(key, UserName) then value else old(vpn.UserName)
    ensures vpn.Password == if Is(key, Password) then value else old(vpn.Password)
    ensures vpn.RemoteSearchPath == if Is(key, RemoteSearchPath) then value else old(vpn.RemoteSearchPath)
    ensures vpn.DNS == if Is(key, DNS) then value else old(vpn.DNS)
  {
    hide Is, Expand, CommaList;
    if Is(key, UserName) { vpn.UserName := value; }
    if Is(key, Password) { vpn.Password := value; }
    if Is(key, RemoteSearchPath) { vpn.RemoteSearchPath := value; }
    if Is(key, DNS) { vpn.DNS := value; }
  }

  lemma OneSide(name: string)
    ensures !(Is(name, LocalSU) && Is(name, RemoteSU))
  {
  }

  method ReadLimits(vpn: TVpn, key: string, value: string, w: World)
    modifies vpn`Timeout, vpn`Tcp
    ensures vpn.Timeout == if Is(key, Timeout) then w.duration(value) else old(vpn.Timeout)
    ensures vpn.Tcp == (old(vpn.Tcp) || Is(key, Protocol))
  {
    hide Is;
    if Is(key, Timeout) { vpn.Timeout := w.duration(value); }
    if Is(key, Protocol) { vpn.Tcp := true; }
  }

  method ReadSides(g: Globals, key: string, value: string)
    modifies g
    ensures g.Flags == ApplySides(old(g.Flags), key, value)
  {
    OneSide(key);
    hide Is, SetSu;
    if Is(key, RemoteSU) { SuRead(g, FlagRemoteSU, FlagRemoteSUDO, value); }
    if Is(key, LocalSU) { SuRead(g, FlagLocalSU, FlagLocalSUDO, value); }
  }

  /** The settings that are plain text. */
  method ReadTexts(vpn: TVpn, key: string, value: string, w: World)
    modifies vpn`Server, vpn`LocalAddress, vpn`AllowedIPs, vpn`RemoteDev, vpn`ClientID, vpn`UserName, vpn`Password,
             vpn`RemoteSearchPath, vpn`DNS, vpn`Timeout, vpn`Tcp
    ensures vpn.Server == if Is(key, Server) then value else old(vpn.Server)
    ensures vpn.LocalAddress == if Is(key, LocalAddress) then value else old(vpn.LocalAddress)
    ensures vpn.AllowedIPs == if Is(key, AllowedIPs) then CommaList(old(vpn.AllowedIPs), value) else old(vpn.AllowedIPs)
    ensures vpn.RemoteDev == if Is(key, RemoteDev) then value else old(vpn.RemoteDev)
    ensures vpn.ClientID == if Is(key, ClientID) then value else old(vpn.ClientID)
    ensures vpn.UserName == if Is(key, UserName) then value else old(vpn.UserName)
    ensures vpn.Password == if Is(key, Password) then value else old(vpn.Password)
    ensures vpn.RemoteSearchPath == if Is(key, RemoteSearchPath) then value else old(vpn.RemoteSearchPath)
    ensures vpn.DNS == if Is(key, DNS) then value else old(vpn.DNS)
    ensures vpn.Timeout == if Is(key, Timeout) then w.duration(value) else old(vpn.Timeout)
    ensures vpn.Tcp == (old(vpn.Tcp) || Is(key, Protocol))
  {
    hide Is, CommaList;
    ReadAddresses(vpn, key, value, w);
    ReadAccess(vpn, key, value, w);
    ReadLimits(vpn, key, value, w);
  }

  method ReadSettings(vpn: TVpn, key: string, value: string, w: World)
    modifies vpn
    ensures vpn.Value() == ApplyConfig(old(vpn.Value()), key, value, w)
  {
    hide Is, Expand, CommaList;
    ReadCerts(vpn, key, value, w);
    ReadScripts(vpn, key, value, w);
    ReadTexts(vpn, key, value, w);
  }

  /** One pair of a line, stored where it belongs. */
  method ReadPair(vpn: TVpn, g: Globals, key: string, value: string, w: World)
    modifies vpn, g
    ensures State(vpn.Value(), g.Flags) == Apply(State(old(vpn.Value()), old(g.Flags)), key, value, w)
  {
    hide ApplyConfig, ApplySides;
    ReadSettings(vpn, key, value, w);
    ReadSides(g, key, value);
  }

  method SuRead(g: Globals, su: GlobalFlag, sudo: GlobalFlag, value: string)
    modifies g
    ensures g.Flags == SetSu(old(g.Flags), su, sudo, value)
  {
    g.Flags := g.Flags - {su, sudo};
    if value == "none" {
      g.Flags := g.Flags - {su, sudo};
    } else if value == "su" {
      g.Flags := g.Flags + {su};
    } else if value == "sudo" {
      g.Flags := g.Flags + {sudo};
    }
  }

  method ReadConfigLine(vpn: TVpn, g: Globals, line: string, w: World)
    modifies vpn, g
    ensures State(vpn.Value(), g.Flags) == ReadLine(State(old(vpn.Value()), old(g.Flags)), line, w)
  {
    hide Apply;
    ghost var st := State(vpn.Value(), g.Flags);
    var pair := GetNameValuePair(line, w);
    ghost var left := line;
    while pair.NameValue?
      invariant pair == GetNameValuePair(left, w)
      invariant ReadLine(State(vpn.Value(), g.Flags), left, w) == ReadLine(st, line, w)
      decreases |left|
    {
      ReadPair(vpn, g, pair.name, pair.value, w);
      left := pair.rest;
      pair := GetNameValuePair(pair.rest, w);
    }
  }

  lemma TokensStep(text: string)
    ensures match GetToken(text, '\n')
            case NoToken => Tokens(text, '\n') == []
            case Token(t, rest) => |rest| < |text| && Tokens(text, '\n') == [t] + Tokens(rest, '\n')
  {
    hide IndexOf;
  }

  lemma OneLineMore(st: State, lines: seq<string>, line: string, w: World)
    ensures ReadLines(st, lines + [line], w) == ReadLine(ReadLines(st, lines, w), StripTrailingWhitespace(line), w)
  {
    hide ReadLine, StripTrailingWhitespace;
    assert (lines + [line])[..|lines|] == lines;
  }

  /** ReadConfig on the text of the file. */
  method ReadConfig(vpn: TVpn, g: Globals, text: string, w: World)
    modifies vpn, g
    ensures State(vpn.Value(), g.Flags) == ReadText(State(old(vpn.Value()), old(g.Flags)), text, w)
  {
    hide ReadLine, ReadLines, Tokens, GetToken, StripTrailingWhitespace;
    ghost var st := State(vpn.Value(), g.Flags);
    ghost var lines: seq<string>, left := [], text;
    NoLinesYet(st, w);
    TokensStep(text);
    var line := GetToken(text, '\n');
    while line.Token?
      invariant State(vpn.Value(), g.Flags) == ReadLines(st, lines, w)
      invariant line == GetToken(left, '\n') && Tokens(text, '\n') == lines + Tokens(left, '\n')
      decreases |left|
    {
      TokensStep(left);
      OneLineMore(st, lines, line.text, w);
      ReadConfigLine(vpn, g, StripTrailingWhitespace(line.text), w);
      assert lines + ([line.text] + Tokens(line.rest, '\n')) == lines + [line.text] + Tokens(line.rest, '\n');
      lines, left := lines + [line.text], line.rest;
      line := GetToken(line.rest, '\n');
    }
    TokensStep(left);
    assert lines + [] == lines;
  }

  lemma NoLinesYet(st: State, w: World)
    ensures ReadLines(st, [], w) == st
  {
  }

  // ---------------------------------------------------------------- what a line means

  /** A number that tells the keys apart: length, first and second letter. */
  function Mark(s: string): int {
    if |s| < 2 then 0 else |s| * 0x1_0000 + Lower(s[0]) as int * 0x100 + Lower(s[1]) as int
  }

  function MarkOf(k: Key): int {
    match k
    case Server => 422757 case UpFile => 423280 case ClientCert => 680812 case VerifyCert => 685669
    case ServerCert => 684901 case AllowedIPs => 680300 case ClientKey => 615276 case RemoteDev => 619109
    case ConfFile => 549743 case DownFile => 549999 case ClientID => 549740 case UserName => 554355
    case Password => 553057 case Protocol => 553074 case RemoteSU => 553573 case LocalAddress => 814191
    case RemoteSearchPath => 1077861 case DNS => 222318 case Timeout => 488553 case LocalSU => 486511
  }

  lemma MarkOfName(k: Key)
    ensures Mark(Name(k)) == MarkOf(k)
  {
  }

  /** The other way round, so that no two keys have one mark. */
  function KeyOf(mark: int): Key {
    if mark == 422757 then Server else if mark == 423280 then UpFile else if mark == 680812 then ClientCert else
    if mark == 685669 then VerifyCert else if mark == 684901 then ServerCert else
    if mark == 680300 then AllowedIPs else if mark == 615276 then ClientKey else
    if mark == 619109 then RemoteDev else if mark == 549743 then ConfFile else if mark == 549999 then DownFile else
    if mark == 549740 then ClientID else if mark == 554355 then UserName else if mark == 553057 then Password else
    if mark == 553074 then Protocol else if mark == 553573 then RemoteSU else
    if mark == 814191 then LocalAddress else if mark == 1077861 then RemoteSearchPath else
    if mark == 222318 then DNS else if mark == 488553 then Timeout else LocalSU
  }

  lemma MarkIsOfKey(k: Key)
    ensures KeyOf(MarkOf(k)) == k
  {
  }

  lemma MarksDiffer(a: Key, b: Key)
    ensures MarkOf(a) == MarkOf(b) <==> a == b
  {
    hide MarkOf, KeyOf;
    MarkIsOfKey(a);
    MarkIsOfKey(b);
  }

  /** No key is mistaken for another, whatever the case of its letters. */
  lemma NamesDiffer(n: string, a: Key, b: Key)
    requires Is(n, a)
    ensures Is(n, b) <==> a == b
  {
    hide Name, Mark, MarkOf, EqNoCase;
    MarkOfName(a);
    MarkOfName(b);
    MarksDiffer(a, b);
    SameMark(n, Name(a));
    if Is(n, b) {
      SameMark(n, Name(b));
    }
  }

  lemma SameIsEqual(a: string)
    ensures EqNoCase(a, a)
  {
  }

  lemma SameMark(a: string, b: string)
    requires EqNoCase(a, b)
    ensures Mark(a) == Mark(b)
  {
  }

  /** A setting by its key. */
  function Set(st: State, k: Key, v: string, w: World): State {
    var c := st.c;
    match k
    case Server => st.(c := c.(server := v))
    case ClientCert => st.(c := c.(clientCert := Expand(v, w.home)))
    case ClientKey => st.(c := c.(clientKey := Expand(v, w.home)))
    case VerifyCert => st.(c := c.(verifyCert := Expand(v, w.home)))
    case ServerCert => st.(c := c.(verifyCert := Expand(v, w.home)))
    case ConfFile => st.(c := c.(confFile := Expand(v, w.home)))
    case UpFile => st.(c := c.(upFile := Expand(v, w.home)))
    case DownFile => st.(c := c.(downFile := Expand(v, w.home)))
    case LocalAddress => st.(c := c.(localAddress := v))
    case AllowedIPs => st.(c := c.(allowedIPs := CommaList(c.allowedIPs, v)))
    case RemoteDev => st.(c := c.(remoteDev := v))
    case ClientID => st.(c := c.(clientID := v))
    case UserName => st.(c := c.(userName := v))
    case Password => st.(c := c.(password := v))
    case RemoteSearchPath => st.(c := c.(remoteSearchPath := v))
    case DNS => st.(c := c.(dns := v))
    case Timeout => st.(c := c.(timeout := w.duration(v)))
    case Protocol => st.(c := c.(tcp := true))
    case LocalSU => st.(flags := SetSu(st.flags, FlagLocalSU, FlagLocalSUDO, v))
    case RemoteSU => st.(flags := SetSu(st.flags, FlagRemoteSU, FlagRemoteSUDO, v))
  }

  lemma OnlyItsOwn(n: string, k: Key)
    requires Is(n, k)
    ensures (Is(n, Server) <==> k == Server) && (Is(n, ClientCert) <==> k == ClientCert)
        && (Is(n, ClientKey) <==> k == ClientKey) && (Is(n, VerifyCert) <==> k == VerifyCert)
    ensures (Is(n, ServerCert) <==> k == ServerCert) && (Is(n, ConfFile) <==> k == ConfFile)
        && (Is(n, UpFile) <==> k == UpFile) && (Is(n, DownFile) <==> k == DownFile)
    ensures (Is(n, LocalAddress) <==> k == LocalAddress) && (Is(n, AllowedIPs) <==> k == AllowedIPs)
        && (Is(n, RemoteDev) <==> k == RemoteDev) && (Is(n, ClientID) <==> k == ClientID)
    ensures (Is(n, UserName) <==> k == UserName) && (Is(n, Password) <==> k == Password)
        && (Is(n, RemoteSearchPath) <==> k == RemoteSearchPath) && (Is(n, DNS) <==> k == DNS)
    ensures (Is(n, Timeout) <==> k == Timeout) && (Is(n, Protocol) <==> k == Protocol)
        && (Is(n, RemoteSU) <==> k == RemoteSU) && (Is(n, LocalSU) <==> k == LocalSU)
  {
    hide Is, Name;
    NamesDiffer(n, k, Server); NamesDiffer(n, k, ClientCert); NamesDiffer(n, k, ClientKey);
    NamesDiffer(n, k, VerifyCert); NamesDiffer(n, k, ServerCert); NamesDiffer(n, k, ConfFile);
    NamesDiffer(n, k, UpFile); NamesDiffer(n, k, DownFile); NamesDiffer(n, k, LocalAddress);
    NamesDiffer(n, k, AllowedIPs); NamesDiffer(n, k, RemoteDev); NamesDiffer(n, k, ClientID);
    NamesDiffer(n, k, UserName); NamesDiffer(n, k, Password); NamesDiffer(n, k, RemoteSearchPath);
    NamesDiffer(n, k, DNS); NamesDiffer(n, k, Timeout); NamesDiffer(n, k, Protocol); NamesDiffer(n, k, RemoteSU);
    NamesDiffer(n, k, LocalSU);
  }

  lemma ApplyIsSet(st: State, name: string, k: Key, v: string, w: World)
    requires Is(name, k)
    ensures Apply(st, name, v, w) == Set(st, k, v, w)
  {
    hide Is, Expand, CommaList, SetSu, ApplyConfig, ApplySides;
    ApplyConfigIs(st.c, name, k, v, w);
    ApplySidesIs(st.flags, name, k, v);
    SetIs(st, k, v, w);
  }

  /** The config's part of a setting, with each key told apart from the others. */
  function SetConfig(c: Config, k: Key, v: string, w: World): Config {
    Set(State(c, {}), k, v, w).c
  }

  function SetSides(flags: set<GlobalFlag>, k: Key, v: string): set<GlobalFlag> {
    if k == LocalSU then SetSu(flags, FlagLocalSU, FlagLocalSUDO, v)
    else if k == RemoteSU then SetSu(flags, FlagRemoteSU, FlagRemoteSUDO, v) else flags
  }

  lemma SetIs(st: State, k: Key, v: string, w: World)
    ensures Set(st, k, v, w) == State(SetConfig(st.c, k, v, w), SetSides(st.flags, k, v))
  {
    hide Expand, CommaList, SetSu;
  }

  lemma ApplyConfigIs(c: Config, name: string, k: Key, v: string, w: World)
    requires Is(name, k)
    ensures ApplyConfig(c, name, v, w) == SetConfig(c, k, v, w)
  {
    OnlyItsOwn(name, k);
    hide Is, Name, Expand, CommaList, SetSu;
  }

  lemma ApplySidesIs(flags: set<GlobalFlag>, name: string, k: Key, v: string)
    requires Is(name, k)
    ensures ApplySides(flags, name, v) == SetSides(flags, k, v)
  {
    OnlyItsOwn(name, k);
    hide Is, Name, SetSu;
  }

  predicate NoBlanks(v: string) {
    forall i :: 0 <= i < |v| ==> !IsSpace(v[i])
  }

  /** In quotes of one kind, which may be the same single character. */
  predicate Wrapped(v: string) { v != "" && IsQuote(v[0]) && v[|v| - 1] == v[0] }

  /** A value without white space and without quotes around it. */
  predicate PlainWord(v: string) { NoBlanks(v) && !Wrapped(v) }

  /** A value that stands on one line as one token, and that reading leaves as it is. */
  predicate OneWord(v: string) {
    '\n' !in v && FindSeparator(v, ' ').at == |v| && StripQuotes(v) == v
  }

  predicate Letters(s: string) {
    forall i :: 0 <= i < |s| ==> 'A' <= s[i] <= 'Z' || 'a' <= s[i] <= 'z'
  }

  lemma ShortNameHasLetters(k: Key)
    ensures |Name(k)| <= 8 ==> Name(k) != "" && Letters(Name(k))
  {
  }

  lemma LongNameHasLetters(k: Key)
    ensures |Name(k)| > 8 ==> Letters(Name(k))
  {
  }

  lemma NameHasLetters(k: Key)
    ensures Name(k) != "" && Letters(Name(k))
  {
    ShortNameHasLetters(k);
    LongNameHasLetters(k);
    hide Name, Letters;
  }

  lemma NameIsWord(k: Key)
    ensures Name(k) != "" && PlainWord(Name(k)) && '=' !in Name(k)
  {
    NameHasLetters(k);
    hide Name;
  }

  lemma StripNothing(s: string)
    requires NoBlanks(s)
    ensures StripTrailingWhitespace(s) == s && SkipSpace(s) == s && ' ' !in s && '\n' !in s
  {
  }

  lemma LineIsPlain(p: Pair)
    requires PlainWord(p.value)
    ensures PlainWord(Line(p)) && Line(p) != ""
  {
    NameHasLetters(p.key);
    hide Name;
  }

  lemma LineEnds(p: Pair)
    ensures Line(p) != "" && ('\n' in Line(p) <==> '\n' in p.value)
  {
    NameIsWord(p.key);
    hide Name;
    var line := Line(p);
    assert forall i :: 0 <= i < |p.value| ==> line[|Name(p.key)| + 1 + i] == p.value[i];
  }

  lemma {:induction false} NoSeparator(s: string, c: char)
    requires c !in s
    ensures FindSeparator(s, c).at == |s|
  {
    if s != "" {
      var n := if s[0] == '\\' then (if |s| == 1 then 1 else 2) else if IsQuote(s[0]) then QuotedLength(s) else 1;
      NoSeparator(s[n..], c);
    }
  }

  /** Characters that are neither the separator nor special to the tokenizer. */
  predicate Ordinary(s: string, c: char) {
    forall i :: 0 <= i < |s| ==> s[i] != c && s[i] != '\\' && !IsQuote(s[i])
  }

  lemma {:induction false} SeparatorBehind(front: string, s: string, c: char)
    requires Ordinary(front, c)
    ensures FindSeparator(front + s, c) == Passing(|front|, false, FindSeparator(s, c))
  {
    if front == "" {
      assert front + s == s;
    } else {
      assert (front + s)[1..] == front[1..] + s;
      SeparatorBehind(front[1..], s, c);
    }
  }

  /** Trailing white space of a text that ends in something else in front of it. */
  lemma {:induction false} StripBehind(front: string, v: string)
    requires front != "" && !IsSpace(front[|front| - 1])
    ensures StripTrailingWhitespace(front + v) == front + StripTrailingWhitespace(v)
  {
    if v == "" {
      assert front + v == front;
    } else {
      assert (front + v)[..|front + v| - 1] == front + v[..|v| - 1];
      StripBehind(front, v[..|v| - 1]);
    }
  }

  lemma {:induction false} StripShortens(v: string)
    ensures |StripTrailingWhitespace(v)| <= |v|
    ensures |StripTrailingWhitespace(v)| == |v| <==> StripTrailingWhitespace(v) == v
  {
    if v != "" && IsSpace(v[|v| - 1]) {
      StripShortens(v[..|v| - 1]);
    }
  }

  lemma QuotesShorten(v: string)
    ensures |StripQuotes(v)| <= |v| && (StripQuotes(v) == v ==> StripTrailingWhitespace(v) == v)
  {
    StripShortens(v);
    SkipSpaceShortens(StripTrailingWhitespace(v));
    hide StripTrailingWhitespace, SkipSpace;
  }

  lemma SkipSpaceShortens(v: string)
    ensures |SkipSpace(v)| <= |v|
  {
  }

  lemma NameAndEquals(name: string)
    requires name != "" && Letters(name)
    ensures Ordinary(name + "=", ' ') && Ordinary(name, '=') && !IsSpace((name + "=")[|name|])
    ensures !IsQuote(name[0])
  {
  }

  /** What the first pair of a line is, whatever the value behind the equals sign. */
  lemma FirstPair(name: string, value: string, w: World)
    requires name != "" && Letters(name)
    ensures var v := StripTrailingWhitespace(value);
            var j := FindSeparator(v, ' ').at;
            GetNameValuePair(StripTrailingWhitespace(name + "=" + value), w)
            == NameValue(name, StripQuotes(v[..j]), Behind(v, j))
  {
    hide Letters, Ordinary, FindSeparator, StripTrailingWhitespace, StripQuotes;
    NameAndEquals(name);
    var front, v := name + "=", StripTrailingWhitespace(value);
    StripBehind(front, value);
    SeparatorBehind(front, v, ' ');
    var j := FindSeparator(v, ' ').at;
    var t := (front + v)[..|front| + j];
    assert t == name + ("=" + v[..j]);
    SeparatorBehind(name, "=" + v[..j], '=');
    EqualsFirst(v[..j]);
    assert t[..|name|] == name && t[|name| + 1..] == v[..j];
    assert |front| + j < |front + v| ==> (front + v)[|front| + j + 1..] == v[j + 1..];
  }

  /** What the first pair of a written line is. */
  lemma FirstPairOf(p: Pair, w: World)
    ensures var v := StripTrailingWhitespace(p.value);
            var j := FindSeparator(v, ' ').at;
            GetNameValuePair(StripTrailingWhitespace(Line(p)), w)
            == NameValue(Name(p.key), StripQuotes(v[..j]), Behind(v, j))
  {
    NameHasLetters(p.key);
    hide Letters, FindSeparator, Name, StripTrailingWhitespace, StripQuotes, GetNameValuePair;
    FirstPair(Name(p.key), p.value, w);
  }

  lemma EqualsFirst(v: string)
    ensures FindSeparator("=" + v, '=') == Found(0, false)
  {
  }

  /**
   Exactly when a value comes back: its line is one line of the file, and the first and only pair on that line holds
   the value. It must have no line end, no blank that is neither in quotes nor behind a backslash, no white space at its
   end, and no quotes around it.
   */
  lemma ValueComesBack(p: Pair, w: World)
    ensures Tokens(Line(p) + "\n", '\n') == [Line(p)]
         && GetNameValuePair(StripTrailingWhitespace(Line(p)), w) == NameValue(Name(p.key), p.value, "")
        <==> OneWord(p.value)
  {
    hide Tokens, Line, FindSeparator, Name, StripTrailingWhitespace, StripQuotes, GetNameValuePair;
    FirstPairOf(p, w);
    LineEnds(p);
    var v := StripTrailingWhitespace(p.value);
    var j := FindSeparator(v, ' ').at;
    StripShortens(p.value);
    QuotesShorten(v[..j]);
    QuotesShorten(p.value);
    assert v[..|v|] == v;
    assert Line(p) + "\n" == Line(p) + ['\n'];
    if '\n' in Line(p) {
      TokensAreFree(Line(p) + "\n", '\n');
      assert [Line(p)][0] == Line(p);
    } else {
      TokensOfTerminatedOne(Line(p), '\n');
    }
  }

  /** A value without white space comes back exactly when it is not wrapped in quotes. */
  lemma PlainIsOneWord(v: string)
    requires NoBlanks(v)
    ensures OneWord(v) <==> !Wrapped(v)
  {
    StripNothing(v);
    NoSeparator(v, ' ');
    hide FindSeparator;
  }

  /** Reading a line written for such a value does what the setting says. */
  lemma ReadWritten(st: State, p: Pair, w: World)
    requires OneWord(p.value)
    ensures ReadLine(st, StripTrailingWhitespace(Line(p)), w) == Set(st, p.key, p.value, w)
  {
    hide OneWord, Tokens, Line, Apply, Set, Name, StripTrailingWhitespace, GetNameValuePair;
    ValueComesBack(p, w);
    SameIsEqual(Name(p.key));
    ApplyIsSet(st, Name(p.key), p.key, p.value, w);
    NoMorePairs(w);
  }

  lemma NoMorePairs(w: World)
    ensures GetNameValuePair("", w) == NoPair
  {
  }

  // ---------------------------------------------------------------- the round trip

  function LinesOf(ps: seq<Pair>): seq<string> {
    if ps == [] then [] else LinesOf(ps[..|ps| - 1]) + [Line(ps[|ps| - 1])]
  }

  /** The settings one after the other. */
  function SetAll(st: State, ps: seq<Pair>, w: World): State {
    if ps == [] then st
    else Set(SetAll(st, ps[..|ps| - 1], w), ps[|ps| - 1].key, ps[|ps| - 1].value, w)
  }

  predicate OneWords(ps: seq<Pair>) {
    forall i :: 0 <= i < |ps| ==> OneWord(ps[i].value)
  }

  lemma OneWordsSplit(a: seq<Pair>, b: seq<Pair>)
    ensures OneWords(a + b) <==> OneWords(a) && OneWords(b)
  {
    hide OneWord;
    if OneWords(a + b) {
      assert forall i :: 0 <= i < |a| ==> a[i] == (a + b)[i];
      assert forall i :: 0 <= i < |b| ==> b[i] == (a + b)[|a| + i];
    }
  }

  lemma WordsEnd(p: Pair)
    requires OneWord(p.value)
    ensures Line(p) != "" && '\n' !in Line(p)
  {
    LineEnds(p);
    hide Line;
  }

  lemma {:induction false} RenderedLines(ps: seq<Pair>)
    requires OneWords(ps)
    ensures Tokens(Render(ps), '\n') == LinesOf(ps)
    ensures ps == [] <==> Render(ps) == ""
    ensures ps != [] ==> Render(ps)[|Render(ps)| - 1] == '\n'
  {
    hide Tokens, Line, OneWord;
    if ps == [] {
      NoTokens('\n');
    } else {
      var init, p := ps[..|ps| - 1], ps[|ps| - 1];
      RenderedLines(init);
      WordsEnd(p);
      TokensConcat(Render(init), '\n', Line(p) + "\n");
      TokensOfTerminatedOne(Line(p), '\n');
      assert Render(ps) == Render(init) + (Line(p) + "\n");
    }
  }

  lemma {:induction false} LinesReadBack(st: State, ps: seq<Pair>, w: World)
    requires OneWords(ps)
    ensures ReadLines(st, LinesOf(ps), w) == SetAll(st, ps, w)
  {
    hide Line, OneWord, Set, ReadLine, StripTrailingWhitespace;
    if ps != [] {
      var init, p := ps[..|ps| - 1], ps[|ps| - 1];
      LinesReadBack(st, init, w);
      ReadWritten(SetAll(st, init, w), p, w);
      assert LinesOf(ps)[..|LinesOf(ps)| - 1] == LinesOf(init);
    }
  }

  /** The settings as they are found in the file: with a timeout, the setting behind it has become part of its value. */
  function Settings(c: Config, flags: set<GlobalFlag>, home: string): seq<Pair> {
    var switches := Switches(c, flags);
    Texts(c, home) +
    if c.timeout <= 0 then switches
    else if switches == [] then [Pair(Timeout, FormatInt(c.timeout))]
    else [Pair(Timeout, FormatInt(c.timeout) + Line(switches[0]))] + switches[1..]
  }

  lemma FoundInFile(c: Config, flags: set<GlobalFlag>, home: string)
    requires OneWords(Settings(c, flags, home))
    ensures Tokens(FileText(c, flags, home), '\n') == LinesOf(Settings(c, flags, home))
  {
    hide Tokens, Line, Texts, OneWord, Switches, FormatInt;
    var texts, switches, found := Texts(c, home), Switches(c, flags), Settings(c, flags, home);
    if c.timeout <= 0 {
      RenderJoin(texts, switches);
      RenderedLines(found);
      assert Render(texts) + "" == Render(texts);
    } else if switches == [] {
      OneWordsSplit(texts, [Pair(Timeout, FormatInt(c.timeout))]);
      assert OneWord([Pair(Timeout, FormatInt(c.timeout))][0].value);
      LastLineOpen(texts, Pair(Timeout, FormatInt(c.timeout)));
      LineOfTimeout(FormatInt(c.timeout), "");
      assert FormatInt(c.timeout) + "" == FormatInt(c.timeout);
      RenderNothing();
      var t := "Timeout=" + FormatInt(c.timeout);
      assert t + "" == t;
      assert Render(texts) + t + "" == Render(texts) + t;
    } else {
      var glued := Pair(Timeout, FormatInt(c.timeout) + Line(switches[0]));
      var rest := switches[1..];
      RenderJoin(texts, [glued] + rest);
      RenderJoin([glued], rest);
      RenderJoin([switches[0]], rest);
      assert switches == [switches[0]] + rest;
      RenderOne(glued);
      RenderOne(switches[0]);
      LineOfTimeout(FormatInt(c.timeout), Line(switches[0]));
      var x, y := "Timeout=" + FormatInt(c.timeout), Line(switches[0]);
      assert Render(texts) + x + ((y + "\n") + Render(rest)) == Render(texts) + (((x + y) + "\n") + Render(rest));
      RenderedLines(found);
    }
  }

  lemma RenderOne(p: Pair)
    ensures Render([p]) == Line(p) + "\n"
  {
    RenderNext([], p);
    assert [] + [p] == [p];
    hide Line;
    assert "" + (Line(p) + "\n") == Line(p) + "\n";
  }

  lemma LineOfTimeout(n: string, more: string)
    ensures Line(Pair(Timeout, n + more)) == ("Timeout=" + n) + more
  {
  }

  /** A last line without a line end is a line, too. */
  lemma LastLineOpen(ps: seq<Pair>, p: Pair)
    requires OneWords(ps) && OneWord(p.value)
    ensures Tokens(Render(ps) + Line(p), '\n') == LinesOf(ps + [p])
  {
    hide Tokens, Line, OneWord;
    RenderedLines(ps);
    WordsEnd(p);
    TokensOfOne(Line(p), '\n');
    TokensConcat(Render(ps), '\n', Line(p));
    assert (ps + [p])[..|ps|] == ps;
  }

  /** Reading the file back sets what was found in it, on top of whatever was there before. */
  lemma ReadBack(c: Config, flags: set<GlobalFlag>, st: State, w: World)
    requires OneWords(Settings(c, flags, w.home))
    ensures ReadText(st, FileText(c, flags, w.home), w) == SetAll(st, Settings(c, flags, w.home), w)
  {
    hide Tokens, Settings, OneWords, ReadLines, FileText, SetAll;
    FoundInFile(c, flags, w.home);
    LinesReadBack(st, Settings(c, flags, w.home), w);
  }

  /** A setting that was empty when the file was written stays as it is. */
  function Kept(saved: string, was: string): string { if saved == "" then was else saved }

  /** The settings in front of the timeout as they are after reading, in a context where they had been was. */
  function Restored(c: Config, was: Config): Config {
    Config(
      c.server, Kept(c.clientCert, was.clientCert), Kept(c.clientKey, was.clientKey),
      Kept(c.verifyCert, was.verifyCert), Kept(c.confFile, was.confFile),
      Kept(c.upFile, was.upFile), Kept(c.downFile, was.downFile), Kept(c.localAddress, was.localAddress),
      if c.allowedIPs == "" then was.allowedIPs else CommaList(was.allowedIPs, c.allowedIPs),
      Kept(c.remoteDev, was.remoteDev), Kept(c.clientID, was.clientID), Kept(c.userName, was.userName),
      Kept(c.password, was.password), Kept(c.remoteSearchPath, was.remoteSearchPath), Kept(c.dns, was.dns),
      was.timeout, was.tcp)
  }

  predicate Survives(path: string, home: string) { "~/" <= path ==> home + "/" <= path }

  predicate PathsSurvive(c: Config, home: string) {
    && Survives(c.clientCert, home) && Survives(c.clientKey, home) && Survives(c.verifyCert, home)
    && Survives(c.confFile, home) && Survives(c.upFile, home) && Survives(c.downFile, home)
  }

  lemma SetNext(st: State, ps: seq<Pair>, k: Key, v: string, w: World)
    ensures v == "" ==> SetAll(st, ps + Opt(k, v), w) == SetAll(st, ps, w)
    ensures v != "" ==> SetAll(st, ps + Opt(k, v), w) == Set(SetAll(st, ps, w), k, v, w)
  {
    hide Set;
    if v == "" {
      assert ps + Opt(k, v) == ps;
    } else {
      assert (ps + Opt(k, v))[..|ps|] == ps;
    }
  }

  /** One setting of the file merged into what was there. */
  function Merged(r: Config, key: Key, v: string): Config {
    match key
    case ClientCert => r.(clientCert := Kept(v, r.clientCert))
    case ClientKey => r.(clientKey := Kept(v, r.clientKey))
    case VerifyCert => r.(verifyCert := Kept(v, r.verifyCert))
    case ConfFile => r.(confFile := Kept(v, r.confFile))
    case UpFile => r.(upFile := Kept(v, r.upFile))
    case DownFile => r.(downFile := Kept(v, r.downFile))
    case LocalAddress => r.(localAddress := Kept(v, r.localAddress))
    case RemoteDev => r.(remoteDev := Kept(v, r.remoteDev))
    case DNS => r.(dns := Kept(v, r.dns))
    case ClientID => r.(clientID := Kept(v, r.clientID))
    case UserName => r.(userName := Kept(v, r.userName))
    case Password => r.(password := Kept(v, r.password))
    case RemoteSearchPath => r.(remoteSearchPath := Kept(v, r.remoteSearchPath))
    case AllowedIPs => if v == "" then r else r.(allowedIPs := CommaList(r.allowedIPs, v))
    case _ => r
  }

  predicate IsPathKey(key: Key) {
    || key == ClientCert || key == ClientKey || key == VerifyCert || key == ConfFile || key == UpFile
    || key == DownFile
  }

  predicate IsTextKey(key: Key) {
    key == LocalAddress || key == AllowedIPs || key == RemoteDev || key == DNS || key == ClientID || key == UserName
      || key == Password || key == RemoteSearchPath
  }

  lemma MergeSets(st: State, r: Config, key: Key, v: string, value: string, w: World)
    requires IsPathKey(key) || IsTextKey(key)
    requires v == if IsPathKey(key) then Expand(value, w.home) else value
    ensures v == "" ==> Merged(r, key, v) == r
    ensures v != "" ==> Set(st.(c := r), key, value, w) == st.(c := Merged(r, key, v))
  {
    hide Expand, CommaList;
  }

  lemma SurvivesShortening(path: string, home: string)
    requires Survives(path, home)
    ensures Expand(Shorten(path, home), home) == path
  {
    PathSurvives(path, home);
  }

  lemma ShortenNothing(path: string, home: string)
    ensures Shorten(path, home) == "" <==> path == ""
  {
  }

  lemma StepTo(st: State, ps: seq<Pair>, key: Key, value: string, w: World, was: State, now: State)
    requires SetAll(st, ps, w) == was && now == if value == "" then was else Set(was, key, value, w)
    ensures SetAll(st, ps + Opt(key, value), w) == now
  {
    hide *;
    SetNext(st, ps, key, value, w);
  }

  /** A setting v, written as value unless it is empty. */
  lemma Step(st: State, ps: seq<Pair>, r: Config, key: Key, v: string, value: string, w: World)
    requires SetAll(st, ps, w) == st.(c := r) && (IsPathKey(key) || IsTextKey(key))
    requires (v == "" <==> value == "") && v == if IsPathKey(key) then Expand(value, w.home) else value
    ensures SetAll(st, ps + Opt(key, value), w) == st.(c := Merged(r, key, v))
  {
    hide *;
    MergeSets(st, r, key, v, value, w);
    StepTo(st, ps, key, value, w, st.(c := r), st.(c := Merged(r, key, v)));
  }

  lemma PathStep(st: State, ps: seq<Pair>, r: Config, key: Key, path: string, w: World)
    requires SetAll(st, ps, w) == st.(c := r) && IsPathKey(key) && Survives(path, w.home)
    ensures SetAll(st, ps + Opt(key, Shorten(path, w.home)), w) == st.(c := Merged(r, key, path))
  {
    hide *;
    SurvivesShortening(path, w.home);
    ShortenNothing(path, w.home);
    Step(st, ps, r, key, path, Shorten(path, w.home), w);
  }

  lemma TextStep(st: State, ps: seq<Pair>, r: Config, key: Key, v: string, w: World)
    requires SetAll(st, ps, w) == st.(c := r) && IsTextKey(key)
    ensures SetAll(st, ps + Opt(key, v), w) == st.(c := Merged(r, key, v))
  {
    assert !IsPathKey(key);
    hide *;
    Step(st, ps, r, key, v, v, w);
  }

  /** Merging the server and the paths in the order of the file, then the other texts. */
  function PathsMerged(c: Config, was: Config): Config {
    var r1 := Merged(was.(server := c.server), ClientCert, c.clientCert);
    var r2 := Merged(r1, ClientKey, c.clientKey);
    var r3 := Merged(r2, VerifyCert, c.verifyCert);
    var r4 := Merged(r3, ConfFile, c.confFile);
    var r5 := Merged(r4, UpFile, c.upFile);
    Merged(r5, DownFile, c.downFile)
  }

  function NetworkMerged(c: Config, was: Config): Config {
    var r1 := Merged(was, LocalAddress, c.localAddress);
    var r2 := Merged(r1, AllowedIPs, c.allowedIPs);
    var r3 := Merged(r2, RemoteDev, c.remoteDev);
    Merged(r3, DNS, c.dns)
  }

  function UserMerged(c: Config, was: Config): Config {
    var r1 := Merged(was, ClientID, c.clientID);
    var r2 := Merged(r1, UserName, c.userName);
    var r3 := Merged(r2, Password, c.password);
    Merged(r3, RemoteSearchPath, c.remoteSearchPath)
  }

  function TextsMerged(c: Config, was: Config): Config {
    UserMerged(c, NetworkMerged(c, was))
  }

  lemma PathsMergedAre(c: Config, was: Config)
    ensures PathsMerged(c, was) == was.(
              server := c.server,
              clientCert := Kept(c.clientCert, was.clientCert),
              clientKey := Kept(c.clientKey, was.clientKey),
              verifyCert := Kept(c.verifyCert, was.verifyCert),
              confFile := Kept(c.confFile, was.confFile),
              upFile := Kept(c.upFile, was.upFile),
              downFile := Kept(c.downFile, was.downFile))
  {
    hide Kept, CommaList;
  }

  lemma NetworkMergedIs(c: Config, was: Config)
    ensures NetworkMerged(c, was) == was.(
              localAddress := Kept(c.localAddress, was.localAddress),
              allowedIPs := if c.allowedIPs == "" then was.allowedIPs else CommaList(was.allowedIPs, c.allowedIPs),
              remoteDev := Kept(c.remoteDev, was.remoteDev),
              dns := Kept(c.dns, was.dns))
  {
    hide Kept, CommaList;
  }

  lemma UserMergedIs(c: Config, was: Config)
    ensures UserMerged(c, was) == was.(
              clientID := Kept(c.clientID, was.clientID),
              userName := Kept(c.userName, was.userName),
              password := Kept(c.password, was.password),
              remoteSearchPath := Kept(c.remoteSearchPath, was.remoteSearchPath))
  {
    hide Kept, CommaList;
  }

  lemma AllMergedIsRestored(c: Config, was: Config)
    ensures TextsMerged(c, PathsMerged(c, was)) == Restored(c, was)
  {
    PathsMergedAre(c, was);
    NetworkMergedIs(c, PathsMerged(c, was));
    UserMergedIs(c, NetworkMerged(c, PathsMerged(c, was)));
    hide PathsMerged, NetworkMerged, UserMerged, Kept, CommaList;
  }

  /** Reading the settings in front of the timeout restores each of them that was not empty. */
  lemma TextsRestored(c: Config, st: State, w: World)
    requires PathsSurvive(c, w.home)
    ensures SetAll(st, Texts(c, w.home), w) == st.(c := Restored(c, st.c))
  {
    AllMergedIsRestored(c, st.c);
    var ps, r := [Pair(Server, c.server)], st.c.(server := c.server);
    SetOne(st, Pair(Server, c.server), w);
    hide SetAll, Shorten, Survives, Opt, Merged, Restored;
    PathStep(st, ps, r, ClientCert, c.clientCert, w);
    ps, r := ps + Opt(ClientCert, Shorten(c.clientCert, w.home)), Merged(r, ClientCert, c.clientCert);
    PathStep(st, ps, r, ClientKey, c.clientKey, w);
    ps, r := ps + Opt(ClientKey, Shorten(c.clientKey, w.home)), Merged(r, ClientKey, c.clientKey);
    PathStep(st, ps, r, VerifyCert, c.verifyCert, w);
    ps, r := ps + Opt(VerifyCert, Shorten(c.verifyCert, w.home)), Merged(r, VerifyCert, c.verifyCert);
    PathStep(st, ps, r, ConfFile, c.confFile, w);
    ps, r := ps + Opt(ConfFile, Shorten(c.confFile, w.home)), Merged(r, ConfFile, c.confFile);
    PathStep(st, ps, r, UpFile, c.upFile, w);
    ps, r := ps + Opt(UpFile, Shorten(c.upFile, w.home)), Merged(r, UpFile, c.upFile);
    PathStep(st, ps, r, DownFile, c.downFile, w);
    ps, r := ps + Opt(DownFile, Shorten(c.downFile, w.home)), Merged(r, DownFile, c.downFile);
    TextStep(st, ps, r, LocalAddress, c.localAddress, w);
    ps, r := ps + Opt(LocalAddress, c.localAddress), Merged(r, LocalAddress, c.localAddress);
    TextStep(st, ps, r, AllowedIPs, c.allowedIPs, w);
    ps, r := ps + Opt(AllowedIPs, c.allowedIPs), Merged(r, AllowedIPs, c.allowedIPs);
    TextStep(st, ps, r, RemoteDev, c.remoteDev, w);
    ps, r := ps + Opt(RemoteDev, c.remoteDev), Merged(r, RemoteDev, c.remoteDev);
    TextStep(st, ps, r, DNS, c.dns, w);
    ps, r := ps + Opt(DNS, c.dns), Merged(r, DNS, c.dns);
    TextStep(st, ps, r, ClientID, c.clientID, w);
    ps, r := ps + Opt(ClientID, c.clientID), Merged(r, ClientID, c.clientID);
    TextStep(st, ps, r, UserName, c.userName, w);
    ps, r := ps + Opt(UserName, c.userName), Merged(r, UserName, c.userName);
    TextStep(st, ps, r, Password, c.password, w);
    ps, r := ps + Opt(Password, c.password), Merged(r, Password, c.password);
    TextStep(st, ps, r, RemoteSearchPath, c.remoteSearchPath, w);
    ps, r := ps + Opt(RemoteSearchPath, c.remoteSearchPath), Merged(r, RemoteSearchPath, c.remoteSearchPath);
  }

  lemma SetOne(st: State, p: Pair, w: World)
    ensures SetAll(st, [p], w) == Set(st, p.key, p.value, w) && SetAll(st, [], w) == st
  {
    hide Set;
    assert [p][..0] == [];
  }

  /** One side's flags as they are after reading: those saved, unless both were set and so nothing was written. */
  function Sided(saved: set<GlobalFlag>, was: set<GlobalFlag>, su: GlobalFlag, sudo: GlobalFlag): set<GlobalFlag> {
    if su in saved && sudo in saved then was else was - {su, sudo} + saved * {su, sudo}
  }

  lemma SuRestored(saved: set<GlobalFlag>, was: set<GlobalFlag>, su: GlobalFlag, sudo: GlobalFlag)
    requires su != sudo
    ensures var v := SuValue(saved, su, sudo);
            (v == "" <==> su in saved && sudo in saved) &&
            (v != "" ==> SetSu(was, su, sudo, v) == Sided(saved, was, su, sudo))
  {
  }

  function Protocols(c: Config): seq<Pair> { if c.tcp then [Pair(Protocol, "tcp")] else [] }

  lemma SideStep(st: State, ps: seq<Pair>, saved: set<GlobalFlag>, key: Key, su: GlobalFlag, sudo: GlobalFlag, w: World)
    requires (key == LocalSU && su == FlagLocalSU && sudo == FlagLocalSUDO)
             || (key == RemoteSU && su == FlagRemoteSU && sudo == FlagRemoteSUDO)
    ensures var was := SetAll(st, ps, w);
            SetAll(st, ps + Opt(key, SuValue(saved, su, sudo)), w) == was.(flags := Sided(saved, was.flags, su, sudo))
  {
    hide SetAll, Opt, SuValue, SetSu, Sided;
    var was := SetAll(st, ps, w);
    SuRestored(saved, was.flags, su, sudo);
    SetNext(st, ps, key, SuValue(saved, su, sudo), w);
    SidedNothing(saved, was.flags, su, sudo);
  }

  lemma SidedNothing(saved: set<GlobalFlag>, was: set<GlobalFlag>, su: GlobalFlag, sudo: GlobalFlag)
    ensures su in saved && sudo in saved ==> Sided(saved, was, su, sudo) == was
  {
  }

  /** Both sides after reading. */
  function BothSided(saved: set<GlobalFlag>, was: set<GlobalFlag>): set<GlobalFlag> {
    Sided(saved, Sided(saved, was, FlagLocalSU, FlagLocalSUDO), FlagRemoteSU, FlagRemoteSUDO)
  }

  lemma SwitchesRestored(c: Config, saved: set<GlobalFlag>, st: State, w: World)
    ensures SetAll(st, Switches(c, saved), w) == State(st.c.(tcp := st.c.tcp || c.tcp), BothSided(saved, st.flags))
  {
    var ps := Protocols(c);
    SetOne(st, Pair(Protocol, "tcp"), w);
    assert SetAll(st, ps, w) == st.(c := st.c.(tcp := st.c.tcp || c.tcp));
    hide SetAll, Opt, SuValue, Sided;
    SideStep(st, ps, saved, LocalSU, FlagLocalSU, FlagLocalSUDO, w);
    SideStep(st, ps + Opt(LocalSU, SuValue(saved, FlagLocalSU, FlagLocalSUDO)), saved, RemoteSU, FlagRemoteSU,
             FlagRemoteSUDO, w);
  }

  lemma {:induction false} SetAllJoin(st: State, a: seq<Pair>, b: seq<Pair>, w: World)
    ensures SetAll(st, a + b, w) == SetAll(SetAll(st, a, w), b, w)
  {
    if b == [] {
      assert a + b == a;
    } else {
      hide Set;
      var c, p := b[..|b| - 1], b[|b| - 1];
      assert (a + b)[..|a + b| - 1] == a + c;
      SetAllJoin(st, a, c, w);
    }
  }

  lemma OptIsWord(key: Key, v: string)
    requires OneWord(v)
    ensures OneWords(Opt(key, v)) && OneWords([Pair(key, v)])
  {
  }

  lemma SuIsWord(flags: set<GlobalFlag>, su: GlobalFlag, sudo: GlobalFlag)
    ensures PlainWord(SuValue(flags, su, sudo)) && PlainWord("tcp")
    ensures OneWord(SuValue(flags, su, sudo)) && OneWord("tcp")
  {
    PlainIsOneWord(SuValue(flags, su, sudo));
    PlainIsOneWord("tcp");
    hide OneWord;
  }

  /** The first of the switches has a plain value. */
  lemma FirstIsPlain(c: Config, flags: set<GlobalFlag>)
    requires Switches(c, flags) != []
    ensures PlainWord(Switches(c, flags)[0].value)
  {
    SuIsWord(flags, FlagLocalSU, FlagLocalSUDO);
    SuIsWord(flags, FlagRemoteSU, FlagRemoteSUDO);
    hide PlainWord, OneWord, SuValue;
  }

  lemma SwitchesAreWords(c: Config, flags: set<GlobalFlag>)
    ensures OneWords(Switches(c, flags))
  {
    hide OneWord, OneWords, Opt, SuValue;
    var l, r := SuValue(flags, FlagLocalSU, FlagLocalSUDO), SuValue(flags, FlagRemoteSU, FlagRemoteSUDO);
    SuIsWord(flags, FlagLocalSU, FlagLocalSUDO);
    SuIsWord(flags, FlagRemoteSU, FlagRemoteSUDO);
    OptIsWord(Protocol, "tcp");
    OptIsWord(LocalSU, l);
    OptIsWord(RemoteSU, r);
    NothingIsWords();
    OneWordsSplit(Protocols(c), Opt(LocalSU, l));
    OneWordsSplit(Protocols(c) + Opt(LocalSU, l), Opt(RemoteSU, r));
  }

  lemma NothingIsWords()
    ensures OneWords([])
  {
  }

  /** Each of the flags is one side's or nobody's. */
  predicate SameSide(a: set<GlobalFlag>, b: set<GlobalFlag>, su: GlobalFlag, sudo: GlobalFlag) {
    (su in a <==> su in b) && (sudo in a <==> sudo in b)
  }

  /**
   The round trip: reading the saved file into any context restores every text that was not empty, paths under the
   home directory included, the TCP flag, and each side's su and sudo flags.
   */
  lemma RoundTrip(c: Config, saved: set<GlobalFlag>, st: State, w: World)
    requires OneWords(Texts(c, w.home)) && PathsSurvive(c, w.home) && c.timeout <= 0
    ensures var back := ReadText(st, FileText(c, saved, w.home), w);
            && back.c == Restored(c, st.c).(tcp := st.c.tcp || c.tcp)
            && back.flags == BothSided(saved, st.flags)
  {
    hide SetAll, Texts, Switches, OneWords, ReadText, FileText, Restored, BothSided, PathsSurvive;
    SwitchesAreWords(c, saved);
    OneWordsSplit(Texts(c, w.home), Switches(c, saved));
    ReadBack(c, saved, st, w);
    SetAllJoin(st, Texts(c, w.home), Switches(c, saved), w);
    TextsRestored(c, st, w);
    SwitchesRestored(c, saved, SetAll(st, Texts(c, w.home), w), w);
    RestoredKeeps(c, st.c);
  }

  lemma RestoredKeeps(c: Config, was: Config)
    ensures Restored(c, was).tcp == was.tcp && Restored(c, was).timeout == was.timeout
  {
  }

  /** A side comes back as it was saved exactly when a line was written for it or the reader had both flags set. */
  lemma SideComesBack(saved: set<GlobalFlag>, was: set<GlobalFlag>)
    ensures SameSide(BothSided(saved, was), saved, FlagLocalSU, FlagLocalSUDO) <==>
            ({FlagLocalSU, FlagLocalSUDO} <= saved ==> {FlagLocalSU, FlagLocalSUDO} <= was)
    ensures SameSide(BothSided(saved, was), saved, FlagRemoteSU, FlagRemoteSUDO) <==>
            ({FlagRemoteSU, FlagRemoteSUDO} <= saved ==> {FlagRemoteSU, FlagRemoteSUDO} <= was)
  {
  }

  // ---------------------------------------------------------------- the missing line end

  lemma {:induction false} DigitsAreWord(n: nat)
    ensures NoBlanks(Digits(n)) && Digits(n) != "" && IsDigit(Digits(n)[0])
  {
    if n >= 10 {
      DigitsAreWord(n / 10);
    }
  }

  /** With a timeout the file holds the same, but for the first setting behind it, which is lost. */
  lemma TimeoutRead(c: Config, saved: set<GlobalFlag>, st: State, w: World)
    requires OneWords(Texts(c, w.home)) && PathsSurvive(c, w.home) && c.timeout > 0
    ensures var back, switches := ReadText(st, FileText(c, saved, w.home), w), Switches(c, saved);
            var glued := FormatInt(c.timeout) + if switches == [] then "" else Line(switches[0]);
            var c1 := Restored(c, st.c).(timeout := w.duration(glued));
            back == SetAll(State(c1, st.flags), if switches == [] then [] else switches[1..], w)
  {
    hide SetAll, Texts, Switches, OneWord, OneWords, ReadText, FileText, Restored, PathsSurvive, FormatInt, Line, Opt;
    var texts, switches := Texts(c, w.home), Switches(c, saved);
    SwitchesAreWords(c, saved);
    if switches != [] { FirstIsPlain(c, saved); }
    TimeoutIsWord(c.timeout, switches);
    var glued := FormatInt(c.timeout) + if switches == [] then "" else Line(switches[0]);
    var rest := if switches == [] then [] else switches[1..];
    var first := [Pair(Timeout, glued)];
    assert FormatInt(c.timeout) + "" == FormatInt(c.timeout);
    assert Settings(c, saved, w.home) == texts + (first + rest);
    OptIsWord(Timeout, glued);
    OneWordsSplit(first, rest);
    OneWordsSplit(texts, first + rest);
    ReadBack(c, saved, st, w);
    TextsRestored(c, st, w);
    SetAllJoin(st, texts, first + rest, w);
    var was := SetAll(st, texts, w);
    SetAllJoin(was, first, rest, w);
    SetOne(was, Pair(Timeout, glued), w);
  }

  lemma TimeoutIsWord(timeout: int, switches: seq<Pair>)
    requires timeout > 0 && OneWords(switches) && (switches != [] ==> PlainWord(switches[0].value))
    ensures OneWord(FormatInt(timeout) + if switches == [] then "" else Line(switches[0]))
    ensures switches != [] ==> OneWords(switches[1..])
  {
    DigitsAreWord(timeout);
    var more := if switches == [] then "" else Line(switches[0]);
    if switches != [] {
      LineIsPlain(switches[0]);
    }
    var v := FormatInt(timeout) + more;
    assert v[0] == FormatInt(timeout)[0];
    PlainIsOneWord(v);
    hide Line, Digits, OneWord;
  }

  /** The TCP flag and all su and sudo flags are back as they were saved. */
  predicate SwitchesBack(back: State, c: Config, saved: set<GlobalFlag>) {
    back.c.tcp == c.tcp && SameSide(back.flags, saved, FlagLocalSU, FlagLocalSUDO) &&
    SameSide(back.flags, saved, FlagRemoteSU, FlagRemoteSUDO)
  }

  /** One side of a reader is as it was saved once it has read the line for that side, if there is one. */
  predicate SideReads(flags: set<GlobalFlag>, saved: set<GlobalFlag>, su: GlobalFlag, sudo: GlobalFlag) {
    {su, sudo} <= saved ==> {su, sudo} <= flags
  }

  /** What each switch asks of the reader: its line is read, or it is the one that is lost and must hold already. */
  predicate ReaderFits(st: State, c: Config, saved: set<GlobalFlag>) {
    && (if c.timeout > 0 then st.c.tcp == c.tcp else st.c.tcp ==> c.tcp)
    && (if c.timeout > 0 && !c.tcp then SameSide(st.flags, saved, FlagLocalSU, FlagLocalSUDO)
        else SideReads(st.flags, saved, FlagLocalSU, FlagLocalSUDO))
    && (if c.timeout > 0 && !c.tcp && {FlagLocalSU, FlagLocalSUDO} <= saved
        then SameSide(st.flags, saved, FlagRemoteSU, FlagRemoteSUDO)
        else SideReads(st.flags, saved, FlagRemoteSU, FlagRemoteSUDO))
  }

  lemma OptLength(key: Key, v: string)
    ensures Opt(key, v) == if v == "" then [] else [Pair(key, v)]
  {
  }

  /** What the two lines for su and sudo come to, without the first of them, or without both. */
  lemma SideLines(saved: set<GlobalFlag>, st: State, w: World)
    ensures var ls := Opt(LocalSU, SuValue(saved, FlagLocalSU, FlagLocalSUDO));
            var rs := Opt(RemoteSU, SuValue(saved, FlagRemoteSU, FlagRemoteSUDO));
            SetAll(st, ls + rs, w) == st.(flags := BothSided(saved, st.flags)) &&
            SetAll(st, rs, w) == st.(flags := Sided(saved, st.flags, FlagRemoteSU, FlagRemoteSUDO)) &&
            SetAll(st, [], w) == st
  {
    hide SetAll, Opt, SuValue, Sided;
    var ls := Opt(LocalSU, SuValue(saved, FlagLocalSU, FlagLocalSUDO));
    var rs := Opt(RemoteSU, SuValue(saved, FlagRemoteSU, FlagRemoteSUDO));
    assert [] + rs == rs && [] + ls == ls;
    SetOne(st, Pair(Protocol, "tcp"), w);
    SideStep(st, [], saved, LocalSU, FlagLocalSU, FlagLocalSUDO, w);
    SideStep(st, [], saved, RemoteSU, FlagRemoteSU, FlagRemoteSUDO, w);
    SideStep(st, ls, saved, RemoteSU, FlagRemoteSU, FlagRemoteSUDO, w);
  }

  /** What is left of the switches without the first. */
  lemma SwitchesBehind(c: Config, saved: set<GlobalFlag>)
    requires Switches(c, saved) != []
    ensures var ls := Opt(LocalSU, SuValue(saved, FlagLocalSU, FlagLocalSUDO));
            var rs := Opt(RemoteSU, SuValue(saved, FlagRemoteSU, FlagRemoteSUDO));
            Switches(c, saved)[1..] == if c.tcp then ls + rs else if ls != [] then rs else []
  {
    hide SuValue;
    var ls := Opt(LocalSU, SuValue(saved, FlagLocalSU, FlagLocalSUDO));
    var rs := Opt(RemoteSU, SuValue(saved, FlagRemoteSU, FlagRemoteSUDO));
    assert Switches(c, saved) == Protocols(c) + ls + rs;
  }

  /** When nothing, or only the other side's line, is read, a side must be as it was saved already. */
  lemma SidesAfter(saved: set<GlobalFlag>, flags: set<GlobalFlag>)
    ensures var one := Sided(saved, flags, FlagRemoteSU, FlagRemoteSUDO);
            && SameSide(one, flags, FlagLocalSU, FlagLocalSUDO)
            && (SameSide(one, saved, FlagRemoteSU, FlagRemoteSUDO)
                <==> SideReads(flags, saved, FlagRemoteSU, FlagRemoteSUDO))
    ensures SuValue(saved, FlagLocalSU, FlagLocalSUDO) == "" <==> {FlagLocalSU, FlagLocalSUDO} <= saved
    ensures SuValue(saved, FlagRemoteSU, FlagRemoteSUDO) == "" <==> {FlagRemoteSU, FlagRemoteSUDO} <= saved
  {
  }

  /** With all lines read: each switch comes back under its own condition. */
  lemma AllRead(c: Config, saved: set<GlobalFlag>, st: State, w: World)
    ensures SwitchesBack(SetAll(st, Switches(c, saved), w), c, saved) <==>
            && (st.c.tcp ==> c.tcp)
            && SideReads(st.flags, saved, FlagLocalSU, FlagLocalSUDO)
            && SideReads(st.flags, saved, FlagRemoteSU, FlagRemoteSUDO)
  {
    SwitchesRestored(c, saved, st, w);
    SideComesBack(saved, st.flags);
    hide SetAll, Switches, BothSided, SameSide;
  }

  /** With the first line lost: what it said must hold already. */
  lemma FirstLost(c: Config, saved: set<GlobalFlag>, st: State, w: World)
    requires Switches(c, saved) != [] && c.timeout > 0
    ensures SwitchesBack(SetAll(st, Switches(c, saved)[1..], w), c, saved) <==> ReaderFits(st, c, saved)
  {
    hide SetAll, Opt, SuValue, Sided, BothSided, Switches;
    SideLines(saved, st, w);
    SwitchesBehind(c, saved);
    SidesAfter(saved, st.flags);
    SideComesBack(saved, st.flags);
    SwitchesAre(c, saved);
    OptLength(LocalSU, SuValue(saved, FlagLocalSU, FlagLocalSUDO));
    OptLength(RemoteSU, SuValue(saved, FlagRemoteSU, FlagRemoteSUDO));
  }

  lemma SwitchesAre(c: Config, saved: set<GlobalFlag>)
    ensures Switches(c, saved) == [] <==> !c.tcp && SuValue(saved, FlagLocalSU, FlagLocalSUDO) == ""
                                          && SuValue(saved, FlagRemoteSU, FlagRemoteSUDO) == ""
  {
    hide SuValue;
  }

  lemma NothingLost(c: Config, saved: set<GlobalFlag>, st: State)
    requires c.timeout <= 0 || Switches(c, saved) == []
    ensures ReaderFits(st, c, saved) <==>
            && (st.c.tcp ==> c.tcp)
            && SideReads(st.flags, saved, FlagLocalSU, FlagLocalSUDO)
            && SideReads(st.flags, saved, FlagRemoteSU, FlagRemoteSUDO)
  {
    SwitchesAre(c, saved);
    SidesAfter(saved, st.flags);
    hide Switches, SuValue;
  }

  /**
   Whatever reader the file is read into, all the switches come back exactly when the reader fits: a line that is read
   restores its switch unless nothing had to be written for it, and the line that is lost behind a timeout must say
   what the reader has already.
   */
  lemma SwitchesComeBack(c: Config, saved: set<GlobalFlag>, st: State, w: World)
    requires OneWords(Texts(c, w.home)) && PathsSurvive(c, w.home)
    ensures SwitchesBack(ReadText(st, FileText(c, saved, w.home), w), c, saved) <==> ReaderFits(st, c, saved)
  {
    hide SetAll, Texts, OneWords, ReadText, FileText, Restored, PathsSurvive, FormatInt, Line, Set, Switches;
    hide BothSided, SameSide, SideReads;
    RestoredKeeps(c, st.c);
    if c.timeout <= 0 {
      RoundTrip(c, saved, st, w);
      SwitchesRestored(c, saved, st, w);
      AllRead(c, saved, st, w);
      NothingLost(c, saved, st);
    } else {
      TimeoutRead(c, saved, st, w);
      var glued := FormatInt(c.timeout) + if Switches(c, saved) == [] then "" else Line(Switches(c, saved)[0]);
      var st1 := State(Restored(c, st.c).(timeout := w.duration(glued)), st.flags);
      if Switches(c, saved) == [] {
        AllRead(c, saved, st1, w);
        NothingLost(c, saved, st1);
      } else {
        FirstLost(c, saved, st1, w);
      }
    }
  }

  /** The flags that the program starts with: it expects to need su or sudo, at this end only when it is not root. */
  function StartFlags(root: bool): set<GlobalFlag> {
    {FlagRemoteSU, FlagRemoteSUDO} + if root then {} else {FlagLocalSU, FlagLocalSUDO}
  }

  /**
   From the start of the program. An ordinary user loses the first switch behind every timeout. Root gets back what
   was saved unless both ways were saved for this end, or a timeout is in front of TCP or of a way for this end.
   */
  lemma FromStart(c: Config, saved: set<GlobalFlag>, st: State, w: World, root: bool)
    requires OneWords(Texts(c, w.home)) && PathsSurvive(c, w.home)
    requires !st.c.tcp && st.flags == StartFlags(root)
    ensures SwitchesBack(ReadText(st, FileText(c, saved, w.home), w), c, saved) <==>
            if !root then c.timeout <= 0 || Switches(c, saved) == []
            else if c.timeout <= 0 then !({FlagLocalSU, FlagLocalSUDO} <= saved)
            else !c.tcp && FlagLocalSU !in saved && FlagLocalSUDO !in saved
  {
    hide Texts, OneWords, ReadText, FileText, PathsSurvive, Switches, SuValue, SwitchesBack;
    SwitchesComeBack(c, saved, st, w);
    SwitchesAre(c, saved);
    SidesAfter(saved, st.flags);
  }
}
