/**
 The TLS server: who may connect, and the loop that accepts clients, starts a pppd for each, relays between the two
 and takes both down together.
 */
module SslServer {
  import opened Bytes
  import opened Text

  // ---------------------------------------------------------------- who may connect

  /** What the server knows of a client: its address, its certificate's name, and what verifying that came to. */
  datatype ClientInfo = ClientInfo(peerIP: string, commonName: string, certificateVerify: string)

  datatype Policy =
    | Unset | Open | AnyCert | SystemUser | Users(list: string) | IPs(list: string) | IPOnly(list: string) | Unknown

  /** strncasecmp with a word at the start of the text. */
  predicate StartsNoCase(s: string, word: string) {
    |word| <= |s| && EqNoCase(s[..|word|], word)
  }

  function PolicyOf(serverAuth: string): Policy {
    if serverAuth == "" then Unset
    else if EqNoCase(serverAuth, "open") then Open
    else if EqNoCase(serverAuth, "cert") then AnyCert
    else if EqNoCase(serverAuth, "system") then SystemUser
    else if StartsNoCase(serverAuth, "users:") then Users(SkipSpace(serverAuth[6..]))
    else if StartsNoCase(serverAuth, "ips:") then IPs(SkipSpace(serverAuth[4..]))
    else if StartsNoCase(serverAuth, "ip-only:") then IPOnly(SkipSpace(serverAuth[8..]))
    else Unknown
  }

  predicate Verified(c: ClientInfo) { c.commonName != "" && c.certificateVerify == "OK" }

  predicate InList(item: string, list: string) { item in Tokens(list, ',') }

  /** Who may connect under a policy; passwd has the names of the system's users. */
  predicate MayConnect(policy: Policy, c: ClientInfo, passwd: set<string>) {
    match policy
    case Open => true
    case Unset => Verified(c)
    case AnyCert => Verified(c)
    case SystemUser => Verified(c) && c.commonName in passwd
    case Users(list) => Verified(c) && InList(c.commonName, list)
    case IPs(list) => Verified(c) && InList(c.peerIP, list)
    case IPOnly(list) => c.commonName != "" && InList(c.peerIP, list)
    case Unknown => false
  }

  /** InStringList */
  method InStringList(item: string, list: string) returns (found: bool)
    ensures found == InList(item, list)
  {
    var token := GetToken(list, ',');
    while token.Token?
      invariant InList(item, list) ==
                if token.Token? then item == token.text || item in Tokens(token.rest, ',') else false
      decreases if token.Token? then |token.rest| + 1 else 0
    {
      if item == token.text {
        return true;
      }
      token := GetToken(token.rest, ',');
    }
    found := false;
  }

  const SSL_AUTH_CERTIFICATE: bv8 := 1
  const SSL_AUTH_USER: bv8 := 2
  const SSL_AUTH_OKAY: bv8 := 3

  /** SSLAuth: two flags are collected, and both are needed. */
  method SSLAuth(serverAuth: string, c: ClientInfo, passwd: set<string>) returns (okay: bool)
    ensures okay == MayConnect(PolicyOf(serverAuth), c, passwd)
  {
    var authFlags: bv8 := 0;
    if c.commonName != "" {
      if c.certificateVerify == "OK" { authFlags := authFlags | SSL_AUTH_CERTIFICATE; }
    }
    if serverAuth != "" {
      if EqNoCase(serverAuth, "open") { authFlags := authFlags | SSL_AUTH_OKAY; }
      if c.commonName != "" {
        if EqNoCase(serverAuth, "cert") {
          authFlags := authFlags | SSL_AUTH_USER;
        } else if EqNoCase(serverAuth, "system") {
          if c.commonName in passwd { authFlags := authFlags | SSL_AUTH_USER; }
        } else if StartsNoCase(serverAuth, "users:") {
          var found := InStringList(c.commonName, SkipSpace(serverAuth[6..]));
          if found { authFlags := authFlags | SSL_AUTH_USER; }
        } else if StartsNoCase(serverAuth, "ips:") {
          var found := InStringList(c.peerIP, SkipSpace(serverAuth[4..]));
          if found { authFlags := authFlags | SSL_AUTH_USER; }
        } else if StartsNoCase(serverAuth, "ip-only:") {
          var found := InStringList(c.peerIP, SkipSpace(serverAuth[8..]));
          if found { authFlags := authFlags | SSL_AUTH_OKAY; }
        }
      }
    } else {
      authFlags := authFlags | SSL_AUTH_USER;
    }
    okay := authFlags == SSL_AUTH_OKAY;
  }

  /** Whoever gets in without a verified certificate does so under "open", or by address under "ip-only:". */
  lemma UnverifiedClients(serverAuth: string, c: ClientInfo, passwd: set<string>)
    requires MayConnect(PolicyOf(serverAuth), c, passwd) && !Verified(c)
    ensures EqNoCase(serverAuth, "open") ||
            (StartsNoCase(serverAuth, "ip-only:") && c.commonName != "" && InList(c.peerIP, SkipSpace(serverAuth[8..])))
  {
  }

  /** "ip:<list>", as the manual's example has it, is no policy: nobody gets in. */
  lemma IpIsNoPolicy(rest: string, c: ClientInfo, passwd: set<string>)
    ensures !MayConnect(PolicyOf("ip:" + rest), c, passwd)
  {
    hide EqNoCase;
    var auth := "ip:" + rest;
    Different(auth, "open", 0);
    Different(auth, "cert", 0);
    Different(auth, "system", 0);
    Different(auth, "users:", 0);
    Different(auth, "ips:", 2);
    Different(auth, "ip-only:", 2);
  }

  /** The policies of one word: who gets in under each. */
  lemma WordPolicies(c: ClientInfo, passwd: set<string>)
    ensures MayConnect(PolicyOf("open"), c, passwd)
    ensures MayConnect(PolicyOf(""), c, passwd) <==> c.certificateVerify == "OK" && c.commonName != ""
    ensures MayConnect(PolicyOf("cert"), c, passwd) <==> c.certificateVerify == "OK" && c.commonName != ""
    ensures MayConnect(PolicyOf("system"), c, passwd)
        <==> c.certificateVerify == "OK" && c.commonName != "" && c.commonName in passwd
  {
    hide EqNoCase;
    SameWord("open");
    SameWord("cert");
    SameWord("system");
    Different("cert", "open", 0);
    Different("system", "open", 0);
    Different("system", "cert", 0);
  }

  lemma SameWord(word: string)
    ensures EqNoCase(word, word)
  {
  }

  /** A text that starts with a word of a policy, however it goes on. */
  lemma Starts(word: string, rest: string)
    ensures StartsNoCase(word + rest, word) && (word + rest)[|word|..] == rest
  {
    SameWord(word);
    assert (word + rest)[..|word|] == word;
  }

  lemma ListPolicyOf(rest: string)
    ensures PolicyOf("users:" + rest) == Users(SkipSpace(rest))
    ensures PolicyOf("ips:" + rest) == IPs(SkipSpace(rest))
    ensures PolicyOf("ip-only:" + rest) == IPOnly(SkipSpace(rest))
  {
    hide EqNoCase, StartsNoCase, SkipSpace;
    var u, i, o := "users:" + rest, "ips:" + rest, "ip-only:" + rest;
    Starts("users:", rest);
    Starts("ips:", rest);
    Starts("ip-only:", rest);
    Different(u, "open", 0);
    Different(u, "cert", 0);
    Different(u, "system", 0);
    Different(i, "open", 0);
    Different(i, "cert", 0);
    Different(i, "system", 0);
    Different(i, "users:", 0);
    Different(o, "open", 0);
    Different(o, "cert", 0);
    Different(o, "system", 0);
    Different(o, "users:", 0);
    Different(o, "ips:", 2);
  }

  /** The policies with a list, which may have white space in front: who gets in under each. */
  lemma ListPolicies(blanks: string, list: string, c: ClientInfo, passwd: set<string>)
    requires forall i :: 0 <= i < |blanks| ==> blanks[i] in " \t\n\r\U{000B}\U{000C}"
    requires list == "" || list[0] !in " \t\n\r\U{000B}\U{000C}"
    ensures MayConnect(PolicyOf("users:" + (blanks + list)), c, passwd)
        <==> c.certificateVerify == "OK" && c.commonName != "" && c.commonName in Tokens(list, ',')
    ensures MayConnect(PolicyOf("ips:" + (blanks + list)), c, passwd)
        <==> c.certificateVerify == "OK" && c.commonName != "" && c.peerIP in Tokens(list, ',')
    ensures MayConnect(PolicyOf("ip-only:" + (blanks + list)), c, passwd)
        <==> c.commonName != "" && c.peerIP in Tokens(list, ',')
  {
    hide SkipSpace, PolicyOf;
    SkipBlanks(blanks, list);
    ListPolicyOf(blanks + list);
  }

  /** Under every other text nobody gets in. */
  lemma OtherPolicies(serverAuth: string, c: ClientInfo, passwd: set<string>)
    requires MayConnect(PolicyOf(serverAuth), c, passwd)
    ensures serverAuth == "" || EqNoCase(serverAuth, "open") || EqNoCase(serverAuth, "cert")
      || EqNoCase(serverAuth, "system") || StartsNoCase(serverAuth, "users:") || StartsNoCase(serverAuth, "ips:")
      || StartsNoCase(serverAuth, "ip-only:")
  {
  }

  /** A text that has another letter than a word at some place is neither the word nor starts with it. */
  lemma Different(s: string, word: string, i: nat)
    requires i < |s| && i < |word| && Lower(s[i]) != Lower(word[i])
    ensures !EqNoCase(s, word) && !StartsNoCase(s, word)
  {
    assert |word| <= |s| ==> s[..|word|][i] == s[i];
  }

  // ---------------------------------------------------------------- connections

  datatype Role = Listening | ClientSide(info: ClientInfo, users: set<string>) | PPPDSide

  /** A stream: what it is, its peer, what has been read from it and written to it. */
  class Stream {
    const role: Role
    var Peer: Stream?
    var IsOpen: bool
    var Received: seq<byte>
    var Sent: seq<byte>

    constructor (r: Role)
      ensures role == r && Peer == null && IsOpen && Received == [] && Sent == []
    {
      role, Peer, IsOpen, Received, Sent := r, null, true, [], [];
    }
  }

  /** ListDeleteItem: the first entry for the item goes. */
  function Without(connections: seq<Stream>, s: Stream): seq<Stream> {
    if connections == [] then []
    else if connections[0] == s then connections[1..]
    else [connections[0]] + Without(connections[1..], s)
  }

  predicate NoRepeats(connections: seq<Stream>) {
    forall i, j :: 0 <= i < j < |connections| ==> connections[i] != connections[j]
  }

  lemma NoRepeatsInFront(s: Stream, connections: seq<Stream>)
    requires s !in connections && NoRepeats(connections)
    ensures NoRepeats([s] + connections)
  {
  }

  lemma NoRepeatsAtEnd(connections: seq<Stream>, s: Stream)
    requires s !in connections && NoRepeats(connections)
    ensures NoRepeats(connections + [s])
    ensures forall x :: x in connections + [s] <==> x in connections || x == s
  {
  }

  lemma {:induction false} WithoutLeaves(connections: seq<Stream>, s: Stream)
    requires NoRepeats(connections)
    ensures NoRepeats(Without(connections, s))
    ensures forall x :: x in Without(connections, s) <==> x in connections && x != s
    ensures |Without(connections, s)| == if s in connections then |connections| - 1 else |connections|
  {
    if connections != [] {
      var rest := connections[1..];
      assert connections == [connections[0]] + rest;
      assert forall i :: 0 <= i < |rest| ==> rest[i] == connections[i + 1];
      assert connections[0] !in rest;
      if connections[0] != s {
        WithoutLeaves(rest, s);
        NoRepeatsInFront(connections[0], Without(rest, s));
      }
    }
  }

  lemma {:induction false} WithoutAt(connections: seq<Stream>, j: nat)
    requires NoRepeats(connections) && j < |connections|
    ensures Without(connections, connections[j]) == connections[..j] + connections[j + 1..]
  {
    var rest := connections[1..];
    assert forall i :: 0 <= i < |rest| ==> rest[i] == connections[i + 1];
    if j > 0 {
      WithoutAt(rest, j - 1);
      assert [connections[0]] + rest[..j - 1] == connections[..j] && rest[j..] == connections[j + 1..];
    }
  }

  /** The list without two neighbours. */
  function PairOut(connections: seq<Stream>, lo: nat): seq<Stream>
    requires lo + 1 < |connections|
  {
    connections[..lo] + connections[lo + 2..]
  }

  lemma FirstThenSecond(connections: seq<Stream>, lo: nat)
    requires NoRepeats(connections) && lo + 1 < |connections|
    ensures Without(Without(connections, connections[lo]), connections[lo + 1]) == PairOut(connections, lo)
  {
    hide Without, NoRepeats;
    var one := connections[..lo] + connections[lo + 1..];
    WithoutAt(connections, lo);
    assert NoRepeats(one) by { WithoutLeaves(connections, connections[lo]); }
    WithoutAt(one, lo);
    assert one[lo] == connections[lo + 1] && one[..lo] == connections[..lo] && one[lo + 1..] == connections[lo + 2..];
  }

  lemma SecondThenFirst(connections: seq<Stream>, lo: nat)
    requires NoRepeats(connections) && lo + 1 < |connections|
    ensures Without(Without(connections, connections[lo + 1]), connections[lo]) == PairOut(connections, lo)
  {
    hide Without, NoRepeats;
    var one := connections[..lo + 1] + connections[lo + 2..];
    WithoutAt(connections, lo + 1);
    assert NoRepeats(one) by { WithoutLeaves(connections, connections[lo + 1]); }
    WithoutAt(one, lo);
    assert one[lo] == connections[lo] && one[..lo] == connections[..lo] && one[lo + 1..] == connections[lo + 2..];
  }

  lemma PairOutAt(connections: seq<Stream>, lo: nat)
    requires lo + 1 < |connections|
    ensures |PairOut(connections, lo)| == |connections| - 2
    ensures forall j :: 0 <= j < |connections| - 2 ==>
              PairOut(connections, lo)[j] == if j < lo then connections[j] else connections[j + 2]
  {
  }

  /** What is left when two neighbours have gone. */
  lemma PairGone(connections: seq<Stream>, lo: nat)
    requires NoRepeats(connections) && lo + 1 < |connections|
    ensures NoRepeats(PairOut(connections, lo))
    ensures forall x :: x in PairOut(connections, lo)
                        <==> x in connections && x != connections[lo] && x != connections[lo + 1]
  {
    PairOutAt(connections, lo);
    hide PairOut;
    var left := PairOut(connections, lo);
    forall x | x in connections && x != connections[lo] && x != connections[lo + 1]
      ensures x in left
    {
      var k :| 0 <= k < |connections| && connections[k] == x;
      assert left[if k < lo then k else k - 2] == x;
    }
  }

  /** Where in the list the pair of entry j starts: behind the listener, each pppd is followed by its client. */
  function PairStart(j: nat): nat
    requires j >= 1
  {
    if j % 2 == 1 then j else j - 1
  }

  class SSLServer {
    const ServerAuth: string
    const Listener: Stream
    var Connections: seq<Stream>
    ghost var Streams: set<Stream>   // all that there have been

    /** A client was let in under the policy, given who it was and who the system's users were then. */
    predicate Admitted(s: Stream) {
      s.role.ClientSide? ==> MayConnect(PolicyOf(ServerAuth), s.role.info, s.role.users)
    }

    /** Two streams serve each other, one a client and one its pppd, and each has been sent what the other received. */
    predicate Paired(s: Stream)
      reads s, s.Peer
    {
      && s.Peer != null && s.Peer != s && s.Peer.Peer == s
      && s.Sent == s.Peer.Received && s.Peer.Sent == s.Received
      && ((s.role.ClientSide? && s.Peer.role.PPPDSide?) || (s.role.PPPDSide? && s.Peer.role.ClientSide?))
    }

    /** The listener comes first, and behind it each pppd is followed by its client. */
    predicate InOrder(connections: seq<Stream>)
      reads connections
    {
      && |connections| % 2 == 1 && connections[0] == Listener
      && forall j :: 1 <= j < |connections| && j % 2 == 1 ==>
           connections[j].role.PPPDSide? && connections[j].Peer == connections[j + 1]
    }

    ghost predicate Valid()
      reads this, Streams
    {
      && (forall s :: s in Connections ==> s in Streams)
      && Listener.role == Listening && NoRepeats(Connections) && InOrder(Connections)
      && (forall s :: s in Streams ==> (s.IsOpen <==> s in Connections))
      && (forall s :: s in Streams && s.role == Listening ==> s == Listener)
      && (forall s :: s in Connections && s != Listener ==> s.Peer != null && s.Peer in Connections && Admitted(s))
      && (forall s :: s in Streams && s.Peer != null ==> s.Peer in Streams && Paired(s))
    }

    constructor (serverAuth: string)
      ensures Valid() && Connections == [Listener] && fresh(Streams) && ServerAuth == serverAuth
    {
      ServerAuth := serverAuth;
      var listener := new Stream(Listening);
      Listener, Connections, Streams := listener, [listener], {listener};
    }

    /** SSLAcceptClient, when accepting and launching the pppd succeed. */
    method AcceptClient(info: ClientInfo, users: set<string>)
      requires Valid()
      modifies this
      ensures Valid() && old(Streams) <= Streams && fresh(Streams - old(Streams))
      ensures if MayConnect(PolicyOf(ServerAuth), info, users)
              then |Connections| == |old(Connections)| + 2 && Connections[..|old(Connections)|] == old(Connections)
                   && Connections[|Connections| - 1].role == ClientSide(info, users)
                   && Connections[|Connections| - 2].role == PPPDSide
                   && Connections[|Connections| - 1].Peer == Connections[|Connections| - 2]
              else Connections == old(Connections)
      ensures forall s :: s in Streams - old(Streams) ==> s.Received == []
    {
      hide NoRepeats, MayConnect, PolicyOf, InOrder;
      var client := new Stream(ClientSide(info, users));
      var okay := SSLAuth(ServerAuth, info, users);
      if okay {
        var pppd := new Stream(PPPDSide);
        AddPair(client, pppd);
      } else {
        TurnAway(client);
      }
    }

    /** STREAMClose on a client that is in no list. */
    method TurnAway(client: Stream)
      requires Valid() && client !in Streams && client.Peer == null && client.role.ClientSide?
      modifies this`Streams, client`IsOpen
      ensures Valid() && !client.IsOpen && Streams == old(Streams) + {client}
    {
      hide NoRepeats, MayConnect, PolicyOf, Admitted;
      client.IsOpen := false;
      Streams := Streams + {client};
    }

    /** Each the other's peer, and both into the list. */
    method AddPair(client: Stream, pppd: Stream)
      requires Valid() && client !in Streams && pppd !in Streams && client != pppd
      requires client.role.ClientSide? && Admitted(client) && pppd.role == PPPDSide
      requires client.IsOpen && pppd.IsOpen && client.Received == client.Sent == pppd.Received == pppd.Sent == []
      modifies this, client`Peer, pppd`Peer
      ensures Valid() && Connections == old(Connections) + [pppd, client] && client.Peer == pppd
      ensures Streams == old(Streams) + {client, pppd}
    {
      hide NoRepeats, MayConnect, PolicyOf;
      pppd.Peer := client;
      client.Peer := pppd;
      Enlist(client, pppd);
    }

    method Enlist(client: Stream, pppd: Stream)
      requires Valid() && client !in Streams && pppd !in Streams && client.IsOpen && pppd.IsOpen
      requires Paired(client) && client.Peer == pppd && client.role.ClientSide? && Admitted(client)
          && pppd.role == PPPDSide
      modifies this`Connections, this`Streams
      ensures Valid() && Connections == old(Connections) + [pppd, client]
      ensures Streams == old(Streams) + {client, pppd}
    {
      assert Admitted(pppd) && Paired(pppd);
      hide NoRepeats, MayConnect, PolicyOf, InOrder, Admitted;
      PairEnlisted(Connections, pppd, client);
      ghost var before, streams := Connections, Streams;
      Connections := Connections + [pppd];
      Connections := Connections + [client];
      Streams := Streams + {client, pppd};
      assert Connections == before + [pppd, client];
      assert forall s :: s in Streams ==> s in streams || s == client || s == pppd;
      assert forall s :: s in Streams && s.Peer != null ==> Paired(s);
    }

    /** Two new streams at the end of the list. */
    lemma PairEnlisted(before: seq<Stream>, pppd: Stream, client: Stream)
      requires NoRepeats(before) && pppd !in before && client !in before && pppd != client
      requires InOrder(before) && pppd.role == PPPDSide && pppd.Peer == client
      ensures NoRepeats(before + [pppd, client]) && InOrder(before + [pppd, client])
      ensures forall x :: x in before + [pppd, client] <==> x in before || x == pppd || x == client
    {
      hide NoRepeats, InOrder;
      NoRepeatsAtEnd(before, pppd);
      NoRepeatsAtEnd(before + [pppd], client);
      assert before + [pppd] + [client] == before + [pppd, client];
      PairAdded(before, pppd, client);
    }

    lemma PairAdded(before: seq<Stream>, pppd: Stream, client: Stream)
      requires InOrder(before) && pppd.role == PPPDSide && pppd.Peer == client
      ensures InOrder(before + [pppd, client])
    {
      var both := before + [pppd, client];
      assert forall j {:trigger both[j]} :: 0 <= j < |both| ==>
          both[j] == if j < |before| then before[j] else if j == |before| then pppd else client;
    }

    /** The peer of a stream is its neighbour. */
    lemma PeerAt(j: nat)
      requires Valid() && 1 <= j < |Connections|
      ensures Connections[j] != Listener && Paired(Connections[j]) && PairStart(j) + 1 < |Connections|
      ensures Connections[j].Peer == Connections[if j % 2 == 1 then j + 1 else j - 1]
    {
    }

    /** Taking out one pair leaves the others where they belong. */
    lemma StillInOrder(lo: nat)
      requires InOrder(Connections) && lo % 2 == 1 && lo + 1 < |Connections|
      ensures InOrder(PairOut(Connections, lo))
    {
      PairOutAt(Connections, lo);
      var left := PairOut(Connections, lo);
      assert forall j {:trigger left[j]} :: 0 <= j < |left| ==>
          left[j] == if j < lo then Connections[j] else Connections[j + 2];
      forall j | 1 <= j < |left| && j % 2 == 1
        ensures left[j].role.PPPDSide? && left[j].Peer == left[j + 1]
      {
        var k := if j < lo then j else j + 2;
        assert k % 2 == 1 && Connections[k].Peer == Connections[k + 1];
        assert left[j] == Connections[k] && left[j + 1] == Connections[k + 1];
      }
    }

    /** Both streams out of the list. */
    method Detach(con: Stream, peer: Stream, ghost j: nat)
      requires Valid() && 1 <= j < |Connections| && PairStart(j) + 1 < |Connections| && con == Connections[j]
          && peer == con.Peer
      modifies this`Connections
      ensures Connections == PairOut(old(Connections), PairStart(j)) && NoRepeats(Connections) && InOrder(Connections)
      ensures forall s :: s in Connections <==> s in old(Connections) && s != con && s != peer
    {
      PeerAt(j);
      ghost var lo := PairStart(j);
      PairGone(Connections, lo);
      StillInOrder(lo);
      FirstThenSecond(Connections, lo);
      SecondThenFirst(Connections, lo);
      hide *;
      Connections := Without(Connections, con);
      Connections := Without(Connections, peer);
    }

    /** SSLShutdownConnection */
    method ShutdownConnection(con: Stream, peer: Stream, ghost j: nat)
      requires Valid() && 1 <= j < |Connections| && PairStart(j) + 1 < |Connections| && con == Connections[j]
          && peer == con.Peer
      modifies this`Connections, con`IsOpen, peer`IsOpen
      ensures Valid() && !con.IsOpen && !peer.IsOpen
      ensures Connections == PairOut(old(Connections), PairStart(j))
    {
      PeerAt(j);
      hide NoRepeats, MayConnect, PolicyOf, PairOut, Admitted;
      Detach(con, peer, j);
      CloseBoth(con, peer);
    }

    /** The end of SSLShutdownConnection, with both streams out of the list. */
    method CloseBoth(con: Stream, peer: Stream)
      requires NoRepeats(Connections) && InOrder(Connections) && Listener.role == Listening
      requires con in Streams && peer in Streams && con.Peer == peer && peer.Peer == con && con !in Connections
          && peer !in Connections
      requires forall s :: s in Connections ==> s in Streams
      requires forall s :: s in Streams && s != con && s != peer ==> (s.IsOpen <==> s in Connections)
      requires forall s :: s in Streams && s.role == Listening ==> s == Listener
      requires forall s :: s in Connections && s != Listener ==> s.Peer != null && s.Peer in Connections && Admitted(s)
      requires forall s :: s in Streams && s.Peer != null ==> s.Peer in Streams && Paired(s)
      modifies con`IsOpen, peer`IsOpen
      ensures Valid() && !con.IsOpen && !peer.IsOpen
    {
      hide NoRepeats, MayConnect, PolicyOf, Admitted;
      peer.IsOpen := false;
      con.IsOpen := false;
    }

    /** SSLProcess: what was read goes to the peer; when nothing was, the pair goes. */
    method Process(s: Stream, bytes: seq<byte>, ghost j: nat)
      requires Valid() && 1 <= j < |Connections| && PairStart(j) + 1 < |Connections| && s == Connections[j]
      modifies this`Connections, s, s.Peer
      ensures Valid() && s.Peer == old(s.Peer) && s.Peer != null && s.Peer.Peer == s
      ensures if bytes != []
              then Connections == old(Connections)
                   && s.Received == old(s.Received) + bytes && s.Peer.Sent == old(s.Peer.Sent) + bytes
                   && s.Sent == old(s.Sent) && s.Peer.Received == old(s.Peer.Received)
              else Connections == PairOut(old(Connections), PairStart(j))
                   && s.Received == old(s.Received) && s.Sent == old(s.Sent)
                   && s.Peer.Received == old(s.Peer.Received) && s.Peer.Sent == old(s.Peer.Sent)
    {
      PeerAt(j);
      StaysPaired(s);
      hide NoRepeats, InOrder, Without, MayConnect, PolicyOf, PairOut, Admitted, PairStart;
      var peer := s.Peer;
      if peer != null && |bytes| > 0 {
        Relay(s, peer, bytes);
      } else {
        ShutdownConnection(s, peer, j);
      }
    }

    lemma StaysPaired(s: Stream)
      requires Valid() && s in Connections && s != Listener
      ensures s in Streams && s.Peer != null && s.Peer != s && s.Peer.Peer == s && s.Peer in Streams
    {
    }

    /** What is read from one side is received there and sent to the other. */
    method Relay(s: Stream, peer: Stream, bytes: seq<byte>)
      requires Valid() && s in Streams && s.Peer == peer && peer.Peer == s && s != peer
      modifies s`Received, peer`Sent
      ensures Valid() && s.Received == old(s.Received) + bytes && peer.Sent == old(peer.Sent) + bytes
    {
      hide NoRepeats, MayConnect, PolicyOf, Admitted;
      s.Received := s.Received + bytes;
      peer.Sent := peer.Sent + bytes;
    }

    /**
     What a run may do to the streams there were before it: more is received and sent, and what is closed stays as it
     is.
     */
    twostate predicate Grown(streams: set<Stream>)
      reads streams
    {
      forall s :: s in streams ==>
        && old(s.Received) <= s.Received && old(s.Sent) <= s.Sent
        && (old(s.Peer) != null ==> s.Peer == old(s.Peer))
        && (!old(s.IsOpen) ==> unchanged(s))
    }

    /** What a round does to the list of connections. */
    ghost predicate Round(before: seq<Stream>, after: seq<Stream>, e: Event) {
      before != [] &&
      var j := e.choice % |before|;
      if j == 0 then
        if MayConnect(PolicyOf(ServerAuth), e.info, e.users)
        then |after| == |before| + 2 && after[..|before|] == before
             && after[|before|].role == PPPDSide && after[|before| + 1].role == ClientSide(e.info, e.users)
        else after == before
      else if e.bytes != [] then after == before
      else PairStart(j) + 2 <= |before| && after == PairOut(before, PairStart(j))
    }

    /** What a round reads from a stream. */
    function Taken(before: seq<Stream>, e: Event, s: Stream): seq<byte> {
      if before != [] && e.choice % |before| != 0 && before[e.choice % |before|] == s then e.bytes else []
    }

    /** One round of the loop, for whichever stream is ready and whatever reading or accepting brings. */
    method Serve(event: Event)
      requires Valid()
      modifies this, Streams
      ensures Valid() && Grown(old(Streams)) && Round(old(Connections), Connections, event)
      ensures old(Streams) <= Streams && fresh(Streams - old(Streams))
      ensures forall s :: s in old(Streams) ==> s.Received == old(s.Received) + Taken(old(Connections), event, s)
      ensures forall s :: s in Streams - old(Streams) ==> s.Received == []
    {
      hide NoRepeats, MayConnect, PolicyOf, Without, InOrder, Admitted, PairOut, PairStart;
      ListenerFirst();
      ghost var j := event.choice % |Connections|;
      var s := Connections[event.choice % |Connections|];
      if s == Listener {
        AcceptClient(event.info, event.users);
      } else {
        PeerAt(j);
        Process(s, event.bytes, j);
      }
    }

    lemma ListenerFirst()
      requires Valid()
      ensures Connections != [] && Connections[0] == Listener
      ensures forall j :: 1 <= j < |Connections| ==> Connections[j] != Listener
    {
    }

    /** What rounds that start with the lists in trace read from a stream. */
    function Collected(trace: seq<seq<Stream>>, events: seq<Event>, s: Stream): seq<byte>
      requires |trace| >= |events|
    {
      if events == [] then []
      else
        var n := |events| - 1;
        Collected(trace[..n], events[..n], s) + Taken(trace[n], events[n], s)
    }

    /** A run of the loop, by the lists before its rounds and after the last. */
    ghost predicate Run(trace: seq<seq<Stream>>, events: seq<Event>) {
      |trace| == |events| + 1 && forall i :: 0 <= i < |events| ==> Round(trace[i], trace[i + 1], events[i])
    }

    /**
     The loop of SSLServer, over any events. What every stream has received is what the rounds that chose it read, in
     order, and by Valid its peer has been sent exactly that.
     */
    method Loop(events: seq<Event>) returns (ghost trace: seq<seq<Stream>>)
      requires Valid()
      modifies this, Streams
      ensures Valid() && Grown(old(Streams))
      ensures old(Streams) <= Streams && fresh(Streams - old(Streams))
      ensures Run(trace, events) && trace[0] == old(Connections) && trace[|events|] == Connections
      ensures forall s :: s in old(Streams) ==> s.Received == old(s.Received) + Collected(trace, events, s)
    {
      hide NoRepeats, Valid, Run, Round, Collected, Taken;
      trace := [Connections];
      assert events[..0] == [];
      NoRounds(trace);
      for i := 0 to |events|
        invariant Valid() && Grown(old(Streams))
        invariant old(Streams) <= Streams && fresh(Streams - old(Streams))
        invariant Run(trace, events[..i]) && |trace| == i + 1 && trace[0] == old(Connections) && trace[i] == Connections
        invariant forall s :: s in old(Streams) ==> s.Received == old(s.Received) + Collected(trace, events[..i], s)
      {
        Serve(events[i]);
        assert events[..i + 1] == events[..i] + [events[i]];
        RunMore(trace, events[..i], Connections, events[i]);
        forall s | s in old(Streams)
          ensures Collected(trace + [Connections], events[..i + 1], s)
              == Collected(trace, events[..i], s) + Taken(trace[i], events[i], s)
        {
          CollectedMore(trace, events[..i], Connections, events[i], s);
        }
        trace := trace + [Connections];
      }
      assert events[..|events|] == events;
    }

    lemma NoRounds(trace: seq<seq<Stream>>)
      requires |trace| == 1
      ensures Run(trace, []) && forall s :: Collected(trace, [], s) == []
    {
    }

    lemma RunMore(trace: seq<seq<Stream>>, events: seq<Event>, next: seq<Stream>, e: Event)
      requires Run(trace, events) && Round(trace[|events|], next, e)
      ensures Run(trace + [next], events + [e])
    {
      hide Round;
    }

    lemma CollectedMore(trace: seq<seq<Stream>>, events: seq<Event>, next: seq<Stream>, e: Event, s: Stream)
      requires |trace| == |events| + 1
      ensures Collected(trace + [next], events + [e], s) == Collected(trace, events, s) + Taken(trace[|events|], e, s)
    {
      hide Taken;
      var n := |events|;
      assert (events + [e])[..n] == events && (trace + [next])[..n] == trace[..n];
      CollectedPrefix(trace, events, s);
    }

    /** Lists behind those that the rounds start with do not matter. */
    lemma CollectedPrefix(trace: seq<seq<Stream>>, events: seq<Event>, s: Stream)
      requires |trace| >= |events|
      ensures Collected(trace[..|events|], events, s) == Collected(trace, events, s)
    {
      hide Taken;
      if events != [] {
        var n := |events| - 1;
        assert trace[..|events|][..n] == trace[..n];
      }
    }
  }

  /** What a round finds: which stream is ready, what reading from it yields, and who would be accepted. */
  datatype Event = Event(choice: nat, bytes: seq<byte>, info: ClientInfo, users: set<string>)
}
