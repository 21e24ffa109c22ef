/**
 Credentials in the secure store: realm, user and secret as fields that end in a colon, colons inside them quoted.
 A lookup finds the first record whose realm and user start with what it was given.
 */
module Credentials {
  import opened Bytes
  import opened Wrappers
  import opened SecureMem

  const COLON: byte := 58
  const BACKSLASH: byte := 92

  /** QuoteCharsInStr with the colon as the only character to quote. */
  function Quoted(s: seq<byte>): seq<byte> {
    if s == [] then []
    else (if s[0] == COLON then [BACKSLASH, COLON] else [s[0]]) + Quoted(s[1..])
  }

  predicate Clean(s: seq<byte>) { 0 !in s && BACKSLASH !in s }

  datatype Cred = Cred(realm: seq<byte>, user: seq<byte>, secret: seq<byte>)

  predicate CleanCred(c: Cred) { Clean(c.realm) && Clean(c.user) && Clean(c.secret) }

  /** The text of a record. */
  function Line(c: Cred): seq<byte> {
    Quoted(c.realm) + [COLON] + Quoted(c.user) + [COLON] + Quoted(c.secret) + [COLON]
  }

  // ---------------------------------------------------------------- quoting

  /** A backslash in front of each colon, and a colon behind each field. */
  lemma StoredForm(b: byte, s: seq<byte>, c: Cred)
    ensures Quoted([]) == [] && Quoted([b] + s) == (if b == 58 then [92, 58] else [b]) + Quoted(s)
    ensures Line(c) == Quoted(c.realm) + [58] + Quoted(c.user) + [58] + Quoted(c.secret) + [58]
  {
    assert ([b] + s)[1..] == s;
  }

  lemma {:induction false} QuotedAppend(a: seq<byte>, b: seq<byte>)
    ensures Quoted(a + b) == Quoted(a) + Quoted(b)
  {
    if a == [] {
      assert a + b == b;
    } else {
      assert (a + b)[1..] == a[1..] + b;
      QuotedAppend(a[1..], b);
    }
  }

  lemma {:induction false} QuotedPlain(s: seq<byte>)
    ensures COLON !in s ==> Quoted(s) == s
    ensures Quoted(s) == [] <==> s == []
    ensures 0 !in s ==> 0 !in Quoted(s)
    ensures s != [] ==> Quoted(s)[0] != COLON
  {
    if s != [] {
      QuotedPlain(s[1..]);
    }
  }

  /** What a lookup hands out is the secret as it was added exactly when that has no colon. */
  lemma {:induction false} QuotedIsItself(s: seq<byte>)
    ensures |Quoted(s)| >= |s| && (|Quoted(s)| == |s| <==> COLON !in s)
    ensures Quoted(s) == s <==> COLON !in s
  {
    QuotedPlain(s);
    if s != [] {
      QuotedIsItself(s[1..]);
    }
  }

  /** Starting with a quoted text is the same as starting with the text. */
  lemma {:induction false} QuotedPrefix(a: seq<byte>, b: seq<byte>)
    requires BACKSLASH !in a && BACKSLASH !in b
    ensures Quoted(a) <= Quoted(b) <==> a <= b
  {
    if a != [] && b != [] {
      QuotedPrefix(a[1..], b[1..]);
      if a[0] == b[0] {
        var h := if a[0] == COLON then [BACKSLASH, COLON] else [a[0]];
        assert Quoted(a) == h + Quoted(a[1..]) && Quoted(b) == h + Quoted(b[1..]);
        assert Quoted(a)[|h|..] == Quoted(a[1..]) && Quoted(b)[|h|..] == Quoted(b[1..]);
        PrefixBehind(h, Quoted(a[1..]), Quoted(b[1..]));
        assert a == [a[0]] + a[1..] && b == [b[0]] + b[1..];
        PrefixBehind([a[0]], a[1..], b[1..]);
      } else {
        assert Quoted(a)[0] != Quoted(b)[0];
      }
    }
  }

  lemma PrefixBehind(h: seq<byte>, a: seq<byte>, b: seq<byte>)
    ensures h + a <= h + b <==> a <= b
  {
    assert (h + a)[|h|..] == a && (h + b)[|h|..] == b;
    if |a| <= |b| {
      assert (h + b)[..|h + a|] == h + b[..|a|];
      assert h + b[..|a|] == h + a ==> b[..|a|] == (h + b[..|a|])[|h|..];
    }
  }

  /** A quoted query that agrees with a quoted field to its end does not go on with a colon. */
  lemma NoColonFollows(q: seq<byte>, f: seq<byte>)
    requires BACKSLASH !in q && BACKSLASH !in f && Quoted(f) <= Quoted(q) && |Quoted(f)| < |Quoted(q)|
    ensures Quoted(q)[|Quoted(f)|] != COLON
  {
    QuotedPrefix(f, q);
    QuotedAppend(f, q[|f|..]);
    assert q == f + q[|f|..];
    QuotedPlain(q[|f|..]);
  }

  // ---------------------------------------------------------------- scanning fields

  /** traverse_until with a colon, on the bytes of the store from a position on. */
  function Traverse(mem: seq<byte>, at: nat): (end: nat)
    requires at <= |mem|
    ensures at <= end <= |mem|
    decreases |mem| - at
  {
    if at == |mem| || mem[at] == COLON || mem[at] == 0 then at
    else if mem[at] == BACKSLASH && at + 1 < |mem| && mem[at + 1] != 0 then Traverse(mem, at + 2)
    else Traverse(mem, at + 1)
  }

  /** The end of a quoted field is found at the colon behind it. */
  lemma {:induction false} TraverseField(mem: seq<byte>, at: nat, f: seq<byte>)
    requires Clean(f) && at + |Quoted(f)| < |mem|
    requires mem[at..at + |Quoted(f)|] == Quoted(f) && mem[at + |Quoted(f)|] == COLON
    ensures Traverse(mem, at) == at + |Quoted(f)|
    decreases |f|
  {
    if f != [] {
      var h := if f[0] == COLON then 2 else 1;
      assert Quoted(f)[h..] == Quoted(f[1..]);
      assert mem[at + h..at + |Quoted(f)|] == mem[at..at + |Quoted(f)|][h..];
      assert mem[at] == mem[at..at + |Quoted(f)|][0];
      assert h == 2 ==> mem[at + 1] == mem[at..at + |Quoted(f)|][1];
      TraverseField(mem, at + h, f[1..]);
    }
  }

  /** traverse_until on memory that holds a terminator. */
  method TraverseUntil(mem: array<byte>, at: nat) returns (end: nat)
    requires at <= mem.Length && Traverse(mem[..], at) < mem.Length
    ensures end == Traverse(mem[..], at)
  {
    end := at;
    while mem[end] != COLON && mem[end] != 0
      invariant at <= end < mem.Length && Traverse(mem[..], end) == Traverse(mem[..], at)
      decreases mem.Length - end
    {
      if mem[end] == BACKSLASH && mem[end + 1] != 0 { end := end + 1; }
      end := end + 1;
    }
  }

  /** strncmp over the length of the query, zero or not: does the memory go on with the query? */
  method Compare(mem: array<byte>, at: nat, query: seq<byte>, ghost f: seq<byte>) returns (same: bool)
    requires BACKSLASH !in query && Clean(f) && at + |Quoted(f)| < mem.Length
    requires mem[at..at + |Quoted(f)|] == Quoted(f) && mem[at + |Quoted(f)|] == COLON
    ensures same <==> query <= f
  {
    var q := Quoted(query);
    ghost var field := mem[at..at + |Quoted(f)|];
    QuotedPrefix(query, f);
    QuotedPrefix(f, query);
    var i := 0;
    while i < |q|
      invariant 0 <= i <= |q| && i <= |field| && q[..i] == field[..i]
    {
      if i == |field| {
        assert field == Quoted(f) == q[..i];
        NoColonFollows(query, f);
      }
      if mem[at + i] != q[i] {
        assert i < |field| ==> field[i] == mem[at + i];
        return false;
      }
      assert field[i] == mem[at + i];
      i := i + 1;
    }
    assert q[..i] == q;
    same := true;
  }

  /** SecureStoreFieldMatch: the field at a position against a query, and the position behind the field. */
  method FieldMatch(mem: array<byte>, at: nat, query: seq<byte>, ghost f: seq<byte>) returns (ok: bool, next: nat)
    requires BACKSLASH !in query && Clean(f) && at + |Quoted(f)| < mem.Length
    requires mem[at..at + |Quoted(f)|] == Quoted(f) && mem[at + |Quoted(f)|] == COLON
    ensures ok <==> query != [] && query <= f
    ensures next == if query == [] then at else at + |Quoted(f)| + 1
  {
    QuotedPlain(query);
    if |Quoted(query)| == 0 {
      return false, at;
    }
    assert mem[..][at..at + |Quoted(f)|] == mem[at..at + |Quoted(f)|];
    TraverseField(mem[..], at, f);
    var end := TraverseUntil(mem, at);
    ok := Compare(mem, at, query, f);
    if mem[end] == COLON { end := end + 1; }
    next := end;
  }

  /** CredsStoreWriteField */
  method WriteField(mem: array<byte>, at: nat, field: seq<byte>) returns (next: nat)
    requires at + |field| < mem.Length
    modifies mem
    ensures next == at + |field| + 1
    ensures mem[..next] == old(mem[..at]) + field + [COLON]
  {
    CopyIn(mem, at, field);
    next := at + |field|;
    mem[next] := COLON;
    next := next + 1;
  }

  // ---------------------------------------------------------------- the credentials store

  predicate Asked(c: Cred, realm: seq<byte>, user: seq<byte>) {
    realm != [] && user != [] && realm <= c.realm && user <= c.user
  }

  /** The plain search: the first entry that starts with what was asked for. */
  function Find(entries: seq<Cred>, realm: seq<byte>, user: seq<byte>): Option<Cred> {
    if entries == [] then None
    else if Asked(entries[0], realm, user) then Some(entries[0])
    else Find(entries[1..], realm, user)
  }

  lemma {:induction false} FindStops(entries: seq<Cred>, realm: seq<byte>, user: seq<byte>, k: nat)
    requires k <= |entries| && forall i :: 0 <= i < k ==> !Asked(entries[i], realm, user)
    requires k < |entries| ==> Asked(entries[k], realm, user)
    ensures Find(entries, realm, user) == if k < |entries| then Some(entries[k]) else None
  {
    if k > 0 {
      FindStops(entries[1..], realm, user, k - 1);
    }
  }

  /**
   What is found: the first entry whose realm and user begin with those asked for, neither of which may be empty; and
   nothing only if there is no such entry.
   */
  lemma {:induction false} FindIsFirst(entries: seq<Cred>, realm: seq<byte>, user: seq<byte>) returns (k: nat)
    ensures k <= |entries| && Find(entries, realm, user) == if k < |entries| then Some(entries[k]) else None
    ensures k < |entries| ==> && 0 < |realm| <= |entries[k].realm| && entries[k].realm[..|realm|] == realm
                              && 0 < |user| <= |entries[k].user| && entries[k].user[..|user|] == user
    ensures forall i :: 0 <= i < k ==>
              || realm == [] || user == []
              || |entries[i].realm| < |realm| || entries[i].realm[..|realm|] != realm
              || |entries[i].user| < |user| || entries[i].user[..|user|] != user
    decreases |entries|
  {
    if entries == [] || Asked(entries[0], realm, user) {
      k := 0;
    } else {
      k := FindIsFirst(entries[1..], realm, user);
      assert forall i :: 0 < i < k + 1 ==> entries[i] == entries[1..][i - 1];
      k := k + 1;
    }
  }

  lemma LineParts(c: Cred)
    ensures |Line(c)| == |Quoted(c.realm)| + |Quoted(c.user)| + |Quoted(c.secret)| + 3
  {
  }

  /** A field in memory, and what comes behind its colon. */
  lemma FieldAt(mem: seq<byte>, at: nat, field: seq<byte>, rest: seq<byte>)
    requires at + |field| + 1 + |rest| <= |mem|
    requires mem[at..at + |field| + 1 + |rest|] == field + [COLON] + rest
    ensures mem[at..at + |field|] == field && mem[at + |field|] == COLON
    ensures mem[at + |field| + 1..at + |field| + 1 + |rest|] == rest
  {
    var m := mem[at..at + |field| + 1 + |rest|];
    assert m[..|field|] == field && m[|field|] == COLON && m[|field| + 1..] == rest;
    assert mem[at..at + |field|] == m[..|field|];
    assert mem[at + |field| + 1..at + |field| + 1 + |rest|] == m[|field| + 1..];
  }

  lemma LineNests(c: Cred)
    ensures Line(c) == Quoted(c.realm) + [COLON] + (Quoted(c.user) + [COLON] + (Quoted(c.secret) + [COLON] + []))
  {
    hide Quoted;
  }

  /** The fields of a line that lies at a position in memory. */
  lemma LineFields(mem: seq<byte>, at: nat, c: Cred)
    requires at + |Line(c)| <= |mem| && mem[at..at + |Line(c)|] == Line(c)
    ensures var u := at + |Quoted(c.realm)| + 1;
            var s := u + |Quoted(c.user)| + 1;
            && mem[at..u - 1] == Quoted(c.realm) && mem[u - 1] == COLON
            && mem[u..s - 1] == Quoted(c.user) && mem[s - 1] == COLON
            && mem[s..s + |Quoted(c.secret)|] == Quoted(c.secret) && mem[s + |Quoted(c.secret)|] == COLON
            && at + |Line(c)| == s + |Quoted(c.secret)| + 1
  {
    hide *;
    var r, u, s := Quoted(c.realm), Quoted(c.user), Quoted(c.secret);
    LineNests(c);
    FieldAt(mem, at, r, u + [COLON] + (s + [COLON] + []));
    FieldAt(mem, at + |r| + 1, u, s + [COLON] + []);
    FieldAt(mem, at + |r| + 1 + |u| + 1, s, []);
  }

  /** The three fields of a line, one behind the other. */
  method WriteLine(mem: array<byte>, at: nat, c: Cred)
    requires at + |Line(c)| <= mem.Length
    modifies mem
    ensures mem[..at + |Line(c)|] == old(mem[..at]) + Line(c)
  {
    hide Quoted;
    var ptr := WriteField(mem, at, Quoted(c.realm));
    ptr := WriteField(mem, ptr, Quoted(c.user));
    ptr := WriteField(mem, ptr, Quoted(c.secret));
    assert ptr == at + |Line(c)|;
  }

  /** Both fields of an entry against the query; the position of its secret if they match. */
  method Matches(mem: array<byte>, at: nat, realm: seq<byte>, user: seq<byte>, ghost c: Cred)
    returns (found: bool, secret: nat)
    requires CleanCred(c) && BACKSLASH !in realm && BACKSLASH !in user
    requires at + |Line(c)| <= mem.Length && mem[at..at + |Line(c)|] == Line(c)
    ensures found <==> Asked(c, realm, user)
    ensures found ==> secret + |Quoted(c.secret)| < mem.Length
    ensures found ==> mem[secret..secret + |Quoted(c.secret)|] == Quoted(c.secret)
    ensures found ==> mem[secret + |Quoted(c.secret)|] == COLON
  {
    hide Quoted;
    assert mem[..][at..at + |Line(c)|] == Line(c);
    LineFields(mem[..], at, c);
    var next;
    found, next := FieldMatch(mem, at, realm, c.realm);
    if found {
      found, next := FieldMatch(mem, next, user, c.user);
    }
    secret := next;
  }

  /** traverse_until over the secret. */
  method SecretLength(mem: array<byte>, at: nat, ghost c: Cred) returns (len: nat)
    requires CleanCred(c) && at + |Quoted(c.secret)| < mem.Length
    requires mem[at..at + |Quoted(c.secret)|] == Quoted(c.secret) && mem[at + |Quoted(c.secret)|] == COLON
    ensures len == |Quoted(c.secret)|
  {
    hide Quoted, Traverse;
    assert mem[..][at..at + |Quoted(c.secret)|] == Quoted(c.secret);
    TraverseField(mem[..], at, c.secret);
    var end := TraverseUntil(mem, at);
    len := end - at;
  }

  lemma RecordInMemory(mem: array<byte>, used: nat, records: seq<record>, k: nat)
    requires used <= mem.Length && mem[..used] == Encode(records) && k < |records|
    ensures var at := Offset(records, k) + 4;
            at + |records[k]| <= mem.Length && mem[at..at + |records[k]|] == records[k]
  {
    HeaderAt(records, k);
    var at := Offset(records, k) + 4;
    assert mem[at..at + |records[k]|] == mem[..used][at..at + |records[k]|];
  }

  /** Room for a line, and the line written into it. */
  method AddLine(store: SecureStore, c: Cred, pageSize: nat)
    requires store.Valid() && pageSize > 0 && |Line(c)| < WORD
    modifies store, store.Data
    ensures store.Valid() && store.Records == old(store.Records) + [Line(c)]
    ensures store.Data == old(store.Data) || fresh(store.Data)
  {
    hide Quoted, Encode, Word, Line;
    LineParts(c);
    ghost var before := store.Records;
    var len := |Quoted(c.realm)| + |Quoted(c.user)| + |Quoted(c.secret)| + 3;
    var at := store.Add(None, len, pageSize);
    ghost var room := store.Records[|before|];
    assert store.Records == before + [room];
    EncodeNext(before, room);
    assert store.Data[..at] == store.Data[..store.Used][..at] == Encode(before) + Word(len);
    WriteLine(store.Data, at, c);
    store.Rewritten(before, Line(c));
  }

  class CredsStore {
    var Store: SecureStore?
    ghost var Entries: seq<Cred>

    ghost predicate Valid()
      reads this, Store, if Store == null then {} else {Store.Data}
    {
      && (forall i :: 0 <= i < |Entries| ==> CleanCred(Entries[i]))
      && (if Store == null then Entries == [] else Store.Valid() && Logs(Store.Records, Entries))
    }

    constructor ()
      ensures Valid() && Entries == [] && Store == null
    {
      Store, Entries := null, [];
    }

    /** CredsStoreAdd */
    method Add(realm: seq<byte>, user: seq<byte>, secret: seq<byte>, pageSize: nat)
      requires Valid() && pageSize > 0 && CleanCred(Cred(realm, user, secret))
          && |Line(Cred(realm, user, secret))| < WORD
      modifies this, Store, if Store == null then null else Store.Data
      ensures Valid() && Entries == old(Entries) + [Cred(realm, user, secret)]
    {
      hide Quoted, Encode, CleanCred, Line, Logs;
      var c := Cred(realm, user, secret);
      if Store == null {
        Store := new SecureStore();
      }
      ghost var before := Store.Records;
      AddLine(Store, c, pageSize);
      LogsNext(before, Entries, c);
      Entries := Entries + [c];
    }

    /** Whether the entry in line k is the one asked for, and where its secret lies. */
    method TryLine(line: nat, realm: seq<byte>, user: seq<byte>, ghost k: nat)
      returns (found: bool, len: nat, at: nat)
      requires Valid() && Store != null && k < |Entries| && line == Offset(Store.Records, k) + 4
      requires BACKSLASH !in realm && BACKSLASH !in user
      ensures Valid() && found == Asked(Entries[k], realm, user)
      ensures found ==> Store != null && Store.Data != null && len == |Quoted(Entries[k].secret)|
      ensures found ==> at + len <= Store.Data.Length && Store.Data[at..at + len] == Quoted(Entries[k].secret)
    {
      hide Quoted, Encode, Word, Line, CleanCred, Framed, WordAt, Traverse;
      len := 0;
      HeaderAt(Store.Records, k);
      RecordInMemory(Store.Data, Store.Used, Store.Records, k);
      LineParts(Entries[k]);
      found, at := Matches(Store.Data, line, realm, user, Entries[k]);
      if found {
        len := SecretLength(Store.Data, at, Entries[k]);
      }
    }

    /** CredsStoreLookup: where the secret lies and how long it is, quoted as it is stored. */
    method Lookup(realm: seq<byte>, user: seq<byte>) returns (len: nat, pass: Option<nat>)
      requires Valid() && BACKSLASH !in realm && BACKSLASH !in user
      ensures Valid()
      ensures match Find(Entries, realm, user)
              case None => pass == None && len == 0
              case Some(c) =>
                && pass.Some? && len == |Quoted(c.secret)|
                && Store != null && Store.Data != null && pass.value + len <= Store.Data.Length
                && Store.Data[pass.value..pass.value + len] == Quoted(c.secret)
    {
      hide Quoted, Encode, Word, Line, Find, CleanCred, Framed, WordAt, Traverse, Offset;
      if Store == null {
        FindStops(Entries, realm, user, 0);
        return 0, None;
      }
      ghost var k := 0;
      var length, line := Store.GetNext(None, 0);
      if k < |Entries| { LineParts(Entries[k]); }
      while length > 0
        invariant length > 0 <==> k < |Entries|
        invariant Valid() && Store != null && 0 <= k <= |Entries|
        invariant forall i :: 0 <= i < k ==> !Asked(Entries[i], realm, user)
        invariant k < |Entries| ==> length == |Line(Entries[k])| && line == Some(Offset(Store.Records, k) + 4)
        invariant k >= |Entries| ==> length == 0
        decreases |Entries| - k
      {
        HeaderAt(Store.Records, k);
        var found, n, at := TryLine(line.value, realm, user, k);
        if found {
          FindStops(Entries, realm, user, k);
          return n, Some(at);
        }
        k := k + 1;
        length, line := Store.GetNext(Some(line.value + length), k);
        if k < |Entries| { LineParts(Entries[k]); }
      }
      FindStops(Entries, realm, user, k);
      return 0, None;
    }
  }

  lemma LogsNext(records: seq<record>, entries: seq<Cred>, c: Cred)
    requires Logs(records, entries) && |Line(c)| < WORD
    ensures Logs(records + [Line(c)], entries + [c])
  {
  }

  /** The log holds the lines of the entries. */
  ghost predicate Logs(records: seq<record>, entries: seq<Cred>) {
    |records| == |entries| && forall i :: 0 <= i < |entries| ==> records[i] == Line(entries[i])
  }
}
