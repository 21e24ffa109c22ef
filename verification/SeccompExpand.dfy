/**
 Group expansion on the text of a rule's name list: two rounds of lookup, then the names of the second
 round that are new, added to the first.
 */
module SeccompExpand {
  import opened Text
  import opened SeccompGroups

  /** SyscallGroupLookup: a group's members as a list, or the name itself. */
  function SyscallGroupLookup(name: string): string {
    Join(Members(name), ';')
  }

  function LookupAll(names: seq<string>): seq<string> {
    if names == [] then [] else [SyscallGroupLookup(names[0])] + LookupAll(names[1..])
  }

  function ExpandOnce(list: string): string {
    Terminated(LookupAll(Tokens(list, ';')), ';')
  }

  function AddUnique(list: string, item: string): string {
    if item in Tokens(list, ';') then list
    else if list == "" then item
    else list + [';'] + item
  }

  function AddAllUnique(list: string, items: seq<string>): string
    decreases |items|
  {
    if items == [] then list else AddAllUnique(AddUnique(list, items[0]), items[1..])
  }

  /**
   SeccompExpand. The buffer still holds the first round when the unique names of the second are added
   to it, so the result is the first round followed by what the second round has new.
   */
  function Expand(list: string): string {
    var once := ExpandOnce(list);
    AddAllUnique(once, Tokens(ExpandOnce(once), ';'))
  }

  // ---------------------------------------------------------------- expansion as text and as names

  lemma {:induction false} JoinLast(items: seq<string>, c: char)
    requires items != [] && Clean(items, c)
    ensures Join(items, c) != "" && Join(items, c)[|Join(items, c)| - 1] != c
  {
    if |items| > 1 {
      JoinLast(items[1..], c);
    } else {
      var last := items[0][|items[0]| - 1];
      assert last in items[0];
    }
  }

  /** A looked-up entry, closed by its separator, reads back as the names it stands for. */
  lemma LookupTokens(n: string)
    requires ';' !in n
    ensures Tokens(SyscallGroupLookup(n) + [';'], ';') == Members(n)
  {
    hide Members, Tokens;
    MembersOf(n);
    if Members(n) == [n] {
      assert Join([n], ';') == n;
      TokensOfTerminatedOne(n, ';');
    } else {
      assert Clean(Members(n), ';');
      JoinLast(Members(n), ';');
      TokensOfJoin(Members(n), ';');
      TokensClose(SyscallGroupLookup(n), ';');
    }
  }

  lemma {:induction false} TerminatedLookups(names: seq<string>)
    requires forall n :: n in names ==> ';' !in n
    ensures Tokens(Terminated(LookupAll(names), ';'), ';') == ExpandNames(names)
  {
    hide SyscallGroupLookup, Members, Tokens;
    if names == [] {
      NoTokens(';');
    } else {
      LookupTokens(names[0]);
      TerminatedLookups(names[1..]);
      TokensConcat(SyscallGroupLookup(names[0]) + [';'], ';', Terminated(LookupAll(names[1..]), ';'));
    }
  }

  /** One round on the text is one round on the names. */
  lemma ExpandOnceTokens(list: string)
    ensures Tokens(ExpandOnce(list), ';') == ExpandNames(Tokens(list, ';'))
  {
    hide Tokens;
    TokensAreFree(list, ';');
    TerminatedLookups(Tokens(list, ';'));
  }

  lemma AddUniqueKeepsNames(list: string, item: string, t: string)
    requires ';' !in item && t != ""
    ensures t in Tokens(AddUnique(list, item), ';') <==> t in Tokens(list, ';') || t == item
  {
    hide Tokens;
    NoTokens(';');
    if item !in Tokens(list, ';') {
      if list == "" {
        if item != "" { TokensOfOne(item, ';'); }
      } else if item != "" {
        TokensAppend(list, ';', item);
      } else {
        assert list + [';'] + item == list + [';'];
        if list[|list| - 1] == ';' {
          TokensConcat(list, ';', [';']);
          TokensOfTerminatedOne("", ';');
          assert "" + [';'] == [';'];
        } else {
          TokensClose(list, ';');
        }
      }
    }
  }

  lemma {:induction false} AddAllUniqueNames(list: string, items: seq<string>, t: string)
    requires t != "" && forall i :: 0 <= i < |items| ==> ';' !in items[i]
    ensures t in Tokens(AddAllUnique(list, items), ';') <==> t in Tokens(list, ';') || t in items
    decreases |items|
  {
    hide Tokens, AddUnique;
    if items != [] {
      AddUniqueKeepsNames(list, items[0], t);
      AddAllUniqueNames(AddUnique(list, items[0]), items[1..], t);
      assert items == [items[0]] + items[1..];
    }
  }

  /** The names in an expanded list are those of the second round of lookups. */
  lemma ExpandNamesOf(list: string, t: string)
    requires t != ""
    ensures t in Tokens(Expand(list), ';') <==> t in ExpandNames(ExpandNames(Tokens(list, ';')))
  {
    hide Tokens, ExpandOnce, ExpandNames, AddAllUnique;
    var once := ExpandOnce(list);
    var twice := Tokens(ExpandOnce(once), ';');
    TokensAreFree(ExpandOnce(once), ';');
    AddAllUniqueNames(once, twice, t);
    ExpandOnceTokens(list);
    ExpandOnceTokens(once);
    TwoRoundsClose(Tokens(list, ';'), t);
  }

  /** Expanding an expanded list finds no further name, and loses none. */
  lemma ExpansionCloses(list: string, t: string)
    requires t != ""
    ensures t in ExpandNames(Tokens(Expand(list), ';')) <==> t in Tokens(Expand(list), ';')
  {
    hide Tokens, ExpandNames, Expand, Members;
    var e2 := ExpandNames(ExpandNames(Tokens(list, ';')));
    ExpandNamesOf(list, t);
    TwoRoundsClose(Tokens(list, ';'), t);
    InExpandNames(Tokens(Expand(list), ';'), t);
    InExpandNames(e2, t);
    if n :| n in Tokens(Expand(list), ';') && t in Members(n) {
      EmptyName(n, t);
      ExpandNamesOf(list, n);
    }
    if n :| n in e2 && t in Members(n) {
      EmptyName(n, t);
      ExpandNamesOf(list, n);
    }
  }

  lemma EmptyName(n: string, t: string)
    requires t in Members(n) && t != ""
    ensures n != ""
  {
    NoMembersOfEmpty();
  }

  lemma NoMembersOfEmpty()
    ensures Members("") == [""]
  {
  }
}
