/**
 Looking an item up by name: a shortcut to the last item, a cached item, a rewind and a scan that may run on into later
 chains. As long as namesakes stand together, all of this finds what a plain search from the front would.
 */
module ListFind {
  import opened Lists
  import opened ListMap
  import Text

  /** strcmp or strcasecmp, as the list's flags ask; a missing name equals an empty one. */
  predicate Same(flags: set<Flag>, a: string, b: string) {
    if Case in flags then a == b else Text.EqNoCase(a, b)
  }

  predicate IsMatch(n: ListNode, flags: set<Flag>, name: string)
    reads n
  {
    Same(flags, n.Tag, name)
  }

  /** Namesakes stand together in a chain; in particular there may be just one. */
  ghost predicate Together(nodes: seq<ListNode>, flags: set<Flag>, name: string)
    reads nodes
  {
    forall i, j, k :: 1 <= i < j < k < |nodes| && IsMatch(nodes[i], flags, name) && IsMatch(nodes[k], flags, name)
      ==> IsMatch(nodes[j], flags, name)
  }

  ghost predicate NoneBefore(nodes: seq<ListNode>, flags: set<Flag>, name: string, k: nat)
    reads nodes
  {
    forall i :: 1 <= i < |nodes| && i < k ==> !IsMatch(nodes[i], flags, name)
  }

  /** ListConsiderInsertPoint without ordering: a named item, not the head, whose name compares equal. */
  predicate Consider(head: ListNode, n: ListNode?, name: string)
    reads head, n
  {
    n != null && n != head && n.Tag != "" && Same(head.Flags, n.Tag, name)
  }

  /** Flags of a list that is not kept in order and whose items do not time out. */
  predicate Unsorted(flags: set<Flag>) {
    flags !! {Ordered, Timeout}
  }

  /** Where the insert-point search stops: among the namesakes, or with none of them in front. */
  ghost predicate StopsAt(nodes: seq<ListNode>, flags: set<Flag>, name: string, k: nat)
    reads nodes
  {
    && k < |nodes| && (k == 0 ==> |nodes| == 1)
    && (NoneBefore(nodes, flags, name, k) || (k > 0 && IsMatch(nodes[k], flags, name)))
  }

  /** A node at which the insert-point search may stop. */
  ghost predicate StopsAtNode(nodes: seq<ListNode>, flags: set<Flag>, name: string, r: ListNode)
    reads nodes
  {
    exists k :: 0 <= k < |nodes| && r == nodes[k] && StopsAt(nodes, flags, name, k)
  }

  /** ListFindNamedItemInsert on a chain: the shortcuts, then the walk. */
  method FindInChain(root: ListNode, head: ListNode, name: string, ghost nodes: seq<ListNode>)
    returns (r: ListNode, ghost k: nat)
    requires Chain(nodes) && nodes[0] == head && name != "" && head.Tag == ""
    requires MapChain in head.Flags || head.Head == head
    requires Unsorted(head.Flags) && Unsorted(root.Flags) && Together(nodes, head.Flags, name)
    ensures k < |nodes| && r == nodes[k] && StopsAt(nodes, head.Flags, name, k)
    ensures StopsAtNode(nodes, head.Flags, name, r)
  {
    hide Together, Same;
    if Consider(head, head.Prev, name) {
      k := |nodes| - 1;
      return head.Prev, k;
    }
    var prev: ListNode?, curr := head, head.Next;
    ghost var j := 1;
    if Cache in root.Flags && head.Side != null && head.Side.Tag != "" {
      if Consider(head, head.Side, name) {
        curr := head.Side;
        prev := curr.Prev;
        j :| 1 <= j < |nodes| && nodes[j] == curr;
      }
    }
    while curr != null
      invariant 1 <= j <= |nodes| && prev == nodes[j - 1]
      invariant curr == if j < |nodes| then nodes[j] else null
      invariant NoneBefore(nodes, head.Flags, name, j)
          || (j < |nodes| && IsMatch(nodes[j], head.Flags, name) && nodes[j].Tag != "")
      decreases |nodes| - j
    {
      var next := curr.Next;
      if curr.Tag != "" {
        if Consider(head, curr, name) {
          if MapChain in prev.Flags || prev == curr.Head {
            k := j;
            return curr, k;
          }
          k := j - 1;
          NamesakeInFront(nodes, head.Flags, name, j);
          return prev, k;
        }
      }
      HeadIsNoMatch(curr.Tag, head.Flags, name, curr.Tag == "");
      prev := curr;
      curr := next;
      j := j + 1;
    }
    k := j - 1;
    return prev, k;
  }

  /** Back over namesakes to the first of them. From an empty chain's head there is nowhere to go. */
  method Rewind(start: ListNode, head: ListNode, name: string, flags: set<Flag>, ghost nodes: seq<ListNode>,
                ghost k: nat)
    returns (node: ListNode, ghost j: nat)
    requires Chain(nodes) && k < |nodes| && start == nodes[k] && (Case in flags <==> Case in head.Flags)
    requires if k == 0 then |nodes| == 1 && head != start && start.Tag == "" else head == nodes[0]
    requires name != "" ==> Together(nodes, flags, name) && StopsAt(nodes, flags, name, k)
    requires name == "" ==> k == 1
    ensures k > 0 ==> 1 <= j < |nodes|
    ensures k == 0 ==> j == 0
    ensures node == nodes[j] && NoneBefore(nodes, flags, name, j)
    ensures exists x :: 0 <= x < |nodes| && node == nodes[x] && NoneBefore(nodes, flags, name, x)
  {
    node, j := start, k;
    while node.Prev != head && Consider(head, node.Prev, name)
      invariant j <= k && node == nodes[j] && (k > 0 ==> j > 0)
      invariant name != "" ==> StopsAt(nodes, flags, name, j)
      invariant name == "" ==> j == 1
      decreases j
    {
      node := node.Prev;
      j := j - 1;
    }
    if name != "" && j > 1 {
      NamesakeInFront(nodes, flags, name, j);
    }
  }

  /** A node that is no namesake has no namesakes on both sides. */
  lemma NamesakeInFront(nodes: seq<ListNode>, flags: set<Flag>, name: string, j: nat)
    requires 2 <= j < |nodes| && Together(nodes, flags, name) && StopsAt(nodes, flags, name, j) && name != ""
    ensures IsMatch(nodes[j - 1], flags, name) || NoneBefore(nodes, flags, name, j)
    ensures StopsAt(nodes, flags, name, j - 1)
  {
  }

  // ---------------------------------------------------------------- the scan

  datatype ItemKind = AnyType | OfType(typ: nat)

  predicate TypeFits(kind: ItemKind, typ: nat) {
    kind.AnyType? || kind.typ == typ
  }

  /** An item that the lookup may return. */
  predicate Fitting(n: ListNode, flags: set<Flag>, name: string, kind: ItemKind)
    reads n
  {
    IsMatch(n, flags, name) && TypeFits(kind, n.ItemType)
  }

  /** No item from chain c up to item j of chain i is one to return. */
  ghost predicate Passed(parts: Parts, flags: set<Flag>, name: string, kind: ItemKind, c: nat, i: nat, j: nat)
    reads Nodes(parts)
  {
    forall x, y :: c <= x < |parts| && 1 <= y < |parts[x]| && (x < i || (x == i && y < j))
      ==> !Fitting(parts[x][y], flags, name, kind)
  }

  /** In which chain the walk finds its next item, and that the chains between are empty. */
  lemma {:induction false} FirstFromPlace(parts: Parts, c: nat) returns (i: nat)
    requires HaveHeads(parts)
    ensures c <= i && forall x :: c <= x < i && x < |parts| ==> |parts[x]| == 1
    ensures FirstFrom(parts, c) != null ==> i < |parts| && |parts[i]| > 1 && FirstFrom(parts, c) == parts[i][1]
    ensures FirstFrom(parts, c) == null ==> i >= |parts|
    decreases |parts| - c
  {
    if c >= |parts| || |parts[c]| > 1 {
      i := c;
    } else {
      i := FirstFromPlace(parts, c + 1);
    }
  }

  /** The heads of a map's chains carry the map's own flags. */
  ghost predicate FlagsAgree(m: ListNode, parts: Parts)
    reads m, Nodes(parts)
  {
    HaveHeads(parts) && forall i :: 0 <= i < |parts| ==> parts[i][0].Flags - {MapChain} == m.Flags - {MapHead}
  }

  /** The caller's promise with the flag: a name is given to one item at most. */
  ghost predicate OneName(parts: Parts, flags: set<Flag>, name: string, c: nat)
    reads Nodes(parts)
  {
    forall x, y, v, w {:trigger IsMatch(parts[x][y], flags, name), IsMatch(parts[v][w], flags, name)} ::
      (c <= x < |parts| && 1 <= y < |parts[x]| && c <= v < |parts| && 1 <= w < |parts[v]|
       && IsMatch(parts[x][y], flags, name) && IsMatch(parts[v][w], flags, name))
      ==> (x == v && y == w)
  }

  /** The scan from item j of chain i on, over the rest of the chain and every later one. */
  method Scan(start: ListNode, m: ListNode, name: string, kind: ItemKind, flags: set<Flag>, ghost parts: Parts,
              ghost c: nat, ghost j0: nat)
    returns (r: ListNode?, ghost i: nat, ghost j: nat)
    requires Listing(m, parts) && c < |parts| && j0 < |parts[c]| && start == parts[c][j0]
    requires j0 == 0 ==> name != "" && start.Tag == ""
    requires Passed(parts, flags, name, kind, c, c, j0)
    requires Uniq in flags ==> OneName(parts, flags, name, c)
    ensures r != null ==> c <= i < |parts| && 1 <= j < |parts[i]| && r == parts[i][j]
    ensures r != null ==> Fitting(r, flags, name, kind) && Passed(parts, flags, name, kind, c, i, j)
    ensures r == null ==> Passed(parts, flags, name, kind, c, |parts|, 0)
    ensures Listing(m, parts)
  {
    hide IsList, IsMap, Placed, Same, FirstFrom, TypeFits, Fitting;
    ListingHasHeads(m, parts);
    r, i, j := start, c, j0;
    while r != null
      invariant Listing(m, parts)
      invariant r != null ==> c <= i < |parts| && j < |parts[i]| && r == parts[i][j]
      invariant r != null ==> Passed(parts, flags, name, kind, c, i, j)
      invariant r != null && j == 0 ==> name != "" && r.Tag == ""
      invariant r == null ==> Passed(parts, flags, name, kind, c, |parts|, 0)
      decreases if r == null then 0 else |parts| - i, if r == null then 0 else |parts[i]| - j
    {
      FittingIs(r, flags, name, kind);
      if Same(flags, r.Tag, name) {
        HeadIsNoMatch(r.Tag, flags, name, j == 0);
        if TypeFits(kind, r.ItemType) {
          return;
        }
        if Uniq in flags {
          OneNameMissed(parts, flags, name, kind, c, i, j);
          r := null;
          break;
        }
      }
      ghost var n := FirstFromPlace(parts, i + 1);
      PassedOn(parts, flags, name, kind, c, i, j, n);
      var next := GetNext(r, m, parts, i, j);
      if j + 1 < |parts[i]| {
        j := j + 1;
      } else {
        i, j := n, 1;
      }
      r := next;
    }
  }

  /** What the scan has passed once it leaves item j of chain i; n is where the next chain with items is. */
  lemma PassedOn(parts: Parts, flags: set<Flag>, name: string, kind: ItemKind, c: nat, i: nat, j: nat, n: nat)
    requires Passed(parts, flags, name, kind, c, i, j) && c <= i < |parts| && j < |parts[i]| && i < n
    requires j > 0 ==> !Fitting(parts[i][j], flags, name, kind)
    requires forall x :: i < x < n && x < |parts| ==> |parts[x]| == 1
    ensures Passed(parts, flags, name, kind, c, i, j + 1)
    ensures j + 1 == |parts[i]| ==> Passed(parts, flags, name, kind, c, n, 1)
    ensures j + 1 == |parts[i]| && n >= |parts| ==> Passed(parts, flags, name, kind, c, |parts|, 0)
  {
    hide Fitting;
  }

  lemma FittingIs(n: ListNode, flags: set<Flag>, name: string, kind: ItemKind)
    ensures Fitting(n, flags, name, kind) <==> Same(flags, n.Tag, name) && TypeFits(kind, n.ItemType)
  {
  }

  lemma HeadIsNoMatch(tag: string, flags: set<Flag>, name: string, isHead: bool)
    requires isHead ==> name != "" && tag == ""
    ensures Same(flags, tag, name) ==> !isHead
  {
  }

  lemma OneNameMissed(parts: Parts, flags: set<Flag>, name: string, kind: ItemKind, c: nat, i: nat, j: nat)
    requires OneName(parts, flags, name, c) && c <= i < |parts| && 1 <= j < |parts[i]|
    requires IsMatch(parts[i][j], flags, name) && !TypeFits(kind, parts[i][j].ItemType)
    ensures Passed(parts, flags, name, kind, c, |parts|, 0)
  {
  }

  // ---------------------------------------------------------------- the whole lookup

  /** Remember an item of chain c as the one found last. */
  method SetSide(head: ListNode, node: ListNode, m: ListNode, ghost parts: Parts, ghost c: nat, ghost j: nat)
    requires Listing(m, parts) && c < |parts| && 1 <= j < |parts[c]| && head == parts[c][0] && node == parts[c][j]
    modifies head`Side
    ensures Listing(m, parts) && head.Side == node
  {
    hide FnvHash, Distinct, Total, Disjoint;
    assert node == parts[c][1..][j - 1];
    head.Side := node;
  }

  /** Flags under which a lookup neither reorders nor deletes, and an item found by a map stays in its chain. */
  predicate PlainFlags(flags: set<Flag>) {
    flags !! {SelfOrg, Ordered, Timeout} && (Cache in flags && MapHead in flags ==> Case in flags)
  }

  /** The chain in which the lookup starts. */
  function StartChain(parts: Parts, flags: set<Flag>, name: string): (c: nat)
    requires |parts| > 0
    ensures c < |parts|
  {
    if MapHead in flags then FnvHash(name, |parts|) else 0
  }

  /** Of the flags only Case matters to a comparison. */
  lemma OnlyCaseMatters(nodes: seq<ListNode>, a: set<Flag>, b: set<Flag>, name: string)
    requires Case in a <==> Case in b
    ensures Together(nodes, a, name) <==> Together(nodes, b, name)
    ensures forall k :: StopsAt(nodes, a, name, k) <==> StopsAt(nodes, b, name, k)
    ensures forall r :: StopsAtNode(nodes, a, name, r) <==> StopsAtNode(nodes, b, name, r)
  {
    assert forall t :: Same(a, t, name) <==> Same(b, t, name);
    hide Same;
  }

  /** The head of the chain for a name: the root itself, or one element of its array. */
  lemma StartHead(root: ListNode, parts: Parts, c: nat)
    requires Listing(root, parts) && c < |parts| && FlagsAgree(root, parts)
    ensures |parts[c]| > 0 && Chain(parts[c]) && parts[c][0].Tag == ""
        && (MapChain in parts[c][0].Flags || parts[c][0].Head == parts[c][0])
    ensures SameRules(parts[c][0].Flags, root.Flags)
    ensures Unsorted(root.Flags) ==> Unsorted(parts[c][0].Flags)
    ensures if MapHead in root.Flags
            then |root.Chains| == |parts| + 1 && root.ItemType == |parts| && root.Chains[c] == parts[c][0]
            else c == 0 && root == parts[0][0]
  {
    hide FnvHash, Linked, Distinct, Owned, Total, Disjoint;
    var a, b := parts[c][0].Flags, root.Flags;
    assert Case in a - {MapChain} <==> Case in b - {MapHead};
    assert Cache in a - {MapChain} <==> Cache in b - {MapHead};
    assert Uniq in a - {MapChain} <==> Uniq in b - {MapHead};
    assert Ordered in a - {MapChain} <==> Ordered in b - {MapHead};
    assert Timeout in a - {MapChain} <==> Timeout in b - {MapHead};
  }

  /** ListFindNamedItemInsert: the chain for the name, then the search in it. */
  method FindInsertPoint(root: ListNode, name: string, ghost parts: Parts) returns (r: ListNode, ghost k: nat)
    requires Listing(root, parts) && name != "" && Unsorted(root.Flags)
    requires Together(parts[StartChain(parts, root.Flags, name)], root.Flags, name) && FlagsAgree(root, parts)
    ensures Listing(root, parts)
    ensures var c := StartChain(parts, root.Flags, name);
            k < |parts[c]| && r == parts[c][k] && StopsAt(parts[c], root.Flags, name, k)
              && StopsAtNode(parts[c], root.Flags, name, r)
  {
    hide FnvHash, Together, StopsAt, FlagsAgree, Distinct, Total, Disjoint;
    ghost var c := StartChain(parts, root.Flags, name);
    StartHead(root, parts, c);
    OnlyCaseMatters(parts[c], parts[c][0].Flags, root.Flags, name);
    var head := root;
    if MapHead in root.Flags {
      head := root.Chains[FnvHash(name, root.ItemType)];
    }
    r, k := FindInChain(root, head, name, parts[c]);
  }

  lemma OnlyCaseMattersToFit(parts: Parts, a: set<Flag>, b: set<Flag>, name: string, kind: ItemKind, c: nat)
    requires Case in a <==> Case in b
    ensures OneName(parts, a, name, c) <==> OneName(parts, b, name, c)
    ensures forall i, j :: Passed(parts, a, name, kind, c, i, j) <==> Passed(parts, b, name, kind, c, i, j)
    ensures forall n :: Fitting(n, a, name, kind) <==> Fitting(n, b, name, kind)
  {
    assert forall t :: Same(a, t, name) <==> Same(b, t, name);
    hide Same, TypeFits;
    assert forall x, y :: 0 <= x < |parts| && 0 <= y < |parts[x]| ==>
        IsMatch(parts[x][y], a, name) == IsMatch(parts[x][y], b, name);
  }

  /** The flags of a chain's head and of its map, as far as a lookup minds. */
  predicate SameRules(a: set<Flag>, b: set<Flag>) {
    (Case in a <==> Case in b) && (Cache in a <==> Cache in b) && (Uniq in a <==> Uniq in b)
  }

  /** An item whose name a case-sensitive map was asked for is in the chain where the lookup starts. */
  lemma InItsChain(root: ListNode, parts: Parts, name: string, kind: ItemKind, i: nat, j: nat)
    requires Listing(root, parts) && (MapHead in root.Flags ==> Case in root.Flags)
    requires i < |parts| && 1 <= j < |parts[i]| && Fitting(parts[i][j], root.Flags, name, kind)
    ensures i == StartChain(parts, root.Flags, name)
  {
    hide FnvHash;
  }

  /** The node from which the lookup rewinds and scans, and the head that governs it. */
  method Entry(root: ListNode, name: string, ghost parts: Parts)
    returns (start: ListNode?, head: ListNode, ghost k: nat)
    requires Listing(root, parts) && FlagsAgree(root, parts) && Unsorted(root.Flags)
    requires name != "" ==> Together(parts[StartChain(parts, root.Flags, name)], root.Flags, name)
    ensures Listing(root, parts)
    ensures var nodes := parts[StartChain(parts, root.Flags, name)];
            (name == "" && MapHead in root.Flags ==> start == null) &&
            (start == null ==> (name == "" && MapHead in root.Flags) || (|parts| == 1 && |nodes| == 1)) &&
            (start != null ==> k < |nodes| && start == nodes[k] && Chain(nodes) && SameRules(head.Flags, root.Flags)) &&
            (start != null && k > 0 ==> head == nodes[0]) &&
            (start != null && k == 0 ==>
              |nodes| == 1 && head == root && head != start && start.Tag == "" && MapHead in root.Flags) &&
            (start != null && name != "" ==> StopsAt(nodes, root.Flags, name, k)) &&
            (start != null && name == "" ==> k == 1)
  {
    hide FnvHash, Together, Distinct, Total, Disjoint;
    var node := root;
    k := 0;
    StartHead(root, parts, StartChain(parts, root.Flags, name));
    if name != "" {
      node, k := FindInsertPoint(root, name, parts);
    }
    start, head := node, node.Head;
    if node == head {
      start := node.Next;
      k := 1;
    }
  }

  lemma NothingPassed(parts: Parts, flags: set<Flag>, name: string, kind: ItemKind, c: nat)
    ensures |parts| == 1 && |parts[0]| == 1 ==> Passed(parts, flags, name, kind, c, |parts|, 0)
  {
  }

  lemma NonePassed(parts: Parts, flags: set<Flag>, name: string, kind: ItemKind, c: nat, j: nat)
    requires c < |parts| && NoneBefore(parts[c], flags, name, j)
    ensures Passed(parts, flags, name, kind, c, c, j)
  {
  }

  /** Everything up to the scan: the node at which it starts has no item to find in front of it. */
  method Candidate(root: ListNode, kind: ItemKind, name: string, ghost parts: Parts)
    returns (start: ListNode?, head: ListNode, ghost j: nat)
    requires Listing(root, parts) && FlagsAgree(root, parts) && Unsorted(root.Flags)
    requires name != "" ==> Together(parts[StartChain(parts, root.Flags, name)], root.Flags, name)
    requires Uniq in root.Flags ==> OneName(parts, root.Flags, name, StartChain(parts, root.Flags, name))
    ensures Listing(root, parts) && HaveHeads(parts)
    ensures Uniq in root.Flags ==> OneName(parts, root.Flags, name, StartChain(parts, root.Flags, name))
    ensures var c := StartChain(parts, root.Flags, name);
            (name == "" && MapHead in root.Flags ==> start == null) &&
            (start == null ==>
              (name == "" && MapHead in root.Flags) || Passed(parts, root.Flags, name, kind, c, |parts|, 0)) &&
            (start != null ==> j < |parts[c]| && start == parts[c][j] && SameRules(head.Flags, root.Flags)) &&
            (start != null ==> Passed(parts, root.Flags, name, kind, c, c, j)) &&
            (start != null && j == 0 ==> |parts[c]| == 1 && name != "" && start.Tag == "") &&
            (start != null && j > 0 ==> head == parts[c][0])
  {
    hide PlainHead, ChainHead, FnvHash, Together, StopsAt, FlagsAgree, Distinct, Total, Disjoint, Passed, NoneBefore,
         Same, TypeFits, Owned, Linked;
    ghost var c := StartChain(parts, root.Flags, name);
    var node, governing, k := Entry(root, name, parts);
    head := governing;
    if node == null {
      NothingPassed(parts, root.Flags, name, kind, c);
      return null, head, 0;
    }
    start, j := Rewind(node, head, name, root.Flags, parts[c], k);
    NonePassed(parts, root.Flags, name, kind, c, j);
  }

  /** ListFindTypedItem, with the place at which the item was found. */
  method LookUp(root: ListNode, kind: ItemKind, name: string, ghost parts: Parts)
    returns (r: ListNode?, ghost i: nat, ghost j: nat)
    requires Listing(root, parts) && FlagsAgree(root, parts) && PlainFlags(root.Flags)
    requires name != "" ==> Together(parts[StartChain(parts, root.Flags, name)], root.Flags, name)
    requires Uniq in root.Flags ==> OneName(parts, root.Flags, name, StartChain(parts, root.Flags, name))
    modifies parts[StartChain(parts, root.Flags, name)]`Side
    ensures Listing(root, parts)
    ensures var c := StartChain(parts, root.Flags, name);
            (r != null ==>
              c <= i < |parts| && 1 <= j < |parts[i]| && r == parts[i][j] && Fitting(r, root.Flags, name, kind)) &&
            (r != null ==> Passed(parts, root.Flags, name, kind, c, i, j)) &&
            (name == "" && MapHead in root.Flags ==> r == null) &&
            (r == null ==>
              (name == "" && MapHead in root.Flags) || Passed(parts, root.Flags, name, kind, c, |parts|, 0)) &&
            |parts[c]| > 0 &&
            parts[c][0].Side == if r != null && Cache in root.Flags then r else old(parts[c][0].Side)
  {
    hide IsList, IsMap, Placed, FnvHash, Together, Same, TypeFits, OneName, FlagsAgree;
    ghost var c := StartChain(parts, root.Flags, name);
    var start, head, k := Candidate(root, kind, name, parts);
    if start == null {
      return null, 0, 0;
    }
    OnlyCaseMattersToFit(parts, head.Flags, root.Flags, name, kind, c);
    r, i, j := Scan(start, root, name, kind, head.Flags, parts, c, k);
    if r != null && Cache in head.Flags {
      InItsChain(root, parts, name, kind, i, j);
      SetSide(head, r, root, parts, c, j);
    }
  }

  // ---------------------------------------------------------------- against the plain search

  /** The plain search: the first item of all that fits. */
  ghost function Search(items: seq<ListNode>, flags: set<Flag>, name: string, kind: ItemKind): ListNode?
    reads items
  {
    if items == [] then null
    else if Fitting(items[0], flags, name, kind) then items[0]
    else Search(items[1..], flags, name, kind)
  }

  lemma {:induction false} SearchAppend(a: seq<ListNode>, b: seq<ListNode>, flags: set<Flag>, name: string,
                                        kind: ItemKind)
    ensures Search(a + b, flags, name, kind) ==
            (if Search(a, flags, name, kind) != null then Search(a, flags, name, kind)
             else Search(b, flags, name, kind))
  {
    if a == [] {
      assert a + b == b;
    } else {
      assert (a + b)[1..] == a[1..] + b;
      SearchAppend(a[1..], b, flags, name, kind);
    }
  }

  lemma {:induction false} SearchStops(items: seq<ListNode>, flags: set<Flag>, name: string, kind: ItemKind, k: nat)
    requires k <= |items| && forall i :: 0 <= i < k ==> !Fitting(items[i], flags, name, kind)
    requires k < |items| ==> Fitting(items[k], flags, name, kind)
    ensures Search(items, flags, name, kind) == if k < |items| then items[k] else null
  {
    hide Fitting;
    if k > 0 {
      SearchStops(items[1..], flags, name, kind, k - 1);
    }
  }

  /**
   What the plain search answers, in plain terms. With case, the name of the item is the one asked for; without, it has
   as many characters, and each is the same or the same letter, capital or not. If a type is asked for it is the
   item's. No item in front is like that, and when the answer is null none is.
   */
  lemma {:induction false} SearchIsFirst(items: seq<ListNode>, flags: set<Flag>, name: string, kind: ItemKind)
    returns (k: nat)
    ensures k <= |items| && Search(items, flags, name, kind) == if k < |items| then items[k] else null
    ensures k < |items| && kind.OfType? ==> items[k].ItemType == kind.typ
    ensures k < |items| && Case in flags ==> items[k].Tag == name
    ensures k < |items| && Case !in flags
        ==> && |items[k].Tag| == |name|
            && forall c :: 0 <= c < |name| ==>
                 || items[k].Tag[c] == name[c]
                 || ('A' <= items[k].Tag[c] <= 'Z' && name[c] as int == items[k].Tag[c] as int + 32)
                 || ('A' <= name[c] <= 'Z' && items[k].Tag[c] as int == name[c] as int + 32)
    ensures forall i :: 0 <= i < k ==>
              || (kind.OfType? && items[i].ItemType != kind.typ)
              || (Case in flags && items[i].Tag != name)
              || (Case !in flags && (|items[i].Tag| != |name|
                    || exists c :: 0 <= c < |name| && items[i].Tag[c] != name[c]
                         && !('A' <= items[i].Tag[c] <= 'Z' && name[c] as int == items[i].Tag[c] as int + 32)
                         && !('A' <= name[c] <= 'Z' && items[i].Tag[c] as int == name[c] as int + 32)))
    decreases |items|
  {
    if items == [] {
      k := 0;
    } else {
      Text.CaseOfLetters(items[0].Tag, name);
      hide Text.EqNoCase;
      if Fitting(items[0], flags, name, kind) {
        k := 0;
      } else {
        hide Fitting;
        k := SearchIsFirst(items[1..], flags, name, kind);
        assert forall i :: 0 < i < k + 1 ==> items[i] == items[1..][i - 1];
        k := k + 1;
      }
    }
  }

  /** If nothing fits in front of an item that does, the plain search of all chains finds that item. */
  lemma {:induction false} SearchFinds(parts: Parts, flags: set<Flag>, name: string, kind: ItemKind, i: nat, j: nat)
    requires HaveHeads(parts) && Passed(parts, flags, name, kind, 0, i, j) && i <= |parts|
    requires i < |parts| ==> 1 <= j < |parts[i]| && Fitting(parts[i][j], flags, name, kind)
    ensures Search(Items(parts), flags, name, kind) == if i < |parts| then parts[i][j] else null
  {
    hide Fitting;
    if parts != [] {
      var first := parts[0][1..];
      SearchAppend(first, Items(parts[1..]), flags, name, kind);
      SearchStops(first, flags, name, kind, if i == 0 then j - 1 else |first|);
      if i > 0 {
        PassedTail(parts, flags, name, kind, i, j);
        SearchFinds(parts[1..], flags, name, kind, i - 1, j);
      }
    }
  }

  lemma PassedTail(parts: Parts, flags: set<Flag>, name: string, kind: ItemKind, i: nat, j: nat)
    requires parts != [] && i > 0 && Passed(parts, flags, name, kind, 0, i, j)
    ensures Passed(parts[1..], flags, name, kind, 0, i - 1, j)
  {
    hide Fitting;
    forall x, y | 0 <= x < |parts[1..]| && 1 <= y < |parts[1..][x]| && (x < i - 1 || (x == i - 1 && y < j))
      ensures !Fitting(parts[1..][x][y], flags, name, kind)
    {
      assert parts[1..][x][y] == parts[x + 1][y];
    }
  }

  /** A case-sensitive map has nothing to find in front of the chain where the lookup starts. */
  lemma PassedFromStart(root: ListNode, parts: Parts, name: string, kind: ItemKind, i: nat, j: nat)
    requires Listing(root, parts) && (MapHead in root.Flags ==> Case in root.Flags)
    requires Passed(parts, root.Flags, name, kind, StartChain(parts, root.Flags, name), i, j)
    ensures Passed(parts, root.Flags, name, kind, 0, i, j)
  {
    hide FnvHash, IsMap, IsList;
    var c := StartChain(parts, root.Flags, name);
    forall x, y | 0 <= x < |parts| && 1 <= y < |parts[x]| && (x < i || (x == i && y < j))
      ensures !Fitting(parts[x][y], root.Flags, name, kind)
    {
      if Fitting(parts[x][y], root.Flags, name, kind) {
        InItsChain(root, parts, name, kind, x, y);
      }
    }
  }

  /**
   ListFindTypedItem, and with AnyType ListFindNamedItem: on a list, and on a case-sensitive map that is asked for
   a name, the plain search of all items. A map that is asked for no name finds nothing.
   */
  method FindTypedItem(root: ListNode, kind: ItemKind, name: string, ghost parts: Parts) returns (r: ListNode?)
    requires Listing(root, parts) && FlagsAgree(root, parts) && PlainFlags(root.Flags)
    requires name != "" ==> Together(parts[StartChain(parts, root.Flags, name)], root.Flags, name)
    requires Uniq in root.Flags ==> OneName(parts, root.Flags, name, StartChain(parts, root.Flags, name))
    modifies parts[StartChain(parts, root.Flags, name)]`Side
    ensures Listing(root, parts) && HaveHeads(parts)
    ensures MapHead in root.Flags && name == "" ==> r == null
    ensures MapHead in root.Flags && Case in root.Flags && name != ""
        ==> r == Search(Items(parts), root.Flags, name, kind)
    ensures MapHead !in root.Flags ==> r == Search(Items(parts), root.Flags, name, kind)
    ensures Cache in root.Flags && r != null ==> parts[StartChain(parts, root.Flags, name)][0].Side == r
  {
    hide IsList, IsMap, Placed, FnvHash, Together, Same, TypeFits, OneName, FlagsAgree, Passed, Items, Search, Fitting;
    ghost var i, j;
    r, i, j := LookUp(root, kind, name, parts);
    ListingHasHeads(root, parts);
    if (MapHead in root.Flags ==> Case in root.Flags) && (r != null || name != "" || MapHead !in root.Flags) {
      if r == null {
        i, j := |parts|, 0;
      }
      PassedFromStart(root, parts, name, kind, i, j);
      SearchFinds(parts, root.Flags, name, kind, i, j);
    }
  }
}
