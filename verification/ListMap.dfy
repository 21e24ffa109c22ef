/**
 Lists and maps as a whole. A map is an array of chains; a plain list is the case of one chain whose head is
 the list itself. Walking, adding, inserting, deleting and rotating are stated on the items chain by chain.
 */
module ListMap {
  import opened Lists

  type Parts = seq<seq<ListNode>>

  ghost function Nodes(parts: Parts): set<ListNode> {
    set i, j | 0 <= i < |parts| && 0 <= j < |parts[i]| :: parts[i][j]
  }

  predicate Separate(a: seq<ListNode>, b: seq<ListNode>) {
    forall i :: 0 <= i < |a| ==> a[i] !in b
  }

  predicate Disjoint(parts: Parts) {
    forall i, j :: 0 <= i < |parts| && 0 <= j < |parts| && i != j ==> Separate(parts[i], parts[j])
  }

  /** The number of items in all the chains. */
  function Total(parts: Parts): int {
    if parts == [] then 0 else |parts[0]| - 1 + Total(parts[1..])
  }

  /** All the items, chain by chain. */
  function Items(parts: Parts): seq<ListNode>
    requires forall i :: 0 <= i < |parts| ==> |parts[i]| > 0
  {
    if parts == [] then [] else parts[0][1..] + Items(parts[1..])
  }

  const FNV_INIT_VAL: bv32 := 2166136261
  const FNV_PRIME: bv32 := 16777619

  function FnvRun(key: string, h: bv32): bv32 {
    if key == "" then h else FnvRun(key[1..], (h * FNV_PRIME) ^ ((key[0] as int % 256) as bv32))
  }

  function FnvHash(key: string, n: nat): (h: nat)
    requires n > 0
    ensures h < n
  {
    (FnvRun(key, FNV_INIT_VAL) as int) % n
  }

  /** The hash is FNV-1 of 32 bits: its start value, its prime, and one character at a time. */
  lemma HashSteps(c: char, key: string, n: nat)
    requires c as int < 256 && n > 0
    ensures FnvHash("", n) == 0x811C_9DC5 % n
    ensures FnvHash([c] + key, n) == FnvRun(key, 0x050C_5D1F ^ (c as int as bv32)) as int % n
  {
    assert ([c] + key)[1..] == key;
  }

  /** A plain list is one chain, headed by itself. */
  ghost predicate IsList(m: ListNode, parts: Parts)
    reads m, Nodes(parts)
  {
    && |parts| == 1 && Chain(parts[0]) && parts[0][0] == m && PlainHead(m)
  }

  ghost predicate AllChains(parts: Parts)
    reads Nodes(parts)
  {
    forall i :: 0 <= i < |parts| ==> Chain(parts[i])
  }

  /** The array of a map: the heads of its chains in order, and one blank node that ends it. */
  ghost predicate ChainArray(m: ListNode, parts: Parts)
    reads m, m.Chains, Nodes(parts)
  {
    && |m.Chains| == |parts| + 1
    && (forall i :: 0 <= i < |parts| ==>
          |parts[i]| > 0 && m.Chains[i] == parts[i][0] && ChainHead(parts[i][0], m) && parts[i][0].ItemType == i)
    && m.Chains[|parts|].Flags == {} && m.Chains[|parts|].Next == null
  }

  predicate Apart(n: ListNode, parts: Parts) {
    forall i :: 0 <= i < |parts| ==> n !in parts[i]
  }

  ghost predicate IsMap(m: ListNode, parts: Parts)
    reads m, m.Chains, Nodes(parts)
  {
    && |parts| > 0
    && MapHead in m.Flags && MapChain !in m.Flags && m.Head == m && m.Next == null && m.ItemType == |parts|
    && ChainArray(m, parts)
    && AllChains(parts)
    && Disjoint(parts)
    && Apart(m, parts) && Apart(m.Chains[|parts|], parts) && m.Chains[|parts|] != m
    && m.Hits == Total(parts)
  }

  /** Every item is in the chain that its name hashes to. */
  ghost predicate Placed(parts: Parts)
    reads Nodes(parts)
  {
    |parts| > 0 && forall i, j :: 0 <= i < |parts| && 1 <= j < |parts[i]| ==> FnvHash(parts[i][j].Tag, |parts|) == i
  }

  ghost predicate Listing(m: ListNode, parts: Parts)
    reads m, m.Chains, Nodes(parts)
  {
    IsList(m, parts) || (IsMap(m, parts) && Placed(parts))
  }

  // ---------------------------------------------------------------- walking

  /** The first item at or behind chain c. */
  function FirstFrom(parts: Parts, c: nat): ListNode?
    decreases |parts| - c
  {
    if c >= |parts| then null
    else if |parts[c]| > 1 then parts[c][1]
    else FirstFrom(parts, c + 1)
  }

  /** What follows node j of chain c: within the chain, else in the next chain that has an item. */
  function NextAfter(parts: Parts, c: nat, j: nat): ListNode?
    requires c < |parts| && j < |parts[c]|
  {
    if j + 1 < |parts[c]| then parts[c][j + 1] else FirstFrom(parts, c + 1)
  }

  /** MapGetNext from the root of a list or map. */
  method FirstItem(m: ListNode, ghost parts: Parts) returns (r: ListNode?)
    requires Listing(m, parts)
    ensures Listing(m, parts) && r == FirstFrom(parts, 0)
  {
    if m.Next != null {
      return m.Next;
    }
    if MapHead in m.Flags {
      var head := m.Chains[0];
      r := head.Next;
      if r == null {
        r := NextChain(head, m, parts, 0);
      }
    } else {
      r := null;
    }
  }

  /** The loop over later chains: the first item behind the chain of head, which is chain c. */
  method NextChain(head: ListNode, m: ListNode, ghost parts: Parts, ghost c: nat) returns (r: ListNode?)
    requires IsMap(m, parts) && Placed(parts) && c < |parts| && head == parts[c][0]
    ensures IsMap(m, parts) && Placed(parts) && r == FirstFrom(parts, c + 1)
  {
    hide FnvHash, Distinct, Disjoint, Total;
    var chainHead := head;
    ghost var i := c;
    while MapChain in chainHead.Flags
      invariant c <= i <= |parts| && chainHead == m.Chains[i]
      invariant FirstFrom(parts, i + 1) == FirstFrom(parts, c + 1)
      decreases |parts| - i
    {
      chainHead := chainHead.Head.Chains[chainHead.ItemType + 1];
      i := i + 1;
      if chainHead.Next != null {
        return chainHead.Next;
      }
    }
    r := null;
  }

  /** MapGetNext from a node of a chain: its head for j = 0, else an item. */
  method GetNext(cur: ListNode, m: ListNode, ghost parts: Parts, ghost c: nat, ghost j: nat) returns (r: ListNode?)
    requires Listing(m, parts) && c < |parts| && j < |parts[c]| && cur == parts[c][j]
    ensures Listing(m, parts) && r == NextAfter(parts, c, j)
  {
    if cur.Next != null {
      return cur.Next;
    }
    var chainHead := GetHead(cur);
    if chainHead != null && MapChain in chainHead.Flags {
      r := NextChain(chainHead, m, parts, c);
    } else {
      r := null;
    }
  }

  predicate HaveHeads(parts: Parts) {
    forall i :: 0 <= i < |parts| ==> |parts[i]| > 0
  }

  /** How many items lie in the chains in front of chain c. */
  function Before(parts: Parts, c: nat): nat
    requires HaveHeads(parts) && c <= |parts|
  {
    if c == 0 then 0 else |parts[0]| - 1 + Before(parts[1..], c - 1)
  }

  /** Item k of the flat sequence is some item j of some chain c. */
  lemma {:induction false} ItemPlace(parts: Parts, k: nat) returns (c: nat, j: nat)
    requires HaveHeads(parts) && k < |Items(parts)|
    ensures c < |parts| && 1 <= j < |parts[c]| && k == Before(parts, c) + j - 1
  {
    if k < |parts[0]| - 1 {
      c, j := 0, k + 1;
    } else {
      c, j := ItemPlace(parts[1..], k - (|parts[0]| - 1));
      c := c + 1;
    }
  }

  lemma {:induction false} ItemAt(parts: Parts, c: nat, j: nat)
    requires HaveHeads(parts) && c < |parts| && 1 <= j < |parts[c]|
    ensures Before(parts, c) + j - 1 < |Items(parts)|
    ensures Items(parts)[Before(parts, c) + j - 1] == parts[c][j]
  {
    if c > 0 {
      ItemAt(parts[1..], c - 1, j);
    }
  }

  lemma {:induction false} FirstFromTail(parts: Parts, c: nat)
    requires HaveHeads(parts) && parts != [] && 1 <= c
    ensures FirstFrom(parts, c) == FirstFrom(parts[1..], c - 1)
    decreases |parts| - c
  {
    if c < |parts| {
      FirstFromTail(parts, c + 1);
    }
  }

  lemma {:induction false} FirstIsFirst(parts: Parts)
    requires HaveHeads(parts)
    ensures FirstFrom(parts, 0) == if Items(parts) == [] then null else Items(parts)[0]
  {
    if parts != [] {
      FirstIsFirst(parts[1..]);
      FirstFromTail(parts, 1);
    }
  }

  lemma NextInFirst(parts: Parts, j: nat)
    requires HaveHeads(parts) && parts != [] && j < |parts[0]|
    ensures NextAfter(parts, 0, j) == if j < |Items(parts)| then Items(parts)[j] else null
  {
    hide FirstFrom;
    if j + 1 == |parts[0]| {
      FirstIsFirst(parts[1..]);
      FirstFromTail(parts, 1);
    }
  }

  /** Walking from a node leads to the next item of the flat sequence. */
  lemma {:induction false} NextIsNext(parts: Parts, c: nat, j: nat)
    requires HaveHeads(parts) && c < |parts| && j < |parts[c]|
    ensures var k := Before(parts, c) + j;
            NextAfter(parts, c, j) == if k < |Items(parts)| then Items(parts)[k] else null
  {
    hide FirstFrom;
    if c == 0 {
      NextInFirst(parts, j);
    } else {
      assert Items(parts) == parts[0][1..] + Items(parts[1..]);
      assert Before(parts, c) == |parts[0]| - 1 + Before(parts[1..], c - 1);
      hide Items, Before;
      NextIsNext(parts[1..], c - 1, j);
      FirstFromTail(parts, c + 1);
    }
  }

  lemma ListingHasHeads(m: ListNode, parts: Parts)
    requires Listing(m, parts)
    ensures HaveHeads(parts)
  {
  }

  /** Walking a list or map from its root meets every item exactly once, chain by chain. */
  method Visit(m: ListNode, ghost parts: Parts) returns (visited: seq<ListNode>)
    requires Listing(m, parts)
    ensures HaveHeads(parts) && visited == Items(parts)
  {
    hide Items, Before, FirstFrom, NextAfter, IsList, IsMap, Placed;
    ListingHasHeads(m, parts);
    visited := [];
    FirstIsFirst(parts);
    var cur := FirstItem(m, parts);
    while cur != null
      invariant Listing(m, parts)
      invariant |visited| <= |Items(parts)| && visited == Items(parts)[..|visited|]
      invariant cur == if |visited| < |Items(parts)| then Items(parts)[|visited|] else null
      decreases |Items(parts)| - |visited|
    {
      ghost var c, j := ItemPlace(parts, |visited|);
      ItemAt(parts, c, j);
      NextIsNext(parts, c, j);
      visited := visited + [cur];
      cur := GetNext(cur, m, parts, c, j);
    }
  }

  lemma {:induction false} ItemsCount(parts: Parts)
    requires HaveHeads(parts)
    ensures |Items(parts)| == Total(parts)
  {
    if parts != [] {
      ItemsCount(parts[1..]);
    }
  }

  /** ListSize of the root is the number of items, for a list and for a map. */
  lemma RootCount(m: ListNode, parts: Parts)
    requires Listing(m, parts)
    ensures HaveHeads(parts) && m.Hits == |Items(parts)|
  {
    ListingHasHeads(m, parts);
    ItemsCount(parts);
    if IsList(m, parts) {
      assert Total(parts[1..]) == 0;
    }
  }

  // ---------------------------------------------------------------- creating

  /** ListInit: a head that is its own head and its own last node. */
  method ListCreate(flags: set<Flag>) returns (n: ListNode)
    requires flags !! {MapHead, MapChain}
    ensures fresh(n) && IsList(n, [[n]]) && n.Flags == flags && n.Max == 0 && n.Chains == []
  {
    n := new ListNode("", 0);
    n.Head, n.Prev, n.Flags, n.Max, n.Hits := n, n, flags, 0, 0;
  }

  const MAX_CHAINS: nat := 65534

  function Singletons(heads: seq<ListNode>): (parts: Parts)
    ensures |parts| == |heads|
    ensures forall i :: 0 <= i < |heads| ==> parts[i] == [heads[i]]
  {
    if heads == [] then [] else [[heads[0]]] + Singletons(heads[1..])
  }

  /** One chain head of a map under construction. */
  method NewChain(m: ListNode, i: nat, flags: set<Flag>) returns (h: ListNode)
    requires flags !! {MapHead, MapChain} && MapHead in m.Flags && MapChain !in m.Flags && m.Head == m
    ensures fresh(h) && Chain([h]) && ChainHead(h, m) && h.ItemType == i && h.Flags == flags + {MapChain}
  {
    h := new ListNode("", 0);
    h.ItemType, h.Head, h.Prev, h.Flags, h.Hits := i, m, h, flags + {MapChain}, 0;
  }

  method NewChains(m: ListNode, n: nat, flags: set<Flag>) returns (heads: seq<ListNode>)
    requires flags !! {MapHead, MapChain} && MapHead in m.Flags && MapChain !in m.Flags && m.Head == m
    ensures |heads| == n && Distinct(heads) && m !in heads
    ensures forall i :: 0 <= i < n ==>
              fresh(heads[i]) && Chain([heads[i]]) && ChainHead(heads[i], m) && heads[i].ItemType == i
                && heads[i].Flags == flags + {MapChain}
  {
    heads := [];
    while |heads| < n
      invariant |heads| <= n && m !in heads && Distinct(heads)
      invariant forall i :: 0 <= i < |heads| ==>
                  fresh(heads[i]) && Chain([heads[i]]) && ChainHead(heads[i], m) && heads[i].ItemType == i
                    && heads[i].Flags == flags + {MapChain}
    {
      var h := NewChain(m, |heads|, flags);
      heads := heads + [h];
    }
  }

  /** MapCreate, for at least one chain: the chains are empty, and a blank node ends the array. */
  method MapCreate(noOfChains: nat, flags: set<Flag>) returns (m: ListNode)
    requires noOfChains > 0 && flags !! {MapHead, MapChain}
    ensures fresh(m) && m.Flags == flags + {MapHead} && m.ItemType == |m.Chains| - 1 && m.Max == 0
    ensures |m.Chains| == (if noOfChains > MAX_CHAINS then MAX_CHAINS else noOfChains) + 1
    ensures var parts := Singletons(m.Chains[..|m.Chains| - 1]);
            Listing(m, parts) && (forall i :: 0 <= i < |parts| ==> parts[i][0].Flags == flags + {MapChain})
  {
    hide Singletons;
    m := ListCreate(flags);
    var n := if noOfChains > MAX_CHAINS then MAX_CHAINS else noOfChains;
    m.Flags, m.ItemType := m.Flags + {MapHead}, n;
    var heads := NewChains(m, n, flags);
    var blank := new ListNode("", 0);
    m.Chains := heads + [blank];
    assert m.Chains[..n] == heads;
    EmptyMap(m, heads, blank);
    SingletonHeads(heads);
  }

  lemma SingletonHeads(heads: seq<ListNode>)
    ensures |Singletons(heads)| == |heads| && forall i :: 0 <= i < |heads| ==> Singletons(heads)[i] == [heads[i]]
  {
  }

  /** Empty chains under a map node make a map. */
  lemma EmptyMap(m: ListNode, heads: seq<ListNode>, blank: ListNode)
    requires |heads| > 0 && Distinct(heads) && m !in heads && blank !in heads && blank != m
    requires m.Chains == heads + [blank] && blank.Flags == {} && blank.Next == null
    requires MapHead in m.Flags && MapChain !in m.Flags && m.Head == m && m.Next == null && m.ItemType == |heads|
        && m.Hits == 0
    requires forall i :: 0 <= i < |heads| ==> Chain([heads[i]]) && ChainHead(heads[i], m) && heads[i].ItemType == i
    ensures Listing(m, Singletons(heads))
  {
    hide Chain, ChainHead, FnvHash;
    NoItems(heads);
    SingletonHeads(heads);
    var parts := Singletons(heads);
    hide Singletons, Total;
    assert AllChains(parts);
    assert Placed(parts);
    EmptyArray(m, heads, parts, blank);
    hide AllChains, Placed, ChainArray;
    SingletonsApart(heads, m);
    SingletonsApart(heads, blank);
  }

  lemma EmptyArray(m: ListNode, heads: seq<ListNode>, parts: Parts, blank: ListNode)
    requires |parts| == |heads| && forall i :: 0 <= i < |heads| ==> parts[i] == [heads[i]]
    requires m.Chains == heads + [blank] && blank.Flags == {} && blank.Next == null
    requires forall i :: 0 <= i < |heads| ==> ChainHead(heads[i], m) && heads[i].ItemType == i
    ensures ChainArray(m, parts) && m.Chains[|heads|] == blank
  {
    hide ChainHead;
    assert forall i :: 0 <= i < |heads| ==> m.Chains[i] == heads[i];
  }

  lemma SingletonsApart(heads: seq<ListNode>, n: ListNode)
    requires Distinct(heads) && n !in heads
    ensures Disjoint(Singletons(heads)) && Apart(n, Singletons(heads))
  {
    SingletonHeads(heads);
    hide Singletons;
  }

  lemma {:induction false} NoItems(heads: seq<ListNode>)
    ensures Total(Singletons(heads)) == 0 && HaveHeads(Singletons(heads)) && Items(Singletons(heads)) == []
  {
    if heads != [] {
      NoItems(heads[1..]);
      assert Singletons(heads)[1..] == Singletons(heads[1..]);
    }
  }

  // ---------------------------------------------------------------- adding and deleting

  lemma {:induction false} TotalReplaced(parts: Parts, c: nat, p: seq<ListNode>)
    requires c < |parts|
    ensures Total(parts[c := p]) == Total(parts) + |p| - |parts[c]|
  {
    if c > 0 {
      TotalReplaced(parts[1..], c - 1, p);
      assert parts[c := p][1..] == parts[1..][c - 1 := p];
    } else {
      assert parts[c := p][1..] == parts[1..];
    }
  }

  /** Nodes of one chain, and perhaps one more. */
  predicate From(p: seq<ListNode>, part: seq<ListNode>, extra: ListNode?) {
    forall j :: 0 <= j < |p| ==> p[j] in part || p[j] == extra
  }

  /** The extra node, if there is one, is in no chain yet. */
  predicate Outside(extra: ListNode?, parts: Parts) {
    extra == null || Apart(extra, parts)
  }

  lemma StillSeparate(part: seq<ListNode>, p: seq<ListNode>, other: seq<ListNode>, extra: ListNode?)
    requires From(p, part, extra) && Separate(part, other) && (extra == null || extra !in other)
    ensures Separate(p, other) && Separate(other, p)
  {
    forall i | 0 <= i < |p|
      ensures p[i] !in other
    {
      if p[i] in part {
        var k :| 0 <= k < |part| && part[k] == p[i];
      }
    }
  }

  lemma DisjointReplaced(parts: Parts, c: nat, p: seq<ListNode>, extra: ListNode?)
    requires c < |parts| && Disjoint(parts) && From(p, parts[c], extra) && Outside(extra, parts)
    ensures Disjoint(parts[c := p])
  {
    hide Separate, From;
    forall i | 0 <= i < |parts| && i != c
      ensures Separate(parts[i], p) && Separate(p, parts[i])
    {
      StillSeparate(parts[c], p, parts[i], extra);
    }
  }

  lemma ApartReplaced(n: ListNode, parts: Parts, c: nat, p: seq<ListNode>, extra: ListNode?)
    requires c < |parts| && Apart(n, parts) && From(p, parts[c], extra) && n != extra
    ensures Apart(n, parts[c := p])
  {
    assert n !in parts[c];
    assert n !in p;
  }

  /** A chain of a map. */
  datatype Place = Place(m: ListNode, parts: Parts, c: nat)

  /** The chains other than c are as they were. */
  twostate predicate OthersKept(parts: Parts, c: nat)
    requires c < |parts|
    reads Nodes(parts)
  {
    forall i, j {:trigger parts[i][j]} :: 0 <= i < |parts| && i != c && 0 <= j < |parts[i]| ==> unchanged(parts[i][j])
  }

  twostate lemma ChainsReplaced(at: Place, new p: seq<ListNode>)
    requires at.c < |at.parts| && old(AllChains(at.parts)) && OthersKept(at.parts, at.c) && Chain(p)
    ensures AllChains(at.parts[at.c := p])
  {
    hide Chain;
    assert forall i :: 0 <= i < |at.parts| && i != at.c ==> Chain(at.parts[i]);
  }

  /** The map node and its array are as they were, but for the count and the inside of chain c. */
  twostate predicate MapKept(m: ListNode, parts: Parts, c: nat)
    requires c < |parts|
    reads m, m.Chains, Nodes(parts)
  {
    && m.Chains == old(m.Chains) && m.Flags == old(m.Flags) && m.Head == old(m.Head) && m.Next == old(m.Next)
    && (forall i :: 0 <= i < |m.Chains| && i != c ==> unchanged(m.Chains[i]))
    && (|parts[c]| > 0 ==> parts[c][0].ItemType == old(parts[c][0].ItemType))
  }

  twostate lemma ArrayReplaced(at: Place, new p: seq<ListNode>)
    requires at.c < |at.parts| && old(ChainArray(at.m, at.parts)) && MapKept(at.m, at.parts, at.c)
    requires MapHead in at.m.Flags && MapChain !in at.m.Flags && at.m.Head == at.m
    requires |p| > 0 && p[0] == at.parts[at.c][0] && ChainHead(p[0], at.m)
    ensures ChainArray(at.m, at.parts[at.c := p])
  {
    var m, q := at.m, at.parts[at.c := p];
    forall i | 0 <= i < |q|
      ensures |q[i]| > 0 && m.Chains[i] == q[i][0] && ChainHead(q[i][0], m) && q[i][0].ItemType == i
    {
      if i != at.c {
        assert unchanged(m.Chains[i]);
      }
    }
  }

  /** A chain replaced by a good one leaves a good map. */
  lemma MapReplaced(m: ListNode, parts: Parts, c: nat, p: seq<ListNode>, extra: ListNode?)
    requires c < |parts| && Disjoint(parts) && Apart(m, parts) && |m.Chains| == |parts| + 1 && m.Chains[|parts|] != m
    requires Apart(m.Chains[|parts|], parts)
    requires MapHead in m.Flags && MapChain !in m.Flags && m.Head == m && m.Next == null && m.ItemType == |parts|
    requires From(p, parts[c], extra) && Outside(extra, parts) && extra != m && extra !in m.Chains
    requires m.Hits == Total(parts) + |p| - |parts[c]|
    requires AllChains(parts[c := p]) && ChainArray(m, parts[c := p])
    ensures IsMap(m, parts[c := p])
  {
    assert m.Chains[|parts|] != extra;
    hide ChainArray, AllChains, Disjoint, Apart, Total, From, Outside;
    TotalReplaced(parts, c, p);
    DisjointReplaced(parts, c, p, extra);
    ApartReplaced(m, parts, c, p, extra);
    ApartReplaced(m.Chains[|parts|], parts, c, p, extra);
  }

  // ---------------------------------------------------------------- adding and deleting

  /** The parts once node n stands behind node k of chain c. */
  function WithItem(parts: Parts, c: nat, k: nat, n: ListNode): Parts
    requires c < |parts| && k < |parts[c]|
  {
    parts[c := Inserted(parts[c], k + 1, n)]
  }

  function WithoutItem(parts: Parts, c: nat, k: nat): Parts
    requires c < |parts| && k < |parts[c]|
  {
    parts[c := Removed(parts[c], k)]
  }

  lemma {:induction false} OtherNodes(parts: Parts, c: nat)
    requires c < |parts| && Disjoint(parts)
    ensures forall i, j {:trigger parts[i][j]} :: 0 <= i < |parts| && i != c && 0 <= j < |parts[i]| ==>
              parts[i][j] !in parts[c]
  {
    forall i, j | 0 <= i < |parts| && i != c && 0 <= j < |parts[i]|
      ensures parts[i][j] !in parts[c]
    {
      assert Separate(parts[i], parts[c]);
    }
  }

  lemma FromInserted(nodes: seq<ListNode>, k: nat, n: ListNode)
    requires k <= |nodes|
    ensures From(Inserted(nodes, k, n), nodes, n)
  {
  }

  lemma FromRemoved(nodes: seq<ListNode>, k: nat)
    requires k < |nodes|
    ensures From(Removed(nodes, k), nodes, null)
    ensures |Removed(nodes, k)| == |nodes| - 1 && (k > 0 ==> Removed(nodes, k)[0] == nodes[0])
  {
  }

  /** Thread a new node into chain c of a list or map, behind the chain's node k. */
  method Thread(at: ListNode, node: ListNode, m: ListNode, ghost parts: Parts, ghost c: nat, ghost k: nat)
    requires IsMap(m, parts) && c < |parts| && k < |parts[c]| && at == parts[c][k]
    requires Apart(node, parts) && node != m && node !in m.Chains && node.Flags !! {MapHead, MapChain}
    modifies parts[c], node, m`Hits
    ensures IsMap(m, WithItem(parts, c, k, node))
    ensures SameContent(parts[c] + [node])
    ensures parts[c][0].Side == old(parts[c][0].Side)
  {
    hide Disjoint, AllChains, Total;
    ChainOf(m, parts, c);
    ThreadNode(at, node, parts[c], k, m);
    FromInserted(parts[c], k + 1, node);
    assert (parts[c] + [node])[0] == parts[c][0];
    OtherNodes(parts, c);
    ChainsReplaced(Place(m, parts, c), Inserted(parts[c], k + 1, node));
    ArrayReplaced(Place(m, parts, c), Inserted(parts[c], k + 1, node));
    MapReplaced(m, parts, c, Inserted(parts[c], k + 1, node), node);
  }

  method UnThread(node: ListNode, m: ListNode, ghost parts: Parts, ghost c: nat, ghost k: nat)
    requires IsMap(m, parts) && c < |parts| && 1 <= k < |parts[c]| && node == parts[c][k]
    modifies parts[c], m`Hits
    ensures IsMap(m, WithoutItem(parts, c, k))
    ensures SameContent(parts[c])
    ensures node.Next == null && node.Prev == null && node.Head == null && node.Side == null
    ensures parts[c][0].Side == if old(parts[c][0].Side) == node then null else old(parts[c][0].Side)
  {
    hide Disjoint, AllChains, Total, Removed, Distinct, Linked;
    ChainOf(m, parts, c);
    CountCovers(m, parts, c);
    UnThreadNode(node, parts[c], k, m);
    FromRemoved(parts[c], k);
    OtherNodes(parts, c);
    ChainsReplaced(Place(m, parts, c), Removed(parts[c], k));
    ArrayReplaced(Place(m, parts, c), Removed(parts[c], k));
    MapReplaced(m, parts, c, Removed(parts[c], k), null);
  }

  /** A map counts at least the items of each of its chains. */
  lemma CountCovers(m: ListNode, parts: Parts, c: nat)
    requires IsMap(m, parts) && c < |parts|
    ensures m.Hits >= |parts[c]| - 1
  {
    TotalCovers(parts, c);
  }

  lemma {:induction false} TotalCovers(parts: Parts, c: nat)
    requires HaveHeads(parts) && c < |parts|
    ensures Total(parts) >= |parts[c]| - 1 && Total(parts) >= 0
  {
    if |parts| > 1 {
      TotalCovers(parts[1..], if c > 0 then c - 1 else 0);
    }
  }

  lemma ChainOf(m: ListNode, parts: Parts, c: nat)
    requires IsMap(m, parts) && c < |parts|
    ensures Chain(parts[c]) && ChainHead(parts[c][0], m) && m !in parts[c]
  {
  }

  twostate lemma PlacedReplaced(at: Place, new p: seq<ListNode>)
    requires at.c < |at.parts| && old(Placed(at.parts)) && OthersKept(at.parts, at.c)
    requires forall j :: 1 <= j < |p| ==> FnvHash(p[j].Tag, |at.parts|) == at.c
    ensures Placed(at.parts[at.c := p])
  {
    hide FnvHash;
  }

  /** Names a node may carry in chain c: any in a list, those that hash to c in a map. */
  predicate Fits(parts: Parts, c: nat, name: string, isMap: bool) {
    isMap ==> |parts| > 0 && FnvHash(name, |parts|) == c
  }

  lemma TagsPlaced(parts: Parts, c: nat)
    requires Placed(parts) && c < |parts|
    ensures forall j :: 1 <= j < |parts[c]| ==> FnvHash(parts[c][j].Tag, |parts|) == c
  {
    hide FnvHash;
  }

  lemma HeadAlone(nodes: seq<ListNode>)
    requires Chain(nodes)
    ensures nodes[0] !in nodes[1..]
  {
  }

  /** Thread node in behind node k of chain c, in a list or a map. */
  method ThreadIn(at: ListNode, node: ListNode, m: ListNode, ghost parts: Parts, ghost c: nat, ghost k: nat)
    requires Listing(m, parts) && c < |parts| && k < |parts[c]| && at == parts[c][k]
    requires Apart(node, parts) && node != m && node !in m.Chains && node.Flags !! {MapHead, MapChain}
    requires Fits(parts, c, node.Tag, MapHead in m.Flags)
    modifies parts[c], node, m`Hits
    ensures Listing(m, WithItem(parts, c, k, node))
    ensures SameContent(parts[c] + [node]) && OthersKept(parts, c)
    ensures parts[c][0].Side == old(parts[c][0].Side)
  {
    hide FnvHash, Disjoint, AllChains, Total, Distinct, Linked;
    if MapHead in m.Flags {
      TagsPlaced(parts, c);
      Thread(at, node, m, parts, c, k);
      OtherNodes(parts, c);
      assert (parts[c] + [node])[|parts[c]|] == node;
      assert forall j {:trigger parts[c][j]} :: 0 <= j < |parts[c]| ==> (parts[c] + [node])[j] == parts[c][j];
      PlacedReplaced(Place(m, parts, c), Inserted(parts[c], k + 1, node));
    } else {
      HeadAlone(parts[0]);
      ThreadNode(at, node, parts[0], k, m);
      assert parts[0 := Inserted(parts[0], k + 1, node)][0] == Inserted(parts[0], k + 1, node);
    }
  }

  /** Take node k of chain c out, in a list or a map. */
  method ThreadOut(node: ListNode, m: ListNode, ghost parts: Parts, ghost c: nat, ghost k: nat)
    requires Listing(m, parts) && c < |parts| && 1 <= k < |parts[c]| && node == parts[c][k]
    modifies parts[c], m`Hits
    ensures Listing(m, WithoutItem(parts, c, k))
    ensures SameContent(parts[c]) && OthersKept(parts, c)
    ensures node.Next == null && node.Prev == null && node.Head == null && node.Side == null
    ensures parts[c][0].Side == if old(parts[c][0].Side) == node then null else old(parts[c][0].Side)
  {
    hide FnvHash, Disjoint, AllChains, Total, Distinct, Linked;
    if MapHead in m.Flags {
      TagsPlaced(parts, c);
      UnThread(node, m, parts, c, k);
      OtherNodes(parts, c);
      PlacedReplaced(Place(m, parts, c), Removed(parts[c], k));
    } else {
      HeadAlone(parts[0]);
      UnThreadNode(node, parts[0], k, m);
    }
  }
}
