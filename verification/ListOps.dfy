/**
 The operations a caller sees: adding and inserting items with a bound on the length, deleting, rotating.
 */
module ListOps {
  import opened Lists
  import opened ListMap

  // ---------------------------------------------------------------- the bound on the length

  /** How many items go before one is added: enough to come down to the bound, but at most three. */
  function EvictCount(n: nat, max: nat): (d: nat)
    ensures d <= n && (d > 0 ==> max > 0 && d <= n - max)
  {
    if max == 0 || n <= max then 0 else if n - max > 3 then 3 else n - max
  }

  /** A list without its first d items. */
  function Evicted(nodes: seq<ListNode>, d: nat): seq<ListNode>
    requires d < |nodes|
  {
    nodes[..1] + nodes[1 + d..]
  }

  function Evictions(parts: Parts, c: nat, d: nat): Parts
    requires c < |parts| && d < |parts[c]|
  {
    parts[c := Evicted(parts[c], d)]
  }

  lemma EvictedStep(nodes: seq<ListNode>, d: nat)
    requires d + 1 < |nodes|
    ensures Removed(Evicted(nodes, d), 1) == Evicted(nodes, d + 1)
  {
  }

  /** ListHandleMaxSize on the chain of a node: its oldest items are deleted. */
  method HandleMaxSize(at: ListNode, m: ListNode, ghost parts: Parts, ghost c: nat)
    requires Listing(m, parts) && c < |parts| && GetHead(at) == parts[c][0] && m.Max > 0
    modifies parts[c], m`Hits
    ensures |parts[c]| > 0
    ensures Listing(m, Evictions(parts, c, EvictCount(|parts[c]| - 1, m.Max)))
    ensures SameContent(parts[c]) && OthersKept(parts, c) && m.Max == old(m.Max)
  {
    hide IsMap, IsList, Placed, Chain, FirstFrom, Evicted, EvictCount;
    NodeCount(m, parts, c);
    OthersOutside(m, parts, c);
    var chainHead := GetHead(at);
    EvictedNothing(parts, c);
    ghost var now := parts;
    var i := 0;
    while i < 3 && chainHead.Hits > m.Max
      invariant 0 <= i <= 3 && i <= EvictCount(|parts[c]| - 1, m.Max) && m.Max == old(m.Max)
      invariant now == Evictions(parts, c, i) && |now[c]| > 0 && Listing(m, now) && chainHead == now[c][0]
      invariant chainHead.Hits == |parts[c]| - 1 - i
      invariant SameContent(parts[c])
    {
      EvictsWhile(|parts[c]| - 1, m.Max, i);
      var curr := GetNext(chainHead, m, now, c, 0);
      EvictedShape(parts[c], i);
      EvictedShape(parts[c], i + 1);
      assert curr == now[c][1];
      ThreadOut(curr, m, now, c, 1);
      EvictedStep(parts[c], i);
      now := WithoutItem(now, c, 1);
      i := i + 1;
      NodeCount(m, now, c);
    }
    EvictsWhile(|parts[c]| - 1, m.Max, i);
  }

  /** The guard of the loop, and the number at which it stops. */
  lemma EvictsWhile(n: nat, max: nat, i: nat)
    requires max > 0 && i <= EvictCount(n, max)
    ensures i < 3 && n - i > max <==> i < EvictCount(n, max)
  {
  }

  /** The nodes of the other chains are neither in this one nor the root. */
  lemma OthersOutside(m: ListNode, parts: Parts, c: nat)
    requires Listing(m, parts) && c < |parts|
    ensures forall i, j {:trigger parts[i][j]} :: 0 <= i < |parts| && i != c && 0 <= j < |parts[i]| ==>
              parts[i][j] !in parts[c] && parts[i][j] != m
  {
    if IsMap(m, parts) {
      OtherNodes(parts, c);
    }
  }

  lemma NodeCount(m: ListNode, parts: Parts, c: nat)
    requires Listing(m, parts) && c < |parts|
    ensures |parts[c]| > 0 && parts[c][0].Hits == |parts[c]| - 1
  {
  }

  lemma EvictedNothing(parts: Parts, c: nat)
    requires c < |parts| && |parts[c]| > 0
    ensures Evictions(parts, c, 0) == parts
  {
    assert Evicted(parts[c], 0) == parts[c];
  }

  lemma EvictedShape(nodes: seq<ListNode>, d: nat)
    requires d < |nodes|
    ensures |Evicted(nodes, d)| == |nodes| - d && Evicted(nodes, d)[0] == nodes[0]
    ensures forall i :: 0 <= i < |Evicted(nodes, d)| ==> Evicted(nodes, d)[i] in nodes
  {
  }

  // ---------------------------------------------------------------- inserting and adding

  /** A chain after an item was inserted behind its node k: the oldest items may have gone first. */
  function AfterInsert(nodes: seq<ListNode>, k: nat, max: nat, node: ListNode): seq<ListNode>
    requires k < |nodes| && (k == 0 || EvictCount(|nodes| - 1, max) < k)
  {
    var d := EvictCount(|nodes| - 1, max);
    Inserted(Evicted(nodes, d), (if k == 0 then 0 else k - d) + 1, node)
  }

  /** ListGetRoot */
  function GetRoot(at: ListNode): ListNode?
    reads at, at.Head
  {
    var head := GetHead(at);
    if head != null && MapChain in head.Flags then head.Head else head
  }

  lemma RootOf(m: ListNode, parts: Parts, c: nat, k: nat)
    requires Listing(m, parts) && c < |parts| && k < |parts[c]|
    ensures GetRoot(parts[c][k]) == m && GetHead(parts[c][k]) == parts[c][0]
    ensures m in parts[c] ==> m == parts[c][0]
  {
  }

  /** A node that is in no list yet. */
  method NewItem(typ: nat, name: string, item: int, m: ListNode, ghost parts: Parts) returns (node: ListNode)
    requires Listing(m, parts)
    ensures fresh(node) && node.Tag == name && node.Item == item && node.ItemType == typ && node.Flags == {}
    ensures Listing(m, parts) && Apart(node, parts) && node != m && node !in m.Chains
  {
    node := new ListNode(name, item);
    node.ItemType := typ;
  }

  /** The bound makes room in front of an insertion, and leaves the node behind which the item goes. */
  method MakeRoom(at: ListNode, m: ListNode, ghost parts: Parts, ghost c: nat, ghost k: nat)
    requires Listing(m, parts) && c < |parts| && k < |parts[c]| && at == parts[c][k]
    requires k == 0 || EvictCount(|parts[c]| - 1, m.Max) < k
    modifies parts[c], m`Hits
    ensures var d := EvictCount(|parts[c]| - 1, old(m.Max));
            && Listing(m, Evictions(parts, c, d))
            && |parts[c]| - d == |Evicted(parts[c], d)| > (if k == 0 then 0 else k - d)
            && Evicted(parts[c], d)[if k == 0 then 0 else k - d] == at
    ensures SameContent(parts[c]) && OthersKept(parts, c)
    ensures m.Flags == old(m.Flags) && m.Max == old(m.Max)
  {
    hide IsMap, IsList, Placed, Evicted, FnvHash;
    OthersOutside(m, parts, c);
    EvictedNothing(parts, c);
    RootOf(m, parts, c, k);
    SurvivorAt(parts[c], EvictCount(|parts[c]| - 1, m.Max), k);
    var head := GetRoot(at);
    if head.Max > 0 {
      HandleMaxSize(at, m, parts, c);
    }
  }

  /** A new item behind node k of chain c. */
  method PutIn(at: ListNode, typ: nat, name: string, item: int, m: ListNode, ghost parts: Parts, ghost c: nat,
               ghost k: nat)
    returns (node: ListNode)
    requires Listing(m, parts) && c < |parts| && k < |parts[c]| && at == parts[c][k]
    requires Fits(parts, c, name, MapHead in m.Flags)
    modifies parts[c], m`Hits
    ensures fresh(node) && node.Tag == name && node.Item == item && node.ItemType == typ
    ensures Listing(m, WithItem(parts, c, k, node))
    ensures SameContent(parts[c]) && OthersKept(parts, c)
    ensures m.Flags == old(m.Flags) && m.Max == old(m.Max)
  {
    hide IsMap, IsList, Placed, FnvHash, Inserted, WithItem, Fits, Apart;
    RootOf(m, parts, c, k);
    OthersOutside(m, parts, c);
    node := NewItem(typ, name, item, m, parts);
    ThreadIn(at, node, m, parts, c, k);
    StillThere(parts[c], node);
  }

  /**
   ListInsertTypedItem behind node k of chain c. The node given as the place to insert must not be one that
   the bound evicts first.
   */
  method InsertTypedItem(at: ListNode, typ: nat, name: string, item: int, m: ListNode,
                         ghost parts: Parts, ghost c: nat, ghost k: nat)
    returns (node: ListNode)
    requires Listing(m, parts) && c < |parts| && k < |parts[c]| && at == parts[c][k]
    requires k == 0 || EvictCount(|parts[c]| - 1, m.Max) < k
    requires Fits(parts, c, name, MapHead in m.Flags)
    modifies parts[c], m`Hits
    ensures fresh(node) && node.Tag == name && node.Item == item && node.ItemType == typ
    ensures Listing(m, parts[c := AfterInsert(parts[c], k, old(m.Max), node)])
    ensures SameContent(parts[c]) && OthersKept(parts, c)
    ensures m.Flags == old(m.Flags) && m.Max == old(m.Max)
  {
    hide IsMap, IsList, Placed, Evicted, FnvHash, Inserted, EvictCount, GetHead, AfterInsert, WithItem, Fits, Apart;
    ghost var d := EvictCount(|parts[c]| - 1, m.Max);
    OthersOutside(m, parts, c);
    EvictedShape(parts[c], d);
    FitsEvicted(parts, c, d, name, MapHead in m.Flags);
    MakeRoom(at, m, parts, c, k);
    ghost var now := Evictions(parts, c, d);
    node := PutIn(at, typ, name, item, m, now, c, if k == 0 then 0 else k - d);
    InsertedParts(parts, c, k, old(m.Max), node);
  }

  lemma FitsEvicted(parts: Parts, c: nat, d: nat, name: string, isMap: bool)
    requires c < |parts| && d < |parts[c]| && Fits(parts, c, name, isMap)
    ensures Fits(Evictions(parts, c, d), c, name, isMap) && |Evictions(parts, c, d)| == |parts|
  {
  }

  lemma InsertedParts(parts: Parts, c: nat, k: nat, max: nat, node: ListNode)
    requires c < |parts| && k < |parts[c]| && (k == 0 || EvictCount(|parts[c]| - 1, max) < k)
    ensures var d := EvictCount(|parts[c]| - 1, max);
            |Evicted(parts[c], d)| > (if k == 0 then 0 else k - d)
            && WithItem(Evictions(parts, c, d), c, if k == 0 then 0 else k - d, node)
            == parts[c := AfterInsert(parts[c], k, max, node)]
  {
  }

  lemma StillThere(nodes: seq<ListNode>, node: ListNode)
    ensures forall j {:trigger nodes[j]} :: 0 <= j < |nodes| ==> (nodes + [node])[j] == nodes[j]
    ensures (nodes + [node])[|nodes|] == node
  {
  }

  lemma SurvivorAt(nodes: seq<ListNode>, d: nat, k: nat)
    requires d < |nodes| && k < |nodes| && (k == 0 || d < k)
    ensures |Evicted(nodes, d)| == |nodes| - d
    ensures Evicted(nodes, d)[if k == 0 then 0 else k - d] == nodes[k]
  {
  }

  /**
   Exactly when the node behind which an item is inserted is still in the list by then: it is the head, or stands
   behind the items that the bound evicts. Otherwise the source has freed it when it links to it.
   */
  lemma SurvivesIff(nodes: seq<ListNode>, max: nat, k: nat)
    requires Distinct(nodes) && k < |nodes|
    ensures nodes[k] in Evicted(nodes, EvictCount(|nodes| - 1, max)) <==> k == 0 || EvictCount(|nodes| - 1, max) < k
  {
    var d := EvictCount(|nodes| - 1, max);
    var left := Evicted(nodes, d);
    assert forall i :: 0 <= i < |left| ==> left[i] == nodes[if i == 0 then 0 else i + d];
    if k == 0 || d < k {
      assert left[if k == 0 then 0 else k - d] == nodes[k];
    }
  }

  /** ListGetLast: the head's Prev, or the head of an empty list. */
  method GetLast(cur: ListNode, m: ListNode, ghost parts: Parts, ghost c: nat, ghost k: nat) returns (r: ListNode)
    requires Listing(m, parts) && c < |parts| && k < |parts[c]| && cur == parts[c][k]
    ensures Listing(m, parts) && r == parts[c][|parts[c]| - 1]
  {
    var head := GetHead(cur);
    r := if head.Prev != null then head.Prev else head;
  }

  /** A chain after an item was added at its end. */
  function AfterAdd(nodes: seq<ListNode>, max: nat, node: ListNode): seq<ListNode>
    requires |nodes| > 0
  {
    Evicted(nodes, EvictCount(|nodes| - 1, max)) + [node]
  }

  /** The chain that a name goes to. */
  function ChainIndex(parts: Parts, name: string, isMap: bool): (c: nat)
    requires |parts| > 0
    ensures c < |parts|
  {
    if isMap then FnvHash(name, |parts|) else 0
  }

  /** No head asks for its items to be kept in order. */
  ghost predicate Unordered(parts: Parts)
    reads Nodes(parts)
  {
    forall i :: 0 <= i < |parts| && |parts[i]| > 0 ==> Ordered !in parts[i][0].Flags
  }

  /** ListAddTypedItem on the root of a list or map that is not kept in order. */
  method AddTypedItem(start: ListNode, typ: nat, name: string, item: int, ghost parts: Parts) returns (node: ListNode)
    requires Listing(start, parts) && Unordered(parts)
    modifies Nodes(parts), start
    ensures |parts| > 0 && HaveHeads(parts)
    ensures fresh(node) && node.Tag == name && node.Item == item && node.ItemType == typ
    ensures var c := ChainIndex(parts, name, old(MapHead in start.Flags));
            && Listing(start, parts[c := AfterAdd(parts[c], old(start.Max), node)])
            && OthersKept(parts, c) && SameContent(parts[c])
    ensures start.Flags == old(start.Flags) && start.Max == old(start.Max)
  {
    hide FnvHash, Evicted, Chain, Placed, Disjoint, Apart, AllChains, Total;
    ListingHasHeads(start, parts);
    ghost var c := ChainIndex(parts, name, MapHead in start.Flags);
    var list := start;
    if MapHead in start.Flags {
      list := start.Chains[FnvHash(name, start.ItemType)];
    }
    ChainNodes(parts, c);
    var last := GetLast(list, start, parts, c, 0);
    LastSurvives(parts[c], start.Max, last);
    node := InsertTypedItem(last, typ, name, item, start, parts, c, |parts[c]| - 1);
    InsertAtEnd(parts[c], old(start.Max), node);
  }

  lemma ChainNodes(parts: Parts, c: nat)
    requires c < |parts|
    ensures forall n :: n in parts[c] ==> n in Nodes(parts)
  {
  }

  /** The bound never evicts the node behind which the new item goes. */
  lemma LastSurvives(nodes: seq<ListNode>, max: nat, last: ListNode)
    requires |nodes| > 0 && last == nodes[|nodes| - 1]
    ensures |nodes| - 1 == 0 || EvictCount(|nodes| - 1, max) < |nodes| - 1
  {
  }

  lemma InsertAtEnd(nodes: seq<ListNode>, max: nat, node: ListNode)
    requires |nodes| > 0
    requires |nodes| - 1 == 0 || EvictCount(|nodes| - 1, max) < |nodes| - 1
    ensures AfterInsert(nodes, |nodes| - 1, max, node) == AfterAdd(nodes, max, node)
  {
  }

  /** ListDeleteNode */
  method DeleteNode(node: ListNode?, m: ListNode, ghost parts: Parts, ghost c: nat, ghost k: nat)
    returns (contents: int)
    requires Listing(m, parts)
    requires node != null ==> c < |parts| && 1 <= k < |parts[c]| && node == parts[c][k]
    modifies if node != null then parts[c] else [], if node != null then {m} else {}
    ensures node == null ==> contents == 0
    ensures node != null ==> contents == old(node.Item) && Listing(m, WithoutItem(parts, c, k)) && OthersKept(parts, c)
  {
    if node == null {
      return 0;
    }
    contents := node.Item;
    ThreadOut(node, m, parts, c, k);
  }

  // ---------------------------------------------------------------- rotating

  /** s turned left by k places. */
  function Rotated<T>(s: seq<T>, k: nat): seq<T> {
    if s == [] then [] else s[k % |s|..] + s[..k % |s|]
  }

  lemma RotationStep<T>(s: seq<T>, r: nat)
    requires r < |s|
    ensures (s[r..] + s[..r])[1..] + [(s[r..] + s[..r])[0]]
         == if r + 1 < |s| then s[r + 1..] + s[..r + 1] else s
  {
    var t := s[r..] + s[..r];
    assert t[0] == s[r];
    assert t[1..] == s[r + 1..] + s[..r];
    assert s[..r + 1] == s[..r] + [s[r]];
  }

  lemma RotatedOnce<T>(s: seq<T>, k: nat)
    requires s != []
    ensures |Rotated(s, k)| == |s|
    ensures Rotated(s, k + 1) == Rotated(s, k)[1..] + [Rotated(s, k)[0]]
  {
    ModStep(k, |s|);
    RotationStep(s, k % |s|);
  }

  lemma ModStep(k: nat, n: nat)
    requires n > 0
    ensures (k + 1) % n == if k % n + 1 < n then k % n + 1 else 0
  {
    var q, r := k / n, k % n;
    assert k == q * n + r;
    if r + 1 < n {
      ModUnique(k + 1, n, q, r + 1);
    } else {
      assert k + 1 == (q + 1) * n;
      ModUnique(k + 1, n, q + 1, 0);
    }
  }

  lemma ModUnique(k: nat, n: nat, q: int, r: nat)
    requires n > 0 && k == q * n + r && r < n
    ensures k % n == r
  {
    var d := k / n - q;
    assert k == (k / n) * n + k % n;
    assert d * n == r - k % n;
    assert d > 0 ==> d * n >= n;
    assert d < 0 ==> d * n <= 0 - n;
  }

  /** A plain list as its head and its items. */
  function Single(list: ListNode, items: seq<ListNode>): Parts { [[list] + items] }

  twostate predicate SameLabels(nodes: seq<ListNode>)
    reads nodes
  {
    forall n :: n in nodes ==> n.Tag == old(n.Tag) && n.Item == old(n.Item)
  }

  twostate lemma SameByIndex(nodes: seq<ListNode>)
    requires SameContent(nodes)
    ensures SameLabels(nodes)
  {
  }

  method TakeFirst(list: ListNode, curr: ListNode, ghost items: seq<ListNode>)
    requires IsList(list, Single(list, items)) && items != [] && curr == items[0]
    modifies list, items
    ensures IsList(list, Single(list, items[1..])) && SameLabels([list] + items)
    ensures curr !in [list] + items[1..] && curr.Flags !! {MapHead, MapChain}
  {
    hide Linked, Removed;
    ghost var nodes := [list] + items;
    assert nodes[1] == curr && list.Hits > 0;
    HeadAlone(nodes);
    RemovedFirst(list, items);
    UnThreadNode(curr, nodes, 1, list);
    SameByIndex(nodes);
  }

  method AppendLast(list: ListNode, node: ListNode, ghost items: seq<ListNode>)
    requires IsList(list, Single(list, items)) && node !in [list] + items && node.Flags !! {MapHead, MapChain}
    modifies list, items, node
    ensures IsList(list, Single(list, items + [node])) && SameLabels([list] + items + [node])
  {
    hide Distinct, Linked, Inserted;
    var last := GetLast(list, list, Single(list, items), 0, 0);
    HeadAlone([list] + items);
    ThreadNode(last, node, [list] + items, |items|, list);
    SameByIndex([list] + items + [node]);
    InsertedLast([list] + items, node);
    assert [list] + items + [node] == [list] + (items + [node]);
  }

  lemma InsertedLast(nodes: seq<ListNode>, node: ListNode)
    ensures Inserted(nodes, |nodes|, node) == nodes + [node]
  {
  }

  lemma RemovedFirst(list: ListNode, items: seq<ListNode>)
    requires items != [] && Distinct([list] + items)
    ensures Removed([list] + items, 1) == [list] + items[1..]
    ensures items[0] !in [list] + items[1..]
  {
    var nodes := [list] + items;
    assert nodes[1] == items[0] && nodes[0] == list;
    assert forall i :: 0 <= i < |items[1..]| ==> items[1..][i] == nodes[i + 2];
  }

  lemma FirstOfSingle(list: ListNode, items: seq<ListNode>)
    ensures FirstFrom(Single(list, items), 0) == if items == [] then null else items[0]
  {
  }

  /** ListRotate on a plain list: count times, the first item becomes the last. */
  method Rotate(list: ListNode, count: int, ghost items: seq<ListNode>)
    requires IsList(list, Single(list, items))
    modifies list, items
    ensures IsList(list, Single(list, Rotated(items, if count > 0 then count else 0)))
    ensures SameLabels([list] + items)
  {
    hide IsMap, Rotated, Placed, FirstFrom, Chain;
    RotatedNothing(items);
    ghost var now: seq<ListNode> := items;
    var i := 0;
    while i < count
      invariant 0 <= i <= (if count > 0 then count else 0)
      invariant IsList(list, Single(list, now)) && now == Rotated(items, i)
      invariant forall j :: 0 <= j < |now| ==> now[j] in items
      invariant SameLabels([list] + items)
    {
      FirstOfSingle(list, now);
      var curr := FirstItem(list, Single(list, now));
      if curr == null {
        RotatedEmpty(items, i);
        break;
      }
      RotatedFull(items, i);
      RotatedOnce(items, i);
      TakeFirst(list, curr, now);
      AppendLast(list, curr, now[1..]);
      now := now[1..] + [curr];
      i := i + 1;
    }
  }

  lemma RotatedFull<T>(s: seq<T>, i: nat)
    requires Rotated(s, i) != []
    ensures s != []
  {
  }

  lemma RotatedNothing<T>(s: seq<T>)
    ensures Rotated(s, 0) == s
  {
  }

  lemma RotatedEmpty<T>(s: seq<T>, i: nat)
    requires Rotated(s, i) == []
    ensures s == [] && forall k: nat :: Rotated(s, k) == []
  {
  }

  // ---------------------------------------------------------------- the sliding window

  /** One bounded add, on the items. */
  function AddOne<T>(items: seq<T>, max: nat, x: T): seq<T> {
    items[EvictCount(|items|, max)..] + [x]
  }

  function AddAll<T>(items: seq<T>, max: nat, xs: seq<T>): seq<T>
    decreases |xs|
  {
    if xs == [] then items else AddAll(AddOne(items, max, xs[0]), max, xs[1..])
  }

  /** Adding to a chain is AddOne on its items. */
  lemma AddIsAddOne(nodes: seq<ListNode>, max: nat, node: ListNode)
    requires |nodes| > 0
    ensures AfterAdd(nodes, max, node) == nodes[..1] + AddOne(nodes[1..], max, node)
  {
    var d := EvictCount(|nodes| - 1, max);
    assert nodes[1..][d..] == nodes[1 + d..];
  }

  /** The last n elements, or all of a shorter sequence. */
  function Last<T>(s: seq<T>, n: nat): seq<T> {
    if |s| <= n then s else s[|s| - n..]
  }

  lemma {:induction false} AddAllWindow<T>(seen: seq<T>, max: nat, xs: seq<T>)
    requires max >= 1
    ensures AddAll(Last(seen, max + 1), max, xs) == Last(seen + xs, max + 1)
    decreases |xs|
  {
    if xs == [] {
      assert seen + xs == seen;
    } else {
      var next := seen + [xs[0]];
      AddToWindow(seen, max, xs[0]);
      AddAllWindow(next, max, xs[1..]);
      assert next + xs[1..] == seen + xs;
    }
  }

  lemma AddToWindow<T>(seen: seq<T>, max: nat, x: T)
    requires max >= 1
    ensures AddOne(Last(seen, max + 1), max, x) == Last(seen + [x], max + 1)
  {
    var w := Last(seen, max + 1);
    if |seen| > max {
      assert EvictCount(|w|, max) == 1;
      assert w[1..] == seen[|seen| - max..];
    }
  }

  /** From the empty list, a bound of max keeps a window of the last max + 1 items. */
  lemma BoundedListIsWindow<T>(max: nat, xs: seq<T>)
    requires max >= 1
    ensures AddAll([], max, xs) == Last(xs, max + 1)
  {
    AddAllWindow<T>([], max, xs);
    assert [] + xs == xs;
  }

  /** On a longer list each add takes three away and puts one back, until max + 1 are left. */
  lemma LongListShrinks<T>(items: seq<T>, max: nat, x: T)
    requires max >= 1
    ensures |items| >= max + 3 ==> |AddOne(items, max, x)| == |items| - 2
    ensures max <= |items| <= max + 2 ==> |AddOne(items, max, x)| == max + 1
    ensures |items| < max ==> |AddOne(items, max, x)| == |items| + 1
    ensures exists d :: 0 <= d <= |items| && AddOne(items, max, x) == (items + [x])[d..]
  {
    var d := EvictCount(|items|, max);
    assert AddOne(items, max, x) == (items + [x])[d..];
  }

  lemma {:induction false} AddAllIsSuffix<T>(items: seq<T>, max: nat, xs: seq<T>) returns (d: nat)
    requires max >= 1
    ensures d <= |items + xs| && AddAll(items, max, xs) == (items + xs)[d..]
    decreases |xs|
  {
    if xs == [] {
      d := 0;
      assert items + xs == items;
    } else {
      var e := EvictCount(|items|, max);
      var next := AddOne(items, max, xs[0]);
      var f := AddAllIsSuffix(next, max, xs[1..]);
      d := e + f;
      assert (items + xs)[e..] == next + xs[1..];
      assert (items + xs)[e..][f..] == (items + xs)[d..];
    }
  }

  lemma {:induction false} AddAllLength<T>(items: seq<T>, max: nat, xs: seq<T>)
    requires max >= 1 && |items| >= max && xs != [] && 2 * |xs| >= |items| - max - 1
    ensures |AddAll(items, max, xs)| == max + 1
    decreases |xs|
  {
    LongListShrinks(items, max, xs[0]);
    if |xs| > 1 {
      AddAllLength(AddOne(items, max, xs[0]), max, xs[1..]);
    } else {
      assert AddAll(AddOne(items, max, xs[0]), max, xs[1..]) == AddOne(items, max, xs[0]);
    }
  }

  /** However long a list was when the bound was set, enough adds bring it down to the same window. */
  lemma LongListSettles<T>(items: seq<T>, max: nat, xs: seq<T>)
    requires max >= 1 && |items| >= max && xs != [] && 2 * |xs| >= |items| - max - 1
    ensures AddAll(items, max, xs) == Last(items + xs, max + 1)
  {
    hide AddAll;
    var d := AddAllIsSuffix(items, max, xs);
    AddAllLength(items, max, xs);
  }

  // ---------------------------------------------------------------- the window, on the list itself

  /** What a caller adds: a name and what it stands for. */
  datatype Entry = Entry(name: string, item: int)

  ghost function Contents(items: seq<ListNode>): seq<Entry>
    reads items
  {
    seq(|items|, i requires 0 <= i < |items| reads items => Entry(items[i].Tag, items[i].Item))
  }

  lemma ListingIsList(m: ListNode, parts: Parts)
    requires Listing(m, parts) && MapHead !in m.Flags
    ensures IsList(m, parts)
  {
  }

  /** A bounded add of a node is one of what it holds. */
  lemma ContentsAdd(items: seq<ListNode>, max: nat, node: ListNode)
    ensures Contents(AddOne(items, max, node)) == AddOne(Contents(items), max, Entry(node.Tag, node.Item))
  {
  }

  lemma SameEntries(head: ListNode, items: seq<ListNode>, was: seq<Entry>)
    requires |was| == |items|
    requires forall i {:trigger ([head] + items)[i]} :: 1 <= i < |items| + 1 ==>
               Entry(([head] + items)[i].Tag, ([head] + items)[i].Item) == was[i - 1]
    ensures Contents(items) == was
  {
    assert forall i :: 0 <= i < |items| ==> ([head] + items)[i + 1] == items[i];
  }

  lemma SingleAfterAdd(list: ListNode, items: seq<ListNode>, max: nat, node: ListNode)
    ensures Single(list, items)[0] == [list] + items
    ensures Single(list, items)[0 := AfterAdd([list] + items, max, node)] == Single(list, AddOne(items, max, node))
    ensures forall n :: n in AddOne(items, max, node) ==> n in items || n == node
  {
    AddIsAddOne([list] + items, max, node);
    assert ([list] + items)[1..] == items;
  }

  /** One add to a plain list: its items before and after, and what they hold. */
  method AddToList(list: ListNode, typ: nat, x: Entry, ghost items: seq<ListNode>) returns (ghost now: seq<ListNode>)
    requires IsList(list, Single(list, items)) && Ordered !in list.Flags
    modifies list, items
    ensures IsList(list, Single(list, now)) && list.Flags == old(list.Flags) && list.Max == old(list.Max)
    ensures forall n :: n in now ==> n in items || fresh(n)
    ensures Contents(now) == AddOne(old(Contents(items)), list.Max, x)
  {
    hide Chain, IsMap, Placed, AfterAdd, EvictCount, AddOne;
    ghost var was := Contents(items);
    var node := AddTypedItem(list, typ, x.name, x.item, Single(list, items));
    now := AddOne(items, list.Max, node);
    SingleAfterAdd(list, items, list.Max, node);
    ListingIsList(list, Single(list, now));
    SameEntries(list, items, was);
    ContentsAdd(items, list.Max, node);
  }

  /**
   Any number of adds to a plain list that is empty at first: under a bound it holds the last Max + 1 entries in the
   order in which they came, and without one all of them.
   */
  method AddEach(list: ListNode, typ: nat, xs: seq<Entry>) returns (ghost items: seq<ListNode>)
    requires IsList(list, Single(list, [])) && Ordered !in list.Flags
    modifies list
    ensures IsList(list, Single(list, items)) && list.Max == old(list.Max)
    ensures Contents(items) == if list.Max == 0 then xs else Last(xs, list.Max + 1)
  {
    hide Contents, Single, IsList, AddOne, EvictCount;
    items := [];
    NoContents();
    var i := 0;
    while i < |xs|
      invariant 0 <= i <= |xs| && IsList(list, Single(list, items)) && Ordered !in list.Flags
          && list.Max == old(list.Max)
      invariant forall j :: 0 <= j < |items| ==> fresh(items[j])
      invariant AddAll(Contents(items), list.Max, xs[i..]) == AddAll([], list.Max, xs)
    {
      assert xs[i..][1..] == xs[i + 1..];
      ghost var before := items;
      items := AddToList(list, typ, xs[i], items);
      assert forall j :: 0 <= j < |items| ==> items[j] in before || fresh(items[j]);
      i := i + 1;
    }
    if list.Max == 0 {
      NoBoundKeepsAll([], xs);
    } else {
      BoundedListIsWindow(list.Max, xs);
    }
  }

  lemma NoContents()
    ensures Contents([]) == []
  {
  }

  lemma {:induction false} NoBoundKeepsAll<T>(items: seq<T>, xs: seq<T>)
    ensures AddAll(items, 0, xs) == items + xs
    decreases |xs|
  {
    if xs == [] {
      assert items + xs == items;
    } else {
      NoBoundKeepsAll(items + [xs[0]], xs[1..]);
      assert items + [xs[0]] + xs[1..] == items + xs;
    }
  }
}
