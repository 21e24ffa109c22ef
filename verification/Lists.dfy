/**
 The intrusive doubly linked list: a head node that holds the count, whose Prev is the last item, and items
 that are threaded in and out in place. A map's chains are such lists, and their heads count towards the map too.
 */
module Lists {

  datatype Flag = Case | SelfOrg | Ordered | Cache | Timeout | MapHead | MapChain | StatsFlag | Uniq

  class ListNode {
    var Next: ListNode?
    var Prev: ListNode?
    var Tag: string        // "" where the source has no name
    var ItemType: nat
    var Flags: set<Flag>
    var Head: ListNode?
    var Item: int
    var Chains: seq<ListNode>   // what a map head's Item points to
    var Side: ListNode?
    var Hits: nat          // Stats->Hits: in a head, the number of items
    var Max: nat

    constructor (tag: string, item: int)
      ensures Next == null && Prev == null && Head == null && Side == null
      ensures Tag == tag && Item == item && Flags == {} && Chains == [] && ItemType == 0
    {
      Next, Prev, Head, Side := null, null, null, null;
      Tag, Item, Flags, Chains, ItemType, Hits, Max := tag, item, {}, [], 0, 0, 0;
    }
  }

  predicate Distinct(nodes: seq<ListNode>) {
    forall i, j :: 0 <= i < j < |nodes| ==> nodes[i] != nodes[j]
  }

  /** nodes is a whole list, its head first: linked both ways, the head's Prev at the end, the count right. */
  ghost predicate Chain(nodes: seq<ListNode>)
    reads nodes
  {
    |nodes| > 0 && Shape(nodes, |nodes| - 1)
  }

  /** The same for a count that threading has not brought up to date yet. */
  ghost predicate Shape(nodes: seq<ListNode>, count: int)
    reads nodes
  {
    && |nodes| > 0
    && Distinct(nodes)
    && Linked(nodes)
    && (if |nodes| == 1 then nodes[0].Prev == nodes[0] || nodes[0].Prev == null
        else nodes[0].Prev == nodes[|nodes| - 1])
    && nodes[0].Hits == count
    && (nodes[0].Side == null || nodes[0].Side in nodes[1..])
    && Owned(nodes)
  }

  ghost predicate Linked(nodes: seq<ListNode>)
    requires |nodes| > 0
    reads nodes
  {
    && (forall i {:trigger nodes[i].Next} :: 0 <= i < |nodes| - 1 ==> nodes[i].Next == nodes[i + 1])
    && (forall i {:trigger nodes[i].Prev} :: 1 <= i < |nodes| ==> nodes[i].Prev == nodes[i - 1])
    && nodes[|nodes| - 1].Next == null
  }

  ghost predicate Owned(nodes: seq<ListNode>)
    requires |nodes| > 0
    reads nodes
  {
    && (forall i {:trigger nodes[i].Head} :: 1 <= i < |nodes| ==> nodes[i].Head == nodes[0])
    && (forall i {:trigger nodes[i].Flags} :: 1 <= i < |nodes| ==> nodes[i].Flags !! {MapHead, MapChain})
  }

  /**
   The head of a list of its own is its own head; the head of a chain points to the map, which is none of its nodes.
   */
  ghost predicate PlainHead(h: ListNode)
    reads h
  {
    h.Head == h && h.Flags !! {MapHead, MapChain} && h.Tag == ""
  }

  ghost predicate ChainHead(h: ListNode, m: ListNode)
    reads h, m
  {
    && h.Head == m && h != m && MapChain in h.Flags && MapHead !in h.Flags && h.Tag == ""
    && MapHead in m.Flags && MapChain !in m.Flags && m.Head == m
  }

  /** m keeps the total count for the list with head h: the map for a chain, h itself for a list of its own. */
  ghost predicate Root(h: ListNode, m: ListNode)
    reads h, m
  {
    (h == m && PlainHead(h)) || ChainHead(h, m)
  }

  /** ListGetHead */
  function GetHead(n: ListNode): ListNode?
    reads n
  {
    if MapChain in n.Flags then n else n.Head
  }

  function Inserted(nodes: seq<ListNode>, k: nat, n: ListNode): seq<ListNode>
    requires k <= |nodes|
  {
    nodes[..k] + [n] + nodes[k..]
  }

  function Removed(nodes: seq<ListNode>, k: nat): seq<ListNode>
    requires k < |nodes|
  {
    nodes[..k] + nodes[k + 1..]
  }

  /** Count one item more or less, in the list's head and, for a chain, in the map's. */
  method AddToCount(n: ListNode, delta: int, ghost h: ListNode, ghost m: ListNode)
    requires GetHead(n) == h && Root(h, m)
    requires h.Hits + delta >= 0 && m.Hits + delta >= 0
    modifies h`Hits, m`Hits
    ensures h.Hits == old(h.Hits) + delta && m.Hits == old(m.Hits) + delta
  {
    var head := GetHead(n);
    if MapChain in head.Flags {
      head.Hits := head.Hits + delta;
      head := head.Head;
    }
    head.Hits := head.Hits + delta;
  }

  lemma InsertedDistinct(nodes: seq<ListNode>, k: nat, n: ListNode)
    requires k <= |nodes| && Distinct(nodes) && n !in nodes
    ensures Distinct(Inserted(nodes, k, n))
  {
  }

  lemma InsertedTail(nodes: seq<ListNode>, k: nat, n: ListNode)
    requires 1 <= k <= |nodes|
    ensures |Inserted(nodes, k, n)| == |nodes| + 1 && Inserted(nodes, k, n)[0] == nodes[0]
    ensures Inserted(nodes, k, n)[|nodes|] == if k == |nodes| then n else nodes[|nodes| - 1]
    ensures forall x :: x in nodes[1..] ==> x in Inserted(nodes, k, n)[1..]
  {
    assert Inserted(nodes, k, n)[1..] == nodes[1..k] + [n] + nodes[k..];
    assert nodes[1..] == nodes[1..k] + nodes[k..];
  }

  /** The links that make the new list, in terms of the old one. */
  lemma LinkedInserted(nodes: seq<ListNode>, k: nat, node: ListNode)
    requires LinksInserted(nodes, k, node)
    ensures Linked(Inserted(nodes, k + 1, node))
  {
  }

  lemma OwnedInserted(nodes: seq<ListNode>, k: nat, node: ListNode)
    requires 1 <= k <= |nodes| && Owned(nodes)
    requires node.Head == nodes[0] && node.Flags !! {MapHead, MapChain}
    ensures Owned(Inserted(nodes, k, node))
  {
  }

  /** What threading leaves alone in the nodes of a list. */
  twostate predicate SameContent(nodes: seq<ListNode>)
    reads nodes
  {
    forall i :: 0 <= i < |nodes| ==>
      && nodes[i].Tag == old(nodes[i].Tag) && nodes[i].Item == old(nodes[i].Item)
        && nodes[i].ItemType == old(nodes[i].ItemType)
      && nodes[i].Flags == old(nodes[i].Flags) && nodes[i].Max == old(nodes[i].Max)
        && nodes[i].Chains == old(nodes[i].Chains)
  }

  lemma OnlyAt(nodes: seq<ListNode>, k: nat)
    requires k < |nodes| && Distinct(nodes)
    ensures forall i :: 0 <= i < |nodes| && nodes[i] == nodes[k] ==> i == k
  {
  }

  ghost predicate LinksInserted(nodes: seq<ListNode>, k: nat, node: ListNode)
    reads nodes, node
  {
    && k < |nodes|
    && (forall i {:trigger nodes[i].Next} :: 0 <= i < |nodes| ==>
          nodes[i].Next == if i == k then node else if i + 1 < |nodes| then nodes[i + 1] else null)
    && (forall i {:trigger nodes[i].Prev} :: 1 <= i < |nodes| ==>
          nodes[i].Prev == if i == k + 1 then node else nodes[i - 1])
    && node.Prev == nodes[k] && node.Next == (if k + 1 < |nodes| then nodes[k + 1] else null)
  }

  /** The pointer writes of threading. */
  method WriteLinks(prev: ListNode, node: ListNode, head: ListNode, ghost nodes: seq<ListNode>, ghost k: nat)
    requires |nodes| > 0 && Distinct(nodes) && Linked(nodes) && k < |nodes| && prev == nodes[k] && node !in nodes
    requires head == nodes[0]
    modifies nodes`Prev, nodes`Next, node`Prev, node`Next, node`Head
    ensures LinksInserted(nodes, k, node) && node.Head == head
    ensures head.Prev == if k == |nodes| - 1 then node else old(head.Prev)
  {
    OnlyAt(nodes, 0);
    OnlyAt(nodes, k);
    OnlyAt(nodes, if k + 1 < |nodes| then k + 1 else k);
    hide Distinct;
    var next := prev.Next;
    node.Prev := prev;
    prev.Next := node;
    node.Next := next;
    node.Head := head;
    if next != null {
      next.Prev := node;
    } else {
      head.Prev := node;
    }
  }

  /** The pointers of threading: node goes between prev and what follows it. */
  method LinkIn(prev: ListNode, node: ListNode, ghost nodes: seq<ListNode>, ghost k: nat)
    requires Chain(nodes) && k < |nodes| && prev == nodes[k] && node !in nodes
    requires GetHead(prev) == nodes[0] && node.Flags !! {MapHead, MapChain}
    modifies nodes`Prev, nodes`Next, node`Prev, node`Next, node`Head
    ensures Shape(Inserted(nodes, k + 1, node), |nodes| - 1)
  {
    InsertedDistinct(nodes, k + 1, node);
    InsertedTail(nodes, k + 1, node);
    hide Distinct, Inserted, LinksInserted;
    WriteLinks(prev, node, GetHead(prev), nodes, k);
    LinkedInserted(nodes, k, node);
    OwnedInserted(nodes, k + 1, node);
  }

  /** Changing the count of a list's head changes nothing else about the list. */
  twostate lemma Recounted(nodes: seq<ListNode>)
    requires |nodes| > 0 && old(Shape(nodes, nodes[0].Hits))
    requires forall i {:trigger nodes[i].Next} :: 0 <= i < |nodes| ==> nodes[i].Next == old(nodes[i].Next)
    requires forall i {:trigger nodes[i].Prev} :: 0 <= i < |nodes| ==> nodes[i].Prev == old(nodes[i].Prev)
    requires forall i {:trigger nodes[i].Head} :: 0 <= i < |nodes| ==> nodes[i].Head == old(nodes[i].Head)
    requires forall i {:trigger nodes[i].Flags} :: 0 <= i < |nodes| ==> nodes[i].Flags == old(nodes[i].Flags)
    requires nodes[0].Side == old(nodes[0].Side)
    ensures Shape(nodes, nodes[0].Hits)
  {
  }

  lemma ShapeCount(nodes: seq<ListNode>, count: int)
    requires Shape(nodes, count)
    ensures |nodes| > 0 && nodes[0].Hits == count
  {
  }

  lemma HeadOf(nodes: seq<ListNode>, k: nat, m: ListNode)
    requires Chain(nodes) && k < |nodes| && Root(nodes[0], m)
    ensures GetHead(nodes[k]) == nodes[0] && nodes[0].Hits == |nodes| - 1
  {
  }

  /** Slot node in behind prev, which is item k of the list (its head for k = 0). */
  method ThreadNode(prev: ListNode, node: ListNode, ghost nodes: seq<ListNode>, ghost k: nat, ghost m: ListNode)
    requires Chain(nodes) && k < |nodes| && prev == nodes[k] && node !in nodes && node != m
    requires node.Flags !! {MapHead, MapChain}
    requires Root(nodes[0], m) && m !in nodes[1..]
    modifies nodes, node, m`Hits
    ensures Chain(Inserted(nodes, k + 1, node))
    ensures m.Hits == old(m.Hits) + 1 && Root(nodes[0], m)
    ensures nodes[0].Side == old(nodes[0].Side)
    ensures SameContent(nodes + [node])
  {
    hide Distinct, Inserted, Shape;
    HeadOf(nodes, k, m);
    InsertedTail(nodes, k + 1, node);
    LinkIn(prev, node, nodes, k);
    ShapeCount(Inserted(nodes, k + 1, node), |nodes| - 1);
    label Threaded:
    AddToCount(prev, 1, nodes[0], m);
    Recounted@Threaded(Inserted(nodes, k + 1, node));
  }

  // ---------------------------------------------------------------- unthreading

  lemma RemovedDistinct(nodes: seq<ListNode>, k: nat)
    requires 1 <= k < |nodes| && Distinct(nodes)
    ensures |Removed(nodes, k)| == |nodes| - 1 && Removed(nodes, k)[0] == nodes[0]
    ensures Removed(nodes, k)[|nodes| - 2] == if k == |nodes| - 1 then nodes[|nodes| - 2] else nodes[|nodes| - 1]
    ensures Distinct(Removed(nodes, k)) && nodes[k] !in Removed(nodes, k)
    ensures forall x :: x in nodes[1..] && x != nodes[k] ==> x in Removed(nodes, k)[1..]
  {
    assert Removed(nodes, k)[1..] == nodes[1..k] + nodes[k + 1..];
    assert nodes[1..] == nodes[1..k] + [nodes[k]] + nodes[k + 1..];
  }

  ghost predicate LinksRemoved(nodes: seq<ListNode>, k: nat)
    reads nodes
  {
    && 1 <= k < |nodes|
    && (forall i {:trigger nodes[i].Next} :: 0 <= i < |nodes| && i != k ==>
          nodes[i].Next == if i == k - 1 then (if k + 1 < |nodes| then nodes[k + 1] else null)
                           else if i + 1 < |nodes| then nodes[i + 1] else null)
    && (forall i {:trigger nodes[i].Prev} :: 1 <= i < |nodes| && i != k ==>
          nodes[i].Prev == if i == k + 1 then nodes[k - 1] else nodes[i - 1])
  }

  lemma LinkedRemoved(nodes: seq<ListNode>, k: nat)
    requires LinksRemoved(nodes, k)
    ensures Linked(Removed(nodes, k))
  {
  }

  lemma OwnedRemoved(nodes: seq<ListNode>, k: nat)
    requires 1 <= k < |nodes|
    requires forall i {:trigger nodes[i].Head} :: 1 <= i < |nodes| && i != k ==> nodes[i].Head == nodes[0]
    requires forall i {:trigger nodes[i].Flags} :: 1 <= i < |nodes| && i != k ==> nodes[i].Flags !! {MapHead, MapChain}
    ensures Owned(Removed(nodes, k))
  {
  }

  /** What unthreading does to the node's neighbours and to the head. */
  method ClearLinks(node: ListNode, head: ListNode, ghost nodes: seq<ListNode>, ghost k: nat)
    requires Distinct(nodes) && 1 <= k < |nodes| && Linked(nodes) && node == nodes[k] && head == nodes[0]
    requires head.Prev == nodes[|nodes| - 1]
    modifies nodes`Prev, nodes`Next, head`Side
    ensures LinksRemoved(nodes, k)
    ensures head.Prev == if k < |nodes| - 1 then nodes[|nodes| - 1] else if k == 1 then null else nodes[k - 1]
    ensures head.Side == if old(head.Side) == node then null else old(head.Side)
  {
    OnlyAt(nodes, 0);
    OnlyAt(nodes, k);
    OnlyAt(nodes, k - 1);
    OnlyAt(nodes, if k + 1 < |nodes| then k + 1 else k);
    OnlyAt(nodes, |nodes| - 1);
    hide Distinct;
    var prev, next := node.Prev, node.Next;
    if prev != null { prev.Next := next; }
    if next != null { next.Prev := prev; }
    if head.Prev == node {
      head.Prev := node.Prev;
      if head.Prev == head { head.Prev := null; }
    }
    if head.Side == node { head.Side := null; }
    // two further updates of the head in the source repeat what is done by here
  }

  /** The pointers of unthreading, after which node stands alone. */
  method LinkOut(node: ListNode, ghost nodes: seq<ListNode>, ghost k: nat, ghost count: int)
    requires Shape(nodes, count) && 1 <= k < |nodes| && node == nodes[k]
    modifies nodes`Prev, nodes`Next, nodes`Head, nodes`Side
    ensures Shape(Removed(nodes, k), count)
    ensures node.Next == null && node.Prev == null && node.Head == null && node.Side == null
    ensures nodes[0].Side == if old(nodes[0].Side) == node then null else old(nodes[0].Side)
    ensures nodes[0].Head == old(nodes[0].Head)
  {
    RemovedDistinct(nodes, k);
    OnlyAt(nodes, k);
    hide Removed, Distinct;
    assert nodes[k].Head == nodes[0];
    var head := GetHead(node);
    if head != null {
      ClearLinks(node, head, nodes, k);
    }
    node.Head, node.Prev, node.Next, node.Side := null, null, null, null;
    LinkedRemoved(nodes, k);
    OwnedRemoved(nodes, k);
  }

  /** Take node, item k of the list, out of it. */
  method UnThreadNode(node: ListNode, ghost nodes: seq<ListNode>, ghost k: nat, ghost m: ListNode)
    requires Chain(nodes) && 1 <= k < |nodes| && node == nodes[k]
    requires Root(nodes[0], m) && m !in nodes[1..] && m.Hits > 0
    modifies nodes, m`Hits
    ensures Chain(Removed(nodes, k))
    ensures m.Hits == old(m.Hits) - 1 && Root(nodes[0], m)
    ensures nodes[0].Side == if old(nodes[0].Side) == node then null else old(nodes[0].Side)
    ensures node.Next == null && node.Prev == null && node.Head == null && node.Side == null
    ensures SameContent(nodes)
  {
    hide Distinct, Removed, Shape;
    HeadOf(nodes, k, m);
    AddToCount(node, -1, nodes[0], m);
    Recounted(nodes);
    RemovedDistinct(nodes, k);
    LinkOut(node, nodes, k, |nodes| - 2);
  }
}
