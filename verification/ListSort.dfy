/**
 Sorting a list in place by swapping neighbours. It ends for every strict weak order, and the Next/Prev chain is then
 the one sorted arrangement that keeps the order of equals. A swap moves the head's pointer to the last item only if
 it points to the first of the two.
 */
module ListSort {
  import opened Lists

  // ---------------------------------------------------------------- sorting keys

  /** What items are compared by. */
  datatype Key = Key(tag: string, item: int)

  type Order = (Key, Key) -> bool

  ghost predicate StrictWeak(before: Order) {
    && (forall a, b :: before(a, b) ==> !before(b, a))
    && (forall a, b, c :: before(a, c) ==> before(a, b) || before(b, c))
  }

  /** How many of ks stand before k. */
  function CountBefore(before: Order, k: Key, ks: seq<Key>): nat {
    if ks == [] then 0 else (if before(ks[0], k) then 1 else 0) + CountBefore(before, k, ks[1..])
  }

  /** The number of pairs in the wrong order. */
  function Inversions(before: Order, ks: seq<Key>): nat {
    if ks == [] then 0 else CountBefore(before, ks[0], ks[1..]) + Inversions(before, ks[1..])
  }

  /** s with its elements p - 1 and p exchanged. */
  function Swapped<T>(s: seq<T>, p: nat): (r: seq<T>)
    requires 1 <= p < |s|
    ensures |r| == |s|
  {
    s[p - 1 := s[p]][p := s[p - 1]]
  }

  lemma {:induction false} CountOfSwapped(before: Order, k: Key, ks: seq<Key>, p: nat)
    requires 1 <= p < |ks|
    ensures CountBefore(before, k, Swapped(ks, p)) == CountBefore(before, k, ks)
  {
    var r := Swapped(ks, p);
    if p == 1 {
      assert r[1..][1..] == ks[1..][1..];
    } else {
      CountOfSwapped(before, k, ks[1..], p - 1);
      assert r[1..] == Swapped(ks[1..], p - 1);
    }
  }

  /** Swapping two neighbours in the wrong order rights one pair and disturbs no other. */
  lemma {:induction false} SwapRightsOne(before: Order, ks: seq<Key>, p: nat)
    requires 1 <= p < |ks| && before(ks[p], ks[p - 1]) && !before(ks[p - 1], ks[p])
    ensures Inversions(before, Swapped(ks, p)) == Inversions(before, ks) - 1
  {
    var r := Swapped(ks, p);
    if p == 1 {
      var t := ks[1..][1..];
      assert r[1..][1..] == t;
      assert r[1..][0] == ks[0] && ks[1..][0] == ks[1];
      assert CountBefore(before, ks[0], ks[1..]) == 1 + CountBefore(before, ks[0], t);
      assert CountBefore(before, ks[1], r[1..]) == CountBefore(before, ks[1], t);
    } else {
      SwapRightsOne(before, ks[1..], p - 1);
      assert r[1..] == Swapped(ks[1..], p - 1);
      CountOfSwapped(before, ks[0], ks[1..], p - 1);
    }
  }

  ghost predicate SortedKeys(before: Order, ks: seq<Key>) {
    forall i, j :: 0 <= i < j < |ks| ==> !before(ks[j], ks[i])
  }

  /** Once no two neighbours are in the wrong order, no two elements are. */
  lemma {:induction false} NeighboursSuffice(before: Order, ks: seq<Key>)
    requires StrictWeak(before)
    requires forall i :: 1 <= i < |ks| ==> !before(ks[i], ks[i - 1])
    ensures SortedKeys(before, ks)
  {
    if |ks| > 1 {
      var m := |ks| - 1;
      NeighboursSuffice(before, ks[..m]);
      forall i | 0 <= i < m
        ensures !before(ks[m], ks[i])
      {
        if i < m - 1 {
          assert !before(ks[..m][m - 1], ks[..m][i]);
        }
      }
      forall i, j | 0 <= i < j < |ks|
        ensures !before(ks[j], ks[i])
      {
        if j < m {
          assert !before(ks[..m][j], ks[..m][i]);
        }
      }
    }
  }

  // ---------------------------------------------------------------- the list

  function KeyOf(n: ListNode): Key
    reads n
  {
    Key(n.Tag, n.Item)
  }

  ghost function Keys(items: seq<ListNode>): (ks: seq<Key>)
    reads items
    ensures |ks| == |items| && forall i :: 0 <= i < |items| ==> ks[i] == KeyOf(items[i])
  {
    if items == [] then [] else Keys(items[..|items| - 1]) + [KeyOf(items[|items| - 1])]
  }

  ghost predicate Strung(nodes: seq<ListNode>)
    reads nodes
  {
    |nodes| > 0 && Distinct(nodes) && Linked(nodes) && Owned(nodes) && PlainHead(nodes[0])
  }

  /** A plain list as far as Next, Prev and Head tell; nothing about the head's own Prev. */
  ghost predicate Threaded(list: ListNode, items: seq<ListNode>)
    reads list, items
  {
    Strung([list] + items)
  }

  lemma ListIsThreaded(list: ListNode, items: seq<ListNode>)
    requires Chain([list] + items) && PlainHead(list)
    ensures Threaded(list, items)
  {
  }

  /** Threading, the count and the pointer to the last item make a list again. */
  lemma ThreadedWithTail(list: ListNode, items: seq<ListNode>)
    requires Threaded(list, items) && list.Hits == |items| && (list.Side == null || list.Side in items)
    requires items != [] && list.Prev == items[|items| - 1]
    ensures Chain([list] + items)
  {
    assert ([list] + items)[1..] == items;
  }

  lemma DistinctSwapped(s: seq<ListNode>, q: nat)
    requires 1 <= q && q + 1 < |s| && Distinct(s)
    ensures Distinct(Swapped(s, q + 1)) && Swapped(s, q + 1)[0] == s[0]
  {
    var t := Swapped(s, q + 1);
    assert t[q] == s[q + 1] && t[q + 1] == s[q];
    assert forall i :: 0 <= i < |t| && i != q && i != q + 1 ==> t[i] == s[i];
  }

  ghost predicate NextSwapped(s: seq<ListNode>, q: nat)
    reads s
  {
    1 <= q && q + 1 < |s| &&
    forall i {:trigger s[i].Next} :: 0 <= i < |s| ==>
      s[i].Next == if i == q - 1 then s[q + 1] else if i == q + 1 then s[q]
                   else if i == q then (if q + 2 < |s| then s[q + 2] else null)
                   else if i + 1 < |s| then s[i + 1] else null
  }

  ghost predicate PrevSwapped(s: seq<ListNode>, q: nat)
    reads s
  {
    1 <= q && q + 1 < |s| &&
    forall i {:trigger s[i].Prev} :: 1 <= i < |s| ==>
      s[i].Prev == if i == q + 1 then s[q - 1] else if i == q then s[q + 1] else if i == q + 2 then s[q] else s[i - 1]
  }

  /** The links after a swap of nodes q and q + 1, in terms of the old sequence. */
  lemma LinkedSwapped(s: seq<ListNode>, q: nat)
    requires NextSwapped(s, q) && PrevSwapped(s, q)
    ensures Linked(Swapped(s, q + 1))
  {
  }

  lemma OwnedSwapped(s: seq<ListNode>, q: nat)
    requires 1 <= q && q + 1 < |s| && Owned(s)
    ensures Owned(Swapped(s, q + 1))
  {
  }

  /** The pointers of a swap. */
  method SwapLinks(item1: ListNode, item2: ListNode, head: ListNode, ghost s: seq<ListNode>, ghost q: nat)
    requires 1 <= q && q + 1 < |s| && Distinct(s) && Linked(s) && item1 == s[q] && item2 == s[q + 1] && head == s[0]
    modifies s`Next, s`Prev
    ensures NextSwapped(s, q) && PrevSwapped(s, q)
    ensures head.Prev == if old(head.Prev) == item1 then item2 else old(head.Prev)
    ensures item2.Next == item1
  {
    OnlyAt(s, 0);
    OnlyAt(s, q - 1);
    OnlyAt(s, q);
    OnlyAt(s, q + 1);
    OnlyAt(s, if q + 2 < |s| then q + 2 else q);
    var prev, next := item1.Prev, item2.Next;
    assert prev == s[q - 1] && next == (if q + 2 < |s| then s[q + 2] else null);
    assert head.Next == item1 <==> q == 1;
    hide Distinct;
    if head.Next == item1 { head.Next := item2; }
    if head.Prev == item1 { head.Prev := item2; }
    if prev != null { prev.Next := item2; }
    item1.Prev := item2;
    item1.Next := next;
    if next != null { next.Prev := item1; }
    item2.Prev := prev;
    item2.Next := item1;
  }

  /** ListSwapItems on neighbours, nodes q and q + 1 counted from the head. */
  method SwapItems(item1: ListNode, item2: ListNode, ghost s: seq<ListNode>, ghost q: nat)
    requires Strung(s) && 1 <= q && q + 1 < |s| && item1 == s[q] && item2 == s[q + 1]
    modifies s`Next, s`Prev
    ensures Strung(Swapped(s, q + 1))
    ensures s[0].Prev == if old(s[0].Prev) == item1 then item2 else old(s[0].Prev)
    ensures item2.Next == item1
  {
    DistinctSwapped(s, q);
    OnlyAt(s, q - 1);
    OnlyAt(s, q);
    OnlyAt(s, q + 1);
    OnlyAt(s, if q + 2 < |s| then q + 2 else q);
    hide Distinct, Swapped;
    assert q + 2 < |s| ==> s[q + 2].Prev == item2;
    assert item1.Head == s[0] && item1.Prev == s[q - 1] && item2.Next == if q + 2 < |s| then s[q + 2] else null;
    var head := GetHead(item1);
    if head == item1 || head == item2 {
      return;
    }
    SwapLinks(item1, item2, head, s, q);
    assert NextSwapped(s, q) && PrevSwapped(s, q);
    LinkedSwapped(s, q);
    OwnedSwapped(s, q);
  }

  // ---------------------------------------------------------------- the sort

  /** now has the items in another order, and a pair is the other way round only where before demands it. */
  ghost predicate Rearranged(before: Order, items: seq<ListNode>, now: seq<ListNode>, ks: seq<Key>) {
    && |ks| == |now| && multiset(now) == multiset(items)
    && forall i, j, k, l ::
         0 <= i < j < |now| && 0 <= k < l < |items| && now[i] == items[l] && now[j] == items[k] ==> before(ks[i], ks[j])
  }

  lemma NotYetRearranged(before: Order, items: seq<ListNode>, ks: seq<Key>)
    requires Distinct(items) && |ks| == |items|
    ensures Rearranged(before, items, items, ks)
  {
  }

  lemma SwapKeepsItems<T>(s: seq<T>, p: nat)
    requires 1 <= p < |s|
    ensures multiset(Swapped(s, p)) == multiset(s)
  {
    var t := Swapped(s, p);
    assert s == s[..p - 1] + [s[p - 1], s[p]] + s[p + 1..];
    assert t == s[..p - 1] + [s[p], s[p - 1]] + s[p + 1..];
  }

  lemma SwapRearranges(before: Order, items: seq<ListNode>, now: seq<ListNode>, ks: seq<Key>, p: nat)
    requires Rearranged(before, items, now, ks) && 1 <= p < |now| && before(ks[p], ks[p - 1])
    ensures Rearranged(before, items, Swapped(now, p), Swapped(ks, p))
  {
    SwapKeepsItems(now, p);
    var after, tks := Swapped(now, p), Swapped(ks, p);
    forall i, j, k, l |
      0 <= i < j < |after| && 0 <= k < l < |items| && after[i] == items[l] && after[j] == items[k]
      ensures before(tks[i], tks[j])
    {
      if i != p - 1 || j != p {
        var a := if i == p - 1 then p else if i == p then p - 1 else i;
        var b := if j == p - 1 then p else if j == p then p - 1 else j;
        assert now[a] == after[i] && now[b] == after[j];
      }
    }
  }

  lemma SwappedAt<T>(s: seq<T>, p: nat)
    requires 1 <= p < |s|
    ensures Swapped(s, p)[p - 1] == s[p] && Swapped(s, p)[p] == s[p - 1]
  {
  }

  predicate Keyed(nodes: seq<ListNode>, ks: seq<Key>)
    reads nodes
  {
    |ks| == |nodes| && forall i :: 0 <= i < |nodes| ==> ks[i] == KeyOf(nodes[i])
  }

  /** The head's Prev is the last item exactly as long as that is the item it was before the sort. */
  predicate TailFollows(tail: ListNode?, items: seq<ListNode>, now: seq<ListNode>) {
    items != [] && |now| == |items| ==>
      (tail == now[|now| - 1] <==> now[|now| - 1] == items[|items| - 1])
  }

  /** Where the head's Prev points to after a swap. */
  function TailAfter(tail: ListNode?, now: seq<ListNode>, p: nat): ListNode?
    requires 1 <= p < |now|
  {
    if tail == now[p - 1] then now[p] else tail
  }

  /**
   The item that was last does not come back to the end: those that have passed it are those that before puts behind
   it. And the head's Prev never comes nearer to the end.
   */
  lemma TailStep(before: Order, items: seq<ListNode>, now: seq<ListNode>, ks: seq<Key>, p: nat, tail: ListNode?)
    requires StrictWeak(before) && Rearranged(before, items, now, ks) && Distinct(now) && |now| == |items|
    requires 1 <= p < |now| && before(ks[p], ks[p - 1])
    requires tail == now[|now| - 1] <==> now[|now| - 1] == items[|items| - 1]
    ensures var after := Swapped(now, p);
            TailAfter(tail, now, p) == after[|now| - 1] <==> after[|now| - 1] == items[|items| - 1]
  {
    var n := |now| - 1;
    assert now[n] in multiset(now) && now[n] in items;
    var k :| 0 <= k < |items| && items[k] == now[n];
    assert k == n || items[n] != now[n - 1] || before(ks[n - 1], ks[n]);
  }

  /** How far a pass has come: prev and curr around position p. */
  predicate PassAt(list: ListNode, now: seq<ListNode>, prev: ListNode?, curr: ListNode?, p: nat) {
    && p <= |now| && prev == (if p == 0 then null else now[p - 1])
    && curr == (if p < |now| then now[p] else null)
  }

  lemma ThreadedLinks(list: ListNode, now: seq<ListNode>)
    requires Threaded(list, now)
    ensures list.Next == (if now == [] then null else now[0])
    ensures forall i {:trigger now[i]} :: 0 <= i < |now| ==> now[i].Next == if i + 1 < |now| then now[i + 1] else null
    ensures Distinct(now)
  {
    var s := [list] + now;
    assert forall i {:trigger now[i]} :: 0 <= i < |now| ==> now[i] == s[i + 1];
    assert now != [] ==> s[0].Next == s[1];
  }

  lemma SwapInList(list: ListNode, now: seq<ListNode>, p: nat)
    requires 1 <= p < |now|
    ensures [list] + Swapped(now, p) == Swapped([list] + now, p + 1)
    ensures ([list] + now)[p] == now[p - 1] && ([list] + now)[p + 1] == now[p]
  {
  }

  lemma OnlyItems(list: ListNode, items: seq<ListNode>, now: seq<ListNode>)
    requires multiset(now) == multiset(items)
    ensures var s := [list] + now; forall i :: 0 <= i < |s| ==> s[i] == list || s[i] in items
  {
    var s := [list] + now;
    forall i | 1 <= i < |s|
      ensures s[i] in items
    {
      assert s[i] == now[i - 1] && s[i] in multiset(now);
    }
  }

  /** No pair of neighbours in front of position p is in the wrong order. */
  ghost predicate OrderedTo(before: Order, ks: seq<Key>, p: nat) {
    p <= |ks| && forall i :: 1 <= i < p ==> !before(ks[i], ks[i - 1])
  }

  /** The list with its items in the order of now, whose keys are ks, is a rearrangement of items. */
  ghost predicate UnderWay(list: ListNode, before: Order, items: seq<ListNode>, now: seq<ListNode>, ks: seq<Key>)
    reads list, now
  {
    Threaded(list, now) && Keyed(now, ks) && Rearranged(before, items, now, ks)
  }

  lemma UnderWayFacts(list: ListNode, before: Order, items: seq<ListNode>, now: seq<ListNode>, ks: seq<Key>)
    requires UnderWay(list, before, items, now, ks)
    ensures |ks| == |now|
    ensures list.Next == (if now == [] then null else now[0])
    ensures forall i {:trigger now[i]} :: 0 <= i < |now| ==> now[i].Next == if i + 1 < |now| then now[i + 1] else null
    ensures forall i {:trigger now[i]} :: 0 <= i < |now| ==> KeyOf(now[i]) == ks[i]
  {
    ThreadedLinks(list, now);
  }

  /** What a pass sees at position p, and where its next step leads without a swap. */
  lemma PassFacts(list: ListNode, before: Order, items: seq<ListNode>, now: seq<ListNode>, ks: seq<Key>,
                  prev: ListNode?, curr: ListNode, p: nat)
    requires UnderWay(list, before, items, now, ks) && PassAt(list, now, prev, curr, p)
    ensures p < |now| == |ks| && KeyOf(curr) == ks[p]
    ensures prev != null <==> p > 0
    ensures prev != null ==> KeyOf(prev) == ks[p - 1]
    ensures PassAt(list, now, curr, curr.Next, p + 1)
  {
    UnderWayFacts(list, before, items, now, ks);
  }

  lemma PassStarts(list: ListNode, before: Order, items: seq<ListNode>, now: seq<ListNode>, ks: seq<Key>)
    requires UnderWay(list, before, items, now, ks)
    ensures PassAt(list, now, null, list.Next, 0)
  {
    UnderWayFacts(list, before, items, now, ks);
  }

  lemma PassEnds(list: ListNode, before: Order, items: seq<ListNode>, now: seq<ListNode>, ks: seq<Key>,
                 prev: ListNode?, p: nat)
    requires UnderWay(list, before, items, now, ks) && PassAt(list, now, prev, null, p)
    ensures p == |ks|
  {
  }

  lemma UnderWayAgain(list: ListNode, before: Order, items: seq<ListNode>, now: seq<ListNode>, ks: seq<Key>, p: nat)
    requires 1 <= p < |now| && Keyed(now, ks) && Strung(Swapped([list] + now, p + 1))
    requires Rearranged(before, items, Swapped(now, p), Swapped(ks, p))
    ensures UnderWay(list, before, items, Swapped(now, p), Swapped(ks, p))
  {
    hide Rearranged, Strung;
    SwapInList(list, now, p);
  }

  lemma TailInSwap(list: ListNode, before: Order, items: seq<ListNode>, now: seq<ListNode>, ks: seq<Key>, p: nat,
                   tail: ListNode?)
    requires StrictWeak(before) && UnderWay(list, before, items, now, ks)
    requires 1 <= p < |now| == |ks| && before(ks[p], ks[p - 1]) && TailFollows(tail, items, now)
    ensures TailFollows(TailAfter(tail, now, p), items, Swapped(now, p))
  {
    ThreadedLinks(list, now);
    if |now| == |items| {
      TailStep(before, items, now, ks, p, tail);
    }
  }

  /** A swap within a pass: one inversion fewer. */
  method SwapStep(list: ListNode, before: Order, prev: ListNode, curr: ListNode,
                  ghost items: seq<ListNode>, ghost now: seq<ListNode>, ghost ks: seq<Key>, ghost p: nat)
    requires StrictWeak(before) && UnderWay(list, before, items, now, ks)
    requires 1 <= p < |now| && PassAt(list, now, prev, curr, p) && before(ks[p], ks[p - 1])
    modifies list`Next, list`Prev, items`Next, items`Prev
    ensures UnderWay(list, before, items, Swapped(now, p), Swapped(ks, p))
    ensures Inversions(before, Swapped(ks, p)) == Inversions(before, ks) - 1
    ensures curr.Next == prev && PassAt(list, Swapped(now, p), curr, prev, p)
    ensures list.Prev == TailAfter(old(list.Prev), now, p)
  {
    OnlyItems(list, items, now);
    SwapInList(list, now, p);
    SwapRightsOne(before, ks, p);
    SwapRearranges(before, items, now, ks, p);
    hide StrictWeak, Rearranged, Strung, Inversions, Swapped;
    SwapItems(prev, curr, [list] + now, p);
    SwappedAt(now, p);
    UnderWayAgain(list, before, items, now, ks, p);
  }

  lemma OrderedFurther(before: Order, ks: seq<Key>, p: nat)
    requires OrderedTo(before, ks, p) && p < |ks| && (p > 0 ==> !before(ks[p], ks[p - 1]))
    ensures OrderedTo(before, ks, p + 1)
  {
  }

  lemma OrderedFromStart(before: Order, ks: seq<Key>)
    ensures OrderedTo(before, ks, 0)
  {
  }

  /** One pass of the sort: whatever it swaps costs inversions. */
  method Pass(list: ListNode, before: Order, ghost items: seq<ListNode>, ghost now0: seq<ListNode>, ghost ks0: seq<Key>)
    returns (sorted: bool, ghost now: seq<ListNode>, ghost ks: seq<Key>)
    requires StrictWeak(before) && UnderWay(list, before, items, now0, ks0)
    modifies list`Next, list`Prev, items`Next, items`Prev
    ensures UnderWay(list, before, items, now, ks)
    ensures sorted ==> ks == ks0 && OrderedTo(before, ks, |ks|)
    ensures !sorted ==> Inversions(before, ks) < Inversions(before, ks0)
    ensures old(TailFollows(list.Prev, items, now0)) ==> TailFollows(list.Prev, items, now)
  {
    hide StrictWeak, Rearranged, Inversions, Swapped, UnderWay, OrderedTo, PassAt, TailFollows, TailAfter;
    ghost var follows := TailFollows(list.Prev, items, now0);
    now, ks, sorted := now0, ks0, true;
    OrderedFromStart(before, ks);
    PassStarts(list, before, items, now, ks);
    var prev: ListNode?, curr := null, list.Next;
    ghost var p := 0;
    while curr != null
      invariant UnderWay(list, before, items, now, ks) && PassAt(list, now, prev, curr, p)
      invariant sorted ==> OrderedTo(before, ks, p)
      invariant follows ==> TailFollows(list.Prev, items, now)
      invariant if sorted then ks == ks0 else Inversions(before, ks) < Inversions(before, ks0)
      decreases Inversions(before, ks), |now| - p
    {
      PassFacts(list, before, items, now, ks, prev, curr, p);
      if prev != null && before(KeyOf(curr), KeyOf(prev)) {
        sorted := false;
        if follows { TailInSwap(list, before, items, now, ks, p, list.Prev); }
        SwapStep(list, before, prev, curr, items, now, ks, p);
        now, ks := Swapped(now, p), Swapped(ks, p);
      } else {
        if sorted { OrderedFurther(before, ks, p); }
        p := p + 1;
      }
      prev := curr;
      curr := curr.Next;
    }
    PassEnds(list, before, items, now, ks, prev, p);
  }

  /** What is in its place after sorting: whatever before puts first, and of equals the one that stood first. */
  ghost predicate StablySorted(before: Order, items: seq<ListNode>, now: seq<ListNode>, ks: seq<Key>) {
    Rearranged(before, items, now, ks) && SortedKeys(before, ks)
  }

  lemma StartsUnderWay(list: ListNode, before: Order, items: seq<ListNode>)
    requires Threaded(list, items)
    ensures UnderWay(list, before, items, items, Keys(items))
  {
    ThreadedLinks(list, items);
    NotYetRearranged(before, items, Keys(items));
  }

  lemma EndsSorted(list: ListNode, before: Order, items: seq<ListNode>, now: seq<ListNode>, ks: seq<Key>)
    requires StrictWeak(before) && UnderWay(list, before, items, now, ks) && OrderedTo(before, ks, |ks|)
    ensures Threaded(list, now) && Keyed(now, ks) && StablySorted(before, items, now, ks)
  {
    NeighboursSuffice(before, ks);
  }

  /** No item in front of the last one has to go behind it. */
  predicate LastIsLast(before: Order, items: seq<ListNode>)
    reads items
  {
    forall i :: 0 <= i < |items| - 1 ==> !before(KeyOf(items[|items| - 1]), KeyOf(items[i]))
  }

  /** The item that was last ends up last exactly when nothing in front of it has to go behind it. */
  lemma LastStays(before: Order, items: seq<ListNode>, now: seq<ListNode>, ks: seq<Key>)
    requires StablySorted(before, items, now, ks) && Keyed(now, ks) && Distinct(items) && Distinct(now) && items != []
    ensures |now| == |items|
    ensures now[|now| - 1] == items[|items| - 1] <==> LastIsLast(before, items)
  {
    assert |multiset(now)| == |now| && |multiset(items)| == |items|;
    var n := |items| - 1;
    assert items[n] in multiset(items) && now[n] in multiset(now);
    var l :| 0 <= l < |now| && now[l] == items[n];
    var k :| 0 <= k < |items| && items[k] == now[n];
    if l == n {
      forall i | 0 <= i < n
        ensures !before(KeyOf(items[n]), KeyOf(items[i]))
      {
        assert items[i] in multiset(items) && items[i] in now;
        var j :| 0 <= j < |now| && now[j] == items[i];
      }
    } else {
      assert k < n;
      assert before(ks[l], ks[n]) && ks[n] == KeyOf(items[k]) && ks[l] == KeyOf(items[n]);
    }
  }

  /** The head's pointers when the last item and the others are known. */
  lemma TailTells(list: ListNode, items: seq<ListNode>, now: seq<ListNode>)
    requires Threaded(list, now) && multiset(now) == multiset(items) && items != []
    requires list.Hits == |items| && (list.Side == null || list.Side in items)
    ensures |now| == |items|
    ensures Chain([list] + now) <==> list.Prev == now[|now| - 1]
  {
    assert |multiset(now)| == |now| && |multiset(items)| == |items|;
    assert list.Side != null && list.Side in items ==> list.Side in multiset(now);
    var s := [list] + now;
    assert s[|s| - 1] == now[|now| - 1];
    if list.Prev == now[|now| - 1] {
      ThreadedWithTail(list, now);
    }
  }

  /** After sorting, a list is one in full shape exactly when its last item has stayed the last. */
  lemma ShapeAfterSort(list: ListNode, before: Order, items: seq<ListNode>, now: seq<ListNode>, ks: seq<Key>)
    requires Threaded(list, now) && Keyed(now, ks) && StablySorted(before, items, now, ks) && Distinct(items)
        && items != []
    requires TailFollows(list.Prev, items, now)
    requires list.Hits == |items| && (list.Side == null || list.Side in items)
    ensures Chain([list] + now) <==> LastIsLast(before, items)
  {
    ThreadedLinks(list, now);
    LastStays(before, items, now, ks);
    TailTells(list, items, now);
    hide Threaded, Chain, Keyed, SortedKeys, LastIsLast;
  }

  lemma ChainFacts(list: ListNode, items: seq<ListNode>)
    requires Chain([list] + items) && items != []
    ensures Distinct(items) && list.Hits == |items| && (list.Side == null || list.Side in items)
    ensures TailFollows(list.Prev, items, items)
  {
    var s := [list] + items;
    assert s[1..] == items && s[|s| - 1] == items[|items| - 1];
    assert forall i :: 0 <= i < |items| ==> items[i] == s[i + 1];
  }

  /** The loop of ListSort and of ListSortNamedItems: passes until one swaps nothing. */
  method SortBy(list: ListNode, before: Order, ghost items: seq<ListNode>)
    returns (ghost now: seq<ListNode>, ghost ks: seq<Key>)
    requires StrictWeak(before) && Threaded(list, items)
    modifies list`Next, list`Prev, items`Next, items`Prev
    ensures Threaded(list, now) && Keyed(now, ks) && StablySorted(before, items, now, ks)
    ensures old(Chain([list] + items)) && items != [] ==> (Chain([list] + now) <==> LastIsLast(before, items))
  {
    hide StrictWeak, Rearranged, UnderWay, Inversions, Threaded, Keys, SortedKeys, OrderedTo, Keyed, TailFollows,
         StablySorted, LastIsLast, Chain;
    StartsUnderWay(list, before, items);
    now, ks := items, Keys(items);
    ghost var follows := Chain([list] + items) && items != [];
    if follows { ChainFacts(list, items); }
    var sorted := false;
    while !sorted
      invariant UnderWay(list, before, items, now, ks)
      invariant sorted ==> OrderedTo(before, ks, |ks|)
      invariant follows ==> TailFollows(list.Prev, items, now)
      decreases Inversions(before, ks), if sorted then 0 else 1
    {
      sorted, now, ks := Pass(list, before, items, now, ks);
    }
    EndsSorted(list, before, items, now, ks);
    if follows { ShapeAfterSort(list, before, items, now, ks); }
  }

  /** ListSort on a plain list, for a comparison of what the items point to. */
  method Sort(list: ListNode, less: (int, int) -> bool, ghost items: seq<ListNode>) returns (ghost now: seq<ListNode>)
    requires StrictWeak((a: Key, b: Key) => less(a.item, b.item)) && Threaded(list, items)
    modifies list`Next, list`Prev, items`Next, items`Prev
    ensures Threaded(list, now) && multiset(now) == multiset(items)
    ensures forall i, j :: 0 <= i < j < |now| ==> !less(now[j].Item, now[i].Item)
    ensures forall i, j, k, l ::
              0 <= i < j < |now| && 0 <= k < l < |items| && now[i] == items[l] && now[j] == items[k] ==>
                less(now[i].Item, now[j].Item)
    ensures old(Chain([list] + items)) && items != [] ==>
              (Chain([list] + now) <==>
               forall i :: 0 <= i < |items| - 1 ==> !less(items[|items| - 1].Item, items[i].Item))
  {
    hide StrictWeak, Threaded;
    ghost var ks;
    now, ks := SortBy(list, (a: Key, b: Key) => less(a.item, b.item), items);
  }

  /** Two items in the wrong order are the simplest case in which the head's Prev is not the last item any more. */
  method SwappedPair(list: ListNode, a: ListNode, b: ListNode) returns (ghost now: seq<ListNode>)
    requires Chain([list, a, b]) && PlainHead(list) && a.Item == 2 && b.Item == 1
    modifies list`Next, list`Prev, a`Next, a`Prev, b`Next, b`Prev
    ensures Threaded(list, now) && multiset(now) == multiset{a, b} && !Chain([list] + now)
  {
    hide Chain, Threaded;
    var less := (x: int, y: int) => x < y;
    ghost var items := [a, b];
    assert [list] + items == [list, a, b];
    ListIsThreaded(list, items);
    now := Sort(list, less, items);
    assert less(items[1].Item, items[0].Item);
  }

  // ---------------------------------------------------------------- by name

  /** CompareStr: the order of strcmp, where a missing name counts as an empty one. */
  function Compare(a: string, b: string): (r: int)
    ensures r == 0 <==> a == b
  {
    if a == "" && b == "" then 0
    else if a == "" then -1
    else if b == "" then 1
    else if a[0] != b[0] then (if a[0] < b[0] then -1 else 1)
    else Compare(a[1..], b[1..])
  }

  lemma {:induction false} CompareFlips(a: string, b: string)
    ensures Compare(b, a) == -Compare(a, b)
  {
    if a != "" && b != "" && a[0] == b[0] {
      CompareFlips(a[1..], b[1..]);
    }
  }

  lemma {:induction false} ComparePassesOn(a: string, b: string, c: string)
    requires Compare(a, c) < 0
    ensures Compare(a, b) < 0 || Compare(b, c) < 0
  {
    if a != "" && b != "" && c != "" && a[0] == b[0] == c[0] {
      ComparePassesOn(a[1..], b[1..], c[1..]);
    }
  }

  /** a comes in front of b: up to some place they are the same, and there a ends or has the smaller character. */
  ghost predicate Precedes(a: string, b: string) {
    exists k :: 0 <= k <= |a| && k < |b| && a[..k] == b[..k] && (k == |a| || a[k] < b[k])
  }

  lemma {:induction false} CompareIsOrder(a: string, b: string)
    ensures Compare(a, b) < 0 <==> Precedes(a, b)
  {
    if a != "" && b != "" && a[0] == b[0] {
      CompareIsOrder(a[1..], b[1..]);
      PrecedesBehind(a, b);
    } else if a != "" && b != "" {
      assert forall k :: 0 < k <= |a| && k < |b| ==> a[..k][0] == a[0] && b[..k][0] == b[0];
      assert a[..0] == b[..0];
    } else if b != "" {
      assert a[..0] == b[..0];
    }
  }

  lemma PrecedesBehind(a: string, b: string)
    requires a != "" && b != "" && a[0] == b[0]
    ensures Precedes(a, b) <==> Precedes(a[1..], b[1..])
  {
    forall k | 0 <= k <= |a[1..]| && k < |b[1..]|
      ensures a[..k + 1] == b[..k + 1] <==> a[1..][..k] == b[1..][..k]
    {
      assert a[..k + 1] == [a[0]] + a[1..][..k] && b[..k + 1] == [b[0]] + b[1..][..k];
      assert a[..k + 1][1..] == a[1..][..k] && b[..k + 1][1..] == b[1..][..k];
    }
    if k :| 0 <= k <= |a| && k < |b| && a[..k] == b[..k] && (k == |a| || a[k] < b[k]) {
      assert k > 0;
      assert a[1..][..k - 1] == b[1..][..k - 1];
    }
    var x, y := a[1..], b[1..];
    if k :| 0 <= k <= |x| && k < |y| && x[..k] == y[..k] && (k == |x| || x[k] < y[k]) {
      assert a[..k + 1] == b[..k + 1];
    }
  }

  /** The later name first. */
  function ByNameDown(): Order {
    (a: Key, b: Key) => Compare(b.tag, a.tag) < 0
  }

  lemma NamesAreOrdered()
    ensures StrictWeak(ByNameDown())
  {
    forall a: Key, b: Key | Compare(b.tag, a.tag) < 0
      ensures Compare(a.tag, b.tag) >= 0
    {
      CompareFlips(a.tag, b.tag);
    }
    forall a: Key, b: Key, c: Key | Compare(c.tag, a.tag) < 0
      ensures Compare(b.tag, a.tag) < 0 || Compare(c.tag, b.tag) < 0
    {
      ComparePassesOn(c.tag, b.tag, a.tag);
    }
  }

  /** ListSortNamedItems: descending names; namesakes keep their order. */
  method SortNamedItems(list: ListNode, ghost items: seq<ListNode>) returns (ghost now: seq<ListNode>)
    requires Threaded(list, items)
    modifies list`Next, list`Prev, items`Next, items`Prev
    ensures Threaded(list, now) && multiset(now) == multiset(items)
    ensures forall i, j :: 0 <= i < j < |now| ==> !Precedes(now[i].Tag, now[j].Tag)
    ensures forall i, j, k, l ::
              0 <= i < j < |now| && 0 <= k < l < |items| && now[i] == items[l] && now[j] == items[k] ==>
                now[i].Tag != now[j].Tag
    ensures old(Chain([list] + items)) && items != [] ==>
              (Chain([list] + now) <==>
               forall i :: 0 <= i < |items| - 1 ==> !Precedes(items[i].Tag, items[|items| - 1].Tag))
  {
    hide StrictWeak, Threaded;
    NamesAreOrdered();
    ghost var ks;
    now, ks := SortBy(list, ByNameDown(), items);
    forall a: ListNode, b: ListNode
      ensures Compare(a.Tag, b.Tag) < 0 <==> Precedes(a.Tag, b.Tag)
    {
      CompareIsOrder(a.Tag, b.Tag);
    }
    hide Precedes;
  }
}
