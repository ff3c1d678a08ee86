/**
 * The doubly linked list the file browser keeps its file names in
 * (LIST.C). Each node owns a copy of its element's bytes; the list has a
 * head and a tail pointer. The ghost sequence `nodes` is the chain from
 * head to tail and `contents` the elements in that order.
 */
module LinkedList {
  import opened Utils

  /** `struct list_node_t`. */
  class Node {
    var data: seq<bv8>
    var prev: Node?
    var next: Node?

    /** A zero-filled node from `calloc` with a copy of `data`. */
    constructor (data: seq<bv8>)
      ensures this.data == data && prev == null && next == null
    {
      this.data := data;
      prev := null;
      next := null;
    }
  }

  /** `enum list_pos_t`, with any other value a caller may pass. */
  datatype Position = Prepend | Append | OtherPosition

  /** `enum list_dir_t`, with any other value a caller may pass. */
  datatype Direction = Forward | Backward | OtherDirection

  /** `struct list_t`. */
  class List {
    var head: Node?
    var tail: Node?
    ghost var nodes: seq<Node>
    ghost var contents: seq<seq<bv8>>

    /**
     * `nodes` is a chain of distinct nodes from `head` to `tail` linked
     * both ways, and `contents` holds their elements.
     */
    ghost predicate Valid()
      reads this, nodes
    {
      && |contents| == |nodes|
      && (|nodes| == 0 ==> head == null && tail == null)
      && (|nodes| > 0 ==> head == nodes[0] && tail == nodes[|nodes| - 1])
      && (forall k :: 0 <= k < |nodes| ==> nodes[k].data == contents[k])
      && (|nodes| > 0 ==> nodes[0].prev == null && nodes[|nodes| - 1].next == null)
      && (forall k :: 0 <= k < |nodes| - 1 ==> nodes[k].next == nodes[k + 1] && nodes[k + 1].prev == nodes[k])
      && (forall j, k :: 0 <= j < k < |nodes| ==> nodes[j] != nodes[k])
    }

    /** `list_create`: a zero-filled list from `calloc`, which is empty. */
    constructor ()
      ensures Valid() && nodes == [] && contents == []
    {
      head := null;
      tail := null;
      nodes := [];
      contents := [];
    }
  }

  /** `s` backwards. */
  function Reverse<T>(s: seq<T>): (r: seq<T>)
    ensures |r| == |s|
    ensures forall i :: 0 <= i < |s| ==> r[i] == s[|s| - 1 - i]
  {
    if s == [] then [] else Reverse(s[1..]) + [s[0]]
  }

  /** Reversing twice gives the sequence back. */
  lemma {:induction false} ReverseReverse<T>(s: seq<T>)
    ensures Reverse(Reverse(s)) == s
  {
    var r := Reverse(Reverse(s));
    assert |r| == |s|;
    forall i | 0 <= i < |s| ensures r[i] == s[i] {
      assert Reverse(s)[|s| - 1 - i] == s[i];
    }
  }

  /**
   * A comparator the sort can order by, such as `strcmp(a, b) > 0`: it
   * never holds both ways, and "does not hold" is transitive.
   */
  ghost predicate StrictWeakOrder(cmp: (seq<bv8>, seq<bv8>) -> bool)
  {
    && (forall a, b :: cmp(a, b) ==> !cmp(b, a))
    && (forall a, b, c :: !cmp(a, b) && !cmp(b, c) ==> !cmp(a, c))
  }

  /** No two neighbours are in the order `cmp` swaps. */
  ghost predicate Ascending(cmp: (seq<bv8>, seq<bv8>) -> bool, s: seq<seq<bv8>>)
  {
    forall k :: 0 <= k < |s| - 1 ==> !cmp(s[k], s[k + 1])
  }

  /**
   * After `|s| - li` bubble passes: the elements from `li` on are in
   * order, and none before `li` is in swap order with one from `li` on.
   */
  ghost predicate SettledFrom(cmp: (seq<bv8>, seq<bv8>) -> bool, s: seq<seq<bv8>>, li: nat)
  {
    && (forall k :: li <= k < |s| - 1 ==> !cmp(s[k], s[k + 1]))
    && (forall j, k :: 0 <= j < li <= k < |s| ==> !cmp(s[j], s[k]))
  }

  /** `s` with the elements at `i` and `i + 1` exchanged. */
  function SwapNext(s: seq<seq<bv8>>, i: nat): (r: seq<seq<bv8>>)
    requires i + 1 < |s|
    ensures |r| == |s| && r[i] == s[i + 1] && r[i + 1] == s[i]
    ensures forall k :: 0 <= k < |s| && k != i && k != i + 1 ==> r[k] == s[k]
    ensures multiset(r) == multiset(s)
  {
    s[i := s[i + 1]][i + 1 := s[i]]
  }

  /**
   * What holds of the elements `c` while a bubble pass over the first `li`
   * elements of `c0` has its cursor at `ci`: the elements are a
   * permutation of those before the pass and those from `li` on have not
   * moved; without a swap yet nothing has changed and the pairs behind the
   * cursor are in order; after a swap the cursor has moved on; and, for a
   * strict weak order, the cursor holds the largest element so far and the
   * settled part stays settled.
   */
  ghost predicate PassInvariant(cmp: (seq<bv8>, seq<bv8>) -> bool, c0: seq<seq<bv8>>, c: seq<seq<bv8>>,
                                li: nat, ci: nat, sorted: bool)
  {
    && |c| == |c0| && ci < li <= |c|
    && multiset(c) == multiset(c0)
    && c[li..] == c0[li..]
    && (sorted ==> c == c0)
    && (sorted ==> forall k :: 0 <= k < ci ==> !cmp(c[k], c[k + 1]))
    && (!sorted ==> ci >= 1)
    && (StrictWeakOrder(cmp) ==> forall j :: 0 <= j < ci ==> !cmp(c[j], c[ci]))
    && (StrictWeakOrder(cmp) && SettledFrom(cmp, c0, li) ==>
          forall j, k :: 0 <= j < li <= k < |c| ==> !cmp(c[j], c[k]))
  }

  /** One step of a pass (compare the cursor with its successor, swap them if `cmp` holds, move on) keeps the invariant. */
  lemma {:induction false} PassStep(cmp: (seq<bv8>, seq<bv8>) -> bool, c0: seq<seq<bv8>>, c: seq<seq<bv8>>,
                                    li: nat, ci: nat, sorted: bool)
    requires PassInvariant(cmp, c0, c, li, ci, sorted) && ci + 1 < li
    ensures var swap := cmp(c[ci], c[ci + 1]);
      PassInvariant(cmp, c0, if swap then SwapNext(c, ci) else c, li, ci + 1, sorted && !swap)
  {
    var swap := cmp(c[ci], c[ci + 1]);
    var c' := if swap then SwapNext(c, ci) else c;
    assert c'[li..] == c[li..];
    if StrictWeakOrder(cmp) {
      CarryLargest(cmp, c, ci);
      if SettledFrom(cmp, c0, li) {
        KeepSettled(cmp, c, c', li, ci);
      }
    }
  }

  /**
   * For a strict weak order, the element at the cursor is never in swap
   * order after any element behind it, and after the step that holds one
   * place further on.
   */
  lemma {:induction false} CarryLargest(cmp: (seq<bv8>, seq<bv8>) -> bool, c: seq<seq<bv8>>, ci: nat)
    requires StrictWeakOrder(cmp) && ci + 1 < |c|
    requires forall j :: 0 <= j < ci ==> !cmp(c[j], c[ci])
    ensures var c' := if cmp(c[ci], c[ci + 1]) then SwapNext(c, ci) else c;
      forall j :: 0 <= j < ci + 1 ==> !cmp(c'[j], c'[ci + 1])
  {
    var swap := cmp(c[ci], c[ci + 1]);
    var c' := if swap then SwapNext(c, ci) else c;
    forall j | 0 <= j < ci + 1 ensures !cmp(c'[j], c'[ci + 1]) {
      if swap {
        if j < ci {
          assert c'[j] == c[j] && c'[ci + 1] == c[ci];
        } else {
          assert !cmp(c[ci + 1], c[ci]);
        }
      } else if j < ci {
        assert !cmp(c[j], c[ci]) && !cmp(c[ci], c[ci + 1]);
      }
    }
  }

  /**
   * Exchanging two neighbours in front of `li` keeps every element in
   * front of `li` out of swap order with every element from `li` on.
   */
  lemma {:induction false} KeepSettled(cmp: (seq<bv8>, seq<bv8>) -> bool, c: seq<seq<bv8>>, c': seq<seq<bv8>>,
                                       li: nat, ci: nat)
    requires ci + 1 < li <= |c|
    requires c' == c || c' == SwapNext(c, ci)
    requires forall j, k :: 0 <= j < li <= k < |c| ==> !cmp(c[j], c[k])
    ensures forall j, k :: 0 <= j < li <= k < |c'| ==> !cmp(c'[j], c'[k])
  {
    forall j, k | 0 <= j < li <= k < |c'| ensures !cmp(c'[j], c'[k]) {
      var j' := if c' != c && j == ci then ci + 1 else if c' != c && j == ci + 1 then ci else j;
      assert c'[j] == c[j'] && c'[k] == c[k];
    }
  }

  /**
   * A pass that has reached the node before `li` leaves, for a strict weak
   * order, one more element settled.
   */
  lemma {:induction false} PassSettles(cmp: (seq<bv8>, seq<bv8>) -> bool, c0: seq<seq<bv8>>, c: seq<seq<bv8>>,
                                       li: nat, sorted: bool)
    requires li >= 1 && PassInvariant(cmp, c0, c, li, li - 1, sorted)
    requires StrictWeakOrder(cmp) && SettledFrom(cmp, c0, li)
    ensures SettledFrom(cmp, c, li - 1)
  {
    forall k | li - 1 <= k < |c| - 1 ensures !cmp(c[k], c[k + 1]) {
      if k == li - 1 {
        assert 0 <= k < li <= k + 1 < |c|;
      } else {
        assert c[k] == c0[k] && c[k + 1] == c0[k + 1];
      }
    }
  }

  /**
   * A pass that swapped nothing in front of the settled part leaves the
   * whole sequence in order.
   */
  lemma {:induction false} SettledAndCalmIsAscending(cmp: (seq<bv8>, seq<bv8>) -> bool, s: seq<seq<bv8>>, li: nat)
    requires SettledFrom(cmp, s, li) && li <= |s|
    requires forall k :: 0 <= k < li && k + 1 < |s| ==> !cmp(s[k], s[k + 1])
    ensures Ascending(cmp, s)
  {
    forall k | 0 <= k < |s| - 1 ensures !cmp(s[k], s[k + 1]) {
      if k < li {
        assert 0 <= k < li && k + 1 < |s|;
      }
    }
  }

  /**
   * `list_add`: nothing happens for a NULL list, NULL data or a zero
   * size. Otherwise a node holding a copy of the first `dataSize` bytes of
   * `data` becomes the first (PREPEND) or the last (APPEND) element; for
   * any other position the node is made but never linked in.
   */
  method Add(list: List?, data: Option<seq<bv8>>, dataSize: nat, position: Position)
    requires list != null ==> list.Valid()
    requires data.Some? ==> dataSize <= |data.value|
    modifies list, if list == null then [] else list.nodes
    ensures list != null ==> list.Valid()
    ensures list != null && (data.None? || dataSize == 0 || position == OtherPosition) ==>
      list.nodes == old(list.nodes) && list.contents == old(list.contents)
    ensures list != null && data.Some? && dataSize > 0 && position == Prepend ==>
      list.contents == [data.value[..dataSize]] + old(list.contents)
      && list.nodes[1..] == old(list.nodes) && fresh(list.nodes[0])
    ensures list != null && data.Some? && dataSize > 0 && position == Append ==>
      list.contents == old(list.contents) + [data.value[..dataSize]]
      && list.nodes[..|old(list.nodes)|] == old(list.nodes) && fresh(list.nodes[|old(list.nodes)|])
    ensures list != null && data.Some? && dataSize > 0 && position != OtherPosition && old(list.nodes) == [] ==>
      list.head == list.tail && list.head != null && list.head.prev == null && list.head.next == null
  {
    if list == null || data.None? || dataSize == 0 {
      return;
    }
    var node := new Node(data.value[..dataSize]);
    match position {
      case Prepend =>
        if list.head == null || list.tail == null {
          list.head := node;
          list.tail := node;
          list.nodes := [node];
          list.contents := [node.data];
        } else {
          PrependNode(list, node);
        }
      case Append =>
        if list.head == null || list.tail == null {
          list.head := node;
          list.tail := node;
          list.nodes := [node];
          list.contents := [node.data];
        } else {
          AppendNode(list, node);
        }
      case OtherPosition =>
    }
  }

  /** The PREPEND branch of `list_add` for a list that is not empty. */
  method PrependNode(list: List, node: Node)
    requires list.Valid() && list.head != null && node !in list.nodes
    requires node.prev == null && node.next == null
    modifies list, list.head, node
    ensures list.Valid()
    ensures list.nodes == [node] + old(list.nodes) && list.contents == [node.data] + old(list.contents)
    ensures node.data == old(node.data)
  {
    ghost var ns := list.nodes;
    var first := list.head;
    node.next := first;
    node.prev := null;
    first.prev := node;
    list.head := node;
    list.nodes := [node] + list.nodes;
    list.contents := [node.data] + list.contents;
    forall k | 1 <= k < |list.nodes| - 1
      ensures list.nodes[k].next == list.nodes[k + 1] && list.nodes[k + 1].prev == list.nodes[k]
    {
      assert list.nodes[k] == ns[k - 1] && list.nodes[k + 1] == ns[k];
    }
  }

  /** The APPEND branch of `list_add` for a list that is not empty. */
  method AppendNode(list: List, node: Node)
    requires list.Valid() && list.tail != null && node !in list.nodes
    requires node.prev == null && node.next == null
    modifies list, list.tail, node
    ensures list.Valid()
    ensures list.nodes == old(list.nodes) + [node] && list.contents == old(list.contents) + [node.data]
    ensures node.data == old(node.data)
  {
    ghost var ns := list.nodes;
    var last := list.tail;
    node.prev := last;
    node.next := null;
    last.next := node;
    list.tail := node;
    list.nodes := list.nodes + [node];
    list.contents := list.contents + [node.data];
    forall k | 0 <= k < |ns| - 1
      ensures list.nodes[k].next == list.nodes[k + 1] && list.nodes[k + 1].prev == list.nodes[k]
    {
      assert list.nodes[k] == ns[k] && list.nodes[k + 1] == ns[k + 1];
    }
  }

  /** The three assignments that swap the data pointers of `nodes[i]` and its successor. */
  method SwapWithNext(list: List, current: Node, ghost i: nat)
    requires list.Valid() && i + 1 < |list.nodes| && current == list.nodes[i]
    modifies list, list.nodes
    ensures list.Valid() && list.nodes == old(list.nodes)
    ensures list.head == old(list.head) && list.tail == old(list.tail)
    ensures list.contents == SwapNext(old(list.contents), i)
  {
    var successor := current.next;
    assert successor == list.nodes[i + 1];
    var temp := current.data;
    current.data := successor.data;
    successor.data := temp;
    list.contents := SwapNext(list.contents, i);
  }

  /**
   * The node whose successor is `last`, the node at `li` or NULL when `li`
   * is the length, is the one just before it.
   */
  lemma StopsBeforeLast(list: List, last: Node?, li: nat, ci: nat)
    requires list.Valid() && ci < li <= |list.nodes|
    requires last == if li == |list.nodes| then null else list.nodes[li]
    requires list.nodes[ci].next == last
    ensures ci == li - 1
  {
    if ci + 1 < |list.nodes| {
      assert list.nodes[ci].next == list.nodes[ci + 1];
    }
  }

  /**
   * While the successor of the node at `ci` is not `last`, that successor
   * is the next node of the pass.
   */
  lemma NextBeforeLast(list: List, last: Node?, li: nat, ci: nat)
    requires list.Valid() && ci < li <= |list.nodes|
    requires last == if li == |list.nodes| then null else list.nodes[li]
    requires list.nodes[ci].next != last
    ensures ci + 1 < li && list.nodes[ci].next == list.nodes[ci + 1]
  {
    if ci + 1 < |list.nodes| {
      assert list.nodes[ci].next == list.nodes[ci + 1];
    }
  }

  /**
   * One pass of the bubble sort of `list_sort`: `current` walks from the
   * head up to the node before `last`, swapping each pair of neighbours
   * `compare` holds for. It returns the node where it stopped and whether
   * it swapped nothing.
   */
  method BubblePass(list: List, cmp: (seq<bv8>, seq<bv8>) -> bool, last: Node?, ghost li: nat)
    returns (sorted: bool, stop: Node)
    requires list.Valid() && 1 <= li <= |list.nodes|
    requires last == if li == |list.nodes| then null else list.nodes[li]
    modifies list, list.nodes
    ensures list.Valid() && list.nodes == old(list.nodes)
    ensures list.head == old(list.head) && list.tail == old(list.tail)
    ensures multiset(list.contents) == multiset(old(list.contents))
    ensures stop == list.nodes[li - 1]
    ensures sorted ==> list.contents == old(list.contents)
    ensures sorted ==> forall k :: 0 <= k < li - 1 ==> !cmp(list.contents[k], list.contents[k + 1])
    ensures !sorted ==> li >= 2
    ensures StrictWeakOrder(cmp) && SettledFrom(cmp, old(list.contents), li) ==>
      SettledFrom(cmp, list.contents, li - 1)
  {
    ghost var ci;
    sorted, stop, ci := PassWalk(list, cmp, last, li);
    StopsBeforeLast(list, last, li, ci);
    if StrictWeakOrder(cmp) && SettledFrom(cmp, old(list.contents), li) {
      PassSettles(cmp, old(list.contents), list.contents, li, sorted);
    }
  }

  /** The loop of a bubble pass: it runs until the successor of `current` is `last`. */
  method PassWalk(list: List, cmp: (seq<bv8>, seq<bv8>) -> bool, last: Node?, ghost li: nat)
    returns (sorted: bool, current: Node, ghost ci: nat)
    requires list.Valid() && 1 <= li <= |list.nodes|
    requires last == if li == |list.nodes| then null else list.nodes[li]
    modifies list, list.nodes
    ensures list.Valid() && list.nodes == old(list.nodes)
    ensures list.head == old(list.head) && list.tail == old(list.tail)
    ensures PassInvariant(cmp, old(list.contents), list.contents, li, ci, sorted)
    ensures current == list.nodes[ci] && current.next == last
  {
    ghost var c0 := list.contents;
    sorted := true;
    current := list.head;
    ci := 0;
    while current.next != last
      invariant list.Valid() && list.nodes == old(list.nodes)
      invariant list.head == old(list.head) && list.tail == old(list.tail)
      invariant PassInvariant(cmp, c0, list.contents, li, ci, sorted)
      invariant current == list.nodes[ci]
      decreases li - ci
    {
      sorted, current, ci := PassStepAt(list, cmp, last, li, current, ci, sorted, c0);
    }
  }

  /**
   * One step of the pass loop: the data of `current` and its successor are
   * swapped when `compare` holds for them, and `current` moves on.
   */
  method PassStepAt(list: List, cmp: (seq<bv8>, seq<bv8>) -> bool, last: Node?, ghost li: nat,
                    current: Node, ghost ci: nat, sorted: bool, ghost c0: seq<seq<bv8>>)
    returns (sorted': bool, current': Node, ghost ci': nat)
    requires list.Valid() && li <= |list.nodes|
    requires last == if li == |list.nodes| then null else list.nodes[li]
    requires PassInvariant(cmp, c0, list.contents, li, ci, sorted)
    requires current == list.nodes[ci] && current.next != last
    modifies list, list.nodes
    ensures list.Valid() && list.nodes == old(list.nodes)
    ensures list.head == old(list.head) && list.tail == old(list.tail)
    ensures PassInvariant(cmp, c0, list.contents, li, ci', sorted')
    ensures current' == list.nodes[ci'] && ci' == ci + 1
  {
    ghost var c := list.contents;
    NextBeforeLast(list, last, li, ci);
    var successor := current.next;
    PassStep(cmp, c0, c, li, ci, sorted);
    sorted' := sorted;
    if cmp(current.data, successor.data) {
      SwapWithNext(list, current, ci);
      sorted' := false;
    }
    current' := successor;
    ci' := ci + 1;
  }

  /**
   * `list_sort`: nothing happens for a NULL list, a NULL comparator or an
   * empty list. Otherwise bubble passes repeat until one swaps nothing;
   * each pass stops one node earlier than the one before. The nodes stay
   * where they are and only their data move, so the elements afterwards
   * are a permutation of those before, in order when the comparator is a
   * strict weak order, after at most one pass per element.
   */
  method Sort(list: List?, compare: Option<(seq<bv8>, seq<bv8>) -> bool>) returns (ghost passes: nat)
    requires list != null ==> list.Valid()
    modifies list, if list == null then [] else list.nodes
    ensures list != null ==> list.Valid() && list.nodes == old(list.nodes)
    ensures list != null ==> multiset(list.contents) == multiset(old(list.contents))
    ensures list != null && compare.None? ==> list.contents == old(list.contents)
    ensures list != null && compare.Some? && StrictWeakOrder(compare.value) ==>
      Ascending(compare.value, list.contents)
    ensures list != null ==> passes <= |list.nodes|
  {
    passes := 0;
    if list == null || compare.None? {
      return;
    }
    if list.head == null {
      return;
    }
    var cmp := compare.value;
    var sorted := false;
    var last: Node? := null;
    ghost var li: nat := |list.nodes|;
    while !sorted
      invariant list.Valid() && list.nodes == old(list.nodes)
      invariant multiset(list.contents) == multiset(old(list.contents))
      invariant li <= |list.nodes| && passes + li == |list.nodes|
      invariant !sorted ==> 1 <= li && last == if li == |list.nodes| then null else list.nodes[li]
      invariant StrictWeakOrder(cmp) ==> SettledFrom(cmp, list.contents, li)
      invariant sorted ==> li < |list.nodes|
      invariant sorted ==> forall k :: 0 <= k < li ==> !cmp(list.contents[k], list.contents[k + 1])
      decreases li
    {
      var stop;
      sorted, stop := BubblePass(list, cmp, last, li);
      last := stop;
      li := li - 1;
      passes := passes + 1;
    }
    if StrictWeakOrder(cmp) {
      SettledAndCalmIsAscending(cmp, list.contents, li);
    }
  }

  /**
   * `list_traverse`, with the elements the callback is called with as the
   * result: nothing for a NULL list, a NULL callback or another direction;
   * the elements from head to tail going forward, and exactly the reverse
   * going backward.
   */
  method Traverse(list: List?, hasCallback: bool, direction: Direction) returns (visited: seq<seq<bv8>>)
    requires list != null ==> list.Valid()
    ensures list == null || !hasCallback || direction == OtherDirection ==> visited == []
    ensures list != null && hasCallback && direction == Forward ==> visited == list.contents
    ensures list != null && hasCallback && direction == Backward ==> visited == Reverse(list.contents)
  {
    visited := [];
    if list == null || !hasCallback {
      return;
    }
    match direction {
      case Forward =>
        visited := WalkForward(list);
      case Backward =>
        visited := WalkBackward(list);
      case OtherDirection =>
    }
  }

  /** The forward loop of `list_traverse`: from `head` along `next` until NULL. */
  method WalkForward(list: List) returns (visited: seq<seq<bv8>>)
    requires list.Valid()
    ensures visited == list.contents
  {
    visited := [];
    var curr := list.head;
    ghost var i := 0;
    while curr != null
      invariant list.Valid()
      invariant 0 <= i <= |list.nodes|
      invariant curr == if i == |list.nodes| then null else list.nodes[i]
      invariant visited == list.contents[..i]
      decreases |list.nodes| - i
    {
      visited := visited + [curr.data];
      curr := curr.next;
      i := i + 1;
    }
    assert list.contents[..i] == list.contents;
  }

  /** The backward loop of `list_traverse`: from `tail` along `prev` until NULL. */
  method WalkBackward(list: List) returns (visited: seq<seq<bv8>>)
    requires list.Valid()
    ensures visited == Reverse(list.contents)
  {
    visited := [];
    var curr := list.tail;
    ghost var i := |list.nodes|;
    while curr != null
      invariant list.Valid()
      invariant 0 <= i <= |list.nodes|
      invariant curr == if i == 0 then null else list.nodes[i - 1]
      invariant |visited| == |list.nodes| - i
      invariant forall k :: 0 <= k < |visited| ==> visited[k] == list.contents[|list.nodes| - 1 - k]
      decreases i
    {
      visited := visited + [curr.data];
      curr := curr.prev;
      i := i - 1;
    }
  }

  /** One `free` call of `list_destroy`: a node's data, the node, or the list. */
  datatype Freed = FreeData(node: Node) | FreeNode(node: Node) | FreeList(list: List)

  /**
   * `list_destroy`, with its `free` calls as the result: nothing for a NULL
   * list, otherwise each node's data and then the node, from head to tail,
   * and the list itself last; nothing is freed twice.
   */
  method Destroy(list: List?) returns (freed: seq<Freed>)
    requires list != null ==> list.Valid()
    ensures list == null ==> freed == []
    ensures list != null ==>
      && |freed| == 2 * |list.nodes| + 1
      && (forall k :: 0 <= k < |list.nodes| ==>
            freed[2 * k] == FreeData(list.nodes[k]) && freed[2 * k + 1] == FreeNode(list.nodes[k]))
      && freed[2 * |list.nodes|] == FreeList(list)
    ensures forall j, k :: 0 <= j < k < |freed| ==> freed[j] != freed[k]
  {
    freed := [];
    if list == null {
      return;
    }
    var curr := list.head;
    ghost var i := 0;
    while curr != null
      invariant list.Valid()
      invariant 0 <= i <= |list.nodes|
      invariant curr == if i == |list.nodes| then null else list.nodes[i]
      invariant |freed| == 2 * i
      invariant forall k :: 0 <= k < i ==>
        freed[2 * k] == FreeData(list.nodes[k]) && freed[2 * k + 1] == FreeNode(list.nodes[k])
      decreases |list.nodes| - i
    {
      var next := curr.next;
      freed := freed + [FreeData(curr)];
      freed := freed + [FreeNode(curr)];
      curr := next;
      i := i + 1;
    }
    freed := freed + [FreeList(list)];
    FreedOnce(list, freed);
  }

  /**
   * A trace of `free` calls in the order `list_destroy` makes them frees
   * nothing twice when the nodes are distinct.
   */
  lemma FreedOnce(list: List, freed: seq<Freed>)
    requires forall j, k :: 0 <= j < k < |list.nodes| ==> list.nodes[j] != list.nodes[k]
    requires |freed| == 2 * |list.nodes| + 1
    requires forall k :: 0 <= k < |list.nodes| ==>
      freed[2 * k] == FreeData(list.nodes[k]) && freed[2 * k + 1] == FreeNode(list.nodes[k])
    requires freed[2 * |list.nodes|] == FreeList(list)
    ensures forall j, k :: 0 <= j < k < |freed| ==> freed[j] != freed[k]
  {
    forall j, k | 0 <= j < k < |freed|
      ensures freed[j] != freed[k]
    {
      var a, b := j / 2, k / 2;
      assert j == 2 * a + j % 2 && k == 2 * b + k % 2;
      assert freed[j] == if j % 2 == 0 then FreeData(list.nodes[a]) else FreeNode(list.nodes[a]);
      if k < |freed| - 1 {
        assert freed[k] == if k % 2 == 0 then FreeData(list.nodes[b]) else FreeNode(list.nodes[b]);
      }
    }
  }
}
