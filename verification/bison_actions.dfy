/**
 * The parser's semantic actions: constructors that allocate one node and store
 * their arguments in it, and three list builders that append at the tail of a
 * singly linked list by walking it from its head.
 *
 * Nodes live in an explicit heap: `Heap` is every node allocated so far, a
 * pointer is an index into it and `None` is `NULL`. Allocation appends to the
 * heap, so nodes allocated earlier keep their indices.
 */
module BisonActions {
  import opened Wrappers

  type Ptr = Option<nat>

  /** The three linked-list node kinds, which share one shape: an item and a `next`. */
  datatype ListKind = ParameterList | OrderedItemList | BulletItemList

  datatype Node =
    | DefineNode(name: string, parameters: Ptr, statements: Ptr)
    | UseNode(name: string, parameters: Ptr)
    | ListNode(kind: ListKind, item: string, next: Ptr)
    | FormNode(name: string, statements: Ptr)
    | FooterNode(name: string, statements: Ptr)
    | RowNode(statements: Ptr)
    | ColumnNode(name: string, statements: Ptr)
    | NavNode(name: string, statements: Ptr)
    | OrderedListNode(name: string, items: Ptr)
    | UnorderedListNode(name: string, items: Ptr)
    | TextNode(text: string)
    | ImageNode(url: string, altText: string)

  type Heap = seq<Node>

  /**
   * `p` heads a `NULL`-terminated list of `kind` nodes whose links point to
   * later allocations (which every list built by these actions satisfies).
   */
  ghost predicate IsList(h: Heap, kind: ListKind, p: nat)
    decreases |h| - p
  {
    && p < |h|
    && h[p].ListNode? && h[p].kind == kind
    && (h[p].next.Some? ==> p < h[p].next.value && IsList(h, kind, h[p].next.value))
  }

  /** The items of the list headed by `p`, in link order. */
  ghost function Items(h: Heap, kind: ListKind, p: nat): (s: seq<string>)
    requires IsList(h, kind, p)
    ensures |s| > 0 && s[0] == h[p].item
    decreases |h| - p
  {
    match h[p].next
    case None => [h[p].item]
    case Some(q) => [h[p].item] + Items(h, kind, q)
  }

  /** `t` lies on the list headed by `p`. */
  ghost predicate Reaches(h: Heap, kind: ListKind, p: nat, t: nat)
    ensures Reaches(h, kind, p, t) ==> IsList(h, kind, t)
    decreases |h| - p
  {
    && IsList(h, kind, p)
    && (p == t || (h[p].next.Some? && Reaches(h, kind, h[p].next.value, t)))
  }

  /** `createNode` followed by the field stores: the new node goes at the end of the heap. */
  function Alloc(h: Heap, n: Node): (r: (Heap, nat))
    ensures r.1 == |h| && |r.0| == |h| + 1
    ensures r.0[..|h|] == h && r.0[r.1] == n
  {
    (h + [n], |h|)
  }

  /** `createDefineNode`: name, parameter list and body stored verbatim. */
  function CreateDefineNode(h: Heap, name: string, parameters: Ptr, statements: Ptr): (r: (Heap, nat))
    ensures r.1 == |h| && |r.0| == |h| + 1 && r.0[..|h|] == h
    ensures r.0[r.1].DefineNode?
    ensures r.0[r.1].name == name && r.0[r.1].parameters == parameters && r.0[r.1].statements == statements
  {
    Alloc(h, DefineNode(name, parameters, statements))
  }

  /** `createUseNode`: name and argument list stored verbatim. */
  function CreateUseNode(h: Heap, name: string, parameters: Ptr): (r: (Heap, nat))
    ensures r.1 == |h| && |r.0| == |h| + 1 && r.0[..|h|] == h
    ensures r.0[r.1].UseNode? && r.0[r.1].name == name && r.0[r.1].parameters == parameters
  {
    Alloc(h, UseNode(name, parameters))
  }

  /** `createFormNode`. */
  function CreateFormNode(h: Heap, name: string, statements: Ptr): (r: (Heap, nat))
    ensures r.1 == |h| && |r.0| == |h| + 1 && r.0[..|h|] == h
    ensures r.0[r.1].FormNode? && r.0[r.1].name == name && r.0[r.1].statements == statements
  {
    Alloc(h, FormNode(name, statements))
  }

  /** `createFooterNode`. */
  function CreateFooterNode(h: Heap, name: string, statements: Ptr): (r: (Heap, nat))
    ensures r.1 == |h| && |r.0| == |h| + 1 && r.0[..|h|] == h
    ensures r.0[r.1].FooterNode? && r.0[r.1].name == name && r.0[r.1].statements == statements
  {
    Alloc(h, FooterNode(name, statements))
  }

  /** `createRowNode`: the only container constructor without a name. */
  function CreateRowNode(h: Heap, statements: Ptr): (r: (Heap, nat))
    ensures r.1 == |h| && |r.0| == |h| + 1 && r.0[..|h|] == h
    ensures r.0[r.1].RowNode? && r.0[r.1].statements == statements
  {
    Alloc(h, RowNode(statements))
  }

  /** `createColumnNode`. */
  function CreateColumnNode(h: Heap, name: string, statements: Ptr): (r: (Heap, nat))
    ensures r.1 == |h| && |r.0| == |h| + 1 && r.0[..|h|] == h
    ensures r.0[r.1].ColumnNode? && r.0[r.1].name == name && r.0[r.1].statements == statements
  {
    Alloc(h, ColumnNode(name, statements))
  }

  /** `createNavNode`. */
  function CreateNavNode(h: Heap, name: string, statements: Ptr): (r: (Heap, nat))
    ensures r.1 == |h| && |r.0| == |h| + 1 && r.0[..|h|] == h
    ensures r.0[r.1].NavNode? && r.0[r.1].name == name && r.0[r.1].statements == statements
  {
    Alloc(h, NavNode(name, statements))
  }

  /** `createOrderedListNode`. */
  function CreateOrderedListNode(h: Heap, name: string, items: Ptr): (r: (Heap, nat))
    ensures r.1 == |h| && |r.0| == |h| + 1 && r.0[..|h|] == h
    ensures r.0[r.1].OrderedListNode? && r.0[r.1].name == name && r.0[r.1].items == items
  {
    Alloc(h, OrderedListNode(name, items))
  }

  /** `createUnorderedListNode`. */
  function CreateUnorderedListNode(h: Heap, name: string, items: Ptr): (r: (Heap, nat))
    ensures r.1 == |h| && |r.0| == |h| + 1 && r.0[..|h|] == h
    ensures r.0[r.1].UnorderedListNode? && r.0[r.1].name == name && r.0[r.1].items == items
  {
    Alloc(h, UnorderedListNode(name, items))
  }

  /** `createTextNode`. */
  function CreateTextNode(h: Heap, text: string): (r: (Heap, nat))
    ensures r.1 == |h| && |r.0| == |h| + 1 && r.0[..|h|] == h
    ensures r.0[r.1].TextNode? && r.0[r.1].text == text
  {
    Alloc(h, TextNode(text))
  }

  /** `createImageNode`. */
  function CreateImageNode(h: Heap, url: string, altText: string): (r: (Heap, nat))
    ensures r.1 == |h| && |r.0| == |h| + 1 && r.0[..|h|] == h
    ensures r.0[r.1].ImageNode? && r.0[r.1].url == url && r.0[r.1].altText == altText
  {
    Alloc(h, ImageNode(url, altText))
  }

  /**
   * `createParameterListNode`, `createOrderedItemList` and
   * `createBulletItemList`: a one-node list.
   */
  function CreateList(h: Heap, kind: ListKind, item: string): (r: (Heap, nat))
    ensures r.1 == |h| && |r.0| == |h| + 1 && r.0[..|h|] == h
    ensures IsList(r.0, kind, r.1) && Items(r.0, kind, r.1) == [item]
  {
    Alloc(h, ListNode(kind, item, None))
  }

  /**
   * Linking a fresh node after the tail of a list extends that list by the
   * fresh node's item and leaves its earlier items in place.
   */
  lemma {:induction false} LinkTail(h: Heap, kind: ListKind, p: nat, tail: nat, item: string)
    requires Reaches(h, kind, p, tail) && h[tail].next.None?
    ensures tail < |h|
    ensures var h2 := (h + [ListNode(kind, item, None)])[tail := h[tail].(next := Some(|h|))];
            IsList(h2, kind, p) && Items(h2, kind, p) == Items(h, kind, p) + [item]
    decreases |h| - p
  {
    var h2 := (h + [ListNode(kind, item, None)])[tail := h[tail].(next := Some(|h|))];
    if p == tail {
      assert IsList(h2, kind, |h|);
      assert Items(h2, kind, |h|) == [item];
    } else {
      var q := h[p].next.value;
      LinkTail(h, kind, q, tail, item);
      assert h2[p] == h[p];
    }
  }

  /**
   * The shared body of the three append actions: allocate a one-node list; on a
   * `NULL` list return it, otherwise walk to the tail, link the node after it
   * and return the original head.
   */
  method Append(h: Heap, kind: ListKind, list: Ptr, item: string) returns (h': Heap, r: nat)
    requires list.Some? ==> IsList(h, kind, list.value)
    ensures |h'| == |h| + 1 && h'[|h|] == ListNode(kind, item, None)
    ensures IsList(h', kind, r)
    ensures list.None? ==> r == |h| && Items(h', kind, r) == [item]
    ensures list.Some? ==> r == list.value && Items(h', kind, r) == Items(h, kind, list.value) + [item]
    ensures forall i :: 0 <= i < |h| && h'[i] != h[i] ==>
              h[i].ListNode? && h[i].next.None? && h'[i] == h[i].(next := Some(|h|))
    ensures list.None? ==> h'[..|h|] == h
    ensures list.Some? ==> exists t: nat :: Reaches(h, kind, list.value, t) && h[t].next.None?
                                      && h'[..|h|] == h[t := h[t].(next := Some(|h|))]
  {
    var node := ListNode(kind, item, None);
    h' := h + [node];
    if list.None? {
      r := |h|;
      assert IsList(h', kind, r);
      return;
    }
    var cur := list.value;
    ghost var prefix: seq<string> := [];
    while h[cur].next.Some?
      invariant Reaches(h, kind, list.value, cur)
      invariant IsList(h, kind, cur)
      invariant Items(h, kind, list.value) == prefix + Items(h, kind, cur)
      decreases |h| - cur
    {
      ReachesStep(h, kind, list.value, cur);
      prefix := prefix + [h[cur].item];
      cur := h[cur].next.value;
    }
    LinkTail(h, kind, list.value, cur, item);
    h' := h'[cur := h[cur].(next := Some(|h|))];
    r := list.value;
    assert h'[..|h|] == h[cur := h[cur].(next := Some(|h|))];
  }

  /** Stepping along a link from a reachable node reaches the next node. */
  lemma {:induction false} ReachesStep(h: Heap, kind: ListKind, p: nat, t: nat)
    requires Reaches(h, kind, p, t) && h[t].next.Some?
    ensures Reaches(h, kind, p, h[t].next.value)
    decreases |h| - p
  {
    if p != t {
      ReachesStep(h, kind, h[p].next.value, t);
    } else {
      var q := h[t].next.value;
      assert Reaches(h, kind, q, q);
    }
  }

  /** `appendParameterToList`. */
  method AppendParameterToList(h: Heap, list: Ptr, parameter: string) returns (h': Heap, r: nat)
    requires list.Some? ==> IsList(h, ParameterList, list.value)
    ensures IsList(h', ParameterList, r)
    ensures list.None? ==> r == |h| && Items(h', ParameterList, r) == [parameter]
    ensures list.Some? ==>
              r == list.value && Items(h', ParameterList, r) == Items(h, ParameterList, list.value) + [parameter]
    ensures |h'| == |h| + 1 && h'[|h|] == ListNode(ParameterList, parameter, None)
    ensures list.None? ==> h'[..|h|] == h
    ensures list.Some? ==> exists t: nat :: Reaches(h, ParameterList, list.value, t) && h[t].next.None?
                                      && h'[..|h|] == h[t := h[t].(next := Some(|h|))]
  {
    h', r := Append(h, ParameterList, list, parameter);
  }

  /** `appendOrderedItem`. */
  method AppendOrderedItem(h: Heap, list: Ptr, item: string) returns (h': Heap, r: nat)
    requires list.Some? ==> IsList(h, OrderedItemList, list.value)
    ensures IsList(h', OrderedItemList, r)
    ensures list.None? ==> r == |h| && Items(h', OrderedItemList, r) == [item]
    ensures list.Some? ==>
              r == list.value && Items(h', OrderedItemList, r) == Items(h, OrderedItemList, list.value) + [item]
    ensures |h'| == |h| + 1 && h'[|h|] == ListNode(OrderedItemList, item, None)
    ensures list.None? ==> h'[..|h|] == h
    ensures list.Some? ==> exists t: nat :: Reaches(h, OrderedItemList, list.value, t) && h[t].next.None?
                                      && h'[..|h|] == h[t := h[t].(next := Some(|h|))]
  {
    h', r := Append(h, OrderedItemList, list, item);
  }

  /** `appendBulletItem`. */
  method AppendBulletItem(h: Heap, list: Ptr, item: string) returns (h': Heap, r: nat)
    requires list.Some? ==> IsList(h, BulletItemList, list.value)
    ensures IsList(h', BulletItemList, r)
    ensures list.None? ==> r == |h| && Items(h', BulletItemList, r) == [item]
    ensures list.Some? ==>
              r == list.value && Items(h', BulletItemList, r) == Items(h, BulletItemList, list.value) + [item]
    ensures |h'| == |h| + 1 && h'[|h|] == ListNode(BulletItemList, item, None)
    ensures list.None? ==> h'[..|h|] == h
    ensures list.Some? ==> exists t: nat :: Reaches(h, BulletItemList, list.value, t) && h[t].next.None?
                                      && h'[..|h|] == h[t := h[t].(next := Some(|h|))]
  {
    h', r := Append(h, BulletItemList, list, item);
  }
}
