/**
 The children of an array or object as cJSON keeps them (cjson.c): a chain of nodes that is null at both ends, on which
 the routines act as on a sequence.
 */
module ChildList {
  import opened Sequences
  import opened Wrappers

  /** What a node holds besides its links: its type, whether its name is a constant that is not given back, its values
      and its name. */
  datatype Content = Content(kind: int, constName: bool, valuestring: Option<string>, valueint: int, valuedouble: real,
                             name: Option<string>)

  class Node {
    var next: Node?
    var prev: Node?
    var child: Node?
    var isReference: bool
    var content: Content

    /** cJSON_New_Item: memory that has been cleared. */
    constructor ()
      ensures next == null && prev == null && child == null && !isReference
    {
      next, prev, child := null, null, null;
      isReference, content := false, Content(0, false, None, 0, 0.0, None);
    }
  }

  /** The node at an index, or null outside the list. */
  function NodeAt(items: seq<Node>, i: int): Node? {
    if 0 <= i < |items| then items[i] else null
  }

  /** prev and next are each other's inverses, and null at the ends. */
  ghost predicate Linked(head: Node?, items: seq<Node>)
    reads items`next, items`prev
  {
    && head == NodeAt(items, 0)
    && (forall i {:trigger items[i].next} :: 0 <= i < |items| ==> items[i].next == NodeAt(items, i + 1))
    && (forall i {:trigger items[i].prev} :: 0 <= i < |items| ==> items[i].prev == NodeAt(items, i - 1))
  }

  /** Where a walk of so many steps ends; it does not move for a negative number. */
  function Place(which: int): nat {
    if which < 0 then 0 else which
  }

  /** The walk that all routines start with. */
  method Walk(list: Node, which: int, ghost items: seq<Node>) returns (c: Node?)
    requires Linked(list.child, items)
    ensures c == NodeAt(items, Place(which))
  {
    c := list.child;
    var left := which;
    ghost var k: nat := 0;
    while c != null && left > 0
      invariant c == NodeAt(items, k) && k <= |items|
      invariant if left > 0 then k + left == which else k == Place(which)
      decreases |items| - k
    {
      c, left := c.next, left - 1;
      k := k + 1;
    }
  }

  method GetArraySize(list: Node, ghost items: seq<Node>) returns (n: nat)
    requires Linked(list.child, items)
    ensures n == |items|
  {
    var c := list.child;
    n := 0;
    while c != null
      invariant c == NodeAt(items, n) && n <= |items|
      decreases |items| - n
    {
      c, n := c.next, n + 1;
    }
  }

  method AddItemToArray(list: Node, item: Node?, ghost items: seq<Node>)
    requires Linked(list.child, items) && AllDistinct(items)
    requires item != null ==> item !in items && item.next == null && item.prev == null
    modifies list`child, items`next, (if item == null then {} else {item})`prev
    ensures item == null ==> Linked(list.child, items)
    ensures item != null ==> Linked(list.child, items + [item]) && AllDistinct(items + [item])
  {
    if item == null {
      return;
    }
    var c := list.child;
    if c == null {
      list.child := item;
    } else {
      ghost var k: nat := 0;
      while c.next != null
        invariant k < |items| && c == items[k] && Linked(list.child, items)
        decreases |items| - k
      {
        c := c.next;
        k := k + 1;
      }
      assert k == |items| - 1;
      c.next := item;
      item.prev := c;
    }
  }

  // ---- the three changes, and the chains they leave ----

  lemma NodeInserted(items: seq<Node>, k: nat, item: Node, i: int)
    requires k <= |items|
    ensures |Inserted(items, item, k)| == |items| + 1
    ensures NodeAt(Inserted(items, item, k), i) ==
            if i < k then NodeAt(items, i) else if i == k then item else NodeAt(items, i - 1)
  {
  }

  lemma NodeRemoved(items: seq<Node>, k: nat, i: int)
    requires k < |items|
    ensures |Removed(items, k)| == |items| - 1
    ensures NodeAt(Removed(items, k), i) == if i < k then NodeAt(items, i) else NodeAt(items, i + 1)
  {
  }

  lemma LinkedInserted(items: seq<Node>, k: nat, item: Node, head: Node?)
    requires k <= |items| && head == if k == 0 then item else NodeAt(items, 0)
    requires item.prev == NodeAt(items, k - 1) && item.next == NodeAt(items, k)
    requires forall i {:trigger items[i].next} :: 0 <= i < |items| ==>
               items[i].next == if i == k - 1 then item else NodeAt(items, i + 1)
    requires forall i {:trigger items[i].prev} :: 0 <= i < |items| ==>
               items[i].prev == if i == k then item else NodeAt(items, i - 1)
    ensures Linked(head, Inserted(items, item, k))
  {
    hide Inserted;
    var after := Inserted(items, item, k);
    NodeInserted(items, k, item, 0);
    forall i | 0 <= i < |after| ensures after[i].next == NodeAt(after, i + 1) && after[i].prev == NodeAt(after, i - 1) {
      NodeInserted(items, k, item, i);
      NodeInserted(items, k, item, i - 1);
      NodeInserted(items, k, item, i + 1);
    }
  }

  lemma LinkedRemoved(items: seq<Node>, k: nat, head: Node?)
    requires k < |items| && head == NodeAt(items, if k == 0 then 1 else 0)
    requires forall i {:trigger items[i].next} :: 0 <= i < |items| && i != k ==>
               items[i].next == NodeAt(items, if i == k - 1 then k + 1 else i + 1)
    requires forall i {:trigger items[i].prev} :: 0 <= i < |items| && i != k ==>
               items[i].prev == NodeAt(items, if i == k + 1 then k - 1 else i - 1)
    ensures Linked(head, Removed(items, k))
  {
    hide Removed;
    var after := Removed(items, k);
    NodeRemoved(items, k, 0);
    forall i | 0 <= i < |after| ensures after[i].next == NodeAt(after, i + 1) && after[i].prev == NodeAt(after, i - 1) {
      NodeRemoved(items, k, i);
      NodeRemoved(items, k, i - 1);
      NodeRemoved(items, k, i + 1);
    }
  }

  lemma LinkedReplaced(items: seq<Node>, k: nat, item: Node, head: Node?)
    requires k < |items| && head == if k == 0 then item else items[0]
    requires item.prev == NodeAt(items, k - 1) && item.next == NodeAt(items, k + 1)
    requires forall i {:trigger items[i].next} :: 0 <= i < |items| && i != k ==>
               items[i].next == if i == k - 1 then item else NodeAt(items, i + 1)
    requires forall i {:trigger items[i].prev} :: 0 <= i < |items| && i != k ==>
               items[i].prev == if i == k + 1 then item else NodeAt(items, i - 1)
    ensures Linked(head, items[k := item])
  {
  }

  // ---- cJSON_InsertItemInArray, cJSON_DetachItemFromArray, cJSON_ReplaceItemInArray ----

  /** Before the item at the place, or behind the last if there is none. */
  method InsertItemInArray(list: Node, which: int, item: Node, ghost items: seq<Node>)
    requires Linked(list.child, items) && AllDistinct(items)
    requires item !in items && item.next == null && item.prev == null
    modifies list`child, items`next, items`prev, item`next, item`prev
    ensures var k := if Place(which) < |items| then Place(which) else |items|;
            Linked(list.child, Inserted(items, item, k)) && AllDistinct(Inserted(items, item, k))
  {
    var c := Walk(list, which, items);
    if c == null {
      AddItemToArray(list, item, items);
      assert Inserted(items, item, |items|) == items + [item];
    } else {
      LinkBefore(list, c, item, items, Place(which));
      LinkedInserted(items, Place(which), item, list.child);
      InsertedDistinct(items, item, Place(which));
    }
  }

  method LinkBefore(list: Node, c: Node, item: Node, ghost items: seq<Node>, ghost k: nat)
    requires Linked(list.child, items) && AllDistinct(items) && item !in items && k < |items| && items[k] == c
    modifies list`child, items`next, items`prev, item`next, item`prev
    ensures list.child == if k == 0 then item else items[0]
    ensures item.prev == NodeAt(items, k - 1) && item.next == c
    ensures forall i {:trigger items[i].next} :: 0 <= i < |items| ==>
              items[i].next == if i == k - 1 then item else NodeAt(items, i + 1)
    ensures forall i {:trigger items[i].prev} :: 0 <= i < |items| ==>
              items[i].prev == if i == k then item else NodeAt(items, i - 1)
  {
    item.next := c;
    item.prev := c.prev;
    c.prev := item;
    if c == list.child {
      list.child := item;
    } else {
      item.prev.next := item;
    }
  }

  /** The item at the place is taken out, with no neighbours of its own; null if there is none. */
  method DetachItemFromArray(list: Node, which: int, ghost items: seq<Node>) returns (c: Node?)
    requires Linked(list.child, items) && AllDistinct(items)
    modifies list`child, items`next, items`prev
    ensures c == NodeAt(items, Place(which))
    ensures c == null ==> Linked(list.child, items)
    ensures c != null ==>
              && Linked(list.child, Removed(items, Place(which))) && AllDistinct(Removed(items, Place(which)))
              && c !in Removed(items, Place(which)) && c.next == null && c.prev == null
  {
    c := Walk(list, which, items);
    if c != null {
      Unlink(list, c, items, Place(which));
      LinkedRemoved(items, Place(which), list.child);
      RemovedDistinct(items, Place(which));
    }
  }

  method Unlink(list: Node, c: Node, ghost items: seq<Node>, ghost k: nat)
    requires Linked(list.child, items) && AllDistinct(items) && k < |items| && items[k] == c
    modifies list`child, items`next, items`prev
    ensures list.child == NodeAt(items, if k == 0 then 1 else 0) && c.next == null && c.prev == null
    ensures forall i {:trigger items[i].next} :: 0 <= i < |items| && i != k ==>
              items[i].next == NodeAt(items, if i == k - 1 then k + 1 else i + 1)
    ensures forall i {:trigger items[i].prev} :: 0 <= i < |items| && i != k ==>
              items[i].prev == NodeAt(items, if i == k + 1 then k - 1 else i - 1)
  {
    if c.prev != null {
      c.prev.next := c.next;
    }
    if c.next != null {
      c.next.prev := c.prev;
    }
    if c == list.child {
      list.child := c.next;
    }
    c.prev, c.next := null, null;
  }

  /** The item at the place gives way to another, and is the one that is deleted; nothing happens if there is none. */
  method ReplaceItemInArray(list: Node, which: int, item: Node, ghost items: seq<Node>) returns (deleted: Node?)
    requires Linked(list.child, items) && AllDistinct(items)
    requires item !in items && item.next == null && item.prev == null
    modifies list`child, items`next, items`prev, item`next, item`prev
    ensures deleted == NodeAt(items, Place(which))
    ensures Place(which) >= |items| ==> Linked(list.child, items)
    ensures Place(which) < |items| ==>
              && Linked(list.child, items[Place(which) := item]) && AllDistinct(items[Place(which) := item])
              && deleted !in items[Place(which) := item] && deleted.next == null && deleted.prev == null
  {
    var c := Walk(list, which, items);
    deleted := c;
    if c != null {
      LinkInstead(list, c, item, items, Place(which));
      LinkedReplaced(items, Place(which), item, list.child);
    }
  }

  method LinkInstead(list: Node, c: Node, item: Node, ghost items: seq<Node>, ghost k: nat)
    requires Linked(list.child, items) && AllDistinct(items) && item !in items && k < |items| && items[k] == c
    modifies list`child, items`next, items`prev, item`next, item`prev
    ensures list.child == (if k == 0 then item else items[0]) && c.next == null && c.prev == null
    ensures item.prev == NodeAt(items, k - 1) && item.next == NodeAt(items, k + 1)
    ensures forall i {:trigger items[i].next} :: 0 <= i < |items| && i != k ==>
              items[i].next == if i == k - 1 then item else NodeAt(items, i + 1)
    ensures forall i {:trigger items[i].prev} :: 0 <= i < |items| && i != k ==>
              items[i].prev == if i == k + 1 then item else NodeAt(items, i - 1)
  {
    item.next := c.next;
    item.prev := c.prev;
    if item.next != null {
      item.next.prev := item;
    }
    if c == list.child {
      list.child := item;
    } else {
      item.prev.next := item;
    }
    c.next, c.prev := null, null;
  }
}
