/**
 The drivers' table of open queries: a doubly linked list of nodes, each with an integer handle and
 the cursor it stands for.  `Entries` is the ordered map that the list represents.
 */
module HandleLists {

  class Node<T> {
    const data: T
    var handle: int
    var prev: Node?<T>
    var next: Node?<T>

    constructor (data: T)
      ensures this.data == data && handle == 0 && prev == null && next == null
    {
      this.data, handle, prev, next := data, 0, null, null;
    }
  }

  datatype Entry<T> = Entry(handle: int, data: T)

  /** Position of the first entry under a handle, or the length of the list. */
  function Position<T>(entries: seq<Entry<T>>, handle: int): (k: nat)
    ensures k <= |entries|
    ensures k < |entries| ==> entries[k].handle == handle
    ensures forall i :: 0 <= i < k ==> entries[i].handle != handle
  {
    if entries == [] || entries[0].handle == handle then 0 else 1 + Position(entries[1..], handle)
  }

  /** The first position is the only one that these conditions describe. */
  lemma {:induction false} PositionIs<T>(entries: seq<Entry<T>>, handle: int, k: nat)
    requires k <= |entries|
    requires forall i :: 0 <= i < k ==> entries[i].handle != handle
    requires k < |entries| ==> entries[k].handle == handle
    ensures Position(entries, handle) == k
  {
    if k > 0 {
      PositionIs(entries[1..], handle, k - 1);
    }
  }

  /** Without the entry under a handle; the others keep their order. */
  function Removed<T>(entries: seq<Entry<T>>, handle: int): seq<Entry<T>> {
    var k := Position(entries, handle);
    if k == |entries| then entries else entries[..k] + entries[k + 1..]
  }

  /** What is found under another handle is not affected by removing one, or by adding one at the end. */
  lemma LookupAfterRemove<T>(entries: seq<Entry<T>>, handle: int, other: int)
    requires handle != other
    ensures var rest := Removed(entries, handle);
            var (i, j) := (Position(entries, other), Position(rest, other));
            (i == |entries| <==> j == |rest|) && (i < |entries| ==> rest[j] == entries[i])
  {
    var k, i := Position(entries, handle), Position(entries, other);
    var rest := Removed(entries, handle);
    if k < |entries| {
      PositionIs(rest, other, if k < i then i - 1 else i);
    }
  }

  lemma LookupAfterAdd<T>(entries: seq<Entry<T>>, added: Entry<T>, other: int)
    requires added.handle != other
    ensures var more := entries + [added];
            var (i, j) := (Position(entries, other), Position(more, other));
            (i == |entries| <==> j == |more|) && (i < |entries| ==> more[j] == entries[i])
  {
    var i := Position(entries, other);
    PositionIs(entries + [added], other, if i < |entries| then i else i + 1);
  }

  /** Each node has data of its own, and none has `other`. */
  ghost predicate OwnData<T>(nodes: seq<Node<T>>, other: T) {
    && (forall i, j :: 0 <= i < j < |nodes| ==> nodes[i].data != nodes[j].data)
    && (forall i :: 0 <= i < |nodes| ==> nodes[i].data != other)
  }

  lemma OwnDataWithout<T>(nodes: seq<Node<T>>, other: T, k: nat)
    requires OwnData(nodes, other) && k < |nodes|
    ensures var rest := nodes[..k] + nodes[k + 1..];
            && OwnData(rest, other)
            && (forall i :: 0 <= i < |rest| ==> rest[i] == nodes[if i < k then i else i + 1])
            && (forall i :: 0 <= i < |rest| ==> rest[i].data != nodes[k].data)
  {
  }

  lemma OwnDataAppend<T>(nodes: seq<Node<T>>, other: T, node: Node<T>)
    requires OwnData(nodes, other) && node.data != other
    requires forall i :: 0 <= i < |nodes| ==> nodes[i].data != node.data
    ensures OwnData(nodes + [node], other)
  {
  }

  lemma OwnDataAt<T>(nodes: seq<Node<T>>, other: T, k: nat)
    requires OwnData(nodes, other) && k < |nodes|
    ensures nodes[k].data != other
  {
  }

  class HandleList<T> {
    var pHead: Node?<T>
    var pTail: Node?<T>
    var index: int
    ghost var nodes: seq<Node<T>>

    /** `prev` and `next` are inverse to each other along `nodes`, from the head to the tail. */
    ghost predicate Valid()
      reads this, nodes
    {
      && (forall i, j :: 0 <= i < j < |nodes| ==> nodes[i] != nodes[j])
      && (nodes == [] ==> pHead == null && pTail == null)
      && (nodes != [] ==>
            && pHead == nodes[0] && pTail == nodes[|nodes| - 1]
            && nodes[0].prev == null && nodes[|nodes| - 1].next == null)
      && (forall i {:trigger nodes[i].next} :: 0 <= i < |nodes| - 1 ==> nodes[i].next == nodes[i + 1])
      && (forall i {:trigger nodes[i].prev} :: 0 < i < |nodes| ==> nodes[i].prev == nodes[i - 1])
    }

    ghost function Entries(): (entries: seq<Entry<T>>)
      reads this, nodes
      ensures |entries| == |nodes|
      ensures forall i :: 0 <= i < |nodes| ==> entries[i] == Entry(nodes[i].handle, nodes[i].data)
    {
      seq(|nodes|, i requires 0 <= i < |nodes| reads this, nodes => Entry(nodes[i].handle, nodes[i].data))
    }

    /** Each node is its neighbours' neighbour, and the ends are null together. */
    lemma LinksAreInverse(n: Node<T>)
      requires Valid() && n in nodes
      ensures n.next != null ==> n.next in nodes && n.next.prev == n
      ensures n.prev != null ==> n.prev in nodes && n.prev.next == n
      ensures pHead != null && pTail != null
    {
      var i :| 0 <= i < |nodes| && nodes[i] == n;
      assert i > 0 ==> nodes[i - 1].next == n;
      assert i < |nodes| - 1 ==> nodes[i + 1].prev == n;
    }

    constructor ()
      ensures Valid() && nodes == [] && Entries() == [] && index == 0
    {
      pHead, pTail, index, nodes := null, null, 0, [];
    }

    /** Walks from the head to the node with that handle. */
    method FindNode(handle: int) returns (ptr: Node?<T>)
      requires Valid()
      ensures var k := Position(Entries(), handle);
              if k == |nodes| then ptr == null else ptr == nodes[k]
    {
      ptr := pHead;
      ghost var i := 0;
      while ptr != null && ptr.handle != handle
        invariant 0 <= i <= |nodes|
        invariant ptr == if i == |nodes| then null else nodes[i]
        invariant forall j :: 0 <= j < i ==> nodes[j].handle != handle
        decreases |nodes| - i
      {
        ptr := ptr.next;
        i := i + 1;
      }
      PositionIs(Entries(), handle, i);
    }

    /** Links a new node behind the tail, under a handle of the caller's choice. */
    method Add(handle: int, data: T) returns (node: Node<T>)
      requires Valid()
      modifies this`pHead, this`pTail, this`nodes, nodes`next
      ensures Valid() && fresh(node) && nodes == old(nodes) + [node]
      ensures Entries() == old(Entries()) + [Entry(handle, data)]
    {
      node := new Node(data);
      if pHead == null {
        pHead := node;
        node.prev := null;
      } else {
        pTail.next := node;
        node.prev := pTail;
      }
      node.next := null;
      pTail := node;
      node.handle := handle;
      nodes := nodes + [node];
    }

    /** Links a new node under the next number of the list's own counter. */
    method AddNext(data: T) returns (handle: int, node: Node<T>)
      requires Valid()
      modifies this, nodes`next
      ensures Valid() && fresh(node) && nodes == old(nodes) + [node]
      ensures index == handle == old(index) + 1
      ensures Entries() == old(Entries()) + [Entry(handle, data)]
    {
      index := index + 1;
      handle := index;
      node := Add(handle, data);
    }

    /** Takes a node out of the links, whether it is first, last, both or neither. */
    method Unlink(node: Node<T>, ghost k: nat)
      requires Valid() && k < |nodes| && nodes[k] == node
      modifies this`pHead, this`pTail, this`nodes, nodes`next, nodes`prev
      ensures Valid() && nodes == old(nodes)[..k] + old(nodes)[k + 1..]
    {
      if node == pHead {
        pHead := pHead.next;
      } else {
        node.prev.next := node.next;
      }
      if node == pTail {
        pTail := pTail.prev;
      } else {
        node.next.prev := node.prev;
      }
      nodes := nodes[..k] + nodes[k + 1..];
    }

    /** The entries after one node is taken out and no handle has changed. */
    twostate lemma EntriesWithout(k: nat)
      requires k < |old(nodes)| && nodes == old(nodes)[..k] + old(nodes)[k + 1..]
      requires forall i :: 0 <= i < |old(nodes)| ==> old(nodes)[i].handle == old(nodes[i].handle)
      ensures Entries() == old(Entries())[..k] + old(Entries())[k + 1..]
    {
    }

    /** Unlinks the node with that handle, which the caller then destroys; 1 if there is none. */
    method Del(handle: int) returns (rc: int, gone: Node?<T>)
      requires Valid()
      modifies this`pHead, this`pTail, this`nodes, nodes`next, nodes`prev
      ensures Valid()
      ensures var k := Position(old(Entries()), handle);
              if k == |old(nodes)| then rc == 1 && gone == null && nodes == old(nodes)
              else rc == 0 && gone == old(nodes)[k] && nodes == old(nodes)[..k] + old(nodes)[k + 1..]
      ensures Entries() == Removed(old(Entries()), handle)
    {
      hide Position, Valid, Entries;
      ghost var k := Position(Entries(), handle);
      gone := FindNode(handle);
      if gone == null {
        return 1, null;
      }
      Unlink(gone, k);
      EntriesWithout(k);
      rc := 0;
    }

    /** Deletes the node at the head, found by its handle; the next one is the head then. */
    method DelFirst()
      requires Valid() && pHead != null
      modifies this`pHead, this`pTail, this`nodes, nodes`next, nodes`prev
      ensures Valid() && nodes == old(nodes)[1..] && pHead == old(pHead.next)
    {
      hide Removed, Position;
      ghost var before := nodes;
      PositionIs(Entries(), pHead.handle, 0);
      var _, _ := Del(pHead.handle);
      assert before[..0] + before[1..] == before[1..];
    }

    /**
     Deletes every node, from the head on.  The head and the tail are null when the loop ends; the
     MySQL list assigns them once more, the Oracle list does not.
     */
    method Free()
      requires Valid()
      modifies this`pHead, this`pTail, this`nodes, nodes`next, nodes`prev
      ensures Valid() && nodes == [] && pHead == null && pTail == null
    {
      ghost var gone := 0;
      var curptr := pHead;
      while curptr != null
        invariant Valid() && curptr == pHead
        invariant gone <= |old(nodes)| && nodes == old(nodes)[gone..]
        decreases |nodes|
      {
        var nextptr := curptr.next;
        DelFirst();
        gone := gone + 1;
        curptr := nextptr;
      }
    }
  }
}
