/**
 * The singly linked list of ds.h (ds_ll_declare and the ds_ll_* macros):
 * nodes holding a value and a next pointer, a list header with head, tail
 * and size.  The class LinkedList is the list as the header file evidently
 * intends it, with every new node's next pointer set; the values CList,
 * AppendAsWritten and PopAsWritten follow ds_ll_append and ds_ll_pop as
 * written, where the node from DS_ALLOC (malloc) keeps an indeterminate
 * next pointer.
 */
module LinkedList {
  const SizeMax: nat := 0xffff_ffff_ffff_ffff

  /** A list node: name##_Node. */
  class Node<T> {
    var val: T
    var next: Node?<T>

    constructor (val: T, next: Node?<T>)
      ensures this.val == val && this.next == next
    {
      this.val := val;
      this.next := next;
    }
  }

  /** The list header: head, tail and size, over the chain of `nodes`. */
  class LinkedList<T> {
    var head: Node?<T>
    var tail: Node?<T>
    var size: nat
    /** The nodes from head to tail. */
    ghost var nodes: seq<Node<T>>
    /** The values from head to tail. */
    ghost var Elements: seq<T>

    /**
     * head is the first node and tail the last (both null when empty), each
     * node's next pointer is the node after it and the last one's is null,
     * and size counts the nodes.
     */
    ghost predicate Valid()
      reads this, nodes
    {
      |nodes| == |Elements| == size &&
      head == (if nodes == [] then null else nodes[0]) &&
      tail == (if nodes == [] then null else nodes[|nodes| - 1]) &&
      (forall i :: 0 <= i < |nodes| ==> nodes[i].val == Elements[i]) &&
      (forall i :: 0 <= i < |nodes| - 1 ==> nodes[i].next == nodes[i + 1]) &&
      (nodes != [] ==> nodes[|nodes| - 1].next == null)
    }

    /** A zero-initialised header: `my_list l = {0};`. */
    constructor ()
      ensures Valid() && Elements == [] && head == null && tail == null && size == 0
    {
      head := null;
      tail := null;
      size := 0;
      nodes := [];
      Elements := [];
    }

    /** ds_ll_push: a new node in front of the old head; the tail is set when the list was empty. */
    method Push(v: T)
      requires Valid()
      modifies this
      ensures Valid() && Elements == [v] + old(Elements) && size == old(size) + 1
      ensures head != null && fresh(head) && head.next == old(head)
    {
      var n := new Node(v, head);
      head := n;
      if tail == null {
        tail := head;
      }
      size := size + 1;
      nodes := [n] + nodes;
      Elements := [v] + Elements;
    }

    /** ds_ll_append, with the new node's next pointer set to null: the node becomes the tail. */
    method Append(v: T)
      requires Valid()
      modifies this, nodes
      ensures Valid() && Elements == old(Elements) + [v] && size == old(size) + 1
      ensures tail != null && fresh(tail) && head == if old(head) == null then tail else old(head)
    {
      var n := new Node(v, null);
      if tail == null {
        head := n;
        tail := n;
      } else {
        tail.next := n;
        tail := n;
      }
      size := size + 1;
      nodes := nodes + [n];
      Elements := Elements + [v];
    }

    /**
     * ds_ll_pop: the old head node, unlinked; head moves to its successor
     * and tail is cleared when the list becomes empty.  The list must not
     * be empty (the source asserts it).
     */
    method Pop() returns (node: Node<T>)
      requires Valid() && head != null
      modifies this
      ensures Valid() && Elements == old(Elements)[1..] && size == old(size) - 1
      ensures node == old(head) && node.val == old(Elements)[0]
      ensures Elements == [] ==> head == null && tail == null
    {
      node := head;
      head := head.next;
      if head == null {
        tail := null;
      }
      size := size - 1;
      nodes := nodes[1..];
      Elements := Elements[1..];
    }
  }

  /** A C pointer as the list sees it: NULL, the address of an allocated node, or an indeterminate value. */
  datatype Ptr = Null | Addr(at: nat) | Indeterminate

  datatype CNode<T> = CNode(val: T, next: Ptr)

  /** A list header over a heap of allocated nodes, addressed by position. */
  datatype CList<T> = CList(heap: seq<CNode<T>>, head: Ptr, tail: Ptr, size: nat)

  /** Whether `p` is NULL or points to an allocated node. */
  predicate Known<T>(heap: seq<CNode<T>>, p: Ptr)
  {
    p.Null? || (p.Addr? && p.at < |heap|)
  }

  /** ds_ll_append as written: the new node's next pointer is whatever malloc left there. */
  function AppendAsWritten<T>(l: CList<T>, v: T): (r: CList<T>)
    requires Known(l.heap, l.tail)
    ensures |r.heap| == |l.heap| + 1 && r.size == l.size + 1
    ensures r.tail == Addr(|l.heap|) && r.heap[|l.heap|] == CNode(v, Indeterminate)
    ensures r.head == if l.tail.Null? then r.tail else l.head
    ensures l.tail.Addr? ==> r.heap[l.tail.at].next == r.tail
  {
    var n := Addr(|l.heap|);
    var heap := l.heap + [CNode(v, Indeterminate)];
    if l.tail.Null? then CList(heap, n, n, l.size + 1)
    else CList(heap[l.tail.at := heap[l.tail.at].(next := n)], l.head, n, l.size + 1)
  }

  /** ds_ll_pop as written: head moves to the old head's next pointer; tail is cleared only when that is NULL. */
  function PopAsWritten<T>(l: CList<T>): (r: CList<T>)
    requires l.head.Addr? && l.head.at < |l.heap|
    ensures r.head == l.heap[l.head.at].next && r.heap == l.heap
    ensures r.tail == if r.head.Null? then Null else l.tail
  {
    var next := l.heap[l.head.at].next;
    CList(l.heap, next, if next.Null? then Null else l.tail, if l.size == 0 then SizeMax else l.size - 1)
  }

  /**
   * Appending one value to an empty list and popping it again leaves a
   * list of size 0 whose head is not NULL but indeterminate, and whose tail
   * still points at the popped node: ds_ll_free would go on following head.
   */
  lemma AppendThenPopAsWritten()
    ensures var l := PopAsWritten(AppendAsWritten(CList([], Null, Null, 0), 42));
      l.size == 0 && l.head == Indeterminate && l.tail == Addr(0)
  {
  }

  /** With the next pointer set, the same calls leave an empty list: head and tail NULL. */
  method AppendThenPop() returns (v: int, emptied: bool)
    ensures v == 42 && emptied
  {
    var l := new LinkedList<int>();
    l.Append(42);
    var n := l.Pop();
    v := n.val;
    emptied := l.size == 0 && l.head == null && l.tail == null;
  }
}
