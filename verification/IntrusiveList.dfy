/**
  The intrusive doubly linked lists of libusbi.h: a ring of entries through its
  head, refined to the sequence of the entries behind the head.
 */
module IntrusiveList {
  import opened Timevals
  import opened TransferLifecycle

  // A usbi_transfer with its list links.  The head of a list is an entry of which
  // only the links are used.
  class UsbiTransfer {
    var prev: UsbiTransfer?
    var next: UsbiTransfer?
    var timeout: Timeval
    var flags: Flags
    var osHandlesTimeout: bool
    const handle: nat

    // list_init
    constructor (timeout: Timeval, handle: nat)
      ensures IsList(this, []) && this.timeout == timeout && this.handle == handle && flags == NO_FLAGS
    {
      this.prev, this.next := this, this;
      this.timeout, this.handle, this.flags := timeout, handle, NO_FLAGS;
    }
  }

  // The entries of the ring, the head at both ends.
  ghost function Node(head: UsbiTransfer, xs: seq<UsbiTransfer>, i: int): UsbiTransfer {
    if 0 <= i < |xs| then xs[i] else head
  }

  ghost predicate Linked(a: UsbiTransfer, b: UsbiTransfer)
    reads a`next, b`prev
  {
    a.next == b && b.prev == a
  }

  ghost predicate Distinct(head: UsbiTransfer, xs: seq<UsbiTransfer>) {
    head !in xs && forall i, j :: 0 <= i < j < |xs| ==> xs[i] != xs[j]
  }

  ghost predicate IsList(head: UsbiTransfer, xs: seq<UsbiTransfer>)
    reads head`prev, head`next, xs`prev, xs`next
  {
    && Distinct(head, xs)
    && forall i :: 0 <= i <= |xs| ==> Linked(Node(head, xs, i - 1), Node(head, xs, i))
  }

  ghost function Inserted(xs: seq<UsbiTransfer>, k: nat, x: UsbiTransfer): seq<UsbiTransfer>
    requires k <= |xs|
  {
    xs[..k] + [x] + xs[k..]
  }

  ghost function Removed(xs: seq<UsbiTransfer>, k: nat): seq<UsbiTransfer>
    requires k < |xs|
  {
    xs[..k] + xs[k + 1..]
  }

  lemma InsertedNode(head: UsbiTransfer, xs: seq<UsbiTransfer>, k: nat, x: UsbiTransfer, i: int)
    requires k <= |xs| && -1 <= i <= |xs| + 1
    ensures Node(head, Inserted(xs, k, x), i) ==
            if i < k then Node(head, xs, i) else if i == k then x else Node(head, xs, i - 1)
  {
  }

  lemma RemovedNode(head: UsbiTransfer, xs: seq<UsbiTransfer>, k: nat, i: int)
    requires k < |xs| && -1 <= i < |xs|
    ensures Node(head, Removed(xs, k), i) == if i < k then Node(head, xs, i) else Node(head, xs, i + 1)
  {
  }

  method ListAdd(entry: UsbiTransfer, at: UsbiTransfer, ghost head: UsbiTransfer, ghost xs: seq<UsbiTransfer>,
                 ghost k: nat)
    requires IsList(head, xs) && k <= |xs| && at == Node(head, xs, k - 1) && entry != head && entry !in xs
    modifies entry`prev, entry`next, at`next, Node(head, xs, k)`prev
    ensures IsList(head, Inserted(xs, k, entry))
  {
    assert Linked(Node(head, xs, k - 1), Node(head, xs, k));
    entry.next := at.next;
    entry.prev := at;
    at.next.prev := entry;
    at.next := entry;
    ghost var ys := Inserted(xs, k, entry);
    forall i | 0 <= i <= |ys| ensures Linked(Node(head, ys, i - 1), Node(head, ys, i)) {
      InsertedNode(head, xs, k, entry, i - 1);
      InsertedNode(head, xs, k, entry, i);
      if i < k {
        assert old(Linked(Node(head, xs, i - 1), Node(head, xs, i)));
      } else if i > k + 1 {
        assert old(Linked(Node(head, xs, i - 2), Node(head, xs, i - 1)));
      }
    }
  }

  method ListAddTail(entry: UsbiTransfer, at: UsbiTransfer, ghost head: UsbiTransfer, ghost xs: seq<UsbiTransfer>,
                     ghost k: nat)
    requires IsList(head, xs) && k <= |xs| && at == Node(head, xs, k) && entry != head && entry !in xs
    modifies entry`prev, entry`next, at`prev, Node(head, xs, k - 1)`next
    ensures IsList(head, Inserted(xs, k, entry))
  {
    assert Linked(Node(head, xs, k - 1), Node(head, xs, k));
    entry.next := at;
    entry.prev := at.prev;
    at.prev.next := entry;
    at.prev := entry;
    ghost var ys := Inserted(xs, k, entry);
    forall i | 0 <= i <= |ys| ensures Linked(Node(head, ys, i - 1), Node(head, ys, i)) {
      InsertedNode(head, xs, k, entry, i - 1);
      InsertedNode(head, xs, k, entry, i);
      if i < k {
        assert old(Linked(Node(head, xs, i - 1), Node(head, xs, i)));
      } else if i > k + 1 {
        assert old(Linked(Node(head, xs, i - 2), Node(head, xs, i - 1)));
      }
    }
  }

  method ListDel(entry: UsbiTransfer, ghost head: UsbiTransfer, ghost xs: seq<UsbiTransfer>, ghost k: nat)
    requires IsList(head, xs) && k < |xs| && entry == xs[k]
    modifies entry`prev, entry`next, Node(head, xs, k - 1)`next, Node(head, xs, k + 1)`prev
    ensures IsList(head, Removed(xs, k)) && entry.prev == entry.next == null
  {
    assert Linked(Node(head, xs, k - 1), Node(head, xs, k));
    assert Linked(Node(head, xs, k), Node(head, xs, k + 1));
    entry.next.prev := entry.prev;
    entry.prev.next := entry.next;
    entry.next, entry.prev := null, null;
    ghost var ys := Removed(xs, k);
    forall i | 0 <= i <= |ys| ensures Linked(Node(head, ys, i - 1), Node(head, ys, i)) {
      RemovedNode(head, xs, k, i - 1);
      RemovedNode(head, xs, k, i);
      if i < k {
        assert old(Linked(Node(head, xs, i - 1), Node(head, xs, i)));
      } else if i > k {
        assert old(Linked(Node(head, xs, i), Node(head, xs, i + 1)));
      }
    }
  }
}
