/**
  The queue of queue.c: a linked list whose first element remembers the last one.
 */
module Queues {
  import opened Options

  class Element<T> {
    var next: Element?<T>
    var prev: Element?<T>
    var last: Element?<T>   // meaningful in the first element only
    const payload: T

    constructor (payload: T)
      ensures this.payload == payload && next == null && prev == null && last == null
    {
      this.payload, next, prev, last := payload, null, null, null;
    }
  }

  class Queue<T> {
    var first: Element?<T>
    ghost var elements: seq<Element<T>>

    ghost predicate Valid()
      reads this, elements
    {
      && (forall i, j :: 0 <= i < j < |elements| ==> elements[i] != elements[j])
      && first == Nth(elements, 0)
      && (first != null ==> first.last == Nth(elements, |elements| - 1))
      && forall i :: 0 <= i < |elements| ==> Linked(elements, i)
    }

    ghost function Contents(): (s: seq<T>)
      reads this
      ensures |s| == |elements|
    {
      Payloads(elements)
    }

    constructor ()
      ensures Valid() && Contents() == [] && elements == []
    {
      first, elements := null, [];
    }

    method Add(ptr: T)
      requires Valid()
      modifies this, elements
      ensures Valid() && Contents() == old(Contents()) + [ptr]
      ensures |elements| == |old(elements)| + 1 && elements[..|old(elements)|] == old(elements)
              && fresh(elements[|old(elements)|])
    {
      ghost var es := elements;
      var element := new Element(ptr);
      PayloadsOfMore(es, element);
      if first == null {
        element.last := element;
        first := element;
      } else {
        assert Linked(es, |es| - 1);
        element.prev := first.last;
        first.last.next := element;
        first.last := element;
      }
      elements := es + [element];
      forall i | 0 <= i < |elements| ensures Linked(elements, i) {
        assert i < |es| ==> old(Linked(es, i));
      }
    }

    method Pop() returns (result: Option<T>)
      requires Valid()
      modifies this, elements
      ensures Valid()
      ensures if old(Contents()) == [] then result == None && Contents() == [] && elements == old(elements)
              else && result == Some(old(Contents())[0]) && Contents() == old(Contents())[1..]
                   && elements == old(elements)[1..]
    {
      if first == null { return None; }
      ghost var es := elements;
      assert Linked(es, 0);
      if first.next != null {
        first.next.prev := null;
        first.next.last := first.last;
      }
      result := Some(first.payload);
      first := first.next;
      elements := es[1..];
      forall i | 0 <= i < |elements| ensures Linked(elements, i) {
        assert old(Linked(es, i + 1));
      }
    }
  }

  ghost function Nth<T>(es: seq<Element<T>>, i: int): Element?<T> {
    if 0 <= i < |es| then es[i] else null
  }

  ghost predicate Linked<T>(es: seq<Element<T>>, i: int)
    requires 0 <= i < |es|
    reads es
  {
    es[i].next == Nth(es, i + 1) && es[i].prev == Nth(es, i - 1)
  }

  ghost function Payloads<T>(es: seq<Element<T>>): (s: seq<T>)
    ensures |s| == |es| && forall i :: 0 <= i < |es| ==> s[i] == es[i].payload
  {
    if es == [] then [] else [es[0].payload] + Payloads(es[1..])
  }

  lemma {:induction false} PayloadsOfMore<T>(es: seq<Element<T>>, e: Element<T>)
    ensures Payloads(es + [e]) == Payloads(es) + [e.payload]
  {
  }
}
