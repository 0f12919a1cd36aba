/**
  The buffer pool of workpool.c.  Buffers wait in one queue per stage; a caller
  takes a buffer out of its stage and gives it back to the next, the last stage
  giving to the first.
 */
module Workpools {
  import opened Options
  import opened Extbuffers

  /* Conservation, on sequences. */

  function Count<B>(stages: seq<seq<B>>): nat {
    if stages == [] then 0 else |stages[0]| + Count(stages[1..])
  }

  lemma {:induction false} CountUpdate<B>(stages: seq<seq<B>>, id: nat, q: seq<B>)
    requires id < |stages|
    ensures Count(stages[id := q]) == Count(stages) - |stages[id]| + |q|
  {
    if id == 0 {
      assert stages[0 := q][1..] == stages[1..];
    } else {
      CountUpdate(stages[1..], id - 1, q);
      assert stages[id := q][1..] == stages[1..][id - 1 := q];
    }
  }

  // No buffer is in two places.
  ghost predicate Apart<B>(stages: seq<seq<B>>, out: set<B>) {
    && (forall i, a, j, b ::
          0 <= i < |stages| && 0 <= a < |stages[i]| && 0 <= j < |stages| && 0 <= b < |stages[j]| ==>
          stages[i][a] == stages[j][b] ==> i == j && a == b)
    && (forall i, a :: 0 <= i < |stages| && 0 <= a < |stages[i]| ==> stages[i][a] !in out)
  }

  ghost predicate Conserved<B>(stages: seq<seq<B>>, out: set<B>, elements: int) {
    Apart(stages, out) && Count(stages) + |out| == elements
  }

  lemma Taken<B>(stages: seq<seq<B>>, out: set<B>, elements: int, id: nat)
    requires Conserved(stages, out, elements) && id < |stages| && stages[id] != []
    ensures Conserved(stages[id := stages[id][1..]], out + {stages[id][0]}, elements)
  {
    CountUpdate(stages, id, stages[id][1..]);
    var now := stages[id := stages[id][1..]];
    forall i, a | 0 <= i < |now| && 0 <= a < |now[i]| ensures now[i][a] == stages[i][if i == id then a + 1 else a] {
    }
  }

  lemma Given<B>(stages: seq<seq<B>>, out: set<B>, elements: int, id: nat, b: B)
    requires Conserved(stages, out, elements) && id < |stages| && b in out
    ensures Conserved(stages[id := stages[id] + [b]], out - {b}, elements)
  {
    CountUpdate(stages, id, stages[id] + [b]);
  }

  lemma Allocated<B>(stages: seq<seq<B>>, out: set<B>, elements: int, b: B)
    requires Conserved(stages, out, elements) && b !in out
    requires forall i :: 0 <= i < |stages| ==> b !in stages[i]
    ensures Conserved(stages, out + {b}, elements + 1)
  {
  }

  lemma NothingOut<B>(stages: seq<seq<B>>)
    requires forall i :: 0 <= i < |stages| ==> stages[i] == []
    ensures Conserved(stages, {}, 0) && Count(stages) == 0
  {
    if stages != [] { NothingOut(stages[1..]); }
  }

  /* The pool. */

  // A buffer added to an empty stage and taken from it leaves everything as it was.
  lemma BackAgain(queues: seq<seq<Extbuffer>>, out: set<Extbuffer>, id: nat, buffer: Extbuffer)
    requires id < |queues| && queues[id] == [] && buffer in out
    ensures var added := queues[id := queues[id] + [buffer]];
            added[id] == [buffer] && added[id := added[id][1..]] == queues
    ensures out - {buffer} + {buffer} == out
  {
    var added := queues[id := queues[id] + [buffer]];
    assert added[id] == [buffer] && added[id][1..] == [];
  }

  class Workpool {
    var queues: seq<seq<Extbuffer>>   // each by the contract of Queues.Queue
    var maxElements: int
    var maxIds: nat
    var elements: int
    var valid: bool
    ghost var out: set<Extbuffer>     // buffers handed out

    // The pool has made elements buffers, never more than maxElements; each is
    // either in one place of one stage or handed out.
    ghost predicate Valid()
      reads this
    {
      && maxIds == |queues| && (valid <==> maxIds > 0) && (!valid ==> out == {})
      && Conserved(queues, out, elements)
      && (elements == 0 || elements <= maxElements)
    }

    // pool_init
    constructor (maxElements: int)
      ensures Valid() && !valid && elements == 0 && out == {} && this.maxElements == maxElements
    {
      queues, this.maxElements, maxIds, elements, valid, out := [], maxElements, 0, 0, false, {};
    }

    // pool_free.  lost: how many buffers were still handed out; the pool forgets them.
    method Free() returns (lost: int)
      requires Valid()
      modifies this
      ensures Valid() && !valid && maxIds == 0 && elements == 0 && out == {} && maxElements == old(maxElements)
      ensures lost == |old(out)|
    {
      lost := 0;
      if maxIds > 0 {
        var n := maxIds;
        for i := 0 to n
          invariant maxIds == |queues| == n && maxElements == old(maxElements) && out == old(out)
          invariant elements == Count(queues) + |out| && forall j :: 0 <= j < i ==> queues[j] == []
        {
          while queues[i] != []
            invariant maxIds == |queues| == n && maxElements == old(maxElements) && out == old(out)
            invariant elements == Count(queues) + |out| && forall j :: 0 <= j < i ==> queues[j] == []
            decreases |queues[i]|
          {
            CountUpdate(queues, i, queues[i][1..]);
            queues := queues[i := queues[i][1..]];
            elements := elements - 1;
          }
        }
        NothingOut(queues);
        lost := elements;
        queues, maxIds, elements, out := [], 0, 0, {};
      }
      valid := false;
    }

    // pool_set_threads
    method SetThreads(numberOfIds: int)
      requires Valid()
      modifies this
      ensures Valid() && maxElements == old(maxElements)
      ensures if numberOfIds <= 0 then queues == old(queues) && out == old(out) && elements == old(elements)
              else && maxIds == numberOfIds && valid && elements == 0 && out == {}
                   && forall i :: 0 <= i < maxIds ==> queues[i] == []
    {
      if numberOfIds <= 0 { return; }
      var lost := Free();
      maxIds := numberOfIds;
      queues := seq(maxIds, i => []);
      NothingOut(queues);
      valid := true;
    }

    // One locked attempt of pop.
    method Pop(id: nat) returns (result: Option<Extbuffer>)
      requires Valid() && id < maxIds
      modifies this`queues, this`out
      ensures Valid()
      ensures if old(queues[id]) == [] then result == None && queues == old(queues) && out == old(out)
              else && result == Some(old(queues[id][0])) && out == old(out) + {old(queues[id][0])}
                   && queues == old(queues)[id := old(queues[id])[1..]]
    {
      if queues[id] == [] { return None; }
      Taken(queues, out, elements, id);
      result := Some(queues[id][0]);
      out := out + {queues[id][0]};
      queues := queues[id := queues[id][1..]];
    }

    method Add(id: nat, buffer: Extbuffer)
      requires Valid() && id < maxIds && buffer in out
      modifies this`queues, this`out
      ensures Valid()
      ensures queues == old(queues)[id := old(queues[id]) + [buffer]] && out == old(out) - {buffer}
    {
      Given(queues, out, elements, id, buffer);
      out := out - {buffer};
      queues := queues[id := queues[id] + [buffer]];
    }

    // arriving: the buffer another thread adds to the stage while a blocking call
    // waits.
    method GetWaitLock(id: nat, block: bool, arriving: Option<Extbuffer>) returns (result: Option<Extbuffer>)
      requires Valid() && (valid ==> id < maxIds) && (arriving.Some? ==> arriving.value in out)
      modifies this
      ensures Valid() && maxElements == old(maxElements) && valid == old(valid) && maxIds == old(maxIds)
      ensures !valid ==> result == None
      ensures result.None? ==> queues == old(queues) && elements == old(elements) && out == old(out)
      ensures result.Some? ==> result.value in out
      ensures valid && old(queues[id]) != [] ==>
                && result == Some(old(queues[id][0])) && elements == old(elements)
                && queues == old(queues)[id := old(queues[id])[1..]] && out == old(out) + {result.value}
      ensures valid && old(queues[id]) == [] && id == 0 && old(elements) < maxElements ==>
                && result.Some? && fresh(result.value) && result.value.Valid() && result.value.Samples() == []
                && elements == old(elements) + 1 && queues == old(queues) && out == old(out) + {result.value}
      ensures valid && old(queues[id]) == [] && !(id == 0 && old(elements) < maxElements) ==>
                && result == (if block then arriving else None)
                && elements == old(elements) && queues == old(queues) && out == old(out)
    {
      if !valid { return None; }
      result := Pop(id);
      if result.None? {
        if id == 0 && elements < maxElements {
          var buffer := new Extbuffer();
          Allocated(queues, out, elements, buffer);
          result := Some(buffer);
          elements := elements + 1;
          out := out + {buffer};
        } else if block {
          ghost var stages, held := queues, out;
          if arriving.Some? { Add(id, arriving.value); }
          result := Pop(id);
          if arriving.Some? { BackAgain(stages, held, id, arriving.value); }
          assert queues == stages && out == held;
        }
      }
    }

    // The last stage hands back to the first, emptied; the others to the next.
    method GetUnlock(id: nat, buffer: Extbuffer)
      requires Valid() && (valid ==> id < maxIds && buffer in out && buffer.Valid())
      modifies this`queues, this`out, buffer
      ensures Valid()
      ensures !valid ==> queues == old(queues) && out == old(out)
      ensures valid ==>
                var to := if id == maxIds - 1 then 0 else id + 1;
                && queues == old(queues)[to := old(queues[to]) + [buffer]] && out == old(out) - {buffer}
                && buffer.Valid() && buffer.data == old(buffer.data)
                && buffer.bufferMaxSize == old(buffer.bufferMaxSize)
                && buffer.sizeValid == if id == maxIds - 1 then 0 else old(buffer.sizeValid)
    {
      if !valid { return; }
      if id == maxIds - 1 {
        buffer.PrepareToHandle(0);
        Add(0, buffer);
      } else {
        Add(id + 1, buffer);
      }
    }
  }
}
