/**
  The growing sample buffers of extbuffer.c.  Of the five typed pointers only the
  one of the buffer's own type is ever used; elements are modelled as integers.
 */
module Extbuffers {
  function Max(a: int, b: int): int { if a < b then b else a }

  function Min(a: int, b: int): int { if a < b then a else b }

  class Extbuffer {
    var data: array?<int>
    var bufferMaxSize: nat
    var sizeValid: nat
    var valid: bool
    var clearToZero: bool

    // The valid elements fit the memory there is.
    ghost predicate Valid()
      reads this
    {
      && sizeValid <= bufferMaxSize
      && bufferMaxSize == (if data == null then 0 else data.Length)
      && (valid <==> data != null)
    }

    ghost function Samples(): seq<int>
      requires Valid()
      reads this, data
    {
      if data == null then [] else data[..sizeValid]
    }

    constructor ()
      ensures Valid() && Samples() == [] && data == null
    {
      data, bufferMaxSize, sizeValid := null, 0, 0;
      valid, clearToZero := false, true;
    }

    // realloc: the elements up to the smaller size stay.
    method Reallocate(size: nat)
      requires Valid() && bufferMaxSize < size
      modifies this`data, this`valid
      ensures data != null && fresh(data) && data.Length == size && valid
      ensures forall i :: 0 <= i < bufferMaxSize ==> data[i] == old(data[i])
    {
      var grown := new int[size];
      if data != null {
        forall i | 0 <= i < bufferMaxSize { grown[i] := data[i]; }
      }
      data, valid := grown, true;
    }

    // extbuffer_preparetohandle: the capacity never shrinks, and the elements there
    // were stay unless they were to be cleared.
    method PrepareToHandle(size: int)
      requires Valid()
      modifies this, if size > 0 && data != null then {data} else {}
      ensures Valid() && sizeValid == Max(size, 0)
      ensures bufferMaxSize == Max(old(bufferMaxSize), size)
      ensures data == old(data) || fresh(data)
      ensures data == old(data) <==> size <= old(bufferMaxSize)
      ensures size <= 0 ==> clearToZero == old(clearToZero) && (data != null ==> data[..] == old(data[..]))
      ensures size > 0 ==> !clearToZero && data != null && size <= data.Length && old(bufferMaxSize) <= data.Length
      ensures size > 0 && old(clearToZero) ==> forall i :: 0 <= i < size ==> data[i] == 0
      ensures size > 0 && !old(clearToZero) ==> forall i :: 0 <= i < old(bufferMaxSize) ==> data[i] == old(data[i])
      ensures size > 0 ==> forall i :: size <= i < old(bufferMaxSize) ==> data[i] == old(data[i])
    {
      if size <= 0 {
        sizeValid := 0;
        return;
      }
      if bufferMaxSize < size {
        Reallocate(size);
        bufferMaxSize := size;
      }
      sizeValid := size;
      if clearToZero {
        ghost var before := data[..];
        for i := 0 to sizeValid
          modifies data
          invariant forall j :: 0 <= j < i ==> data[j] == 0
          invariant forall j :: i <= j < data.Length ==> data[j] == before[j]
        {
          data[i] := 0;
        }
        clearToZero := false;
      }
    }

    // Room for the samples, and the samples in it: what every producer does.
    method Fill(samples: seq<int>)
      requires Valid()
      modifies this, if samples != [] && data != null then {data} else {}
      ensures Valid() && Samples() == samples && bufferMaxSize == Max(old(bufferMaxSize), |samples|)
    {
      PrepareToHandle(|samples|);
      if data != null {
        forall i | 0 <= i < |samples| { data[i] := samples[i]; }
        assert data[..sizeValid] == samples;
      }
    }
  }
}
