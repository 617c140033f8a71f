/** The growable text buffer of src/delta.c and src/collector.c. They differ in their first capacity. */
module Buffers {
  import opened CText

  class Buffer {
    const firstCapacity: nat
    var data: array<char>
    var len: nat

    ghost predicate Valid()
      reads this, data
    {
      && 0 < firstCapacity
      && (len == data.Length == 0 || (len < data.Length && (len > 0 ==> data[len] == NUL)))
    }

    ghost function Contents(): string
      reads this, data
      requires len <= data.Length
    {
      data[..len]
    }

    constructor (firstCapacity: nat)
      requires firstCapacity > 0
      ensures Valid() && fresh(data) && Contents() == ""
    {
      this.firstCapacity := firstCapacity;
      data := new char[0];
      len := 0;
    }

    /** buf_reserve(): room for `extra` characters and the terminator. */
    method Reserve(extra: nat)
      requires Valid()
      modifies this
      ensures Valid() && (data == old(data) || fresh(data))
      ensures len + extra + 1 <= data.Length && len == old(len) && Contents() == old(Contents())
    {
      var need := len + extra + 1;
      if data.Length >= need {
        return;
      }
      var cap := data.Length;
      while cap < need
        invariant cap >= data.Length
        decreases need - cap
      {
        cap := if cap == 0 then firstCapacity else 2 * cap;
      }
      var next := new char[cap](_ => NUL);
      forall i | 0 <= i < len {
        next[i] := data[i];
      }
      assert next[..len] == data[..len];
      data := next;
    }

    /** buf_append_n() */
    method Append(s: string)
      requires Valid()
      modifies this, data
      ensures Valid() && (data == old(data) || fresh(data))
      ensures Contents() == old(Contents()) + s
    {
      Reserve(|s|);
      ghost var before := data[..len];
      forall i | 0 <= i < |s| {
        data[len + i] := s[i];
      }
      assert data[..len + |s|] == before + s;
      len := len + |s|;
      data[len] := NUL;
      assert data[..len] == before + s;
    }
  }
}
