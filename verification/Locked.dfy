/** The fixed-capacity buffer for secrets (`locked.rs`) and the key views over it. Locking
    pages and wiping memory are not part of the model. */
module Locked {
  import opened Bytes

  const CAPACITY: nat := 4096

  /** `locked::Vec`: at most `CAPACITY` bytes, changed in place. Extending past the capacity
      panics in the source, so it is a precondition here. */
  class Buffer {
    const bytes: array<byte>
    var len: nat

    ghost predicate Valid()
      reads this
    {
      bytes.Length == CAPACITY && len <= CAPACITY
    }

    function Data(): (d: seq<byte>)
      requires Valid()
      reads this, bytes
      ensures |d| == len
    {
      bytes[..len]
    }

    constructor ()
      ensures Valid() && Data() == [] && fresh(bytes)
    {
      bytes := new byte[CAPACITY](_ => 0);
      len := 0;
    }

    method Extend(more: seq<byte>)
      requires Valid() && |Data()| + |more| <= CAPACITY
      modifies this, bytes
      ensures Valid() && Data() == old(Data()) + more
    {
      for i := 0 to |more|
        invariant Valid() && len == old(len) + i
        invariant bytes[..len] == old(bytes[..len]) + more[..i]
      {
        bytes[len] := more[i];
        len := len + 1;
      }
    }

    method Truncate(n: nat)
      requires Valid()
      modifies this
      ensures Valid() && Data() == if n < old(len) then old(Data())[..n] else old(Data())
    {
      if n < len {
        len := n;
      }
    }

    method Zero()
      requires Valid()
      modifies this, bytes
      ensures Valid() && Data() == Repeat(0, CAPACITY)
    {
      Truncate(0);
      for i := 0 to CAPACITY
        invariant Valid() && len == i
        invariant forall k :: 0 <= k < i ==> bytes[k] == 0
      {
        bytes[i] := 0;
        len := len + 1;
      }
    }

    method Clone() returns (copy: Buffer)
      requires Valid()
      ensures fresh(copy) && fresh(copy.bytes) && copy.Valid() && copy.Data() == Data()
    {
      copy := new Buffer();
      copy.Extend(Data());
    }
  }

  /** `locked::Keys`: an encryption key and a MAC key at fixed places of one buffer, which may
      be longer than the two. */
  datatype Keys = Keys(data: seq<byte>) {
    function EncKey(): (k: seq<byte>)
      requires |data| >= 32
      ensures |k| == 32
    {
      data[..32]
    }

    function MacKey(): (k: seq<byte>)
      requires |data| >= 64
      ensures |k| == 32
    {
      data[32..64]
    }
  }

  /** `locked::Token`: a token that does not fit the buffer is kept on the heap instead. */
  datatype Token = InBuffer(bytes: seq<byte>) | OnHeap(bytes: seq<byte>)

  function TokenFromString(s: seq<byte>): Token {
    if |s| <= CAPACITY then InBuffer(s) else OnHeap(s)
  }
}
