/** The I/O buffer: a byte queue in a flat block of memory with 32-bit bookkeeping. */
module Buffer {

  type Byte = bv8

  const TWO_32: nat := 0x1_0000_0000

  /** A new block that begins like the old one, as far as both go. */
  method Reallocate(block: array<Byte>, length: nat) returns (r: array<Byte>)
    ensures fresh(r) && r.Length == length
    ensures forall k | 0 <= k < length && k < block.Length :: r[k] == block[k]
  {
    r := new Byte[length];
    var i := 0;
    while i < length && i < block.Length
      invariant i <= length && i <= block.Length
      invariant forall k | 0 <= k < i :: r[k] == block[k]
    {
      r[i] := block[i];
      i := i + 1;
    }
  }

  /** `data` is the block, `capacity`, `front` and `back` its header. The ghost fields are what was
      ever committed and what was removed. */
  class Buffer {
    var data: array<Byte>
    var capacity: nat
    var front: nat
    var back: nat
    ghost var committed: seq<Byte>
    ghost var removed: seq<Byte>

    ghost predicate Valid()
      reads this, data
    {
      && front <= back <= capacity == data.Length < TWO_32
      && removed + data[front..back] == committed
    }

    ghost function Held(): seq<Byte>
      requires Valid()
      reads this, data
    {
      data[front..back]
    }

    constructor (capacity: nat)
      requires capacity < TWO_32
      ensures Valid() && fresh(data) && this.capacity == capacity && front == 0 == back && committed == [] && removed == []
    {
      data := new Byte[capacity];
      this.capacity := capacity;
      front, back := 0, 0;
      committed, removed := [], [];
    }

    function Size(): nat
      requires front <= back
      reads this
    {
      back - front
    }

    function Available(): nat
      requires back <= capacity
      reads this
    {
      capacity - back
    }

    function Potential(): nat
      requires front <= back <= capacity
      reads this
    {
      capacity - Size()
    }

    /** Moves the held bytes to the front of the block. */
    method Compact()
      requires Valid()
      modifies this`front, this`back, data
      ensures Valid() && Held() == old(Held()) && front == 0 && back == old(Size())
    {
      if front == 0 { return; }
      var n := Size();
      ghost var was := data[front..back];
      var i := 0;
      while i < n
        invariant i <= n && front + n == back <= data.Length
        invariant forall k | 0 <= k < i :: data[k] == was[k]
        invariant forall k | i <= k < n :: data[front + k] == was[k]
      {
        data[i] := data[front + i];
        i := i + 1;
      }
      back := n;
      front := 0;
      assert data[front..back] == was;
    }

    /** realloc by `need` more bytes, counted in 32 bits. */
    method Grow(need: nat)
      requires Valid() && front == 0 && need < TWO_32
      modifies this`data, this`capacity
      ensures fresh(data) && data.Length == capacity
      ensures capacity == old(capacity) + need - if old(capacity) + need < TWO_32 then 0 else TWO_32
      ensures back <= capacity ==> Valid() && Held() == old(Held())
    {
      var newCapacity := (capacity + need) % TWO_32;
      data := Reallocate(data, newCapacity);
      capacity := newCapacity;
      if back <= capacity {
        assert data[..back] == old(data[..back]);
      }
    }

    /** Makes room for n bytes; `granted` says whether realloc finds memory. The new capacity is
        computed in 32 bits. */
    method Reserve(n: nat, granted: bool) returns (ok: bool)
      requires Valid() && n < TWO_32
      modifies this, data
      ensures committed == old(committed) && removed == old(removed)
      ensures ok <==> granted || n <= old(Potential())
      ensures !ok ==> Valid() && Held() == old(Held()) && capacity == old(capacity)
      ensures ok ==> (Valid() <==> old(Size()) + n < TWO_32)
      ensures ok && Valid() ==> Held() == old(Held()) && Available() >= n && (data == old(data) || fresh(data))
      ensures ok && !Valid() ==>
        front == 0 && back == old(Size()) && data.Length == capacity == old(Size()) + n - TWO_32 < back
    {
      if n > Potential() {
        Compact();
        if !granted {
          return false;
        }
        assert capacity + (n - Potential()) == back + n;
        Grow(n - Potential());
        assert back <= capacity <==> back + n < TWO_32;
      } else if n > Available() {
        Compact();
      }
      ok := true;
    }

    /** A reader stores bytes behind the back, where they are not held yet. */
    method Fill(bytes: seq<Byte>)
      requires Valid() && |bytes| <= Available()
      modifies data
      ensures Valid() && Held() == old(Held()) && data[back..back + |bytes|] == bytes
    {
      for i := 0 to |bytes|
        invariant data[front..back] == old(data[front..back]) && data[back..back + i] == bytes[..i]
      {
        data[back + i] := bytes[i];
      }
    }

    /** Marks the n bytes behind the back as held; refuses more than are available. */
    method Commit(n: nat) returns (ok: bool)
      requires Valid()
      modifies this`back, this`committed
      ensures Valid() && (ok <==> n <= old(Available()))
      ensures ok ==> Held() == old(Held()) + data[old(back)..old(back) + n] && Size() == old(Size()) + n
      ensures !ok ==> Held() == old(Held()) && back == old(back)
    {
      if n > Available() {
        return false;
      }
      committed := committed + data[back..back + n];
      back := back + n;
      assert data[front..back] == old(data[front..back]) + data[old(back)..back];
      return true;
    }

    /** Drops the first n held bytes; refuses more than are held. */
    method Remove(n: nat) returns (ok: bool)
      requires Valid()
      modifies this`front, this`back, this`removed
      ensures Valid() && (ok <==> n <= old(Size()))
      ensures ok ==> Held() == old(Held())[n..] && removed == old(removed) + old(Held())[..n]
      ensures !ok ==> Held() == old(Held()) && removed == old(removed)
      ensures Held() == [] && ok ==> front == 0 == back
    {
      if n > Size() {
        return false;
      }
      removed := removed + data[front..front + n];
      front := front + n;
      assert data[old(front)..back] == data[old(front)..front] + data[front..back];
      if front == back {
        front, back := 0, 0;
      }
      return true;
    }
  }

  /** For one: with a single byte held, room for 2^32 - 1 more is granted as a block of no bytes. */
  method ReserveWraps() returns (b: Buffer, ok: bool)
    ensures ok && b.capacity == b.data.Length == 0 && b.front == 0 && b.back == 1
  {
    b := new Buffer(1);
    b.Fill([7]);
    ok := b.Commit(1);
    ok := b.Reserve(TWO_32 - 1, true);
  }
}
