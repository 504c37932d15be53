/** The header list of a message, looked up by name without regard to case. */
module HeaderList {

  import opened Wrappers
  import opened AsciiCase

  type Header = (Bytes, Bytes)

  /** Where the first header of that name is, or the length of the list. */
  function Index(l: seq<Header>, name: Bytes): (i: nat)
    ensures i <= |l| && (i < |l| ==> Same(l[i].0, name)) && forall k | 0 <= k < i :: !Same(l[k].0, name)
  {
    if l == [] || Same(l[0].0, name) then 0
    else
      var i := 1 + Index(l[1..], name);
      assert forall k | 0 < k < i :: l[k] == l[1..][k - 1];
      i
  }

  function Lookup(l: seq<Header>, name: Bytes): Option<Bytes> {
    if Index(l, name) < |l| then Some(l[Index(l, name)].1) else None
  }

  function Assigned(l: seq<Header>, name: Bytes, value: Bytes): seq<Header> {
    var i := Index(l, name);
    if i < |l| then l[i := (l[i].0, value)] else l + [(name, value)]
  }

  /** The headers of other names, in order. */
  function Others(l: seq<Header>, name: Bytes): seq<Header> {
    if l == [] then []
    else if Same(l[0].0, name) then Others(l[1..], name)
    else [l[0]] + Others(l[1..], name)
  }

  lemma IndexIs(l: seq<Header>, name: Bytes, i: nat)
    requires i <= |l| && (i < |l| ==> Same(l[i].0, name)) && forall k | 0 <= k < i :: !Same(l[k].0, name)
    ensures Index(l, name) == i
  {
    var _ := Index(l, name);
  }

  /** Names that are the same are found at the same place. */
  lemma SameIndex(l: seq<Header>, a: Bytes, b: Bytes)
    requires Same(a, b)
    ensures Index(l, a) == Index(l, b)
  {
    var i := Index(l, a);
    if i < |l| { SameIsEquivalence(l[i].0, a, b); }
    forall k | 0 <= k < i ensures !Same(l[k].0, b) { SameIsEquivalence(l[k].0, b, a); SameIsEquivalence(a, b, a); }
    IndexIs(l, b, i);
  }

  /** Setting a header decides what that name, in any case, gives, and nothing else. */
  lemma SetThenGet(l: seq<Header>, name: Bytes, value: Bytes, other: Bytes)
    ensures Lookup(Assigned(l, name, value), other) == if Same(name, other) then Some(value) else Lookup(l, other)
    ensures |Assigned(l, name, value)| == |l| + if Lookup(l, name).None? then 1 else 0
    ensures forall k | 0 <= k < |l| :: Assigned(l, name, value)[k].0 == l[k].0
  {
    var i, r := Index(l, name), Assigned(l, name, value);
    if Same(name, other) {
      SameIndex(l, name, other);
      IndexIs(r, other, i) by { if i == |l| { SameIsEquivalence(name, other, name); } }
    }
    var j := Index(l, other);
    if !Same(name, other) {
      if i < |l| && j == i { SameIsEquivalence(l[i].0, name, other); SameIsEquivalence(name, l[i].0, other); }
      IndexIs(r, other, if j < |l| then j else |r|);
    }
  }

  lemma {:induction false} OthersSnoc(l: seq<Header>, h: Header, name: Bytes)
    ensures Others(l + [h], name) == Others(l, name) + if Same(h.0, name) then [] else [h]
    decreases |l|
  {
    if l == [] {
      assert [h][1..] == [];
    } else {
      assert (l + [h])[1..] == l[1..] + [h];
      OthersSnoc(l[1..], h, name);
    }
  }

  /** Removing a name takes out every header of it, in any case, and leaves the others as they were. */
  lemma {:induction false} RemoveThenGet(l: seq<Header>, name: Bytes, other: Bytes)
    ensures Lookup(Others(l, name), other) == if Same(name, other) then None else Lookup(l, other)
    ensures |Others(l, name)| < |l| <==> Lookup(l, name).Some?
    ensures Lookup(l, name).None? ==> Others(l, name) == l
    decreases |l|
  {
    if l != [] {
      RemoveThenGet(l[1..], name, other);
      FirstOrLater(l, name);
      FirstOrLater(l, other);
      var r := Others(l, name);
      if Same(l[0].0, name) {
        SameIsEquivalence(l[0].0, name, other);
        SameIsEquivalence(name, l[0].0, other);
      } else {
        FirstOrLater(r, other);
        assert r[1..] == Others(l[1..], name);
        SameIsEquivalence(name, other, l[0].0);
        SameIsEquivalence(l[0].0, other, name);
      }
      hide Index, Same;
    }
  }

  lemma FirstOrLater(l: seq<Header>, name: Bytes)
    requires l != []
    ensures Lookup(l, name) == if Same(l[0].0, name) then Some(l[0].1) else Lookup(l[1..], name)
  {
  }

  /** Appending does not hide a header that is there. */
  lemma AppendThenGet(l: seq<Header>, name: Bytes, value: Bytes, other: Bytes)
    ensures Lookup(l + [(name, value)], other) ==
      if Lookup(l, other).Some? then Lookup(l, other) else if Same(name, other) then Some(value) else None
  {
    var i, r := Index(l, other), l + [(name, value)];
    IndexIs(r, other, if i == |l| && !Same(name, other) then |r| else i);
  }

  class HttpHeaders {
    var list: seq<Header>

    constructor ()
      ensures list == []
    {
      list := [];
    }

    method Find(name: Bytes) returns (i: nat)
      ensures i == Index(list, name)
    {
      i := 0;
      while i < |list|
        invariant i <= |list| && forall k | 0 <= k < i :: !Same(list[k].0, name)
      {
        var same := EqualsIgnoreCase(list[i].0, name);
        if same { break; }
        i := i + 1;
      }
      IndexIs(list, name, i);
    }

    method Append(name: Bytes, value: Bytes)
      modifies this
      ensures list == old(list) + [(name, value)]
    {
      list := list + [(name, value)];
    }

    method Set(name: Bytes, value: Bytes)
      modifies this
      ensures list == Assigned(old(list), name, value)
    {
      var i := Find(name);
      if i < |list| {
        list := list[i := (list[i].0, value)];
      } else {
        list := list + [(name, value)];
      }
    }

    method Contains(name: Bytes) returns (found: bool)
      ensures found <==> Lookup(list, name).Some?
    {
      var i := Find(name);
      found := i < |list|;
    }

    method Get(name: Bytes) returns (value: Option<Bytes>)
      ensures value == Lookup(list, name)
    {
      var i := Find(name);
      value := if i < |list| then Some(list[i].1) else None;
    }

    /** Returns whether there was anything to remove. */
    method Remove(name: Bytes) returns (removed: bool)
      modifies this
      ensures list == Others(old(list), name)
      ensures removed <==> Lookup(old(list), name).Some?
    {
      var kept: seq<Header> := [];
      for i := 0 to |list|
        invariant list == old(list) && kept == Others(list[..i], name)
      {
        assert list[..i + 1] == list[..i] + [list[i]];
        OthersSnoc(list[..i], list[i], name);
        var same := EqualsIgnoreCase(list[i].0, name);
        if !same { kept := kept + [list[i]]; }
      }
      assert list[..|list|] == list;
      RemoveThenGet(list, name, name);
      removed := |kept| < |list|;
      list := kept;
    }
  }
}
