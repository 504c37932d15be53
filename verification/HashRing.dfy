/** Consistent hashing: nodes own points on a ring, and data belongs to the next point at or behind
    its hash. */
module HashRing {

  import opened Wrappers

  type Node = string

  /** Which node each point belongs to. */
  type Ring = map<nat, Node>

  /** k is the point that owns hash h: the least one not below h, or the least of all if none is. */
  predicate Owns(ring: Ring, h: nat, k: nat) {
    && k in ring
    && if k >= h then forall j <- ring :: j >= h ==> k <= j
       else forall j <- ring :: j < h && k <= j
  }

  predicate Least(s: set<nat>, m: nat) { m in s && forall j | j in s :: m <= j }

  lemma {:induction false} HasLeast(s: set<nat>)
    requires s != {}
    ensures exists m: nat :: Least(s, m)
    decreases |s|
  {
    var x :| x in s;
    var rest := s - {x};
    if rest == {} {
      assert s == {x};
      assert Least(s, x);
    } else {
      HasLeast(rest);
      var m: nat :| Least(rest, m);
      assert forall j | j in s :: j == x || j in rest;
      assert Least(s, if x < m then x else m);
    }
  }

  lemma OwnerExists(ring: Ring, h: nat)
    requires ring != map[]
    ensures exists k :: Owns(ring, h, k)
  {
    var above := set j | j in ring && j >= h;
    if above != {} {
      HasLeast(above);
      var m: nat :| Least(above, m);
      forall j | j in ring && j >= h ensures m <= j { assert j in above; }
      assert Owns(ring, h, m);
    } else {
      assert ring.Keys != {};
      HasLeast(ring.Keys);
      var m: nat :| Least(ring.Keys, m);
      forall j | j in ring ensures j < h && m <= j { assert j !in above && j in ring.Keys; }
      assert Owns(ring, h, m);
    }
  }

  function Owner(ring: Ring, h: nat): (k: nat)
    requires ring != map[]
    ensures Owns(ring, h, k)
  {
    OwnerExists(ring, h);
    var k :| k in ring && Owns(ring, h, k);
    k
  }

  lemma OwnerUnique(ring: Ring, h: nat, k: nat)
    requires Owns(ring, h, k)
    ensures ring != map[] && Owner(ring, h) == k
  {
  }

  /** The node that data with hash h belongs to. */
  function Lookup(ring: Ring, h: nat): Option<Node> {
    if ring == map[] then None else Some(ring[Owner(ring, h)])
  }

  function Added(ring: Ring, points: set<nat>, node: Node): Ring {
    map k | k in ring.Keys + points :: if k in points then node else ring[k]
  }

  function Removed(ring: Ring, points: set<nat>): Ring { ring - points }

  /** What adding puts on the ring: its points belong to the node, every other point is as it was. */
  lemma AddedAt(ring: Ring, points: set<nat>, node: Node, k: nat)
    ensures var r := Added(ring, points, node);
      && (k in points ==> k in r && r[k] == node)
      && (k !in points ==> (k in r <==> k in ring) && (k in ring ==> r[k] == ring[k]))
  {
    assert k in ring.Keys + points <==> k in ring || k in points;
  }

  /** A datum belongs to the added node exactly if its owning point is now one of the node's, or did
      before; and it has one there as soon as a point of the node lies between its hash and its former
      owner. */
  lemma AddTakes(ring: Ring, points: set<nat>, node: Node, h: nat)
    requires points != {}
    ensures var r := Added(ring, points, node);
      && r != map[]
      && (Lookup(r, h) == Some(node) <==> Owner(r, h) in points || Lookup(ring, h) == Some(node))
      && (Owner(r, h) in points <==> ring == map[] || Owner(ring, h) in points || exists k <- points :: Nearer(h, k, Owner(ring, h)))
  {
    var r := Added(ring, points, node);
    var x :| x in points;
    forall k { AddedAt(ring, points, node, k); }
    assert x in r;
    var o := Owner(r, h);
    if ring != map[] {
      var p := Owner(ring, h);
      assert p in r;
      if o !in points {
        assert Owns(ring, h, o);
        OwnerUnique(ring, h, o);
        forall k | k in points ensures !Nearer(h, k, p) { assert k in r; }
      } else if p !in points {
        assert o != p;
        assert Nearer(h, o, p);
      }
    }
  }

  /** Going up from h and around, k comes strictly before p. */
  predicate Nearer(h: nat, k: nat, p: nat) { if p >= h then h <= k < p else k >= h || k < p }

  /** Adding a node moves data only to that node, whatever points it shares with others. */
  lemma AddMovesOnlyToNode(ring: Ring, points: set<nat>, node: Node, h: nat)
    ensures var r := Added(ring, points, node);
      Lookup(r, h) == Lookup(ring, h) || Lookup(r, h) == Some(node)
  {
    var r := Added(ring, points, node);
    if r != map[] && Owner(r, h) !in points {
      forall j | j in ring ensures j in r { assert j in ring.Keys + points; }
      assert Owner(r, h) in ring.Keys + points;
      assert Owns(ring, h, Owner(r, h));
      OwnerUnique(ring, h, Owner(r, h));
    }
  }

  /** Removing points moves exactly the data they owned. */
  lemma RemoveMovesOnlyOwned(ring: Ring, points: set<nat>, h: nat)
    requires ring != map[]
    ensures var r := Removed(ring, points);
      Owner(ring, h) !in points <==> r != map[] && Owner(r, h) == Owner(ring, h)
  {
    var r, k := Removed(ring, points), Owner(ring, h);
    if k !in points {
      assert Owns(r, h, k);
      OwnerUnique(r, h, k);
    }
  }

  /** So if a node shares no point with another, removing it moves only its own data. */
  lemma RemoveKeepsOthers(ring: Ring, points: set<nat>, node: Node, h: nat)
    requires forall k <- points :: k in ring ==> ring[k] == node
    requires Lookup(ring, h) != Some(node)
    ensures Lookup(Removed(ring, points), h) == Lookup(ring, h)
  {
    if ring == map[] {
      assert Removed(ring, points) == map[];
    } else {
      RemoveMovesOnlyOwned(ring, points, h);
    }
  }

  /** Adding and then removing a node restores the ring exactly if its points were all free. */
  lemma AddThenRemove(ring: Ring, points: set<nat>, node: Node)
    ensures Removed(Added(ring, points, node), points) == ring <==> points !! ring.Keys
  {
    var r := Removed(Added(ring, points, node), points);
    assert r == ring - points;
    if points !! ring.Keys {
      assert ring - points == ring;
    } else {
      var k :| k in points && k in ring.Keys;
      assert k !in r && k in ring;
    }
  }

  /** For one: a node whose only point is taken by another takes that node off the ring with it. */
  lemma TakenPointLost(k: nat, node: Node, other: Node)
    ensures Lookup(map[k := node], 0) == Some(node)
    ensures Removed(Added(map[k := node], {k}, other), {k}) == map[]
  {
    assert map[k := node].Keys == {k};
  }

  lemma RemovedOne(ring: Ring, points: set<nat>, k: nat)
    ensures Removed(ring, points + {k}) == Removed(ring, points) - {k}
    ensures k in Removed(ring, points) <==> k in ring.Keys && k !in points
  {
  }

  lemma CountOne(keys: set<nat>, points: set<nat>, k: nat)
    ensures |(points + {k}) * keys| == |points * keys| + if k in keys && k !in points then 1 else 0
  {
    if k in keys && k !in points {
      assert (points + {k}) * keys == points * keys + {k};
    } else {
      assert (points + {k}) * keys == points * keys;
    }
  }

  /** The ring object. `point` stands for hashing the printed node, the delimiter and the replica
      number; `hash` for hashing data. */
  class HashRing<Data> {
    const replicas: nat
    const point: (Node, nat) -> nat
    const hash: Data -> nat
    var ring: Ring

    constructor (replicas: nat, point: (Node, nat) -> nat, hash: Data -> nat)
      ensures this.replicas == replicas && this.point == point && this.hash == hash && ring == map[]
    {
      this.replicas := replicas;
      this.point := point;
      this.hash := hash;
      ring := map[];
    }

    /** The first n points of a node. */
    function Points(node: Node, n: nat): set<nat> { set r | 0 <= r < n :: point(node, r) }

    method Add(node: Node)
      modifies this
      ensures ring == Added(old(ring), Points(node, replicas), node)
      ensures forall r | 0 <= r < replicas :: point(node, r) in ring && ring[point(node, r)] == node
      ensures forall k: nat | (forall r | 0 <= r < replicas :: point(node, r) != k) ::
        (k in ring <==> k in old(ring)) && (k in ring ==> ring[k] == old(ring)[k])
    {
      assert Added(ring, Points(node, 0), node) == ring;
      for r := 0 to replicas
        invariant ring == Added(old(ring), Points(node, r), node)
      {
        assert Points(node, r + 1) == Points(node, r) + {point(node, r)};
        ring := ring[point(node, r) := node];
      }
      forall k { AddedAt(old(ring), Points(node, replicas), node, k); }
      assert forall r | 0 <= r < replicas :: point(node, r) in Points(node, replicas);
    }

    /** Returns how many points there were to remove. */
    method Remove(node: Node) returns (removed: nat)
      modifies this
      ensures ring == Removed(old(ring), Points(node, replicas))
      ensures removed == |Points(node, replicas) * old(ring).Keys|
      ensures forall r | 0 <= r < replicas :: point(node, r) !in ring
      ensures forall k: nat | (forall r | 0 <= r < replicas :: point(node, r) != k) ::
        (k in ring <==> k in old(ring)) && (k in ring ==> ring[k] == old(ring)[k])
    {
      removed := 0;
      assert Points(node, 0) * ring.Keys == {};
      for r := 0 to replicas
        invariant ring == Removed(old(ring), Points(node, r))
        invariant removed == |Points(node, r) * old(ring).Keys|
      {
        assert Points(node, r + 1) == Points(node, r) + {point(node, r)};
        RemovedOne(old(ring), Points(node, r), point(node, r));
        CountOne(old(ring).Keys, Points(node, r), point(node, r));
        if point(node, r) in ring { removed := removed + 1; }
        ring := ring - {point(node, r)};
      }
      assert forall r | 0 <= r < replicas :: point(node, r) in Points(node, replicas);
    }

    /** None stands for the error thrown on an empty ring. */
    method Get(data: Data) returns (node: Option<Node>)
      ensures node == Lookup(ring, hash(data))
      ensures node.None? <==> ring == map[]
      ensures node.Some? ==> exists k :: Owns(ring, hash(data), k) && node.value == ring[k]
    {
      if ring == map[] {
        return None;
      }
      var k := LowerBound(ring, hash(data));
      if k == None {
        k := LowerBound(ring, 0);
      }
      OwnerUnique(ring, hash(data), k.value);
      return Some(ring[k.value]);
    }
  }

  /** std::map::lower_bound: the least point not below h. */
  method LowerBound(ring: Ring, h: nat) returns (k: Option<nat>)
    ensures k.None? ==> forall j <- ring :: j < h
    ensures k.Some? ==> k.value in ring && k.value >= h && forall j <- ring :: j >= h ==> k.value <= j
  {
    k := None;
    var rest := ring.Keys;
    while rest != {}
      invariant rest <= ring.Keys
      invariant k.None? ==> forall j | j in ring && j !in rest :: j < h
      invariant k.Some? ==> k.value in ring && k.value >= h
      invariant k.Some? ==> forall j | j in ring && j !in rest && j >= h :: k.value <= j
      decreases |rest|
    {
      var x :| x in rest;
      rest := rest - {x};
      if x >= h && (k.None? || x < k.value) { k := Some(x); }
    }
  }

  /** The first node added gets everything. */
  method OnlyNode<Data>(replicas: nat, point: (Node, nat) -> nat, hash: Data -> nat, node: Node, data: Data)
    returns (got: Option<Node>)
    requires replicas > 0
    ensures got == Some(node)
  {
    var r := new HashRing(replicas, point, hash);
    r.Add(node);
    assert point(node, 0) in r.ring;
    got := r.Get(data);
  }
}
