/** An optional value. */
module Wrappers {
  datatype Option<T> = None | Some(value: T)
}

/** Tasks and the queues they stand in. */
module Tasks {

  type Task = nat

  /** The first entry of t removed. */
  function Without(q: seq<Task>, t: Task): seq<Task> {
    if q == [] then [] else if q[0] == t then q[1..] else [q[0]] + Without(q[1..], t)
  }

  function Count(q: seq<Task>, t: Task): nat { multiset(q)[t] }

  predicate Distinct(q: seq<Task>) { forall i, j :: 0 <= i < j < |q| ==> q[i] != q[j] }

  lemma CountFirst(q: seq<Task>, t: Task)
    requires q != []
    ensures Count(q, t) == (if q[0] == t then 1 else 0) + Count(q[1..], t)
  {
    assert q == [q[0]] + q[1..];
  }

  lemma CountCons(x: Task, q: seq<Task>, t: Task)
    ensures Count([x] + q, t) == (if x == t then 1 else 0) + Count(q, t)
    ensures Count(q + [x], t) == (if x == t then 1 else 0) + Count(q, t)
  {
  }

  lemma CountIn(q: seq<Task>, t: Task)
    ensures t in q <==> Count(q, t) > 0
  {
  }

  lemma {:induction false} CountWithout(q: seq<Task>, x: Task, t: Task)
    requires x in q
    ensures Count(Without(q, x), t) == Count(q, t) - if x == t then 1 else 0
    decreases |q|
  {
    CountFirst(q, t);
    if q[0] != x {
      CountWithout(q[1..], x, t);
      CountCons(q[0], Without(q[1..], x), t);
    }
  }

  /** Removing the first entry of t cuts it out where it stands. */
  lemma {:induction false} WithoutAt(q: seq<Task>, t: Task, i: nat)
    requires i < |q| && q[i] == t && t !in q[..i]
    ensures Without(q, t) == q[..i] + q[i + 1..]
    decreases i
  {
    if i > 0 {
      assert q[0] in q[..i];
      assert q[1..][..i - 1] == q[1..i];
      WithoutAt(q[1..], t, i - 1);
    }
  }

  /** From a queue without repetitions that takes t out altogether, and nothing else. */
  lemma {:induction false} WithoutDistinct(q: seq<Task>, t: Task)
    requires Distinct(q) && t in q
    ensures Distinct(Without(q, t)) && |Without(q, t)| == |q| - 1
    ensures forall u :: u in Without(q, t) <==> u in q && u != t
    decreases |q|
  {
    assert q == [q[0]] + q[1..];
    if q[0] != t {
      WithoutDistinct(q[1..], t);
      var rest := Without(q[1..], t);
      assert forall k | 0 <= k < |rest| :: rest[k] in rest;
    }
  }

  lemma {:induction false} WithoutAbsent(q: seq<Task>, t: Task)
    requires t !in q
    ensures Without(q, t) == q
    decreases |q|
  {
    if q != [] { WithoutAbsent(q[1..], t); }
  }

  /** Where t first stands in q, or the length of q: std::find. */
  method Find(q: seq<Task>, t: Task) returns (i: nat)
    ensures i <= |q| && t !in q[..i]
    ensures i < |q| ==> q[i] == t
    ensures i == |q| <==> t !in q
  {
    i := 0;
    while i < |q| && q[i] != t
      invariant i <= |q| && t !in q[..i]
    {
      i := i + 1;
    }
  }

  // ---- order ----

  /** u stands before t. */
  ghost predicate Ahead(q: seq<Task>, u: Task, t: Task) {
    exists i, j :: 0 <= i < j < |q| && q[i] == u && q[j] == t
  }

  /** u comes in w, before t does for the first time if at all. */
  ghost predicate Precedes(w: seq<Task>, u: Task, t: Task) {
    exists i :: 0 <= i < |w| && w[i] == u && t !in w[..i]
  }

  lemma AheadOfLast(q: seq<Task>, u: Task, t: Task)
    requires u in q
    ensures Ahead(q + [t], u, t) && Ahead([t] + q, t, u)
  {
    var i :| 0 <= i < |q| && q[i] == u;
    assert (q + [t])[i] == u && (q + [t])[|q|] == t;
    assert ([t] + q)[0] == t && ([t] + q)[i + 1] == u;
  }

  /** Joining at either end changes nothing between those already there. */
  lemma AheadJoin(q: seq<Task>, u: Task, t: Task, x: Task)
    requires Ahead(q, u, t)
    ensures Ahead(q + [x], u, t) && Ahead([x] + q, u, t)
  {
    var i, j :| 0 <= i < j < |q| && q[i] == u && q[j] == t;
    assert (q + [x])[i] == u && (q + [x])[j] == t;
    assert ([x] + q)[i + 1] == u && ([x] + q)[j + 1] == t;
  }

  /** The first may leave without disturbing the others. */
  lemma AheadTail(q: seq<Task>, u: Task, t: Task)
    requires Ahead(q, u, t) && q[0] != u
    ensures Ahead(q[1..], u, t)
  {
    var i, j :| 0 <= i < j < |q| && q[i] == u && q[j] == t;
    assert q[1..][i - 1] == u && q[1..][j - 1] == t;
  }

  lemma {:induction false} AheadWithout(q: seq<Task>, x: Task, u: Task, t: Task)
    requires Ahead(q, u, t) && x != u && x != t
    ensures Ahead(Without(q, x), u, t)
    decreases |q|
  {
    if q[0] == x {
      AheadTail(q, u, t);
    } else if q[0] == u {
      assert t in q[1..] by {
        var i, j :| 0 <= i < j < |q| && q[i] == u && q[j] == t;
        assert q[1..][j - 1] == t;
      }
      InWithout(q[1..], x, t);
      AheadOfLast(Without(q[1..], x), t, u);
    } else {
      AheadTail(q, u, t);
      AheadWithout(q[1..], x, u, t);
      AheadJoin(Without(q[1..], x), u, t, q[0]);
    }
  }

  lemma {:induction false} InWithout(q: seq<Task>, x: Task, t: Task)
    requires t in q && x != t
    ensures t in Without(q, x)
    decreases |q|
  {
    if q[0] != x && q[0] != t { InWithout(q[1..], x, t); }
  }

  lemma PrecedesLater(a: seq<Task>, w: seq<Task>, u: Task, t: Task)
    requires Precedes(w, u, t) && t !in a
    ensures Precedes(a + w, u, t)
  {
    var i :| 0 <= i < |w| && w[i] == u && t !in w[..i];
    assert (a + w)[|a| + i] == u;
    assert (a + w)[..|a| + i] == a + w[..i];
  }

  lemma PrecedesNow(a: seq<Task>, w: seq<Task>, u: Task, t: Task)
    requires Ahead(a, u, t) && Distinct(a)
    ensures Precedes(a + w, u, t)
  {
    var i, j :| 0 <= i < j < |a| && a[i] == u && a[j] == t;
    assert (a + w)[i] == u;
    forall k | 0 <= k < i ensures (a + w)[..i][k] != t { assert a[k] != a[j]; }
  }

  lemma PrecedesAtOnce(u: Task, w: seq<Task>, t: Task)
    ensures Precedes([u] + w, u, t)
  {
    assert ([u] + w)[0] == u && ([u] + w)[..0] == [];
  }
}
