/** Callback traces up to how data was cut: neighbouring slices of the same kind count as one. */
module HttpTrace {
  import opened HttpTypes

  /** Adds an event to a merged trace, joining it to a last slice of the same kind. */
  function Push(t: seq<Event>, e: Event): seq<Event> {
    if t != [] && e.Data? && t[|t| - 1].Data? && t[|t| - 1].kind == e.kind
    then t[..|t| - 1] + [Data(e.kind, t[|t| - 1].bytes + e.bytes)]
    else t + [e]
  }

  function Onto(t: seq<Event>, u: seq<Event>): seq<Event>
    decreases |u|
  {
    if u == [] then t else Onto(Push(t, u[0]), u[1..])
  }

  function Merged(t: seq<Event>): seq<Event> { Onto([], t) }

  /** The traces tell an application the same, whatever the slices were. */
  ghost predicate Same(t: seq<Event>, u: seq<Event>) { Merged(t) == Merged(u) }

  /** The bytes of one kind, in order. */
  function Bytes(t: seq<Event>, k: Kind): string {
    if t == [] then []
    else (if t[0].Data? && t[0].kind == k then t[0].bytes else []) + Bytes(t[1..], k)
  }

  /** The notifications, in order. */
  function Notices(t: seq<Event>): seq<Event> {
    if t == [] then [] else (if t[0].Notice? then [t[0]] else []) + Notices(t[1..])
  }

  lemma {:induction false} OntoAppend(t: seq<Event>, u: seq<Event>, v: seq<Event>)
    ensures Onto(t, u + v) == Onto(Onto(t, u), v)
    decreases |u|
  {
    if u == [] {
      assert u + v == v;
    } else {
      assert (u + v)[0] == u[0] && (u + v)[1..] == u[1..] + v;
      OntoAppend(Push(t, u[0]), u[1..], v);
    }
  }

  lemma PushTwice(t: seq<Event>, k: Kind, x: string, y: string)
    ensures Push(Push(t, Data(k, x)), Data(k, y)) == Push(t, Data(k, x + y))
  {
    var n := |t|;
    if n > 0 && t[n - 1].Data? && t[n - 1].kind == k {
      assert t[n - 1].bytes + x + y == t[n - 1].bytes + (x + y);
      assert Push(t, Data(k, x))[..n - 1] == t[..n - 1];
    } else {
      assert (t + [Data(k, x)])[..n] == t;
    }
  }

  lemma OntoOne(t: seq<Event>, e: Event)
    ensures Onto(t, [e]) == Push(t, e)
  {
    assert [e][1..] == [];
    assert Onto(Push(t, e), []) == Push(t, e);
  }

  /** Merging first changes nothing for what comes before. */
  lemma OntoPush(t: seq<Event>, w: seq<Event>, e: Event)
    ensures Onto(t, Push(w, e)) == Push(Onto(t, w), e)
  {
    var n := |w|;
    if n > 0 && e.Data? && w[n - 1].Data? && w[n - 1].kind == e.kind {
      var last := w[n - 1];
      var joined := Data(e.kind, last.bytes + e.bytes);
      OntoAppend(t, w[..n - 1], [joined]);
      OntoOne(Onto(t, w[..n - 1]), joined);
      PushTwice(Onto(t, w[..n - 1]), e.kind, last.bytes, e.bytes);
      assert w == w[..n - 1] + [last];
      OntoAppend(t, w[..n - 1], [last]);
      OntoOne(Onto(t, w[..n - 1]), last);
    } else {
      OntoAppend(t, w, [e]);
      OntoOne(Onto(t, w), e);
    }
  }

  lemma {:induction false} OntoOnto(t: seq<Event>, w: seq<Event>, u: seq<Event>)
    ensures Onto(t, Onto(w, u)) == Onto(Onto(t, w), u)
    decreases |u|
  {
    if u != [] {
      OntoOnto(t, Push(w, u[0]), u[1..]);
      OntoPush(t, w, u[0]);
    }
  }

  /** Equal readings may be replaced on both sides of a concatenation. */
  lemma SameAppend(t: seq<Event>, t': seq<Event>, u: seq<Event>, u': seq<Event>)
    requires Same(t, t') && Same(u, u')
    ensures Same(t + u, t' + u')
  {
    OntoAppend([], t, u);
    OntoAppend([], t', u');
    OntoOnto(Merged(t), [], u);
    OntoOnto(Merged(t'), [], u');
  }

  /** Two slices of one kind in a row say what their concatenation says. */
  lemma SameJoin(t: seq<Event>, k: Kind, x: string, y: string)
    ensures Same(t + [Data(k, x)] + [Data(k, y)], t + [Data(k, x + y)])
  {
    OntoAppend([], t + [Data(k, x)], [Data(k, y)]);
    OntoAppend([], t, [Data(k, x)]);
    OntoAppend([], t, [Data(k, x + y)]);
    OntoOne(Merged(t), Data(k, x));
    OntoOne(Merged(t + [Data(k, x)]), Data(k, y));
    OntoOne(Merged(t), Data(k, x + y));
    PushTwice(Merged(t), k, x, y);
  }

  /** One event per byte. */
  function ByteEvents(k: Kind, s: string): seq<Event> {
    seq(|s|, i requires 0 <= i < |s| => Data(k, [s[i]]))
  }

  lemma {:induction false} SameBytes(k: Kind, s: string)
    requires s != []
    ensures Same(ByteEvents(k, s), [Data(k, s)])
    decreases |s|
  {
    var n := |s| - 1;
    if n == 0 {
      assert s == [s[0]];
      assert ByteEvents(k, s) == [Data(k, s)];
    } else {
      SameBytes(k, s[..n]);
      assert ByteEvents(k, s) == ByteEvents(k, s[..n]) + [Data(k, [s[n]])];
      SameAppend(ByteEvents(k, s[..n]), [Data(k, s[..n])], [Data(k, [s[n]])], [Data(k, [s[n]])]);
      SameJoin([], k, s[..n], [s[n]]);
      assert s[..n] + [s[n]] == s;
      assert [] + [Data(k, s[..n])] + [Data(k, [s[n]])] == [Data(k, s[..n])] + [Data(k, [s[n]])];
      assert [] + [Data(k, s)] == [Data(k, s)];
    }
  }

  lemma {:induction false} BytesAppend(t: seq<Event>, u: seq<Event>, k: Kind)
    ensures Bytes(t + u, k) == Bytes(t, k) + Bytes(u, k)
    decreases |t|
  {
    if t == [] {
      assert t + u == u;
    } else {
      assert (t + u)[0] == t[0] && (t + u)[1..] == t[1..] + u;
      BytesAppend(t[1..], u, k);
    }
  }

  lemma {:induction false} NoticesAppend(t: seq<Event>, u: seq<Event>)
    ensures Notices(t + u) == Notices(t) + Notices(u)
    decreases |t|
  {
    if t == [] {
      assert t + u == u;
    } else {
      assert (t + u)[0] == t[0] && (t + u)[1..] == t[1..] + u;
      NoticesAppend(t[1..], u);
    }
  }

  lemma BytesOne(e: Event, k: Kind)
    ensures Bytes([e], k) == if e.Data? && e.kind == k then e.bytes else []
    ensures Notices([e]) == if e.Notice? then [e] else []
  {
    assert [e][1..] == [];
  }

  lemma PushKeepsBytes(t: seq<Event>, e: Event, k: Kind)
    ensures Bytes(Push(t, e), k) == Bytes(t + [e], k)
  {
    var n := |t|;
    if n > 0 && e.Data? && t[n - 1].Data? && t[n - 1].kind == e.kind {
      var joined := Data(e.kind, t[n - 1].bytes + e.bytes);
      calc {
        Bytes(t + [e], k);
        { BytesAppend(t, [e], k); assert t == t[..n - 1] + [t[n - 1]]; BytesAppend(t[..n - 1], [t[n - 1]], k); }
        Bytes(t[..n - 1], k) + Bytes([t[n - 1]], k) + Bytes([e], k);
        { BytesOne(t[n - 1], k); BytesOne(e, k); BytesOne(joined, k); }
        Bytes(t[..n - 1], k) + Bytes([joined], k);
        { BytesAppend(t[..n - 1], [joined], k); }
        Bytes(Push(t, e), k);
      }
    }
  }

  lemma PushKeepsNotices(t: seq<Event>, e: Event)
    ensures Notices(Push(t, e)) == Notices(t + [e])
  {
    var n := |t|;
    if n > 0 && e.Data? && t[n - 1].Data? && t[n - 1].kind == e.kind {
      var joined := Data(e.kind, t[n - 1].bytes + e.bytes);
      NoticesAppend(t, [e]);
      assert t == t[..n - 1] + [t[n - 1]];
      NoticesAppend(t[..n - 1], [t[n - 1]]);
      NoticesAppend(t[..n - 1], [joined]);
      BytesOne(t[n - 1], Url);
      BytesOne(e, Url);
      BytesOne(joined, Url);
    }
  }

  lemma {:induction false} OntoKeeps(t: seq<Event>, u: seq<Event>, k: Kind)
    ensures Bytes(Onto(t, u), k) == Bytes(t + u, k)
    ensures Notices(Onto(t, u)) == Notices(t + u)
    decreases |u|
  {
    if u == [] {
      assert t + u == t;
    } else {
      hide Push, Bytes, Notices;
      OntoKeeps(Push(t, u[0]), u[1..], k);
      PushKeepsBytes(t, u[0], k);
      PushKeepsNotices(t, u[0]);
      assert t + u == (t + [u[0]]) + u[1..];
      BytesAppend(Push(t, u[0]), u[1..], k);
      BytesAppend(t + [u[0]], u[1..], k);
      NoticesAppend(Push(t, u[0]), u[1..]);
      NoticesAppend(t + [u[0]], u[1..]);
    }
  }

  /** Traces that tell the same deliver the same bytes of every kind and the same notifications. */
  lemma SameDelivers(t: seq<Event>, u: seq<Event>, k: Kind)
    requires Same(t, u)
    ensures Bytes(t, k) == Bytes(u, k) && Notices(t) == Notices(u)
  {
    OntoKeeps([], t, k);
    OntoKeeps([], u, k);
    assert [] + t == t && [] + u == u;
  }
}
