/** The list of pending alarms, sorted by time. */
module AlarmClock {

  import opened Wrappers

  /** `error` stands for the exception to raise in a task, if any. */
  datatype Alarm = Alarm(value: nat, when: int, error: Option<nat>)

  predicate Sorted(s: seq<Alarm>) { forall i, j | 0 <= i < j < |s| :: s[i].when <= s[j].when }

  /** How many alarms at the front are earlier than w: std::lower_bound on a sorted list. */
  function Earlier(s: seq<Alarm>, w: int): (i: nat)
    ensures i <= |s| && (i < |s| ==> s[i].when >= w) && forall k | 0 <= k < i :: s[k].when < w
  {
    if s == [] || s[0].when >= w then 0
    else
      var i := 1 + Earlier(s[1..], w);
      assert forall k | 0 < k < i :: s[k] == s[1..][k - 1];
      i
  }

  function Inserted(s: seq<Alarm>, a: Alarm): seq<Alarm> {
    s[..Earlier(s, a.when)] + [a] + s[Earlier(s, a.when)..]
  }

  /** The first alarm equal to a removed. */
  function Cancelled(s: seq<Alarm>, a: Alarm): seq<Alarm> {
    if s == [] then [] else if s[0] == a then s[1..] else [s[0]] + Cancelled(s[1..], a)
  }

  /** The alarms of other values. */
  function OthersOf(s: seq<Alarm>, value: nat): seq<Alarm> {
    if s == [] then []
    else if s[0].value == value then OthersOf(s[1..], value)
    else [s[0]] + OthersOf(s[1..], value)
  }

  /** How many alarms at the front are due. */
  function DueCount(s: seq<Alarm>, now: int): (i: nat)
    ensures i <= |s| && (i < |s| ==> s[i].when > now) && forall k | 0 <= k < i :: s[k].when <= now
  {
    if s == [] || s[0].when > now then 0
    else
      var i := 1 + DueCount(s[1..], now);
      assert forall k | 0 < k < i :: s[k] == s[1..][k - 1];
      i
  }

  lemma InsertedCounts(s: seq<Alarm>, a: Alarm)
    ensures multiset(Inserted(s, a)) == multiset(s) + multiset{a}
  {
    var i := Earlier(s, a.when);
    hide Earlier;
    assert s == s[..i] + s[i..];
  }

  lemma InsertedSorted(s: seq<Alarm>, a: Alarm)
    requires Sorted(s)
    ensures Sorted(Inserted(s, a)) && multiset(Inserted(s, a)) == multiset(s) + multiset{a}
  {
    InsertedCounts(s, a);
    var i, r := Earlier(s, a.when), Inserted(s, a);
    assert i < |s| ==> forall k | i <= k < |s| :: s[i].when <= s[k].when;
    forall j, k | 0 <= j < k < |r| ensures r[j].when <= r[k].when {
      assert r[j] == if j < i then s[j] else if j == i then a else s[j - 1];
      assert r[k] == if k < i then s[k] else if k == i then a else s[k - 1];
    }
    hide Inserted;
  }

  /** The first alarm goes before any of the later ones. */
  lemma ConsSorted(s: seq<Alarm>, rest: seq<Alarm>)
    requires s != [] && Sorted(s) && Sorted(rest)
    requires forall a: Alarm :: multiset(rest)[a] <= multiset(s[1..])[a]
    ensures Sorted([s[0]] + rest)
  {
    forall k | 0 <= k < |rest| ensures s[0].when <= rest[k].when {
      assert rest[k] in multiset(rest);
      assert rest[k] in multiset(s[1..]);
    }
  }

  lemma {:induction false} CancelledSorted(s: seq<Alarm>, a: Alarm)
    requires Sorted(s)
    ensures Sorted(Cancelled(s, a))
    ensures forall b: Alarm :: multiset(Cancelled(s, a))[b] == multiset(s)[b] - if b == a && a in s then 1 else 0
    decreases |s|
  {
    if s != [] {
      assert s == [s[0]] + s[1..];
      if s[0] != a {
        CancelledSorted(s[1..], a);
        ConsSorted(s, Cancelled(s[1..], a));
      }
    }
  }

  lemma {:induction false} OthersSorted(s: seq<Alarm>, value: nat)
    requires Sorted(s)
    ensures Sorted(OthersOf(s, value))
    ensures forall a: Alarm :: multiset(OthersOf(s, value))[a] == if a.value == value then 0 else multiset(s)[a]
    decreases |s|
  {
    if s != [] {
      assert s == [s[0]] + s[1..];
      OthersSorted(s[1..], value);
      ConsSorted(s, OthersOf(s[1..], value));
    }
  }

  /** In a sorted list the alarms due are exactly those at the front. */
  lemma DueExactly(s: seq<Alarm>, now: int)
    requires Sorted(s)
    ensures forall k | 0 <= k < |s| :: s[k].when <= now <==> k < DueCount(s, now)
  {
    var i := DueCount(s, now);
    forall k | i < k < |s| ensures s[k].when > now { assert s[i].when <= s[k].when; }
  }

  // ---- every run ----

  /** `fired` are the alarms raised so far, in order; `dropped` those cancelled; `inserted` all there ever were. */
  datatype State = State(pending: seq<Alarm>, fired: seq<Alarm>, dropped: multiset<Alarm>, inserted: multiset<Alarm>)

  datatype Op = Insert(alarm: Alarm) | Cancel(alarm: Alarm) | CancelAll(value: nat) | Tick(now: int)

  const EMPTY := State([], [], multiset{}, multiset{})

  function Step(s: State, op: Op): State {
    match op
    case Insert(a) => s.(pending := Inserted(s.pending, a), inserted := s.inserted + multiset{a})
    case Cancel(a) =>
      s.(pending := Cancelled(s.pending, a), dropped := if a in s.pending then s.dropped + multiset{a} else s.dropped)
    case CancelAll(v) =>
      s.(pending := OthersOf(s.pending, v), dropped := s.dropped + (multiset(s.pending) - multiset(OthersOf(s.pending, v))))
    case Tick(now) =>
      var i := DueCount(s.pending, now);
      s.(pending := s.pending[i..], fired := s.fired + s.pending[..i])
  }

  function Run(s: State, ops: seq<Op>): State
    decreases |ops|
  {
    if ops == [] then s else Run(Step(s, ops[0]), ops[1..])
  }

  /** Every alarm is pending, fired or dropped, and as often as it was inserted. */
  predicate Accounted(s: State, a: Alarm) {
    multiset(s.pending)[a] + multiset(s.fired)[a] + s.dropped[a] == s.inserted[a]
  }

  ghost predicate Inv(s: State) { Sorted(s.pending) && forall a :: Accounted(s, a) }

  lemma StepSorted(s: State, op: Op)
    requires Sorted(s.pending)
    ensures Sorted(Step(s, op).pending)
  {
    match op
    case Insert(a) => InsertedSorted(s.pending, a);
    case Cancel(a) => CancelledSorted(s.pending, a);
    case CancelAll(v) => OthersSorted(s.pending, v);
    case Tick(now) =>
  }

  lemma TickAccounts(s: State, now: int, a: Alarm)
    requires Accounted(s, a)
    ensures Accounted(Step(s, Tick(now)), a)
  {
    hide DueCount;
    var i := DueCount(s.pending, now);
    assert s.pending == s.pending[..i] + s.pending[i..];
    assert multiset(s.fired + s.pending[..i]) == multiset(s.fired) + multiset(s.pending[..i]);
  }

  lemma StepAccounts(s: State, op: Op, a: Alarm)
    requires Sorted(s.pending) && Accounted(s, a)
    ensures Accounted(Step(s, op), a)
  {
    hide Inserted, Cancelled, OthersOf, DueCount, Sorted;
    match op
    case Insert(b) => InsertedSorted(s.pending, b);
    case Cancel(b) => CancelledSorted(s.pending, b);
    case CancelAll(v) => OthersSorted(s.pending, v);
    case Tick(now) =>
      hide Step, Accounted;
      TickAccounts(s, now, a);
  }

  lemma {:induction false} RunKeeps(s: State, ops: seq<Op>)
    requires Inv(s)
    ensures Inv(Run(s, ops))
    decreases |ops|
  {
    hide Step, Accounted, Sorted;
    if ops != [] {
      StepSorted(s, ops[0]);
      forall a ensures Accounted(Step(s, ops[0]), a) { StepAccounts(s, ops[0], a); }
      RunKeeps(Step(s, ops[0]), ops[1..]);
    }
  }

  function When(s: seq<Alarm>): Option<int> { if s == [] then None else Some(s[0].when) }

  lemma WhenIsLeast(s: seq<Alarm>)
    requires Sorted(s)
    ensures (When(s).None? <==> s == []) && forall b <- s :: When(s).value <= b.when
  {
  }

  /** What a tick does: it fires the alarms in `due`, in order of time. */
  predicate Fires(s: State, t: State, due: seq<Alarm>, now: int) {
    && t.fired == s.fired + due && s.pending == due + t.pending && Sorted(due)
    && (forall b <- due :: b.when <= now) && (forall b <- t.pending :: b.when > now)
  }

  lemma TickFires(s: State, now: int)
    requires Sorted(s.pending)
    ensures Fires(s, Step(s, Tick(now)), s.pending[..DueCount(s.pending, now)], now)
  {
    DueExactly(s.pending, now);
    hide DueCount;
  }

  /** The alarms a run inserts. */
  function Inserts(ops: seq<Op>): multiset<Alarm> {
    if ops == [] then multiset{}
    else (if ops[0].Insert? then multiset{ops[0].alarm} else multiset{}) + Inserts(ops[1..])
  }

  function OfValue(s: seq<Alarm>, value: nat): seq<Alarm> {
    if s == [] then [] else (if s[0].value == value then [s[0]] else []) + OfValue(s[1..], value)
  }

  /** The alarms one operation cancels: one equal to the given alarm, if any is pending, or all pending
      ones of a value. */
  function Drop(s: State, op: Op): multiset<Alarm> {
    if op.Cancel? && op.alarm in s.pending then multiset{op.alarm}
    else if op.CancelAll? then multiset(OfValue(s.pending, op.value))
    else multiset{}
  }

  function Drops(s: State, ops: seq<Op>): multiset<Alarm>
    decreases |ops|
  {
    if ops == [] then multiset{} else Drop(s, ops[0]) + Drops(Step(s, ops[0]), ops[1..])
  }

  lemma {:induction false} ValueAndOthers(s: seq<Alarm>, value: nat)
    ensures multiset(OfValue(s, value)) + multiset(OthersOf(s, value)) == multiset(s)
    decreases |s|
  {
    if s != [] {
      assert s == [s[0]] + s[1..];
      ValueAndOthers(s[1..], value);
    }
  }

  lemma StepCounts(s: State, op: Op)
    ensures Step(s, op).inserted == s.inserted + if op.Insert? then multiset{op.alarm} else multiset{}
    ensures Step(s, op).dropped == s.dropped + Drop(s, op)
  {
    hide Inserted, Cancelled, OthersOf, OfValue, DueCount;
    if op.CancelAll? { ValueAndOthers(s.pending, op.value); }
  }

  lemma {:induction false} RunCounts(s: State, ops: seq<Op>)
    ensures Run(s, ops).inserted == s.inserted + Inserts(ops) && Run(s, ops).dropped == s.dropped + Drops(s, ops)
    decreases |ops|
  {
    hide Step, Drop;
    if ops != [] {
      StepCounts(s, ops[0]);
      RunCounts(Step(s, ops[0]), ops[1..]);
    }
  }

  /** After every run: the list is sorted; every alarm is pending, fired or was cancelled, together as
      often as it was inserted; when() is the earliest pending time; and a tick fires exactly the alarms
      due at or before now, after which when() is later than now. */
  lemma AlarmsAreKept(ops: seq<Op>, now: int, a: Alarm)
    ensures var s := Run(EMPTY, ops);
      && Sorted(s.pending)
      && multiset(s.pending)[a] + multiset(s.fired)[a] + Drops(EMPTY, ops)[a] == Inserts(ops)[a]
      && (When(s.pending).None? <==> s.pending == [])
      && (forall b <- s.pending :: When(s.pending).value <= b.when)
      && exists due: seq<Alarm> :: Fires(s, Step(s, Tick(now)), due, now)
  {
    assert Inv(EMPTY);
    RunKeeps(EMPTY, ops);
    RunCounts(EMPTY, ops);
    var s := Run(EMPTY, ops);
    assert Accounted(s, a);
    hide Run, Step, Fires, Sorted, When, Drops, Inserts;
    TickFires(s, now);
    WhenIsLeast(s.pending);
  }

  /** The clock object. */
  class Clock {
    var alarms: seq<Alarm>

    constructor ()
      ensures alarms == []
    {
      alarms := [];
    }

    method Insert(a: Alarm)
      requires Sorted(alarms)
      modifies this
      ensures alarms == Inserted(old(alarms), a)
    {
      var i := LowerBound(alarms, a.when);
      alarms := alarms[..i] + [a] + alarms[i..];
    }

    method Cancel(a: Alarm)
      modifies this
      ensures alarms == Cancelled(old(alarms), a)
    {
      var i := 0;
      while i < |alarms| && alarms[i] != a
        invariant i <= |alarms| && a !in alarms[..i]
      {
        i := i + 1;
      }
      CancelledAt(alarms, a, i);
      if i < |alarms| { alarms := alarms[..i] + alarms[i + 1..]; }
    }

    method CancelAll(value: nat)
      modifies this
      ensures alarms == OthersOf(old(alarms), value)
    {
      var kept: seq<Alarm> := [];
      for i := 0 to |alarms|
        invariant alarms == old(alarms) && kept == OthersOf(alarms[..i], value)
      {
        assert alarms[..i + 1] == alarms[..i] + [alarms[i]];
        OthersSnoc(alarms[..i], alarms[i], value);
        if alarms[i].value != value { kept := kept + [alarms[i]]; }
      }
      assert alarms[..|alarms|] == alarms;
      alarms := kept;
    }

    /** Returns the alarms in the order they are raised. */
    method Tick(now: int) returns (fired: seq<Alarm>)
      modifies this
      ensures fired == old(alarms)[..DueCount(old(alarms), now)]
      ensures alarms == old(alarms)[DueCount(old(alarms), now)..]
    {
      fired := [];
      var i := 0;
      while i < |alarms| && alarms[i].when <= now
        invariant i <= |alarms| && alarms == old(alarms) && fired == alarms[..i]
        invariant forall k | 0 <= k < i :: alarms[k].when <= now
      {
        fired := fired + [alarms[i]];
        i := i + 1;
      }
      assert i == DueCount(alarms, now);
      alarms := alarms[i..];
    }
  }

  /** Binary search. */
  method LowerBound(s: seq<Alarm>, w: int) returns (i: nat)
    requires Sorted(s)
    ensures i == Earlier(s, w)
  {
    var hi := |s|;
    i := 0;
    while i < hi
      invariant i <= hi <= |s|
      invariant forall k | 0 <= k < i :: s[k].when < w
      invariant forall k | hi <= k < |s| :: s[k].when >= w
    {
      var mid := (i + hi) / 2;
      if s[mid].when < w { i := mid + 1; } else { hi := mid; }
    }
    assert Earlier(s, w) < |s| ==> s[Earlier(s, w)].when >= w;
    assert i < |s| ==> s[i].when >= w;
  }

  lemma {:induction false} CancelledAt(s: seq<Alarm>, a: Alarm, i: nat)
    requires i <= |s| && a !in s[..i] && (i < |s| ==> s[i] == a)
    ensures Cancelled(s, a) == if i < |s| then s[..i] + s[i + 1..] else s
    decreases |s|
  {
    if i > 0 {
      assert s[0] in s[..i];
      assert s[1..][..i - 1] == s[1..i];
      CancelledAt(s[1..], a, i - 1);
    }
  }

  lemma {:induction false} OthersSnoc(s: seq<Alarm>, a: Alarm, value: nat)
    ensures OthersOf(s + [a], value) == OthersOf(s, value) + if a.value == value then [] else [a]
    decreases |s|
  {
    if s == [] {
      assert [a][1..] == [];
    } else {
      assert (s + [a])[1..] == s[1..] + [a];
      OthersSnoc(s[1..], a, value);
    }
  }
}
