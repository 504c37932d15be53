/** The condition queue of tasks. */
module Rendez {

  import opened Wrappers
  import opened Tasks

  /** `waiting` are those in the queue, `awake` those woken from it that have not run since: a
      task leaves `awake` by returning from sleep() or by being interrupted. */
  datatype Queue = Queue(waiting: seq<Task>, awake: set<Task>)

  function Elements(q: seq<Task>): set<Task> { set t | t in q }

  function Members(r: Queue): set<Task> { Elements(r.waiting) + r.awake }

  predicate Ok(r: Queue) { Distinct(r.waiting) && Elements(r.waiting) !! r.awake }

  /** sleep() up to the context switch; a task may have been awake from an earlier sleep. */
  function Slept(r: Queue, t: Task): Queue { Queue(r.waiting + [t], r.awake - {t}) }

  /** sleep() returning normally. */
  function Resumed(r: Queue, t: Task): Queue { r.(awake := r.awake - {t}) }

  function WokeOne(r: Queue): Queue {
    if r.waiting == [] then r else Queue(r.waiting[1..], r.awake + {r.waiting[0]})
  }

  function WokeAll(r: Queue): Queue { Queue([], r.awake + Elements(r.waiting)) }

  /** sleep() throwing: a task still in the queue leaves it; one already woken wakes another instead. */
  function Interrupted(r: Queue, t: Task): Queue {
    if t in r.waiting then r.(waiting := Without(r.waiting, t)) else WokeOne(Resumed(r, t))
  }

  /** If somebody waits, at least n tasks are awake to use what n others made available. */
  predicate Covers(r: Queue, n: int) { r.waiting != [] ==> n <= |r.awake| }

  /** Making one more thing available and waking one task keeps every thing covered. */
  lemma WokeOneCovers(r: Queue, n: int)
    requires Ok(r)
    ensures Ok(WokeOne(r)) && Members(WokeOne(r)) == Members(r)
    ensures Covers(r, n) ==> Covers(WokeOne(r), n + 1)
    ensures r.waiting == [] ==> WokeOne(r).waiting == []
  {
    if r.waiting != [] {
      assert r.waiting == [r.waiting[0]] + r.waiting[1..];
      assert r.waiting[0] in Elements(r.waiting);
    }
  }

  lemma WokeAllOk(r: Queue)
    requires Ok(r)
    ensures Ok(WokeAll(r)) && Members(WokeAll(r)) == Members(r) && WokeAll(r).waiting == []
  {
  }

  lemma SleptOk(r: Queue, t: Task)
    requires Ok(r) && t !in r.waiting
    ensures Ok(Slept(r, t)) && Members(Slept(r, t)) == Members(r) + {t}
  {
  }

  /** A woken task that uses up one thing keeps the others covered. */
  lemma ResumedCovers(r: Queue, t: Task, n: int)
    requires Ok(r) && t !in r.waiting
    ensures Ok(Resumed(r, t)) && Members(Resumed(r, t)) == Members(r) - {t}
    ensures Covers(r, n) ==> Covers(Resumed(r, t), n - 1)
    ensures Resumed(r, t).waiting == r.waiting
  {
  }

  lemma LeftCovers(r: Queue, t: Task, n: int)
    requires Ok(r) && t in r.waiting && Covers(r, n)
    ensures var q := r.(waiting := Without(r.waiting, t));
      Ok(q) && Members(q) == Members(r) - {t} && Covers(q, n) && |q.waiting| == |r.waiting| - 1
  {
    WithoutDistinct(r.waiting, t);
    hide Without;
  }

  /** An interrupt keeps everything covered, because a task already woken wakes another. */
  lemma InterruptedCovers(r: Queue, t: Task, n: int)
    requires Ok(r) && t in Members(r) && Covers(r, n)
    ensures Ok(Interrupted(r, t)) && Members(Interrupted(r, t)) == Members(r) - {t}
    ensures Covers(Interrupted(r, t), n)
    ensures |Interrupted(r, t).waiting| == if r.waiting == [] then 0 else |r.waiting| - 1
  {
    if t in r.waiting {
      LeftCovers(r, t, n);
    } else {
      hide Elements, Distinct, Without;
      ResumedCovers(r, t, n);
      WokeOneCovers(Resumed(r, t), n - 1);
    }
  }

  // ---- the order of wake-ups ----

  /** What tasks do with the queue: sleep in it, wake one or all, return from sleep() or throw out of it. */
  datatype Action = Sleep(t: Task) | Wake | WakeAll | Return(t: Task) | Throw(t: Task)

  /** A step that is not possible leaves the queue as it is. */
  function Step(r: Queue, a: Action): Queue {
    match a
    case Sleep(t) => if t in r.waiting then r else Slept(r, t)
    case Wake => WokeOne(r)
    case WakeAll => WokeAll(r)
    case Return(t) => if t in r.awake then Resumed(r, t) else r
    case Throw(t) => if t in Members(r) then Interrupted(r, t) else r
  }

  /** Those of q that are in s, in the order of q. */
  function Among(q: seq<Task>, s: set<Task>): seq<Task> {
    if q == [] then [] else (if q[0] in s then [q[0]] else []) + Among(q[1..], s)
  }

  /** Who was woken, in order: at each step those who waited before it and are awake after it. */
  function Wakes(r: Queue, acts: seq<Action>): seq<Task>
    decreases |acts|
  {
    if acts == [] then [] else Among(r.waiting, Step(r, acts[0]).awake) + Wakes(Step(r, acts[0]), acts[1..])
  }

  lemma {:induction false} AmongNone(q: seq<Task>, s: set<Task>)
    requires forall t <- q :: t !in s
    ensures Among(q, s) == []
    decreases |q|
  {
    if q != [] { AmongNone(q[1..], s); }
  }

  lemma {:induction false} AmongAll(q: seq<Task>, s: set<Task>)
    requires forall t <- q :: t in s
    ensures Among(q, s) == q
    decreases |q|
  {
    if q != [] { AmongAll(q[1..], s); }
  }

  lemma AmongFirst(q: seq<Task>, s: set<Task>)
    requires q != [] && Distinct(q) && (forall t <- q :: t in s <==> t == q[0])
    ensures Among(q, s) == [q[0]]
  {
    assert q[0] in q;
    forall t | t in q[1..] ensures t !in s {
      var k :| 0 <= k < |q[1..]| && q[1..][k] == t;
      assert q[k + 1] == t;
    }
    AmongNone(q[1..], s);
  }

  lemma StepOk(r: Queue, a: Action)
    requires Ok(r)
    ensures Ok(Step(r, a))
  {
    match a
    case Sleep(t) => if t !in r.waiting { SleptOk(r, t); }
    case Wake => WokeOneCovers(r, 0);
    case WakeAll => WokeAllOk(r);
    case Return(t) => if t in r.awake { ResumedCovers(r, t, 0); }
    case Throw(t) => if t in Members(r) { if t in r.waiting { WithoutDistinct(r.waiting, t); } else { ResumedCovers(r, t, 0); WokeOneCovers(Resumed(r, t), 0); } }
  }

  /** Of two waiters, one ahead of the other, a step wakes neither, the first, or both in order; unless
      the first is thrown out they otherwise stay in order. */
  lemma StepInOrder(r: Queue, a: Action, u: Task, t: Task)
    requires Ok(r) && Ahead(r.waiting, u, t) && a != Throw(u) && a != Throw(t)
    ensures var r' := Step(r, a); var w := Among(r.waiting, r'.awake);
      (w == [] && Ahead(r'.waiting, u, t)) || (t !in w && u != t && w != [] && w[0] == u && w == [u])
      || (w == r.waiting && a == WakeAll) || (w == [r.waiting[0]] && w[0] != t && Ahead(r'.waiting, u, t))
  {
    var i, j :| 0 <= i < j < |r.waiting| && r.waiting[i] == u && r.waiting[j] == t;
    assert r.waiting[0] in r.waiting && u != t;
    match a
    case Sleep(x) =>
      if x !in r.waiting { AheadJoin(r.waiting, u, t, x); }
      AmongNone(r.waiting, Step(r, a).awake);
    case Wake =>
      assert r.waiting[0] != t;
      AmongFirst(r.waiting, Step(r, a).awake);
      if r.waiting[0] != u { AheadTail(r.waiting, u, t); }
    case WakeAll => AmongAll(r.waiting, Step(r, a).awake);
    case Return(x) => AmongNone(r.waiting, Step(r, a).awake);
    case Throw(x) =>
      if x in r.waiting {
        AheadWithout(r.waiting, x, u, t);
        AmongNone(r.waiting, Step(r, a).awake);
      } else if x in r.awake {
        assert r.waiting[0] != t;
        AmongFirst(r.waiting, Step(r, a).awake);
        if r.waiting[0] != u { AheadTail(r.waiting, u, t); }
      } else {
        AmongNone(r.waiting, Step(r, a).awake);
      }
  }

  /** Of two waiters the one ahead is woken first, over every run in which neither is thrown out. */
  lemma {:induction false} WokenInOrder(r: Queue, acts: seq<Action>, u: Task, t: Task)
    requires Ok(r) && Ahead(r.waiting, u, t) && Throw(u) !in acts && Throw(t) !in acts
    ensures t in Wakes(r, acts) ==> Precedes(Wakes(r, acts), u, t)
    decreases |acts|
  {
    hide Step, Among, Ahead, Precedes, Ok;
    if acts != [] {
      var a, r' := acts[0], Step(r, acts[0]);
      var w := Among(r.waiting, r'.awake);
      StepOk(r, a);
      StepInOrder(r, a, u, t);
      var rest := Wakes(r', acts[1..]);
      if w == r.waiting && a == WakeAll {
        assert Distinct(r.waiting) by { OkDistinct(r); }
        PrecedesNow(w, rest, u, t);
      } else if w == [u] {
        PrecedesAtOnce(u, rest, t);
      } else {
        WokenInOrder(r', acts[1..], u, t);
        if t in rest { PrecedesLater(w, rest, u, t); }
      }
    }
  }

  lemma OkDistinct(r: Queue)
    ensures Ok(r) ==> Distinct(r.waiting)
  {
  }

  /** First come, first woken: a task that goes to sleep while others wait is not woken before any of
      them, whatever happens, unless one of the two is thrown out. */
  lemma SleepsBehind(r: Queue, acts: seq<Action>, u: Task, t: Task)
    requires Ok(r) && u in r.waiting && t !in r.waiting && Throw(u) !in acts && Throw(t) !in acts
    ensures var w := Wakes(Step(r, Sleep(t)), acts); t in w ==> Precedes(w, u, t)
  {
    StepOk(r, Sleep(t));
    AheadOfLast(r.waiting, u, t);
    WokenInOrder(Step(r, Sleep(t)), acts, u, t);
    hide Wakes;
  }

  /** And waking does wake: the longest waiter, or everybody. */
  lemma WakesSomebody(r: Queue)
    requires Ok(r) && r.waiting != []
    ensures Wakes(r, [Wake]) == [r.waiting[0]] && Wakes(r, [WakeAll]) == r.waiting
  {
    var one, all := Step(r, Wake), Step(r, WakeAll);
    assert r.waiting[0] in r.waiting;
    AmongFirst(r.waiting, one.awake);
    AmongAll(r.waiting, all.awake);
    assert [Wake][1..] == [] && [WakeAll][1..] == [];
    assert Wakes(one, []) == [] && Wakes(all, []) == [];
  }

  /** The queue itself. Each method is one critical section of its internal mutex and reports whom it
      made ready; `awake` is what those reports add up to. */
  class RendezQueue {
    var waiting: seq<Task>
    ghost var awake: set<Task>

    ghost function View(): Queue
      reads this
    {
      Queue(waiting, awake)
    }

    constructor ()
      ensures View() == Queue([], {})
    {
      waiting := [];
      awake := {};
    }

    method Sleep(t: Task)
      requires t !in waiting
      modifies this
      ensures View() == Slept(old(View()), t)
    {
      waiting := waiting + [t];
      awake := awake - {t};
    }

    /** The normal return from the context switch in sleep(). */
    ghost method Resume(t: Task)
      modifies this
      ensures View() == Resumed(old(View()), t)
    {
      awake := awake - {t};
    }

    method Wakeup() returns (woken: Option<Task>)
      modifies this
      ensures View() == WokeOne(old(View()))
      ensures if woken.Some? then old(waiting) == [woken.value] + waiting else old(waiting) == []
    {
      woken := None;
      if waiting != [] {
        woken := Some(waiting[0]);
        waiting := waiting[1..];
        awake := awake + {woken.value};
      }
    }

    method WakeupAll() returns (woken: seq<Task>)
      modifies this
      ensures View() == WokeAll(old(View()))
      ensures woken == old(waiting)
    {
      woken := waiting;
      waiting := [];
      awake := awake + Elements(woken);
    }

    /** The handler in sleep(): t's switch threw. */
    method Interrupt(t: Task) returns (woken: Option<Task>)
      modifies this
      ensures View() == Interrupted(old(View()), t)
      ensures woken.Some? <==> t !in old(waiting) && old(waiting) != []
      ensures woken.Some? ==> woken.value == old(waiting)[0]
    {
      woken := None;
      var i := Find(waiting, t);
      if i < |waiting| {
        WithoutAt(waiting, t, i);
        waiting := waiting[..i] + waiting[i + 1..];
      } else {
        awake := awake - {t};
        if waiting != [] {
          woken := Some(waiting[0]);
          waiting := waiting[1..];
          awake := awake + {woken.value};
        }
      }
    }
  }
}
