/** The lock that tasks hand to each other. A waiter does not compete for the lock when it is
    released: the releasing task makes the longest waiter its owner and then makes it ready. */
module Qutex {

  import opened Wrappers
  import opened Tasks

  datatype Lock = Lock(owner: Option<Task>, waiting: seq<Task>)

  /** The first critical section of lock(): take a free lock, or join the line. */
  function Enter(l: Lock, t: Task): Lock {
    if l.owner.None? then l.(owner := Some(t)) else l.(waiting := l.waiting + [t])
  }

  /** unlock_or_giveup(): the owner hands the lock to the longest waiter; another task leaves the line. */
  function Leave(l: Lock, t: Task): Lock {
    if l.owner != Some(t) then l.(waiting := Without(l.waiting, t))
    else if l.waiting == [] then l.(owner := None)
    else Lock(Some(l.waiting[0]), l.waiting[1..])
  }

  /** Whom unlock_or_giveup() makes ready. */
  function Handed(l: Lock, t: Task): Option<Task> {
    if l.owner == Some(t) && l.waiting != [] then Some(l.waiting[0]) else None
  }

  /** The lock itself; each method is one critical section of its internal mutex. */
  class Qutex {
    var owner: Option<Task>
    var waiting: seq<Task>

    function View(): Lock
      reads this
    {
      Lock(owner, waiting)
    }

    constructor ()
      ensures View() == Lock(None, [])
    {
      owner := None;
      waiting := [];
    }

    /** Returns whether the lock is t's; if not, t is to park. */
    method BeginLock(t: Task) returns (got: bool)
      requires owner != Some(t)
      modifies this
      ensures View() == Enter(old(View()), t)
      ensures got <==> owner == Some(t)
    {
      if owner == None {
        owner := Some(t);
        return true;
      }
      waiting := waiting + [t];
      return false;
    }

    /** `mutex` says whether the internal mutex could be had at once. */
    method TryLock(t: Task, mutex: bool) returns (got: bool)
      modifies this
      ensures got <==> mutex && old(owner) == None
      ensures View() == if got then Enter(old(View()), t) else old(View())
    {
      got := mutex && owner == None;
      if got { owner := Some(t); }
    }

    method UnlockOrGiveUp(t: Task) returns (woken: Option<Task>)
      modifies this
      ensures View() == Leave(old(View()), t)
      ensures woken == Handed(old(View()), t)
    {
      woken := None;
      if owner == Some(t) {
        if waiting != [] {
          woken := Some(waiting[0]);
          waiting := waiting[1..];
        }
        owner := woken;
      } else {
        var i := Find(waiting, t);
        if i < |waiting| {
          WithoutAt(waiting, t, i);
          waiting := waiting[..i] + waiting[i + 1..];
        } else {
          WithoutAbsent(waiting, t);
        }
      }
    }
  }

  // ---- every run of tasks that lock, unlock and are interrupted ----

  /** `holding` are those between lock() and unlock(), `parked` those inside lock() waiting to be
      resumed, `woken` those made ready by a hand-over and not resumed since. Every task that joins
      the line draws a ticket, and `drawn` says who drew which; `line` are the tickets of the waiters,
      `granted` the tickets handed the lock, in that order, and `gaveUp` those of waiters that left the
      line interrupted. */
  datatype State = State(
    lock: Lock, holding: set<Task>, parked: set<Task>, woken: set<Task>,
    drawn: seq<Task>, line: seq<nat>, granted: seq<nat>, gaveUp: set<nat>)

  /** `Resume` is a parked task running again, woken or not; `Interrupt` is its swap throwing. A task
      may call unlock() without owning the lock. */
  datatype Action = Acquire(t: Task) | Try(t: Task, mutex: bool) | Resume(t: Task) | Interrupt(t: Task) | Unlock(t: Task)

  const FREE := State(Lock(None, []), {}, {}, {}, [], [], [], {})

  /** t leaves: the bookkeeping beside Leave. */
  function Leaves(s: State, t: Task): State {
    var r := s.(lock := Leave(s.lock, t), holding := s.holding - {t}, parked := s.parked - {t});
    if s.lock.owner == Some(t) then
      if s.lock.waiting == [] || s.line == [] then r
      else r.(woken := s.woken + {s.lock.waiting[0]}, granted := s.granted + [s.line[0]], line := s.line[1..])
    else if t in s.lock.waiting && |s.line| == |s.lock.waiting| then
      var i := Position(s.lock.waiting, t);
      r.(gaveUp := s.gaveUp + {s.line[i]}, line := s.line[..i] + s.line[i + 1..])
    else r
  }

  function Position(q: seq<Task>, t: Task): (i: nat)
    requires t in q
    ensures i < |q| && q[i] == t && t !in q[..i]
  {
    if q[0] == t then 0 else
      var i := 1 + Position(q[1..], t);
      assert q[..i] == [q[0]] + q[1..][..i - 1];
      i
  }

  function Step(s: State, a: Action): State {
    if a.t in s.parked then
      match a
      case Resume(t) =>
        if s.lock.owner == Some(t) then
          s.(holding := s.holding + {t}, parked := s.parked - {t}, woken := s.woken - {t})
        else s.(woken := s.woken - {t})
      case Interrupt(t) => var r := Leaves(s, t); r.(woken := r.woken - {t})
      case _ => s
    else
      match a
      case Acquire(t) =>
        if t in s.holding then s
        else if s.lock.owner.None? then s.(lock := Enter(s.lock, t), holding := s.holding + {t})
        else s.(lock := Enter(s.lock, t), parked := s.parked + {t}, drawn := s.drawn + [t], line := s.line + [|s.drawn|])
      case Try(t, mutex) =>
        if mutex && s.lock.owner.None? then s.(lock := Enter(s.lock, t), holding := s.holding + {t}) else s
      case Unlock(t) => Leaves(s, t)
      case _ => s
  }

  function Run(s: State, acts: seq<Action>): State
    decreases |acts|
  {
    if acts == [] then s else Run(Step(s, acts[0]), acts[1..])
  }

  // ---- invariants ----

  /** Who holds, waits and was handed the lock agrees with the lock. */
  ghost predicate LockOk(s: State) {
    && s.holding !! s.parked
    && s.woken <= s.parked
    && (forall t <- s.holding :: s.lock.owner == Some(t))
    && (s.lock.owner.None? ==> s.lock.waiting == [])
    && (s.lock.owner.Some? ==> s.lock.owner.value !in s.lock.waiting)
    && (s.lock.owner.Some? ==> s.lock.owner.value in s.holding || s.lock.owner.value in s.woken)
    && Distinct(s.lock.waiting)
    && (forall t :: t in s.parked <==> t in s.lock.waiting || (s.lock.owner == Some(t) && t !in s.holding))
  }

  predicate Increasing(q: seq<nat>) { forall i, j :: 0 <= i < j < |q| ==> q[i] < q[j] }

  /** Ticket n is the last one that t drew. */
  predicate LastDrawn(drawn: seq<Task>, t: Task, n: nat) { n < |drawn| && drawn[n] == t && t !in drawn[n + 1..] }

  /** The waiters stand in the line with the tickets they drew last. */
  predicate Stands(s: State) {
    && |s.line| == |s.lock.waiting|
    && (forall i | 0 <= i < |s.line| :: LastDrawn(s.drawn, s.lock.waiting[i], s.line[i]))
  }

  /** The line and the grants are in ticket order, grants before the line, and no ticket is lost. */
  ghost predicate TicketsOk(s: State) {
    && Stands(s)
    && Increasing(s.line) && Increasing(s.granted)
    && (forall g <- s.granted, w <- s.line :: g < w)
    && (forall n: nat :: n < |s.drawn| <==> n in s.granted || n in s.line || n in s.gaveUp)
    && (forall n <- s.gaveUp :: n !in s.granted && n !in s.line)
  }

  ghost predicate Inv(s: State) { LockOk(s) && TicketsOk(s) }

  lemma LeavesLock(s: State, t: Task)
    requires LockOk(s) && |s.line| == |s.lock.waiting| && (t in s.parked || t !in s.woken)
    ensures var r := Leaves(s, t); LockOk(r.(woken := r.woken - {t}))
  {
    if s.lock.owner != Some(t) {
      if t in s.lock.waiting {
        WithoutAt(s.lock.waiting, t, Position(s.lock.waiting, t));
      } else {
        WithoutAbsent(s.lock.waiting, t);
      }
    }
  }

  /** Taking one ticket out of the line leaves the others, in order. */
  lemma Cut(line: seq<nat>, i: nat)
    requires Increasing(line) && i < |line|
    ensures var rest := line[..i] + line[i + 1..];
      Increasing(rest) && |rest| == |line| - 1 && forall n :: n in rest <==> n in line && n != line[i]
  {
    var rest := line[..i] + line[i + 1..];
    forall n | n in line && n != line[i] ensures n in rest {
      var k :| 0 <= k < |line| && line[k] == n;
      assert n == if k < i then rest[k] else rest[k - 1];
    }
  }

  lemma GrantTickets(s: State, r: State)
    requires TicketsOk(s) && s.line != []
    requires r.line == s.line[1..] && r.granted == s.granted + [s.line[0]] && r.gaveUp == s.gaveUp && r.drawn == s.drawn
    requires r.lock.waiting == s.lock.waiting[1..]
    ensures TicketsOk(r)
  {
    Cut(s.line, 0);
    assert s.line[..0] + s.line[1..] == s.line[1..];
    assert s.line[0] in s.line;
    Appended(s.granted, s.line[0]);
    assert forall k | 0 <= k < |r.line| :: r.line[k] == s.line[k + 1];
  }

  lemma Appended(q: seq<nat>, x: nat)
    requires Increasing(q) && forall g <- q :: g < x
    ensures Increasing(q + [x]) && forall n :: n in q + [x] <==> n in q || n == x
  {
    assert forall k | 0 <= k < |q| :: q[k] in q;
  }

  lemma GiveUpTickets(s: State, r: State, i: nat)
    requires TicketsOk(s) && i < |s.line|
    requires r.line == s.line[..i] + s.line[i + 1..] && r.granted == s.granted
    requires r.gaveUp == s.gaveUp + {s.line[i]} && r.drawn == s.drawn
    requires r.lock.waiting == s.lock.waiting[..i] + s.lock.waiting[i + 1..]
    ensures TicketsOk(r)
  {
    Cut(s.line, i);
    assert s.line[i] in s.line;
  }

  lemma LeavesTickets(s: State, t: Task)
    requires Inv(s)
    ensures TicketsOk(Leaves(s, t))
  {
    assert |s.line| == |s.lock.waiting|;
    hide LockOk, TicketsOk;
    var r := Leaves(s, t);
    if s.lock.owner == Some(t) {
      if s.lock.waiting != [] { GrantTickets(s, r); } else { SameTickets(s, r); }
    } else if t in s.lock.waiting {
      var i := Position(s.lock.waiting, t);
      WithoutAt(s.lock.waiting, t, i);
      GiveUpTickets(s, r, i);
    } else {
      WithoutAbsent(s.lock.waiting, t);
      SameTickets(s, r);
    }
  }

  lemma SameTickets(s: State, r: State)
    requires TicketsOk(s)
    requires r.line == s.line && r.granted == s.granted && r.gaveUp == s.gaveUp && r.drawn == s.drawn
    requires r.lock.waiting == s.lock.waiting
    ensures TicketsOk(r)
  {
  }

  lemma QueueTickets(s: State, r: State, t: Task)
    requires TicketsOk(s)
    requires r.line == s.line + [|s.drawn|] && r.granted == s.granted && r.gaveUp == s.gaveUp && r.drawn == s.drawn + [t]
    requires r.lock.waiting == s.lock.waiting + [t] && t !in s.lock.waiting
    ensures TicketsOk(r)
  {
    forall i | 0 <= i < |s.line| ensures LastDrawn(r.drawn, r.lock.waiting[i], r.line[i]) {
      assert LastDrawn(s.drawn, s.lock.waiting[i], s.line[i]) && s.lock.waiting[i] in s.lock.waiting;
      assert r.drawn[s.line[i] + 1..] == s.drawn[s.line[i] + 1..] + [t];
    }
    assert forall n :: n in r.line <==> n in s.line || n == |s.drawn|;
    assert forall k | 0 <= k < |s.line| :: s.line[k] in s.line;
  }

  lemma EntersKeeps(s: State, a: Action)
    requires Inv(s) && (a.Acquire? || a.Try?)
    ensures Inv(Step(s, a))
  {
    var r := Step(s, a);
    if a.Acquire? && a.t !in s.parked && a.t !in s.holding && s.lock.owner.Some? {
      QueueTickets(s, r, a.t);
    } else {
      SameTickets(s, r);
    }
    hide TicketsOk;
  }

  lemma ResumeKeeps(s: State, t: Task)
    requires Inv(s)
    ensures Inv(Step(s, Resume(t)))
  {
    SameTickets(s, Step(s, Resume(t)));
    hide TicketsOk;
  }

  lemma StepKeeps(s: State, a: Action)
    requires Inv(s)
    ensures Inv(Step(s, a))
  {
    if a.Acquire? || a.Try? {
      EntersKeeps(s, a);
    } else if a.Resume? {
      ResumeKeeps(s, a.t);
    } else {
      LeavesLock(s, a.t);
      LeavesTickets(s, a.t);
      var r := Leaves(s, a.t);
      assert a.t !in s.parked ==> r.woken - {a.t} == r.woken;
      hide Leaves, LockOk, TicketsOk;
      SameTickets(r, r.(woken := r.woken - {a.t}));
    }
  }

  lemma {:induction false} RunKeeps(s: State, acts: seq<Action>)
    requires Inv(s)
    ensures Inv(Run(s, acts))
    decreases |acts|
  {
    if acts != [] {
      StepKeeps(s, acts[0]);
      RunKeeps(Step(s, acts[0]), acts[1..]);
    }
  }

  lemma Reachable(acts: seq<Action>)
    ensures Inv(Run(FREE, acts))
  {
    RunKeeps(FREE, acts);
  }

  /** In every run at most one task is between lock and unlock, and it is the owner; a free lock has no
      waiters; the owner is never a waiter; waiters are distinct; and an owner that does not hold the
      lock yet has been made ready. */
  lemma MutualExclusion(acts: seq<Action>, t: Task, u: Task)
    ensures var s := Run(FREE, acts);
      && (t in s.holding && u in s.holding ==> t == u)
      && (t in s.holding ==> s.lock.owner == Some(t))
      && (s.lock.owner.None? ==> s.lock.waiting == [] && s.parked == {})
      && (s.lock.owner == Some(t) ==> t !in s.lock.waiting && (t in s.holding || t in s.woken))
      && Distinct(s.lock.waiting)
  {
    Reachable(acts);
  }

  // ---- who gets the lock when, read from the actions ----

  lemma {:induction false} RunSnoc(s: State, acts: seq<Action>, a: Action)
    ensures Run(s, acts + [a]) == Step(Run(s, acts), a)
    decreases |acts|
  {
    hide Step;
    if acts == [] {
      assert acts + [a] == [a] && [a][1..] == [];
      assert Run(Step(s, a), []) == Step(s, a);
    } else {
      assert (acts + [a])[0] == acts[0] && (acts + [a])[1..] == acts[1..] + [a];
      RunSnoc(Step(s, acts[0]), acts[1..], a);
    }
  }

  lemma RunLast(acts: seq<Action>)
    requires acts != []
    ensures var n := |acts| - 1; Run(FREE, acts) == Step(Run(FREE, acts[..n]), acts[n])
  {
    hide Run, Step;
    var n := |acts| - 1;
    assert acts == acts[..n] + [acts[n]];
    RunSnoc(FREE, acts[..n], acts[n]);
  }

  /** Who joined the line, in order: calls of lock() that found the lock taken. */
  function Joined(acts: seq<Action>): seq<Task>
    decreases |acts|
  {
    if acts == [] then []
    else
      var n := |acts| - 1;
      var s := Run(FREE, acts[..n]);
      Joined(acts[..n]) +
      if acts[n].Acquire? && acts[n].t !in s.parked && acts[n].t !in s.holding && s.lock.owner.Some? then [acts[n].t] else []
  }

  /** Who was handed the lock by its owner, in order. */
  function HandedTo(acts: seq<Action>): seq<Task>
    decreases |acts|
  {
    if acts == [] then []
    else
      var n := |acts| - 1;
      var before, after := Run(FREE, acts[..n]).lock.owner, Run(FREE, acts).lock.owner;
      HandedTo(acts[..n]) + if before.Some? && after.Some? && before != after then [after.value] else []
  }

  /** Who left the line interrupted, as places in Joined: the last one at which that task joined. */
  ghost function GaveUp(acts: seq<Action>): set<nat>
    decreases |acts|
  {
    if acts == [] then {}
    else
      var n := |acts| - 1;
      var s, joined := Run(FREE, acts[..n]), Joined(acts[..n]);
      GaveUp(acts[..n]) +
      if acts[n].Interrupt? && acts[n].t in s.lock.waiting then set i | 0 <= i < |joined| && LastDrawn(joined, acts[n].t, i)
      else {}
  }

  lemma {:induction false} JoinedDrew(acts: seq<Action>)
    ensures Run(FREE, acts).drawn == Joined(acts)
    decreases |acts|
  {
    hide Run;
    if acts == [] {
      assert Run(FREE, acts) == FREE by { RunNothing(); }
    } else {
      JoinedDrew(acts[..|acts| - 1]);
      RunLast(acts);
    }
  }

  lemma RunNothing()
    ensures Run(FREE, []) == FREE
  {
  }

  /** The tasks that tickets were drawn by. */
  function DrawnBy(drawn: seq<Task>, tickets: seq<nat>): (r: seq<Task>)
    requires forall k | 0 <= k < |tickets| :: tickets[k] < |drawn|
    ensures |r| == |tickets| && forall k | 0 <= k < |r| :: r[k] == drawn[tickets[k]]
  {
    seq(|tickets|, k requires 0 <= k < |tickets| => drawn[tickets[k]])
  }

  lemma StepHands(s: State, a: Action)
    requires Inv(s)
    ensures var r := Step(s, a);
      && s.drawn <= r.drawn
      && if s.lock.owner.Some? && r.lock.owner.Some? && s.lock.owner != r.lock.owner
         then s.line != [] && r.granted == s.granted + [s.line[0]] && s.line[0] < |s.drawn| && s.drawn[s.line[0]] == r.lock.owner.value
         else r.granted == s.granted
  {
    hide Distinct, Increasing;
    if s.line != [] { assert LastDrawn(s.drawn, s.lock.waiting[0], s.line[0]); }
  }

  lemma Later(drawn: seq<Task>, i: nat, j: nat)
    requires i < j < |drawn|
    ensures drawn[j] in drawn[i + 1..]
  {
    assert drawn[i + 1..][j - i - 1] == drawn[j];
  }

  lemma LastUnique(drawn: seq<Task>, t: Task, i: nat, j: nat)
    requires LastDrawn(drawn, t, j)
    ensures LastDrawn(drawn, t, i) <==> i == j
  {
    if i < j {
      Later(drawn, i, j);
    } else if j < i < |drawn| {
      Later(drawn, j, i);
    }
  }

  lemma DrawnMore(d: seq<Task>, e: seq<Task>, tickets: seq<nat>, n: nat)
    requires d <= e && n < |d| && forall k | 0 <= k < |tickets| :: tickets[k] < |d|
    ensures forall k | 0 <= k < |tickets + [n]| :: (tickets + [n])[k] < |e|
    ensures DrawnBy(e, tickets + [n]) == DrawnBy(d, tickets) + [d[n]]
  {
  }

  lemma StepQuits(s: State, a: Action, i: nat)
    requires Inv(s)
    ensures i in Step(s, a).gaveUp <==>
      i in s.gaveUp || (a.Interrupt? && a.t in s.lock.waiting && LastDrawn(s.drawn, a.t, i))
  {
    var t := a.t;
    if t in s.lock.waiting {
      var k := Position(s.lock.waiting, t);
      assert LastDrawn(s.drawn, t, s.line[k]);
      assert t in s.parked && s.lock.owner != Some(t);
      LastUnique(s.drawn, t, i, s.line[k]);
    }
    hide TicketsOk, LockOk;
  }

  lemma GrantedDrawn(s: State)
    requires TicketsOk(s)
    ensures forall k | 0 <= k < |s.granted| :: s.granted[k] < |s.drawn|
  {
    assert forall k | 0 <= k < |s.granted| :: s.granted[k] in s.granted;
    hide Stands, Increasing;
  }

  lemma {:induction false} HandsAre(acts: seq<Action>)
    ensures var s := Run(FREE, acts);
      (forall k | 0 <= k < |s.granted| :: s.granted[k] < |s.drawn|) && HandedTo(acts) == DrawnBy(s.drawn, s.granted)
    decreases |acts|
  {
    hide Run, Step, Inv, TicketsOk;
    Reachable(acts);
    assert TicketsOk(Run(FREE, acts)) by { InvTickets(Run(FREE, acts)); }
    GrantedDrawn(Run(FREE, acts));
    if acts == [] {
      RunNothing();
    } else {
      var n := |acts| - 1;
      HandsAre(acts[..n]);
      Reachable(acts[..n]);
      RunLast(acts);
      var s, r := Run(FREE, acts[..n]), Run(FREE, acts);
      StepHands(s, acts[n]);
      if s.lock.owner.Some? && r.lock.owner.Some? && s.lock.owner != r.lock.owner {
        DrawnMore(s.drawn, r.drawn, s.granted, s.line[0]);
      } else {
        assert DrawnBy(r.drawn, r.granted) == DrawnBy(s.drawn, s.granted);
        assert HandedTo(acts[..n]) + [] == HandedTo(acts[..n]);
      }
    }
  }

  lemma InvTickets(s: State)
    ensures Inv(s) ==> TicketsOk(s)
  {
  }

  lemma {:induction false} QuitsAre(acts: seq<Action>, i: nat)
    ensures i in Run(FREE, acts).gaveUp <==> i in GaveUp(acts)
    decreases |acts|
  {
    hide Run, Step, Inv, LastDrawn;
    if acts == [] {
      RunNothing();
    } else {
      var n := |acts| - 1;
      QuitsAre(acts[..n], i);
      Reachable(acts[..n]);
      RunLast(acts);
      StepQuits(Run(FREE, acts[..n]), acts[n], i);
      JoinedDrew(acts[..n]);
      LastIsBelow(Joined(acts[..n]), acts[n].t, i);
    }
  }

  lemma LastIsBelow(drawn: seq<Task>, t: Task, i: nat)
    ensures LastDrawn(drawn, t, i) ==> i < |drawn|
  {
  }

  /** The hand-overs in terms of the line: the k-th went to the task that joined it at place turn[k]; the
      places ascend; and whoever joined at an earlier place was handed the lock before, or gave up. */
  ghost predicate InTurn(hands: seq<Task>, joined: seq<Task>, quit: set<nat>, turn: seq<nat>) {
    && |turn| == |hands| && Increasing(turn)
    && (forall k | 0 <= k < |turn| :: turn[k] < |joined| && hands[k] == joined[turn[k]] && turn[k] !in quit)
    && (forall k, i | 0 <= k < |turn| && 0 <= i < turn[k] && i !in quit :: i in turn[..k])
  }

  lemma EarlierGranted(s: State, k: nat, i: nat)
    requires TicketsOk(s) && k < |s.granted| && i < s.granted[k] && i !in s.gaveUp
    ensures i in s.granted[..k]
  {
    hide Stands;
    assert s.granted[k] in s.granted && s.granted[k] < |s.drawn|;
    assert i !in s.line;
    var j :| 0 <= j < |s.granted| && s.granted[j] == i;
    assert s.granted[..k][j] == i;
  }

  /** Tasks are handed the lock in the order they joined the line: in every run, if one joined before
      another and did not give up, it is handed the lock first. */
  lemma GrantsInOrder(acts: seq<Action>)
    ensures InTurn(HandedTo(acts), Joined(acts), GaveUp(acts), Run(FREE, acts).granted)
  {
    hide Run, Joined, HandedTo, GaveUp;
    var s := Run(FREE, acts);
    Reachable(acts);
    HandsAre(acts);
    JoinedDrew(acts);
    forall i: nat { QuitsAre(acts, i); }
    hide Stands, LockOk;
    forall k, i | 0 <= k < |s.granted| && 0 <= i < s.granted[k] && i !in s.gaveUp ensures i in s.granted[..k] {
      EarlierGranted(s, k, i);
    }
    assert forall k | 0 <= k < |s.granted| :: s.granted[k] in s.granted;
  }

  /** What unlock() by the task that holds the lock comes to: the longest waiter owns it and is made
      ready, or it is free. */
  lemma ReleaseOutcome(acts: seq<Action>, t: Task)
    requires t in Run(FREE, acts).holding
    ensures var s := Run(FREE, acts); var r := Step(s, Unlock(t));
      && t !in r.holding && t !in r.parked
      && if s.lock.waiting == [] then r.lock == Lock(None, [])
         else r.lock == Lock(Some(s.lock.waiting[0]), s.lock.waiting[1..]) && s.lock.waiting[0] in r.woken
  {
    Reachable(acts);
    hide Run;
  }

  /** What a call of lock() comes to: the lock at once if it is free, else a place behind all others. */
  lemma AcquireOutcome(acts: seq<Action>, t: Task)
    requires var s := Run(FREE, acts); t !in s.parked && t !in s.holding
    ensures var s := Run(FREE, acts); var r := Step(s, Acquire(t));
      if s.lock.owner.None? then r.lock == Lock(Some(t), []) && t in r.holding
      else r.lock == Lock(s.lock.owner, s.lock.waiting + [t]) && t in r.parked && t !in r.holding
  {
    Reachable(acts);
    hide Run;
  }

  /** What trylock() comes to: the lock if it is free and the internal mutex could be had, else nothing. */
  lemma TryOutcome(acts: seq<Action>, t: Task, mutex: bool)
    requires t !in Run(FREE, acts).parked
    ensures var s := Run(FREE, acts); var r := Step(s, Try(t, mutex));
      if mutex && s.lock.owner.None? then r == s.(lock := Lock(Some(t), []), holding := s.holding + {t}) else r == s
  {
    Reachable(acts);
    hide Run;
  }

  /** A waiter interrupted after it was handed the lock passes it to the next in line and makes that
      task ready, or frees it when nobody waits; one interrupted before only leaves the line. */
  lemma InterruptPassesOn(acts: seq<Action>, t: Task)
    requires t in Run(FREE, acts).parked
    ensures var s := Run(FREE, acts);
      var r := Step(s, Interrupt(t));
      && t !in r.parked && t !in r.holding && t !in r.lock.waiting && r.lock.owner != Some(t)
      && (s.lock.owner == Some(t) ==>
            if s.lock.waiting == [] then r.lock == Lock(None, [])
            else r.lock.owner == Some(s.lock.waiting[0]) && s.lock.waiting[0] in r.woken && r.lock.waiting == s.lock.waiting[1..])
      && (s.lock.owner != Some(t) ==> r.lock.owner == s.lock.owner && forall u :: u in r.lock.waiting <==> u in s.lock.waiting && u != t)
  {
    Reachable(acts);
    var s := Run(FREE, acts);
    StepKeeps(s, Interrupt(t));
    hide Run;
    if s.lock.owner != Some(t) {
      WithoutAt(s.lock.waiting, t, Position(s.lock.waiting, t));
    }
  }
}
