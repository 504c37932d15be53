/** The channel: a bounded queue on which tasks send and receive, built on a lock and two condition
    queues. One critical section of the lock, from taking it to releasing it by returning, throwing or
    sleeping, is one step. */
module Channel {

  import opened Wrappers
  import opened Tasks
  import opened Rendez

  type Item(==, !new)

  /** What a parked sender waits for: to queue its item, or (with capacity 1) for the item it queued,
      the one numbered `index`, to be taken. `seen` is the queue's size when it called send(). */
  datatype Job = Pending(item: Item, seen: nat) | Delivered(index: nat, seen: nat)

  /** How an item left the queue. */
  datatype Fate = Received(item: Item, receiver: Task) | Cleared(item: Item)

  /** `accepted` are the items ever queued and `dealt` those that left, in order. */
  datatype State = State(
    cap: nat, queue: seq<Item>, closed: bool, notEmpty: Queue, notFull: Queue,
    jobs: map<Task, Job>, accepted: seq<Item>, dealt: seq<Fate>)

  datatype Outcome = Parked | Sent(seen: nat) | Done | Got(item: Item) | ClosedError | Thrown | Ignored

  /** The calls, parked tasks running on once woken, and interrupts of parked tasks. */
  datatype Action =
    | Send(t: Task, item: Item) | Recv(t: Task) | Close | Clear
    | ResumeSend(t: Task) | ResumeRecv(t: Task) | Interrupt(t: Task)

  function Init(cap: nat): State { State(cap, [], false, Queue([], {}), Queue([], {}), map[], [], []) }

  predicate Full(s: State) { |s.queue| >= s.cap }

  /** t sleeps in send(). */
  function ParkSender(s: State, t: Task, job: Job): State {
    s.(notFull := Slept(s.notFull, t), jobs := s.jobs[t := job])
  }

  /** t leaves send(), where it may have slept. */
  function ReleaseSender(s: State, t: Task): State { s.(notFull := Resumed(s.notFull, t), jobs := s.jobs - {t}) }

  function Pushes(s: State, x: Item): State {
    s.(queue := s.queue + [x], accepted := s.accepted + [x], notEmpty := WokeOne(s.notEmpty))
  }

  /** send() from its first loop, by a task that may have slept in it. */
  function Sends(s: State, t: Task, x: Item, seen: nat): (State, Outcome) {
    if Full(s) && !s.closed then (ParkSender(s, t, Pending(x, seen)), Parked)
    else if s.closed then (ReleaseSender(s, t), ClosedError)
    else if s.cap == 1 then Awaits(Pushes(s, x), t, |s.accepted|, seen)
    else (ReleaseSender(Pushes(s, x), t), Sent(seen))
  }

  /** send() from its second loop. */
  function Awaits(s: State, t: Task, index: nat, seen: nat): (State, Outcome) {
    if Full(s) && !s.closed then (ParkSender(s, t, Delivered(index, seen)), Parked) else (ReleaseSender(s, t), Sent(seen))
  }

  /** recv() from its loop. */
  function Receives(s: State, t: Task): (State, Outcome) {
    if s.queue == [] && !s.closed then (s.(notEmpty := Slept(s.notEmpty, t)), Parked)
    else if s.queue == [] then (s.(notEmpty := Resumed(s.notEmpty, t)), ClosedError)
    else
      (Pops(s, t), Got(s.queue[0]))
  }

  function Pops(s: State, t: Task): State
    requires s.queue != []
  {
    s.(queue := s.queue[1..], dealt := s.dealt + [Received(s.queue[0], t)], notEmpty := Resumed(s.notEmpty, t),
       notFull := if s.cap == 1 then WokeAll(s.notFull) else WokeOne(s.notFull))
  }

  function Closes(s: State): State {
    s.(closed := true, notEmpty := WokeAll(s.notEmpty), notFull := WokeAll(s.notFull))
  }

  function Clearings(q: seq<Item>): seq<Fate> { seq(|q|, i requires 0 <= i < |q| => Cleared(q[i])) }

  function Clears(s: State): State {
    s.(queue := [], dealt := s.dealt + Clearings(s.queue), notFull := WokeAll(s.notFull))
  }

  predicate Idle(s: State, t: Task) { t !in Members(s.notEmpty) && t !in Members(s.notFull) }

  /** One step and what its caller sees of it. A woken task only runs on after it was taken off its
      queue; a step that is not possible is ignored. */
  function Step(s: State, a: Action): (State, Outcome) {
    match a
    case Send(t, x) => if Idle(s, t) then Sends(s, t, x, |s.queue|) else (s, Ignored)
    case Recv(t) => if Idle(s, t) then Receives(s, t) else (s, Ignored)
    case Close => (Closes(s), Done)
    case Clear => (Clears(s), Done)
    case ResumeSend(t) =>
      if t !in s.notFull.awake || t !in s.jobs then (s, Ignored)
      else if s.jobs[t].Pending? then Sends(s, t, s.jobs[t].item, s.jobs[t].seen)
      else Awaits(s, t, s.jobs[t].index, s.jobs[t].seen)
    case ResumeRecv(t) => if t in s.notEmpty.awake then Receives(s, t) else (s, Ignored)
    case Interrupt(t) =>
      if t in Members(s.notEmpty) then (s.(notEmpty := Interrupted(s.notEmpty, t)), Thrown)
      else if t in Members(s.notFull) then (s.(notFull := Interrupted(s.notFull, t), jobs := s.jobs - {t}), Thrown)
      else (s, Ignored)
  }

  function Run(s: State, acts: seq<Action>): State
    decreases |acts|
  {
    if acts == [] then s else Run(Step(s, acts[0]).0, acts[1..])
  }

  // ---- invariants ----

  function Items(d: seq<Fate>): seq<Item> { seq(|d|, i requires 0 <= i < |d| => d[i].item) }

  /** A bounded queue that loses, invents and reorders nothing. */
  predicate FifoOk(s: State) {
    s.cap >= 1 && |s.queue| <= s.cap && s.accepted == Items(s.dealt) + s.queue
  }

  /** A task is parked at one place only, and senders remember what they are there for. */
  predicate ParkedOk(s: State) {
    && Ok(s.notEmpty) && Ok(s.notFull)
    && Members(s.notEmpty) !! Members(s.notFull)
    && s.jobs.Keys == Members(s.notFull)
    && (forall t <- s.jobs :: s.jobs[t].Delivered? ==> s.cap == 1 && s.jobs[t].index < |s.accepted|)
  }

  /** No receiver waits in vain. */
  predicate ReceiversOk(s: State) {
    Covers(s.notEmpty, |s.queue|) && (s.closed ==> s.notEmpty.waiting == [])
  }

  /** No sender waits in vain. */
  predicate SendersOk(s: State) {
    && (s.cap > 1 ==> Covers(s.notFull, s.cap - |s.queue|))
    && (s.cap == 1 && s.notFull.waiting != [] ==> |s.queue| == 1)
    && (s.closed ==> s.notFull.waiting == [])
  }

  predicate Inv(s: State) { FifoOk(s) && ParkedOk(s) && ReceiversOk(s) && SendersOk(s) }

  lemma PushesFifo(s: State, x: Item)
    requires FifoOk(s) && !Full(s)
    ensures FifoOk(Pushes(s, x))
  {
    hide Items, WokeOne;
    assert Items(s.dealt) + (s.queue + [x]) == (Items(s.dealt) + s.queue) + [x];
  }

  lemma PushesKeeps(s: State, x: Item)
    requires Inv(s) && !Full(s) && !s.closed
    ensures var r := Pushes(s, x); FifoOk(r) && ParkedOk(r) && ReceiversOk(r)
    ensures s.cap == 1 ==> SendersOk(Pushes(s, x))
  {
    PushesFifo(s, x);
    WokeOneCovers(s.notEmpty, |s.queue|);
    hide WokeOne, Members, Ok, Covers, FifoOk;
  }

  lemma ParkSenderParked(s: State, t: Task, job: Job)
    requires ParkedOk(s) && t !in s.notFull.waiting && t !in Members(s.notEmpty)
    requires job.Delivered? ==> s.cap == 1 && job.index < |s.accepted|
    ensures ParkedOk(ParkSender(s, t, job))
  {
    SleptOk(s.notFull, t);
    hide Slept, Members, Ok;
    var r := ParkSender(s, t, job);
    assert r.jobs.Keys == s.jobs.Keys + {t};
  }

  lemma ParkSenderKeeps(s: State, t: Task, job: Job)
    requires Inv(s) && Full(s) && !s.closed && t !in s.notFull.waiting && t !in Members(s.notEmpty)
    requires job.Delivered? ==> s.cap == 1 && job.index < |s.accepted|
    ensures Inv(ParkSender(s, t, job))
  {
    ParkSenderParked(s, t, job);
    hide ParkedOk, Items;
  }

  /** A sender leaves after using a free slot, or when the channel is closed or nobody else waits. */
  lemma ReleaseSenderKeeps(s: State, r: State, t: Task)
    requires FifoOk(r) && ParkedOk(r) && ReceiversOk(r) && t !in r.notFull.waiting
    requires r.cap == s.cap && r.closed == s.closed && r.notFull == s.notFull && SendersOk(s)
    requires r.queue == s.queue || |r.queue| == |s.queue| + 1
    requires r.cap == 1 || r.closed || |r.queue| == |s.queue| + 1
    requires r.cap == 1 ==> r.queue == s.queue
    ensures Inv(ReleaseSender(r, t))
  {
    ResumedCovers(r.notFull, t, s.cap - |s.queue|);
    hide Resumed, Members, Ok, Covers;
  }

  lemma SendsKeeps(s: State, t: Task, x: Item, seen: nat)
    requires Inv(s) && t !in s.notFull.waiting && t !in Members(s.notEmpty)
    ensures Inv(Sends(s, t, x, seen).0)
  {
    if s.closed {
      ReleaseSenderKeeps(s, s, t);
    } else if Full(s) {
      ParkSenderKeeps(s, t, Pending(x, seen));
    } else {
      PushesKeeps(s, x);
      WokeOneCovers(s.notEmpty, 0);
      if s.cap == 1 {
        ParkSenderKeeps(Pushes(s, x), t, Delivered(|s.accepted|, seen));
      } else {
        ReleaseSenderKeeps(s, Pushes(s, x), t);
      }
    }
    hide ParkSender, ReleaseSender, ParkedOk, ReceiversOk, SendersOk, Items, Members;
  }

  lemma AwaitsKeeps(s: State, t: Task, index: nat, seen: nat)
    requires Inv(s) && t !in s.notFull.waiting && t !in Members(s.notEmpty) && s.cap == 1 && index < |s.accepted|
    ensures Inv(Awaits(s, t, index, seen).0)
  {
    if Full(s) && !s.closed { ParkSenderKeeps(s, t, Delivered(index, seen)); } else { ReleaseSenderKeeps(s, s, t); }
    hide ParkSender, ReleaseSender, FifoOk, ParkedOk, ReceiversOk, SendersOk, Members;
  }

  lemma ItemsAppend(d: seq<Fate>, e: seq<Fate>)
    ensures Items(d + e) == Items(d) + Items(e)
  {
  }

  lemma PopsFifo(s: State, t: Task)
    requires FifoOk(s) && s.queue != []
    ensures FifoOk(Pops(s, t))
  {
    var x := Received(s.queue[0], t);
    ItemsAppend(s.dealt, [x]);
    assert Items([x]) == [s.queue[0]];
    hide Items;
    assert Items(s.dealt) + [s.queue[0]] + s.queue[1..] == Items(s.dealt) + s.queue;
  }

  /** Waking tasks, and tasks leaving, keep everybody parked at one place. */
  lemma ParkedShrinks(s: State, r: State)
    requires ParkedOk(s) && Ok(r.notEmpty) && Ok(r.notFull)
    requires Members(r.notEmpty) <= Members(s.notEmpty) && Members(r.notFull) <= Members(s.notFull)
    requires r.jobs.Keys == Members(r.notFull) && forall t <- r.jobs :: t in s.jobs && r.jobs[t] == s.jobs[t]
    requires r.cap == s.cap && r.accepted == s.accepted
    ensures ParkedOk(r)
  {
    hide Members, Ok;
  }

  lemma PopsKeeps(s: State, t: Task)
    requires Inv(s) && s.queue != [] && t !in s.notEmpty.waiting
    ensures Inv(Pops(s, t))
  {
    hide Resumed, WokeOne, WokeAll, Members, Ok, Covers, Items;
    PopsFifo(s, t);
    ResumedCovers(s.notEmpty, t, |s.queue|);
    WokeOneCovers(s.notFull, s.cap - |s.queue|);
    WokeAllOk(s.notFull);
    ParkedShrinks(s, Pops(s, t));
    hide ParkedOk, FifoOk;
  }

  lemma ParkReceiverKeeps(s: State, t: Task)
    requires Inv(s) && s.queue == [] && !s.closed && t !in s.notEmpty.waiting && t !in Members(s.notFull)
    ensures Inv(s.(notEmpty := Slept(s.notEmpty, t)))
  {
    SleptOk(s.notEmpty, t);
    hide Slept, Members, Ok, Items;
  }

  lemma ReceivesKeeps(s: State, t: Task)
    requires Inv(s) && t !in s.notEmpty.waiting && t !in Members(s.notFull)
    ensures Inv(Receives(s, t).0)
  {
    if s.queue != [] {
      PopsKeeps(s, t);
      hide Pops, Inv;
    } else if !s.closed {
      ParkReceiverKeeps(s, t);
      hide Slept, Inv;
    } else {
      ResumedCovers(s.notEmpty, t, 0);
      hide Members, Ok, Items;
      ParkedShrinks(s, Receives(s, t).0);
      hide ParkedOk;
    }
  }

  lemma ClosesKeeps(s: State)
    requires Inv(s)
    ensures Inv(Closes(s))
  {
    WokeAllOk(s.notEmpty);
    WokeAllOk(s.notFull);
    hide WokeAll, Members, Ok, Items;
  }

  lemma ClearsKeeps(s: State)
    requires Inv(s)
    ensures Inv(Clears(s))
  {
    ItemsAppend(s.dealt, Clearings(s.queue));
    assert Items(Clearings(s.queue)) == s.queue;
    WokeAllOk(s.notFull);
    hide WokeAll, Members, Ok, Items, Clearings;
  }

  lemma InterruptReceiver(s: State, t: Task)
    requires Inv(s) && t in Members(s.notEmpty)
    ensures Inv(s.(notEmpty := Interrupted(s.notEmpty, t)))
  {
    InterruptedCovers(s.notEmpty, t, |s.queue|);
    hide Interrupted, Members, Ok, Items, Covers;
    ParkedShrinks(s, s.(notEmpty := Interrupted(s.notEmpty, t)));
    hide ParkedOk;
  }

  lemma InterruptSender(s: State, t: Task)
    requires Inv(s) && t in Members(s.notFull) && t !in Members(s.notEmpty)
    ensures Inv(s.(notFull := Interrupted(s.notFull, t), jobs := s.jobs - {t}))
  {
    var n := if s.cap > 1 then s.cap - |s.queue| else 0;
    assert Covers(s.notFull, n);
    InterruptedCovers(s.notFull, t, n);
    hide Interrupted, Members, Ok, Items, Covers;
    ParkedShrinks(s, s.(notFull := Interrupted(s.notFull, t), jobs := s.jobs - {t}));
    hide ParkedOk;
  }

  lemma IdleSendKeeps(s: State, t: Task, x: Item)
    requires Inv(s) && Idle(s, t)
    ensures Inv(Sends(s, t, x, |s.queue|).0)
  {
    SendsKeeps(s, t, x, |s.queue|);
  }

  lemma IdleRecvKeeps(s: State, t: Task)
    requires Inv(s) && Idle(s, t)
    ensures Inv(Receives(s, t).0)
  {
    ReceivesKeeps(s, t);
  }

  lemma ResumeSendKeeps(s: State, t: Task)
    requires Inv(s) && t in s.notFull.awake && t in s.jobs
    ensures s.jobs[t].Pending? ==> Inv(Sends(s, t, s.jobs[t].item, s.jobs[t].seen).0)
    ensures s.jobs[t].Delivered? ==> Inv(Awaits(s, t, s.jobs[t].index, s.jobs[t].seen).0)
  {
    hide FifoOk, ReceiversOk, SendersOk, Sends, Awaits;
    if s.jobs[t].Pending? {
      SendsKeeps(s, t, s.jobs[t].item, s.jobs[t].seen);
    } else {
      AwaitsKeeps(s, t, s.jobs[t].index, s.jobs[t].seen);
    }
  }

  lemma ResumeRecvKeeps(s: State, t: Task)
    requires Inv(s) && t in s.notEmpty.awake
    ensures Inv(Receives(s, t).0)
  {
    hide FifoOk, ReceiversOk, SendersOk, Receives;
    ReceivesKeeps(s, t);
  }

  lemma InterruptKeeps(s: State, t: Task)
    requires Inv(s)
    ensures Inv(Step(s, Interrupt(t)).0)
  {
    hide FifoOk, ReceiversOk, SendersOk, Interrupted, Members, Ok;
    if t in Members(s.notEmpty) { InterruptReceiver(s, t); } else if t in Members(s.notFull) { InterruptSender(s, t); }
  }

  lemma StepKeeps(s: State, a: Action)
    requires Inv(s)
    ensures Inv(Step(s, a).0)
  {
    hide Inv, Sends, Awaits, Receives, Closes, Clears, Idle;
    match a
    case Send(t, x) => if Idle(s, t) { IdleSendKeeps(s, t, x); }
    case Recv(t) => if Idle(s, t) { IdleRecvKeeps(s, t); }
    case Close => ClosesKeeps(s);
    case Clear => ClearsKeeps(s);
    case ResumeSend(t) => if t in s.notFull.awake && t in s.jobs { ResumeSendKeeps(s, t); }
    case ResumeRecv(t) => if t in s.notEmpty.awake { ResumeRecvKeeps(s, t); }
    case Interrupt(t) => InterruptKeeps(s, t);
  }

  lemma {:induction false} RunKeeps(s: State, acts: seq<Action>)
    requires Inv(s)
    ensures Inv(Run(s, acts))
    decreases |acts|
  {
    hide Inv, Step;
    if acts != [] {
      StepKeeps(s, acts[0]);
      RunKeeps(Step(s, acts[0]).0, acts[1..]);
    }
  }

  lemma Reachable(cap: nat, acts: seq<Action>)
    requires cap >= 1
    ensures Inv(Run(Init(cap), acts))
  {
    RunKeeps(Init(cap), acts);
  }

  /** In every run, with interrupts anywhere: when a receiver is queued, there are woken receivers for
      all items; when a sender is queued, there are woken senders for all free slots (capacity above 1)
      or there is no free slot (capacity 1); and nobody is queued on a closed channel. */
  lemma NoLostWakeup(cap: nat, acts: seq<Action>)
    requires cap >= 1
    ensures var s := Run(Init(cap), acts);
      && (s.notEmpty.waiting != [] ==> |s.queue| <= |s.notEmpty.awake|)
      && (s.notFull.waiting != [] && s.cap > 1 ==> s.cap - |s.queue| <= |s.notFull.awake|)
      && (s.notFull.waiting != [] && s.cap == 1 ==> |s.queue| == 1)
      && (s.closed ==> s.notEmpty.waiting == [] && s.notFull.waiting == [])
  {
    Reachable(cap, acts);
  }

  /** Once every woken task has run, whoever is still parked has a reason to be: receivers an empty
      queue, senders a full one, and both an open channel. */
  lemma NobodyStuck(cap: nat, acts: seq<Action>)
    requires cap >= 1
    ensures var s := Run(Init(cap), acts);
      && (s.notEmpty.awake == {} && s.notEmpty.waiting != [] ==> s.queue == [] && !s.closed)
      && (s.notFull.awake == {} && s.notFull.waiting != [] ==> |s.queue| == s.cap && !s.closed)
  {
    Reachable(cap, acts);
  }

  lemma {:induction false} RunCap(s: State, acts: seq<Action>)
    ensures Run(s, acts).cap == s.cap
    decreases |acts|
  {
    if acts != [] { RunCap(Step(s, acts[0]).0, acts[1..]); }
  }

  lemma StepReceives(s: State, a: Action)
    requires FifoOk(s) && ((a.Recv? && Idle(s, a.t)) || (a.ResumeRecv? && a.t in s.notEmpty.awake))
    ensures var (r, o) := Step(s, a);
      && |s.dealt| <= |s.accepted|
      && (|s.dealt| < |s.accepted| ==> o == Got(s.accepted[|s.dealt|]) && r.dealt == s.dealt + [Received(s.accepted[|s.dealt|], a.t)])
      && (|s.dealt| == |s.accepted| ==> o == (if s.closed then ClosedError else Parked) && r.dealt == s.dealt)
  {
    hide WokeOne, WokeAll, Slept, Resumed, Members;
  }

  /** After close() nothing is accepted any more, whatever happens. */
  lemma {:induction false} NothingAfterClose(s: State, acts: seq<Action>)
    requires s.closed
    ensures Run(s, acts).closed && Run(s, acts).accepted == s.accepted
    decreases |acts|
  {
    if acts != [] {
      assert Step(s, acts[0]).0.closed && Step(s, acts[0]).0.accepted == s.accepted;
      NothingAfterClose(Step(s, acts[0]).0, acts[1..]);
    }
  }

  lemma StepDeals(s: State, a: Action)
    ensures s.dealt <= Step(s, a).0.dealt
    ensures a != Clear ==> forall i | |s.dealt| <= i < |Step(s, a).0.dealt| :: Step(s, a).0.dealt[i].Received?
  {
    hide WokeOne, WokeAll, Slept, Resumed, Interrupted, Members, Clearings;
  }

  /** Fates are final, and without clear() an item leaves the queue only to a receiver. */
  lemma {:induction false} RunDeals(s: State, acts: seq<Action>)
    ensures s.dealt <= Run(s, acts).dealt
    ensures Clear !in acts ==> forall i | |s.dealt| <= i < |Run(s, acts).dealt| :: Run(s, acts).dealt[i].Received?
    decreases |acts|
  {
    hide Step;
    if acts != [] {
      var r := Step(s, acts[0]).0;
      StepDeals(s, acts[0]);
      RunDeals(r, acts[1..]);
    }
  }

  lemma {:induction false} RunAppend(s: State, a: seq<Action>, b: seq<Action>)
    ensures Run(s, a + b) == Run(Run(s, a), b)
    decreases |a|
  {
    hide Step;
    if a == [] {
      assert a + b == b;
    } else {
      assert (a + b)[0] == a[0] && (a + b)[1..] == a[1..] + b;
      RunAppend(Step(s, a[0]).0, a[1..], b);
    }
  }

  lemma SendsWhen(s: State, t: Task)
    requires Inv(s) && s.cap == 1 && t in s.notFull.awake
    ensures var o := Step(s, ResumeSend(t)).1;
      && t in s.jobs
      && (o.Sent? <==> s.jobs[t].Delivered? && (s.closed || s.queue == []))
      && (o.Sent? && !s.closed ==>
            var i := s.jobs[t].index; i < |s.dealt| <= |s.accepted| && s.dealt[i].item == s.accepted[i])
  {
  }

  /** With capacity 1 a sender that queued its item returns, once it runs again, exactly if the
      channel is closed or the queue is empty just then. On an open channel its item was then received
      or cleared, and received if nothing was cleared since some moment at which it had not left. */
  lemma SynchronousSend(before: seq<Action>, after: seq<Action>, t: Task)
    requires t in Run(Init(1), before + after).notFull.awake
    ensures var s := Run(Init(1), before + after);
      var o := Step(s, ResumeSend(t)).1;
      && t in s.jobs
      && (o.Sent? <==> s.jobs[t].Delivered? && (s.closed || s.queue == []))
      && (o.Sent? && !s.closed ==>
            var i := s.jobs[t].index;
            && i < |s.dealt| <= |s.accepted| && s.dealt[i].item == s.accepted[i]
            && (Clear !in after && |Run(Init(1), before).dealt| <= i ==> s.dealt[i].Received?))
  {
    hide Run, Inv, Step;
    Reachable(1, before + after);
    RunCap(Init(1), before + after);
    SendsWhen(Run(Init(1), before + after), t);
    RunAppend(Init(1), before, after);
    RunDeals(Run(Init(1), before), after);
  }

  /** A cleared item lets its sender return although nobody received it. */
  lemma ClearedNotReceived(a: Task, x: Item)
    ensures var s := Run(Init(1), [Send(a, x), Clear]);
      && !s.closed && s.dealt == [Cleared(x)] && a in s.notFull.awake && Step(s, ResumeSend(a)).1 == Sent(0)
  {
    var s := Clears(Offered(a, x));
    assert Clearings([x]) == [Cleared(x)] && [] + [Cleared(x)] == [Cleared(x)];
    assert !s.closed && s.dealt == [Cleared(x)] && a in s.notFull.awake && Step(s, ResumeSend(a)).1 == Sent(0);
    hide Step, Offered, Clears;
    OfferedFirst(a, x);
    RunOne(Init(1), Send(a, x));
    RunSnoc(Init(1), [Send(a, x)], Clear);
    assert Step(Offered(a, x), Clear).0 == Clears(Offered(a, x)) by { ClearStep(Offered(a, x)); }
    assert [Send(a, x)] + [Clear] == [Send(a, x), Clear];
  }

  lemma ClearStep(s: State)
    ensures Step(s, Clear).0 == Clears(s)
  {
  }

  /** A channel of capacity 1 holding x, whose sender a waits for it to be taken. */
  function Offered(a: Task, x: Item): State {
    State(1, [x], false, Queue([], {}), Queue([a], {}), map[a := Delivered(0, 0)], [x], [])
  }

  /** And after b took it. */
  function Taken(a: Task, b: Task, x: Item): State {
    State(1, [], false, Queue([], {}), Queue([], {a}), map[a := Delivered(0, 0)], [x], [Received(x, b)])
  }

  lemma OfferedFirst(a: Task, x: Item)
    ensures Step(Init(1), Send(a, x)).0 == Offered(a, x)
  {
  }

  lemma TakenNext(a: Task, b: Task, x: Item)
    requires a != b
    ensures Step(Offered(a, x), Recv(b)).0 == Taken(a, b, x)
  {
    assert [x][1..] == [];
  }

  lemma OfferedAgain(a: Task, b: Task, x: Item, c: Task, y: Item)
    requires a != c
    ensures var s := Step(Taken(a, b, x), Send(c, y)).0;
      && s.queue == [y] && a in s.notFull.awake && a in s.jobs && s.jobs[a] == Delivered(0, 0) && s.dealt == [Received(x, b)]
      && Step(s, ResumeSend(a)).1 == Parked
  {
  }

  /** It may have to wait on although its item was taken: another sender was faster. */
  lemma TakenButParked(a: Task, b: Task, c: Task, x: Item, y: Item)
    requires a != b && a != c
    ensures var s := Run(Init(1), [Send(a, x), Recv(b), Send(c, y)]);
      && a in s.notFull.awake && a in s.jobs && s.jobs[a] == Delivered(0, 0) && s.dealt == [Received(x, b)]
      && Step(s, ResumeSend(a)).1 == Parked
  {
    hide Step, Offered, Taken;
    OfferedFirst(a, x);
    TakenNext(a, b, x);
    OfferedAgain(a, b, x, c, y);
    RunOne(Init(1), Send(a, x));
    RunSnoc(Init(1), [Send(a, x)], Recv(b));
    RunSnoc(Init(1), [Send(a, x)] + [Recv(b)], Send(c, y));
    assert [Send(a, x)] + [Recv(b)] + [Send(c, y)] == [Send(a, x), Recv(b), Send(c, y)];
  }

  lemma RunOne(s: State, a: Action)
    ensures Run(s, [a]) == Step(s, a).0
  {
    hide Step;
    assert [a][1..] == [];
    assert Run(Step(s, a).0, []) == Step(s, a).0;
  }

  lemma {:induction false} RunSnoc(s: State, acts: seq<Action>, a: Action)
    ensures Run(s, acts + [a]) == Step(Run(s, acts), a).0
    decreases |acts|
  {
    hide Step;
    if acts == [] {
      assert acts + [a] == [a];
      RunOne(s, a);
    } else {
      assert (acts + [a])[0] == acts[0] && (acts + [a])[1..] == acts[1..] + [a];
      RunSnoc(Step(s, acts[0]).0, acts[1..], a);
    }
  }

  /** The size of the queue when t last called send(). */
  function EntrySize(s: State, acts: seq<Action>, t: Task): nat
    decreases |acts|
  {
    if acts == [] then 0
    else
      var n := |acts| - 1;
      var before := Run(s, acts[..n]);
      if acts[n].Send? && acts[n].t == t && Idle(before, t) then |before.queue| else EntrySize(s, acts[..n], t)
  }

  lemma StepSeen(s: State, a: Action, t: Task)
    requires ParkedOk(s)
    ensures var (r, o) := Step(s, a);
      var called := a.Send? && a.t == t && Idle(s, t);
      && (t in r.jobs ==> if called then r.jobs[t].seen == |s.queue| else t in s.jobs && r.jobs[t].seen == s.jobs[t].seen)
      && (o.Sent? && (a == ResumeSend(t) || called) ==> if called then o.seen == |s.queue| else t in s.jobs && o.seen == s.jobs[t].seen)
  {
    hide WokeOne, WokeAll, Slept, Resumed, Interrupted, Members;
  }

  /** In every run a parked sender remembers the size of the queue at its call. */
  lemma {:induction false} JobSeen(cap: nat, acts: seq<Action>, t: Task)
    requires cap >= 1
    ensures var s := Run(Init(cap), acts); t in s.jobs ==> s.jobs[t].seen == EntrySize(Init(cap), acts, t)
    decreases |acts|
  {
    hide Step, Idle, Inv;
    if acts != [] {
      var n := |acts| - 1;
      var s := Run(Init(cap), acts[..n]);
      assert acts == acts[..n] + [acts[n]];
      JobSeen(cap, acts[..n], t);
      ReachableParked(cap, acts[..n]);
      StepSeen(s, acts[n], t);
      RunSnoc(Init(cap), acts[..n], acts[n]);
    }
  }

  lemma ReachableParked(cap: nat, acts: seq<Action>)
    requires cap >= 1
    ensures ParkedOk(Run(Init(cap), acts))
  {
    Reachable(cap, acts);
  }

  /** What send() returns, right away or after any number of sleeps, is the size of the queue when it
      was called. */
  lemma SendReturns(cap: nat, acts: seq<Action>, a: Action)
    requires cap >= 1 && (a.Send? || a.ResumeSend?)
    ensures var o := Step(Run(Init(cap), acts), a).1;
      o.Sent? ==> o.seen == EntrySize(Init(cap), acts + [a], a.t)
  {
    hide Step, Idle, Inv, Run;
    JobSeen(cap, acts, a.t);
    ReachableParked(cap, acts);
    StepSeen(Run(Init(cap), acts), a, a.t);
    IgnoredSend(Run(Init(cap), acts), a);
    assert (acts + [a])[..|acts|] == acts;
  }

  lemma IgnoredSend(s: State, a: Action)
    ensures a.Send? && !Idle(s, a.t) ==> Step(s, a).1 == Ignored
  {
  }

  // ---- which items are queued, read from the calls ----

  /** What t last called send() with. */
  function LastItem(s: State, acts: seq<Action>, t: Task): Option<Item>
    decreases |acts|
  {
    if acts == [] then None
    else
      var n := |acts| - 1;
      if acts[n].Send? && acts[n].t == t && Idle(Run(s, acts[..n]), t) then Some(acts[n].item) else LastItem(s, acts[..n], t)
  }

  /** t is parked in send() and has yet to queue its item. */
  predicate Unsent(s: State, t: Task) { t in s.notFull.awake && t in s.jobs && s.jobs[t].Pending? }

  predicate Open(s: State) { !s.closed && |s.queue| < s.cap }

  /** The items that got in, in order: those of calls of send() that found the channel open and not
      full, at once or when they were woken. */
  function Entered(s: State, acts: seq<Action>): seq<Item>
    decreases |acts|
  {
    if acts == [] then []
    else
      var n := |acts| - 1;
      var a, before := acts[n], Run(s, acts[..n]);
      Entered(s, acts[..n]) +
      if a.Send? && Idle(before, a.t) && Open(before) then [a.item]
      else if a.ResumeSend? && Unsent(before, a.t) && Open(before) && LastItem(s, acts[..n], a.t).Some?
      then [LastItem(s, acts[..n], a.t).value]
      else []
  }

  lemma StepItem(s: State, a: Action, t: Task)
    requires ParkedOk(s)
    ensures var r := Step(s, a).0;
      var called := a.Send? && a.t == t && Idle(s, t);
      && (t in r.jobs && r.jobs[t].Pending? ==>
            if called then r.jobs[t].item == a.item else t in s.jobs && s.jobs[t].Pending? && r.jobs[t].item == s.jobs[t].item)
  {
    hide WokeOne, WokeAll, Slept, Resumed, Interrupted, Members;
  }

  /** In every run a sender that has yet to queue its item remembers the one it was called with. */
  lemma {:induction false} JobItem(cap: nat, acts: seq<Action>, t: Task)
    requires cap >= 1
    ensures var s := Run(Init(cap), acts);
      t in s.jobs && s.jobs[t].Pending? ==> LastItem(Init(cap), acts, t) == Some(s.jobs[t].item)
    decreases |acts|
  {
    hide Step, Idle, Inv;
    if acts != [] {
      var n := |acts| - 1;
      assert acts == acts[..n] + [acts[n]];
      JobItem(cap, acts[..n], t);
      ReachableParked(cap, acts[..n]);
      StepItem(Run(Init(cap), acts[..n]), acts[n], t);
      RunSnoc(Init(cap), acts[..n], acts[n]);
    }
  }

  lemma StepAccepts(s: State, a: Action)
    ensures Step(s, a).0.accepted == s.accepted +
      if a.Send? && Idle(s, a.t) && Open(s) then [a.item]
      else if a.ResumeSend? && Unsent(s, a.t) && Open(s) then [s.jobs[a.t].item]
      else []
  {
    hide WokeOne, WokeAll, Slept, Resumed, Interrupted, Members, Idle;
    assert s.accepted + [] == s.accepted;
  }

  lemma {:induction false} AcceptedAreEntered(cap: nat, acts: seq<Action>)
    requires cap >= 1
    ensures Run(Init(cap), acts).accepted == Entered(Init(cap), acts)
    decreases |acts|
  {
    hide Step, Idle, Inv, LastItem;
    if acts != [] {
      var n := |acts| - 1;
      assert acts == acts[..n] + [acts[n]];
      var s := Run(Init(cap), acts[..n]);
      AcceptedAreEntered(cap, acts[..n]);
      StepAccepts(s, acts[n]);
      if acts[n].ResumeSend? { JobItem(cap, acts[..n], acts[n].t); }
      RunSnoc(Init(cap), acts[..n], acts[n]);
    }
  }

  /** In every run the items that left the queue, received or cleared, followed by those in it are
      exactly the items that got in, in order, and the queue is within its capacity. */
  lemma BoundedFifo(cap: nat, acts: seq<Action>)
    requires cap >= 1
    ensures var s := Run(Init(cap), acts); Items(s.dealt) + s.queue == Entered(Init(cap), acts) && |s.queue| <= cap
  {
    hide Run, Entered;
    Reachable(cap, acts);
    RunCap(Init(cap), acts);
    AcceptedAreEntered(cap, acts);
  }

  /** What a receiver gets is the first item that got in and had not left; it is told that the channel
      is closed exactly if that is so and none is left, and parks exactly if none is left and it is
      not. */
  lemma ReceivesNext(cap: nat, acts: seq<Action>, a: Action)
    requires cap >= 1
    requires var s := Run(Init(cap), acts); (a.Recv? && Idle(s, a.t)) || (a.ResumeRecv? && a.t in s.notEmpty.awake)
    ensures var s, all := Run(Init(cap), acts), Entered(Init(cap), acts);
      var (r, o) := Step(s, a);
      && |s.dealt| <= |all|
      && (|s.dealt| < |all| ==> o == Got(all[|s.dealt|]) && r.dealt == s.dealt + [Received(all[|s.dealt|], a.t)])
      && (|s.dealt| == |all| ==> o == (if s.closed then ClosedError else Parked) && r.dealt == s.dealt)
  {
    Reachable(cap, acts);
    AcceptedAreEntered(cap, acts);
    StepReceives(Run(Init(cap), acts), a);
    hide Run, Step, Inv, Entered;
  }

  /** What a call of send() comes to. */
  lemma SendOutcome(s: State, t: Task, x: Item)
    requires Idle(s, t) && s.cap >= 1
    ensures var (r, o) := Step(s, Send(t, x));
      if s.closed then o == ClosedError && r.queue == s.queue
      else if |s.queue| >= s.cap then o == Parked && r.queue == s.queue && t in r.jobs && r.jobs[t] == Pending(x, |s.queue|)
      else r.queue == s.queue + [x] && if s.cap > 1 then o == Sent(|s.queue|) else o == Parked && t in r.jobs && r.jobs[t].Delivered?
  {
    hide WokeOne, Slept, Resumed;
  }

  /** A send() that returned has its item among those that got in. */
  lemma SentGotIn(cap: nat, acts: seq<Action>, a: Action)
    requires cap >= 1 && (a.Send? || a.ResumeSend?) && Step(Run(Init(cap), acts), a).1.Sent?
    ensures var all := acts + [a];
      LastItem(Init(cap), all, a.t).Some? && LastItem(Init(cap), all, a.t).value in Entered(Init(cap), all)
  {
    hide Run, Step, Idle, Entered;
    var s := Run(Init(cap), acts);
    DeliveredItem(cap, acts, a.t);
    JobItem(cap, acts, a.t);
    ReachableParked(cap, acts);
    SentWhy(s, a);
    StepAccepts(s, a);
    RunSnoc(Init(cap), acts, a);
    AcceptedAreEntered(cap, acts + [a]);
    assert (acts + [a])[..|acts|] == acts;
  }

  lemma SentWhy(s: State, a: Action)
    requires ParkedOk(s) && (a.Send? || a.ResumeSend?) && Step(s, a).1.Sent?
    ensures if a.Send? then Idle(s, a.t) && Open(s)
      else a.t in s.jobs && (s.jobs[a.t].Pending? ==> Unsent(s, a.t) && Open(s))
  {
    hide WokeOne, Slept, Resumed, Members;
  }

  lemma StepDelivered(s: State, a: Action, t: Task)
    requires ParkedOk(s)
    ensures var r := Step(s, a).0;
      t in r.jobs && r.jobs[t].Delivered? ==>
        || (r.jobs[t].index == |s.accepted| && ((a.Send? && a.t == t && Idle(s, t) && Open(s)) || (a == ResumeSend(t) && Unsent(s, t) && Open(s))))
        || (t in s.jobs && s.jobs[t].Delivered? && r.jobs[t].index == s.jobs[t].index && !(a.Send? && a.t == t && Idle(s, t)))
  {
    hide WokeOne, WokeAll, Slept, Resumed, Interrupted, Members;
  }

  lemma {:induction false} DeliveredItem(cap: nat, acts: seq<Action>, t: Task)
    requires cap >= 1
    ensures var s := Run(Init(cap), acts);
      t in s.jobs && s.jobs[t].Delivered? ==>
        s.jobs[t].index < |s.accepted| && LastItem(Init(cap), acts, t) == Some(s.accepted[s.jobs[t].index])
    decreases |acts|
  {
    hide Step, Idle, Inv;
    if acts != [] {
      var n := |acts| - 1;
      assert acts == acts[..n] + [acts[n]];
      var s := Run(Init(cap), acts[..n]);
      DeliveredItem(cap, acts[..n], t);
      JobItem(cap, acts[..n], t);
      ReachableParked(cap, acts[..n]);
      StepDelivered(s, acts[n], t);
      StepAccepts(s, acts[n]);
      RunSnoc(Init(cap), acts[..n], acts[n]);
    }
  }

  // ---- closing and interrupting ----

  lemma StepCloses(s: State, a: Action)
    ensures Step(s, a).0.closed <==> s.closed || a == Close
  {
    hide WokeOne, WokeAll, Slept, Resumed, Interrupted, Members, Idle;
  }

  /** A channel is closed from the first close() on, and not before. */
  lemma {:induction false} ClosedIff(s: State, acts: seq<Action>)
    ensures Run(s, acts).closed <==> s.closed || Close in acts
    decreases |acts|
  {
    hide Step;
    if acts != [] {
      StepCloses(s, acts[0]);
      ClosedIff(Step(s, acts[0]).0, acts[1..]);
      assert acts == [acts[0]] + acts[1..];
    }
  }

  /** close() leaves nobody asleep and drops no item. */
  lemma CloseWakes(s: State)
    ensures var r := Step(s, Close).0;
      && r.notEmpty.waiting == [] && r.notFull.waiting == [] && r.queue == s.queue && r.jobs == s.jobs
      && Members(r.notEmpty) == Members(s.notEmpty) && Members(r.notFull) == Members(s.notFull)
  {
  }

  /** A task interrupted in send() or recv() leaves it and the queue as it is, and stays in neither line;
      an item it has yet to queue never gets in. */
  lemma InterruptLeaves(cap: nat, acts: seq<Action>, t: Task)
    requires cap >= 1
    requires var s := Run(Init(cap), acts); t in Members(s.notEmpty) || t in Members(s.notFull)
    ensures var s := Run(Init(cap), acts); var (r, o) := Step(s, Interrupt(t));
      o == Thrown && Idle(r, t) && t !in r.jobs && r.queue == s.queue && Entered(Init(cap), acts + [Interrupt(t)]) == Entered(Init(cap), acts)
  {
    hide Run, Entered;
    var s := Run(Init(cap), acts);
    Reachable(cap, acts);
    InterruptIdle(s, t);
    hide Step, Inv;
    RunSnoc(Init(cap), acts, Interrupt(t));
    AcceptedAreEntered(cap, acts);
    AcceptedAreEntered(cap, acts + [Interrupt(t)]);
  }

  lemma InterruptIdle(s: State, t: Task)
    requires Inv(s) && (t in Members(s.notEmpty) || t in Members(s.notFull))
    ensures var (r, o) := Step(s, Interrupt(t));
      o == Thrown && Idle(r, t) && t !in r.jobs && r.queue == s.queue && r.accepted == s.accepted
  {
    hide FifoOk, ReceiversOk, SendersOk, Interrupted, Members, Ok;
    var q := if t in Members(s.notEmpty) then s.notEmpty else s.notFull;
    assert Covers(q, 0);
    InterruptedCovers(q, t, 0);
  }

  // ---- the channel as an object ----

  /** Each method is one critical section of the channel's lock, by the current task t. */
  class ChannelImpl {
    const cap: nat
    var queue: seq<Item>
    var closed: bool
    const notEmpty: RendezQueue
    const notFull: RendezQueue
    ghost var jobs: map<Task, Job>
    ghost var accepted: seq<Item>
    ghost var dealt: seq<Fate>

    ghost function View(): State
      reads this, notEmpty, notFull
    {
      State(cap, queue, closed, notEmpty.View(), notFull.View(), jobs, accepted, dealt)
    }

    constructor (capacity: nat)
      requires capacity >= 1
      ensures View() == Init(capacity) && notEmpty != notFull && fresh(notEmpty) && fresh(notFull)
    {
      cap := capacity;
      queue := [];
      closed := false;
      notEmpty := new RendezQueue();
      notFull := new RendezQueue();
      jobs := map[];
      accepted := [];
      dealt := [];
    }

    /** send() from its start. */
    method Send(t: Task, x: Item) returns (o: Outcome)
      requires notEmpty != notFull && t !in notFull.waiting
      modifies this, notEmpty, notFull
      ensures (View(), o) == Sends(old(View()), t, x, |old(View()).queue|)
    {
      o := AwaitRoom(t, x, |queue|);
    }

    /** send() from its first loop. */
    method AwaitRoom(t: Task, x: Item, ret: nat) returns (o: Outcome)
      requires notEmpty != notFull && t !in notFull.waiting
      modifies this, notEmpty, notFull
      ensures (View(), o) == Sends(old(View()), t, x, ret)
    {
      if |queue| >= cap && !closed {
        notFull.Sleep(t);
        jobs := jobs[t := Pending(x, ret)];
        return Parked;
      }
      if closed {
        notFull.Resume(t);
        jobs := jobs - {t};
        return ClosedError;
      }
      ghost var index := |accepted|;
      queue := queue + [x];
      accepted := accepted + [x];
      var _ := notEmpty.Wakeup();
      if cap == 1 {
        o := AwaitTaken(t, index, ret);
      } else {
        notFull.Resume(t);
        jobs := jobs - {t};
        o := Sent(ret);
      }
    }

    /** send() from its second loop. */
    method AwaitTaken(t: Task, ghost index: nat, ret: nat) returns (o: Outcome)
      requires notEmpty != notFull && t !in notFull.waiting
      modifies this, notFull
      ensures (View(), o) == Awaits(old(View()), t, index, ret)
    {
      if |queue| >= cap && !closed {
        notFull.Sleep(t);
        jobs := jobs[t := Delivered(index, ret)];
        return Parked;
      }
      notFull.Resume(t);
      jobs := jobs - {t};
      return Sent(ret);
    }

    /** recv() from its loop. */
    method Recv(t: Task) returns (o: Outcome)
      requires notEmpty != notFull && t !in notEmpty.waiting
      modifies this, notEmpty, notFull
      ensures (View(), o) == Receives(old(View()), t)
    {
      if queue == [] && !closed {
        notEmpty.Sleep(t);
        return Parked;
      }
      notEmpty.Resume(t);
      if queue == [] {
        return ClosedError;
      }
      o := Got(queue[0]);
      dealt := dealt + [Received(queue[0], t)];
      queue := queue[1..];
      if cap == 1 {
        var _ := notFull.WakeupAll();
      } else {
        var _ := notFull.Wakeup();
      }
    }

    method Close()
      requires notEmpty != notFull
      modifies this, notEmpty, notFull
      ensures View() == Closes(old(View()))
    {
      closed := true;
      var _ := notEmpty.WakeupAll();
      var _ := notFull.WakeupAll();
    }

    method Clear()
      requires notEmpty != notFull
      modifies this, notFull
      ensures View() == Clears(old(View()))
    {
      while queue != []
        invariant closed == old(closed) && jobs == old(jobs) && accepted == old(accepted)
        invariant notEmpty.View() == old(notEmpty.View()) && notFull.View() == old(notFull.View())
        invariant |queue| <= |old(queue)| && queue == old(queue)[|old(queue)| - |queue|..]
        invariant dealt == old(dealt) + Clearings(old(queue)[..|old(queue)| - |queue|])
        decreases |queue|
      {
        dealt := dealt + [Cleared(queue[0])];
        queue := queue[1..];
      }
      assert old(queue)[..|old(queue)|] == old(queue);
      var _ := notFull.WakeupAll();
    }
  }
}
