/** The ready protocol of a scheduler, as an interleaving step system.

    One thread, the home thread, runs the scheduler and its tasks; any number of other threads make
    tasks ready. Every atomic exchange, queue operation, lock and notification is a step of its own,
    so a run is any order in which the two sides can interleave. */
module Scheduler {

  import opened Wrappers
  import opened Tasks

  /** What the home thread was doing when it took a task to queue. */
  datatype Errand = Readying(cur: Task, front: bool) | Stopping | Draining | Firing | Moving | Polled | Hunting(leaver: Task)

  /** Where the home thread is. */
  datatype Home =
    | Running(cur: Task)                 // in the code of a task
    | Carrying(t: Task, errand: Errand)  // holds a task it has yet to put in the ready queue
    | Top                                // schedule(): shutting down, moving the dirty queue over
    | Timers                             // schedule(): readying tasks whose alarm fired
    | Locking                            // about to take the mutex
    | Locked                             // wait(): moving the dirty queue over, mutex held
    | Checked                            // both queues seen empty, mutex held
    | Polling | PollEvents               // in epoll, and handling what it returned
    | Sleeping                           // blocked on the condition variable
    | Woken                              // out of the wait, to take the mutex again
    | Picking | Popped(t: Task)          // taking the next task, its flag still set
    | Leaving(t: Task)                   // remove_task(): looking for t's queue entry

  /** Who holds the mutex; a waking thread first takes it, then looks whether epoll is in use. */
  datatype Mutex = Free | ByHome | ByWaker(saw: Option<bool>)

  /** `flags` are those whose ready flag is set. The threads making tasks ready are anonymous:
      `inflight` holds those whose flag they set but which they have yet to queue, `pushed`
      counts those that queued and have yet to take the mutex. */
  datatype State = State(
    flags: set<Task>, readyq: seq<Task>, dirtyq: seq<Task>, inflight: multiset<Task>, pushed: nat,
    mutex: Mutex, io: bool, eventfd: bool, home: Home, live: set<Task>, gone: set<Task>)

  datatype Action =
    | Attach(t: Task) | MakeIo
    | OtherReady(t: Task) | OtherPush(t: Task) | OtherWakeup | OtherLock | OtherLook | OtherNotify
    | HomeReady(t: Task, front: bool) | Put
    | Schedule | DrainPop | DrainDone
    | TimerReady(t: Task) | TimersDone
    | TakeMutex | StartWait | PollReturn(read: bool) | PollDone | Timeout | Retake
    | Pick | ClearFlag
    | Exit | Erase

  /** A scheduler whose only task is the one of its thread, running. */
  function Init(os: Task): State {
    State({}, [], [], multiset{}, 0, Free, false, false, Running(os), {os}, {})
  }

  // ---- the other threads ----

  /** Sets t's flag; if it was clear, t is to be queued. */
  function OtherReadies(s: State, t: Task): State {
    if t in s.flags || t !in s.live then s
    else s.(flags := s.flags + {t}, inflight := s.inflight + multiset{t})
  }

  function OtherPushes(s: State, t: Task): State {
    if t !in s.inflight then s
    else s.(dirtyq := s.dirtyq + [t], inflight := s.inflight - multiset{t}, pushed := s.pushed + 1)
  }

  function OtherLocks(s: State): State {
    if s.pushed > 0 && s.mutex.Free? then s.(pushed := s.pushed - 1, mutex := ByWaker(None)) else s
  }

  function OtherLooks(s: State): State {
    if s.mutex == ByWaker(None) then s.(mutex := ByWaker(Some(s.io))) else s
  }

  /** Writes the event descriptor or notifies the condition variable, then unlocks. */
  function OtherNotifies(s: State): State {
    if !s.mutex.ByWaker? || s.mutex.saw.None? then s
    else if s.mutex.saw.value then s.(eventfd := true, mutex := Free)
    else if s.home.Sleeping? then s.(home := Woken, mutex := Free)
    else s.(mutex := Free)
  }

  // ---- the home thread in task code ----

  function Attaches(s: State, t: Task): State {
    if !s.home.Running? || t in s.live || t in s.gone then s else s.(live := s.live + {t})
  }

  function MakesIo(s: State): State { if s.home.Running? then s.(io := true) else s }

  /** exchange(true) on t's flag by the home thread, which goes on to queue t if it was clear. */
  function Exchange(s: State, t: Task, errand: Errand): State {
    if t in s.flags || t !in s.live then s else s.(flags := s.flags + {t}, home := Carrying(t, errand))
  }

  /** ready() by task code, or by schedule() when it starts to shut everything down. */
  function HomeReadies(s: State, t: Task, front: bool): State {
    if s.home.Running? then Exchange(s, t, Readying(s.home.cur, front))
    else if s.home.Top? then Exchange(s, t, Stopping)
    else s
  }

  /** Where the home thread goes on once what it carried is queued. */
  function Resume(e: Errand): Home {
    match e
    case Readying(cur, _) => Running(cur)
    case Stopping => Top
    case Draining => Top
    case Firing => Timers
    case Moving => Locked
    case Polled => PollEvents
    case Hunting(leaver) => Leaving(leaver)
  }

  /** Tasks from the dirty queue and tasks readied at the front go to the head, others to the tail. */
  predicate ToFront(e: Errand) {
    (e.Readying? && e.front) || e.Draining? || e.Moving? || e.Hunting?
  }

  function Puts(s: State): State {
    if !s.home.Carrying? then s
    else
      var t := s.home.t;
      s.(readyq := if ToFront(s.home.errand) then [t] + s.readyq else s.readyq + [t], home := Resume(s.home.errand))
  }

  function Schedules(s: State): State { if s.home.Running? then s.(home := Top) else s }

  /** remove_task: sets the flag for good; if it was set already, some queue entry has to go first. */
  function Exits(s: State): State {
    if !s.home.Running? then s
    else
      var t := s.home.cur;
      if t in s.flags then s.(home := Leaving(t))
      else s.(flags := s.flags + {t}, live := s.live - {t}, gone := s.gone + {t}, home := Top)
  }

  function Erases(s: State): State {
    if s.home.Leaving? && s.home.t in s.readyq then
      var t := s.home.t;
      s.(readyq := Without(s.readyq, t), live := s.live - {t}, gone := s.gone + {t}, home := Top)
    else s
  }

  // ---- the home thread moving the dirty queue to the ready queue ----

  function DrainPops(s: State): State {
    if s.dirtyq == [] then s
    else
      var r := s.(dirtyq := s.dirtyq[1..]);
      if s.home.Top? then r.(home := Carrying(s.dirtyq[0], Draining))
      else if s.home.Locked? then r.(home := Carrying(s.dirtyq[0], Moving))
      else if s.home.Leaving? && s.home.t !in s.readyq then r.(home := Carrying(s.dirtyq[0], Hunting(s.home.t)))
      else s
  }

  function DrainEnds(s: State): State {
    if s.dirtyq != [] then s
    else if s.home.Top? then s.(home := Timers)
    else if s.home.Locked? then
      if s.readyq == [] then s.(home := Checked) else s.(home := Picking, mutex := Free)
    else s
  }

  // ---- the home thread readying tasks, waiting, and taking the next task ----

  /** Readies a task whose alarm fired or whose file descriptor has an event. */
  function TimerReadies(s: State, t: Task): State {
    if s.home.Timers? then Exchange(s, t, Firing)
    else if s.home.PollEvents? then Exchange(s, t, Polled)
    else s
  }

  function TimersEnd(s: State): State {
    if s.home.Timers? then s.(home := if s.readyq == [] then Locking else Picking) else s
  }

  function TakesMutex(s: State): State {
    if s.home.Locking? && s.mutex.Free? then s.(home := Locked, mutex := ByHome) else s
  }

  function StartsWait(s: State): State {
    if s.home.Checked? then s.(mutex := Free, home := if s.io then Polling else Sleeping) else s
  }

  /** epoll returns, for whatever reason; it may have found, and read, the event descriptor. */
  function PollReturns(s: State, read: bool): State {
    if s.home.Polling? && (read ==> s.eventfd) then s.(eventfd := s.eventfd && !read, home := PollEvents) else s
  }

  function PollEnds(s: State): State { if s.home.PollEvents? then s.(home := Woken) else s }

  function TimesOut(s: State): State { if s.home.Sleeping? then s.(home := Woken) else s }

  function Retakes(s: State): State {
    if s.home.Woken? && s.mutex.Free? then s.(home := if s.readyq == [] then Top else Picking) else s
  }

  function Picks(s: State): State {
    if s.home.Picking? && s.readyq != [] then s.(home := Popped(s.readyq[0]), readyq := s.readyq[1..]) else s
  }

  function ClearsFlag(s: State): State {
    if s.home.Popped? then s.(flags := s.flags - {s.home.t}, home := Running(s.home.t)) else s
  }

  /** One step; an action that is not possible leaves the state as it is. */
  function Step(s: State, a: Action): State {
    match a
    case OtherReady(t) => OtherReadies(s, t)
    case OtherPush(t) => OtherPushes(s, t)
    case OtherWakeup => s.(pushed := s.pushed + 1)
    case OtherLock => OtherLocks(s)
    case OtherLook => OtherLooks(s)
    case OtherNotify => OtherNotifies(s)
    case Attach(t) => Attaches(s, t)
    case MakeIo => MakesIo(s)
    case HomeReady(t, front) => HomeReadies(s, t, front)
    case Put => Puts(s)
    case Schedule => Schedules(s)
    case Exit => Exits(s)
    case Erase => Erases(s)
    case DrainPop => DrainPops(s)
    case DrainDone => DrainEnds(s)
    case TimerReady(t) => TimerReadies(s, t)
    case TimersDone => TimersEnd(s)
    case TakeMutex => TakesMutex(s)
    case StartWait => StartsWait(s)
    case PollReturn(read) => PollReturns(s, read)
    case PollDone => PollEnds(s)
    case Timeout => TimesOut(s)
    case Retake => Retakes(s)
    case Pick => Picks(s)
    case ClearFlag => ClearsFlag(s)
  }

  function Run(s: State, acts: seq<Action>): State
    decreases |acts|
  {
    if acts == [] then s else Run(Step(s, acts[0]), acts[1..])
  }

  // ---- invariants ----

  /** Whether the home thread holds t in its hands, between two queues. */
  function InHand(h: Home, t: Task): nat { if h.Carrying? && h.t == t then 1 else 0 }

  /** How many queue entries t has or is about to have. */
  function Entries(s: State, t: Task): nat {
    Count(s.readyq, t) + Count(s.dirtyq, t) + s.inflight[t] + InHand(s.home, t)
  }

  /** The flag and the queues agree about t: exactly one entry if the flag is set and t is neither
      gone nor just being taken, and none otherwise. */
  predicate FlagOk(s: State, t: Task) {
    Entries(s, t) == if t in s.flags && t !in s.gone && s.home != Popped(t) then 1 else 0
  }

  ghost predicate FlagsMatch(s: State) { forall t :: FlagOk(s, t) }

  predicate SetsOk(s: State) { s.live !! s.gone && s.flags <= s.live + s.gone && s.gone <= s.flags }

  /** A task that runs, leaves or is taken is alive; the latter two have their flag set. */
  predicate HomeOk(s: State) {
    && (s.home.Running? ==> s.home.cur in s.live)
    && (s.home.Popped? || s.home.Leaving? ==> s.home.t in s.live && s.home.t in s.flags)
    && (s.home.Carrying? && s.home.errand.Readying? ==> s.home.errand.cur in s.live)
    && (s.home.Carrying? && s.home.errand.Hunting? ==> s.home.errand.leaver in s.live && s.home.errand.leaver in s.flags)
  }

  predicate TasksOk(s: State) { SetsOk(s) && HomeOk(s) }

  /** The home thread has seen the dirty queue empty and is committed to wait. */
  predicate Committed(h: Home) { h.Checked? || h.Polling? || h.Sleeping? }

  predicate HomeHolds(h: Home) { h.Locked? || h.Checked? || (h.Carrying? && h.errand.Moving?) }

  /** A thread is on its way to notify: it queued but has yet to take the mutex, or it holds it. */
  predicate WakerComing(s: State) { s.pushed > 0 || s.mutex.ByWaker? }

  ghost predicate WakeOk(s: State) {
    && (s.mutex.ByHome? <==> HomeHolds(s.home))
    && (s.home.Polling? ==> s.io)
    && (s.home.Sleeping? ==> !s.io)
    && (Committed(s.home) ==> s.readyq == [])
    && (s.home.Picking? ==> s.readyq != [])
    && (s.mutex.ByWaker? && s.mutex.saw.Some? && (s.home.Polling? || s.home.Sleeping?) ==> s.mutex.saw.value == s.io)
    && (Committed(s.home) && s.dirtyq != [] ==> WakerComing(s) || (s.home.Polling? && s.eventfd))
  }

  ghost predicate Inv(s: State) { FlagsMatch(s) && TasksOk(s) && WakeOk(s) }

  lemma InitOk(os: Task)
    ensures Inv(Init(os))
  {
  }

  /** r differs from s in nothing that the flags and queues are about. */
  predicate Quiet(s: State, r: State) {
    && r.readyq == s.readyq && r.dirtyq == s.dirtyq && r.inflight == s.inflight
    && r.flags == s.flags && r.gone == s.gone
    && (r.home == s.home || !(s.home.Carrying? || s.home.Popped? || r.home.Carrying? || r.home.Popped?))
  }

  lemma QuietFlags(s: State, r: State, t: Task)
    requires FlagOk(s, t) && Quiet(s, r)
    ensures FlagOk(r, t)
  {
    hide Count;
  }

  predicate MovesTasks(a: Action) {
    || a.OtherReady? || a.OtherPush? || a.HomeReady? || a.TimerReady? || a.Put? || a.Exit? || a.Erase?
    || a.DrainPop? || a.Pick? || a.ClearFlag?
  }

  lemma OthersQuiet(s: State, a: Action)
    requires !MovesTasks(a)
    ensures Quiet(s, Step(s, a))
  {
  }

  lemma OtherFlags(s: State, u: Task, t: Task)
    requires FlagOk(s, t) && TasksOk(s)
    ensures FlagOk(OtherReadies(s, u), t)
  {
    hide Count;
  }

  lemma OtherPushFlags(s: State, u: Task, t: Task)
    requires FlagOk(s, t)
    ensures FlagOk(OtherPushes(s, u), t)
  {
    CountCons(u, s.dirtyq, t);
    hide Count;
  }

  lemma ExchangeFlags(s: State, u: Task, e: Errand, t: Task)
    requires FlagOk(s, t) && TasksOk(s) && !s.home.Carrying? && !s.home.Popped?
    ensures FlagOk(Exchange(s, u, e), t)
  {
    hide Count;
  }

  lemma PutFlags(s: State, t: Task)
    requires FlagOk(s, t)
    ensures FlagOk(Puts(s), t)
  {
    if s.home.Carrying? { CountCons(s.home.t, s.readyq, t); }
    hide Count;
  }

  lemma ExitFlags(s: State, t: Task)
    requires FlagOk(s, t) && TasksOk(s)
    ensures FlagOk(Exits(s), t)
  {
    hide Count;
  }

  lemma EraseFlags(s: State, t: Task)
    requires FlagOk(s, t) && TasksOk(s)
    ensures FlagOk(Erases(s), t)
  {
    if s.home.Leaving? && s.home.t in s.readyq {
      CountWithout(s.readyq, s.home.t, t);
      CountIn(s.readyq, s.home.t);
    }
    hide Count, Without;
  }

  lemma DrainFlags(s: State, t: Task)
    requires FlagOk(s, t)
    ensures FlagOk(DrainPops(s), t)
  {
    if s.dirtyq != [] { CountFirst(s.dirtyq, t); }
    hide Count;
  }

  lemma PickFlags(s: State, t: Task)
    requires FlagOk(s, t) && TasksOk(s)
    ensures FlagOk(Picks(s), t)
  {
    if s.readyq != [] {
      CountFirst(s.readyq, t);
    }
    hide Count;
  }

  lemma ClearFlags(s: State, t: Task)
    requires FlagOk(s, t) && TasksOk(s)
    ensures FlagOk(ClearsFlag(s), t)
  {
    hide Count;
  }

  /** Every step keeps flags and queues in agreement about every task. */
  lemma StepFlags(s: State, a: Action, t: Task)
    requires FlagOk(s, t) && TasksOk(s)
    ensures FlagOk(Step(s, a), t)
  {
    hide FlagOk, TasksOk, Quiet, OtherReadies, OtherPushes, Puts, Exits, Erases, DrainPops, Picks, ClearsFlag, Exchange;
    if !MovesTasks(a) {
      OthersQuiet(s, a);
      QuietFlags(s, Step(s, a), t);
    } else if a.OtherReady? {
      OtherFlags(s, a.t, t);
    } else if a.OtherPush? {
      OtherPushFlags(s, a.t, t);
    } else if a.HomeReady? {
      if s.home.Running? { ExchangeFlags(s, a.t, Readying(s.home.cur, a.front), t); }
      if s.home.Top? { ExchangeFlags(s, a.t, Stopping, t); }
    } else if a.TimerReady? {
      if s.home.Timers? { ExchangeFlags(s, a.t, Firing, t); }
      if s.home.PollEvents? { ExchangeFlags(s, a.t, Polled, t); }
    } else {
      PutFlags(s, t);
      ExitFlags(s, t);
      EraseFlags(s, t);
      DrainFlags(s, t);
      PickFlags(s, t);
      ClearFlags(s, t);
    }
  }

  /** A task in the ready queue has its flag set and is alive. */
  lemma QueuedIsReady(s: State, t: Task)
    requires FlagOk(s, t) && TasksOk(s) && t in s.readyq
    ensures t in s.flags && t in s.live
  {
    CountIn(s.readyq, t);
    hide Count;
  }

  lemma SetsKept(s: State, a: Action)
    requires TasksOk(s)
    ensures SetsOk(Step(s, a))
  {
    hide Without;
  }

  lemma ExchangeHome(s: State, t: Task, e: Errand)
    requires SetsOk(s)
    requires (e.Readying? ==> e.cur in s.live) && (e.Hunting? ==> e.leaver in s.live && e.leaver in s.flags)
    requires HomeOk(s)
    ensures HomeOk(Exchange(s, t, e))
  {
  }

  lemma PutHome(s: State)
    requires HomeOk(s)
    ensures HomeOk(Puts(s))
  {
  }

  lemma HomeKeptOther(s: State, a: Action)
    requires TasksOk(s) && ByOther(a)
    ensures HomeOk(Step(s, a))
  {
    hide Without, Exchange, Puts;
  }

  lemma HomeKeptAside(s: State, a: Action)
    requires TasksOk(s) && !ByOther(a) && !a.HomeReady? && !a.TimerReady? && !a.Put?
    requires s.readyq != [] ==> s.readyq[0] in s.flags && s.readyq[0] in s.live
    ensures HomeOk(Step(s, a))
  {
    hide Without, Exchange, Puts, SetsOk;
  }

  lemma HomeKept(s: State, a: Action)
    requires TasksOk(s)
    requires s.readyq != [] ==> s.readyq[0] in s.flags && s.readyq[0] in s.live
    ensures HomeOk(Step(s, a))
  {
    hide Without, Exchange, Puts, SetsOk;
    if a.HomeReady? && s.home.Running? {
      ExchangeHome(s, a.t, Readying(s.home.cur, a.front));
    } else if a.HomeReady? {
      ExchangeHome(s, a.t, Stopping);
    } else if a.TimerReady? {
      ExchangeHome(s, a.t, Firing);
      ExchangeHome(s, a.t, Polled);
    } else if a.Put? {
      PutHome(s);
    } else if ByOther(a) {
      HomeKeptOther(s, a);
    } else {
      HomeKeptAside(s, a);
    }
  }

  lemma TasksKept(s: State, a: Action)
    requires FlagsMatch(s) && TasksOk(s)
    ensures TasksOk(Step(s, a))
  {
    hide FlagOk, SetsOk, HomeOk, Step;
    if s.readyq != [] {
      assert FlagOk(s, s.readyq[0]);
      QueuedIsReady(s, s.readyq[0]);
    }
    SetsKept(s, a);
    HomeKept(s, a);
  }

  /** Steps of other threads. */
  predicate ByOther(a: Action) {
    a.OtherReady? || a.OtherPush? || a.OtherWakeup? || a.OtherLock? || a.OtherLook? || a.OtherNotify?
  }

  lemma WakeKeptByOther(s: State, a: Action)
    requires WakeOk(s) && ByOther(a)
    ensures WakeOk(Step(s, a))
  {
    hide Without;
  }

  /** Steps of the home thread in task code. */
  predicate InTask(a: Action) { a.Attach? || a.MakeIo? || a.HomeReady? || a.Put? || a.Schedule? || a.Exit? }

  /** Its other steps outside the wait for work. */
  predicate Scheduling(a: Action) { a.Erase? || a.DrainPop? || a.DrainDone? || a.TimerReady? || a.TimersDone? }

  lemma WakeKeptInTask(s: State, a: Action)
    requires WakeOk(s) && InTask(a)
    ensures WakeOk(Step(s, a))
  {
  }

  lemma WakeKeptMoving(s: State, a: Action)
    requires WakeOk(s) && Scheduling(a)
    ensures WakeOk(Step(s, a))
  {
    hide Without;
  }

  lemma WakeKeptWaiting(s: State, a: Action)
    requires WakeOk(s) && !ByOther(a) && !InTask(a) && !Scheduling(a)
    ensures WakeOk(Step(s, a))
  {
    hide Without;
  }

  lemma WakeKept(s: State, a: Action)
    requires WakeOk(s)
    ensures WakeOk(Step(s, a))
  {
    hide WakeOk, Step;
    if ByOther(a) {
      WakeKeptByOther(s, a);
    } else if InTask(a) {
      WakeKeptInTask(s, a);
    } else if Scheduling(a) {
      WakeKeptMoving(s, a);
    } else {
      WakeKeptWaiting(s, a);
    }
  }

  lemma StepKeeps(s: State, a: Action)
    requires Inv(s)
    ensures Inv(Step(s, a))
  {
    hide FlagOk, TasksOk, WakeOk, Step;
    WakeKept(s, a);
    TasksKept(s, a);
    forall t ensures FlagOk(Step(s, a), t) {
      StepFlags(s, a, t);
    }
  }

  lemma {:induction false} RunKeeps(s: State, acts: seq<Action>)
    requires Inv(s)
    ensures Inv(Run(s, acts))
    decreases |acts|
  {
    if acts != [] {
      StepKeeps(s, acts[0]);
      RunKeeps(Step(s, acts[0]), acts[1..]);
    }
  }

  /** Whatever the interleaving: a task is queued at most once, exactly when its flag is set, except
      between being popped and having its flag cleared; a finished task is never queued again; a task
      about to be picked has its flag set; and a task that leaves while flagged has an entry to erase. */
  lemma ReadyProtocol(os: Task, acts: seq<Action>, t: Task)
    ensures var s := Run(Init(os), acts);
      && Entries(s, t) <= 1
      && (t in s.live ==> (Entries(s, t) == 1 <==> t in s.flags && s.home != Popped(t)))
      && (t !in s.live ==> Entries(s, t) == 0)
      && (s.home.Picking? ==> s.readyq != [] && s.readyq[0] in s.flags && s.readyq[0] in s.live)
      && (s.home == Leaving(t) ==> Entries(s, t) == 1)
  {
    InitOk(os);
    RunKeeps(Init(os), acts);
    var s := Run(Init(os), acts);
    hide Count, Entries, Run;
    assert FlagOk(s, t);
    if s.home.Picking? {
      assert FlagOk(s, s.readyq[0]);
      QueuedIsReady(s, s.readyq[0]);
    }
  }

  predicate Waiting(h: Home) { h.Polling? || h.Sleeping? }

  /** No wake-up is lost: while the home thread waits, a ready task is either still to be queued by
      the thread that set its flag, or queued with a notification on its way or delivered. */
  lemma NoLostWakeup(os: Task, acts: seq<Action>, t: Task)
    ensures var s := Run(Init(os), acts);
      Waiting(s.home) && t in s.live && t in s.flags ==>
        t in s.inflight || (t in s.dirtyq && Noticed(s))
  {
    InitOk(os);
    RunKeeps(Init(os), acts);
    WaitingReady(Run(Init(os), acts), t);
  }

  lemma WaitingReady(s: State, t: Task)
    requires Inv(s)
    ensures Waiting(s.home) && t in s.live && t in s.flags ==> t in s.inflight || (t in s.dirtyq && Noticed(s))
  {
    assert FlagOk(s, t);
    CountIn(s.readyq, t);
    CountIn(s.dirtyq, t);
    hide Count;
  }

  /** A waiting home thread is going to notice what is in the dirty queue. */
  predicate Noticed(s: State) { WakerComing(s) || (s.home.Polling? && s.eventfd) }

  /** What threads that already queued a task have left to do, and epoll returning for it. */
  function Finishing(s: State): seq<Action> {
    (if s.mutex.ByWaker? then if s.mutex.saw.Some? then [OtherNotify] else [OtherLook, OtherNotify]
     else if s.pushed > 0 then [OtherLock, OtherLook, OtherNotify]
     else [])
    + if s.home.Polling? then [PollReturn(true)] else []
  }

  lemma RunOne(s: State, a: Action, rest: seq<Action>)
    ensures Run(s, [a] + rest) == Run(Step(s, a), rest)
  {
    assert ([a] + rest)[1..] == rest;
  }

  lemma NotifyWakes(s: State)
    requires WakeOk(s) && Waiting(s.home) && s.mutex.ByWaker? && s.mutex.saw.Some?
    ensures !Waiting(Run(s, Finishing(s)).home)
  {
    var tail := if s.home.Polling? then [PollReturn(true)] else [];
    RunOne(s, OtherNotify, tail);
    RunOne(Step(s, OtherNotify), PollReturn(true), []);
  }

  lemma LookWakes(s: State)
    requires WakeOk(s) && Waiting(s.home) && s.mutex == ByWaker(None)
    ensures !Waiting(Run(s, Finishing(s)).home)
  {
    var r := Step(s, OtherLook);
    WakeKept(s, OtherLook);
    NotifyWakes(r);
    hide Run, WakeOk;
    assert Finishing(s) == [OtherLook] + Finishing(r);
    RunOne(s, OtherLook, Finishing(r));
  }

  lemma NoticedWakes(s: State)
    requires WakeOk(s) && Waiting(s.home) && Noticed(s)
    ensures !Waiting(Run(s, Finishing(s)).home)
  {
    if s.mutex.ByWaker? {
      if s.mutex.saw.Some? { NotifyWakes(s); } else { LookWakes(s); }
    } else if s.pushed > 0 {
      var r := Step(s, OtherLock);
      WakeKept(s, OtherLock);
      LookWakes(r);
      assert Finishing(s) == [OtherLock] + Finishing(r);
      RunOne(s, OtherLock, Finishing(r));
    } else {
      RunOne(s, PollReturn(true), []);
    }
  }

  /** The same, after a thread that set t's flag has queued it. */
  function Completing(s: State, t: Task): seq<Action> {
    if t in s.inflight then [OtherPush(t)] + Finishing(Step(s, OtherPush(t))) else Finishing(s)
  }

  /** The actions left to threads that already set a flag or queued a task, and epoll returning. */
  predicate Underway(a: Action) { a.OtherPush? || a.OtherLock? || a.OtherLook? || a.OtherNotify? || a == PollReturn(true) }

  lemma CompletingUnderway(s: State, t: Task)
    ensures forall a <- Completing(s, t) :: Underway(a)
  {
    hide Step;
  }

  lemma WaitEndsFrom(s: State, t: Task)
    requires Inv(s) && Waiting(s.home) && t in s.live && t in s.flags
    ensures (forall a <- Completing(s, t) :: Underway(a)) && !Waiting(Run(s, Completing(s, t)).home)
  {
    WaitingReady(s, t);
    CompletingUnderway(s, t);
    if t in s.inflight {
      PushNoticed(s, t);
      NoticedWakes(Step(s, OtherPush(t)));
      RunOne(s, OtherPush(t), Finishing(Step(s, OtherPush(t))));
    } else {
      NoticedWakes(s);
    }
    hide Run, FlagsMatch, TasksOk, WakeOk, Finishing, Step, Underway, Noticed;
  }

  /** In every run, when a ready task finds the home thread waiting, what is already under way ends the
      wait: neither a timeout nor another wake-up is needed. */
  lemma WaitEnds(os: Task, acts: seq<Action>, t: Task)
    ensures var s := Run(Init(os), acts);
      Waiting(s.home) && t in s.live && t in s.flags ==>
        (forall a <- Completing(s, t) :: Underway(a)) && !Waiting(Run(s, Completing(s, t)).home)
  {
    InitOk(os);
    RunKeeps(Init(os), acts);
    var s := Run(Init(os), acts);
    hide Run, Inv, Completing, Underway;
    if Waiting(s.home) && t in s.live && t in s.flags { WaitEndsFrom(s, t); }
  }

  lemma PushNoticed(s: State, t: Task)
    requires WakeOk(s) && Waiting(s.home) && t in s.inflight
    ensures var r := Step(s, OtherPush(t)); WakeOk(r) && Waiting(r.home) && Noticed(r)
  {
    WakeKept(s, OtherPush(t));
  }

  // ---- the order in which tasks run ----

  /** Whom a step takes off the ready queue to run next. */
  function Taken(s: State, a: Action): seq<Task> {
    var r := Step(s, a);
    if r.home.Popped? && !s.home.Popped? then [r.home.t] else []
  }

  /** The tasks taken to run, in order. */
  function Pops(s: State, acts: seq<Action>): seq<Task>
    decreases |acts|
  {
    if acts == [] then [] else Taken(s, acts[0]) + Pops(Step(s, acts[0]), acts[1..])
  }

  lemma AheadCount(q: seq<Task>, u: Task, t: Task)
    requires Ahead(q, u, t) && Count(q, t) <= 1
    ensures u != t && q[0] != t
  {
    var i, j :| 0 <= i < j < |q| && q[i] == u && q[j] == t;
    assert q == q[..j] + [q[j]] + q[j + 1..];
    assert q[..j][i] == u && q[..j][0] == q[0];
  }

  /** What a step does to the ready queue: nothing, one task more at an end, the first or a leaving
      task less. */
  predicate QueueStep(s: State, a: Action) {
    var r := Step(s, a);
    && s.gone <= r.gone
    && (|| (r.readyq == s.readyq && Taken(s, a) == [])
        || (s.home.Carrying? && Taken(s, a) == [] && (r.readyq == s.readyq + [s.home.t] || r.readyq == [s.home.t] + s.readyq))
        || (s.readyq != [] && r.readyq == s.readyq[1..] && Taken(s, a) == [s.readyq[0]])
        || (s.home.Leaving? && Taken(s, a) == [] && r.readyq == Without(s.readyq, s.home.t) && s.home.t in r.gone))
  }

  lemma OtherQueueStep(s: State, a: Action)
    requires ByOther(a)
    ensures QueueStep(s, a)
  {
    hide Without;
  }

  lemma TaskQueueStep(s: State, a: Action)
    requires InTask(a)
    ensures QueueStep(s, a)
  {
    hide Without;
  }

  lemma MovingQueueStep(s: State, a: Action)
    requires Scheduling(a)
    ensures QueueStep(s, a)
  {
    hide Without;
  }

  lemma WaitingQueueStep(s: State, a: Action)
    requires !ByOther(a) && !InTask(a) && !Scheduling(a)
    ensures QueueStep(s, a)
  {
    hide Without;
  }

  lemma StepQueue(s: State, a: Action)
    ensures QueueStep(s, a)
  {
    hide QueueStep;
    if ByOther(a) {
      OtherQueueStep(s, a);
    } else if InTask(a) {
      TaskQueueStep(s, a);
    } else if Scheduling(a) {
      MovingQueueStep(s, a);
    } else {
      WaitingQueueStep(s, a);
    }
  }

  lemma {:induction false} GoneStays(s: State, acts: seq<Action>)
    ensures s.gone <= Run(s, acts).gone
    decreases |acts|
  {
    hide Step;
    if acts != [] {
      StepQueue(s, acts[0]);
      GoneStays(Step(s, acts[0]), acts[1..]);
    }
  }

  lemma TakenIsLive(s: State, a: Action, t: Task)
    requires Inv(s)
    ensures t in Taken(s, a) ==> t !in s.gone
  {
    hide Step, Taken, Count, WakeOk, TasksOk;
    StepQueue(s, a);
    assert FlagOk(s, t);
    if s.readyq != [] && s.readyq[0] == t { CountFirst(s.readyq, t); }
  }

  lemma {:induction false} GoneNeverTaken(s: State, acts: seq<Action>, t: Task)
    requires Inv(s) && t in s.gone
    ensures t !in Pops(s, acts)
    decreases |acts|
  {
    hide Step, Inv, Taken;
    if acts != [] {
      TakenIsLive(s, acts[0], t);
      StepQueue(s, acts[0]);
      StepKeeps(s, acts[0]);
      GoneNeverTaken(Step(s, acts[0]), acts[1..], t);
    }
  }

  lemma StepInOrder(s: State, a: Action, u: Task, t: Task)
    requires Inv(s) && Ahead(s.readyq, u, t)
    ensures var r := Step(s, a);
      || (Ahead(r.readyq, u, t) && t !in Taken(s, a))
      || Taken(s, a) == [u]
      || (Taken(s, a) == [] && (u in r.gone || t in r.gone))
  {
    hide Step, Taken;
    assert Count(s.readyq, t) <= 1 by { assert FlagOk(s, t); hide Count; }
    hide Inv, Count;
    AheadCount(s.readyq, u, t);
    StepQueue(s, a);
    var r := Step(s, a);
    if s.home.Carrying? { AheadJoin(s.readyq, u, t, s.home.t); }
    if s.readyq != [] && r.readyq == s.readyq[1..] && Taken(s, a) == [s.readyq[0]] {
      if s.readyq[0] != u { AheadTail(s.readyq, u, t); }
    } else if s.home.Leaving? && r.readyq == Without(s.readyq, s.home.t) {
      if s.home.t != u && s.home.t != t { AheadWithout(s.readyq, s.home.t, u, t); }
    }
    hide Ahead;
  }

  /** Of two tasks in the ready queue the one ahead runs first, over every interleaving, unless it
      finishes. */
  lemma {:induction false} RunsInOrder(s: State, acts: seq<Action>, u: Task, t: Task)
    requires Inv(s) && Ahead(s.readyq, u, t)
    ensures t in Pops(s, acts) ==> Precedes(Pops(s, acts), u, t) || u in Run(s, acts).gone
    decreases |acts|
  {
    hide Step, Inv, Taken, Ahead, Precedes;
    if acts != [] {
      var r, w, rest := Step(s, acts[0]), Taken(s, acts[0]), Pops(Step(s, acts[0]), acts[1..]);
      StepKeeps(s, acts[0]);
      StepInOrder(s, acts[0], u, t);
      if w == [u] {
        PrecedesAtOnce(u, rest, t);
      } else if Ahead(r.readyq, u, t) && t !in w {
        RunsInOrder(r, acts[1..], u, t);
        if t in rest && Precedes(rest, u, t) { PrecedesLater(w, rest, u, t); }
      } else if u in r.gone {
        GoneStays(r, acts[1..]);
      } else {
        GoneNeverTaken(r, acts[1..], t);
      }
    }
  }

  /** ready() by a task of this scheduler puts t behind all ready tasks, or before all of them when it
      is to go to the front, whatever other threads do meanwhile. */
  lemma ReadiedAt(s: State, t: Task, front: bool, others: seq<Action>)
    requires s.home.Running? && t in s.live && t !in s.flags && forall a <- others :: ByOther(a)
    ensures var r := Run(s, [HomeReady(t, front)] + others + [Put]);
      && r.readyq == (if front then [t] + s.readyq else s.readyq + [t]) && t in r.flags && r.home == s.home
  {
    var c := Step(s, HomeReady(t, front));
    assert [HomeReady(t, front)] + others + [Put] == [HomeReady(t, front)] + (others + [Put]);
    RunOne(s, HomeReady(t, front), others + [Put]);
    OthersMeanwhile(c, others);
    hide Run;
  }

  /** ready_for_io(), for an alarm or a file descriptor, puts t behind all ready tasks. */
  lemma IoReadiedAt(s: State, t: Task, others: seq<Action>)
    requires (s.home.Timers? || s.home.PollEvents?) && t in s.live && t !in s.flags && forall a <- others :: ByOther(a)
    ensures var r := Run(s, [TimerReady(t)] + others + [Put]);
      r.readyq == s.readyq + [t] && t in r.flags && r.home == s.home
  {
    var c := Step(s, TimerReady(t));
    assert [TimerReady(t)] + others + [Put] == [TimerReady(t)] + (others + [Put]);
    RunOne(s, TimerReady(t), others + [Put]);
    OthersMeanwhile(c, others);
    hide Run;
  }

  /** So does ready() when schedule() shuts everything down. */
  lemma StopReadiedAt(s: State, t: Task, front: bool, others: seq<Action>)
    requires s.home.Top? && t in s.live && t !in s.flags && forall a <- others :: ByOther(a)
    ensures var r := Run(s, [HomeReady(t, front)] + others + [Put]);
      r.readyq == s.readyq + [t] && t in r.flags && r.home == s.home
  {
    var c := Step(s, HomeReady(t, front));
    assert [HomeReady(t, front)] + others + [Put] == [HomeReady(t, front)] + (others + [Put]);
    RunOne(s, HomeReady(t, front), others + [Put]);
    OthersMeanwhile(c, others);
    hide Run;
  }

  /** ready() by another thread puts t at the end of the dirty queue and has somebody notify. */
  lemma OtherReadiedAt(s: State, t: Task)
    requires t in s.live && t !in s.flags
    ensures var r := Run(s, [OtherReady(t), OtherPush(t)]);
      r.dirtyq == s.dirtyq + [t] && r.readyq == s.readyq && r.home == s.home && t in r.flags && r.pushed == s.pushed + 1
  {
    assert [OtherReady(t), OtherPush(t)] == [OtherReady(t)] + ([OtherPush(t)] + []);
    RunOne(s, OtherReady(t), [OtherPush(t)] + []);
    RunOne(Step(s, OtherReady(t)), OtherPush(t), []);
    RunNone(Step(Step(s, OtherReady(t)), OtherPush(t)));
    hide Run;
  }

  /** In every run, ready() by another thread leaves a live task with exactly one queue entry, unless
      it is just being taken. */
  lemma ReadyCounts(s: State, t: Task)
    requires Inv(s) && t in s.live
    ensures var r := Step(s, OtherReady(t)); t in r.flags && (r.home != Popped(t) ==> Entries(r, t) == 1)
  {
    StepKeeps(s, OtherReady(t));
    assert FlagOk(Step(s, OtherReady(t)), t);
    hide Entries, WakeOk;
  }

  lemma OtherAside(s: State, o: Action)
    requires s.home.Carrying? && ByOther(o)
    ensures var r := Step(s, o); r.home == s.home && r.readyq == s.readyq && s.flags <= r.flags
  {
  }

  lemma PutIs(s: State, r: State)
    requires s.home.Carrying? && r.home == s.home && r.readyq == s.readyq && s.flags <= r.flags
    ensures Step(r, Put).readyq == Step(s, Put).readyq && Step(r, Put).home == Step(s, Put).home && s.flags <= Step(r, Put).flags
  {
  }

  lemma {:induction false} OthersMeanwhile(s: State, others: seq<Action>)
    requires s.home.Carrying? && (forall o <- others :: ByOther(o))
    ensures var r := Run(s, others + [Put]); var p := Step(s, Put);
      r.readyq == p.readyq && r.home == p.home && s.flags <= r.flags
    decreases |others|
  {
    hide Run, Step;
    if others == [] {
      assert others + [Put] == [Put] + [];
      RunOne(s, Put, []);
      RunNone(Step(s, Put));
      PutIs(s, s);
    } else {
      assert others + [Put] == [others[0]] + (others[1..] + [Put]) && others[0] in others;
      RunOne(s, others[0], others[1..] + [Put]);
      OtherAside(s, others[0]);
      OthersMeanwhile(Step(s, others[0]), others[1..]);
      PutIs(s, Step(s, others[0]));
    }
  }

  lemma RunNone(s: State)
    ensures Run(s, []) == s
  {
  }

  /** So a task readied at the back, and in particular one that yields, runs after every task that was
      ready then, and one readied at the front before them; unless the other finishes first. */
  lemma BackRunsLast(s: State, t: Task, others: seq<Action>, later: seq<Action>, u: Task)
    requires Inv(s) && s.home.Running? && t in s.live && t !in s.flags && u in s.readyq
    requires forall a <- others :: ByOther(a)
    ensures var r := Run(s, [HomeReady(t, false)] + others + [Put]); var w := Pops(r, later);
      t in w ==> Precedes(w, u, t) || u in Run(r, later).gone
    ensures var r := Run(s, [HomeReady(t, true)] + others + [Put]); var w := Pops(r, later);
      u in w ==> Precedes(w, t, u) || t in Run(r, later).gone
  {
    hide Run, Inv, Pops, Ahead, Precedes;
    ReadiedAt(s, t, false, others);
    ReadiedAt(s, t, true, others);
    AheadOfLast(s.readyq, u, t);
    RunKeeps(s, [HomeReady(t, false)] + others + [Put]);
    RunKeeps(s, [HomeReady(t, true)] + others + [Put]);
    RunsInOrder(Run(s, [HomeReady(t, false)] + others + [Put]), later, u, t);
    RunsInOrder(Run(s, [HomeReady(t, true)] + others + [Put]), later, t, u);
  }

  // ---- tasks that come and go ----

  /** A task attached is alive and not ready. */
  lemma AttachLives(s: State, t: Task)
    requires Inv(s) && s.home.Running? && t !in s.live && t !in s.gone
    ensures var r := Step(s, Attach(t)); t in r.live && t !in r.flags && Entries(r, t) == 0
  {
    StepKeeps(s, Attach(t));
    assert FlagOk(Step(s, Attach(t)), t);
    hide Entries, WakeOk;
  }

  /** A task that exits is gone if nobody made it ready; else it first looks for its queue entry. */
  lemma ExitLeaves(s: State)
    requires Inv(s) && s.home.Running?
    ensures var t, r := s.home.cur, Step(s, Exit);
      && r.readyq == s.readyq && r.dirtyq == s.dirtyq
      && if t in s.flags then r.home == Leaving(t) && Entries(r, t) == 1
         else t in r.gone && t !in r.live && r.home == Top && Entries(r, t) == 0
  {
    StepKeeps(s, Exit);
    assert FlagOk(Step(s, Exit), s.home.cur);
    hide Entries, WakeOk;
  }

  /** An entry in the ready queue is taken out, and the task is gone. */
  lemma EraseLeaves(s: State)
    requires Inv(s) && s.home.Leaving? && s.home.t in s.readyq
    ensures var t, r := s.home.t, Step(s, Erase);
      r.readyq == Without(s.readyq, t) && t !in r.readyq && t in r.gone && t !in r.live && r.home == Top
  {
    assert FlagOk(s, s.home.t);
    CountWithout(s.readyq, s.home.t, s.home.t);
    hide WakeOk, Without;
  }

  lemma HuntSteps(s: State)
    requires s.home.Leaving? && s.home.t !in s.readyq && s.dirtyq != []
    ensures var h := s.dirtyq[0]; var c := s.(dirtyq := s.dirtyq[1..], home := Carrying(h, Hunting(s.home.t)));
      Step(s, DrainPop) == c && Step(c, Put) == s.(dirtyq := s.dirtyq[1..], readyq := [h] + s.readyq)
  {
  }

  lemma HuntOne(s: State, rest: seq<Action>)
    requires s.home.Leaving? && s.home.t !in s.readyq && s.dirtyq != []
    ensures var r := s.(dirtyq := s.dirtyq[1..], readyq := [s.dirtyq[0]] + s.readyq); Run(s, [DrainPop, Put] + rest) == Run(r, rest)
  {
    hide Run, Step;
    HuntSteps(s);
    RunOne(s, DrainPop, [Put] + rest);
    RunOne(Step(s, DrainPop), Put, rest);
    assert [DrainPop, Put] + rest == [DrainPop] + ([Put] + rest);
  }

  lemma EraseFirst(s: State, q: seq<Task>)
    requires s.home.Leaving? && s.readyq == [s.home.t] + q
    ensures Run(s, [Erase] + []) == s.(readyq := q, live := s.live - {s.home.t}, gone := s.gone + {s.home.t}, home := Top)
  {
    assert Without(s.readyq, s.home.t) == q;
    RunOne(s, Erase, []);
    RunNone(Step(s, Erase));
    hide Run, Without;
  }

  /** An entry in the dirty queue is found there by moving over what is ahead of it; what is moved
      stays ready, and the task is gone. */
  lemma {:induction false} HuntFinds(s: State, k: nat)
    requires s.home.Leaving? && s.home.t !in s.readyq && k < |s.dirtyq| && s.dirtyq[k] == s.home.t && s.home.t !in s.dirtyq[..k]
    ensures var r := Run(s, Drains(k + 1) + [Erase]);
      && r.readyq == Reversed(s.dirtyq[..k]) + s.readyq && r.dirtyq == s.dirtyq[k + 1..]
      && s.home.t in r.gone && s.home.t !in r.live && r.home == Top
    decreases k
  {
    hide Run, Step;
    var h := s.dirtyq[0];
    var r := s.(dirtyq := s.dirtyq[1..], readyq := [h] + s.readyq);
    assert Drains(k + 1) + [Erase] == [DrainPop, Put] + (Drains(k) + [Erase]);
    HuntOne(s, Drains(k) + [Erase]);
    if k == 0 {
      assert Drains(0) + [Erase] == [Erase] + [];
      EraseFirst(r, s.readyq);
      assert s.dirtyq[..0] == [];
    } else {
      assert h in s.dirtyq[..k] && s.dirtyq[..k][1..] == r.dirtyq[..k - 1];
      HuntFinds(r, k - 1);
      assert Reversed(s.dirtyq[..k]) + s.readyq == Reversed(r.dirtyq[..k - 1]) + r.readyq;
    }
  }

  // ---- check_dirty_queue, left to itself ----

  /** The steps of moving n tasks over. */
  function Drains(n: nat): seq<Action> { if n == 0 then [] else [DrainPop, Put] + Drains(n - 1) }

  function Reversed(q: seq<Task>): seq<Task> { if q == [] then [] else Reversed(q[1..]) + [q[0]] }

  lemma DrainOne(s: State, n: nat)
    requires (s.home.Top? || s.home.Locked?) && s.dirtyq != [] && n > 0
    ensures var r := s.(dirtyq := s.dirtyq[1..], readyq := [s.dirtyq[0]] + s.readyq); Run(s, Drains(n)) == Run(r, Drains(n - 1))
  {
    RunOne(s, DrainPop, [Put] + Drains(n - 1));
    RunOne(Step(s, DrainPop), Put, Drains(n - 1));
    hide Run;
    assert Drains(n) == [DrainPop] + ([Put] + Drains(n - 1));
  }

  /** Without interference the loop empties the dirty queue in steps of the protocol; a task queued
      last is the one that runs first. */
  method CheckDirtyQueue(s: State) returns (r: State)
    requires s.home.Top? || s.home.Locked?
    ensures r == Run(s, Drains(|s.dirtyq|))
    ensures r == s.(dirtyq := [], readyq := Reversed(s.dirtyq) + s.readyq)
  {
    hide Run, Drains;
    r := s;
    while r.dirtyq != []
      invariant r == s.(dirtyq := r.dirtyq, readyq := r.readyq)
      invariant Run(r, Drains(|r.dirtyq|)) == Run(s, Drains(|s.dirtyq|))
      invariant Reversed(r.dirtyq) + r.readyq == Reversed(s.dirtyq) + s.readyq
      decreases |r.dirtyq|
    {
      DrainOne(r, |r.dirtyq|);
      var t := r.dirtyq[0];
      assert Reversed(r.dirtyq[1..]) + ([t] + r.readyq) == Reversed(r.dirtyq) + r.readyq;
      r := r.(dirtyq := r.dirtyq[1..], readyq := [t] + r.readyq);
    }
    DrainNone(r);
    assert [] + r.readyq == r.readyq;
  }

  lemma DrainNone(s: State)
    ensures Run(s, Drains(0)) == s
  {
  }

  // ---- a whole round of schedule(), left to itself ----

  /** The steps of schedule() from a running task to the next. */
  function Round(s: State): seq<Action> { [Schedule] + Drains(|s.dirtyq|) + [DrainDone, TimersDone, Pick, ClearFlag] }

  lemma {:induction false} RunMore(s: State, a: seq<Action>, b: seq<Action>)
    ensures Run(s, a + b) == Run(Run(s, a), b)
    decreases |a|
  {
    hide Step;
    if a == [] {
      assert a + b == b;
    } else {
      assert (a + b)[0] == a[0] && (a + b)[1..] == a[1..] + b;
      RunMore(Step(s, a[0]), a[1..], b);
    }
  }

  lemma {:induction false} DrainsAll(s: State)
    requires s.home.Top? || s.home.Locked?
    ensures Run(s, Drains(|s.dirtyq|)) == s.(dirtyq := [], readyq := Reversed(s.dirtyq) + s.readyq)
    decreases |s.dirtyq|
  {
    hide Run, Step;
    if s.dirtyq == [] {
      RunNone(s);
      assert [] + s.readyq == s.readyq;
    } else {
      var r := s.(dirtyq := s.dirtyq[1..], readyq := [s.dirtyq[0]] + s.readyq);
      DrainOne(s, |s.dirtyq|);
      DrainsAll(r);
      assert Reversed(s.dirtyq[1..]) + ([s.dirtyq[0]] + s.readyq) == Reversed(s.dirtyq) + s.readyq;
    }
  }

  /** The last steps of a round, with q in the ready queue. */
  lemma RoundSteps(s: State, q: seq<Task>)
    requires s.home.Top? && s.dirtyq == [] && s.readyq == q && q != []
    ensures Step(s, DrainDone) == s.(home := Timers) && Step(s.(home := Timers), TimersDone) == s.(home := Picking)
  {
  }

  lemma PickSteps(s: State, q: seq<Task>)
    requires s.readyq == q && q != []
    ensures var p := s.(home := Popped(q[0]), readyq := q[1..]);
      && Step(s.(home := Picking), Pick) == p
      && Step(p, ClearFlag) == p.(home := Running(q[0]), flags := s.flags - {q[0]})
  {
  }

  lemma RoundEnds(s: State, q: seq<Task>)
    requires s.home.Top? && s.dirtyq == [] && s.readyq == q && q != []
    ensures Run(s, [DrainDone, TimersDone, Pick, ClearFlag])
      == s.(readyq := q[1..], flags := s.flags - {q[0]}, home := Running(q[0]))
  {
    hide Run, Step;
    RoundSteps(s, q);
    PickSteps(s, q);
    var acts := [DrainDone, TimersDone, Pick, ClearFlag];
    var p := s.(home := Popped(q[0]), readyq := q[1..]);
    assert acts == [DrainDone] + acts[1..] && acts[1..] == [TimersDone] + acts[2..] && acts[2..] == [Pick] + acts[3..];
    assert acts[3..] == [ClearFlag] + [];
    RunOne(s, DrainDone, acts[1..]);
    RunOne(s.(home := Timers), TimersDone, acts[2..]);
    RunOne(s.(home := Picking), Pick, acts[3..]);
    RunOne(p, ClearFlag, []);
    RunNone(Step(p, ClearFlag));
  }

  lemma {:induction false} ReversedLength(q: seq<Task>)
    ensures |Reversed(q)| == |q|
    decreases |q|
  {
    if q != [] { ReversedLength(q[1..]); }
  }

  lemma ScheduleStep(s: State)
    requires s.home.Running?
    ensures Step(s, Schedule) == s.(home := Top)
  {
  }

  /** When anything is ready or has been queued by other threads, schedule() runs the first of what
      they queued, last in first out, and then of the ready queue, and clears that task's flag. */
  lemma NextRuns(s: State)
    requires s.home.Running? && (s.dirtyq != [] || s.readyq != [])
    ensures var q := Reversed(s.dirtyq) + s.readyq;
      && q != []
      && Run(s, Round(s)) == s.(dirtyq := [], readyq := q[1..], flags := s.flags - {q[0]}, home := Running(q[0]))
  {
    hide Run, Step, Reversed, Drains;
    var top := s.(home := Top);
    var q := Reversed(s.dirtyq) + s.readyq;
    var last := [DrainDone, TimersDone, Pick, ClearFlag];
    ReversedLength(s.dirtyq);
    assert Round(s) == [Schedule] + (Drains(|s.dirtyq|) + last);
    ScheduleStep(s);
    RunOne(s, Schedule, Drains(|s.dirtyq|) + last);
    RunMore(top, Drains(|s.dirtyq|), last);
    DrainsAll(top);
    RoundEnds(top.(dirtyq := [], readyq := q), q);
  }

  lemma WaitSteps(s: State)
    requires s.dirtyq == [] && s.readyq == [] && s.mutex.Free?
    ensures Step(s.(home := Top), DrainDone) == s.(home := Timers) && Step(s.(home := Timers), TimersDone) == s.(home := Locking)
    ensures Step(s.(home := Locking), TakeMutex) == s.(home := Locked, mutex := ByHome)
    ensures Step(s.(home := Locked, mutex := ByHome), DrainDone) == s.(home := Checked, mutex := ByHome)
    ensures Step(s.(home := Checked, mutex := ByHome), StartWait) == s.(home := if s.io then Polling else Sleeping)
  {
  }

  /** When nothing is, it goes to wait, in epoll once there is I/O and else on the condition variable. */
  lemma NothingWaits(s: State)
    requires s.home.Running? && s.dirtyq == [] && s.readyq == [] && s.mutex.Free?
    ensures Run(s, [Schedule, DrainDone, TimersDone, TakeMutex, DrainDone, StartWait])
      == s.(home := if s.io then Polling else Sleeping)
  {
    hide Run, Step;
    var acts := [Schedule, DrainDone, TimersDone, TakeMutex, DrainDone, StartWait];
    assert acts == [Schedule] + acts[1..] && acts[1..] == [DrainDone] + acts[2..] && acts[2..] == [TimersDone] + acts[3..];
    assert acts[3..] == [TakeMutex] + acts[4..] && acts[4..] == [DrainDone] + acts[5..] && acts[5..] == [StartWait] + [];
    ScheduleStep(s);
    WaitSteps(s);
    RunOne(s, Schedule, acts[1..]);
    RunOne(s.(home := Top), DrainDone, acts[2..]);
    RunOne(s.(home := Timers), TimersDone, acts[3..]);
    RunOne(s.(home := Locking), TakeMutex, acts[4..]);
    RunOne(s.(home := Locked, mutex := ByHome), DrainDone, acts[5..]);
    RunOne(s.(home := Checked, mutex := ByHome), StartWait, []);
    RunNone(s.(home := if s.io then Polling else Sleeping));
  }

  // ---- how the home thread waits ----

  /** Somebody asks for I/O in this run. */
  predicate AsksIo(s: State, acts: seq<Action>)
    decreases |acts|
  {
    acts != [] && ((acts[0].MakeIo? && s.home.Running?) || AsksIo(Step(s, acts[0]), acts[1..]))
  }

  lemma StepIo(s: State, a: Action)
    ensures Step(s, a).io <==> s.io || (a.MakeIo? && s.home.Running?)
  {
    hide Count;
  }

  lemma {:induction false} IoIff(s: State, acts: seq<Action>)
    ensures Run(s, acts).io <==> s.io || AsksIo(s, acts)
    decreases |acts|
  {
    hide Step;
    if acts != [] {
      StepIo(s, acts[0]);
      IoIff(Step(s, acts[0]), acts[1..]);
    }
  }

  /** The home thread waits in epoll if a task asked for I/O before, and on the condition variable if
      none did. */
  lemma WaitsWhere(os: Task, acts: seq<Action>)
    ensures var s := Run(Init(os), acts);
      (s.home.Polling? ==> AsksIo(Init(os), acts)) && (s.home.Sleeping? ==> !AsksIo(Init(os), acts))
  {
    hide Run, AsksIo, FlagsMatch, TasksOk;
    InitOk(os);
    RunKeeps(Init(os), acts);
    IoIff(Init(os), acts);
  }

  /** After a wait it runs the first ready task without looking for more. */
  lemma WokenRuns(s: State)
    requires s.home.Woken? && s.mutex.Free? && s.readyq != []
    ensures var r := Run(s, [Retake, Pick, ClearFlag]);
      r.home == Running(s.readyq[0]) && r.readyq == s.readyq[1..] && r.flags == s.flags - {s.readyq[0]}
  {
    hide Run, Step;
    var q := s.readyq;
    RetakeStep(s);
    PickSteps(s, q);
    var p := s.(home := Popped(q[0]), readyq := q[1..]);
    assert [Retake, Pick, ClearFlag] == [Retake] + [Pick, ClearFlag] && [Pick, ClearFlag] == [Pick] + ([ClearFlag] + []);
    RunOne(s, Retake, [Pick, ClearFlag]);
    RunOne(s.(home := Picking), Pick, [ClearFlag] + []);
    RunOne(p, ClearFlag, []);
    RunNone(Step(p, ClearFlag));
  }

  lemma RetakeStep(s: State)
    requires s.home.Woken? && s.mutex.Free? && s.readyq != []
    ensures Step(s, Retake) == s.(home := Picking)
  {
  }
}
