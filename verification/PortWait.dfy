/**
  Threads that wait for, send to and receive from IPC ports (mk/ipc/ipc_port.c), down through
  the condition variable (mk/core/core_cv.c), the sleep queue (mk/core/core_sleepq.c) and the
  scheduler.  A step is one action of the thread current on a CPU, or of the scheduler; any
  number of threads, CPUs and ports take steps in any order.
 */
module PortWait {
  import opened Optional
  import Queues
  import Sched = SchedulerModel
  import opened SchedulerModel

  type Port = nat

  /** Where a thread is that is not inside a call on a port. */
  datatype Mood =
    | Idle
    | Dozing        // marked asleep for another reason
    | Elsewhere     // asleep for another reason
    | Gone          // past scheduler_thread_exiting

  /** Where a thread is in ipc_port_wait, cv_wait and sleepq_enter. */
  datatype Stage =
    | Checking      // holds the port's mutex
    | CvLocking     // found the queue empty
    | Unlocking     // holds the cv's lock too
    | Entering      // holds the cv's lock alone
    | Marking       // is in the sleep queue
    | Scheduling    // is marked sleeping
    | Asleep        // has called scheduler_schedule, which released the cv's lock
    | Removing      // has run again and taken the cv's lock

  /** Where a thread is in ipc_port_send_page and cv_signal; it holds the port's mutex throughout. */
  datatype Phase =
    | Sending
    | Signalling    // has queued its message
    | Waking        // holds the cv's lock too
    | Waked         // has signalled
    | Leaving       // has released the cv's lock

  datatype Pc =
    | Off(mood: Mood)
    | Wait(stage: Stage, port: Port)
    | Send(phase: Phase, port: Port)
    | Receive(port: Port)
  {
    predicate Is(x: Stage) {
      Wait? && stage == x
    }

    predicate Does(x: Phase) {
      Send? && phase == x
    }

    predicate HasMutex() {
      Send? || Receive? || Is(Checking) || Is(CvLocking) || Is(Unlocking)
    }

    predicate HasCv() {
      Does(Waking) || Does(Waked) || (Wait? && !Is(Checking) && !Is(CvLocking) && !Is(Asleep))
    }

    predicate Queued() {
      Is(Marking) || Is(Scheduling) || Is(Asleep) || Is(Removing)
    }

    /** Between queueing its message and signalling. */
    predicate Owes() {
      Does(Signalling) || Does(Waking)
    }

    /** Has given up the CPU's claim to run it. */
    predicate Drowsy() {
      this == Off(Dozing) || this == Off(Gone) || Is(Scheduling)
    }
  }

  /** The calls an idle thread can begin. */
  datatype Begin =
    | ToWait(port: Port)
    | ToSend(port: Port)
    | ToReceive(port: Port)
    | ToDoze
    | ToQuit
    | ToYield(want: Option<Thread>)

  /** A message is identified by a number. */
  type Message = nat

  datatype System = System(
    sched: State,
    pcs: map<Thread, Pc>,
    mutexes: map<Port, Option<Thread>>,
    cvs: map<Port, Option<Thread>>,
    messages: map<Port, seq<Message>>,
    sleepers: map<Port, seq<Thread>>)

  datatype Action =
    | Act(c: Cpu, begin: Begin, allowed: bool, message: Message)
    | Other(x: Step)

  // ---------- Steps ----------

  predicate PortsOk(s: System, p: Port) {
    p in s.mutexes && p in s.cvs && p in s.messages && p in s.sleepers
  }

  ghost predicate Sole(pcs: map<Thread, Pc>, p: Port) {
    forall t :: t in pcs && pcs[t].Wait? ==> pcs[t].port != p
  }

  predicate Runs(s: System, c: Cpu) {
    && RunsCode(s.sched, c)
    && s.sched.current[c].value in s.pcs
    && var pc := s.pcs[s.sched.current[c].value];
       !pc.Off? ==> PortsOk(s, pc.port)
  }

  /** A step of the scheduler, after which `t` is at `pc`. */
  ghost function Scheduled(s: System, x: Step, t: Thread, pc: Pc): Option<System> {
    if Enabled(s.sched, x) && Sched.Next(s.sched, x).Some? then
      Some(s.(sched := Sched.Next(s.sched, x).value, pcs := s.pcs[t := pc]))
    else None
  }

  ghost function LockMutex(s: System, p: Port, t: Thread, pc: Pc): Option<System> {
    if PortsOk(s, p) && s.mutexes[p].None? then
      Some(s.(mutexes := s.mutexes[p := Some(t)], pcs := s.pcs[t := pc]))
    else None
  }

  function UnlockMutex(s: System, p: Port, t: Thread, pc: Pc): System {
    s.(mutexes := s.mutexes[p := None], pcs := s.pcs[t := pc])
  }

  ghost function LockCv(s: System, p: Port, t: Thread, pc: Pc): Option<System>
    requires PortsOk(s, p)
  {
    if s.cvs[p].None? then Some(s.(cvs := s.cvs[p := Some(t)], pcs := s.pcs[t := pc])) else None
  }

  function UnlockCv(s: System, p: Port, t: Thread, pc: Pc): System {
    s.(cvs := s.cvs[p := None], pcs := s.pcs[t := pc])
  }

  /** What the thread current on `c` does next; None when it must spin, or where the kernel panics. */
  ghost function Do(s: System, c: Cpu, begin: Begin, allowed: bool, message: Message): Option<System>
    requires Runs(s, c)
  {
    var t := s.sched.current[c].value;
    match s.pcs[t]
    case Off(Idle) =>
      (match begin
       case ToWait(p) => if Sole(s.pcs, p) then LockMutex(s, p, t, Wait(Checking, p)) else None
       case ToSend(p) => LockMutex(s, p, t, Send(Sending, p))
       case ToReceive(p) => LockMutex(s, p, t, Receive(p))
       case ToDoze => Scheduled(s, Sleep(c), t, Off(Dozing))
       case ToQuit => Scheduled(s, Exit(c), t, Off(Gone))
       case ToYield(want) => Scheduled(s, Schedule(c, want), t, Off(Idle)))
    case Off(Dozing) => Scheduled(s, Schedule(c, None), t, Off(Elsewhere))
    case Off(Elsewhere) => Some(s.(pcs := s.pcs[t := Off(Idle)]))
    case Off(Gone) => Scheduled(s, Schedule(c, None), t, Off(Gone))
    case Wait(Checking, p) =>
      if s.messages[p] != [] || !allowed then Some(UnlockMutex(s, p, t, Off(Idle)))
      else Some(s.(pcs := s.pcs[t := Wait(CvLocking, p)]))
    case Wait(CvLocking, p) => LockCv(s, p, t, Wait(Unlocking, p))
    case Wait(Unlocking, p) => Some(UnlockMutex(s, p, t, Wait(Entering, p)))
    case Wait(Entering, p) => Some(s.(sleepers := s.sleepers[p := s.sleepers[p] + [t]], pcs := s.pcs[t := Wait(Marking, p)]))
    case Wait(Marking, p) => Scheduled(s, Sleep(c), t, Wait(Scheduling, p))
    case Wait(Scheduling, p) => Scheduled(s.(cvs := s.cvs[p := None]), Schedule(c, None), t, Wait(Asleep, p))
    case Wait(Asleep, p) => LockCv(s, p, t, Wait(Removing, p))
    case Wait(Removing, p) => Some(UnlockCv(s.(sleepers := s.sleepers[p := Queues.Remove(s.sleepers[p], t)]), p, t, Off(Idle)))
    case Send(Sending, p) => Some(s.(messages := s.messages[p := s.messages[p] + [message]], pcs := s.pcs[t := Send(Signalling, p)]))
    case Send(Signalling, p) => LockCv(s, p, t, Send(Waking, p))
    case Send(Waking, p) =>
      if s.sleepers[p] == [] then Some(s.(pcs := s.pcs[t := Send(Waked, p)]))
      else Scheduled(s, Sched.Wake(s.sleepers[p][0]), t, Send(Waked, p))
    case Send(Waked, p) => Some(UnlockCv(s, p, t, Send(Leaving, p)))
    case Send(Leaving, p) => Some(UnlockMutex(s, p, t, Off(Idle)))
    case Receive(p) =>
      var left := if s.messages[p] == [] then [] else s.messages[p][1..];
      Some(UnlockMutex(s.(messages := s.messages[p := left]), p, t, Off(Idle)))
  }

  /** Steps of the scheduler that no thread's own call takes. */
  ghost function Outside(s: System, x: Step): Option<System> {
    if !Enabled(s.sched, x) || Sched.Next(s.sched, x).None? then None
    else if x.Setup? then Some(s.(sched := Sched.Next(s.sched, x).value, pcs := s.pcs[x.t := Off(Idle)]))
    else if x.Pin? || x.Wake? || x.Free? || x.Resume? || (x.Schedule? && s.sched.current[x.c].None?) then
      Some(s.(sched := Sched.Next(s.sched, x).value))
    else None
  }

  ghost function Step(s: System, a: Action): Option<System> {
    match a
    case Act(c, begin, allowed, message) => if Runs(s, c) then Do(s, c, begin, allowed, message) else None
    case Other(x) => Outside(s, x)
  }

  // ---------- The invariant ----------

  /** The locks and the sleep queues are held by, and hold, the threads that are in the right places. */
  ghost predicate Held(pcs: map<Thread, Pc>, mutexes: map<Port, Option<Thread>>, cvs: map<Port, Option<Thread>>) {
    && (forall t :: t in pcs && pcs[t].HasMutex() ==> pcs[t].port in mutexes && mutexes[pcs[t].port] == Some(t))
    && (forall t :: t in pcs && pcs[t].HasCv() ==> pcs[t].port in cvs && cvs[pcs[t].port] == Some(t))
  }

  ghost predicate Lined(pcs: map<Thread, Pc>, sleepers: map<Port, seq<Thread>>) {
    && (forall t :: t in pcs && pcs[t].Queued() ==>
          pcs[t].port in sleepers && sleepers[pcs[t].port] == [t])
    && (forall p :: p in sleepers && sleepers[p] != [] ==>
          var t := sleepers[p][0];
          t in pcs && pcs[t].Queued() && pcs[t].port == p)
  }

  ghost predicate Single(pcs: map<Thread, Pc>) {
    forall t, u :: t in pcs && u in pcs && pcs[t].Wait? && pcs[u].Wait? && pcs[t].port == pcs[u].port ==> t == u
  }

  /** Some sender has queued its message and not yet signalled. */
  ghost predicate Owed(pcs: map<Thread, Pc>, p: Port) {
    exists u :: u in pcs && pcs[u].Owes() && pcs[u].port == p
  }

  ghost predicate Runnable(entries: map<Thread, Entry>, t: Thread) {
    t in entries && entries[t].runnable
  }

  /** A waiter that is past its check and cannot run has nothing to find, or is owed a signal. */
  ghost predicate Served(pcs: map<Thread, Pc>, entries: map<Thread, Entry>, messages: map<Port, seq<Message>>) {
    forall t :: t in pcs && pcs[t].Wait? && !pcs[t].Is(Checking) ==>
      var p := pcs[t].port;
      p in messages &&
      (messages[p] == [] || Owed(pcs, p) ||
       ((pcs[t].Is(Asleep) || pcs[t].Is(Removing)) && Runnable(entries, t)))
  }

  /** What the threads' places say about the scheduler's flags. */
  ghost predicate Flags(pcs: map<Thread, Pc>, sched: State) {
    && pcs.Keys == sched.entries.Keys + sched.freed
    && sched.current.Keys == sched.calls.Keys
    && (forall t :: t in pcs && pcs[t] != Off(Gone) ==> t in sched.entries && !sched.entries[t].exiting)
    && (forall t :: t in sched.entries && sched.entries[t].runnable ==> !sched.entries[t].sleeping)
    && Runners(pcs, sched)
  }

  ghost predicate Runners(pcs: map<Thread, Pc>, sched: State)
    requires sched.current.Keys == sched.calls.Keys
  {
    forall c :: c in sched.current && sched.current[c].Some? && sched.calls[c].Outside? ==>
      var t := sched.current[c].value;
      t in pcs && t in sched.entries && (pcs[t].Drowsy() || sched.entries[t].runnable)
  }

  ghost predicate Ports(s: System) {
    s.mutexes.Keys == s.cvs.Keys == s.messages.Keys == s.sleepers.Keys
  }

  ghost predicate Locks(s: System) {
    Ports(s) && Held(s.pcs, s.mutexes, s.cvs) && Single(s.pcs)
  }

  ghost predicate Still(s: System) {
    Locks(s) && Lined(s.pcs, s.sleepers) && Served(s.pcs, s.sched.entries, s.messages)
  }

  /** The part of the invariant that is not the scheduler's own. */
  ghost predicate Waits(s: System) {
    Still(s) && Flags(s.pcs, s.sched)
  }

  ghost predicate Inv(s: System) {
    Sched.Inv(s.sched) && Waits(s)
  }

  // ---------- What a thread's move keeps ----------

  /** A lock is taken when free, given back by its holder, or left alone. */
  ghost predicate LockMove(locks: map<Port, Option<Thread>>, next: map<Port, Option<Thread>>, t: Thread, p: Port,
                           had: bool, has: bool)
  {
    if had == has then next == locks
    else p in locks && (if has then locks[p].None? && next == locks[p := Some(t)] else next == locks[p := None])
  }

  ghost predicate HoldsMove(s: System, r: System, t: Thread, p: Port)
    requires t in s.pcs && t in r.pcs
  {
    && (s.pcs[t].HasMutex() || s.pcs[t].HasCv() ==> s.pcs[t].port == p)
    && (r.pcs[t].HasMutex() || r.pcs[t].HasCv() ==> r.pcs[t].port == p)
    && LockMove(s.mutexes, r.mutexes, t, p, s.pcs[t].HasMutex(), r.pcs[t].HasMutex())
    && LockMove(s.cvs, r.cvs, t, p, s.pcs[t].HasCv(), r.pcs[t].HasCv())
  }

  /** Only `t` moves, takes only free locks of `p` and gives back only its own, and waits only where it may. */
  ghost predicate Moves(s: System, r: System, t: Thread, p: Port) {
    && t in s.pcs && t in r.pcs && r.pcs == s.pcs[t := r.pcs[t]]
    && HoldsMove(s, r, t, p)
    && (r.pcs[t].Wait? ==> (s.pcs[t].Wait? && s.pcs[t].port == r.pcs[t].port) || Sole(s.pcs, r.pcs[t].port))
    && r.messages.Keys == s.messages.Keys && r.sleepers.Keys == s.sleepers.Keys
  }

  /** From a place at `p`, or outside the calls on ports, to another such place. */
  predicate Near(was: Pc, pc: Pc, p: Port) {
    (!was.Off? ==> was.port == p) && (!pc.Off? ==> pc.port == p)
  }

  lemma StaysPut(s: System, r: System, t: Thread, p: Port, pc: Pc)
    requires t in s.pcs && Near(s.pcs[t], pc, p) && (pc.Wait? ==> s.pcs[t].Wait? || Sole(s.pcs, p))
    requires s.pcs[t].HasMutex() == pc.HasMutex() && s.pcs[t].HasCv() == pc.HasCv()
    requires r == s.(pcs := s.pcs[t := pc], sched := r.sched)
    ensures Moves(s, r, t, p)
  {
  }

  lemma TakesMutex(s: System, t: Thread, p: Port, pc: Pc)
    requires t in s.pcs && Near(s.pcs[t], pc, p) && (pc.Wait? ==> s.pcs[t].Wait? || Sole(s.pcs, p))
    requires !s.pcs[t].HasMutex() && pc.HasMutex() && s.pcs[t].HasCv() == pc.HasCv()
    requires LockMutex(s, p, t, pc).Some?
    ensures Moves(s, LockMutex(s, p, t, pc).value, t, p)
  {
  }

  lemma GivesMutex(s: System, t: Thread, p: Port, pc: Pc)
    requires t in s.pcs && Near(s.pcs[t], pc, p) && (pc.Wait? ==> s.pcs[t].Wait?) && p in s.mutexes
    requires s.pcs[t].HasMutex() && !pc.HasMutex() && s.pcs[t].HasCv() == pc.HasCv()
    ensures Moves(s, UnlockMutex(s, p, t, pc), t, p)
  {
  }

  lemma TakesCv(s: System, t: Thread, p: Port, pc: Pc)
    requires t in s.pcs && Near(s.pcs[t], pc, p) && (pc.Wait? ==> s.pcs[t].Wait?)
    requires s.pcs[t].HasMutex() == pc.HasMutex() && !s.pcs[t].HasCv() && pc.HasCv()
    requires PortsOk(s, p) && LockCv(s, p, t, pc).Some?
    ensures Moves(s, LockCv(s, p, t, pc).value, t, p)
  {
  }

  lemma GivesCv(s: System, r: System, t: Thread, p: Port, pc: Pc)
    requires t in s.pcs && Near(s.pcs[t], pc, p) && (pc.Wait? ==> s.pcs[t].Wait?) && p in s.cvs
    requires s.pcs[t].HasMutex() == pc.HasMutex() && s.pcs[t].HasCv() && !pc.HasCv()
    requires r.(sched := s.sched, sleepers := s.sleepers) == UnlockCv(s, p, t, pc) && r.sleepers.Keys == s.sleepers.Keys
    ensures Moves(s, r, t, p)
  {
  }

  lemma HeldMove(s: System, r: System, t: Thread, p: Port)
    requires Held(s.pcs, s.mutexes, s.cvs) && t in s.pcs && t in r.pcs && r.pcs == s.pcs[t := r.pcs[t]]
    requires HoldsMove(s, r, t, p)
    ensures Held(r.pcs, r.mutexes, r.cvs)
  {
  }

  lemma LocksMove(s: System, r: System, t: Thread, p: Port)
    requires Locks(s) && Moves(s, r, t, p)
    ensures Locks(r)
  {
    HeldMove(s, r, t, p);
    SingleMove(s, t, r.pcs[t]);
  }

  /** The sleep queue holds the thread in both places or in neither. */
  predicate SameQueue(was: Pc, pc: Pc) {
    was.Queued() == pc.Queued() && (pc.Queued() ==> was.port == pc.port)
  }

  lemma LinedMove(s: System, t: Thread, pc: Pc)
    requires Lined(s.pcs, s.sleepers) && t in s.pcs && SameQueue(s.pcs[t], pc)
    ensures Lined(s.pcs[t := pc], s.sleepers)
  {
  }

  lemma SingleMove(s: System, t: Thread, pc: Pc)
    requires Single(s.pcs) && t in s.pcs
    requires pc.Wait? ==> (s.pcs[t].Wait? && s.pcs[t].port == pc.port) || Sole(s.pcs, pc.port)
    ensures Single(s.pcs[t := pc])
  {
  }

  /** A move that neither queues a message nor signals, nor newly enters the part of the wait past the check. */
  predicate SameDebt(was: Pc, pc: Pc) {
    && was.Owes() == pc.Owes() && (pc.Owes() ==> was.port == pc.port)
    && (pc.Wait? && !pc.Is(Checking) ==>
          && was.Wait? && !was.Is(Checking) && was.port == pc.port
          && (was.Is(Asleep) || was.Is(Removing) ==> pc.Is(Asleep) || pc.Is(Removing)))
  }

  lemma ServedMove(s: System, t: Thread, pc: Pc)
    requires Served(s.pcs, s.sched.entries, s.messages) && t in s.pcs && SameDebt(s.pcs[t], pc)
    ensures Served(s.pcs[t := pc], s.sched.entries, s.messages)
  {
    var pcs := s.pcs[t := pc];
    forall p ensures Owed(pcs, p) == Owed(s.pcs, p) {
      OwedMove(s.pcs, t, pc, p);
    }
  }

  lemma OwedMove(pcs: map<Thread, Pc>, t: Thread, pc: Pc, p: Port)
    requires t in pcs && pcs[t].Owes() == pc.Owes() && (pc.Owes() ==> pcs[t].port == pc.port)
    ensures Owed(pcs[t := pc], p) == Owed(pcs, p)
  {
    if Owed(pcs, p) {
      var u :| u in pcs && pcs[u].Owes() && pcs[u].port == p;
      assert pcs[t := pc][u].Owes();
    }
  }

  lemma FlagsMove(s: System, t: Thread, pc: Pc)
    requires Flags(s.pcs, s.sched) && t in s.pcs
    requires s.pcs[t] != Off(Gone) && !s.pcs[t].Drowsy()
    ensures Flags(s.pcs[t := pc], s.sched)
  {
  }

  /** A move that changes nothing but the thread's place and the locks. */
  lemma MoveKeeps(s: System, r: System, t: Thread, p: Port)
    requires Waits(s) && Moves(s, r, t, p) && SameQueue(s.pcs[t], r.pcs[t]) && SameDebt(s.pcs[t], r.pcs[t])
    requires s.pcs[t] != Off(Gone) && !s.pcs[t].Drowsy()
    requires r.sched == s.sched && r.messages == s.messages && r.sleepers == s.sleepers
    ensures Waits(r)
  {
    LocksMove(s, r, t, p);
    LinedMove(s, t, r.pcs[t]);
    ServedMove(s, t, r.pcs[t]);
    FlagsMove(s, t, r.pcs[t]);
  }

  /** A move by which the thread gives back the port's mutex, and no more. */
  predicate GivesOnly(was: Pc, pc: Pc, p: Port) {
    && Near(was, pc, p) && (pc.Wait? ==> was.Wait?) && SameQueue(was, pc) && SameDebt(was, pc)
    && was.HasMutex() && !pc.HasMutex() && was.HasCv() == pc.HasCv()
  }

  /** A move by which it takes the condition variable's lock, and no more. */
  predicate TakesOnly(was: Pc, pc: Pc, p: Port) {
    && Near(was, pc, p) && (pc.Wait? ==> was.Wait?) && SameQueue(was, pc) && SameDebt(was, pc)
    && was.HasMutex() == pc.HasMutex() && !was.HasCv() && pc.HasCv()
  }

  lemma GivingPlaces(p: Port)
    ensures GivesOnly(Wait(Checking, p), Off(Idle), p) && GivesOnly(Send(Leaving, p), Off(Idle), p)
    ensures GivesOnly(Wait(Unlocking, p), Wait(Entering, p), p) && GivesOnly(Receive(p), Off(Idle), p)
  {
  }

  lemma TakingPlaces(p: Port)
    ensures TakesOnly(Wait(CvLocking, p), Wait(Unlocking, p), p) && TakesOnly(Wait(Asleep, p), Wait(Removing, p), p)
    ensures TakesOnly(Send(Signalling, p), Send(Waking, p), p)
  {
  }

  lemma MutexGiven(s: System, t: Thread, p: Port, was: Pc, pc: Pc)
    requires Waits(s) && p in s.mutexes && t in s.pcs && s.pcs[t] == was && GivesOnly(was, pc, p)
    ensures Waits(UnlockMutex(s, p, t, pc))
  {
    GivesMutex(s, t, p, pc);
    MoveKeeps(s, UnlockMutex(s, p, t, pc), t, p);
  }

  lemma MutexTaken(s: System, t: Thread, p: Port, pc: Pc)
    requires Waits(s) && t in s.pcs && s.pcs[t] == Off(Idle) && LockMutex(s, p, t, pc).Some?
    requires Near(Off(Idle), pc, p) && (pc.Wait? ==> Sole(s.pcs, p)) && SameQueue(Off(Idle), pc) && SameDebt(Off(Idle), pc)
    requires pc.HasMutex() && !pc.HasCv()
    ensures Waits(LockMutex(s, p, t, pc).value)
  {
    TakesMutex(s, t, p, pc);
    MoveKeeps(s, LockMutex(s, p, t, pc).value, t, p);
  }

  lemma CvTaken(s: System, t: Thread, p: Port, was: Pc, pc: Pc)
    requires Waits(s) && PortsOk(s, p) && t in s.pcs && s.pcs[t] == was && LockCv(s, p, t, pc).Some? && TakesOnly(was, pc, p)
    ensures Waits(LockCv(s, p, t, pc).value)
  {
    TakesCv(s, t, p, pc);
    MoveKeeps(s, LockCv(s, p, t, pc).value, t, p);
  }

  /** A move while the scheduler takes a step. */
  lemma SchedMove(s: System, r: System, t: Thread, p: Port)
    requires Still(s) && Moves(s, r, t, p) && SameQueue(s.pcs[t], r.pcs[t]) && SameDebt(s.pcs[t], r.pcs[t])
    requires r.messages == s.messages && r.sleepers == s.sleepers
    requires Stay(r.pcs, s.sched.entries, r.sched.entries)
    ensures Still(r)
  {
    LocksMove(s, r, t, p);
    LinedMove(s, t, r.pcs[t]);
    ServedMove(s, t, r.pcs[t]);
    ServedStay(r.pcs, s.sched.entries, r.sched.entries, s.messages);
  }

  /** Going on from the check with nothing queued. */
  lemma ServedCheck(s: System, t: Thread, pc: Pc)
    requires Served(s.pcs, s.sched.entries, s.messages) && t in s.pcs
    requires s.pcs[t].Is(Checking) && pc.Wait? && pc.port == s.pcs[t].port
    requires pc.port in s.messages && s.messages[pc.port] == []
    ensures Served(s.pcs[t := pc], s.sched.entries, s.messages)
  {
    forall p ensures Owed(s.pcs[t := pc], p) == Owed(s.pcs, p) {
      OwedMove(s.pcs, t, pc, p);
    }
  }

  // ---------- What the scheduler's steps keep ----------

  /** The scheduler's choice changes no flag but running, and leaves a runnable thread on the CPU. */
  ghost predicate Picks(s: State, r: State, c: Cpu) {
    && r.entries.Keys == s.entries.Keys && r.freed == s.freed
    && c in r.current && c in r.calls && r.current.Keys == s.current.Keys && r.calls.Keys == s.calls.Keys
    && (forall x :: x in r.entries ==>
          && r.entries[x].runnable == s.entries[x].runnable && r.entries[x].sleeping == s.entries[x].sleeping
          && r.entries[x].exiting == s.entries[x].exiting)
    && (forall d :: d in s.current && d != c ==> r.current[d] == s.current[d])
    && (forall d :: d in s.calls && d != c ==> r.calls[d] == s.calls[d])
    && (r.calls[c].Outside? ==> r.current[c].Some? && r.current[c].value in r.entries
                                && r.entries[r.current[c].value].runnable)
  }

  lemma ChoosePicks(s: State, c: Cpu, canrun: bool, want: Option<Thread>)
    requires c in s.current && c in s.calls
    requires canrun ==> s.current[c].Some? && s.current[c].value in s.entries && s.entries[s.current[c].value].runnable
    requires Choose(s, c, canrun, want).Some?
    ensures Picks(s, Choose(s, c, canrun, want).value, c)
  {
    if FirstDead(s.exiting, s.entries).None? {
      var next := FirstEligible(s.queue, s.entries, c, want);
      FirstEligibleFacts(s.queue, s.entries, c, want, 0);
      SwitchPicks(s, c, if next.Some? then next.value else s.current[c].value);
    }
  }

  lemma SwitchPicks(s: State, c: Cpu, t: Thread)
    requires c in s.current && c in s.calls && t in s.entries && s.entries[t].runnable
    ensures Picks(s, Switch(s, c, t), c)
  {
    SwitchEntries(s, c, t);
  }

  ghost predicate Alone(s: State, c: Cpu, t: Thread) {
    c in s.current && s.current[c] == Some(t) && forall d :: d in s.current && d != c ==> s.current[d] != Some(t)
  }

  lemma OnlyHere(s: State, c: Cpu, t: Thread)
    requires Sched.Inv(s) && c in s.current && s.current[c] == Some(t)
    ensures Alone(s, c, t)
  {
  }

  lemma FlagsPick(pcs: map<Thread, Pc>, s: State, r: State, c: Cpu, t: Thread, pc: Pc)
    requires Flags(pcs, s) && Picks(s, r, c) && Alone(s, c, t)
    requires t in pcs && (pcs[t] == Off(Gone) ==> pc == Off(Gone))
    ensures Flags(pcs[t := pc], r)
  {
    RunnersPick(pcs, s, r, c, t, pc);
  }

  lemma RunnersPick(pcs: map<Thread, Pc>, s: State, r: State, c: Cpu, t: Thread, pc: Pc)
    requires s.current.Keys == s.calls.Keys && Runners(pcs, s) && Picks(s, r, c) && Alone(s, c, t)
    requires pcs.Keys == s.entries.Keys + s.freed
    ensures Runners(pcs[t := pc], r)
  {
    forall d | d in r.current && r.current[d].Some? && r.calls[d].Outside? && d != c
      ensures var u := r.current[d].value;
              u in pcs && u in r.entries && (pcs[t := pc][u].Drowsy() || r.entries[u].runnable)
    {
      assert s.current[d] != Some(t);
    }
  }

  lemma FlagsPickOther(pcs: map<Thread, Pc>, s: State, r: State, c: Cpu)
    requires Flags(pcs, s) && Picks(s, r, c)
    ensures Flags(pcs, r)
  {
    forall d | d in r.current && r.current[d].Some? && r.calls[d].Outside? && d != c
      ensures var u := r.current[d].value;
              u in pcs && u in r.entries && (pcs[u].Drowsy() || r.entries[u].runnable)
    {
      assert s.current[d] == r.current[d] && s.calls[d] == r.calls[d];
    }
  }

  /** Waiters that were runnable stay so. */
  ghost predicate Stay(pcs: map<Thread, Pc>, before: map<Thread, Entry>, after: map<Thread, Entry>) {
    forall t :: t in pcs && (pcs[t].Is(Asleep) || pcs[t].Is(Removing)) && Runnable(before, t) ==> Runnable(after, t)
  }

  lemma ServedStay(pcs: map<Thread, Pc>, before: map<Thread, Entry>, after: map<Thread, Entry>,
                   messages: map<Port, seq<Message>>)
    requires Served(pcs, before, messages) && Stay(pcs, before, after)
    ensures Served(pcs, after, messages)
  {
  }

  // ---------- One lemma a place ----------

  /** A call ends by releasing the port's mutex. */
  lemma EndKeeps(s: System, t: Thread, p: Port)
    requires Waits(s) && t in s.pcs && PortsOk(s, p) && (s.pcs[t] == Wait(Checking, p) || s.pcs[t] == Send(Leaving, p))
    ensures Waits(UnlockMutex(s, p, t, Off(Idle)))
  {
    GivingPlaces(p);
    MutexGiven(s, t, p, s.pcs[t], Off(Idle));
  }

  lemma CheckingKeeps(s: System, t: Thread, p: Port)
    requires Waits(s) && t in s.pcs && PortsOk(s, p) && s.pcs[t] == Wait(Checking, p)
    requires s.messages[p] == []
    ensures Waits(s.(pcs := s.pcs[t := Wait(CvLocking, p)]))
  {
    var r := s.(pcs := s.pcs[t := Wait(CvLocking, p)]);
    StaysPut(s, r, t, p, r.pcs[t]);
    CheckedKeeps(s, r, t, p);
  }

  /** Going on from a check that found nothing. */
  lemma CheckedKeeps(s: System, r: System, t: Thread, p: Port)
    requires Waits(s) && Moves(s, r, t, p) && s.pcs[t].Is(Checking) && r.pcs[t].Is(CvLocking) && s.pcs[t].port == r.pcs[t].port == p
    requires p in s.messages && s.messages[p] == []
    requires r == s.(pcs := r.pcs)
    ensures Waits(r)
  {
    LocksMove(s, r, t, p);
    LinedMove(s, t, r.pcs[t]);
    FlagsMove(s, t, r.pcs[t]);
    ServedCheck(s, t, r.pcs[t]);
  }

  lemma CvLockingKeeps(s: System, t: Thread, p: Port)
    requires Waits(s) && t in s.pcs && PortsOk(s, p) && s.pcs[t] == Wait(CvLocking, p)
    requires s.cvs[p].None?
    ensures Waits(LockCv(s, p, t, Wait(Unlocking, p)).value)
  {
    TakingPlaces(p);
    CvTaken(s, t, p, s.pcs[t], Wait(Unlocking, p));
  }

  lemma UnlockingKeeps(s: System, t: Thread, p: Port)
    requires Waits(s) && t in s.pcs && PortsOk(s, p) && s.pcs[t] == Wait(Unlocking, p)
    ensures Waits(UnlockMutex(s, p, t, Wait(Entering, p)))
  {
    GivingPlaces(p);
    MutexGiven(s, t, p, s.pcs[t], Wait(Entering, p));
  }

  lemma AsleepKeeps(s: System, t: Thread, p: Port)
    requires Waits(s) && t in s.pcs && PortsOk(s, p) && s.pcs[t] == Wait(Asleep, p)
    requires s.cvs[p].None?
    ensures Waits(LockCv(s, p, t, Wait(Removing, p)).value)
  {
    TakingPlaces(p);
    CvTaken(s, t, p, s.pcs[t], Wait(Removing, p));
  }

  lemma SignallingKeeps(s: System, t: Thread, p: Port)
    requires Waits(s) && t in s.pcs && PortsOk(s, p) && s.pcs[t] == Send(Signalling, p)
    requires s.cvs[p].None?
    ensures Waits(LockCv(s, p, t, Send(Waking, p)).value)
  {
    TakingPlaces(p);
    CvTaken(s, t, p, s.pcs[t], Send(Waking, p));
  }

  lemma WakedKeeps(s: System, t: Thread, p: Port)
    requires Waits(s) && t in s.pcs && PortsOk(s, p) && s.pcs[t] == Send(Waked, p)
    ensures Waits(UnlockCv(s, p, t, Send(Leaving, p)))
  {
    GivesCv(s, UnlockCv(s, p, t, Send(Leaving, p)), t, p, Send(Leaving, p));
    MoveKeeps(s, UnlockCv(s, p, t, Send(Leaving, p)), t, p);
  }

  lemma EnteringKeeps(s: System, t: Thread, p: Port)
    requires Waits(s) && t in s.pcs && s.pcs[t] == Wait(Entering, p) && PortsOk(s, p)
    ensures Waits(s.(sleepers := s.sleepers[p := s.sleepers[p] + [t]], pcs := s.pcs[t := Wait(Marking, p)]))
  {
    var r := s.(sleepers := s.sleepers[p := s.sleepers[p] + [t]], pcs := s.pcs[t := Wait(Marking, p)]);
    LocksMove(s, r, t, p);
    ServedMove(s, t, r.pcs[t]);
    FlagsMove(s, t, r.pcs[t]);
    LinedEnter(s.pcs, s.sleepers, t, p);
  }

  lemma LinedEnter(pcs: map<Thread, Pc>, sleepers: map<Port, seq<Thread>>, t: Thread, p: Port)
    requires Lined(pcs, sleepers) && Single(pcs) && t in pcs && pcs[t] == Wait(Entering, p) && p in sleepers
    ensures Lined(pcs[t := Wait(Marking, p)], sleepers[p := sleepers[p] + [t]])
  {
    assert sleepers[p] == [];
  }

  lemma RemovingKeeps(s: System, t: Thread, p: Port)
    requires Waits(s) && t in s.pcs && s.pcs[t] == Wait(Removing, p) && PortsOk(s, p)
    ensures Waits(UnlockCv(s.(sleepers := s.sleepers[p := Queues.Remove(s.sleepers[p], t)]), p, t, Off(Idle)))
  {
    var r := UnlockCv(s.(sleepers := s.sleepers[p := Queues.Remove(s.sleepers[p], t)]), p, t, Off(Idle));
    GivesCv(s, r, t, p, Off(Idle));
    LocksMove(s, r, t, p);
    ServedMove(s, t, r.pcs[t]);
    FlagsMove(s, t, r.pcs[t]);
    LinedLeave(s.pcs, s.sleepers, t, p);
  }

  lemma LinedLeave(pcs: map<Thread, Pc>, sleepers: map<Port, seq<Thread>>, t: Thread, p: Port)
    requires Lined(pcs, sleepers) && Single(pcs) && t in pcs && pcs[t] == Wait(Removing, p) && p in sleepers
    ensures Lined(pcs[t := Off(Idle)], sleepers[p := Queues.Remove(sleepers[p], t)])
  {
    assert sleepers[p] == [t] && Queues.Remove([t], t) == [];
  }

  lemma SendingKeeps(s: System, t: Thread, p: Port, message: Message)
    requires Waits(s) && t in s.pcs && s.pcs[t] == Send(Sending, p) && PortsOk(s, p)
    ensures Waits(s.(messages := s.messages[p := s.messages[p] + [message]], pcs := s.pcs[t := Send(Signalling, p)]))
  {
    var r := s.(messages := s.messages[p := s.messages[p] + [message]], pcs := s.pcs[t := Send(Signalling, p)]);
    LocksMove(s, r, t, p);
    LinedMove(s, t, r.pcs[t]);
    FlagsMove(s, t, r.pcs[t]);
    ServedSend(s.pcs, s.sched.entries, s.messages, t, p, message);
  }

  /** The sender owes a signal for what it queued. */
  lemma ServedSend(pcs: map<Thread, Pc>, entries: map<Thread, Entry>, messages: map<Port, seq<Message>>, t: Thread,
                   p: Port, message: Message)
    requires Served(pcs, entries, messages) && t in pcs && pcs[t] == Send(Sending, p) && p in messages
    ensures Served(pcs[t := Send(Signalling, p)], entries, messages[p := messages[p] + [message]])
  {
    var next := pcs[t := Send(Signalling, p)];
    assert next[t].Owes();
    forall q | Owed(pcs, q) ensures Owed(next, q) {
      var u :| u in pcs && pcs[u].Owes() && pcs[u].port == q;
      assert next[u] == pcs[u];
    }
  }

  /** Taking a message leaves no waiter without cause. */
  lemma DrainKeeps(s: System, p: Port, left: seq<Message>)
    requires Waits(s) && PortsOk(s, p) && (s.messages[p] == [] ==> left == [])
    ensures Waits(s.(messages := s.messages[p := left]))
  {
  }

  lemma ReceivingKeeps(s: System, t: Thread, p: Port, left: seq<Message>)
    requires Waits(s) && t in s.pcs && s.pcs[t] == Receive(p) && PortsOk(s, p)
    requires s.messages[p] == [] ==> left == []
    ensures Waits(UnlockMutex(s.(messages := s.messages[p := left]), p, t, Off(Idle)))
  {
    GivingPlaces(p);
    DrainKeeps(s, p, left);
    MutexGiven(s.(messages := s.messages[p := left]), t, p, s.pcs[t], Off(Idle));
  }

  /** The signal reaches the waiter: whoever waits on this port is in its sleep queue. */
  lemma ServedWake(pcs: map<Thread, Pc>, entries: map<Thread, Entry>, messages: map<Port, seq<Message>>, t: Thread,
                   p: Port)
    requires Served(pcs, entries, messages) && t in pcs && pcs[t] == Send(Waking, p) && AllWoken(pcs, entries, p)
    ensures Served(pcs[t := Send(Waked, p)], entries, messages)
  {
    var next := pcs[t := Send(Waked, p)];
    forall q | q != p && Owed(pcs, q) ensures Owed(next, q) {
      var u :| u in pcs && pcs[u].Owes() && pcs[u].port == q;
      assert next[u] == pcs[u];
    }
  }

  /** While a sender holds both locks, a waiter can only be asleep. */
  lemma WaiterAsleep(s: System, t: Thread, u: Thread, p: Port)
    requires Held(s.pcs, s.mutexes, s.cvs) && t in s.pcs && s.pcs[t] == Send(Waking, p)
    requires u in s.pcs && s.pcs[u].Wait? && s.pcs[u].port == p
    ensures s.pcs[u].Is(Asleep)
  {
  }

  lemma DrowsyFlags(pcs: map<Thread, Pc>, s: State, r: State, t: Thread, pc: Pc)
    requires Flags(pcs, s) && t in pcs && t in s.entries && t in r.entries && pc.Drowsy()
    requires r.current == s.current && r.calls == s.calls && r.freed == s.freed
    requires r.entries == s.entries[t := r.entries[t]] && !r.entries[t].runnable
    requires pc != Off(Gone) ==> !r.entries[t].exiting
    ensures Flags(pcs[t := pc], r)
  {
  }

  /** The thread marks itself asleep or exiting. */
  lemma SleepFlags(pcs: map<Thread, Pc>, s: State, c: Cpu, t: Thread, x: Step, pc: Pc)
    requires Flags(pcs, s) && RunsCode(s, c) && s.current[c] == Some(t) && t in pcs && pcs[t] != Off(Gone)
    requires x == Sleep(c) || (x == Exit(c) && pc == Off(Gone))
    requires pc.Drowsy() && Sched.Next(s, x).Some?
    ensures var r := Sched.Next(s, x).value;
            Flags(pcs[t := pc], r) && Stay(pcs[t := pc], s.entries, r.entries)
  {
    var r := Sched.Next(s, x).value;
    DrowsyFlags(pcs, s, r, t, pc);
  }

  /** What a call of scheduler_schedule by the thread on `c` keeps of the flags. */
  lemma ScheduleFlags(pcs: map<Thread, Pc>, s: State, c: Cpu, t: Thread, want: Option<Thread>, pc: Pc)
    requires Sched.Inv(s) && Enabled(s, Schedule(c, want)) && Sched.Next(s, Schedule(c, want)).Some?
    requires s.current[c] == Some(t) && Flags(pcs, s) && t in pcs && (pcs[t] == Off(Gone) ==> pc == Off(Gone))
    ensures var r := Sched.Next(s, Schedule(c, want)).value;
            Flags(pcs[t := pc], r) && Stay(pcs[t := pc], s.entries, r.entries)
  {
    var r := Sched.Next(s, Schedule(c, want)).value;
    ChoosePicks(s, c, CanRun(s, c), want);
    OnlyHere(s, c, t);
    FlagsPick(pcs, s, r, c, t, pc);
    PickStays(pcs[t := pc], s, r, c);
  }

  lemma PickStays(pcs: map<Thread, Pc>, s: State, r: State, c: Cpu)
    requires Picks(s, r, c)
    ensures Stay(pcs, s.entries, r.entries)
  {
  }

  lemma FlagsWake(pcs: map<Thread, Pc>, s: State, u: Thread)
    requires Flags(pcs, s) && Enabled(s, Sched.Wake(u))
    ensures Flags(pcs, Sched.Next(s, Sched.Wake(u)).value)
    ensures Stay(pcs, s.entries, Sched.Next(s, Sched.Wake(u)).value.entries)
  {
  }

  /** The sender signals the condition variable. */
  lemma WakingKeeps(s: System, r: System, t: Thread, p: Port)
    requires Waits(s) && t in s.pcs && s.pcs[t] == Send(Waking, p) && PortsOk(s, p)
    requires if s.sleepers[p] == [] then r == s.(pcs := s.pcs[t := Send(Waked, p)])
             else Scheduled(s, Sched.Wake(s.sleepers[p][0]), t, Send(Waked, p)) == Some(r)
    ensures Waits(r)
  {
    if s.sleepers[p] != [] {
      FlagsWake(s.pcs, s.sched, s.sleepers[p][0]);
      SchedOnly(s, r.sched);
    }
    WaitersWoken(s, r.sched.entries, t, p);
    SignalledKeeps(s.(sched := r.sched), t, p);
  }

  ghost predicate AllWoken(pcs: map<Thread, Pc>, entries: map<Thread, Entry>, p: Port) {
    forall u :: u in pcs && pcs[u].Wait? && pcs[u].port == p ==> pcs[u].Is(Asleep) && Runnable(entries, u)
  }

  lemma WaitersWoken(s: System, after: map<Thread, Entry>, t: Thread, p: Port)
    requires Held(s.pcs, s.mutexes, s.cvs) && Lined(s.pcs, s.sleepers)
    requires t in s.pcs && s.pcs[t] == Send(Waking, p) && p in s.sleepers
    requires s.sleepers[p] != [] ==> Runnable(after, s.sleepers[p][0])
    ensures AllWoken(s.pcs, after, p)
  {
    forall u | u in s.pcs && s.pcs[u].Wait? && s.pcs[u].port == p ensures s.pcs[u].Is(Asleep) && Runnable(after, u) {
      WaiterAsleep(s, t, u, p);
      assert s.sleepers[p] == [u];
    }
  }

  lemma SignalledKeeps(s: System, t: Thread, p: Port)
    requires Waits(s) && t in s.pcs && s.pcs[t] == Send(Waking, p) && AllWoken(s.pcs, s.sched.entries, p)
    ensures Waits(s.(pcs := s.pcs[t := Send(Waked, p)]))
  {
    var r := s.(pcs := s.pcs[t := Send(Waked, p)]);
    LocksMove(s, r, t, p);
    LinedMove(s, t, r.pcs[t]);
    FlagsMove(s, t, r.pcs[t]);
    ServedWake(s.pcs, s.sched.entries, s.messages, t, p);
  }

  // ---------- Every step keeps the invariant ----------

  /** A thread moves between places outside the calls on ports while the scheduler takes a step. */
  lemma OffPortsKeeps(s: System, sched: State, t: Thread, pc: Pc)
    requires Still(s) && t in s.pcs && s.pcs[t].Off? && pc.Off?
    requires Flags(s.pcs[t := pc], sched) && Stay(s.pcs[t := pc], s.sched.entries, sched.entries)
    ensures Waits(s.(sched := sched, pcs := s.pcs[t := pc]))
  {
    StaysPut(s, s.(sched := sched, pcs := s.pcs[t := pc]), t, 0, pc);
    SchedMove(s, s.(sched := sched, pcs := s.pcs[t := pc]), t, 0);
  }

  lemma MarkingKeeps(s: System, sched: State, t: Thread, p: Port)
    requires Still(s) && t in s.pcs && s.pcs[t] == Wait(Marking, p)
    requires Flags(s.pcs[t := Wait(Scheduling, p)], sched)
    requires Stay(s.pcs[t := Wait(Scheduling, p)], s.sched.entries, sched.entries)
    ensures Waits(s.(sched := sched, pcs := s.pcs[t := Wait(Scheduling, p)]))
  {
    StaysPut(s, s.(sched := sched, pcs := s.pcs[t := Wait(Scheduling, p)]), t, p, Wait(Scheduling, p));
    SchedMove(s, s.(sched := sched, pcs := s.pcs[t := Wait(Scheduling, p)]), t, p);
  }

  lemma SchedulingKeeps(s: System, sched: State, t: Thread, p: Port)
    requires Still(s) && t in s.pcs && s.pcs[t] == Wait(Scheduling, p)
    requires Flags(s.pcs[t := Wait(Asleep, p)], sched)
    requires Stay(s.pcs[t := Wait(Asleep, p)], s.sched.entries, sched.entries)
    ensures Waits(s.(sched := sched, cvs := s.cvs[p := None], pcs := s.pcs[t := Wait(Asleep, p)]))
  {
    var r := s.(sched := sched, cvs := s.cvs[p := None], pcs := s.pcs[t := Wait(Asleep, p)]);
    GivesCv(s, r, t, p, Wait(Asleep, p));
    SchedMove(s, r, t, p);
  }

  /** The thread gives up the CPU from outside the calls on ports. */
  lemma YieldSteps(s: System, c: Cpu, want: Option<Thread>, t: Thread, pc: Pc)
    requires Inv(s) && Runs(s, c) && s.sched.current[c] == Some(t)
    requires s.pcs[t].Off? && pc.Off? && (s.pcs[t] == Off(Gone) ==> pc == Off(Gone))
    requires Scheduled(s, Schedule(c, want), t, pc).Some?
    ensures Inv(Scheduled(s, Schedule(c, want), t, pc).value)
  {
    StepKeeps(s.sched, Schedule(c, want));
    ScheduleFlags(s.pcs, s.sched, c, t, want, pc);
    OffPortsKeeps(s, Sched.Next(s.sched, Schedule(c, want)).value, t, pc);
  }

  /** The thread marks itself asleep or exiting, for a reason that is no port. */
  lemma MoodSteps(s: System, c: Cpu, x: Step, t: Thread, pc: Pc)
    requires Inv(s) && Runs(s, c) && s.sched.current[c] == Some(t) && s.pcs[t] == Off(Idle)
    requires (x == Sleep(c) && pc == Off(Dozing)) || (x == Exit(c) && pc == Off(Gone))
    requires Scheduled(s, x, t, pc).Some?
    ensures Inv(Scheduled(s, x, t, pc).value)
  {
    StepKeeps(s.sched, x);
    SleepFlags(s.pcs, s.sched, c, t, x, pc);
    OffPortsKeeps(s, Sched.Next(s.sched, x).value, t, pc);
  }

  lemma MarkSteps(s: System, c: Cpu, t: Thread, p: Port)
    requires Inv(s) && Runs(s, c) && s.sched.current[c] == Some(t) && s.pcs[t] == Wait(Marking, p)
    requires Scheduled(s, Sleep(c), t, Wait(Scheduling, p)).Some?
    ensures Inv(Scheduled(s, Sleep(c), t, Wait(Scheduling, p)).value)
  {
    StepKeeps(s.sched, Sleep(c));
    SleepFlags(s.pcs, s.sched, c, t, Sleep(c), Wait(Scheduling, p));
    MarkingKeeps(s, Sched.Next(s.sched, Sleep(c)).value, t, p);
  }

  /** scheduler_schedule puts the waiter to sleep and lets go of the condition variable. */
  lemma SleepSteps(s: System, c: Cpu, t: Thread, p: Port)
    requires Inv(s) && Runs(s, c) && s.sched.current[c] == Some(t) && s.pcs[t] == Wait(Scheduling, p)
    requires Enabled(s.sched, Schedule(c, None)) && Sched.Next(s.sched, Schedule(c, None)).Some?
    ensures Inv(s.(sched := Sched.Next(s.sched, Schedule(c, None)).value, cvs := s.cvs[p := None],
                   pcs := s.pcs[t := Wait(Asleep, p)]))
  {
    StepKeeps(s.sched, Schedule(c, None));
    ScheduleFlags(s.pcs, s.sched, c, t, None, Wait(Asleep, p));
    SchedulingKeeps(s, Sched.Next(s.sched, Schedule(c, None)).value, t, p);
  }

  lemma WakeSteps(s: System, r: System, c: Cpu, t: Thread, p: Port)
    requires Inv(s) && Runs(s, c) && s.sched.current[c] == Some(t) && s.pcs[t] == Send(Waking, p)
    requires if s.sleepers[p] == [] then r == s.(pcs := s.pcs[t := Send(Waked, p)])
             else Scheduled(s, Sched.Wake(s.sleepers[p][0]), t, Send(Waked, p)) == Some(r)
    ensures Inv(r)
  {
    WakingKeeps(s, r, t, p);
    if s.sleepers[p] != [] {
      StepKeeps(s.sched, Sched.Wake(s.sleepers[p][0]));
    }
  }

  predicate Beginning(pc: Pc, p: Port) {
    pc == Wait(Checking, p) || pc == Send(Sending, p) || pc == Receive(p)
  }

  lemma BeginFacts(pc: Pc, p: Port)
    requires Beginning(pc, p)
    ensures Near(Off(Idle), pc, p) && SameQueue(Off(Idle), pc) && SameDebt(Off(Idle), pc) && pc.HasMutex() && !pc.HasCv()
  {
  }

  /** An idle thread takes the port's mutex to begin a call; at most one thread waits on a port. */
  lemma BeginSteps(s: System, t: Thread, p: Port, pc: Pc, r: System)
    requires Inv(s) && t in s.pcs && s.pcs[t] == Off(Idle) && LockMutex(s, p, t, pc) == Some(r)
    requires Beginning(pc, p) && (pc.Wait? ==> Sole(s.pcs, p))
    ensures Inv(r)
  {
    BeginFacts(pc, p);
    MutexTaken(s, t, p, pc);
  }

  /** What an idle thread's beginning of a call leads to. */
  ghost predicate IdleOutcome(s: System, c: Cpu, begin: Begin, t: Thread, r: System) {
    match begin
    case ToWait(p) => Sole(s.pcs, p) && LockMutex(s, p, t, Wait(Checking, p)) == Some(r)
    case ToSend(p) => LockMutex(s, p, t, Send(Sending, p)) == Some(r)
    case ToReceive(p) => LockMutex(s, p, t, Receive(p)) == Some(r)
    case ToDoze => Scheduled(s, Sleep(c), t, Off(Dozing)) == Some(r)
    case ToQuit => Scheduled(s, Exit(c), t, Off(Gone)) == Some(r)
    case ToYield(want) => Scheduled(s, Schedule(c, want), t, Off(Idle)) == Some(r)
  }

  lemma IdleResult(s: System, c: Cpu, begin: Begin, allowed: bool, message: Message, t: Thread, r: System)
    requires Runs(s, c) && s.sched.current[c] == Some(t) && s.pcs[t] == Off(Idle)
    requires Do(s, c, begin, allowed, message) == Some(r)
    ensures IdleOutcome(s, c, begin, t, r)
  {
  }

  lemma IdlePorts(s: System, c: Cpu, begin: Begin, t: Thread, r: System)
    requires Inv(s) && Runs(s, c) && s.sched.current[c] == Some(t) && s.pcs[t] == Off(Idle)
    requires (begin.ToWait? || begin.ToSend? || begin.ToReceive?) && IdleOutcome(s, c, begin, t, r)
    ensures Inv(r)
  {
    var p := begin.port;
    BeginSteps(s, t, p, if begin.ToWait? then Wait(Checking, p) else if begin.ToSend? then Send(Sending, p) else Receive(p), r);
  }

  lemma IdleSched(s: System, c: Cpu, begin: Begin, t: Thread, r: System)
    requires Inv(s) && Runs(s, c) && s.sched.current[c] == Some(t) && s.pcs[t] == Off(Idle)
    requires (begin.ToDoze? || begin.ToQuit? || begin.ToYield?) && IdleOutcome(s, c, begin, t, r)
    ensures Inv(r)
  {
    match begin
    case ToDoze => MoodSteps(s, c, Sleep(c), t, Off(Dozing));
    case ToQuit => MoodSteps(s, c, Exit(c), t, Off(Gone));
    case ToYield(want) => YieldSteps(s, c, want, t, Off(Idle));
  }

  lemma IdleSteps(s: System, c: Cpu, begin: Begin, allowed: bool, message: Message, t: Thread)
    requires Inv(s) && Runs(s, c) && s.sched.current[c] == Some(t) && s.pcs[t] == Off(Idle)
    requires Do(s, c, begin, allowed, message).Some?
    ensures Inv(Do(s, c, begin, allowed, message).value)
  {
    var r := Do(s, c, begin, allowed, message).value;
    IdleResult(s, c, begin, allowed, message, t, r);
    if begin.ToWait? || begin.ToSend? || begin.ToReceive? {
      IdlePorts(s, c, begin, t, r);
    } else {
      IdleSched(s, c, begin, t, r);
    }
  }

  lemma MoodySteps(s: System, c: Cpu, begin: Begin, allowed: bool, message: Message, t: Thread)
    requires Inv(s) && Runs(s, c) && s.sched.current[c] == Some(t) && s.pcs[t].Off? && s.pcs[t] != Off(Idle)
    requires Do(s, c, begin, allowed, message).Some?
    ensures Inv(Do(s, c, begin, allowed, message).value)
  {
    match s.pcs[t].mood
    case Dozing => YieldSteps(s, c, None, t, Off(Elsewhere));
    case Elsewhere => ElsewhereKeeps(s, t);
    case Gone => YieldSteps(s, c, None, t, Off(Gone));
  }

  lemma ElsewhereKeeps(s: System, t: Thread)
    requires Waits(s) && t in s.pcs && s.pcs[t] == Off(Elsewhere)
    ensures Waits(s.(pcs := s.pcs[t := Off(Idle)]))
  {
    FlagsMove(s, t, Off(Idle));
    OffPortsKeeps(s, s.sched, t, Off(Idle));
    assert s.(sched := s.sched, pcs := s.pcs[t := Off(Idle)]) == s.(pcs := s.pcs[t := Off(Idle)]);
  }

  lemma WaitSteps(s: System, c: Cpu, begin: Begin, allowed: bool, message: Message, t: Thread, p: Port)
    requires Inv(s) && Runs(s, c) && s.sched.current[c] == Some(t) && s.pcs[t].Wait? && s.pcs[t].port == p
    requires Do(s, c, begin, allowed, message).Some?
    ensures Inv(Do(s, c, begin, allowed, message).value)
  {
    match s.pcs[t].stage
    case Checking => if s.messages[p] != [] || !allowed { EndKeeps(s, t, p); } else { CheckingKeeps(s, t, p); }
    case CvLocking => CvLockingKeeps(s, t, p);
    case Unlocking => UnlockingKeeps(s, t, p);
    case Entering => EnteringKeeps(s, t, p);
    case Marking => MarkSteps(s, c, t, p);
    case Scheduling => SleepSteps(s, c, t, p);
    case Asleep => AsleepKeeps(s, t, p);
    case Removing => RemovingKeeps(s, t, p);
  }

  lemma SendSteps(s: System, c: Cpu, begin: Begin, allowed: bool, message: Message, t: Thread, p: Port)
    requires Inv(s) && Runs(s, c) && s.sched.current[c] == Some(t) && s.pcs[t].Send? && s.pcs[t].port == p
    requires Do(s, c, begin, allowed, message).Some?
    ensures Inv(Do(s, c, begin, allowed, message).value)
  {
    match s.pcs[t].phase
    case Sending => SendingKeeps(s, t, p, message);
    case Signalling => SignallingKeeps(s, t, p);
    case Waking => WakeSteps(s, Do(s, c, begin, allowed, message).value, c, t, p);
    case Waked => WakedKeeps(s, t, p);
    case Leaving => EndKeeps(s, t, p);
  }

  lemma DoKeeps(s: System, c: Cpu, begin: Begin, allowed: bool, message: Message)
    requires Inv(s) && Runs(s, c)
    requires Do(s, c, begin, allowed, message).Some?
    ensures Inv(Do(s, c, begin, allowed, message).value)
  {
    var t := s.sched.current[c].value;
    match s.pcs[t]
    case Off(mood) => if mood == Idle { IdleSteps(s, c, begin, allowed, message, t); }
                      else { MoodySteps(s, c, begin, allowed, message, t); }
    case Wait(stage, p) => WaitSteps(s, c, begin, allowed, message, t, p);
    case Send(phase, p) => SendSteps(s, c, begin, allowed, message, t, p);
    case Receive(p) => ReceivingKeeps(s, t, p, if s.messages[p] == [] then [] else s.messages[p][1..]);
  }

  // ---------- Steps of the scheduler that no thread's own call takes ----------

  lemma SchedOnly(s: System, sched: State)
    requires Waits(s) && Flags(s.pcs, sched) && Stay(s.pcs, s.sched.entries, sched.entries)
    ensures Waits(s.(sched := sched))
  {
    ServedStay(s.pcs, s.sched.entries, sched.entries, s.messages);
  }

  lemma SetupKeeps(s: System, sched: State, t: Thread)
    requires Waits(s) && t !in s.pcs && Stay(s.pcs, s.sched.entries, sched.entries)
    requires Flags(s.pcs[t := Off(Idle)], sched)
    ensures Waits(s.(sched := sched, pcs := s.pcs[t := Off(Idle)]))
  {
    ServedStay(s.pcs, s.sched.entries, sched.entries, s.messages);
    ServedNew(s.pcs, sched.entries, s.messages, t);
    HeldNew(s, t);
    LinedNew(s, t);
  }

  lemma ServedNew(pcs: map<Thread, Pc>, entries: map<Thread, Entry>, messages: map<Port, seq<Message>>, t: Thread)
    requires Served(pcs, entries, messages) && t !in pcs
    ensures Served(pcs[t := Off(Idle)], entries, messages)
  {
    forall q | Owed(pcs, q) ensures Owed(pcs[t := Off(Idle)], q) {
      var u :| u in pcs && pcs[u].Owes() && pcs[u].port == q;
      assert pcs[t := Off(Idle)][u] == pcs[u];
    }
  }

  lemma HeldNew(s: System, t: Thread)
    requires Held(s.pcs, s.mutexes, s.cvs) && t !in s.pcs
    ensures Held(s.pcs[t := Off(Idle)], s.mutexes, s.cvs)
  {
  }

  lemma LinedNew(s: System, t: Thread)
    requires Lined(s.pcs, s.sleepers) && Single(s.pcs) && t !in s.pcs
    ensures Lined(s.pcs[t := Off(Idle)], s.sleepers) && Single(s.pcs[t := Off(Idle)])
  {
  }

  lemma SetupFlags(pcs: map<Thread, Pc>, s: State, t: Thread)
    requires Flags(pcs, s) && Enabled(s, Setup(t))
    ensures var r := Sched.Next(s, Setup(t)).value;
            t !in pcs && Flags(pcs[t := Off(Idle)], r) && Stay(pcs, s.entries, r.entries)
  {
  }

  lemma PinFlags(pcs: map<Thread, Pc>, s: State, c: Cpu, t: Thread)
    requires Flags(pcs, s) && Enabled(s, Pin(c, t)) && Sched.Next(s, Pin(c, t)).Some?
    ensures var r := Sched.Next(s, Pin(c, t)).value;
            Flags(pcs, r) && Stay(pcs, s.entries, r.entries)
  {
  }

  lemma FreeFlags(pcs: map<Thread, Pc>, s: State, c: Cpu)
    requires Sched.Inv(s) && Flags(pcs, s) && Enabled(s, Free(c))
    ensures var r := Sched.Next(s, Free(c)).value;
            Flags(pcs, r) && Stay(pcs, s.entries, r.entries)
  {
    var v := s.calls[c].victim;
    assert pcs[v] == Off(Gone);
    assert Sched.Next(s, Free(c)).value.entries.Keys == s.entries.Keys - {v};
    assert forall d :: d in s.current && s.current[d].Some? ==> s.current[d].value != v;
  }

  /** A choice made by a CPU that runs no thread, or that goes on after reaping one. */
  lemma ResumeFlags(pcs: map<Thread, Pc>, s: State, x: Step)
    requires Sched.Inv(s) && Flags(pcs, s) && Enabled(s, x) && Sched.Next(s, x).Some?
    requires x.Resume? || (x.Schedule? && s.current[x.c].None?)
    ensures var r := Sched.Next(s, x).value;
            Flags(pcs, r) && Stay(pcs, s.entries, r.entries)
  {
    var r := Sched.Next(s, x).value;
    if x.Resume? {
      ChoosePicks(s, x.c, s.calls[x.c].canrun, s.calls[x.c].want);
    } else {
      ChoosePicks(s, x.c, CanRun(s, x.c), x.want);
    }
    FlagsPickOther(pcs, s, r, x.c);
    PickStays(pcs, s, r, x.c);
  }

  lemma OutsideKeeps(s: System, x: Step)
    requires Inv(s) && Outside(s, x).Some?
    ensures Inv(Outside(s, x).value)
  {
    StepKeeps(s.sched, x);
    var sched := Sched.Next(s.sched, x).value;
    match x {
      case Setup(t) =>
        SetupFlags(s.pcs, s.sched, t);
        SetupKeeps(s, sched, t);
      case Pin(c, t) =>
        PinFlags(s.pcs, s.sched, c, t);
        SchedOnly(s, sched);
      case Wake(t) =>
        FlagsWake(s.pcs, s.sched, t);
        SchedOnly(s, sched);
      case Free(c) =>
        FreeFlags(s.pcs, s.sched, c);
        SchedOnly(s, sched);
      case Resume(_) =>
        ResumeFlags(s.pcs, s.sched, x);
        SchedOnly(s, sched);
      case Schedule(_, _) =>
        ResumeFlags(s.pcs, s.sched, x);
        SchedOnly(s, sched);
      case _ =>
    }
  }

  lemma StepKeepsInv(s: System, a: Action)
    requires Inv(s) && Step(s, a).Some?
    ensures Inv(Step(s, a).value)
  {
    match a
    case Act(c, begin, allowed, message) => DoKeeps(s, c, begin, allowed, message);
    case Other(x) => OutsideKeeps(s, x);
  }

  // ---------- Runs ----------

  ghost predicate Start(s: System) {
    && Initial(s.sched) && s.pcs == map[] && Ports(s)
    && (forall p :: p in s.mutexes ==>
          s.mutexes[p] == None && s.cvs[p] == None && s.messages[p] == [] && s.sleepers[p] == [])
  }

  ghost predicate StepAt(states: seq<System>, actions: seq<Action>, i: nat)
    requires i < |actions| && |states| == |actions| + 1
  {
    Step(states[i], actions[i]) == Some(states[i + 1])
  }

  ghost predicate Run(states: seq<System>, actions: seq<Action>) {
    && |states| == |actions| + 1
    && Start(states[0])
    && forall i: nat :: i < |actions| ==> StepAt(states, actions, i)
  }

  lemma {:induction false} RunInv(states: seq<System>, actions: seq<Action>, i: nat)
    requires Run(states, actions) && i < |states|
    ensures Inv(states[i])
  {
    if i == 0 {
      InitialInv(states[0].sched);
    } else {
      RunInv(states, actions, i - 1);
      assert StepAt(states, actions, i - 1);
      StepKeepsInv(states[i - 1], actions[i - 1]);
    }
  }

  /**
    No wake-up is lost.  In every state of every run: when a message is queued on a port and no
    sender stands between queueing its message and signalling, a thread that went to sleep on the
    port's empty queue runs, or is in the run queue and can be chosen.
   */
  lemma NoLostWakeup(states: seq<System>, actions: seq<Action>, i: nat, t: Thread, p: Port)
    requires Run(states, actions) && i < |states|
    requires t in states[i].pcs && states[i].pcs[t].Wait? && states[i].pcs[t].port == p
    requires states[i].pcs[t].Is(Scheduling) || states[i].pcs[t].Is(Asleep)
    requires p in states[i].messages && states[i].messages[p] != []
    requires forall u :: u in states[i].pcs && states[i].pcs[u].Owes() ==> states[i].pcs[u].port != p
    ensures t in states[i].sched.entries
    ensures states[i].sched.entries[t].running || Sched.Waits(states[i].sched, t)
  {
    RunInv(states, actions, i);
    Woken(states[i], t, p);
  }

  lemma Woken(s: System, t: Thread, p: Port)
    requires Inv(s) && t in s.pcs && s.pcs[t].Wait? && s.pcs[t].port == p && !s.pcs[t].Is(Checking)
    requires p in s.messages && s.messages[p] != []
    requires forall u :: u in s.pcs && s.pcs[u].Owes() ==> s.pcs[u].port != p
    ensures Runnable(s.sched.entries, t)
    ensures s.sched.entries[t].running || Sched.Waits(s.sched, t)
  {
    assert !Owed(s.pcs, p);
    assert !Victim(s.sched, t);
  }

  /** The panic for a thread that is already sleeping cannot be reached from a wait on a port. */
  lemma NeverAlreadySleeping(states: seq<System>, actions: seq<Action>, i: nat, c: Cpu)
    requires Run(states, actions) && i < |states|
    requires Runs(states[i], c) && states[i].pcs[states[i].sched.current[c].value].Is(Marking)
    ensures Sched.Next(states[i].sched, Sleep(c)).Some?
  {
    RunInv(states, actions, i);
  }

  /** A thread that runs again finds its own entry, and nobody else's, in the port's sleep queue. */
  lemma RemovesItself(states: seq<System>, actions: seq<Action>, i: nat, t: Thread)
    requires Run(states, actions) && i < |states|
    requires t in states[i].pcs && states[i].pcs[t].Is(Removing)
    ensures var p := states[i].pcs[t].port;
            p in states[i].sleepers && states[i].sleepers[p] == [t]
            && p in states[i].cvs && states[i].cvs[p] == Some(t)
  {
    RunInv(states, actions, i);
  }

  // ---------- The course of a call ----------

  function WaitPlace(stage: Stage): nat {
    match stage
    case Checking => 0 case CvLocking => 1 case Unlocking => 2 case Entering => 3
    case Marking => 4 case Scheduling => 5 case Asleep => 6 case Removing => 7
  }

  function SendPlace(phase: Phase): nat {
    match phase
    case Sending => 0 case Signalling => 1 case Waking => 2 case Waked => 3 case Leaving => 4
  }

  /** A wait or a send goes through its places in order and skips none; only a check may end a wait early. */
  predicate Course(pc: Pc, next: Pc) {
    match pc
    case Off(_) => true
    case Wait(stage, p) =>
      if next.Wait? then next.port == p && WaitPlace(next.stage) == WaitPlace(stage) + 1
      else next == Off(Idle) && (stage == Removing || stage == Checking)
    case Send(phase, p) =>
      if next.Send? then next.port == p && SendPlace(next.phase) == SendPlace(phase) + 1
      else next == Off(Idle) && phase == Leaving
    case Receive(_) => next == Off(Idle)
  }

  /** The calls that an idle thread begins, and how the other places outside the ports follow each other. */
  ghost predicate Begins(pc: Pc, begin: Begin, next: Pc)
    requires pc.Off?
  {
    match pc.mood
    case Idle =>
      (match begin
       case ToWait(p) => next == Wait(Checking, p)
       case ToSend(p) => next == Send(Sending, p)
       case ToReceive(p) => next == Receive(p)
       case ToDoze => next == Off(Dozing)
       case ToQuit => next == Off(Gone)
       case ToYield(_) => next == Off(Idle))
    case Dozing => next == Off(Elsewhere)
    case Elsewhere => next == Off(Idle)
    case Gone => next == Off(Gone)
  }

  /** What a place's next place is. */
  ghost predicate Proceeds(s: System, c: Cpu, begin: Begin, allowed: bool, r: System)
    requires Runs(s, c)
  {
    var t := s.sched.current[c].value;
    && t in r.pcs && r.pcs == s.pcs[t := r.pcs[t]]
    && Course(s.pcs[t], r.pcs[t])
    && (s.pcs[t].Off? ==> Begins(s.pcs[t], begin, r.pcs[t]))
    && (s.pcs[t].Is(Checking) ==> (r.pcs[t] == Off(Idle) <==> s.messages[s.pcs[t].port] != [] || !allowed))
  }

  lemma WaitGoes(s: System, c: Cpu, begin: Begin, allowed: bool, message: Message, r: System)
    requires Runs(s, c) && s.pcs[s.sched.current[c].value].Wait? && Do(s, c, begin, allowed, message) == Some(r)
    ensures Proceeds(s, c, begin, allowed, r)
  {
  }

  lemma SendGoes(s: System, c: Cpu, begin: Begin, allowed: bool, message: Message, r: System)
    requires Runs(s, c) && s.pcs[s.sched.current[c].value].Send? && Do(s, c, begin, allowed, message) == Some(r)
    ensures Proceeds(s, c, begin, allowed, r)
  {
  }

  lemma IdleGoes(s: System, c: Cpu, begin: Begin, allowed: bool, message: Message, r: System)
    requires Runs(s, c) && s.pcs[s.sched.current[c].value] == Off(Idle) && Do(s, c, begin, allowed, message) == Some(r)
    ensures Proceeds(s, c, begin, allowed, r)
  {
  }

  lemma OtherGoes(s: System, c: Cpu, begin: Begin, allowed: bool, message: Message, r: System)
    requires Runs(s, c) && Do(s, c, begin, allowed, message) == Some(r)
    requires var pc := s.pcs[s.sched.current[c].value]; pc != Off(Idle) && (pc.Off? || pc.Receive?)
    ensures Proceeds(s, c, begin, allowed, r)
  {
  }

  /** Whoever acts goes on in its course; a check ends the wait exactly when there is a message or it may not wait. */
  lemma Goes(s: System, c: Cpu, begin: Begin, allowed: bool, message: Message, r: System)
    requires Runs(s, c) && Do(s, c, begin, allowed, message) == Some(r)
    ensures Proceeds(s, c, begin, allowed, r)
  {
    var pc := s.pcs[s.sched.current[c].value];
    if pc.Wait? {
      WaitGoes(s, c, begin, allowed, message, r);
    } else if pc.Send? {
      SendGoes(s, c, begin, allowed, message, r);
    } else if pc == Off(Idle) {
      IdleGoes(s, c, begin, allowed, message, r);
    } else {
      OtherGoes(s, c, begin, allowed, message, r);
    }
  }

  // ---------- When a thread must wait ----------

  ghost predicate NobodyCanRun(s: State, c: Cpu) {
    NothingToRun(s, c, CanRunNow(s, c), None)
  }

  /** What holds the thread up. */
  ghost predicate HeldUp(s: System, c: Cpu, begin: Begin)
    requires Runs(s, c)
  {
    match s.pcs[s.sched.current[c].value]
    case Off(Idle) =>
      (match begin
       case ToWait(p) => !Sole(s.pcs, p) || !PortsOk(s, p) || s.mutexes[p].Some?
       case ToSend(p) => !PortsOk(s, p) || s.mutexes[p].Some?
       case ToReceive(p) => !PortsOk(s, p) || s.mutexes[p].Some?
       case _ => false)
    case Off(Elsewhere) => false
    case Off(_) => NobodyCanRun(s.sched, c)
    case Wait(Scheduling, p) => NobodyCanRun(s.sched, c)
    case Wait(CvLocking, p) => s.cvs[p].Some?
    case Wait(Asleep, p) => s.cvs[p].Some?
    case Send(Signalling, p) => s.cvs[p].Some?
    case _ => false
  }

  /** The scheduler's steps panic only where a CPU has nothing to run. */
  ghost predicate SchedulerGoes(s: System, c: Cpu, begin: Begin)
    requires Runs(s, c)
  {
    var pc := s.pcs[s.sched.current[c].value];
    && (pc == Off(Idle) && begin.ToYield? ==> Sched.Next(s.sched, Schedule(c, begin.want)).Some?)
    && (pc == Off(Idle) ==> Sched.Next(s.sched, Sleep(c)).Some? && Sched.Next(s.sched, Exit(c)).Some?)
    && (pc.Is(Marking) ==> Sched.Next(s.sched, Sleep(c)).Some?)
    && (Sched.Next(s.sched, Schedule(c, None)).None? <==> NobodyCanRun(s.sched, c))
    && (pc.Does(Waking) && s.sleepers[pc.port] != [] ==> Enabled(s.sched, Sched.Wake(s.sleepers[pc.port][0])))
  }

  lemma SchedulerAlways(s: System, c: Cpu, begin: Begin)
    requires Inv(s) && Runs(s, c)
    ensures SchedulerGoes(s, c, begin)
  {
    ScheduleGoes(s.sched, c, None);
    if begin.ToYield? {
      ScheduleGoes(s.sched, c, begin.want);
    }
    SignalGoes(s);
    OwnFlags(s.pcs, s.sched, c);
    SchedulerPlain(s, c, begin);
  }

  lemma SchedulerPlain(s: System, c: Cpu, begin: Begin)
    requires Runs(s, c) && OwnAwake(s.pcs, s.sched, c) && Wakable(s)
    requires Sched.Next(s.sched, Schedule(c, None)).None? <==> NobodyCanRun(s.sched, c)
    requires begin.ToYield? ==>
               (Sched.Next(s.sched, Schedule(c, begin.want)).None? <==>
                NothingToRun(s.sched, c, CanRunNow(s.sched, c), begin.want))
    ensures SchedulerGoes(s, c, begin)
  {
  }

  /** A thread that has not given up its CPU is runnable, and neither asleep nor exiting. */
  ghost predicate OwnAwake(pcs: map<Thread, Pc>, s: State, c: Cpu)
    requires RunsCode(s, c)
  {
    var t := s.current[c].value;
    t in pcs && !pcs[t].Drowsy() ==> CanRunNow(s, c) && !s.entries[t].sleeping && !s.entries[t].exiting
  }

  /** The first sleeper can always be woken. */
  ghost predicate Wakable(s: System) {
    forall p :: p in s.sleepers && s.sleepers[p] != [] ==> Enabled(s.sched, Sched.Wake(s.sleepers[p][0]))
  }

  lemma ScheduleGoes(s: State, c: Cpu, want: Option<Thread>)
    requires Sched.Inv(s) && Enabled(s, Schedule(c, want))
    ensures Sched.Next(s, Schedule(c, want)).None? <==> NothingToRun(s, c, CanRunNow(s, c), want)
  {
    PanicExact(s, Schedule(c, want));
  }

  lemma OwnFlags(pcs: map<Thread, Pc>, s: State, c: Cpu)
    requires Flags(pcs, s) && RunsCode(s, c)
    ensures OwnAwake(pcs, s, c)
  {
  }

  lemma SignalGoes(s: System)
    requires Lined(s.pcs, s.sleepers) && Flags(s.pcs, s.sched)
    ensures Wakable(s)
  {
  }

  lemma StuckPlain(s: System, c: Cpu, begin: Begin, allowed: bool, message: Message)
    requires Runs(s, c) && SchedulerGoes(s, c, begin)
    ensures Do(s, c, begin, allowed, message).None? <==> HeldUp(s, c, begin)
  {
  }

  /**
    A thread is held up only by a lock that another holds, by a port that is missing or has its waiter,
    or, when it gives up its CPU for good, by a CPU with nothing else to run, which panics.
   */
  lemma StuckExact(s: System, c: Cpu, begin: Begin, allowed: bool, message: Message)
    requires Inv(s) && Runs(s, c)
    ensures Do(s, c, begin, allowed, message).None? <==> HeldUp(s, c, begin)
  {
    SchedulerAlways(s, c, begin);
    StuckPlain(s, c, begin, allowed, message);
  }

  // ---------- Locks ----------

  /** A lock is held only by a thread in a place that has it. */
  ghost predicate HeldBack(s: System) {
    && (forall p :: p in s.mutexes && s.mutexes[p].Some? ==>
          var t := s.mutexes[p].value; t in s.pcs && s.pcs[t].HasMutex() && s.pcs[t].port == p)
    && (forall p :: p in s.cvs && s.cvs[p].Some? ==>
          var t := s.cvs[p].value; t in s.pcs && s.pcs[t].HasCv() && s.pcs[t].port == p)
  }

  lemma WaitHolds(s: System, c: Cpu, begin: Begin, allowed: bool, message: Message, t: Thread, r: System)
    requires Runs(s, c) && s.sched.current[c] == Some(t) && s.pcs[t].Wait?
    requires Do(s, c, begin, allowed, message) == Some(r)
    ensures t in r.pcs && r.pcs == s.pcs[t := r.pcs[t]] && HoldsMove(s, r, t, s.pcs[t].port)
  {
    if WaitPlace(s.pcs[t].stage) < 4 {
      EarlyHolds(s, c, begin, allowed, message, t, r);
    } else {
      LateHolds(s, c, begin, allowed, message, t, r);
    }
  }

  lemma EarlyHolds(s: System, c: Cpu, begin: Begin, allowed: bool, message: Message, t: Thread, r: System)
    requires Runs(s, c) && s.sched.current[c] == Some(t) && s.pcs[t].Wait? && WaitPlace(s.pcs[t].stage) < 4
    requires Do(s, c, begin, allowed, message) == Some(r)
    ensures t in r.pcs && r.pcs == s.pcs[t := r.pcs[t]] && HoldsMove(s, r, t, s.pcs[t].port)
  {
  }

  lemma LateHolds(s: System, c: Cpu, begin: Begin, allowed: bool, message: Message, t: Thread, r: System)
    requires Runs(s, c) && s.sched.current[c] == Some(t) && s.pcs[t].Wait? && WaitPlace(s.pcs[t].stage) >= 4
    requires Do(s, c, begin, allowed, message) == Some(r)
    ensures t in r.pcs && r.pcs == s.pcs[t := r.pcs[t]] && HoldsMove(s, r, t, s.pcs[t].port)
  {
  }

  lemma SendHolds(s: System, c: Cpu, begin: Begin, allowed: bool, message: Message, t: Thread, r: System)
    requires Runs(s, c) && s.sched.current[c] == Some(t) && (s.pcs[t].Send? || s.pcs[t].Receive?)
    requires Do(s, c, begin, allowed, message) == Some(r)
    ensures t in r.pcs && r.pcs == s.pcs[t := r.pcs[t]] && HoldsMove(s, r, t, s.pcs[t].port)
  {
  }

  lemma OffHolds(s: System, c: Cpu, begin: Begin, allowed: bool, message: Message, t: Thread, r: System) returns (p: Port)
    requires Runs(s, c) && s.sched.current[c] == Some(t) && s.pcs[t].Off?
    requires Do(s, c, begin, allowed, message) == Some(r)
    ensures t in r.pcs && r.pcs == s.pcs[t := r.pcs[t]] && HoldsMove(s, r, t, p)
  {
    p := if begin.ToWait? || begin.ToSend? || begin.ToReceive? then begin.port else 0;
  }

  /** What an action does to the locks is what its thread's places say. */
  lemma DoHolds(s: System, c: Cpu, begin: Begin, allowed: bool, message: Message, t: Thread, r: System) returns (p: Port)
    requires Runs(s, c) && s.sched.current[c] == Some(t) && Do(s, c, begin, allowed, message) == Some(r)
    ensures t in r.pcs && r.pcs == s.pcs[t := r.pcs[t]] && HoldsMove(s, r, t, p)
  {
    match s.pcs[t]
    case Off(_) => p := OffHolds(s, c, begin, allowed, message, t, r);
    case Wait(_, q) =>
      p := q;
      WaitHolds(s, c, begin, allowed, message, t, r);
    case _ =>
      p := s.pcs[t].port;
      SendHolds(s, c, begin, allowed, message, t, r);
  }

  lemma HeldBackMove(s: System, r: System, t: Thread, p: Port)
    requires HeldBack(s) && t in s.pcs && t in r.pcs && r.pcs == s.pcs[t := r.pcs[t]] && HoldsMove(s, r, t, p)
    ensures HeldBack(r)
  {
  }

  lemma HeldBackAct(s: System, c: Cpu, begin: Begin, allowed: bool, message: Message, r: System)
    requires HeldBack(s) && Runs(s, c) && Do(s, c, begin, allowed, message) == Some(r)
    ensures HeldBack(r)
  {
    var t := s.sched.current[c].value;
    var p := DoHolds(s, c, begin, allowed, message, t, r);
    HeldBackMove(s, r, t, p);
  }

  lemma HeldBackOutside(s: System, x: Step, r: System)
    requires HeldBack(s) && Outside(s, x) == Some(r) && (x.Setup? ==> x.t !in s.pcs)
    ensures HeldBack(r)
  {
  }

  lemma HeldBackStep(s: System, a: Action, r: System)
    requires Flags(s.pcs, s.sched) && HeldBack(s) && Step(s, a) == Some(r)
    ensures HeldBack(r)
  {
    match a
    case Act(c, begin, allowed, message) => HeldBackAct(s, c, begin, allowed, message, r);
    case Other(x) => HeldBackOutside(s, x, r);
  }

  /** In every run exactly the threads inside the calls on a port, at the places that have them, hold its locks. */
  lemma {:induction false} LocksExact(states: seq<System>, actions: seq<Action>, n: nat)
    requires Run(states, actions) && n <= |actions|
    ensures Held(states[n].pcs, states[n].mutexes, states[n].cvs) && HeldBack(states[n])
  {
    LocksHeld(states, actions, n);
    if n > 0 {
      LocksExact(states, actions, n - 1);
      HeldBackAt(states, actions, n - 1);
    }
  }

  lemma HeldBackAt(states: seq<System>, actions: seq<Action>, n: nat)
    requires Run(states, actions) && n < |actions| && HeldBack(states[n])
    ensures HeldBack(states[n + 1])
  {
    LocksHeld(states, actions, n);
    assert StepAt(states, actions, n);
    HeldBackStep(states[n], actions[n], states[n + 1]);
  }

  lemma LocksHeld(states: seq<System>, actions: seq<Action>, n: nat)
    requires Run(states, actions) && n <= |actions|
    ensures Held(states[n].pcs, states[n].mutexes, states[n].cvs) && Flags(states[n].pcs, states[n].sched)
  {
    RunInv(states, actions, n);
  }

  // ---------- Messages ----------

  /** The thread on the CPU queues the action's message on `p`. */
  ghost predicate SendsOn(s: System, a: Action, p: Port) {
    a.Act? && Runs(s, a.c) && s.pcs[s.sched.current[a.c].value] == Send(Sending, p)
  }

  /** The thread on the CPU takes a message from `p`. */
  ghost predicate TakesFrom(s: System, a: Action, p: Port) {
    && a.Act? && Runs(s, a.c) && s.pcs[s.sched.current[a.c].value] == Receive(p)
    && p in s.messages && s.messages[p] != []
  }

  ghost function SentOn(states: seq<System>, actions: seq<Action>, n: nat, p: Port): seq<Message>
    requires |states| == |actions| + 1 && n <= |actions|
  {
    if n == 0 then []
    else SentOn(states, actions, n - 1, p) + if SendsOn(states[n - 1], actions[n - 1], p) then [actions[n - 1].message] else []
  }

  ghost function TakenOff(states: seq<System>, actions: seq<Action>, n: nat, p: Port): seq<Message>
    requires |states| == |actions| + 1 && n <= |actions|
  {
    if n == 0 then []
    else TakenOff(states, actions, n - 1, p)
         + if TakesFrom(states[n - 1], actions[n - 1], p) then [states[n - 1].messages[p][0]] else []
  }

  lemma MessagesStep(s: System, a: Action, p: Port)
    requires Step(s, a).Some? && p in s.messages
    ensures var r := Step(s, a).value;
            && p in r.messages
            && r.messages[p] == if SendsOn(s, a, p) then s.messages[p] + [a.message]
                                else if TakesFrom(s, a, p) then s.messages[p][1..] else s.messages[p]
  {
  }

  /** In every run, what was sent on a port is what was received from it, in that order, and then what is queued. */
  lemma {:induction false} Fifo(states: seq<System>, actions: seq<Action>, n: nat, p: Port)
    requires Run(states, actions) && n <= |actions| && p in states[0].messages
    ensures p in states[n].messages
    ensures SentOn(states, actions, n, p) == TakenOff(states, actions, n, p) + states[n].messages[p]
  {
    if n > 0 {
      Fifo(states, actions, n - 1, p);
      assert StepAt(states, actions, n - 1);
      MessagesStep(states[n - 1], actions[n - 1], p);
    }
  }

  // ---------- What the scheduler is asked ----------

  /** The thread signals, or someone wakes, `t`. */
  ghost predicate Rouses(s: System, a: Action, t: Thread) {
    || a == Other(Sched.Wake(t))
    || (&& a.Act? && Runs(s, a.c) && s.pcs[s.sched.current[a.c].value].Does(Waking)
        && var p := s.pcs[s.sched.current[a.c].value].port; s.sleepers[p] != [] && s.sleepers[p][0] == t)
  }

  /** What a thread's action asks of the scheduler, by its place. */
  ghost function Asks(s: System, c: Cpu, begin: Begin): Option<Sched.Step>
    requires Runs(s, c)
  {
    match s.pcs[s.sched.current[c].value]
    case Off(Idle) =>
      if begin.ToDoze? then Some(Sleep(c)) else if begin.ToQuit? then Some(Exit(c))
      else if begin.ToYield? then Some(Schedule(c, begin.want)) else None
    case Off(Elsewhere) => None
    case Off(_) => Some(Schedule(c, None))
    case Wait(Marking, _) => Some(Sleep(c))
    case Wait(Scheduling, _) => Some(Schedule(c, None))
    case Send(Waking, p) => if s.sleepers[p] == [] then None else Some(Sched.Wake(s.sleepers[p][0]))
    case _ => None
  }

  ghost function AskedBy(s: System, a: Action): Option<Sched.Step>
    requires a.Act? ==> Runs(s, a.c)
  {
    if a.Act? then Asks(s, a.c, a.begin) else Some(a.x)
  }

  ghost predicate SchedTakes(s: State, x: Option<Sched.Step>, r: State) {
    if x.None? then r == s else Sched.Moves(s, x.value, r)
  }

  /** An action takes the scheduler's step that it asks for, and no other. */
  lemma SchedulerSteps(s: System, a: Action, r: System)
    requires Step(s, a) == Some(r)
    ensures (a.Act? ==> Runs(s, a.c)) && SchedTakes(s.sched, AskedBy(s, a), r.sched)
  {
    if a.Act? {
      ActTakes(s, a.c, a.begin, a.allowed, a.message, r);
    }
  }

  lemma ActTakes(s: System, c: Cpu, begin: Begin, allowed: bool, message: Message, r: System)
    requires Runs(s, c) && Do(s, c, begin, allowed, message) == Some(r)
    ensures SchedTakes(s.sched, Asks(s, c, begin), r.sched)
  {
    match s.pcs[s.sched.current[c].value]
    case Off(_) => OffTakes(s, c, begin, allowed, message, r);
    case Wait(_, _) => WaitTakes(s, c, begin, allowed, message, r);
    case _ => SendTakes(s, c, begin, allowed, message, r);
  }

  lemma OffTakes(s: System, c: Cpu, begin: Begin, allowed: bool, message: Message, r: System)
    requires Runs(s, c) && s.pcs[s.sched.current[c].value].Off? && Do(s, c, begin, allowed, message) == Some(r)
    ensures SchedTakes(s.sched, Asks(s, c, begin), r.sched)
  {
  }

  lemma WaitTakes(s: System, c: Cpu, begin: Begin, allowed: bool, message: Message, r: System)
    requires Runs(s, c) && s.pcs[s.sched.current[c].value].Wait? && Do(s, c, begin, allowed, message) == Some(r)
    ensures SchedTakes(s.sched, Asks(s, c, begin), r.sched)
  {
  }

  lemma SendTakes(s: System, c: Cpu, begin: Begin, allowed: bool, message: Message, r: System)
    requires Runs(s, c) && Do(s, c, begin, allowed, message) == Some(r)
    requires s.pcs[s.sched.current[c].value].Send? || s.pcs[s.sched.current[c].value].Receive?
    ensures SchedTakes(s.sched, Asks(s, c, begin), r.sched)
  {
  }

  // ---------- Nobody returns from a sleep unwoken ----------

  /** Marked asleep in a wait, and not yet out of it. */
  ghost predicate Sleeper(s: System, t: Thread) {
    t in s.pcs && (s.pcs[t].Is(Scheduling) || s.pcs[t].Is(Asleep) || s.pcs[t].Is(Removing))
  }

  ghost predicate ActsAt(s: System, a: Action, t: Thread, stage: Stage) {
    a.Act? && Runs(s, a.c) && s.sched.current[a.c] == Some(t) && s.pcs[t].Is(stage)
  }

  /** A thread's place changes only by its own action, in its course; a new thread is idle. */
  ghost predicate PlaceMoves(s: System, a: Action, r: System, t: Thread) {
    t in r.pcs ==>
      if t !in s.pcs then r.pcs[t] == Off(Idle)
      else
        || r.pcs[t] == s.pcs[t]
        || (&& a.Act? && Runs(s, a.c) && s.sched.current[a.c] == Some(t) && Course(s.pcs[t], r.pcs[t])
            && (s.pcs[t].Off? ==> Begins(s.pcs[t], a.begin, r.pcs[t])))
  }

  lemma PlaceStep(s: System, a: Action, r: System, t: Thread)
    requires Flags(s.pcs, s.sched) && Step(s, a) == Some(r)
    ensures PlaceMoves(s, a, r, t)
  {
    if a.Act? {
      Goes(s, a.c, a.begin, a.allowed, a.message, r);
    }
  }

  lemma PlaceAt(states: seq<System>, actions: seq<Action>, n: nat, t: Thread)
    requires Run(states, actions) && n < |actions|
    ensures PlaceMoves(states[n], actions[n], states[n + 1], t)
  {
    LocksHeld(states, actions, n);
    assert StepAt(states, actions, n);
    PlaceStep(states[n], actions[n], states[n + 1], t);
  }

  /** Step `m` marked the thread asleep, and it has been in that wait since. */
  ghost predicate MarkedAt(states: seq<System>, actions: seq<Action>, m: nat, n: nat, t: Thread)
    requires |states| == |actions| + 1 && n <= |actions|
  {
    m < n && ActsAt(states[m], actions[m], t, Marking) && forall k :: m < k <= n ==> Sleeper(states[k], t)
  }

  lemma SleeperWas(states: seq<System>, actions: seq<Action>, n: nat, t: Thread)
    requires Run(states, actions) && n <= |actions| && Sleeper(states[n], t)
    ensures n > 0 && (Sleeper(states[n - 1], t) || ActsAt(states[n - 1], actions[n - 1], t, Marking))
  {
    if n > 0 {
      PlaceAt(states, actions, n - 1, t);
    }
  }

  lemma {:induction false} MarkedSince(states: seq<System>, actions: seq<Action>, n: nat, t: Thread) returns (m: nat)
    requires Run(states, actions) && n <= |actions| && Sleeper(states[n], t)
    ensures MarkedAt(states, actions, m, n, t)
  {
    SleeperWas(states, actions, n, t);
    if Sleeper(states[n - 1], t) {
      m := MarkedSince(states, actions, n - 1, t);
    } else {
      m := n - 1;
    }
  }

  ghost predicate RousedIn(states: seq<System>, actions: seq<Action>, m: nat, n: nat, t: Thread)
    requires |states| == |actions| + 1 && n <= |actions|
  {
    exists j :: m < j < n && Rouses(states[j], actions[j], t)
  }

  /** A step makes a thread runnable only by rousing it, and being marked asleep takes that away. */
  ghost predicate RunnableMoves(s: System, a: Action, r: System, t: Thread) {
    Runnable(r.sched.entries, t) && t in s.sched.entries ==>
      (Rouses(s, a, t) || Runnable(s.sched.entries, t)) && !ActsAt(s, a, t, Marking)
  }

  lemma AsksRouses(s: System, a: Action, t: Thread)
    requires a.Act? ==> Runs(s, a.c)
    ensures AskedBy(s, a) == Some(Sched.Wake(t)) ==> Rouses(s, a, t)
    ensures ActsAt(s, a, t, Marking) ==> AskedBy(s, a) == Some(Sleep(a.c))
  {
  }

  lemma RunnableStep(s: System, a: Action, r: System, t: Thread)
    requires Sched.Inv(s.sched) && (a.Act? ==> Runs(s, a.c)) && SchedTakes(s.sched, AskedBy(s, a), r.sched)
    ensures RunnableMoves(s, a, r, t)
  {
    AsksRouses(s, a, t);
    var x := AskedBy(s, a);
    if x.Some? && t in r.sched.entries && t in s.sched.entries {
      RunnableFlag(s.sched, x.value, r.sched, t);
    }
  }

  lemma RunnableFlag(s: State, x: Step, r: State, t: Thread)
    requires Sched.Inv(s) && Sched.Moves(s, x, r) && t in r.entries && t in s.entries
    ensures r.entries[t].runnable <==>
            x == Sched.Wake(t) || (s.entries[t].runnable && !Sleeps(s, x, t) && !Quits(s, x, t))
  {
    Sched.StepFlags(s, x, r, t);
  }

  lemma RunnableAt(states: seq<System>, actions: seq<Action>, n: nat, t: Thread)
    requires Run(states, actions) && n < |actions|
    ensures RunnableMoves(states[n], actions[n], states[n + 1], t)
  {
    RunInv(states, actions, n);
    assert StepAt(states, actions, n);
    SchedulerSteps(states[n], actions[n], states[n + 1]);
    RunnableStep(states[n], actions[n], states[n + 1], t);
  }

  /** What Flags says of a thread in a wait: it has an entry, and if it runs, past the mark, it is runnable. */
  lemma WaiterFlags(states: seq<System>, actions: seq<Action>, n: nat, t: Thread, c: Cpu)
    requires Run(states, actions) && n <= |actions| && t in states[n].pcs && states[n].pcs[t].Wait?
    ensures t in states[n].sched.entries
    ensures Runs(states[n], c) && states[n].sched.current[c] == Some(t) && !states[n].pcs[t].Is(Scheduling) ==>
              Runnable(states[n].sched.entries, t)
  {
    LocksHeld(states, actions, n);
  }

  lemma {:induction false} UnrousedRests(states: seq<System>, actions: seq<Action>, m: nat, n: nat, t: Thread)
    requires Run(states, actions) && n <= |actions| && MarkedAt(states, actions, m, n, t)
    requires !RousedIn(states, actions, m, n, t)
    ensures !Runnable(states[n].sched.entries, t)
    decreases n
  {
    RunnableAt(states, actions, n - 1, t);
    if m < n - 1 {
      assert Sleeper(states[n - 1], t);
      UnrousedRests(states, actions, m, n - 1, t);
    }
    WaiterFlags(states, actions, n - 1, t, 0);
  }

  /** In every run a thread leaves its sleep only when it was woken since it was marked asleep. */
  lemma {:induction false} ReturnsOnlyWoken(states: seq<System>, actions: seq<Action>, n: nat, t: Thread)
    returns (m: nat, j: nat)
    requires Run(states, actions) && n <= |actions| && t in states[n].pcs && states[n].pcs[t].Is(Removing)
    ensures MarkedAt(states, actions, m, n, t) && m < j < n && Rouses(states[j], actions[j], t)
  {
    SleeperWas(states, actions, n, t);
    PlaceAt(states, actions, n - 1, t);
    if states[n - 1].pcs[t].Is(Removing) {
      m, j := ReturnsOnlyWoken(states, actions, n - 1, t);
    } else {
      m := MarkedSince(states, actions, n - 1, t);
      WaiterFlags(states, actions, n - 1, t, actions[n - 1].c);
      if !RousedIn(states, actions, m, n - 1, t) {
        UnrousedRests(states, actions, m, n - 1, t);
      }
      j :| m < j < n - 1 && Rouses(states[j], actions[j], t);
    }
  }

  /** What happens outside the threads' own actions: whatever the scheduler allows there. */
  lemma OutsideExact(s: System, x: Step)
    ensures Outside(s, x).Some? <==>
            && Enabled(s.sched, x) && Sched.Next(s.sched, x).Some? && !x.Sleep? && !x.Exit?
            && (x.Schedule? ==> s.sched.current[x.c] == None)
  {
  }
}
