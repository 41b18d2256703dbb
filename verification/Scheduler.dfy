/**
  The scheduler (mk/core/core_scheduler.c) on any number of CPUs, as a machine whose steps
  are the regions in which the scheduler lock is held.  Reaping drops the lock around
  thread_free, so a call of scheduler_schedule can take several steps.
 */
module SchedulerModel {
  import opened Optional
  import opened Queues

  type Thread = nat
  type Cpu = nat

  /** struct scheduler_entry: se_flags and se_oncpu. */
  datatype Entry = Entry(running: bool, pinned: bool, sleeping: bool, runnable: bool, exiting: bool,
                         oncpu: Option<Cpu>)

  const DEFAULT := Entry(false, false, false, false, false, None)

  /** Where a CPU is in scheduler_schedule. */
  datatype Call =
    | Outside
    | Reaping(victim: Thread, canrun: bool, want: Option<Thread>)
    | Reaped(canrun: bool, want: Option<Thread>)

  datatype State = State(
    queue: seq<Thread>,
    exiting: seq<Thread>,
    entries: map<Thread, Entry>,
    current: map<Cpu, Option<Thread>>,
    calls: map<Cpu, Call>,
    freed: set<Thread>)

  // ---------- Queues ----------

  /** How many entries stand ahead of `t`. */
  ghost function Ahead(q: seq<Thread>, t: Thread): nat {
    if q == [] || q[0] == t then 0 else 1 + Ahead(q[1..], t)
  }

  // ---------- The choices of scheduler_schedule ----------

  predicate Dead(e: Entry) { !e.running }

  /** The first exiting thread that no longer runs. */
  function FirstDead(q: seq<Thread>, entries: map<Thread, Entry>): Option<Thread> {
    if q == [] then None
    else if q[0] in entries && Dead(entries[q[0]]) then Some(q[0])
    else FirstDead(q[1..], entries)
  }

  predicate Eligible(t: Thread, e: Entry, c: Cpu, want: Option<Thread>) {
    e.runnable && !e.running && (e.pinned ==> e.oncpu == Some(c)) && (want.Some? ==> want.value == t)
  }

  /** The first thread of the queue that may run on `c`, among those wanted. */
  function FirstEligible(q: seq<Thread>, entries: map<Thread, Entry>, c: Cpu, want: Option<Thread>): Option<Thread> {
    if q == [] then None
    else if q[0] in entries && Eligible(q[0], entries[q[0]], c, want) then Some(q[0])
    else FirstEligible(q[1..], entries, c, want)
  }

  // ---------- Steps ----------

  datatype Step =
    | Setup(t: Thread)
    | Pin(c: Cpu, t: Thread)
    | Wake(t: Thread)
    | Sleep(c: Cpu)
    | Exit(c: Cpu)
    | Schedule(c: Cpu, want: Option<Thread>)
    | Free(c: Cpu)
    | Resume(c: Cpu)

  /** The thread on `c` is running its own code, not inside scheduler_schedule. */
  predicate RunsCode(s: State, c: Cpu) {
    && c in s.current && c in s.calls && s.calls[c].Outside?
    && s.current[c].Some? && s.current[c].value in s.entries
  }

  /**
    Who calls what: a thread is set up once, and is woken, pinned, put to sleep or exited while
    it exists; only a thread itself goes to sleep or exits, and nobody wakes an exiting one.
   */
  predicate Enabled(s: State, x: Step) {
    match x
    case Setup(t) => t !in s.entries && t !in s.freed
    case Pin(c, t) => c in s.current && t in s.entries
    case Wake(t) => t in s.entries && !s.entries[t].exiting
    case Sleep(c) => RunsCode(s, c)
    case Exit(c) => RunsCode(s, c)
    case Schedule(c, want) =>
      && c in s.current && c in s.calls && s.calls[c].Outside?
      && (s.current[c].Some? ==> s.current[c].value in s.entries)
    case Free(c) => c in s.calls && s.calls[c].Reaping?
    case Resume(c) => c in s.calls && s.calls[c].Reaped? && c in s.current
  }

  function CanRun(s: State, c: Cpu): bool
    requires c in s.current && (s.current[c].Some? ==> s.current[c].value in s.entries)
  {
    s.current[c].Some? && s.entries[s.current[c].value].runnable
  }

  /** scheduler_switch from the thread current on `c` to `t`. */
  function Switch(s: State, c: Cpu, t: Thread): State
    requires c in s.current && t in s.entries
  {
    var left :=
      match s.current[c]
      case None => s.entries
      case Some(o) =>
        if o !in s.entries then s.entries
        else
          var stopped := s.entries[o := s.entries[o].(running := false)];
          if stopped[o].pinned then stopped else stopped[t := stopped[t].(oncpu := None)];
    s.(queue := ToTail(s.queue, t),
       entries := left[t := left[t].(running := true, oncpu := Some(c))],
       current := s.current[c := Some(t)],
       calls := s.calls[c := Outside])
  }

  /** scheduler_schedule from its label `restart` to where it drops the lock; None is its panic. */
  function Choose(s: State, c: Cpu, canrun: bool, want: Option<Thread>): Option<State>
    requires c in s.current
  {
    var dead := FirstDead(s.exiting, s.entries);
    if dead.Some? then
      Some(s.(exiting := Remove(s.exiting, dead.value), calls := s.calls[c := Reaping(dead.value, canrun, want)]))
    else
      var next := FirstEligible(s.queue, s.entries, c, want);
      if next.Some? && next.value in s.entries then Some(Switch(s, c, next.value))
      else if canrun && s.current[c].Some? && s.current[c].value in s.entries then
        Some(Switch(s, c, s.current[c].value))
      else None
  }

  /** What a step leads to; None is a panic. */
  function Next(s: State, x: Step): Option<State>
    requires Enabled(s, x)
  {
    match x
    case Setup(t) => Some(s.(queue := s.queue + [t], entries := s.entries[t := DEFAULT]))
    case Pin(c, t) =>
      var e := s.entries[t];
      if e.running || e.runnable || e.pinned then None
      else Some(s.(entries := s.entries[t := e.(pinned := true, oncpu := Some(c))]))
    case Wake(t) =>
      Some(s.(entries := s.entries[t := s.entries[t].(sleeping := false, runnable := true)]))
    case Sleep(c) =>
      var t := s.current[c].value;
      var e := s.entries[t];
      if e.sleeping then None
      else Some(s.(entries := s.entries[t := e.(runnable := false, sleeping := true)]))
    case Exit(c) =>
      var t := s.current[c].value;
      var e := s.entries[t];
      if e.exiting then None
      else Some(s.(entries := s.entries[t := e.(runnable := false, exiting := true)],
                   queue := Remove(s.queue, t), exiting := s.exiting + [t]))
    case Schedule(c, want) => Choose(s, c, CanRun(s, c), want)
    case Free(c) =>
      var call := s.calls[c];
      Some(s.(entries := s.entries - {call.victim}, freed := s.freed + {call.victim},
              calls := s.calls[c := Reaped(call.canrun, call.want)]))
    case Resume(c) => Choose(s, c, s.calls[c].canrun, s.calls[c].want)
  }

  // ---------- The invariant ----------

  ghost predicate Victim(s: State, t: Thread) {
    exists c :: c in s.calls && s.calls[c].Reaping? && s.calls[c].victim == t
  }

  /** Exactly the running threads are current, each on the CPU its entry names. */
  ghost predicate RunningOn(entries: map<Thread, Entry>, current: map<Cpu, Option<Thread>>) {
    && (forall c :: c in current && current[c].Some? ==>
          var t := current[c].value;
          t in entries && entries[t].running && entries[t].oncpu == Some(c))
    && (forall t :: t in entries && entries[t].running ==>
          var c := entries[t].oncpu;
          c.Some? && c.value in current && current[c.value] == Some(t))
  }

  ghost predicate Running(s: State) {
    RunningOn(s.entries, s.current)
  }

  /** Every thread not yet freed is in exactly one queue, or unlinked by exactly one reaper. */
  ghost predicate Queued(s: State) {
    && NoRepeats(s.queue) && NoRepeats(s.exiting)
    && (forall t :: t in s.queue ==> t in s.entries && !s.entries[t].exiting)
    && (forall t :: t in s.exiting ==> t in s.entries && s.entries[t].exiting && !Victim(s, t))
    && (forall t :: t in s.entries ==> t in s.queue || t in s.exiting || Victim(s, t))
    && (forall c, d :: c in s.calls && d in s.calls && c != d && s.calls[c].Reaping? && s.calls[d].Reaping? ==>
          s.calls[c].victim != s.calls[d].victim)
  }

  ghost predicate Calls(s: State) {
    && s.current.Keys == s.calls.Keys
    && (forall t :: t in s.freed ==> t !in s.entries)
    && (forall t :: t in s.entries && s.entries[t].exiting ==> !s.entries[t].runnable)
    && (forall t :: t in s.entries && s.entries[t].pinned ==> s.entries[t].oncpu.Some?)
    && (forall c :: c in s.calls && s.calls[c].Reaping? ==>
          var t := s.calls[c].victim;
          t in s.entries && s.entries[t].exiting && !s.entries[t].running)
    && (forall c :: c in s.calls && !s.calls[c].Outside? && s.calls[c].canrun ==>
          s.current[c].Some? && s.current[c].value in s.entries && s.entries[s.current[c].value].runnable)
  }

  ghost predicate Inv(s: State) {
    Running(s) && Queued(s) && Calls(s)
  }

  ghost predicate Initial(s: State) {
    && s.queue == [] && s.exiting == [] && s.entries == map[] && s.freed == {}
    && s.current.Keys == s.calls.Keys
    && (forall c :: c in s.current ==> s.current[c] == None && s.calls[c] == Outside)
  }

  // ---------- Lemmas on the choices ----------

  lemma {:induction false} FirstDeadFacts(q: seq<Thread>, entries: map<Thread, Entry>)
    ensures var r := FirstDead(q, entries);
            r.Some? ==> r.value in q && r.value in entries && Dead(entries[r.value])
  {
    if q != [] {
      FirstDeadFacts(q[1..], entries);
    }
  }

  /** The choice is eligible, and no eligible thread stands ahead of it. */
  lemma {:induction false} FirstEligibleFacts(q: seq<Thread>, entries: map<Thread, Entry>, c: Cpu,
                                              want: Option<Thread>, t: Thread)
    ensures var r := FirstEligible(q, entries, c, want);
            && (r.Some? ==> r.value in q && r.value in entries && Eligible(r.value, entries[r.value], c, want))
            && (t in q && t in entries && Eligible(t, entries[t], c, want) ==>
                  r.Some? && Ahead(q, r.value) <= Ahead(q, t))
  {
    if q != [] {
      FirstEligibleFacts(q[1..], entries, c, want, t);
    }
  }

  // ---------- Every step keeps the invariant ----------

  /** A change of flags that leaves running, exiting and the CPU alone, and wakes only a thread that is not exiting. */
  lemma FlagsKeep(s: State, t: Thread, e: Entry)
    requires Inv(s) && t in s.entries
    requires var was := s.entries[t];
             && e.running == was.running && e.exiting == was.exiting
             && (e.runnable ==> was.runnable || !was.exiting)
             && (e.pinned ==> e.oncpu.Some?) && (was.running ==> e.oncpu == was.oncpu)
    requires !e.runnable ==>
               forall c :: c in s.calls && s.current[c] == Some(t) && !s.calls[c].Outside? ==> !s.calls[c].canrun
    ensures Inv(s.(entries := s.entries[t := e]))
  {
    FlagsQueues(s, t, e);
    FlagsRun(s, t, e);
    FlagsCalls(s, t, e);
  }

  lemma FlagsCalls(s: State, t: Thread, e: Entry)
    requires Calls(s) && t in s.entries && e.running == s.entries[t].running && e.exiting == s.entries[t].exiting
    requires e.runnable ==> s.entries[t].runnable || !s.entries[t].exiting
    requires e.pinned ==> e.oncpu.Some?
    requires !e.runnable ==>
               forall c :: c in s.calls && s.current[c] == Some(t) && !s.calls[c].Outside? ==> !s.calls[c].canrun
    ensures Calls(s.(entries := s.entries[t := e]))
  {
  }

  lemma FlagsRun(s: State, t: Thread, e: Entry)
    requires Running(s) && t in s.entries && e.running == s.entries[t].running
    requires e.running ==> e.oncpu == s.entries[t].oncpu
    ensures Running(s.(entries := s.entries[t := e]))
  {
  }

  lemma FlagsQueues(s: State, t: Thread, e: Entry)
    requires Queued(s) && t in s.entries && e.exiting == s.entries[t].exiting
    ensures Queued(s.(entries := s.entries[t := e]))
  {
    var r := s.(entries := s.entries[t := e]);
    assert forall x :: Victim(s, x) == Victim(r, x);
  }

  lemma SetupKeeps(s: State, t: Thread)
    requires Inv(s) && t !in s.entries && t !in s.freed
    ensures Inv(Next(s, Setup(t)).value)
  {
    SetupQueues(s, t);
    SetupRuns(s, t);
  }

  lemma SetupRuns(s: State, t: Thread)
    requires Running(s) && Calls(s) && t !in s.entries && t !in s.freed
    ensures Running(Next(s, Setup(t)).value) && Calls(Next(s, Setup(t)).value)
  {
  }

  lemma SetupQueues(s: State, t: Thread)
    requires Queued(s) && t !in s.entries && t !in s.freed
    ensures Queued(Next(s, Setup(t)).value)
  {
    var r := Next(s, Setup(t)).value;
    assert forall x :: Victim(s, x) == Victim(r, x);
    assert t !in s.queue && t !in s.exiting;
  }

  lemma ExitKeeps(s: State, c: Cpu)
    requires Inv(s) && RunsCode(s, c) && Next(s, Exit(c)).Some?
    ensures Inv(Next(s, Exit(c)).value)
  {
    ExitQueues(s, c);
    ExitRuns(s, c);
  }

  lemma ExitRuns(s: State, c: Cpu)
    requires Running(s) && Calls(s) && RunsCode(s, c) && Next(s, Exit(c)).Some?
    ensures Running(Next(s, Exit(c)).value) && Calls(Next(s, Exit(c)).value)
  {
    FlagsRun(s, s.current[c].value, Next(s, Exit(c)).value.entries[s.current[c].value]);
  }

  lemma ExitQueues(s: State, c: Cpu)
    requires Running(s) && Queued(s) && Calls(s) && RunsCode(s, c) && Next(s, Exit(c)).Some?
    ensures Queued(Next(s, Exit(c)).value)
  {
    var r := Next(s, Exit(c)).value;
    var t := s.current[c].value;
    assert forall x :: Victim(s, x) == Victim(r, x);
    RemoveFacts(s.queue, t);
    assert t !in s.exiting && t in s.queue;
  }

  lemma FreeKeeps(s: State, c: Cpu)
    requires Inv(s) && c in s.calls && s.calls[c].Reaping?
    ensures Inv(Next(s, Free(c)).value)
  {
    FreeVictims(s, c);
    FreeRuns(s, c);
    FreeCalls(s, c);
  }

  lemma FreeRuns(s: State, c: Cpu)
    requires Running(s) && c in s.calls && s.calls[c].Reaping?
    requires var v := s.calls[c].victim; v in s.entries && !s.entries[v].running
    ensures Running(Next(s, Free(c)).value)
  {
    var r := Next(s, Free(c)).value;
    assert r.entries.Keys == s.entries.Keys - {s.calls[c].victim};
  }

  lemma FreeCalls(s: State, c: Cpu)
    requires Inv(s) && c in s.calls && s.calls[c].Reaping?
    ensures Calls(Next(s, Free(c)).value)
  {
    var r := Next(s, Free(c)).value;
    assert r.entries.Keys == s.entries.Keys - {s.calls[c].victim};
  }

  lemma FreeVictims(s: State, c: Cpu)
    requires Queued(s) && c in s.calls && s.calls[c].Reaping?
    requires var v := s.calls[c].victim; v in s.entries && s.entries[v].exiting
    ensures Queued(Next(s, Free(c)).value)
  {
    var r := Next(s, Free(c)).value;
    var v := s.calls[c].victim;
    assert Victim(s, v);
    forall x ensures Victim(r, x) <==> Victim(s, x) && x != v {
      if Victim(s, x) && x != v {
        var d :| d in s.calls && s.calls[d].Reaping? && s.calls[d].victim == x;
        assert r.calls[d] == s.calls[d];
      }
    }
  }

  /** Unlinking a dead thread from the exiting queue hands it to one reaper. */
  lemma UnlinkKeeps(s: State, c: Cpu, v: Thread, canrun: bool, want: Option<Thread>)
    requires Inv(s) && c in s.current && !s.calls[c].Reaping?
    requires v in s.exiting && Dead(s.entries[v])
    requires canrun ==> s.current[c].Some? && s.current[c].value in s.entries && s.entries[s.current[c].value].runnable
    ensures Inv(s.(exiting := Remove(s.exiting, v), calls := s.calls[c := Reaping(v, canrun, want)]))
  {
    UnlinkQueues(s, c, v, canrun, want);
    UnlinkCalls(s, c, v, canrun, want);
  }

  lemma UnlinkCalls(s: State, c: Cpu, v: Thread, canrun: bool, want: Option<Thread>)
    requires Calls(s) && c in s.current
    requires v in s.entries && s.entries[v].exiting && Dead(s.entries[v])
    requires canrun ==> s.current[c].Some? && s.current[c].value in s.entries && s.entries[s.current[c].value].runnable
    ensures Calls(s.(exiting := Remove(s.exiting, v), calls := s.calls[c := Reaping(v, canrun, want)]))
  {
  }

  lemma UnlinkQueues(s: State, c: Cpu, v: Thread, canrun: bool, want: Option<Thread>)
    requires Queued(s) && c in s.calls && !s.calls[c].Reaping?
    requires v in s.exiting
    ensures Queued(s.(exiting := Remove(s.exiting, v), calls := s.calls[c := Reaping(v, canrun, want)]))
  {
    var r := s.(exiting := Remove(s.exiting, v), calls := s.calls[c := Reaping(v, canrun, want)]);
    RemoveFacts(s.exiting, v);
    assert r.calls[c].victim == v;
    forall x ensures Victim(r, x) <==> Victim(s, x) || x == v {
      if x != v && Victim(s, x) {
        var d :| d in s.calls && s.calls[d].Reaping? && s.calls[d].victim == x;
        assert r.calls[d] == s.calls[d];
      }
    }
    forall d, e | d in r.calls && e in r.calls && d != e && r.calls[d].Reaping? && r.calls[e].Reaping?
      ensures r.calls[d].victim != r.calls[e].victim
    {
      assert d != c ==> Victim(s, r.calls[d].victim);
      assert e != c ==> Victim(s, r.calls[e].victim);
    }
  }

  /** Switching changes no flag but running, and moves no thread but `t` to another CPU. */
  lemma SwitchEntries(s: State, c: Cpu, t: Thread)
    requires c in s.current && t in s.entries
    ensures var r := Switch(s, c, t).entries;
            && r.Keys == s.entries.Keys
            && (forall x :: x in r ==>
                  && r[x].pinned == s.entries[x].pinned && r[x].exiting == s.entries[x].exiting
                  && r[x].runnable == s.entries[x].runnable && r[x].sleeping == s.entries[x].sleeping
                  && (x != t ==> r[x].oncpu == s.entries[x].oncpu)
                  && (x != t ==> r[x].running == (s.entries[x].running && s.current[c] != Some(x))))
            && r[t].running && r[t].oncpu == Some(c)
  {
  }

  /** No reaper changes its victim when another CPU's call changes from and to anything but reaping. */
  lemma SameVictims(s: State, r: State, c: Cpu)
    requires c in s.calls && !s.calls[c].Reaping?
    requires r.calls == s.calls[c := Outside]
    ensures forall x :: Victim(r, x) == Victim(s, x)
  {
    forall x ensures Victim(r, x) == Victim(s, x) {
      if Victim(s, x) {
        var d :| d in s.calls && s.calls[d].Reaping? && s.calls[d].victim == x;
        assert r.calls[d] == s.calls[d];
      }
    }
  }

  /** Switching to a queued thread that runs nowhere else. */
  lemma SwitchKeeps(s: State, c: Cpu, t: Thread)
    requires Inv(s) && c in s.current && !s.calls[c].Reaping?
    requires t in s.queue
    requires s.entries[t].running ==> s.current[c] == Some(t)
    ensures Inv(Switch(s, c, t))
  {
    SwitchRuns(s, c, t);
    SwitchQueues(s, c, t);
    SwitchCalls(s, c, t);
  }

  lemma SwitchQueues(s: State, c: Cpu, t: Thread)
    requires Queued(s) && c in s.current && c in s.calls && !s.calls[c].Reaping?
    requires t in s.queue
    ensures Queued(Switch(s, c, t))
  {
    var r := Switch(s, c, t);
    SwitchEntries(s, c, t);
    ToTailFacts(s.queue, t);
    SameVictims(s, r, c);
  }

  lemma SwitchCalls(s: State, c: Cpu, t: Thread)
    requires Running(s) && Calls(s) && c in s.current && !s.calls[c].Reaping?
    requires t in s.entries && !s.entries[t].exiting
    ensures Calls(Switch(s, c, t))
  {
    SwitchEntries(s, c, t);
  }

  /** After the switch exactly the current threads run. */
  lemma SwitchRuns(s: State, c: Cpu, t: Thread)
    requires Running(s) && c in s.current && t in s.entries
    requires s.entries[t].running ==> s.current[c] == Some(t)
    ensures Running(Switch(s, c, t))
  {
    SwitchEntries(s, c, t);
    Handover(s.entries, Switch(s, c, t).entries, s.current, c, t);
  }

  lemma Handover(before: map<Thread, Entry>, after: map<Thread, Entry>, current: map<Cpu, Option<Thread>>,
                 c: Cpu, t: Thread)
    requires RunningOn(before, current) && c in current && t in before
    requires before[t].running ==> current[c] == Some(t)
    requires after.Keys == before.Keys && after[t].running && after[t].oncpu == Some(c)
    requires forall x :: x in after && x != t ==>
               && after[x].oncpu == before[x].oncpu
               && after[x].running == (before[x].running && current[c] != Some(x))
    ensures RunningOn(after, current[c := Some(t)])
  {
  }

  lemma ChooseKeeps(s: State, c: Cpu, canrun: bool, want: Option<Thread>)
    requires Inv(s) && c in s.current && !s.calls[c].Reaping?
    requires canrun ==> s.current[c].Some? && s.current[c].value in s.entries && s.entries[s.current[c].value].runnable
    ensures var r := Choose(s, c, canrun, want); r.Some? ==> Inv(r.value)
  {
    var dead := FirstDead(s.exiting, s.entries);
    FirstDeadFacts(s.exiting, s.entries);
    if dead.Some? {
      UnlinkKeeps(s, c, dead.value, canrun, want);
    } else {
      var next := FirstEligible(s.queue, s.entries, c, want);
      FirstEligibleFacts(s.queue, s.entries, c, want, 0);
      if next.Some? {
        SwitchKeeps(s, c, next.value);
      } else if canrun {
        CurrentQueued(s, c);
        SwitchKeeps(s, c, s.current[c].value);
      }
    }
  }

  /** A current thread that is still runnable is in the run queue. */
  lemma CurrentQueued(s: State, c: Cpu)
    requires Inv(s) && c in s.current && s.current[c].Some?
    requires s.entries[s.current[c].value].runnable
    ensures s.current[c].value in s.queue
  {
    var t := s.current[c].value;
    assert !s.entries[t].exiting;
    assert !Victim(s, t);
  }

  lemma StepKeeps(s: State, x: Step)
    requires Inv(s) && Enabled(s, x)
    ensures Next(s, x).Some? ==> Inv(Next(s, x).value)
  {
    match x
    case Setup(t) => SetupKeeps(s, t);
    case Pin(c, t) =>
      if Next(s, x).Some? {
        FlagsKeep(s, t, s.entries[t].(pinned := true, oncpu := Some(c)));
      }
    case Wake(t) => FlagsKeep(s, t, s.entries[t].(sleeping := false, runnable := true));
    case Sleep(c) =>
      var t := s.current[c].value;
      FlagsKeep(s, t, s.entries[t].(runnable := false, sleeping := true));
    case Exit(c) => if Next(s, x).Some? { ExitKeeps(s, c); }
    case Schedule(c, want) => ChooseKeeps(s, c, CanRun(s, c), want);
    case Free(c) => FreeKeeps(s, c);
    case Resume(c) => ChooseKeeps(s, c, s.calls[c].canrun, s.calls[c].want);
  }

  // ---------- Runs ----------

  ghost predicate Moves(s: State, x: Step, r: State) {
    Enabled(s, x) && Next(s, x) == Some(r)
  }

  ghost predicate MovesAt(states: seq<State>, steps: seq<Step>, i: nat)
    requires i < |steps| && |states| == |steps| + 1
  {
    Moves(states[i], steps[i], states[i + 1])
  }

  /** A stretch of a run: any steps of any CPUs, from a state that meets the invariant. */
  ghost predicate Stretch(states: seq<State>, steps: seq<Step>) {
    && |states| == |steps| + 1
    && Inv(states[0])
    && forall i: nat :: i < |steps| ==> MovesAt(states, steps, i)
  }

  lemma InitialInv(s: State)
    requires Initial(s)
    ensures Inv(s)
  {
    assert forall x :: !Victim(s, x);
  }

  /** Every state of every run meets the invariant. */
  lemma {:induction false} RunKeeps(states: seq<State>, steps: seq<Step>, i: nat)
    requires Stretch(states, steps) && i < |states|
    ensures Inv(states[i])
  {
    if i > 0 {
      RunKeeps(states, steps, i - 1);
      assert MovesAt(states, steps, i - 1);
      StepKeeps(states[i - 1], steps[i - 1]);
    }
  }

  /** What the invariant means to a reader: who runs, and where every thread is. */
  lemma Meaning(s: State, t: Thread)
    requires Inv(s)
    ensures t in s.entries && s.entries[t].running <==> exists c :: c in s.current && s.current[c] == Some(t)
    ensures forall c, d :: c in s.current && d in s.current && s.current[c] == Some(t) && s.current[d] == Some(t) ==>
              c == d
    ensures t in s.entries ==>
              var places := multiset(s.queue)[t] + multiset(s.exiting)[t];
              && (Victim(s, t) ==> places == 0 && !s.entries[t].running)
              && (!Victim(s, t) ==> places == 1)
    ensures t in s.freed ==> t !in s.queue && t !in s.exiting && !Victim(s, t)
  {
    if t in s.entries && s.entries[t].running {
      assert s.current[s.entries[t].oncpu.value] == Some(t);
    }
    Occurs(s.queue, t);
    Occurs(s.exiting, t);
  }

  // ---------- What a choice does ----------

  /** The first of the exiting threads that no longer runs. */
  ghost predicate Reapable(s: State, v: Thread, k: nat) {
    && k < |s.exiting| && s.exiting[k] == v && v in s.entries && !s.entries[v].running
    && forall j :: 0 <= j < k ==> s.exiting[j] in s.entries && s.entries[s.exiting[j]].running
  }

  ghost predicate NoneReapable(s: State) {
    forall v :: v in s.exiting ==> v in s.entries && s.entries[v].running
  }

  /** A queued thread that is runnable, runs nowhere, is not kept from `c`, and is wanted if any is. */
  ghost predicate Ready(s: State, t: Thread, c: Cpu, want: Option<Thread>) {
    && t in s.entries && s.entries[t].runnable && !s.entries[t].running
    && (!s.entries[t].pinned || s.entries[t].oncpu == Some(c))
    && (want == None || want == Some(t))
  }

  ghost predicate FirstReady(s: State, t: Thread, k: nat, c: Cpu, want: Option<Thread>) {
    && k < |s.queue| && s.queue[k] == t && Ready(s, t, c, want)
    && forall j :: 0 <= j < k ==> !Ready(s, s.queue[j], c, want)
  }

  ghost predicate NoneReady(s: State, c: Cpu, want: Option<Thread>) {
    forall t :: t in s.queue ==> !Ready(s, t, c, want)
  }

  /** The CPU has gone over to `t`, which is now last in the queue; nothing else has changed. */
  ghost predicate Switched(s: State, c: Cpu, t: Thread, r: State) {
    && c in s.current && r.current == s.current[c := Some(t)] && r.calls == s.calls[c := Outside]
    && r.queue == Remove(s.queue, t) + [t] && r.exiting == s.exiting && r.freed == s.freed
    && r.entries.Keys == s.entries.Keys
    && forall x :: x in r.entries ==>
         && SameFlags(s.entries[x], r.entries[x])
         && r.entries[x].running == (x == t || (s.entries[x].running && s.current[c] != Some(x)))
         && r.entries[x].oncpu == if x == t then Some(c) else s.entries[x].oncpu
  }

  predicate SameFlags(e: Entry, f: Entry) {
    e.runnable == f.runnable && e.sleeping == f.sleeping && e.exiting == f.exiting && e.pinned == f.pinned
  }

  lemma {:induction false} FirstDeadNone(q: seq<Thread>, entries: map<Thread, Entry>)
    requires forall v :: v in q ==> v in entries
    ensures FirstDead(q, entries).None? <==> forall v :: v in q ==> entries[v].running
  {
    if q != [] {
      FirstDeadNone(q[1..], entries);
      assert q == [q[0]] + q[1..];
    }
  }

  lemma {:induction false} FirstDeadAt(q: seq<Thread>, entries: map<Thread, Entry>, k: nat)
    requires k < |q| && q[k] in entries && !entries[q[k]].running
    requires forall j :: 0 <= j < k ==> q[j] in entries && entries[q[j]].running
    ensures FirstDead(q, entries) == Some(q[k])
  {
    if k > 0 {
      FirstDeadAt(q[1..], entries, k - 1);
    }
  }

  lemma {:induction false} FirstReadyNone(s: State, q: seq<Thread>, c: Cpu, want: Option<Thread>)
    ensures FirstEligible(q, s.entries, c, want).None? <==> forall t :: t in q ==> !Ready(s, t, c, want)
  {
    if q != [] {
      FirstReadyNone(s, q[1..], c, want);
      assert q[0] in q && forall t :: t in q <==> t == q[0] || t in q[1..];
      assert Ready(s, q[0], c, want) <==> q[0] in s.entries && Eligible(q[0], s.entries[q[0]], c, want);
    }
  }

  lemma {:induction false} FirstReadyAt(s: State, q: seq<Thread>, c: Cpu, want: Option<Thread>, k: nat)
    requires k < |q| && Ready(s, q[k], c, want) && forall j :: 0 <= j < k ==> !Ready(s, q[j], c, want)
    ensures FirstEligible(q, s.entries, c, want) == Some(q[k])
  {
    if k > 0 {
      assert !Ready(s, q[0], c, want);
      FirstReadyAt(s, q[1..], c, want, k - 1);
    }
  }

  lemma SwitchExact(s: State, c: Cpu, t: Thread)
    requires c in s.current && t in s.entries
    ensures Switched(s, c, t, Switch(s, c, t))
  {
    SwitchEntries(s, c, t);
  }

  /** With nothing to reap, to pick or to go on with, a choice panics. */
  ghost predicate NothingToRun(s: State, c: Cpu, canrun: bool, want: Option<Thread>) {
    NoneReapable(s) && NoneReady(s, c, want) && !canrun
  }

  /**
    A choice begins to reap the first exiting thread that no longer runs; without one it goes over to
    the first thread that may run here; without one it goes on with the thread it has, if that can run;
    and otherwise it panics.
   */
  lemma ChooseExact(s: State, c: Cpu, canrun: bool, want: Option<Thread>, t: Thread, k: nat)
    requires Inv(s) && c in s.current && (canrun ==> s.current[c].Some?)
    ensures var r := Choose(s, c, canrun, want);
            && (Reapable(s, t, k) ==>
                  r == Some(s.(exiting := Remove(s.exiting, t), calls := s.calls[c := Reaping(t, canrun, want)])))
            && (NoneReapable(s) && FirstReady(s, t, k, c, want) ==> r.Some? && Switched(s, c, t, r.value))
            && (NoneReapable(s) && NoneReady(s, c, want) && canrun ==>
                  r.Some? && Switched(s, c, s.current[c].value, r.value))
            && (NothingToRun(s, c, canrun, want) <==> r.None?)
  {
    FirstDeadNone(s.exiting, s.entries);
    FirstReadyNone(s, s.queue, c, want);
    FirstEligibleFacts(s.queue, s.entries, c, want, t);
    if Reapable(s, t, k) {
      FirstDeadAt(s.exiting, s.entries, k);
    }
    if FirstReady(s, t, k, c, want) {
      FirstReadyAt(s, s.queue, c, want, k);
      SwitchExact(s, c, t);
    }
    if canrun {
      SwitchExact(s, c, s.current[c].value);
    }
  }

  lemma ChooseFlags(s: State, c: Cpu, canrun: bool, want: Option<Thread>, t: Thread)
    requires c in s.current && Choose(s, c, canrun, want).Some?
    ensures var r := Choose(s, c, canrun, want).value;
            && r.entries.Keys == s.entries.Keys
            && (t in s.entries ==> SameFlags(s.entries[t], r.entries[t]))
  {
    if FirstDead(s.exiting, s.entries).None? {
      var next := FirstEligible(s.queue, s.entries, c, want);
      FirstEligibleFacts(s.queue, s.entries, c, want, t);
      SwitchEntries(s, c, if next.Some? then next.value else s.current[c].value);
    }
  }

  // ---------- What the steps do to a thread ----------

  ghost predicate Sleeps(s: State, x: Step, t: Thread) {
    x.Sleep? && x.c in s.current && s.current[x.c] == Some(t)
  }

  ghost predicate Quits(s: State, x: Step, t: Thread) {
    x.Exit? && x.c in s.current && s.current[x.c] == Some(t)
  }

  predicate Pins(x: Step, t: Thread) {
    x.Pin? && x.t == t
  }

  /** Exactly a wake makes a thread runnable, its own sleep and exit end that, and the other flags change alike. */
  lemma StepFlags(s: State, x: Step, r: State, t: Thread)
    requires Inv(s) && Moves(s, x, r) && t in r.entries
    ensures t !in s.entries ==> x == Setup(t) && SameFlags(r.entries[t], DEFAULT)
    ensures t in s.entries ==>
              var was, e := s.entries[t], r.entries[t];
              && (e.runnable <==> x == Wake(t) || (was.runnable && !Sleeps(s, x, t) && !Quits(s, x, t)))
              && (e.sleeping <==> Sleeps(s, x, t) || (was.sleeping && x != Wake(t)))
              && (e.exiting <==> was.exiting || Quits(s, x, t))
              && (e.pinned <==> was.pinned || Pins(x, t))
    ensures Pins(x, t) ==> r.entries[t].oncpu == Some(x.c)
  {
    if x.Schedule? {
      ChooseFlags(s, x.c, CanRun(s, x.c), x.want, t);
    } else if x.Resume? {
      ChooseFlags(s, x.c, s.calls[x.c].canrun, s.calls[x.c].want, t);
    }
  }

  /** Where the kernel panics: a second pin, sleep or exit, a pin of a thread that could run, and nothing to run. */
  lemma PanicExact(s: State, x: Step)
    requires Inv(s) && Enabled(s, x)
    ensures Next(s, x).None? <==>
            match x
            case Pin(_, t) => s.entries[t].running || s.entries[t].runnable || s.entries[t].pinned
            case Sleep(c) => s.entries[s.current[c].value].sleeping
            case Exit(c) => s.entries[s.current[c].value].exiting
            case Schedule(c, want) =>
              NothingToRun(s, c, s.current[c].Some? && s.entries[s.current[c].value].runnable, want)
            case Resume(c) => NothingToRun(s, c, s.calls[c].canrun, s.calls[c].want)
            case _ => false
  {
    match x
    case Schedule(c, want) => ChooseExact(s, c, CanRun(s, c), want, 0, 0);
    case Resume(c) => ChooseExact(s, c, s.calls[c].canrun, s.calls[c].want, 0, 0);
    case _ =>
  }

  /** Only a switch changes the order of the run queue: what is set up goes last. */
  lemma QueueOrder(s: State, x: Step, r: State, t: Thread, u: Thread)
    requires Inv(s) && Moves(s, x, r) && !x.Schedule? && !x.Resume? && t != u
    requires u in r.queue && t in s.queue && t in r.queue
    ensures Ahead(r.queue, t) < Ahead(r.queue, u) <==> u !in s.queue || Ahead(s.queue, t) < Ahead(s.queue, u)
  {
    match x
    case Setup(v) =>
      AheadAppend(s.queue, v, t);
      if u in s.queue {
        AheadAppend(s.queue, v, u);
      } else {
        AheadLast(s.queue, v);
        AheadWithin(s.queue, t);
      }
    case Exit(c) =>
      var v := s.current[c].value;
      RemoveFacts(s.queue, v);
      AheadRemove(s.queue, v, t);
      AheadRemove(s.queue, v, u);
      AheadTies3(s.queue, v, t, u);
    case _ =>
  }

  lemma {:induction false} AheadLast(q: seq<Thread>, t: Thread)
    requires t !in q
    ensures Ahead(q + [t], t) == |q|
  {
    if q == [] {
      assert q + [t] == [t];
    } else {
      assert (q + [t])[1..] == q[1..] + [t];
      AheadLast(q[1..], t);
    }
  }

  lemma {:induction false} AheadWithin(q: seq<Thread>, t: Thread)
    requires t in q
    ensures Ahead(q, t) < |q|
  {
    if q[0] != t {
      AheadWithin(q[1..], t);
    }
  }

  lemma AheadTies3(q: seq<Thread>, v: Thread, t: Thread, u: Thread)
    requires t in q && u in q && v != t && v != u && t != u
    ensures Ahead(q, t) != Ahead(q, u) && (v in q ==> Ahead(q, v) != Ahead(q, t) && Ahead(q, v) != Ahead(q, u))
  {
    if Ahead(q, t) == Ahead(q, u) {
      AheadTies(q, t, u);
    }
    if v in q && Ahead(q, v) == Ahead(q, t) {
      AheadTies(q, v, t);
    }
    if v in q && Ahead(q, v) == Ahead(q, u) {
      AheadTies(q, v, u);
    }
  }

  /** A call of scheduler_schedule keeps what it was called with through every reap and restart. */
  lemma StepCalls(s: State, x: Step, r: State, d: Cpu)
    requires Inv(s) && Moves(s, x, r) && d in s.calls
    ensures d in r.calls
    ensures x.Schedule? && x.c == d ==>
              r.calls[d].Outside? ||
              (&& r.calls[d].Reaping? && r.calls[d].want == x.want
               && r.calls[d].canrun == (s.current[d].Some? && s.entries[s.current[d].value].runnable))
    ensures x.Free? && x.c == d ==> r.calls[d] == Reaped(s.calls[d].canrun, s.calls[d].want)
    ensures x.Resume? && x.c == d ==>
              r.calls[d].Outside? ||
              (r.calls[d].Reaping? && r.calls[d].canrun == s.calls[d].canrun && r.calls[d].want == s.calls[d].want)
    ensures !((x.Schedule? || x.Free? || x.Resume?) && x.c == d) ==> r.calls[d] == s.calls[d]
  {
    if x.Schedule? {
      ChooseCalls(s, x.c, CanRun(s, x.c), x.want, d);
    } else if x.Resume? {
      ChooseCalls(s, x.c, s.calls[x.c].canrun, s.calls[x.c].want, d);
    }
  }

  lemma ChooseCalls(s: State, c: Cpu, canrun: bool, want: Option<Thread>, d: Cpu)
    requires c in s.current && d in s.calls && Choose(s, c, canrun, want).Some?
    ensures var r := Choose(s, c, canrun, want).value;
            && d in r.calls && (d != c ==> r.calls[d] == s.calls[d])
            && (d == c ==> r.calls[d].Outside? ||
                           (r.calls[d].Reaping? && r.calls[d].canrun == canrun && r.calls[d].want == want))
  {
  }

  // ---------- Flags over runs ----------

  ghost predicate FromStart(states: seq<State>, steps: seq<Step>) {
    Stretch(states, steps) && Initial(states[0])
  }

  /** Woken by step `i`, and neither gone to sleep nor exited since. */
  ghost predicate WokenAt(states: seq<State>, steps: seq<Step>, n: nat, t: Thread, i: nat)
    requires |states| == |steps| + 1 && n <= |steps|
  {
    i < n && steps[i] == Wake(t)
    && forall j :: i < j < n ==> !Sleeps(states[j], steps[j], t) && !Quits(states[j], steps[j], t)
  }

  /** Gone to sleep by step `i`, and not woken since. */
  ghost predicate AsleepSince(states: seq<State>, steps: seq<Step>, n: nat, t: Thread, i: nat)
    requires |states| == |steps| + 1 && n <= |steps|
  {
    i < n && Sleeps(states[i], steps[i], t) && forall j :: i < j < n ==> steps[j] != Wake(t)
  }

  ghost predicate Woken(states: seq<State>, steps: seq<Step>, n: nat, t: Thread)
    requires |states| == |steps| + 1 && n <= |steps|
  {
    exists i: nat :: WokenAt(states, steps, n, t, i)
  }

  ghost predicate Asleep(states: seq<State>, steps: seq<Step>, n: nat, t: Thread)
    requires |states| == |steps| + 1 && n <= |steps|
  {
    exists i: nat :: AsleepSince(states, steps, n, t, i)
  }

  lemma WokenNext(states: seq<State>, steps: seq<Step>, m: nat, t: Thread)
    requires |states| == |steps| + 1 && m < |steps|
    ensures Woken(states, steps, m + 1, t) <==>
            steps[m] == Wake(t) ||
            (Woken(states, steps, m, t) && !Sleeps(states[m], steps[m], t) && !Quits(states[m], steps[m], t))
  {
    if steps[m] == Wake(t) {
      assert WokenAt(states, steps, m + 1, t, m);
    } else if Woken(states, steps, m, t) && !Sleeps(states[m], steps[m], t) && !Quits(states[m], steps[m], t) {
      var i: nat :| WokenAt(states, steps, m, t, i);
      assert WokenAt(states, steps, m + 1, t, i);
    }
    if Woken(states, steps, m + 1, t) {
      var i: nat :| WokenAt(states, steps, m + 1, t, i);
      assert i < m ==> WokenAt(states, steps, m, t, i);
    }
  }

  lemma AsleepNext(states: seq<State>, steps: seq<Step>, m: nat, t: Thread)
    requires |states| == |steps| + 1 && m < |steps|
    ensures Asleep(states, steps, m + 1, t) <==>
            Sleeps(states[m], steps[m], t) || (Asleep(states, steps, m, t) && steps[m] != Wake(t))
  {
    if Sleeps(states[m], steps[m], t) {
      assert AsleepSince(states, steps, m + 1, t, m);
    } else if Asleep(states, steps, m, t) && steps[m] != Wake(t) {
      var i: nat :| AsleepSince(states, steps, m, t, i);
      assert AsleepSince(states, steps, m + 1, t, i);
    }
    if Asleep(states, steps, m + 1, t) {
      var i: nat :| AsleepSince(states, steps, m + 1, t, i);
      assert i < m ==> AsleepSince(states, steps, m, t, i);
    }
  }

  lemma EntriesBefore(states: seq<State>, steps: seq<Step>, n: nat, t: Thread)
    requires FromStart(states, steps) && 0 < n <= |steps| && t in states[n].entries
    ensures Inv(states[n - 1]) && Moves(states[n - 1], steps[n - 1], states[n])
    ensures t in states[n - 1].entries || steps[n - 1] == Setup(t)
  {
    RunKeeps(states, steps, n - 1);
    assert MovesAt(states, steps, n - 1);
    StepFlags(states[n - 1], steps[n - 1], states[n], t);
  }

  /** Nothing happens to a thread before it is set up. */
  lemma {:induction false} NothingBefore(states: seq<State>, steps: seq<Step>, n: nat, t: Thread, i: nat)
    requires FromStart(states, steps) && i < n <= |steps| && t !in states[n].entries && t !in states[n].freed
    ensures steps[i] != Wake(t) && !Sleeps(states[i], steps[i], t) && !Pins(steps[i], t)
  {
    Known(states, steps, i, n, t);
    RunKeeps(states, steps, i);
    assert MovesAt(states, steps, i);
  }

  /** In every run a thread is runnable if and only if it was woken and has neither gone to sleep nor exited since. */
  lemma {:induction false} RunnableExact(states: seq<State>, steps: seq<Step>, n: nat, t: Thread)
    requires FromStart(states, steps) && n <= |steps| && t in states[n].entries
    ensures states[n].entries[t].runnable <==> Woken(states, steps, n, t)
  {
    EntriesBefore(states, steps, n, t);
    StepFlags(states[n - 1], steps[n - 1], states[n], t);
    WokenNext(states, steps, n - 1, t);
    if t in states[n - 1].entries {
      RunnableExact(states, steps, n - 1, t);
    } else {
      SetUpNow(states, steps, n, t);
    }
  }

  lemma SetUpNow(states: seq<State>, steps: seq<Step>, n: nat, t: Thread)
    requires FromStart(states, steps) && 0 < n <= |steps| && t !in states[n - 1].entries && steps[n - 1] == Setup(t)
    ensures forall i: nat :: i < n ==> steps[i] != Wake(t) && !Sleeps(states[i], steps[i], t) && !Pins(steps[i], t)
  {
    assert MovesAt(states, steps, n - 1);
    forall i: nat | i < n ensures steps[i] != Wake(t) && !Sleeps(states[i], steps[i], t) && !Pins(steps[i], t) {
      if i < n - 1 {
        NothingBefore(states, steps, n - 1, t, i);
      }
    }
  }

  /** In every run a thread is marked asleep if and only if it went to sleep and was not woken since. */
  lemma {:induction false} SleepingExact(states: seq<State>, steps: seq<Step>, n: nat, t: Thread)
    requires FromStart(states, steps) && n <= |steps| && t in states[n].entries
    ensures states[n].entries[t].sleeping <==> Asleep(states, steps, n, t)
  {
    EntriesBefore(states, steps, n, t);
    StepFlags(states[n - 1], steps[n - 1], states[n], t);
    AsleepNext(states, steps, n - 1, t);
    if t in states[n - 1].entries {
      SleepingExact(states, steps, n - 1, t);
    } else {
      SetUpNow(states, steps, n, t);
    }
  }

  /** In every run a thread is pinned if and only if a step pinned it. */
  lemma {:induction false} PinnedExact(states: seq<State>, steps: seq<Step>, n: nat, t: Thread)
    requires FromStart(states, steps) && n <= |steps| && t in states[n].entries
    ensures states[n].entries[t].pinned <==> exists i: nat :: i < n && Pins(steps[i], t)
  {
    PinnedBefore(states, steps, n, t);
    if t in states[n - 1].entries {
      PinnedExact(states, steps, n - 1, t);
    }
  }

  lemma PinnedBefore(states: seq<State>, steps: seq<Step>, n: nat, t: Thread)
    requires FromStart(states, steps) && n <= |steps| && t in states[n].entries
    ensures n > 0
    ensures if t in states[n - 1].entries
            then states[n].entries[t].pinned <==> states[n - 1].entries[t].pinned || Pins(steps[n - 1], t)
            else !states[n].entries[t].pinned && forall i: nat :: i < n ==> !Pins(steps[i], t)
  {
    EntriesBefore(states, steps, n, t);
    StepFlags(states[n - 1], steps[n - 1], states[n], t);
    if t !in states[n - 1].entries {
      SetUpNow(states, steps, n, t);
    }
  }

  lemma SleeperKnown(states: seq<State>, steps: seq<Step>, i: nat, t: Thread)
    requires Stretch(states, steps) && i < |steps| && Sleeps(states[i], steps[i], t)
    ensures t in states[i].entries
  {
    assert MovesAt(states, steps, i);
  }

  lemma NextFlags(states: seq<State>, steps: seq<Step>, i: nat, t: Thread)
    requires Stretch(states, steps) && i < |steps| && t in states[i + 1].entries
    requires t in states[i].entries || t in states[i].freed
    ensures t in states[i].entries
    ensures states[i + 1].entries[t].runnable <==>
            steps[i] == Wake(t) ||
            (states[i].entries[t].runnable && !Sleeps(states[i], steps[i], t) && !Quits(states[i], steps[i], t))
  {
    RunKeeps(states, steps, i);
    RunKeeps(states, steps, i + 1);
    assert MovesAt(states, steps, i);
    KnownNext(states, steps, i, t);
    StepFlags(states[i], steps[i], states[i + 1], t);
  }

  /** From its step of going to sleep to the next wake a thread is not runnable. */
  lemma {:induction false} SleepsUntilWoken(states: seq<State>, steps: seq<Step>, i: nat, j: nat, t: Thread)
    requires Stretch(states, steps) && i < j <= |steps| && Sleeps(states[i], steps[i], t) && t in states[j].entries
    requires forall k :: i < k < j ==> steps[k] != Wake(t)
    ensures !states[j].entries[t].runnable
    decreases j
  {
    SleeperKnown(states, steps, i, t);
    Known(states, steps, i, j - 1, t);
    NextFlags(states, steps, j - 1, t);
    if i < j - 1 {
      SleepsUntilWoken(states, steps, i, j - 1, t);
    }
  }

  // ---------- Exiting and calls over runs ----------

  /** Threads wait to be reaped in the order in which they exited. */
  lemma {:induction false} ExitOrder(states: seq<State>, steps: seq<Step>, n: nat, i: nat, j: nat) returns (a: nat, b: nat)
    requires FromStart(states, steps) && n <= |steps| && i < j < |states[n].exiting|
    ensures a < b < n && Quits(states[a], steps[a], states[n].exiting[i]) && Quits(states[b], steps[b], states[n].exiting[j])
  {
    var k, l := ExitingBefore(states, steps, n, i, j);
    if l < |states[n - 1].exiting| {
      a, b := ExitOrder(states, steps, n - 1, k, l);
    } else {
      a := Exited(states, steps, n - 1, k);
      b := n - 1;
    }
  }

  lemma {:induction false} Exited(states: seq<State>, steps: seq<Step>, n: nat, i: nat) returns (a: nat)
    requires FromStart(states, steps) && n <= |steps| && i < |states[n].exiting|
    ensures a < n && Quits(states[a], steps[a], states[n].exiting[i])
  {
    var k, l := ExitingBefore(states, steps, n, i, i);
    if k < |states[n - 1].exiting| {
      a := Exited(states, steps, n - 1, k);
    } else {
      a := n - 1;
    }
  }

  lemma ExitingBefore(states: seq<State>, steps: seq<Step>, n: nat, i: nat, j: nat) returns (k: nat, l: nat)
    requires FromStart(states, steps) && n <= |steps| && i <= j < |states[n].exiting|
    ensures n > 0 && k <= l <= |states[n - 1].exiting| && (i < j ==> k < l)
    ensures if k < |states[n - 1].exiting| then states[n - 1].exiting[k] == states[n].exiting[i]
            else Quits(states[n - 1], steps[n - 1], states[n].exiting[i])
    ensures if l < |states[n - 1].exiting| then states[n - 1].exiting[l] == states[n].exiting[j]
            else Quits(states[n - 1], steps[n - 1], states[n].exiting[j])
  {
    RunKeeps(states, steps, n - 1);
    assert MovesAt(states, steps, n - 1);
    k, l := ExitingWas(states[n - 1], steps[n - 1], states[n], i, j);
  }

  /** Two exiting threads stood in that order before, or the later one has exited just now. */
  lemma ExitingWas(s: State, x: Step, r: State, i: nat, j: nat) returns (k: nat, l: nat)
    requires Inv(s) && Moves(s, x, r) && i <= j < |r.exiting|
    ensures k <= l <= |s.exiting| && (i < j ==> k < l)
    ensures if k < |s.exiting| then s.exiting[k] == r.exiting[i] else Quits(s, x, r.exiting[i])
    ensures if l < |s.exiting| then s.exiting[l] == r.exiting[j] else Quits(s, x, r.exiting[j])
  {
    k, l := i, j;
    if x.Schedule? || x.Resume? {
      var dead := FirstDead(s.exiting, s.entries);
      FirstDeadFacts(s.exiting, s.entries);
      if dead.Some? {
        k, l := RemoveAt(s.exiting, dead.value, i, j);
      } else {
        ChooseQueues(s, x.c, if x.Schedule? then CanRun(s, x.c) else s.calls[x.c].canrun,
                     if x.Schedule? then x.want else s.calls[x.c].want);
      }
    }
  }

  lemma ChooseQueues(s: State, c: Cpu, canrun: bool, want: Option<Thread>)
    requires c in s.current && FirstDead(s.exiting, s.entries).None? && Choose(s, c, canrun, want).Some?
    ensures Choose(s, c, canrun, want).value.exiting == s.exiting
  {
  }

  lemma {:induction false} RemoveAt(q: seq<Thread>, x: Thread, i: nat, j: nat) returns (k: nat, l: nat)
    requires i <= j < |Remove(q, x)|
    ensures k <= l < |q| && (i < j ==> k < l) && q[k] == Remove(q, x)[i] && q[l] == Remove(q, x)[j]
  {
    if q[0] == x {
      k, l := i + 1, j + 1;
    } else if j == 0 {
      k, l := 0, 0;
    } else {
      k, l := RemoveAt(q[1..], x, if i == 0 then 0 else i - 1, j - 1);
      k, l := if i == 0 then 0 else k + 1, l + 1;
    }
  }

  ghost predicate CanRunNow(s: State, d: Cpu) {
    && d in s.current && s.current[d].Some? && s.current[d].value in s.entries
    && s.entries[s.current[d].value].runnable
  }

  ghost predicate InCall(s: State, d: Cpu) {
    d in s.calls && !s.calls[d].Outside?
  }

  /** The call of scheduler_schedule that CPU `d` is in began at step `i`. */
  ghost predicate CalledAt(states: seq<State>, steps: seq<Step>, n: nat, d: Cpu, i: nat, canrun: bool, want: Option<Thread>)
    requires |states| == |steps| + 1 && n <= |steps|
  {
    && i < n && steps[i] == Schedule(d, want) && canrun == CanRunNow(states[i], d)
    && forall j :: i < j <= n ==> InCall(states[j], d)
  }

  /** In every run a restarted choice goes by what the call was made with, and by the caller's state at that time. */
  lemma {:induction false} CallRemembers(states: seq<State>, steps: seq<Step>, n: nat, d: Cpu) returns (i: nat)
    requires FromStart(states, steps) && n <= |steps| && InCall(states[n], d)
    ensures CalledAt(states, steps, n, d, i, states[n].calls[d].canrun, states[n].calls[d].want)
  {
    CallBefore(states, steps, n, d);
    if InCall(states[n - 1], d) {
      i := CallRemembers(states, steps, n - 1, d);
    } else {
      i := n - 1;
    }
  }

  lemma CallBefore(states: seq<State>, steps: seq<Step>, n: nat, d: Cpu)
    requires FromStart(states, steps) && n <= |steps| && InCall(states[n], d)
    ensures n > 0
    ensures if InCall(states[n - 1], d) then
              var was, now := states[n - 1].calls[d], states[n].calls[d];
              now.canrun == was.canrun && now.want == was.want
            else
              steps[n - 1] == Schedule(d, states[n].calls[d].want)
              && states[n].calls[d].canrun == CanRunNow(states[n - 1], d)
  {
    RunKeeps(states, steps, n - 1);
    assert MovesAt(states, steps, n - 1);
    CallsBefore(states[n - 1], steps[n - 1], states[n], d);
    StepCalls(states[n - 1], steps[n - 1], states[n], d);
  }

  lemma CallsBefore(s: State, x: Step, r: State, d: Cpu)
    requires Inv(s) && Moves(s, x, r)
    ensures d in r.calls <==> d in s.calls
  {
    if x.Schedule? {
      ChooseKeys(s, x.c, CanRun(s, x.c), x.want);
    } else if x.Resume? {
      ChooseKeys(s, x.c, s.calls[x.c].canrun, s.calls[x.c].want);
    }
  }

  lemma ChooseKeys(s: State, c: Cpu, canrun: bool, want: Option<Thread>)
    requires c in s.current && c in s.calls && Choose(s, c, canrun, want).Some?
    ensures Choose(s, c, canrun, want).value.calls.Keys == s.calls.Keys
  {
  }

  // ---------- Threads are freed once ----------

  lemma StepKnown(s: State, x: Step, r: State, t: Thread)
    requires Inv(s) && Moves(s, x, r)
    ensures t in s.entries ==> t in r.entries || t in r.freed
    ensures t in s.freed ==> t in r.freed
    ensures x.Free? ==> s.calls[x.c].victim in r.freed && s.calls[x.c].victim !in s.freed
  {
  }

  lemma KnownNext(states: seq<State>, steps: seq<Step>, i: nat, t: Thread)
    requires Stretch(states, steps) && i < |steps|
    ensures t in states[i].entries ==> t in states[i + 1].entries || t in states[i + 1].freed
    ensures t in states[i].freed ==> t in states[i + 1].freed
  {
    RunKeeps(states, steps, i);
    assert MovesAt(states, steps, i);
    StepKnown(states[i], steps[i], states[i + 1], t);
  }

  lemma {:induction false} Known(states: seq<State>, steps: seq<Step>, i: nat, j: nat, t: Thread)
    requires Stretch(states, steps) && i <= j < |states|
    ensures t in states[i].entries ==> t in states[j].entries || t in states[j].freed
    ensures t in states[i].freed ==> t in states[j].freed
    decreases j
  {
    if i < j {
      Known(states, steps, i, j - 1, t);
      KnownNext(states, steps, j - 1, t);
    }
  }

  /** Step `i` of the run frees `v`. */
  ghost predicate Frees(states: seq<State>, steps: seq<Step>, i: nat, v: Thread)
    requires i < |steps| && |states| == |steps| + 1
  {
    && steps[i].Free? && steps[i].c in states[i].calls
    && states[i].calls[steps[i].c].Reaping? && states[i].calls[steps[i].c].victim == v
  }

  lemma FreesFacts(states: seq<State>, steps: seq<Step>, i: nat, v: Thread, c: Cpu)
    requires Stretch(states, steps) && i < |steps| && Frees(states, steps, i, v)
    ensures v !in states[i].freed && v in states[i + 1].freed
    ensures c in states[i].current ==> states[i].current[c] != Some(v)
  {
    RunKeeps(states, steps, i);
    assert MovesAt(states, steps, i);
  }

  lemma FreedIdle(states: seq<State>, steps: seq<Step>, j: nat, v: Thread, c: Cpu)
    requires Stretch(states, steps) && j < |states| && v in states[j].freed
    ensures c in states[j].current ==> states[j].current[c] != Some(v)
  {
    RunKeeps(states, steps, j);
  }

  /** In any run no thread is freed twice, none while it runs, and none is current afterwards. */
  lemma FreedOnce(states: seq<State>, steps: seq<Step>, i: nat, j: nat, v: Thread, c: Cpu)
    requires Stretch(states, steps) && i < j < |states| && Frees(states, steps, i, v)
    ensures c in states[i].current ==> states[i].current[c] != Some(v)
    ensures c in states[j].current ==> states[j].current[c] != Some(v)
    ensures j < |steps| ==> !Frees(states, steps, j, v)
  {
    FreesFacts(states, steps, i, v, c);
    Known(states, steps, i + 1, j, v);
    FreedIdle(states, steps, j, v, c);
    if j < |steps| && Frees(states, steps, j, v) {
      FreesFacts(states, steps, j, v, c);
    }
  }

  // ---------- Pinned threads ----------

  /** Who is chosen for a CPU was pinned to it, or not at all. */
  lemma ChoosePinned(s: State, c: Cpu, canrun: bool, want: Option<Thread>, t: Thread)
    requires Running(s) && c in s.current && Choose(s, c, canrun, want).Some?
    requires t in s.entries && s.entries[t].pinned
    ensures var r := Choose(s, c, canrun, want).value;
            t in r.entries && r.entries[t].pinned && r.entries[t].oncpu == s.entries[t].oncpu
  {
    var next := FirstEligible(s.queue, s.entries, c, want);
    FirstEligibleFacts(s.queue, s.entries, c, want, t);
    if FirstDead(s.exiting, s.entries).None? {
      SwitchEntries(s, c, if next.Some? then next.value else s.current[c].value);
    }
  }

  lemma StepPinned(s: State, x: Step, r: State, t: Thread)
    requires Inv(s) && Moves(s, x, r)
    requires t in s.entries && s.entries[t].pinned && t in r.entries
    ensures r.entries[t].pinned && r.entries[t].oncpu == s.entries[t].oncpu
  {
    if x.Schedule? {
      ChoosePinned(s, x.c, CanRun(s, x.c), x.want, t);
    } else if x.Resume? {
      ChoosePinned(s, x.c, s.calls[x.c].canrun, s.calls[x.c].want, t);
    }
  }

  lemma PinnedNext(states: seq<State>, steps: seq<Step>, i: nat, t: Thread)
    requires Stretch(states, steps) && i < |steps|
    requires t in states[i].entries || t in states[i].freed
    requires t in states[i + 1].entries
    ensures t in states[i].entries
    ensures states[i].entries[t].pinned ==>
              states[i + 1].entries[t].pinned && states[i + 1].entries[t].oncpu == states[i].entries[t].oncpu
  {
    RunKeeps(states, steps, i);
    RunKeeps(states, steps, i + 1);
    KnownNext(states, steps, i, t);
    assert MovesAt(states, steps, i);
    if states[i].entries[t].pinned {
      StepPinned(states[i], steps[i], states[i + 1], t);
    }
  }

  /** A thread once pinned keeps its CPU for the rest of the run. */
  lemma {:induction false} PinnedStays(states: seq<State>, steps: seq<Step>, i: nat, j: nat, t: Thread)
    requires Stretch(states, steps) && i <= j < |states|
    requires t in states[i].entries && states[i].entries[t].pinned && t in states[j].entries
    ensures states[j].entries[t].pinned && states[j].entries[t].oncpu == states[i].entries[t].oncpu
    decreases j
  {
    if i < j {
      Known(states, steps, i, j - 1, t);
      PinnedNext(states, steps, j - 1, t);
      PinnedStays(states, steps, i, j - 1, t);
    }
  }

  /** A thread once pinned runs on no other CPU for the rest of the run. */
  lemma PinnedRuns(states: seq<State>, steps: seq<Step>, i: nat, j: nat, t: Thread, c: Cpu)
    requires Stretch(states, steps) && i <= j < |states|
    requires t in states[i].entries && states[i].entries[t].pinned
    requires c in states[j].current && states[j].current[c] == Some(t)
    ensures states[i].entries[t].oncpu == Some(c)
  {
    RunKeeps(states, steps, j);
    PinnedStays(states, steps, i, j, t);
  }

  /** A thread pinned by a call on CPU `c` is current on no other CPU for the rest of the run. */
  lemma PinnedTo(states: seq<State>, steps: seq<Step>, i: nat, j: nat, c: Cpu, t: Thread, d: Cpu)
    requires Stretch(states, steps) && i < j < |states| && steps[i] == Pin(c, t)
    requires d in states[j].current && states[j].current[d] == Some(t)
    ensures d == c
  {
    PinsNow(states, steps, i, c, t);
    PinnedRuns(states, steps, i + 1, j, t, d);
  }

  lemma PinsNow(states: seq<State>, steps: seq<Step>, i: nat, c: Cpu, t: Thread)
    requires Stretch(states, steps) && i < |steps| && steps[i] == Pin(c, t)
    ensures t in states[i + 1].entries
    ensures states[i + 1].entries[t].pinned && states[i + 1].entries[t].oncpu == Some(c)
  {
    RunKeeps(states, steps, i);
    assert MovesAt(states, steps, i);
    PinExact(states[i], c, t, states[i + 1]);
  }

  lemma PinExact(s: State, c: Cpu, t: Thread, r: State)
    requires Inv(s) && Moves(s, Pin(c, t), r)
    ensures t in r.entries && r.entries[t].pinned && r.entries[t].oncpu == Some(c)
  {
  }

  // ---------- Bounded waiting ----------

  lemma {:induction false} AheadRemove(q: seq<Thread>, x: Thread, t: Thread)
    requires t in q && x != t
    ensures t in Remove(q, x)
    ensures Ahead(Remove(q, x), t) == Ahead(q, t) - (if x in q && Ahead(q, x) < Ahead(q, t) then 1 else 0)
  {
    if q[0] != t && q[0] != x {
      AheadRemove(q[1..], x, t);
      assert ([q[0]] + Remove(q[1..], x))[1..] == Remove(q[1..], x);
    }
  }

  lemma {:induction false} AheadAppend(q: seq<Thread>, x: Thread, t: Thread)
    requires t in q
    ensures Ahead(q + [x], t) == Ahead(q, t)
  {
    if q[0] != t {
      assert (q + [x])[1..] == q[1..] + [x];
      AheadAppend(q[1..], x, t);
    }
  }

  lemma {:induction false} AheadTies(q: seq<Thread>, x: Thread, t: Thread)
    requires x in q && t in q && Ahead(q, x) == Ahead(q, t)
    ensures x == t
  {
    if q[0] != t && q[0] != x {
      AheadTies(q[1..], x, t);
    }
  }

  lemma AheadToTail(q: seq<Thread>, x: Thread, t: Thread)
    requires t in q && x != t
    ensures t in ToTail(q, x)
    ensures Ahead(ToTail(q, x), t) == Ahead(q, t) - (if x in q && Ahead(q, x) < Ahead(q, t) then 1 else 0)
  {
    AheadRemove(q, x, t);
    AheadAppend(Remove(q, x), x, t);
  }

  /** A step that picks a thread for a CPU on which `t` may run, with no particular thread wanted. */
  ghost predicate Decides(s: State, x: Step, t: Thread)
    requires Enabled(s, x) && t in s.entries
  {
    && (x.Schedule? || x.Resume?)
    && FirstDead(s.exiting, s.entries).None?
    && (if x.Schedule? then x.want else s.calls[x.c].want).None?
    && (s.entries[t].pinned ==> s.entries[t].oncpu == Some(x.c))
  }

  ghost predicate Waits(s: State, t: Thread) {
    t in s.queue && t in s.entries && s.entries[t].runnable && !s.entries[t].running
  }

  /** A choice that passes over a waiting thread it could have picked brings that thread one place forward. */
  lemma ChooseWaits(s: State, c: Cpu, canrun: bool, want: Option<Thread>, t: Thread)
    requires Inv(s) && c in s.current && Waits(s, t)
    requires canrun ==> s.current[c].Some?
    requires Choose(s, c, canrun, want).Some?
    ensures var r := Choose(s, c, canrun, want).value;
            && t in r.entries
            && (r.entries[t].running ||
                (&& Waits(r, t)
                 && Ahead(r.queue, t) <= Ahead(s.queue, t)
                 && (FirstDead(s.exiting, s.entries).None? && want.None? &&
                     (s.entries[t].pinned ==> s.entries[t].oncpu == Some(c)) ==>
                       Ahead(r.queue, t) < Ahead(s.queue, t))))
  {
    var next := FirstEligible(s.queue, s.entries, c, want);
    FirstEligibleFacts(s.queue, s.entries, c, want, t);
    if FirstDead(s.exiting, s.entries).None? {
      var u := if next.Some? then next.value else s.current[c].value;
      SwitchEntries(s, c, u);
      if u != t {
        AheadToTail(s.queue, u, t);
        if next.Some? && Ahead(s.queue, u) == Ahead(s.queue, t) {
          AheadTies(s.queue, u, t);
        }
      }
    }
  }

  lemma StepWaits(s: State, x: Step, r: State, t: Thread)
    requires Inv(s) && Moves(s, x, r) && Waits(s, t)
    ensures t in r.entries
    ensures r.entries[t].running ||
            (Waits(r, t) && Ahead(r.queue, t) + (if Decides(s, x, t) then 1 else 0) <= Ahead(s.queue, t))
  {
    match x
    case Setup(u) => AheadAppend(s.queue, u, t);
    case Exit(c) => AheadRemove(s.queue, s.current[c].value, t);
    case Schedule(c, want) => ChooseWaits(s, c, CanRun(s, c), want, t);
    case Resume(c) => ChooseWaits(s, c, s.calls[c].canrun, s.calls[c].want, t);
    case Free(c) => assert s.calls[c].victim != t;
    case _ =>
  }

  /** How many steps decide for a CPU on which `t` may run. */
  ghost function Decisions(states: seq<State>, steps: seq<Step>, t: Thread): nat
    requires Stretch(states, steps)
  {
    if steps == [] then 0
    else
      Tail(states, steps);
      assert MovesAt(states, steps, 0);
      (if t in states[0].entries && Decides(states[0], steps[0], t) then 1 else 0)
      + Decisions(states[1..], steps[1..], t)
  }

  lemma Tail(states: seq<State>, steps: seq<Step>)
    requires Stretch(states, steps) && steps != []
    ensures Stretch(states[1..], steps[1..])
  {
    RunKeeps(states, steps, 1);
    forall i: nat | i < |steps[1..]| ensures MovesAt(states[1..], steps[1..], i) {
      assert MovesAt(states, steps, i + 1);
    }
  }

  ghost predicate GetsToRun(states: seq<State>, t: Thread) {
    exists k :: 0 <= k < |states| && t in states[k].entries && states[k].entries[t].running
  }

  /**
    A waiting thread runs by the time as many decisions have been taken that could pick it as
    threads were ahead of it, and one more.
   */
  lemma {:induction false} BoundedWaiting(states: seq<State>, steps: seq<Step>, t: Thread)
    requires Stretch(states, steps) && Waits(states[0], t)
    requires Decisions(states, steps, t) > Ahead(states[0].queue, t)
    ensures GetsToRun(states, t)
  {
    Tail(states, steps);
    assert MovesAt(states, steps, 0);
    StepWaits(states[0], steps[0], states[1], t);
    if states[1].entries[t].running {
      assert GetsToRun(states, t);
    } else {
      BoundedWaiting(states[1..], steps[1..], t);
      var k :| 0 <= k < |states[1..]| && t in states[1..][k].entries && states[1..][k].entries[t].running;
      assert states[k + 1] == states[1..][k];
    }
  }
}

/** core_scheduler.c itself: the run queue, the exiting queue and the entries, changed in place. */
module Scheduler {
  import opened Optional
  import opened Queues
  import opened SchedulerModel

  class Scheduler {
    var queue: seq<Thread>
    var exiting: seq<Thread>
    var entries: map<Thread, Entry>
    var current: map<Cpu, Option<Thread>>
    var calls: map<Cpu, Call>
    ghost var freed: set<Thread>

    ghost function View(): State
      reads this
    {
      State(queue, exiting, entries, current, calls, freed)
    }

    ghost predicate Valid()
      reads this
    {
      Inv(View())
    }

    constructor (cpus: set<Cpu>)
      ensures Valid() && Initial(View()) && current.Keys == cpus
    {
      queue, exiting, entries, freed := [], [], map[], {};
      current := map c | c in cpus :: None;
      calls := map c | c in cpus :: Outside;
      new;
      InitialInv(View());
    }

    method ThreadSetup(t: Thread)
      requires Valid() && Enabled(View(), Setup(t))
      modifies this
      ensures Valid() && Next(old(View()), Setup(t)) == Some(View())
    {
      StepKeeps(View(), Setup(t));
      entries := entries[t := DEFAULT];
      queue := queue + [t];
    }

    /** `ok` is false where scheduler_cpu_pin panics. */
    method CpuPin(c: Cpu, t: Thread) returns (ok: bool)
      requires Valid() && Enabled(View(), Pin(c, t))
      modifies this
      ensures Valid()
      ensures Next(old(View()), Pin(c, t)) == if ok then Some(View()) else None
      ensures !ok ==> View() == old(View())
    {
      StepKeeps(View(), Pin(c, t));
      var e := entries[t];
      if e.running || e.runnable {
        return false;
      }
      if e.pinned {
        return false;
      }
      entries := entries[t := e.(pinned := true, oncpu := Some(c))];
      return true;
    }

    method ThreadRunnable(t: Thread)
      requires Valid() && Enabled(View(), Wake(t))
      modifies this
      ensures Valid() && Next(old(View()), Wake(t)) == Some(View())
    {
      StepKeeps(View(), Wake(t));
      entries := entries[t := entries[t].(sleeping := false, runnable := true)];
    }

    /** `ok` is false where scheduler_thread_sleeping panics. */
    method ThreadSleeping(c: Cpu) returns (ok: bool)
      requires Valid() && Enabled(View(), Sleep(c))
      modifies this
      ensures Valid()
      ensures Next(old(View()), Sleep(c)) == if ok then Some(View()) else None
      ensures !ok ==> View() == old(View())
    {
      StepKeeps(View(), Sleep(c));
      var t := current[c].value;
      ok := !entries[t].sleeping;
      if ok {
        entries := entries[t := entries[t].(runnable := false, sleeping := true)];
      }
    }

    /** `ok` is false where scheduler_thread_exiting panics. */
    method ThreadExiting(c: Cpu) returns (ok: bool)
      requires Valid() && Enabled(View(), Exit(c))
      modifies this
      ensures Valid()
      ensures Next(old(View()), Exit(c)) == if ok then Some(View()) else None
      ensures !ok ==> View() == old(View())
    {
      StepKeeps(View(), Exit(c));
      var t := current[c].value;
      ok := !entries[t].exiting;
      if ok {
        entries := entries[t := entries[t].(runnable := false, exiting := true)];
        queue := Remove(queue, t);
        exiting := exiting + [t];
      }
    }

    /** The scan for an exiting thread to free. */
    method FindDead() returns (r: Option<Thread>)
      requires Valid()
      ensures r == FirstDead(exiting, entries)
    {
      var i := 0;
      while i < |exiting|
        invariant i <= |exiting|
        invariant FirstDead(exiting, entries) == FirstDead(exiting[i..], entries)
      {
        assert exiting[i] in exiting;
        assert entries[exiting[i]].exiting;
        if !entries[exiting[i]].running {
          return Some(exiting[i]);
        }
        i := i + 1;
      }
      return None;
    }

    /** The scan for the thread to switch to. */
    method FindEligible(c: Cpu, want: Option<Thread>) returns (r: Option<Thread>)
      requires Valid()
      ensures r == FirstEligible(queue, entries, c, want)
    {
      var i := 0;
      while i < |queue|
        invariant i <= |queue|
        invariant FirstEligible(queue, entries, c, want) == FirstEligible(queue[i..], entries, c, want)
      {
        assert queue[i] in queue;
        var e := entries[queue[i]];
        assert !e.exiting;
        if e.runnable && !e.running && !(e.pinned && e.oncpu != Some(c)) && !(want.Some? && want.value != queue[i]) {
          return Some(queue[i]);
        }
        i := i + 1;
      }
      return None;
    }

    /** True exactly when a call of Schedule that wants no particular thread would not leave this one. */
    method Idle(c: Cpu) returns (r: bool)
      requires Valid() && RunsCode(View(), c)
      ensures r <==> FirstEligible(queue, entries, c, None).None?
      ensures r <==> forall t :: t in queue && t != current[c].value ==> !Eligible(t, entries[t], c, None)
    {
      var i := 0;
      while i < |queue|
        invariant i <= |queue|
        invariant FirstEligible(queue, entries, c, None) == FirstEligible(queue[i..], entries, c, None)
        invariant forall j :: 0 <= j < i && queue[j] != current[c].value ==>
                    !Eligible(queue[j], entries[queue[j]], c, None)
      {
        assert queue[i] in queue;
        var e := entries[queue[i]];
        if queue[i] != current[c].value && e.runnable && !e.running && !(e.pinned && e.oncpu != Some(c)) {
          assert Eligible(queue[i], entries[queue[i]], c, None);
          return false;
        }
        i := i + 1;
      }
      return true;
    }

    method SwitchTo(c: Cpu, t: Thread)
      requires Valid() && c in current && t in entries && !calls[c].Reaping?
      modifies this
      ensures View() == Switch(old(View()), c, t)
    {
      queue := Remove(queue, t);
      queue := queue + [t];
      if current[c].Some? {
        var o := current[c].value;
        entries := entries[o := entries[o].(running := false)];
        if !entries[o].pinned {
          entries := entries[t := entries[t].(oncpu := None)];
        }
      }
      entries := entries[t := entries[t].(running := true, oncpu := Some(c))];
      current := current[c := Some(t)];
      calls := calls[c := Outside];
    }

    /** From the label restart to where the lock is dropped; `ok` is false where scheduler_schedule panics. */
    method Pick(c: Cpu, canrun: bool, want: Option<Thread>) returns (ok: bool)
      requires Valid() && c in current && !calls[c].Reaping?
      requires canrun ==> current[c].Some? && current[c].value in entries && entries[current[c].value].runnable
      modifies this
      ensures Valid()
      ensures Choose(old(View()), c, canrun, want) == if ok then Some(View()) else None
      ensures !ok ==> View() == old(View())
    {
      ChooseKeeps(View(), c, canrun, want);
      var dead := FindDead();
      if dead.Some? {
        exiting := Remove(exiting, dead.value);
        calls := calls[c := Reaping(dead.value, canrun, want)];
        return true;
      }
      var next := FindEligible(c, want);
      FirstEligibleFacts(queue, entries, c, want, 0);
      if next.Some? {
        SwitchTo(c, next.value);
        return true;
      }
      if canrun {
        SwitchTo(c, current[c].value);
        return true;
      }
      return false;
    }

    method ScheduleThread(c: Cpu, want: Option<Thread>) returns (ok: bool)
      requires Valid() && Enabled(View(), Schedule(c, want))
      modifies this
      ensures Valid()
      ensures Next(old(View()), Schedule(c, want)) == if ok then Some(View()) else None
      ensures !ok ==> View() == old(View())
    {
      var canrun := current[c].Some? && entries[current[c].value].runnable;
      ok := Pick(c, canrun, want);
    }

    /** thread_free, called with the lock dropped. */
    method FreeThread(c: Cpu)
      requires Valid() && Enabled(View(), Free(c))
      modifies this
      ensures Valid() && Next(old(View()), Free(c)) == Some(View())
    {
      StepKeeps(View(), Free(c));
      var call := calls[c];
      entries := entries - {call.victim};
      freed := freed + {call.victim};
      calls := calls[c := Reaped(call.canrun, call.want)];
    }

    method Restart(c: Cpu) returns (ok: bool)
      requires Valid() && Enabled(View(), Resume(c))
      modifies this
      ensures Valid()
      ensures Next(old(View()), Resume(c)) == if ok then Some(View()) else None
      ensures !ok ==> View() == old(View())
    {
      ok := Pick(c, calls[c].canrun, calls[c].want);
    }
  }
}
