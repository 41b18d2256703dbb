/**
  The CPU rendezvous (mk/core/core_mp_hokusai.c).  A CPU that calls mp_hokusai_synchronize
  publishes a mask, interrupts the others, and every CPU of the mask runs the callback between
  two barriers.  Each access to a shared variable is one step, so a spin loop that compares two
  masks loads them in two steps.  CPUs are numbered; a round is one call that holds the lock.
 */
module Hokusai {
  import opened Optional

  type Cpu = nat
  type Round = nat

  /** Inside mp_hokusai: enter, the callback, exit. */
  datatype Spot =
    | Enter                       // about to set its ready bit
    | SpinReady                   // about to load the ready mask
    | SawReady(seen: set<Cpu>)    // about to compare it with the target mask
    | Calling                     // about to run the callback
    | Exit                        // about to set its done bit
    | SpinDone
    | SawDone(seen: set<Cpu>)

  /** The callback and argument that mp_hokusai was given, each named by the round that set it. */
  datatype Job = Job(callback: Option<Round>, arg: Option<Round>)

  datatype Stage =
    // mp_hokusai_synchronize, once it holds the lock
    | SetCallback
    | SetArg
    | ClearReady
    | ClearDone
    | Publish
    | Notify(todo: set<Cpu>)      // sends the interrupts, one CPU after the other
    | DropCallback
    | DropArg
    | Unlock
    // mp_hokusai_ipi
    | Test
    | ReadCallback
    | ReadArg(callback: Option<Round>)
    // both
    | Meet(spot: Spot, job: Job)

  /** A handler runs on top of what the CPU was doing: spinning for the lock with a mask, or something else. */
  datatype Pc =
    | Out
    | Want(mask: set<Cpu>)
    | Lead(stage: Stage, mask: set<Cpu>)
    | Handle(stage: Stage, under: Option<set<Cpu>>)

  datatype State = State(
    lock: Option<Cpu>,
    callback: Option<Round>,
    arg: Option<Round>,
    ready: set<Cpu>,
    done: set<Cpu>,
    target: set<Cpu>,
    pending: set<Cpu>,
    pcs: map<Cpu, Pc>,
    round: Round,
    ran: multiset<(Cpu, Round)>)

  datatype Choice = Go | Call(mask: set<Cpu>) | Interrupt | Notice(cpu: Cpu)

  // ---------- Steps ----------

  function Base(under: Option<set<Cpu>>): Pc {
    if under.None? then Out else Want(under.value)
  }

  function At(s: State, c: Cpu, pc: Pc): State {
    s.(pcs := s.pcs[c := pc])
  }

  function AtStage(s: State, c: Cpu, stage: Stage): State
    requires c in s.pcs && (s.pcs[c].Lead? || s.pcs[c].Handle?)
  {
    At(s, c, if s.pcs[c].Lead? then Lead(stage, s.pcs[c].mask) else Handle(stage, s.pcs[c].under))
  }

  /** What mp_hokusai's caller does when it returns. */
  function Left(s: State, c: Cpu): State
    requires c in s.pcs && (s.pcs[c].Lead? || s.pcs[c].Handle?)
  {
    if s.pcs[c].Lead? then AtStage(s, c, DropCallback) else At(s, c, Base(s.pcs[c].under))
  }

  function MeetStep(s: State, c: Cpu, spot: Spot, job: Job): State
    requires c in s.pcs && (s.pcs[c].Lead? || s.pcs[c].Handle?)
  {
    match spot
    case Enter => AtStage(s.(ready := s.ready + {c}), c, Meet(SpinReady, job))
    case SpinReady => AtStage(s, c, Meet(SawReady(s.ready), job))
    case SawReady(seen) => AtStage(s, c, Meet(if seen == s.target then Calling else SpinReady, job))
    case Calling =>
      var ran := if job.callback.Some? then s.ran + multiset{(c, job.callback.value)} else s.ran;
      AtStage(s.(ran := ran), c, Meet(Exit, job))
    case Exit => AtStage(s.(done := s.done + {c}), c, Meet(SpinDone, job))
    case SpinDone => AtStage(s, c, Meet(SawDone(s.done), job))
    case SawDone(seen) => if seen == s.target then Left(s, c) else AtStage(s, c, Meet(SpinDone, job))
  }

  ghost function LeadStep(s: State, c: Cpu, choice: Choice): Option<State>
    requires c in s.pcs && s.pcs[c].Lead?
  {
    var mask := s.pcs[c].mask;
    match s.pcs[c].stage
    case SetCallback => Some(AtStage(s.(callback := Some(s.round)), c, SetArg))
    case SetArg => Some(AtStage(s.(arg := Some(s.round)), c, ClearReady))
    case ClearReady => Some(AtStage(s.(ready := {}), c, ClearDone))
    case ClearDone => Some(AtStage(s.(done := {}), c, Publish))
    case Publish => Some(AtStage(s.(target := mask + {c}), c, Notify(s.pcs.Keys - {c})))
    case Notify(todo) =>
      if todo == {} then
        Some(AtStage(s, c, Meet(Enter, if c in mask then Job(Some(s.round), Some(s.round)) else Job(None, None))))
      else if choice.Notice? && choice.cpu in todo then
        Some(AtStage(s.(pending := s.pending + {choice.cpu}), c, Notify(todo - {choice.cpu})))
      else None
    case Meet(spot, job) => Some(MeetStep(s, c, spot, job))
    case DropCallback => Some(AtStage(s.(callback := None), c, DropArg))
    case DropArg => Some(AtStage(s.(arg := None), c, Unlock))
    case Unlock => Some(At(s.(lock := None), c, Out))
    case _ => None
  }

  ghost function HandleStep(s: State, c: Cpu): Option<State>
    requires c in s.pcs && s.pcs[c].Handle?
  {
    match s.pcs[c].stage
    case Test => if c in s.target then Some(AtStage(s, c, ReadCallback)) else Some(At(s, c, Base(s.pcs[c].under)))
    case ReadCallback => Some(AtStage(s, c, ReadArg(s.callback)))
    case ReadArg(callback) => Some(AtStage(s, c, Meet(Enter, Job(callback, s.arg))))
    case Meet(spot, job) => Some(MeetStep(s, c, spot, job))
    case _ => None
  }

  /** What CPU `c` does next; None when it can do nothing of that kind now. */
  ghost function Step(s: State, c: Cpu, choice: Choice): Option<State>
    requires c in s.pcs
  {
    match s.pcs[c]
    case Out =>
      if choice.Call? then Some(At(s, c, Want(choice.mask)))
      else if choice.Interrupt? && c in s.pending then
        Some(At(s.(pending := s.pending - {c}), c, Handle(Test, None)))
      else None
    case Want(mask) =>
      if choice.Interrupt? && c in s.pending then
        Some(At(s.(pending := s.pending - {c}), c, Handle(Test, Some(mask))))
      else if choice.Go? && s.lock.None? then
        Some(At(s.(lock := Some(c), round := s.round + 1), c, Lead(SetCallback, mask)))
      else None
    case Lead(_, _) => LeadStep(s, c, choice)
    case Handle(_, _) => HandleStep(s, c)
  }

  /** Among these CPUs every interrupt of earlier rounds has been taken and its handler has tested the mask. */
  ghost predicate Taken(s: State, targets: set<Cpu>) {
    && s.pending !! targets
    && forall c :: c in targets && c in s.pcs ==> !(s.pcs[c].Handle? && s.pcs[c].stage.Test?)
  }

  /** What a round relies on: no interrupt of an earlier round is still on its way to a CPU whose bit it publishes. */
  ghost predicate Prompt(s: State, c: Cpu) {
    c in s.pcs && s.pcs[c].Lead? && s.pcs[c].stage.Publish? ==> Taken(s, s.pcs[c].mask + {c})
  }

  // ---------- The invariant ----------

  ghost predicate Meets(pc: Pc) {
    (pc.Lead? || pc.Handle?) && pc.stage.Meet?
  }

  /** Has set its ready bit and not yet its done bit. */
  ghost predicate Inside(pc: Pc) {
    Meets(pc) && (pc.stage.spot.SpinReady? || pc.stage.spot.SawReady? || pc.stage.spot.Calling? || pc.stage.spot.Exit?)
  }

  /** Is bound to set its ready bit. */
  ghost predicate Coming(pc: Pc) {
    || (Meets(pc) && pc.stage.spot.Enter?)
    || (pc.Handle? && (pc.stage.ReadCallback? || pc.stage.ReadArg?))
  }

  ghost predicate Testing(pc: Pc) {
    pc.Handle? && pc.stage.Test?
  }

  /** The leader's stages before it publishes its mask. */
  ghost predicate Early(stage: Stage) {
    stage.SetCallback? || stage.SetArg? || stage.ClearReady? || stage.ClearDone? || stage.Publish?
  }

  ghost predicate Late(stage: Stage) {
    stage.DropCallback? || stage.DropArg? || stage.Unlock?
  }

  /** Stages belong to the function that has them, and exactly the holder of the lock leads. */
  ghost predicate Shape(s: State) {
    && (s.lock.Some? ==> s.lock.value in s.pcs)
    && (forall c :: c in s.pcs ==>
          && (s.pcs[c].Lead? <==> s.lock == Some(c))
          && (s.pcs[c].Lead? ==> Early(s.pcs[c].stage) || Late(s.pcs[c].stage) || s.pcs[c].stage.Notify? || s.pcs[c].stage.Meet?)
          && (s.pcs[c].Handle? ==> s.pcs[c].stage.Test? || Coming(s.pcs[c]) || s.pcs[c].stage.Meet?))
    && s.pending <= s.pcs.Keys
  }

  /** No round is published: nobody is on its way in, or in, and those yet to test are no targets. */
  ghost predicate Calm(s: State) {
    forall c :: c in s.pcs ==>
      && !Coming(s.pcs[c]) && !Inside(s.pcs[c])
      && (c in s.pending || Testing(s.pcs[c]) ==> c !in s.target)
  }

  ghost predicate Published(s: State) {
    s.lock.Some? && s.lock.value in s.pcs && s.pcs[s.lock.value].Lead? && !Early(s.pcs[s.lock.value].stage)
  }

  ghost function Todo(s: State): set<Cpu>
    requires Published(s)
  {
    var stage := s.pcs[s.lock.value].stage;
    if stage.Notify? then stage.todo else {}
  }

  /** The job of this round, for a CPU. */
  ghost function Work(s: State, c: Cpu): Job
    requires Published(s)
  {
    if c in s.pcs[s.lock.value].mask || c != s.lock.value then Job(Some(s.round), Some(s.round)) else Job(None, None)
  }

  /** Where a CPU stands in the published round, told by its bits. */
  ghost predicate Stands(s: State, c: Cpu)
    requires Published(s) && c in s.pcs
  {
    var pc := s.pcs[c];
    var owed := c in s.pending || c in Todo(s);
    if c !in s.target then !Coming(pc) && !Inside(pc)
    else if c !in s.ready then
      if c == s.lock.value then !owed && (pc.stage.Notify? || (Coming(pc) && pc.stage.job == Work(s, c)))
      else if owed then !Coming(pc) && !Inside(pc) && !Testing(pc)
      else
        && (Testing(pc) || Coming(pc))
        && (pc.stage.ReadArg? ==> pc.stage.callback == Some(s.round))
        && (pc.stage.Meet? ==> pc.stage.job == Work(s, c))
    else if c !in s.done then
      !owed && Inside(pc) && pc.stage.job == Work(s, c) && (pc.stage.spot.SawReady? ==> pc.stage.spot.seen <= s.ready)
    else
      && !owed && !Coming(pc) && !Inside(pc) && !Testing(pc)
      && (c == s.lock.value && Meets(pc) && pc.stage.spot.SawDone? ==> pc.stage.spot.seen <= s.done)
      && (c == s.lock.value ==> !pc.stage.Notify?)
  }

  /** Has gone through the first barrier. */
  ghost predicate Past(s: State, c: Cpu) {
    c in s.done || (c in s.pcs && Inside(s.pcs[c]) && (s.pcs[c].stage.spot.Calling? || s.pcs[c].stage.spot.Exit?))
  }

  ghost predicate Open(s: State)
    requires Published(s)
  {
    var leader := s.pcs[s.lock.value];
    && s.target == leader.mask + {s.lock.value}
    && s.done <= s.ready <= s.target
    && Todo(s) <= s.pcs.Keys - {s.lock.value} && Todo(s) * s.pending !! s.target
    && (leader.stage.Notify? || leader.stage.Meet? ==> s.callback == Some(s.round) && s.arg == Some(s.round))
    && (forall c :: c in s.pcs ==> Stands(s, c))
    && (forall c :: Past(s, c) && c in s.target ==> s.ready == s.target)
    && (Late(leader.stage) ==> s.done == s.target)
  }

  /** How often each CPU has run the callback of each round. */
  ghost predicate Logged(s: State) {
    && (forall c, r :: r > s.round ==> s.ran[(c, r)] == 0)
    && (s.lock.Some? && !Published(s) ==> forall c :: s.ran[(c, s.round)] == 0)
    && (Published(s) ==> forall c ::
          s.ran[(c, s.round)] ==
          if c in s.pcs[s.lock.value].mask && (c in s.done || (c in s.pcs && Inside(s.pcs[c]) && s.pcs[c].stage.spot.Exit?))
          then 1 else 0)
  }

  /** What the leader has prepared so far. */
  ghost predicate Prepared(s: State) {
    s.lock.Some? && s.lock.value in s.pcs && s.pcs[s.lock.value].Lead? ==>
      var stage := s.pcs[s.lock.value].stage;
      && (Early(stage) && !stage.SetCallback? ==> s.callback == Some(s.round))
      && (Early(stage) && !stage.SetCallback? && !stage.SetArg? ==> s.arg == Some(s.round))
      && (stage.ClearDone? || stage.Publish? ==> s.ready == {})
      && (stage.Publish? ==> s.done == {})
      && (stage.DropArg? || stage.Unlock? ==> s.callback == None)
      && (stage.Unlock? ==> s.arg == None)
  }

  /** The callback slot is free for the next leader. */
  ghost predicate Free(s: State) {
    s.lock.None? || (s.lock.value in s.pcs && s.pcs[s.lock.value].Lead? && s.pcs[s.lock.value].stage.SetCallback?) ==>
      s.callback == None && s.arg == None
  }

  ghost predicate Inv(s: State) {
    && Shape(s)
    && (if Published(s) then Open(s) else Calm(s))
    && Logged(s)
    && Prepared(s)
    && Free(s)
  }

  // ---------- Steps outside a published round ----------

  lemma OutKeeps(s: State, c: Cpu, choice: Choice)
    requires Inv(s) && c in s.pcs && (s.pcs[c].Out? || s.pcs[c].Want?) && Step(s, c, choice).Some?
    requires !Published(s)
    ensures Inv(Step(s, c, choice).value)
  {
  }

  lemma EarlyKeeps(s: State, c: Cpu, choice: Choice)
    requires Inv(s) && c in s.pcs && s.pcs[c].Lead? && Early(s.pcs[c].stage) && Step(s, c, choice).Some?
    requires !s.pcs[c].stage.Publish?
    ensures Inv(Step(s, c, choice).value)
  {
  }

  lemma PublishKeeps(s: State, c: Cpu, choice: Choice)
    requires Inv(s) && c in s.pcs && s.pcs[c].Lead? && s.pcs[c].stage.Publish? && Step(s, c, choice).Some?
    requires Taken(s, s.pcs[c].mask + {c})
    ensures Inv(Step(s, c, choice).value)
  {
  }

  /** A CPU that is not part of a round moves between places outside the round. */
  lemma CalmMove(s: State, c: Cpu, pc: Pc)
    requires Inv(s) && c in s.pcs && !s.pcs[c].Lead? && !Published(s)
    requires !pc.Lead? && !Coming(pc) && !Inside(pc) && !Testing(pc) && (pc.Handle? ==> pc.stage.Meet?)
    ensures Inv(At(s, c, pc))
  {
  }

  lemma CalmHandleKeeps(s: State, c: Cpu, choice: Choice)
    requires Inv(s) && c in s.pcs && s.pcs[c].Handle? && Step(s, c, choice).Some?
    requires !Published(s)
    ensures Inv(Step(s, c, choice).value)
  {
    CalmMove(s, c, Step(s, c, choice).value.pcs[c]);
  }

  // ---------- Steps in a published round ----------

  /** A step of CPU `c` in a round: its own place, and bits of its own that it sets. */
  ghost predicate Own(s: State, r: State, c: Cpu) {
    && Published(s) && Published(r) && c in s.pcs && c in r.pcs && r.pcs == s.pcs[c := r.pcs[c]]
    && r.lock == s.lock && r.target == s.target && r.round == s.round && r.arg == s.arg
    && (r.callback == s.callback || Late(r.pcs[r.lock.value].stage))
    && (c == s.lock.value ==> r.pcs[c].mask == s.pcs[c].mask)
    && (r.ready == s.ready || r.ready == s.ready + {c})
    && (r.done == s.done || r.done == s.done + {c})
    && (r.pending == s.pending || r.pending == s.pending - {c})
    && Todo(r) == Todo(s)
  }

  /** The others stand where they stood. */
  lemma StandsOther(s: State, r: State, c: Cpu, x: Cpu)
    requires Own(s, r, c) && x in s.pcs && x != c && Stands(s, x)
    requires s.pcs[c].Lead? <==> r.pcs[c].Lead?
    ensures Stands(r, x)
  {
  }

  lemma OwnOpen(s: State, r: State, c: Cpu)
    requires Shape(s) && Own(s, r, c) && Open(s)
    requires s.pcs[c].Lead? <==> r.pcs[c].Lead?
    requires Stands(r, c)
    requires r.done <= r.ready <= r.target
    requires Past(r, c) && c in r.target ==> r.ready == r.target
    requires c == s.lock.value ==> !r.pcs[c].stage.Notify? || s.pcs[c].stage.Notify?
    requires c == s.lock.value ==> !Late(s.pcs[c].stage) || Late(r.pcs[c].stage)
    requires c == s.lock.value && Late(r.pcs[c].stage) ==> r.done == r.target
    ensures Open(r)
  {
    forall x | x in r.pcs ensures Stands(r, x) {
      if x != c {
        StandsOther(s, r, c, x);
      }
    }
    forall x | Past(r, x) && x in r.target ensures r.ready == r.target {
      if x != c {
        assert Past(s, x);
      }
    }
  }

  /** Nobody ran anything, and nobody passed the end of the callback. */
  lemma OwnLogged(s: State, r: State, c: Cpu)
    requires Own(s, r, c) && Logged(s) && r.ran == s.ran
    requires (c in s.done || (Inside(s.pcs[c]) && s.pcs[c].stage.spot.Exit?))
        <==> (c in r.done || (Inside(r.pcs[c]) && r.pcs[c].stage.spot.Exit?))
    ensures Logged(r)
  {
  }

  /** A step in a round that runs nothing, by a CPU that stands well after it. */
  ghost predicate Advances(s: State, r: State, c: Cpu) {
    && Own(s, r, c) && r.ran == s.ran && r.callback == s.callback
    && (if s.pcs[c].Lead? then r.pcs[c].Lead? && s.pcs[c].stage.Meet? && r.pcs[c].stage.Meet?
        else !r.pcs[c].Lead? && (r.pcs[c].Handle? ==> Testing(r.pcs[c]) || Coming(r.pcs[c]) || r.pcs[c].stage.Meet?))
    && Stands(r, c)
    && r.done <= r.ready <= r.target
    && (Past(r, c) && c in r.target ==> r.ready == r.target)
    && ((c in s.done || (Inside(s.pcs[c]) && s.pcs[c].stage.spot.Exit?))
        <==> (c in r.done || (Inside(r.pcs[c]) && r.pcs[c].stage.spot.Exit?)))
  }

  lemma AdvanceKeeps(s: State, r: State, c: Cpu)
    requires Inv(s) && Published(s) && Advances(s, r, c)
    ensures Inv(r)
  {
    OwnOpen(s, r, c);
    OwnLogged(s, r, c);
  }

  /** A CPU takes an interrupt, or begins a call and waits for the lock. */
  lemma OpenOutKeeps(s: State, c: Cpu, choice: Choice)
    requires Inv(s) && c in s.pcs && (s.pcs[c].Out? || s.pcs[c].Want?) && Step(s, c, choice).Some?
    requires Published(s)
    ensures Inv(Step(s, c, choice).value)
  {
    AdvanceKeeps(s, Step(s, c, choice).value, c);
  }

  lemma ArriveKeeps(s: State, c: Cpu, choice: Choice)
    requires Inv(s) && c in s.pcs && s.pcs[c].Handle? && Published(s) && Step(s, c, choice).Some?
    requires !s.pcs[c].stage.Meet?
    ensures Inv(Step(s, c, choice).value)
  {
    AdvanceKeeps(s, Step(s, c, choice).value, c);
  }

  lemma EnterKeeps(s: State, c: Cpu, choice: Choice)
    requires Inv(s) && c in s.pcs && Published(s) && Meets(s.pcs[c]) && Step(s, c, choice).Some?
    requires s.pcs[c].stage.spot.Enter?
    ensures Inv(Step(s, c, choice).value)
  {
    AdvanceKeeps(s, Step(s, c, choice).value, c);
  }

  lemma SpinReadyKeeps(s: State, c: Cpu, choice: Choice)
    requires Inv(s) && c in s.pcs && Published(s) && Meets(s.pcs[c]) && Step(s, c, choice).Some?
    requires s.pcs[c].stage.spot.SpinReady?
    ensures Inv(Step(s, c, choice).value)
  {
    AdvanceKeeps(s, Step(s, c, choice).value, c);
  }

  lemma SawReadyKeeps(s: State, c: Cpu, choice: Choice)
    requires Inv(s) && c in s.pcs && Published(s) && Meets(s.pcs[c]) && Step(s, c, choice).Some?
    requires s.pcs[c].stage.spot.SawReady?
    ensures Inv(Step(s, c, choice).value)
  {
    AdvanceKeeps(s, Step(s, c, choice).value, c);
  }

  lemma CallingKeeps(s: State, c: Cpu, choice: Choice)
    requires Inv(s) && c in s.pcs && Published(s) && Meets(s.pcs[c]) && Step(s, c, choice).Some?
    requires s.pcs[c].stage.spot.Calling?
    ensures Inv(Step(s, c, choice).value)
  {
    var r := Step(s, c, choice).value;
    assert Stands(s, c);
    CallingOpen(s, r, c);
    CallingLogged(s, r, c);
  }

  lemma CallingOpen(s: State, r: State, c: Cpu)
    requires Shape(s) && Published(s) && Open(s) && c in s.pcs && Meets(s.pcs[c]) && s.pcs[c].stage.spot.Calling?
    requires r == AtStage(s.(ran := r.ran), c, Meet(Exit, s.pcs[c].stage.job))
    ensures Own(s, r, c) && Open(r)
  {
    assert Stands(s, c);
    assert Past(s, c);
    OwnOpen(s, r, c);
  }

  lemma CallingLogged(s: State, r: State, c: Cpu)
    requires Own(s, r, c) && Logged(s) && Inside(s.pcs[c]) && s.pcs[c].stage.spot.Calling?
    requires c !in s.done && r.done == s.done && Inside(r.pcs[c]) && r.pcs[c].stage.spot.Exit?
    requires c in s.target && s.target == s.pcs[s.lock.value].mask + {s.lock.value}
    requires s.pcs[c].stage.job == Work(s, c)
    requires r.ran == if Work(s, c).callback.Some? then s.ran + multiset{(c, s.round)} else s.ran
    ensures Logged(r)
  {
  }

  lemma ExitKeeps(s: State, c: Cpu, choice: Choice)
    requires Inv(s) && c in s.pcs && Published(s) && Meets(s.pcs[c]) && Step(s, c, choice).Some?
    requires s.pcs[c].stage.spot.Exit?
    ensures Inv(Step(s, c, choice).value)
  {
    AdvanceKeeps(s, Step(s, c, choice).value, c);
  }

  lemma SpinDoneKeeps(s: State, c: Cpu, choice: Choice)
    requires Inv(s) && c in s.pcs && Published(s) && Meets(s.pcs[c]) && Step(s, c, choice).Some?
    requires s.pcs[c].stage.spot.SpinDone?
    ensures Inv(Step(s, c, choice).value)
  {
    AdvanceKeeps(s, Step(s, c, choice).value, c);
  }

  /** The leader spins on, or leaves the second barrier when it has seen every target's bit. */
  lemma LeaderMove(s: State, c: Cpu, stage: Stage)
    requires Inv(s) && c in s.pcs && s.pcs[c].Lead? && Meets(s.pcs[c]) && s.pcs[c].stage.spot.SawDone?
    requires stage == Meet(SpinDone, s.pcs[c].stage.job) || (stage == DropCallback && s.pcs[c].stage.spot.seen == s.target)
    ensures Inv(AtStage(s, c, stage))
  {
    var r := AtStage(s, c, stage);
    assert Stands(s, c);
    OwnOpen(s, r, c);
    OwnLogged(s, r, c);
  }

  lemma LeaderLeaves(s: State, c: Cpu, choice: Choice)
    requires Inv(s) && c in s.pcs && s.pcs[c].Lead? && Meets(s.pcs[c]) && Step(s, c, choice).Some?
    requires s.pcs[c].stage.spot.SawDone?
    ensures Inv(Step(s, c, choice).value)
  {
    LeaderMove(s, c, Step(s, c, choice).value.pcs[c].stage);
  }

  /** A handler that has done its part moves on. */
  lemma SettledMove(s: State, c: Cpu, pc: Pc)
    requires Inv(s) && Published(s) && c in s.pcs && s.pcs[c].Handle? && Meets(s.pcs[c])
    requires s.pcs[c].stage.spot.SawDone?
    requires !pc.Lead? && !Coming(pc) && !Inside(pc) && !Testing(pc) && (pc.Handle? ==> pc.stage.Meet?)
    ensures Inv(At(s, c, pc))
  {
    assert Stands(s, c);
    OwnOpen(s, At(s, c, pc), c);
    OwnLogged(s, At(s, c, pc), c);
  }

  lemma HandlerLeaves(s: State, c: Cpu, choice: Choice)
    requires Inv(s) && c in s.pcs && Published(s) && s.pcs[c].Handle? && Meets(s.pcs[c]) && Step(s, c, choice).Some?
    requires s.pcs[c].stage.spot.SawDone?
    ensures Inv(Step(s, c, choice).value)
  {
    SettledMove(s, c, Step(s, c, choice).value.pcs[c]);
  }

  lemma DropKeeps(s: State, c: Cpu, choice: Choice)
    requires Inv(s) && c in s.pcs && s.pcs[c].Lead? && Step(s, c, choice).Some?
    requires s.pcs[c].stage.DropCallback? || s.pcs[c].stage.DropArg?
    ensures Inv(Step(s, c, choice).value)
  {
    var r := Step(s, c, choice).value;
    OwnOpen(s, r.(arg := s.arg), c);
    OwnLogged(s, r.(arg := s.arg), c);
  }

  lemma UnlockKeeps(s: State, c: Cpu, choice: Choice)
    requires Inv(s) && c in s.pcs && s.pcs[c].Lead? && s.pcs[c].stage.Unlock? && Step(s, c, choice).Some?
    ensures Inv(Step(s, c, choice).value)
  {
  }

  /** Every interrupt is sent: the leader goes to the meeting. */
  lemma NotifiedKeeps(s: State, c: Cpu, choice: Choice)
    requires Inv(s) && c in s.pcs && s.pcs[c].Lead? && s.pcs[c].stage == Notify({}) && Step(s, c, choice).Some?
    ensures Inv(Step(s, c, choice).value)
  {
    var r := Step(s, c, choice).value;
    assert Stands(s, c);
    OwnOpen(s, r, c);
    OwnLogged(s, r, c);
  }

  lemma NotifyKeeps(s: State, c: Cpu, choice: Choice)
    requires Inv(s) && c in s.pcs && s.pcs[c].Lead? && s.pcs[c].stage.Notify? && Step(s, c, choice).Some?
    requires s.pcs[c].stage.todo != {}
    ensures Inv(Step(s, c, choice).value)
  {
    var r := Step(s, c, choice).value;
    NotifyOpen(s, r, c, choice.cpu);
    NotifyLogged(s, r, c, choice.cpu);
  }

  /** Sending an interrupt turns one still to be sent into one that is on its way. */
  ghost predicate Sends(s: State, r: State, c: Cpu, x: Cpu) {
    && Published(s) && s.lock == Some(c) && s.pcs[c].stage.Notify? && x in s.pcs[c].stage.todo
    && r == At(s.(pending := s.pending + {x}), c, Lead(Notify(s.pcs[c].stage.todo - {x}), s.pcs[c].mask))
  }

  lemma NotifyOpen(s: State, r: State, c: Cpu, x: Cpu)
    requires Sends(s, r, c, x) && Open(s)
    ensures Open(r)
  {
    forall d | d in r.pcs ensures Stands(r, d) {
      assert Stands(s, d);
    }
    forall d | Past(r, d) && d in r.target ensures r.ready == r.target {
      assert Past(s, d);
    }
  }

  lemma NotifyLogged(s: State, r: State, c: Cpu, x: Cpu)
    requires Sends(s, r, c, x) && Logged(s)
    ensures Logged(r)
  {
  }

  lemma MeetKeeps(s: State, c: Cpu, choice: Choice)
    requires Inv(s) && c in s.pcs && Published(s) && Meets(s.pcs[c]) && Step(s, c, choice).Some?
    ensures Inv(Step(s, c, choice).value)
  {
    match s.pcs[c].stage.spot
    case Enter => EnterKeeps(s, c, choice);
    case SpinReady => SpinReadyKeeps(s, c, choice);
    case SawReady(_) => SawReadyKeeps(s, c, choice);
    case Calling => CallingKeeps(s, c, choice);
    case Exit => ExitKeeps(s, c, choice);
    case SpinDone => SpinDoneKeeps(s, c, choice);
    case SawDone(_) => if s.pcs[c].Lead? { LeaderLeaves(s, c, choice); } else { HandlerLeaves(s, c, choice); }
  }

  lemma LeadKeeps(s: State, c: Cpu, choice: Choice)
    requires Inv(s) && c in s.pcs && s.pcs[c].Lead? && Step(s, c, choice).Some? && Prompt(s, c)
    ensures Inv(Step(s, c, choice).value)
  {
    var stage := s.pcs[c].stage;
    if stage.Publish? {
      PublishKeeps(s, c, choice);
    } else if Early(stage) {
      EarlyKeeps(s, c, choice);
    } else if stage.Notify? && stage.todo == {} {
      NotifiedKeeps(s, c, choice);
    } else if stage.Notify? {
      NotifyKeeps(s, c, choice);
    } else if stage.Meet? {
      MeetKeeps(s, c, choice);
    } else if stage.Unlock? {
      UnlockKeeps(s, c, choice);
    } else {
      DropKeeps(s, c, choice);
    }
  }

  lemma StepKeeps(s: State, c: Cpu, choice: Choice)
    requires Inv(s) && c in s.pcs && Step(s, c, choice).Some? && Prompt(s, c)
    ensures Inv(Step(s, c, choice).value)
  {
    match s.pcs[c]
    case Lead(_, _) => LeadKeeps(s, c, choice);
    case Handle(stage, _) =>
      if !Published(s) {
        CalmHandleKeeps(s, c, choice);
      } else if stage.Meet? {
        MeetKeeps(s, c, choice);
      } else {
        ArriveKeeps(s, c, choice);
      }
    case _ =>
      if Published(s) {
        OpenOutKeeps(s, c, choice);
      } else {
        OutKeeps(s, c, choice);
      }
  }

  // ---------- Runs ----------

  ghost predicate Initial(s: State) {
    && s.lock == None && s.callback == None && s.arg == None && s.pending == {} && s.round == 0 && s.ran == multiset{}
    && s.target == {}
    && forall c :: c in s.pcs ==> s.pcs[c] == Out
  }

  ghost predicate StepAt(states: seq<State>, moves: seq<(Cpu, Choice)>, i: nat)
    requires i < |moves| && |states| == |moves| + 1
  {
    moves[i].0 in states[i].pcs && Step(states[i], moves[i].0, moves[i].1) == Some(states[i + 1])
  }

  /** Any number of rounds, led by any CPUs, in any interleaving. */
  ghost predicate Steps(states: seq<State>, moves: seq<(Cpu, Choice)>) {
    && |states| == |moves| + 1
    && Initial(states[0])
    && forall i: nat :: i < |moves| ==> StepAt(states, moves, i)
  }

  /** A run in which interrupts do not outlast the preparation of the next round. */
  ghost predicate Run(states: seq<State>, moves: seq<(Cpu, Choice)>) {
    && Steps(states, moves)
    && forall i: nat :: i < |moves| ==> Prompt(states[i], moves[i].0)
  }

  lemma {:induction false} RunInv(states: seq<State>, moves: seq<(Cpu, Choice)>, i: nat)
    requires Run(states, moves) && i < |states|
    ensures Inv(states[i])
  {
    if i > 0 {
      RunInv(states, moves, i - 1);
      assert StepAt(states, moves, i - 1);
      StepKeeps(states[i - 1], moves[i - 1].0, moves[i - 1].1);
    }
  }

  /** CPU `c` is about to run the callback it was given. */
  ghost predicate AboutToCall(s: State, c: Cpu) {
    && c in s.pcs && Meets(s.pcs[c]) && s.pcs[c].stage.spot.Calling? && s.pcs[c].stage.job.callback.Some?
  }

  /**
    A callback runs only in its own round, with that round's argument, on a CPU of the caller's
    mask, and after every CPU of the mask, and the caller, have set their ready bits.
   */
  lemma CallbackAfterAll(states: seq<State>, moves: seq<(Cpu, Choice)>, i: nat, c: Cpu)
    requires Run(states, moves) && i < |states| && AboutToCall(states[i], c)
    ensures var s := states[i];
            && s.lock.Some? && s.lock.value in s.pcs && s.pcs[s.lock.value].Lead?
            && s.pcs[c].stage.job == Job(Some(s.round), Some(s.round))
            && s.target == s.pcs[s.lock.value].mask + {s.lock.value}
            && c in s.pcs[s.lock.value].mask
            && s.ready == s.target
  {
    RunInv(states, moves, i);
    assert Stands(states[i], c);
    assert Past(states[i], c);
  }

  /** When mp_hokusai_synchronize lets go of the lock, exactly the caller's mask has run the callback, each CPU once. */
  lemma ReturnsAfterAll(states: seq<State>, moves: seq<(Cpu, Choice)>, i: nat, leader: Cpu, c: Cpu)
    requires Run(states, moves) && i < |states|
    requires leader in states[i].pcs && states[i].pcs[leader].Lead? && states[i].pcs[leader].stage.Unlock?
    ensures states[i].ran[(c, states[i].round)] == if c in states[i].pcs[leader].mask then 1 else 0
  {
    RunInv(states, moves, i);
  }

  ghost predicate Over(s: State, round: Round) {
    round < s.round || (round == s.round && s.lock.None?)
  }

  /** Nothing but a callback is counted. */
  lemma RanOnly(s: State, c: Cpu, choice: Choice)
    requires c in s.pcs && Step(s, c, choice).Some?
    requires !AboutToCall(s, c)
    ensures Step(s, c, choice).value.ran == s.ran
  {
  }

  lemma RoundsGrow(s: State, c: Cpu, choice: Choice, round: Round)
    requires Shape(s) && c in s.pcs && Step(s, c, choice).Some? && Over(s, round)
    ensures Over(Step(s, c, choice).value, round)
  {
  }

  lemma CallsOwnRound(s: State, c: Cpu)
    requires Inv(s) && AboutToCall(s, c)
    ensures s.lock.Some? && s.pcs[c].stage.job.callback == Some(s.round)
  {
    assert Inside(s.pcs[c]);
    assert Published(s);
    assert Stands(s, c);
  }

  /** Only the round that holds the lock runs callbacks. */
  lemma RanStays(s: State, c: Cpu, choice: Choice, x: Cpu, round: Round)
    requires Inv(s) && c in s.pcs && Step(s, c, choice).Some? && Over(s, round)
    ensures var r := Step(s, c, choice).value;
            r.ran[(x, round)] == s.ran[(x, round)] && Over(r, round)
  {
    RoundsGrow(s, c, choice, round);
    if AboutToCall(s, c) {
      CallsOwnRound(s, c);
    } else {
      RanOnly(s, c, choice);
    }
  }

  lemma {:induction false} RanForever(states: seq<State>, moves: seq<(Cpu, Choice)>, i: nat, j: nat, x: Cpu, round: Round)
    requires Run(states, moves) && i <= j < |states| && Over(states[i], round)
    ensures states[j].ran[(x, round)] == states[i].ran[(x, round)] && Over(states[j], round)
    decreases j
  {
    if i < j {
      RanForever(states, moves, i, j - 1, x, round);
      RunInv(states, moves, j - 1);
      assert StepAt(states, moves, j - 1);
      RanStays(states[j - 1], moves[j - 1].0, moves[j - 1].1, x, round);
    }
  }

  /**
    Exactly once, for good: once a call has returned, every CPU of its mask has run its callback
    exactly once and no other CPU has, and no later step changes that.
   */
  lemma ExactlyOnce(states: seq<State>, moves: seq<(Cpu, Choice)>, i: nat, j: nat, leader: Cpu, c: Cpu)
    requires Run(states, moves) && i < j < |states| && moves[i].0 == leader
    requires leader in states[i].pcs && states[i].pcs[leader].Lead? && states[i].pcs[leader].stage.Unlock?
    ensures states[j].ran[(c, states[i].round)] == if c in states[i].pcs[leader].mask then 1 else 0
  {
    RunInv(states, moves, i);
    ReturnsAfterAll(states, moves, i, leader, c);
    assert StepAt(states, moves, i);
    RanForever(states, moves, i + 1, j, c, states[i].round);
  }

  /** The assertion that the callback slot is free when a call gets the lock always holds. */
  lemma SlotFree(states: seq<State>, moves: seq<(Cpu, Choice)>, i: nat, c: Cpu)
    requires Run(states, moves) && i < |states|
    requires c in states[i].pcs && states[i].pcs[c].Lead? && states[i].pcs[c].stage.SetCallback?
    ensures states[i].callback == None && states[i].arg == None
  {
    RunInv(states, moves, i);
  }

  // ---------- The second barrier ----------

  ghost predicate Waiting(pc: Pc) {
    pc.Handle? && pc.stage.Meet? && (pc.stage.spot.SpinDone? || pc.stage.spot.SawDone?)
  }

  /** A handler at the second barrier is of this round, with its bit set, or of one that is over. */
  ghost predicate Trails(s: State, x: Cpu) {
    x in s.pcs && Waiting(s.pcs[x]) ==>
      && s.pcs[x].stage.job.callback.Some?
      && var q := s.pcs[x].stage.job.callback.value;
         || Over(s, q)
         || (&& Published(s) && q == s.round && x in s.done
             && (s.pcs[x].stage.spot.SawDone? ==> s.pcs[x].stage.spot.seen <= s.done))
  }

  /** Over steps a round's done bits are only set, until it is over. */
  ghost predicate DoneStays(s: State, r: State) {
    Published(s) ==> Over(r, s.round) || (Published(r) && r.round == s.round && s.done <= r.done)
  }

  lemma LeaderDone(s: State, c: Cpu, choice: Choice, r: State)
    requires c in s.pcs && s.pcs[c].Lead? && s.lock == Some(c) && Step(s, c, choice) == Some(r)
    ensures DoneStays(s, r)
  {
  }

  lemma OtherDone(s: State, c: Cpu, choice: Choice, r: State)
    requires Shape(s) && c in s.pcs && !s.pcs[c].Lead? && Step(s, c, choice) == Some(r)
    ensures DoneStays(s, r)
  {
    if Published(s) {
      assert r.pcs[s.lock.value] == s.pcs[s.lock.value];
    }
  }

  lemma TrailsStay(s: State, r: State, x: Cpu)
    requires Trails(s, x) && x in s.pcs && x in r.pcs && r.pcs[x] == s.pcs[x] && DoneStays(s, r)
    requires forall q :: Over(s, q) ==> Over(r, q)
    ensures Trails(r, x)
  {
  }

  lemma LeadStays(s: State, c: Cpu, choice: Choice, r: State, x: Cpu)
    requires c in s.pcs && s.pcs[c].Lead? && LeadStep(s, c, choice) == Some(r) && x != c
    ensures (x in r.pcs <==> x in s.pcs) && (x in s.pcs ==> r.pcs[x] == s.pcs[x])
  {
  }

  lemma HandleStays(s: State, c: Cpu, r: State, x: Cpu)
    requires c in s.pcs && s.pcs[c].Handle? && HandleStep(s, c) == Some(r) && x != c
    ensures (x in r.pcs <==> x in s.pcs) && (x in s.pcs ==> r.pcs[x] == s.pcs[x])
  {
  }

  /** A step moves only the CPU that takes it. */
  lemma StepStays(s: State, c: Cpu, choice: Choice, r: State, x: Cpu)
    requires c in s.pcs && Step(s, c, choice) == Some(r) && x != c
    ensures (x in r.pcs <==> x in s.pcs) && (x in s.pcs ==> r.pcs[x] == s.pcs[x])
  {
    match s.pcs[c]
    case Lead(_, _) => LeadStays(s, c, choice, r, x);
    case Handle(_, _) => HandleStays(s, c, r, x);
    case _ =>
  }

  lemma TrailsOther(s: State, c: Cpu, choice: Choice, x: Cpu, r: State)
    requires Shape(s) && c in s.pcs && Step(s, c, choice) == Some(r) && x != c && Trails(s, x)
    ensures Trails(r, x)
  {
    StepStays(s, c, choice, r, x);
    if s.pcs[c].Lead? {
      LeaderDone(s, c, choice, r);
    } else {
      OtherDone(s, c, choice, r);
    }
    forall q | Over(s, q) ensures Over(r, q) {
      RoundsGrow(s, c, choice, q);
    }
    if x in s.pcs {
      TrailsStay(s, r, x);
    }
  }

  lemma TrailsOn(s: State, c: Cpu, choice: Choice, r: State)
    requires c in s.pcs && Step(s, c, choice) == Some(r) && Waiting(s.pcs[c]) && Trails(s, c)
    ensures Trails(r, c)
  {
  }

  lemma WaitingWas(s: State, c: Cpu, choice: Choice, r: State)
    requires c in s.pcs && Step(s, c, choice) == Some(r) && !Waiting(s.pcs[c]) && c in r.pcs && Waiting(r.pcs[c])
    ensures s.pcs[c].Handle? && Inside(s.pcs[c]) && s.pcs[c].stage.job == r.pcs[c].stage.job
    ensures r.pcs[c].stage.spot.SpinDone?
    ensures r == At(s.(done := s.done + {c}), c, r.pcs[c])
  {
  }

  lemma TrailsIn(s: State, r: State, c: Cpu)
    requires Inv(s) && c in s.pcs && s.pcs[c].Handle? && Inside(s.pcs[c])
    requires c in r.pcs && Waiting(r.pcs[c]) && r.pcs[c].stage.spot.SpinDone? && s.pcs[c].stage.job == r.pcs[c].stage.job
    requires r == At(s.(done := s.done + {c}), c, r.pcs[c])
    ensures Trails(r, c)
  {
    assert Published(s);
    assert Stands(s, c);
  }

  lemma TrailsOwn(s: State, c: Cpu, choice: Choice, r: State)
    requires Inv(s) && c in s.pcs && Step(s, c, choice) == Some(r) && Trails(s, c)
    ensures Trails(r, c)
  {
    if Waiting(s.pcs[c]) {
      TrailsOn(s, c, choice, r);
    } else if c in r.pcs && Waiting(r.pcs[c]) {
      WaitingWas(s, c, choice, r);
      TrailsIn(s, r, c);
    }
  }

  lemma {:induction false} RunTrails(states: seq<State>, moves: seq<(Cpu, Choice)>, i: nat, x: Cpu)
    requires Run(states, moves) && i < |states|
    ensures Trails(states[i], x)
  {
    if i > 0 {
      RunTrails(states, moves, i - 1, x);
      RunInv(states, moves, i - 1);
      assert StepAt(states, moves, i - 1);
      if x == moves[i - 1].0 {
        TrailsOwn(states[i - 1], x, moves[i - 1].1, states[i]);
      } else {
        TrailsOther(states[i - 1], moves[i - 1].0, moves[i - 1].1, x, states[i]);
      }
    }
  }

  /** Everyone of the round's mask has run its callback. */
  ghost predicate AllRan(s: State, q: Round) {
    Published(s) && q == s.round && forall x :: x in s.pcs[s.lock.value].mask ==> s.ran[(x, q)] == 1
  }

  lemma DoneMeansRan(s: State, q: Round)
    requires Logged(s) && Published(s) && q == s.round && s.done == s.pcs[s.lock.value].mask + {s.lock.value}
    ensures AllRan(s, q)
  {
  }

  /** A handler gets past the second barrier only when every CPU of its round's mask has run the callback. */
  lemma LeavesAfterAll(states: seq<State>, moves: seq<(Cpu, Choice)>, i: nat, c: Cpu)
    requires Run(states, moves) && i < |moves| && moves[i].0 == c && c in states[i].pcs && Waiting(states[i].pcs[c])
    requires c in states[i + 1].pcs && !Waiting(states[i + 1].pcs[c])
    ensures states[i].pcs[c].stage.job.callback.Some?
    ensures var q := states[i].pcs[c].stage.job.callback.value; Over(states[i], q) || AllRan(states[i], q)
  {
    RunTrails(states, moves, i, c);
    RunInv(states, moves, i);
    assert StepAt(states, moves, i);
    var s, q := states[i], states[i].pcs[c].stage.job.callback.value;
    if !Over(s, q) {
      assert s.pcs[c].stage.spot.seen == s.target;
      DoneMeansRan(s, q);
    }
  }

  // ---------- Interrupts ----------

  /** A handler runs on top of what the CPU was doing, and when it is done the CPU goes on with that. */
  lemma Resumes(s: State, c: Cpu, choice: Choice)
    requires c in s.pcs && Step(s, c, choice).Some?
    ensures var pc, next := s.pcs[c], Step(s, c, choice).value.pcs[c];
            && (!pc.Handle? && next.Handle? ==>
                  c in s.pending && next.stage.Test? && pc == if next.under.None? then Out else Want(next.under.value))
            && (pc.Handle? && next.Handle? ==> next.under == pc.under)
            && (pc.Handle? && !next.Handle? ==> next == if pc.under.None? then Out else Want(pc.under.value))
  {
  }

  /** The leader interrupts every other CPU, each once, before it enters the meeting. */
  lemma Interrupts(s: State, c: Cpu, choice: Choice)
    requires c in s.pcs && s.pcs[c].Lead? && Step(s, c, choice).Some?
    ensures var pc, r := s.pcs[c], Step(s, c, choice).value;
            && (pc.stage.Publish? ==> r.pcs[c].stage == Notify(s.pcs.Keys - {c}))
            && (pc.stage.Notify? && pc.stage.todo != {} ==>
                  && choice.Notice? && choice.cpu in pc.stage.todo && r.pending == s.pending + {choice.cpu}
                  && r.pcs[c].stage == Notify(pc.stage.todo - {choice.cpu}))
            && (r.pcs[c].Lead? && r.pcs[c].stage.Meet? && !pc.stage.Meet? ==> pc.stage == Notify({}))
  {
  }

  // ---------- Late interrupts ----------

  /** What the moves lead to, one after the other. */
  ghost function Play(s: State, moves: seq<(Cpu, Choice)>): Option<State> {
    if moves == [] then Some(s)
    else
      var before, move := Play(s, moves[..|moves| - 1]), moves[|moves| - 1];
      if before.Some? && move.0 in before.value.pcs then Step(before.value, move.0, move.1) else None
  }

  lemma {:induction false} PlaySteps(s: State, moves: seq<(Cpu, Choice)>) returns (states: seq<State>)
    requires Initial(s) && Play(s, moves).Some?
    ensures Steps(states, moves) && states[|moves|] == Play(s, moves).value
  {
    if moves == [] {
      states := [s];
    } else {
      var n := |moves| - 1;
      var before := PlaySteps(s, moves[..n]);
      states := before + [Play(s, moves).value];
      forall i: nat | i < |moves| ensures StepAt(states, moves, i) {
        if i < n {
          assert StepAt(before, moves[..n], i);
        }
      }
    }
  }

  /** A state that can be come to, and how. */
  datatype Trace = Trace(start: State, moves: seq<(Cpu, Choice)>, end: State)

  ghost predicate Reaches(x: Trace) {
    Initial(x.start) && Play(x.start, x.moves) == Some(x.end)
  }

  lemma Then(x: Trace, c: Cpu, choice: Choice) returns (y: Trace)
    requires Reaches(x) && c in x.end.pcs && Step(x.end, c, choice).Some?
    ensures Reaches(y) && y.end == Step(x.end, c, choice).value
  {
    var moves := x.moves + [(c, choice)];
    assert moves[..|moves| - 1] == x.moves;
    y := Trace(x.start, moves, Step(x.end, c, choice).value);
  }

  /** The same state: the map of places is told by its entries. */
  lemma AtTwice(s: State, c: Cpu, pc: Pc, next: Pc)
    ensures At(At(s, c, pc), c, next) == At(s, c, next)
  {
    assert s.pcs[c := pc][c := next] == s.pcs[c := next];
  }

  lemma Locks(x: Trace, c: Cpu, mask: set<Cpu>) returns (y: Trace)
    requires Reaches(x) && c in x.end.pcs && x.end.pcs[c] == Out && x.end.lock.None?
    ensures Reaches(y)
    ensures y.end == At(x.end.(lock := Some(c), round := x.end.round + 1), c, Lead(SetCallback, mask))
  {
    y := Then(x, c, Call(mask));
    y := Then(y, c, Go);
    AtTwice(x.end.(lock := Some(c), round := x.end.round + 1), c, Want(mask), Lead(SetCallback, mask));
  }

  lemma Fills(x: Trace, c: Cpu, mask: set<Cpu>) returns (y: Trace)
    requires Reaches(x) && c in x.end.pcs && x.end.pcs[c] == Lead(SetCallback, mask)
    ensures Reaches(y)
    ensures var s := x.end;
            y.end == At(s.(callback := Some(s.round), arg := Some(s.round)), c, Lead(ClearReady, mask))
  {
    y := Then(x, c, Go);
    y := Then(y, c, Go);
    AtTwice(y.end.(pcs := x.end.pcs), c, Lead(SetArg, mask), Lead(ClearReady, mask));
  }

  lemma Clears(x: Trace, c: Cpu, mask: set<Cpu>) returns (y: Trace)
    requires Reaches(x) && c in x.end.pcs && x.end.pcs[c] == Lead(ClearReady, mask)
    ensures Reaches(y)
    ensures y.end == At(x.end.(ready := {}, done := {}), c, Lead(Publish, mask))
  {
    y := Then(x, c, Go);
    y := Then(y, c, Go);
    AtTwice(y.end.(pcs := x.end.pcs), c, Lead(ClearDone, mask), Lead(Publish, mask));
  }

  /** Getting the lock and preparing a round. */
  lemma Prepares(x: Trace, c: Cpu, mask: set<Cpu>) returns (y: Trace)
    requires Reaches(x) && c in x.end.pcs && x.end.pcs[c] == Out && x.end.lock.None?
    ensures Reaches(y)
    ensures var s := x.end;
            var round := s.round + 1;
            y.end == At(s.(lock := Some(c), round := round, callback := Some(round), arg := Some(round), ready := {},
                           done := {}), c, Lead(Publish, mask))
  {
    y := Locks(x, c, mask);
    y := Fills(y, c, mask);
    y := Clears(y, c, mask);
    assert y.end.pcs == x.end.pcs[c := Lead(Publish, mask)];
  }

  lemma Publishes(x: Trace, c: Cpu, mask: set<Cpu>, others: set<Cpu>) returns (y: Trace)
    requires Reaches(x) && c in x.end.pcs && x.end.pcs[c] == Lead(Publish, mask) && others == x.end.pcs.Keys - {c}
    ensures Reaches(y)
    ensures y.end == At(x.end.(target := mask + {c}), c, Lead(Notify(others), mask))
  {
    y := Then(x, c, Go);
  }

  lemma Notifies(x: Trace, c: Cpu, d: Cpu, mask: set<Cpu>) returns (y: Trace)
    requires Reaches(x) && c in x.end.pcs && x.end.pcs[c] == Lead(Notify({d}), mask) && c in mask
    ensures Reaches(y)
    ensures var s := x.end;
            y.end == At(s.(pending := s.pending + {d}), c, Lead(Meet(Enter, Job(Some(s.round), Some(s.round))), mask))
  {
    y := Then(x, c, Notice(d));
    assert {d} - {d} == {};
    y := Then(y, c, Go);
    AtTwice(y.end.(pcs := x.end.pcs), c, Lead(Notify({}), mask), y.end.pcs[c]);
  }

  ghost predicate MeetsAt(s: State, c: Cpu, spot: Spot, job: Job) {
    c in s.pcs && Meets(s.pcs[c]) && s.pcs[c].stage == Meet(spot, job)
  }

  lemma Enters(x: Trace, c: Cpu, job: Job) returns (y: Trace)
    requires Reaches(x) && MeetsAt(x.end, c, Enter, job)
    ensures Reaches(y) && y.end == AtStage(x.end.(ready := x.end.ready + {c}), c, Meet(SpinReady, job))
  {
    y := Then(x, c, Go);
  }

  /** Through the first barrier, once every bit is set, and the callback. */
  lemma Passes(x: Trace, c: Cpu, job: Job) returns (y: Trace)
    requires Reaches(x) && MeetsAt(x.end, c, SpinReady, job) && job.callback.Some? && x.end.ready == x.end.target
    ensures Reaches(y)
    ensures y.end == AtStage(x.end.(ran := x.end.ran + multiset{(c, job.callback.value)}), c, Meet(Exit, job))
  {
    y := Then(x, c, Go);
    y := Then(y, c, Go);
    y := Then(y, c, Go);
    assert y.end.pcs == x.end.pcs[c := y.end.pcs[c]];
  }

  lemma Exits(x: Trace, c: Cpu, job: Job) returns (y: Trace)
    requires Reaches(x) && MeetsAt(x.end, c, Exit, job)
    ensures Reaches(y) && y.end == AtStage(x.end.(done := x.end.done + {c}), c, Meet(SpinDone, job))
  {
    y := Then(x, c, Go);
  }

  lemma Leaves(x: Trace, c: Cpu, job: Job) returns (y: Trace)
    requires Reaches(x) && MeetsAt(x.end, c, SpinDone, job) && x.end.done == x.end.target
    ensures Reaches(y) && y.end == Left(x.end, c)
  {
    y := Then(x, c, Go);
    y := Then(y, c, Go);
    assert y.end.pcs == x.end.pcs[c := y.end.pcs[c]];
  }

  lemma Releases(x: Trace, c: Cpu, mask: set<Cpu>) returns (y: Trace)
    requires Reaches(x) && c in x.end.pcs && x.end.pcs[c] == Lead(DropCallback, mask)
    ensures Reaches(y) && y.end == At(x.end.(callback := None, arg := None, lock := None), c, Out)
  {
    y := Then(x, c, Go);
    y := Then(y, c, Go);
    y := Then(y, c, Go);
    assert y.end.pcs == x.end.pcs[c := Out];
  }

  lemma Interrupted(x: Trace, c: Cpu) returns (y: Trace)
    requires Reaches(x) && c in x.end.pcs && x.end.pcs[c] == Out && c in x.end.pending
    ensures Reaches(y) && y.end == At(x.end.(pending := x.end.pending - {c}), c, Handle(Test, None))
  {
    y := Then(x, c, Interrupt);
  }

  /** The handler finds its CPU in the mask, whichever round published it, and enters with what it reads. */
  lemma Answers(x: Trace, c: Cpu) returns (y: Trace)
    requires Reaches(x) && c in x.end.pcs && x.end.pcs[c] == Handle(Test, None) && c in x.end.target
    ensures Reaches(y)
    ensures var s := x.end;
            y.end == At(s.(ready := s.ready + {c}), c, Handle(Meet(SpinReady, Job(s.callback, s.arg)), None))
  {
    y := Then(x, c, Go);
    y := Then(y, c, Go);
    y := Then(y, c, Go);
    y := Enters(y, c, Job(x.end.callback, x.end.arg));
    assert y.end.pcs == x.end.pcs[c := y.end.pcs[c]];
  }

  /** Two CPUs, where round 1 was CPU 0's alone and round 2 is both's. */
  function Two(a: Pc, b: Pc): map<Cpu, Pc> {
    map[0 := a, 1 := b]
  }

  lemma TwoSet(a: Pc, b: Pc, pc: Pc)
    ensures Two(a, b)[0 := pc] == Two(pc, b) && Two(a, b)[1 := pc] == Two(a, pc)
  {
  }

  const FIRST := Job(Some(1), Some(1))
  const SECOND := Job(Some(2), Some(2))

  /** CPU 0 calls for itself alone; CPU 1 is interrupted all the same. */
  lemma FirstBegins() returns (y: Trace)
    ensures Reaches(y)
    ensures y.end == State(Some(0), Some(1), Some(1), {}, {}, {0}, {}, Two(Lead(Meet(Enter, FIRST), {0}), Handle(Test, None)), 1,
                           multiset{})
  {
    var s := State(None, None, None, {}, {}, {}, {}, Two(Out, Out), 0, multiset{});
    y := Trace(s, [], s);
    y := Prepares(y, 0, {0});
    TwoSet(Out, Out, Lead(Publish, {0}));
    y := Publishes(y, 0, {0}, {1});
    TwoSet(Lead(Publish, {0}), Out, Lead(Notify({1}), {0}));
    y := Notifies(y, 0, 1, {0});
    TwoSet(Lead(Notify({1}), {0}), Out, Lead(Meet(Enter, FIRST), {0}));
    y := Interrupted(y, 1);
    TwoSet(Lead(Meet(Enter, FIRST), {0}), Out, Handle(Test, None));
  }

  lemma FirstRuns() returns (y: Trace)
    ensures Reaches(y)
    ensures y.end == State(Some(0), Some(1), Some(1), {0}, {}, {0}, {}, Two(Lead(Meet(Exit, FIRST), {0}), Handle(Test, None)), 1,
                           multiset{(0, 1)})
  {
    y := FirstBegins();
    y := Enters(y, 0, FIRST);
    TwoSet(Lead(Meet(Enter, FIRST), {0}), Handle(Test, None), Lead(Meet(SpinReady, FIRST), {0}));
    assert y.end.ready == {0};
    y := Passes(y, 0, FIRST);
    TwoSet(Lead(Meet(SpinReady, FIRST), {0}), Handle(Test, None), Lead(Meet(Exit, FIRST), {0}));
  }

  /** The first round ends before CPU 1's handler has tested the mask. */
  lemma FirstEnds() returns (y: Trace)
    ensures Reaches(y)
    ensures y.end == State(None, None, None, {0}, {0}, {0}, {}, Two(Out, Handle(Test, None)), 1, multiset{(0, 1)})
  {
    y := FirstRuns();
    y := Exits(y, 0, FIRST);
    TwoSet(Lead(Meet(Exit, FIRST), {0}), Handle(Test, None), Lead(Meet(SpinDone, FIRST), {0}));
    assert y.end.done == {0};
    y := Leaves(y, 0, FIRST);
    TwoSet(Lead(Meet(SpinDone, FIRST), {0}), Handle(Test, None), Lead(DropCallback, {0}));
    y := Releases(y, 0, {0});
    TwoSet(Lead(DropCallback, {0}), Handle(Test, None), Out);
  }

  /** CPU 0 calls for both. */
  lemma SecondCalls() returns (y: Trace)
    ensures Reaches(y)
    ensures y.end == State(Some(0), Some(2), Some(2), {}, {}, {0, 1}, {}, Two(Lead(Notify({1}), {0, 1}), Handle(Test, None)), 2,
                           multiset{(0, 1)})
  {
    y := FirstEnds();
    y := Prepares(y, 0, {0, 1});
    TwoSet(Out, Handle(Test, None), Lead(Publish, {0, 1}));
    y := Publishes(y, 0, {0, 1}, {1});
    TwoSet(Lead(Publish, {0, 1}), Handle(Test, None), Lead(Notify({1}), {0, 1}));
  }

  /** The handler of the first round answers before the second's interrupt is sent. */
  lemma SecondBegins() returns (y: Trace)
    ensures Reaches(y)
    ensures y.end == State(Some(0), Some(2), Some(2), {1}, {}, {0, 1}, {1},
                           Two(Lead(Meet(Enter, SECOND), {0, 1}), Handle(Meet(SpinReady, SECOND), None)), 2, multiset{(0, 1)})
  {
    y := SecondCalls();
    y := Answers(y, 1);
    TwoSet(Lead(Notify({1}), {0, 1}), Handle(Test, None), Handle(Meet(SpinReady, SECOND), None));
    y := Notifies(y, 0, 1, {0, 1});
    TwoSet(Lead(Notify({1}), {0, 1}), Handle(Meet(SpinReady, SECOND), None), Lead(Meet(Enter, SECOND), {0, 1}));
  }

  /** Both run the second callback. */
  lemma SecondRuns() returns (y: Trace)
    ensures Reaches(y)
    ensures y.end == State(Some(0), Some(2), Some(2), {0, 1}, {}, {0, 1}, {1},
                           Two(Lead(Meet(Exit, SECOND), {0, 1}), Handle(Meet(Exit, SECOND), None)), 2,
                           multiset{(0, 1), (0, 2), (1, 2)})
  {
    y := SecondBegins();
    y := Enters(y, 0, SECOND);
    TwoSet(Lead(Meet(Enter, SECOND), {0, 1}), Handle(Meet(SpinReady, SECOND), None), Lead(Meet(SpinReady, SECOND), {0, 1}));
    assert y.end.ready == {0, 1};
    y := Passes(y, 0, SECOND);
    TwoSet(Lead(Meet(SpinReady, SECOND), {0, 1}), Handle(Meet(SpinReady, SECOND), None), Lead(Meet(Exit, SECOND), {0, 1}));
    y := Passes(y, 1, SECOND);
    TwoSet(Lead(Meet(Exit, SECOND), {0, 1}), Handle(Meet(SpinReady, SECOND), None), Handle(Meet(Exit, SECOND), None));
  }

  /** CPU 1 leaves, and takes the interrupt of the round it has already answered. */
  lemma SecondAgain() returns (y: Trace)
    ensures Reaches(y) && 1 in y.end.pcs && y.end.pcs[1] == Handle(Test, None) && y.end.target == y.end.ready == {0, 1}
    ensures y.end.callback == y.end.arg == Some(2) && y.end.ran == multiset{(0, 1), (0, 2), (1, 2)}
  {
    y := SecondRuns();
    y := Exits(y, 0, SECOND);
    TwoSet(Lead(Meet(Exit, SECOND), {0, 1}), Handle(Meet(Exit, SECOND), None), Lead(Meet(SpinDone, SECOND), {0, 1}));
    y := Exits(y, 1, SECOND);
    TwoSet(Lead(Meet(SpinDone, SECOND), {0, 1}), Handle(Meet(Exit, SECOND), None), Handle(Meet(SpinDone, SECOND), None));
    y := Leaves(y, 1, SECOND);
    TwoSet(Lead(Meet(SpinDone, SECOND), {0, 1}), Handle(Meet(SpinDone, SECOND), None), Out);
    y := Interrupted(y, 1);
  }

  /**
    Without that reliance a callback can run twice: two CPUs and two rounds, where a handler slow to
    test the mask answers the second round, and then again the second round's own interrupt.
   */
  lemma LateInterruptRunsTwice()
    ensures exists states: seq<State>, moves :: Steps(states, moves) && states[|moves|].ran[(1, 2)] == 2
  {
    var y := SecondAgain();
    y := Answers(y, 1);
    y := Passes(y, 1, SECOND);
    var states := PlaySteps(y.start, y.moves);
    assert states[|y.moves|].ran[(1, 2)] == 2;
  }
}
