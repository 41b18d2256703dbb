/**
  Port rights (mk/ipc/ipc_port.c).  Each IPC call is one step.  A right word is the set of its
  bits; a port's tree of rights is a map from tasks, and its message queue a sequence.
 */
module RightsModel {
  import opened Machine
  import opened Optional

  type Task = nat
  type Port = nat

  /** The bits of ipc_port_right_t; the last are bits the kernel gives no meaning to. */
  datatype Right = Send | SendOnce | Receive | Other(bit: nat)

  type Rights = set<Right>

  const UNRESERVED: nat := 3
  /** Port numbers have 32 bits. */
  const PORTS := UNSIGNED
  const MSG_NONE: nat := 0

  /** struct ipc_header as far as the kernel reads it, and the page that goes with it. */
  datatype Message = Message(src: Port, dst: Port, right: Rights, msg: nat, page: Option<nat>)

  datatype Info = Info(public: bool, rights: map<Task, Rights>, messages: seq<Message>)

  type State = map<Port, Info>

  datatype Error = Invalid | NotFound | NoRight | NotFree | Again

  datatype Result = Done | Got(message: Message) | Fail(error: Error)

  datatype Call =
    | Allocate(task: Task, port: Port, public: bool)
    | AllocateReserved(task: Task, port: Port, public: bool)
    | SendPage(task: Task, message: Message)
    | ReceiveFrom(task: Task, port: Port)
    | Drop(task: Task, port: Port, right: Rights)
    | Grant(task: Task, to: Task, src: Port, right: Rights)
    | SendRight(task: Task, dst: Port, src: Port, right: Rights)

  datatype Outcome = Outcome(state: State, result: Result)

  // ---------- One port's rights ----------

  function Holds(info: Info, t: Task): Rights {
    if t in info.rights then info.rights[t] else {}
  }

  /** ipc_port_right_insert. */
  function Insert(info: Info, t: Task, right: Rights): Info {
    if Receive !in right && info.public then info
    else info.(rights := info.rights[t := Holds(info, t) + right])
  }

  /** ipc_port_right_check for a receive right. */
  predicate MayReceive(info: Info, t: Task) {
    Receive in Holds(info, t)
  }

  /** ipc_port_right_check for a send right. */
  predicate MaySend(info: Info, t: Task) {
    var h := Holds(info, t);
    Receive in h || Send in h || SendOnce in h
  }

  /** The check of a send right uses a send-once right up. */
  predicate UsesOnce(info: Info, t: Task) {
    var h := Holds(info, t);
    Receive !in h && Send !in h && SendOnce in h
  }

  function AfterSend(info: Info, t: Task): Info {
    if UsesOnce(info, t) then info.(rights := info.rights[t := Holds(info, t) - {SendOnce}]) else info
  }

  /** ipc_port_right_insert for every task of a set. */
  ghost function InsertAll(info: Info, tasks: set<Task>, right: Rights): Info {
    if Receive !in right && info.public then info
    else info.(rights := map t | t in info.rights.Keys + tasks ::
                           if t in tasks then Holds(info, t) + right else Holds(info, t))
  }

  ghost function Receivers(info: Info): set<Task> {
    set t | t in info.rights && Receive in info.rights[t]
  }

  // ---------- Calls ----------

  /** The destination's send right is looked at only on a private port and for a message with a code. */
  predicate NeedsRight(info: Info, m: Message) {
    !info.public && m.msg != MSG_NONE
  }

  function SendStep(s: State, t: Task, m: Message): Outcome {
    if m.msg == MSG_NONE && m.page.Some? then Outcome(s, Fail(Invalid))
    else if m.src !in s then Outcome(s, Fail(Invalid))
    else if !MayReceive(s[m.src], t) then Outcome(s, Fail(NoRight))
    else if m.dst !in s then Outcome(s, Fail(NotFound))
    else if NeedsRight(s[m.dst], m) && !MaySend(s[m.dst], t) then Outcome(s, Fail(NoRight))
    else
      var info := if NeedsRight(s[m.dst], m) then AfterSend(s[m.dst], t) else s[m.dst];
      Outcome(s[m.dst := info.(messages := info.messages + [m])], Done)
  }

  function ReceiveStep(s: State, t: Task, p: Port): Outcome {
    if p !in s then Outcome(s, Fail(NotFound))
    else if !MayReceive(s[p], t) then Outcome(s, Fail(NoRight))
    else if s[p].messages == [] then Outcome(s, Fail(Again))
    else
      var m := s[p].messages[0];
      var taken := s[p := s[p].(messages := s[p].messages[1..])];
      if m.right == {} || m.src !in taken then Outcome(taken, Got(m))
      else Outcome(taken[m.src := Insert(taken[m.src], t, m.right)], Got(m))
  }

  function DropStep(s: State, t: Task, p: Port, right: Rights): Outcome {
    if p !in s then Outcome(s, Fail(NotFound))
    else if t !in s[p].rights then Outcome(s, Fail(NoRight))
    else Outcome(s[p := s[p].(rights := s[p].rights[t := s[p].rights[t] - right])], Done)
  }

  function GrantStep(s: State, t: Task, to: Task, src: Port, right: Rights): Outcome {
    if src !in s then Outcome(s, Fail(NotFound))
    else if !MayReceive(s[src], t) then Outcome(s, Fail(NoRight))
    else Outcome(s[src := Insert(s[src], to, right)], Done)
  }

  ghost function SendRightStep(s: State, t: Task, dst: Port, src: Port, right: Rights): Outcome {
    if src !in s then Outcome(s, Fail(NotFound))
    else if !MayReceive(s[src], t) then Outcome(s, Fail(NoRight))
    else if dst !in s then Outcome(s, Fail(NotFound))
    else Outcome(s[src := InsertAll(s[src], Receivers(s[dst]), right)], Done)
  }

  function NewPort(s: State, t: Task, p: Port, public: bool): State {
    s[p := Info(public, map[t := {Receive}], [])]
  }

  function ReservedStep(s: State, t: Task, p: Port, public: bool): Outcome {
    if p == 0 || p >= UNRESERVED then Outcome(s, Fail(Invalid))
    else if p in s then Outcome(s, Fail(NotFree))
    else Outcome(NewPort(s, t, p, public), Done)
  }

  /** An allocation finds a port that is free; a right is not sent from a port to itself, which panics. */
  predicate Enabled(s: State, x: Call) {
    match x
    case Allocate(_, p, _) => UNRESERVED <= p < PORTS && p !in s
    case SendRight(t, dst, src, _) => !(dst == src && src in s && MayReceive(s[src], t))
    case _ => true
  }

  ghost function Apply(s: State, x: Call): Outcome {
    match x
    case Allocate(t, p, public) => Outcome(NewPort(s, t, p, public), Done)
    case AllocateReserved(t, p, public) => ReservedStep(s, t, p, public)
    case SendPage(t, m) => SendStep(s, t, m)
    case ReceiveFrom(t, p) => ReceiveStep(s, t, p)
    case Drop(t, p, right) => DropStep(s, t, p, right)
    case Grant(t, to, src, right) => GrantStep(s, t, to, src, right)
    case SendRight(t, dst, src, right) => SendRightStep(s, t, dst, src, right)
  }

  // ---------- Runs ----------

  ghost predicate StepAt(states: seq<State>, calls: seq<Call>, i: nat)
    requires i < |calls| && |states| == |calls| + 1
  {
    Enabled(states[i], calls[i]) && states[i + 1] == Apply(states[i], calls[i]).state
  }

  /** A run from a kernel without ports. */
  ghost predicate Run(states: seq<State>, calls: seq<Call>) {
    && |states| == |calls| + 1
    && states[0] == map[]
    && forall i: nat :: i < |calls| ==> StepAt(states, calls, i)
  }

  ghost function Held(s: State, p: Port, t: Task): Rights {
    if p in s then Holds(s[p], t) else {}
  }

  // ---------- Where rights come from ----------

  /** The call is an accepted send of `m` by a task that holds a receive right on its source. */
  ghost predicate Sends(s: State, x: Call, m: Message) {
    && x.SendPage? && x.message == m && Apply(s, x).result == Done
    && Receive in Held(s, m.src, x.task)
  }

  /** The call creates the port for `t`, or is a grant or a right-send to `t` by a task that may receive from the port. */
  ghost predicate Gives(s: State, x: Call, p: Port, t: Task, b: Right) {
    || ((x.Allocate? || x.AllocateReserved?) && p !in s && x.task == t && x.port == p && b == Receive)
    || (x.Grant? && x.src == p && x.to == t && b in x.right && Receive in Held(s, p, x.task))
    || (&& x.SendRight? && x.src == p && b in x.right && Receive in Held(s, p, x.task)
        && Receive in Held(s, x.dst, t))
  }

  /** The call takes `m`, which carries `b` on `p`, off a port that `t` may receive from. */
  ghost predicate Takes(s: State, x: Call, m: Message, p: Port, t: Task, b: Right) {
    && x.ReceiveFrom? && x.task == t && Apply(s, x).result == Got(m)
    && m.src == p && b in m.right && Receive in Held(s, x.port, t)
  }

  /** A step adds a right only by giving it, or by delivering a message that carries it. */
  lemma Grows(s: State, x: Call, p: Port, t: Task, b: Right)
    requires Enabled(s, x) && b in Held(Apply(s, x).state, p, t) && b !in Held(s, p, t)
    ensures Gives(s, x, p, t, b)
            || (x.ReceiveFrom? && Apply(s, x).result.Got? && Takes(s, x, Apply(s, x).result.message, p, t, b))
  {
  }

  /** A message that is queued after a step was queued before it, or the step sent it. */
  lemma QueueGrows(s: State, x: Call, p: Port, m: Message)
    requires Enabled(s, x) && p in Apply(s, x).state && m in Apply(s, x).state[p].messages
    ensures (p in s && m in s[p].messages) || Sends(s, x, m)
  {
  }

  ghost predicate SentBefore(states: seq<State>, calls: seq<Call>, n: nat, m: Message)
    requires |states| == |calls| + 1 && n <= |calls|
  {
    exists i: nat :: i < n && Sends(states[i], calls[i], m)
  }

  /** Every queued message was sent, by a task that could then receive from its source. */
  lemma {:induction false} QueuedWasSent(states: seq<State>, calls: seq<Call>, n: nat, p: Port, m: Message)
    requires Run(states, calls) && n <= |calls|
    requires p in states[n] && m in states[n][p].messages
    ensures SentBefore(states, calls, n, m)
  {
    if n > 0 {
      assert StepAt(states, calls, n - 1);
      QueueGrows(states[n - 1], calls[n - 1], p, m);
      if Sends(states[n - 1], calls[n - 1], m) {
        assert SentBefore(states, calls, n, m);
      } else {
        QueuedWasSent(states, calls, n - 1, p, m);
        var i: nat :| i < n - 1 && Sends(states[i], calls[i], m);
        assert i < n && Sends(states[i], calls[i], m);
      }
    }
  }

  /** Step `i` gives the right, or delivers a message that carries it and was sent before by a receiver on the port. */
  ghost predicate Source(states: seq<State>, calls: seq<Call>, i: nat, p: Port, t: Task, b: Right)
    requires |states| == |calls| + 1 && i < |calls|
  {
    || Gives(states[i], calls[i], p, t, b)
    || (&& calls[i].ReceiveFrom? && Apply(states[i], calls[i]).result.Got?
        && var m := Apply(states[i], calls[i]).result.message;
           Takes(states[i], calls[i], m, p, t, b) && SentBefore(states, calls, i, m))
  }

  /**
    Provenance.  Every right a task holds on a port, in every run, comes from creating the port,
    or from a grant, a right-send or a message made by a task that held a receive right on the
    port when it made it.
   */
  lemma {:induction false} Provenance(states: seq<State>, calls: seq<Call>, n: nat, p: Port, t: Task, b: Right)
    requires Run(states, calls) && n <= |calls|
    requires b in Held(states[n], p, t)
    ensures exists i: nat :: i < n && Source(states, calls, i, p, t, b)
  {
    if n > 0 {
      assert StepAt(states, calls, n - 1);
      if b in Held(states[n - 1], p, t) {
        Provenance(states, calls, n - 1, p, t, b);
        var i: nat :| i < n - 1 && Source(states, calls, i, p, t, b);
        assert i < n && Source(states, calls, i, p, t, b);
      } else {
        LastStepGave(states, calls, n - 1, p, t, b);
      }
    }
  }

  lemma LastStepGave(states: seq<State>, calls: seq<Call>, i: nat, p: Port, t: Task, b: Right)
    requires Run(states, calls) && i < |calls|
    requires b in Held(states[i + 1], p, t) && b !in Held(states[i], p, t)
    ensures Source(states, calls, i, p, t, b)
  {
    assert StepAt(states, calls, i);
    var s, x := states[i], calls[i];
    Grows(s, x, p, t, b);
    if !Gives(s, x, p, t, b) {
      QueuedWasSent(states, calls, i, x.port, Apply(s, x).result.message);
    }
  }

  // ---------- Dead ports ----------

  /** Nobody may receive from the port, and no queued message carries a right on it. */
  ghost predicate Closed(s: State, p: Port) {
    && p in s
    && (forall t :: Receive !in Holds(s[p], t))
    && (forall q, m :: q in s && m in s[q].messages && m.src == p ==> m.right == {})
  }

  lemma ClosedStep(s: State, x: Call, p: Port, t: Task)
    requires Enabled(s, x) && Closed(s, p)
    ensures Closed(Apply(s, x).state, p)
    ensures Held(Apply(s, x).state, p, t) <= Held(s, p, t)
  {
    var r := Apply(s, x).state;
    forall u, b | b in Held(r, p, u) ensures b in Held(s, p, u) {
      if b !in Held(s, p, u) {
        Grows(s, x, p, u, b);
        assert false;
      }
    }
    forall u ensures Receive !in Holds(r[p], u) {
      assert Holds(r[p], u) == Held(r, p, u) && Receive !in Held(s, p, u);
    }
    forall q, m | q in r && m in r[q].messages && m.src == p ensures m.right == {} {
      QueueGrows(s, x, q, m);
    }
  }

  /** Once no task may receive from a port and no message in flight carries a right on it, rights on it never grow. */
  lemma {:induction false} ClosedForever(states: seq<State>, calls: seq<Call>, i: nat, j: nat, p: Port, t: Task)
    requires Run(states, calls) && i <= j <= |calls| && Closed(states[i], p)
    ensures Closed(states[j], p) && Held(states[j], p, t) <= Held(states[i], p, t)
    decreases j
  {
    if i < j {
      ClosedForever(states, calls, i, j - 1, p, t);
      assert StepAt(states, calls, j - 1);
      ClosedStep(states[j - 1], calls[j - 1], p, t);
    }
  }

  // ---------- Send-once rights ----------

  /** The call is a send to `p` that was accepted on a send-once right of `t` alone. */
  ghost predicate Spends(s: State, x: Call, p: Port, t: Task) {
    && x.SendPage? && x.task == t && x.message.dst == p && Apply(s, x).result == Done
    && p in s && NeedsRight(s[p], x.message) && UsesOnce(s[p], t)
  }

  /** The call inserts a send-once right of `t` on `p`. */
  ghost predicate Earns(s: State, x: Call, p: Port, t: Task) {
    || Gives(s, x, p, t, SendOnce)
    || (x.ReceiveFrom? && Apply(s, x).result.Got? && Takes(s, x, Apply(s, x).result.message, p, t, SendOnce))
  }

  ghost function Spent(states: seq<State>, calls: seq<Call>, n: nat, p: Port, t: Task): nat
    requires |states| == |calls| + 1 && n <= |calls|
  {
    if n == 0 then 0
    else Spent(states, calls, n - 1, p, t) + if Spends(states[n - 1], calls[n - 1], p, t) then 1 else 0
  }

  ghost function Earned(states: seq<State>, calls: seq<Call>, n: nat, p: Port, t: Task): nat
    requires |states| == |calls| + 1 && n <= |calls|
  {
    if n == 0 then 0
    else Earned(states, calls, n - 1, p, t) + if Earns(states[n - 1], calls[n - 1], p, t) then 1 else 0
  }

  /** A send-once right is gone when it is spent. */
  lemma SpendsStep(s: State, x: Call, p: Port, t: Task)
    requires Enabled(s, x) && Spends(s, x, p, t)
    ensures SendOnce in Held(s, p, t) && SendOnce !in Held(Apply(s, x).state, p, t)
    ensures !Earns(s, x, p, t)
  {
  }

  /** Sends accepted on a send-once right alone, and the right still held, never exceed the send-once rights given. */
  lemma {:induction false} SpentWithinEarned(states: seq<State>, calls: seq<Call>, n: nat, p: Port, t: Task)
    requires Run(states, calls) && n <= |calls|
    ensures Spent(states, calls, n, p, t) + (if SendOnce in Held(states[n], p, t) then 1 else 0)
            <= Earned(states, calls, n, p, t)
  {
    if n > 0 {
      SpentWithinEarned(states, calls, n - 1, p, t);
      assert StepAt(states, calls, n - 1);
      var s, x := states[n - 1], calls[n - 1];
      if Spends(s, x, p, t) {
        SpendsStep(s, x, p, t);
      } else if SendOnce in Held(states[n], p, t) && SendOnce !in Held(s, p, t) {
        Grows(s, x, p, t, SendOnce);
      }
    }
  }

  // ---------- Panics and assertions that cannot be reached ----------

  /** A queued message is for the port it is queued on, and its source port exists. */
  ghost predicate Filed(s: State) {
    forall p, m :: p in s && m in s[p].messages ==> m.dst == p && m.src in s
  }

  lemma FiledStep(s: State, x: Call)
    requires Enabled(s, x) && Filed(s)
    ensures Filed(Apply(s, x).state)
  {
    var r := Apply(s, x).state;
    assert s.Keys <= r.Keys;
    forall p, m | p in r && m in r[p].messages ensures m.dst == p && m.src in r {
      FiledAt(s, x, p, m);
    }
  }

  lemma FiledAt(s: State, x: Call, p: Port, m: Message)
    requires Enabled(s, x) && p in Apply(s, x).state && m in Apply(s, x).state[p].messages
    ensures (p in s && m in s[p].messages) || (m.dst == p && m.src in s)
  {
  }

  /** Neither the panic for a vanished port nor the assertion on the destination can fire in ipc_port_receive. */
  lemma {:induction false} AlwaysFiled(states: seq<State>, calls: seq<Call>, n: nat)
    requires Run(states, calls) && n <= |calls|
    ensures Filed(states[n])
  {
    if n > 0 {
      AlwaysFiled(states, calls, n - 1);
      assert StepAt(states, calls, n - 1);
      FiledStep(states[n - 1], calls[n - 1]);
    }
  }

  // ---------- Which calls are accepted ----------

  ghost predicate Exists(s: State, p: Port) {
    p in s
  }

  ghost predicate Public(s: State, p: Port) {
    p in s && s[p].public
  }

  /** A message goes to anyone who asks on a public port, and a knock anywhere; otherwise a right is needed. */
  ghost predicate MaySendTo(s: State, t: Task, m: Message) {
    || Public(s, m.dst) || m.msg == MSG_NONE
    || Receive in Held(s, m.dst, t) || Send in Held(s, m.dst, t) || SendOnce in Held(s, m.dst, t)
  }

  /** A knock carries no page. */
  predicate WellFormed(m: Message) {
    m.msg == MSG_NONE ==> m.page == None
  }

  /** Exactly which sends are accepted, and with which error the others fail. */
  lemma SendExact(s: State, t: Task, m: Message)
    ensures var r := Apply(s, SendPage(t, m)).result;
            && (r == Done <==> WellFormed(m) && Receive in Held(s, m.src, t) && Exists(s, m.dst) && MaySendTo(s, t, m))
            && (r == Fail(Invalid) <==> !WellFormed(m) || !Exists(s, m.src))
            && (r == Fail(NotFound) <==> WellFormed(m) && Receive in Held(s, m.src, t) && !Exists(s, m.dst))
            && (r == Fail(NoRight) <==>
                  && WellFormed(m) && Exists(s, m.src)
                  && (Receive !in Held(s, m.src, t) || (Exists(s, m.dst) && !MaySendTo(s, t, m))))
  {
  }

  /** A receiver gets the first message, or is told that there is none. */
  lemma ReceiveExact(s: State, t: Task, p: Port)
    ensures var r := Apply(s, ReceiveFrom(t, p)).result;
            && (r == Fail(NotFound) <==> !Exists(s, p))
            && (r == Fail(NoRight) <==> Exists(s, p) && Receive !in Held(s, p, t))
            && (r == Fail(Again) <==> Receive in Held(s, p, t) && s[p].messages == [])
            && (Receive in Held(s, p, t) && s[p].messages != [] <==> r.Got?)
            && (r.Got? ==> r == Got(s[p].messages[0]))
  {
  }

  lemma GiveExact(s: State, x: Call)
    requires x.Grant? || x.SendRight?
    ensures var r := Apply(s, x).result;
            && (r == Fail(NoRight) <==> Exists(s, x.src) && Receive !in Held(s, x.src, x.task))
            && (r == Done <==> Receive in Held(s, x.src, x.task) && (x.SendRight? ==> Exists(s, x.dst)))
            && (r == Done || r == Fail(NoRight) || r == Fail(NotFound))
  {
  }

  lemma OtherExact(s: State, x: Call)
    requires x.Drop? || x.Allocate? || x.AllocateReserved?
    ensures var r := Apply(s, x).result;
            && (x.Drop? ==> r == if !Exists(s, x.port) then Fail(NotFound) else if x.task in s[x.port].rights then Done
                                 else Fail(NoRight))
            && (x.AllocateReserved? ==>
                  && (r == Done <==> 0 < x.port < UNRESERVED && !Exists(s, x.port))
                  && (r == Fail(Invalid) <==> x.port == 0 || x.port >= UNRESERVED)
                  && (r == Done || r == Fail(Invalid) || r == Fail(NotFree)))
            && (x.Allocate? ==> r == Done)
  {
  }

  // ---------- What a call does to rights ----------

  /** The call inserts `b`: a port takes a right in unless it is public and no receive right comes along. */
  ghost predicate Inserts(s: State, x: Call, p: Port, t: Task, b: Right) {
    match x
    case Allocate(u, q, _) => u == t && q == p && b == Receive
    case AllocateReserved(u, q, _) => Apply(s, x).result == Done && u == t && q == p && b == Receive
    case Grant(u, to, src, right) =>
      Apply(s, x).result == Done && to == t && src == p && b in right && TakesIn(s, p, right)
    case SendRight(u, dst, src, right) =>
      Apply(s, x).result == Done && src == p && b in right && Receive in Held(s, dst, t) && TakesIn(s, p, right)
    case ReceiveFrom(u, q) =>
      && Apply(s, x).result.Got? && u == t
      && var m := Apply(s, x).result.message; m.src == p && b in m.right && Exists(s, p) && TakesIn(s, p, m.right)
    case _ => false
  }

  ghost predicate TakesIn(s: State, p: Port, right: Rights) {
    Public(s, p) ==> Receive in right
  }

  /** The call takes `b` away: by dropping it, or by a send that it alone allows. */
  ghost predicate Removes(s: State, x: Call, p: Port, t: Task, b: Right) {
    match x
    case Drop(u, q, right) => u == t && q == p && b in right
    case SendPage(u, m) =>
      && Apply(s, x).result == Done && u == t && m.dst == p && b == SendOnce
      && m.msg != MSG_NONE && !Public(s, p) && Receive !in Held(s, p, t) && Send !in Held(s, p, t)
    case _ => false
  }

  /** A call changes exactly the rights it inserts and takes away. */
  lemma HeldExact(s: State, x: Call, p: Port, t: Task, b: Right)
    requires Enabled(s, x)
    ensures b in Held(Apply(s, x).state, p, t) <==>
            Inserts(s, x, p, t, b) || (b in Held(s, p, t) && !Removes(s, x, p, t, b))
  {
  }

  /** Inserted by call `i`, and not taken away since. */
  ghost predicate KeptSince(states: seq<State>, calls: seq<Call>, n: nat, p: Port, t: Task, b: Right, i: nat)
    requires |states| == |calls| + 1 && n <= |calls|
  {
    && i < n && Inserts(states[i], calls[i], p, t, b)
    && forall j :: i < j < n ==> !Removes(states[j], calls[j], p, t, b)
  }

  ghost predicate Kept(states: seq<State>, calls: seq<Call>, n: nat, p: Port, t: Task, b: Right)
    requires |states| == |calls| + 1 && n <= |calls|
  {
    exists i: nat :: KeptSince(states, calls, n, p, t, b, i)
  }

  lemma KeptNext(states: seq<State>, calls: seq<Call>, m: nat, p: Port, t: Task, b: Right)
    requires |states| == |calls| + 1 && m < |calls|
    ensures Kept(states, calls, m + 1, p, t, b) <==>
            || Inserts(states[m], calls[m], p, t, b)
            || (Kept(states, calls, m, p, t, b) && !Removes(states[m], calls[m], p, t, b))
  {
    if Inserts(states[m], calls[m], p, t, b) {
      assert KeptSince(states, calls, m + 1, p, t, b, m);
    } else if Kept(states, calls, m, p, t, b) && !Removes(states[m], calls[m], p, t, b) {
      var i: nat :| KeptSince(states, calls, m, p, t, b, i);
      assert KeptSince(states, calls, m + 1, p, t, b, i);
    }
    if Kept(states, calls, m + 1, p, t, b) {
      var i: nat :| KeptSince(states, calls, m + 1, p, t, b, i);
      assert i < m ==> KeptSince(states, calls, m, p, t, b, i);
    }
  }

  /** In every run a task holds exactly the rights that a call inserted for it and no call has taken away since. */
  lemma {:induction false} RightsExact(states: seq<State>, calls: seq<Call>, n: nat, p: Port, t: Task, b: Right)
    requires Run(states, calls) && n <= |calls|
    ensures b in Held(states[n], p, t) <==> Kept(states, calls, n, p, t, b)
  {
    if n > 0 {
      assert StepAt(states, calls, n - 1);
      RightsExact(states, calls, n - 1, p, t, b);
      HeldExact(states[n - 1], calls[n - 1], p, t, b);
      KeptNext(states, calls, n - 1, p, t, b);
    }
  }

  // ---------- What a call does to ports and messages ----------

  ghost predicate Creates(s: State, x: Call, p: Port) {
    (x.Allocate? && x.port == p) || (x.AllocateReserved? && x.port == p && Apply(s, x).result == Done)
  }

  /** A port exists from the call that makes it, private or public as it says; nothing else makes or changes one. */
  lemma PortsExact(s: State, x: Call, p: Port)
    requires Enabled(s, x)
    ensures var r := Apply(s, x).state;
            && (p in r <==> p in s || Creates(s, x, p))
            && (p in s ==> r[p].public == s[p].public && !Creates(s, x, p))
            && (Creates(s, x, p) ==> r[p].public == x.public && r[p].messages == [])
  {
  }

  ghost predicate Queues(s: State, x: Call, p: Port) {
    x.SendPage? && x.message.dst == p && Apply(s, x).result == Done
  }

  ghost predicate Delivers(s: State, x: Call, p: Port) {
    x.ReceiveFrom? && x.port == p && Apply(s, x).result.Got?
  }

  lemma MessagesExact(s: State, x: Call, p: Port)
    requires Enabled(s, x) && p in s
    ensures p in Apply(s, x).state
    ensures Apply(s, x).state[p].messages ==
            if Queues(s, x, p) then s[p].messages + [x.message]
            else if Delivers(s, x, p) then s[p].messages[1..] else s[p].messages
    ensures Delivers(s, x, p) ==> s[p].messages != [] && Apply(s, x).result == Got(s[p].messages[0])
  {
  }

  ghost function Accepted(states: seq<State>, calls: seq<Call>, n: nat, p: Port): seq<Message>
    requires |states| == |calls| + 1 && n <= |calls|
  {
    if n == 0 then []
    else Accepted(states, calls, n - 1, p) + if Queues(states[n - 1], calls[n - 1], p) then [calls[n - 1].message] else []
  }

  ghost function Delivered(states: seq<State>, calls: seq<Call>, n: nat, p: Port): seq<Message>
    requires |states| == |calls| + 1 && n <= |calls|
  {
    if n == 0 then []
    else Delivered(states, calls, n - 1, p)
         + if Delivers(states[n - 1], calls[n - 1], p) then [Apply(states[n - 1], calls[n - 1]).result.message] else []
  }

  /** In every run the messages accepted for a port are those delivered from it, in that order, and then those queued. */
  lemma {:induction false} MessagesInOrder(states: seq<State>, calls: seq<Call>, n: nat, p: Port)
    requires Run(states, calls) && n <= |calls|
    ensures Accepted(states, calls, n, p) ==
            Delivered(states, calls, n, p) + if p in states[n] then states[n][p].messages else []
  {
    if n > 0 {
      assert StepAt(states, calls, n - 1);
      MessagesInOrder(states, calls, n - 1, p);
      PortsExact(states[n - 1], calls[n - 1], p);
      if p in states[n - 1] {
        MessagesExact(states[n - 1], calls[n - 1], p);
      }
    }
  }
}

/** ipc_port.c itself: the ports and the number tried next, changed in place. */
module Rights {
  import opened Machine
  import opened RightsModel

  /** The k-th number tried from `next` on: upwards, and after the last one again from the first unreserved one. */
  ghost function Tried(next: nat, k: nat): nat {
    if k == 0 then (if next < UNRESERVED then UNRESERVED else next)
    else
      var p := Tried(next, k - 1);
      if p + 1 == PORTS then UNRESERVED else p + 1
  }

  /** No number passed over on the way from `next`, upwards and past the end from the first unreserved one, is free. */
  ghost predicate FirstFree(ports: map<Port, Info>, next: nat, port: Port) {
    var start := if next < 3 then 3 else next;
    if start <= port then forall x :: start <= x < port ==> x in ports
    else (forall x :: start <= x < UNSIGNED ==> x in ports) && (forall x :: 3 <= x < port ==> x in ports)
  }

  class Ports {
    var ports: map<Port, Info>
    var next: nat

    ghost predicate Valid()
      reads this
    {
      next < PORTS && Filed(ports)
    }

    constructor ()
      ensures Valid() && ports == map[] && next == UNRESERVED
    {
      ports, next := map[], UNRESERVED;
    }

    method RightInsert(p: Port, t: Task, right: Rights)
      requires p in ports
      modifies this
      ensures ports == old(ports)[p := Insert(old(ports)[p], t, right)] && next == old(next)
    {
      var info := ports[p];
      if Receive !in right {
        if info.public {
          assert ports == ports[p := info];
          return;
        }
      }
      if t in info.rights {
        ports := ports[p := info.(rights := info.rights[t := info.rights[t] + right])];
      } else {
        assert {} + right == right;
        ports := ports[p := info.(rights := info.rights[t := right])];
      }
    }

    method ReceiveCheck(p: Port, t: Task) returns (ok: bool)
      requires p in ports
      ensures ok <==> MayReceive(ports[p], t)
    {
      if t !in ports[p].rights {
        return false;
      }
      return Receive in ports[p].rights[t];
    }

    /** The check for a send right, which uses up a send-once right. */
    method SendCheck(p: Port, t: Task) returns (ok: bool)
      requires p in ports
      modifies this
      ensures ok <==> MaySend(old(ports)[p], t)
      ensures ports == (if ok then old(ports)[p := AfterSend(old(ports)[p], t)] else old(ports)) && next == old(next)
    {
      var info := ports[p];
      assert ports == ports[p := info];
      if t !in info.rights {
        return false;
      }
      var h := info.rights[t];
      if Receive in h {
        return true;
      }
      if Send in h {
        return true;
      }
      if SendOnce in h {
        ports := ports[p := info.(rights := info.rights[t := h - {SendOnce}])];
        return true;
      }
      return false;
    }

    /** The loop of ipc_port_allocate: finds the first number, in the order they are tried, that no port has. */
    method FindFree(ghost stop: nat) returns (port: Port, ghost k: nat)
      requires Valid() && Tried(next, stop) !in ports
      ensures UNRESERVED <= port < PORTS && port !in ports && port == Tried(next, k)
      ensures forall j: nat :: j < k ==> Tried(next, j) in ports
      ensures FirstFree(ports, next, port)
    {
      port := if next < UNRESERVED then UNRESERVED else next;
      k := 0;
      while port in ports
        invariant UNRESERVED <= port < PORTS && port == Tried(next, k) && k <= stop
        invariant forall j: nat :: j < k ==> Tried(next, j) in ports
        decreases stop - k
      {
        TriedBounds(next, k);
        port := (port + 1) % PORTS;
        if port < UNRESERVED {
          port := UNRESERVED;
        }
        k := k + 1;
      }
      PassedOver(ports, next, port, k);
    }

    /** There must be a free number, or the loop never ends. */
    method AllocatePort(t: Task, public: bool) returns (port: Port, ghost k: nat)
      requires Valid()
      requires exists free: Port :: UNRESERVED <= free < PORTS && free !in ports
      modifies this
      ensures Valid()
      ensures Enabled(old(ports), Allocate(t, port, public))
      ensures ports == Apply(old(ports), Allocate(t, port, public)).state
      ensures port == Tried(old(next), k) && forall j: nat :: j < k ==> Tried(old(next), j) in old(ports)
      ensures next == (port + 1) % PORTS && port !in old(ports) && FirstFree(old(ports), old(next), port)
    {
      ghost var free: Port :| UNRESERVED <= free < PORTS && free !in ports;
      ghost var stop := FreeIsTried(next, free);
      port, k := FindFree(stop);
      next := (port + 1) % PORTS;
      FiledStep(ports, Allocate(t, port, public));
      ports := ports[port := Info(public, map[t := {Receive}], [])];
    }

    method AllocateReservedPort(t: Task, port: Port, public: bool) returns (r: Result)
      requires Valid()
      modifies this
      ensures Valid() && next == old(next)
      ensures Outcome(ports, r) == Apply(old(ports), AllocateReserved(t, port, public))
    {
      FiledStep(ports, AllocateReserved(t, port, public));
      if port == 0 || port >= UNRESERVED {
        return Fail(Invalid);
      }
      if port in ports {
        return Fail(NotFree);
      }
      ports := ports[port := Info(public, map[t := {Receive}], [])];
      return Done;
    }

    method SendMessage(t: Task, m: Message) returns (r: Result)
      requires Valid()
      modifies this
      ensures Valid() && next == old(next)
      ensures Outcome(ports, r) == Apply(old(ports), SendPage(t, m))
    {
      FiledStep(ports, SendPage(t, m));
      if m.msg == MSG_NONE && m.page.Some? {
        return Fail(Invalid);
      }
      if m.src !in ports {
        return Fail(Invalid);
      }
      var ok := ReceiveCheck(m.src, t);
      if !ok {
        return Fail(NoRight);
      }
      if m.dst !in ports {
        return Fail(NotFound);
      }
      if !ports[m.dst].public && m.msg != MSG_NONE {
        ok := SendCheck(m.dst, t);
        if !ok {
          return Fail(NoRight);
        }
      }
      var info := ports[m.dst];
      ports := ports[m.dst := info.(messages := info.messages + [m])];
      return Done;
    }

    method ReceiveMessage(t: Task, p: Port) returns (r: Result)
      requires Valid()
      modifies this
      ensures Valid() && next == old(next)
      ensures Outcome(ports, r) == Apply(old(ports), ReceiveFrom(t, p))
    {
      FiledStep(ports, ReceiveFrom(t, p));
      if p !in ports {
        return Fail(NotFound);
      }
      var ok := ReceiveCheck(p, t);
      if !ok {
        return Fail(NoRight);
      }
      if ports[p].messages == [] {
        return Fail(Again);
      }
      var m := ports[p].messages[0];
      assert m in ports[p].messages;
      assert m.dst == p;
      ports := ports[p := ports[p].(messages := ports[p].messages[1..])];
      if m.right != {} {
        assert m.src in ports;
        RightInsert(m.src, t, m.right);
      }
      return Got(m);
    }

    method RightDrop(t: Task, p: Port, right: Rights) returns (r: Result)
      requires Valid()
      modifies this
      ensures Valid() && next == old(next)
      ensures Outcome(ports, r) == Apply(old(ports), Drop(t, p, right))
    {
      FiledStep(ports, Drop(t, p, right));
      if p !in ports {
        return Fail(NotFound);
      }
      if t !in ports[p].rights {
        return Fail(NoRight);
      }
      ports := ports[p := ports[p].(rights := ports[p].rights[t := ports[p].rights[t] - right])];
      return Done;
    }

    method RightGrant(t: Task, to: Task, src: Port, right: Rights) returns (r: Result)
      requires Valid()
      modifies this
      ensures Valid() && next == old(next)
      ensures Outcome(ports, r) == Apply(old(ports), Grant(t, to, src, right))
    {
      FiledStep(ports, Grant(t, to, src, right));
      if src !in ports {
        return Fail(NotFound);
      }
      var ok := ReceiveCheck(src, t);
      if !ok {
        return Fail(NoRight);
      }
      RightInsert(src, to, right);
      return Done;
    }

    /** Gives the right on `src` to every task that may receive from `dst`. */
    method RightSend(t: Task, dst: Port, src: Port, right: Rights) returns (r: Result)
      requires Valid() && Enabled(ports, SendRight(t, dst, src, right))
      modifies this
      ensures Valid() && next == old(next)
      ensures Outcome(ports, r) == Apply(old(ports), SendRight(t, dst, src, right))
    {
      FiledStep(ports, SendRight(t, dst, src, right));
      if src !in ports {
        return Fail(NotFound);
      }
      var ok := ReceiveCheck(src, t);
      if !ok {
        return Fail(NoRight);
      }
      if dst !in ports {
        return Fail(NotFound);
      }
      var todo := ports[dst].rights.Keys;
      ghost var given: set<Task> := {};
      InsertNone(ports[src], right);
      while todo != {}
        invariant src in old(ports) && dst in old(ports) && src != dst
        invariant todo <= old(ports)[dst].rights.Keys
        invariant given == Receivers(old(ports)[dst]) - todo
        invariant ports == old(ports)[src := InsertAll(old(ports)[src], given, right)] && next == old(next)
        decreases todo
      {
        var u :| u in todo;
        todo := todo - {u};
        if Receive in ports[dst].rights[u] {
          InsertMore(old(ports)[src], given, u, right);
          RightInsert(src, u, right);
          given := given + {u};
        }
      }
      assert given == Receivers(old(ports)[dst]);
      return Done;
    }
  }

  lemma InsertNone(info: Info, right: Rights)
    ensures InsertAll(info, {}, right) == info
  {
    assert (map t | t in info.rights.Keys + {} :: Holds(info, t)) == info.rights;
  }

  lemma InsertMore(info: Info, tasks: set<Task>, t: Task, right: Rights)
    requires t !in tasks
    ensures Insert(InsertAll(info, tasks, right), t, right) == InsertAll(info, tasks + {t}, right)
  {
    if !(Receive !in right && info.public) {
      assert Insert(InsertAll(info, tasks, right), t, right).rights == InsertAll(info, tasks + {t}, right).rights;
    }
  }

  lemma {:induction false} TriedBounds(next: nat, k: nat)
    requires next < PORTS
    ensures UNRESERVED <= Tried(next, k) < PORTS
  {
    if k > 0 {
      TriedBounds(next, k - 1);
    }
  }

  /** Trying goes up by one until the last number. */
  lemma {:induction false} TriedUp(next: nat, k: nat, d: nat)
    requires next < PORTS && Tried(next, k) + d < PORTS
    ensures Tried(next, k + d) == Tried(next, k) + d
  {
    if d > 0 {
      TriedUp(next, k, d - 1);
    }
  }

  lemma PassedOver(ports: map<Port, Info>, next: nat, port: Port, k: nat)
    requires next < PORTS && port == Tried(next, k) && UNRESERVED <= port < PORTS
    requires forall j: nat :: j < k ==> Tried(next, j) in ports
    ensures FirstFree(ports, next, port)
  {
    var start := Tried(next, 0);
    forall x | start <= x < PORTS && (port < start || x < port) ensures x in ports {
      PassedUp(next, port, k, x);
      assert Tried(next, x - start) in ports;
    }
    if port < start {
      forall x | UNRESERVED <= x < port ensures x in ports {
        var j := PassedAround(next, port, k, x);
        assert Tried(next, j) in ports;
      }
    }
  }

  lemma PassedUp(next: nat, port: Port, k: nat, x: nat)
    requires next < PORTS && port == Tried(next, k) && Tried(next, 0) <= x < PORTS && (port < Tried(next, 0) || x < port)
    ensures Tried(next, x - Tried(next, 0)) == x && x - Tried(next, 0) < k
  {
    var start := Tried(next, 0);
    TriedUp(next, 0, x - start);
    if k <= x - start {
      TriedUp(next, 0, k);
    }
  }

  lemma PassedAround(next: nat, port: Port, k: nat, x: nat) returns (j: nat)
    requires next < PORTS && port == Tried(next, k) < Tried(next, 0) && UNRESERVED <= x < port < PORTS
    ensures Tried(next, j) == x && j < k
  {
    var start := Tried(next, 0);
    var last := PORTS - 1 - start;
    TriedBounds(next, 0);
    TriedUp(next, 0, last);
    assert Tried(next, last + 1) == UNRESERVED;
    j := last + 1 + (x - UNRESERVED);
    TriedUp(next, last + 1, x - UNRESERVED);
    if k <= last {
      TriedUp(next, 0, k);
    } else if k <= j {
      TriedUp(next, last + 1, k - (last + 1));
    }
  }

  /** Every unreserved number is tried within one round. */
  lemma FreeIsTried(next: nat, free: Port) returns (stop: nat)
    requires next < PORTS && UNRESERVED <= free < PORTS
    ensures Tried(next, stop) == free
  {
    var first := Tried(next, 0);
    if first <= free {
      stop := free - first;
      TriedUp(next, 0, stop);
    } else {
      var last := PORTS - 1 - first;
      TriedUp(next, 0, last);
      assert Tried(next, last + 1) == UNRESERVED;
      stop := last + 1 + (free - UNRESERVED);
      TriedUp(next, last + 1, free - UNRESERVED);
    }
  }
}
