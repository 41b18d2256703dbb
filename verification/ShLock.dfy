/**
  The shared/exclusive lock (mk/core/core_shlock.c).  Every access to one of its two words is
  one step; any number of threads take steps in any order.  A thread is inside while it holds
  the owner word.
 */
module ShLock {
  import opened Machine
  import opened Optional

  type Thread = nat
  type Cpu = nat

  datatype Pc =
    | Out
    // shlock_slock
    | TryShare(cpu: Cpu)
    | ShareFailed(cpu: Cpu)   // its compare-and-set failed
    | Count(cpu: Cpu)         // has the owner word
    | ReleaseWord(cpu: Cpu)   // has counted itself
    | Shared
    // shlock_xlock
    | TryOwn(cpu: Cpu)
    | OwnFailed(cpu: Cpu)     // its compare-and-set failed
    | Look(cpu: Cpu)          // has the owner word
    | BackOff(cpu: Cpu)       // has seen a share
    | Exclusive(cpu: Cpu)
  {
    predicate Inside() {
      Count? || ReleaseWord? || Look? || BackOff? || Exclusive?
    }

    /** Is counted as a holder of a share. */
    predicate Counted() {
      ReleaseWord? || Shared?
    }
  }

  datatype State = State(owner: Option<Cpu>, shares: nat, pcs: map<Thread, Pc>)

  /** What a thread is called to do, with the CPU that mp_whoami names when it tries. */
  datatype Call = Share(cpu: Cpu) | Own(cpu: Cpu) | Go

  function At(s: State, t: Thread, pc: Pc): State {
    s.(pcs := s.pcs[t := pc])
  }

  /** What thread `t` does next; None where it panics on its own CPU's word, or cannot do that now. */
  function Step(s: State, t: Thread, call: Call): Option<State>
    requires t in s.pcs
  {
    match s.pcs[t]
    case Out =>
      (match call
       case Share(cpu) => Some(At(s, t, TryShare(cpu)))
       case Own(cpu) => Some(At(s, t, TryOwn(cpu)))
       case Go => None)
    case TryShare(cpu) =>
      if s.owner.None? then Some(At(s.(owner := Some(cpu)), t, Count(cpu))) else Some(At(s, t, ShareFailed(cpu)))
    case ShareFailed(cpu) => if s.owner == Some(cpu) || !call.Share? then None else Some(At(s, t, TryShare(call.cpu)))
    case Count(cpu) => Some(At(s.(shares := (s.shares + 1) % WORD), t, ReleaseWord(cpu)))
    case ReleaseWord(cpu) => Some(At(s.(owner := None), t, Shared))
    case Shared => Some(At(s.(shares := (s.shares + WORD - 1) % WORD), t, Out))
    case TryOwn(cpu) =>
      if s.owner.None? then Some(At(s.(owner := Some(cpu)), t, Look(cpu))) else Some(At(s, t, OwnFailed(cpu)))
    case OwnFailed(cpu) => if s.owner == Some(cpu) || !call.Own? then None else Some(At(s, t, TryOwn(call.cpu)))
    case Look(cpu) => Some(At(s, t, if s.shares == 0 then Exclusive(cpu) else BackOff(cpu)))
    case BackOff(cpu) => if call.Own? then Some(At(s.(owner := None), t, TryOwn(call.cpu))) else None
    case Exclusive(cpu) => Some(At(s.(owner := None), t, Out))
  }

  // ---------- The invariant ----------

  /** The threads that hold a share. */
  ghost function Holders(s: State): set<Thread> {
    set t | t in s.pcs && s.pcs[t].Counted()
  }

  /** One thread at a time is inside, and its CPU's number is in the owner word. */
  ghost predicate OneInside(s: State) {
    && (forall t :: t in s.pcs && s.pcs[t].Inside() ==> s.owner == Some(s.pcs[t].cpu))
    && (forall t, u :: t in s.pcs && u in s.pcs && s.pcs[t].Inside() && s.pcs[u].Inside() ==> t == u)
  }

  ghost predicate Counts(s: State) {
    s.shares == |Holders(s)| % WORD
  }

  ghost predicate Inv(s: State) {
    OneInside(s) && Counts(s)
  }

  ghost predicate Initial(s: State) {
    s.owner == None && s.shares == 0 && forall t :: t in s.pcs ==> s.pcs[t] == Out
  }

  lemma HoldersMove(s: State, t: Thread, pc: Pc)
    requires t in s.pcs
    ensures Holders(At(s, t, pc)) == if pc.Counted() then Holders(s) + {t} else Holders(s) - {t}
  {
  }

  lemma ModUp(x: nat)
    ensures (x % WORD + 1) % WORD == (x + 1) % WORD
  {
    Shift(x % WORD + 1, x / WORD);
  }

  lemma ModDown(x: nat)
    requires x > 0
    ensures (x % WORD + WORD - 1) % WORD == (x - 1) % WORD
  {
    Shift(x % WORD + WORD - 1, x / WORD);
    Shift(x - 1, 1);
  }

  lemma Shift(y: nat, q: nat)
    ensures (q * WORD + y) % WORD == y % WORD
  {
  }

  /** The count modulo the word follows the set of holders. */
  lemma CountUp(holders: set<Thread>, t: Thread)
    requires t !in holders
    ensures (|holders| % WORD + 1) % WORD == |holders + {t}| % WORD
  {
    ModUp(|holders|);
    assert |holders + {t}| == |holders| + 1;
  }

  lemma CountDown(holders: set<Thread>, t: Thread)
    requires t in holders
    ensures (|holders| % WORD + WORD - 1) % WORD == |holders - {t}| % WORD
  {
    assert |holders - {t}| == |holders| - 1;
    ModDown(|holders|);
  }

  /** The word is taken when free, kept while inside, and given back by whoever is inside. */
  lemma InsideMove(s: State, t: Thread, pc: Pc, owner: Option<Cpu>)
    requires OneInside(s) && t in s.pcs
    requires pc.Inside() ==> owner == Some(pc.cpu) && (s.pcs[t].Inside() || s.owner.None?)
    requires !pc.Inside() && !s.pcs[t].Inside() ==> owner == s.owner
    ensures OneInside(At(s.(owner := owner), t, pc))
  {
  }

  lemma InsideKeeps(s: State, t: Thread, call: Call)
    requires OneInside(s) && t in s.pcs && Step(s, t, call).Some?
    ensures OneInside(Step(s, t, call).value)
  {
    var r := Step(s, t, call).value;
    InsideMove(s, t, r.pcs[t], r.owner);
    assert r.pcs == s.pcs[t := r.pcs[t]];
  }

  /** The count goes up and down with the thread's being counted. */
  lemma SharesOf(s: State, t: Thread, call: Call)
    requires t in s.pcs && Step(s, t, call).Some?
    ensures var r := Step(s, t, call).value;
            && r.pcs == s.pcs[t := r.pcs[t]]
            && r.shares ==
               if !s.pcs[t].Counted() && r.pcs[t].Counted() then (s.shares + 1) % WORD
               else if s.pcs[t].Counted() && !r.pcs[t].Counted() then (s.shares + WORD - 1) % WORD
               else s.shares
  {
  }

  lemma CountKeeps(s: State, t: Thread, call: Call)
    requires Counts(s) && t in s.pcs && Step(s, t, call).Some?
    ensures Counts(Step(s, t, call).value)
  {
    var r := Step(s, t, call).value;
    SharesOf(s, t, call);
    HoldersMove(s, t, r.pcs[t]);
    assert Holders(r) == Holders(At(s, t, r.pcs[t]));
    CountFollows(Holders(s), t, s.shares, r.pcs[t].Counted());
  }

  lemma CountFollows(holders: set<Thread>, t: Thread, shares: nat, counted: bool)
    requires shares == |holders| % WORD
    ensures var after := if counted then holders + {t} else holders - {t};
            |after| % WORD ==
            if t !in holders && counted then (shares + 1) % WORD
            else if t in holders && !counted then (shares + WORD - 1) % WORD
            else shares
  {
    if t !in holders && counted {
      CountUp(holders, t);
    } else if t in holders && !counted {
      CountDown(holders, t);
    } else if counted {
      assert holders + {t} == holders;
    } else {
      assert holders - {t} == holders;
    }
  }

  // ---------- Runs ----------

  ghost predicate StepAt(states: seq<State>, moves: seq<(Thread, Call)>, i: nat)
    requires i < |moves| && |states| == |moves| + 1
  {
    moves[i].0 in states[i].pcs && Step(states[i], moves[i].0, moves[i].1) == Some(states[i + 1])
  }

  ghost predicate Run(states: seq<State>, moves: seq<(Thread, Call)>) {
    && |states| == |moves| + 1
    && Initial(states[0])
    && forall i: nat :: i < |moves| ==> StepAt(states, moves, i)
  }

  /** The count always equals the number of shared holders, in 64 bits. */
  lemma {:induction false} RunInv(states: seq<State>, moves: seq<(Thread, Call)>, i: nat)
    requires Run(states, moves) && i < |states|
    ensures Inv(states[i])
  {
    if i == 0 {
      assert Holders(states[0]) == {};
    } else {
      RunInv(states, moves, i - 1);
      assert StepAt(states, moves, i - 1);
      InsideKeeps(states[i - 1], moves[i - 1].0, moves[i - 1].1);
      CountKeeps(states[i - 1], moves[i - 1].0, moves[i - 1].1);
    }
  }

  /** No thread comes to hold a share while another is exclusive. */
  lemma NoNewHolders(s: State, t: Thread, call: Call, x: Thread)
    requires OneInside(s) && t in s.pcs && Step(s, t, call).Some?
    requires x in s.pcs && s.pcs[x].Exclusive?
    ensures Holders(Step(s, t, call).value) <= Holders(s)
  {
  }

  /** A thread becomes exclusive on a count of zero. */
  lemma BecomesExclusive(s: State, t: Thread, call: Call, x: Thread)
    requires Inv(s) && t in s.pcs && Step(s, t, call).Some?
    requires x in s.pcs && !s.pcs[x].Exclusive? && Step(s, t, call).value.pcs[x].Exclusive?
    ensures |Holders(s)| % WORD == 0 && Holders(Step(s, t, call).value) == Holders(s)
  {
  }

  /** The check admits a thread while nobody holds a share, if and only if fewer than 2^64 threads hold one. */
  lemma CheckMeans(s: State, t: Thread)
    requires Inv(s) && t in s.pcs && s.pcs[t].Look? && Step(s, t, Go).value.pcs[t].Exclusive?
    ensures Holders(s) == {} <==> |Holders(s)| < WORD
  {
    if |Holders(s)| < WORD {
      assert |Holders(s)| == 0;
    }
  }

  /**
    Exclusion in every state of every run in which fewer than 2^64 threads hold shares at a
    time: an exclusive holder excludes shared holders and every other exclusive holder.
   */
  lemma {:induction false} Exclusion(states: seq<State>, moves: seq<(Thread, Call)>, i: nat, x: Thread)
    requires Run(states, moves) && i < |states|
    requires forall k :: 0 <= k <= i ==> |Holders(states[k])| < WORD
    requires x in states[i].pcs && states[i].pcs[x].Exclusive?
    ensures Holders(states[i]) == {}
    ensures forall y :: y in states[i].pcs && states[i].pcs[y].Exclusive? ==> y == x
  {
    RunInv(states, moves, i);
    if i > 0 {
      var s := states[i - 1];
      RunInv(states, moves, i - 1);
      assert StepAt(states, moves, i - 1);
      var t, call := moves[i - 1].0, moves[i - 1].1;
      if s.pcs[x].Exclusive? {
        Exclusion(states, moves, i - 1, x);
        NoNewHolders(s, t, call, x);
      } else {
        BecomesExclusive(s, t, call, x);
        assert |Holders(s)| < WORD;
      }
    }
  }

  /** Until it unlocks: from the step that makes a thread exclusive to the one that ends it, it stays exclusive. */
  lemma OnlyOwnStepEnds(s: State, t: Thread, call: Call, x: Thread)
    requires OneInside(s) && t in s.pcs && Step(s, t, call).Some?
    requires x in s.pcs && s.pcs[x].Exclusive?
    ensures Step(s, t, call).value.pcs[x].Exclusive? <==> t != x
  {
  }

  // ---------- What a call ends in ----------

  /** In shlock_slock, before it returns. */
  predicate Sharing(pc: Pc) {
    pc.TryShare? || pc.ShareFailed? || pc.Count? || pc.ReleaseWord?
  }

  /** In shlock_xlock, before it returns. */
  predicate Owning(pc: Pc) {
    pc.TryOwn? || pc.OwnFailed? || pc.Look? || pc.BackOff?
  }

  /** A call for a share ends with a share, and a call for the lock with the lock; an unlock ends outside. */
  lemma CourseStep(s: State, t: Thread, call: Call)
    requires t in s.pcs && Step(s, t, call).Some?
    ensures var pc, next := s.pcs[t], Step(s, t, call).value.pcs[t];
            && (Sharing(pc) ==> Sharing(next) || next.Shared?)
            && (Owning(pc) ==> Owning(next) || next.Exclusive?)
            && (pc.Shared? || pc.Exclusive? ==> next.Out?)
            && (pc.Out? ==> if call.Share? then next == TryShare(call.cpu) else call.Own? && next == TryOwn(call.cpu))
  {
  }

  /** The compare-and-set succeeds exactly on a free word; a retry is made for the CPU the thread is then on. */
  lemma TryStep(s: State, t: Thread, call: Call)
    requires t in s.pcs && Step(s, t, call).Some?
    ensures var pc, next := s.pcs[t], Step(s, t, call).value.pcs[t];
            && (pc.TryShare? ==> next == if s.owner.None? then Count(pc.cpu) else ShareFailed(pc.cpu))
            && (pc.TryOwn? ==> next == if s.owner.None? then Look(pc.cpu) else OwnFailed(pc.cpu))
            && (pc.ShareFailed? ==> call.Share? && next == TryShare(call.cpu))
            && (pc.OwnFailed? || pc.BackOff? ==> call.Own? && next == TryOwn(call.cpu))
            && (pc.Count? ==> next.ReleaseWord?) && (pc.ReleaseWord? ==> next.Shared?)
            && (pc.Look? ==> (next.Exclusive? <==> s.shares == 0) && (next.BackOff? <==> s.shares != 0))
  {
  }

  /** A thread panics exactly when, having failed, it finds the word taken by the CPU it tried for. */
  lemma PanicExact(s: State, t: Thread, cpu: Cpu)
    requires t in s.pcs
    ensures (s.pcs[t].ShareFailed? || s.pcs[t].OwnFailed?) ==>
              (Step(s, t, if s.pcs[t].ShareFailed? then Share(cpu) else Own(cpu)).None? <==> s.owner == Some(s.pcs[t].cpu))
    ensures s.pcs[t].BackOff? ==> Step(s, t, Own(cpu)).Some?
    ensures !s.pcs[t].Out? && !s.pcs[t].ShareFailed? && !s.pcs[t].OwnFailed? && !s.pcs[t].BackOff? ==> Step(s, t, Go).Some?
  {
  }

  /** In every run what began as a call for the lock is that call still, or has the lock, until the thread is outside again. */
  lemma {:induction false} OwnEndsExclusive(states: seq<State>, moves: seq<(Thread, Call)>, i: nat, j: nat, t: Thread)
    requires Run(states, moves) && i < j <= |moves| && t in states[i].pcs && states[i].pcs[t].Out?
    requires moves[i].0 == t && moves[i].1.Own?
    requires forall k :: i < k <= j ==> t in states[k].pcs && !states[k].pcs[t].Out?
    ensures Owning(states[j].pcs[t]) || states[j].pcs[t].Exclusive?
    decreases j
  {
    assert StepAt(states, moves, j - 1);
    if i < j - 1 {
      OwnEndsExclusive(states, moves, i, j - 1, t);
    }
    if moves[j - 1].0 == t {
      CourseStep(states[j - 1], t, moves[j - 1].1);
    }
  }

  /** ... and what began as a call for a share has a share. */
  lemma {:induction false} ShareEndsShared(states: seq<State>, moves: seq<(Thread, Call)>, i: nat, j: nat, t: Thread)
    requires Run(states, moves) && i < j <= |moves| && t in states[i].pcs && states[i].pcs[t].Out?
    requires moves[i].0 == t && moves[i].1.Share?
    requires forall k :: i < k <= j ==> t in states[k].pcs && !states[k].pcs[t].Out?
    ensures Sharing(states[j].pcs[t]) || states[j].pcs[t].Shared?
    decreases j
  {
    assert StepAt(states, moves, j - 1);
    if i < j - 1 {
      ShareEndsShared(states, moves, i, j - 1, t);
    }
    if moves[j - 1].0 == t {
      CourseStep(states[j - 1], t, moves[j - 1].1);
    }
  }

  /** The owner word is taken only while a thread is inside. */
  ghost predicate OwnerInside(s: State) {
    s.owner.Some? ==> exists t :: t in s.pcs && s.pcs[t].Inside()
  }

  lemma OwnerStep(s: State, t: Thread, call: Call)
    requires OneInside(s) && OwnerInside(s) && t in s.pcs && Step(s, t, call).Some?
    ensures OwnerInside(Step(s, t, call).value)
  {
    var r := Step(s, t, call).value;
    if r.owner.Some? && !r.pcs[t].Inside() {
      var u :| u in s.pcs && s.pcs[u].Inside();
      assert u != t && r.pcs[u] == s.pcs[u];
    }
  }

  /** In every run the word is free exactly when no thread is inside: nobody leaves it taken behind. */
  lemma {:induction false} OwnerExact(states: seq<State>, moves: seq<(Thread, Call)>, i: nat)
    requires Run(states, moves) && i < |states|
    ensures states[i].owner.Some? <==> exists t :: t in states[i].pcs && states[i].pcs[t].Inside()
  {
    RunInv(states, moves, i);
    if i > 0 {
      OwnerExact(states, moves, i - 1);
      RunInv(states, moves, i - 1);
      assert StepAt(states, moves, i - 1);
      OwnerStep(states[i - 1], moves[i - 1].0, moves[i - 1].1);
    }
  }

  // ---------- With 2^64 holders ----------

  ghost predicate Reachable(s: State) {
    exists states, moves :: Run(states, moves) && states[|moves|] == s
  }

  lemma ReachableStep(s: State, t: Thread, call: Call)
    requires Reachable(s) && t in s.pcs && Step(s, t, call).Some?
    ensures Reachable(Step(s, t, call).value)
  {
    var states, moves :| Run(states, moves) && states[|moves|] == s;
    var r := Step(s, t, call).value;
    var more, all := moves + [(t, call)], states + [r];
    forall i: nat | i < |more| ensures StepAt(all, more, i) {
      if i < |moves| {
        assert StepAt(states, moves, i);
      }
    }
    assert Run(all, more) && all[|more|] == r;
  }

  predicate Among(t: Thread, k: nat) {
    t < k
  }

  /** The first `k` threads. */
  ghost function First(k: nat): set<Thread> {
    set t: Thread | 0 <= t < k && Among(t, k)
  }

  /** The first `k` of 2^64 threads hold shares, and one more thread looks on. */
  ghost function Crowd(k: nat): State {
    var all := First(WORD + 1);
    State(None, k % WORD, map t | t in all :: if t < k then Shared else Out)
  }

  lemma {:induction false} CrowdReachable(k: nat)
    requires k <= WORD
    ensures Reachable(Crowd(k))
  {
    if k == 0 {
      var states, moves: seq<(Thread, Call)> := [Crowd(0)], [];
      assert Run(states, moves) && states[|moves|] == Crowd(0);
    } else {
      CrowdReachable(k - 1);
      CrowdGrows(k - 1);
    }
  }

  lemma CrowdGrows(k: nat)
    requires k < WORD && Reachable(Crowd(k))
    ensures Reachable(Crowd(k + 1))
  {
    var s := Crowd(k);
    ReachableStep(s, k, Share(0));
    var s1 := At(s, k, TryShare(0));
    ReachableStep(s1, k, Go);
    var s2 := At(s1.(owner := Some(0)), k, Count(0));
    ReachableStep(s2, k, Go);
    var s3 := At(s2.(shares := (k % WORD + 1) % WORD), k, ReleaseWord(0));
    ReachableStep(s3, k, Go);
    var s4 := At(s3.(owner := None), k, Shared);
    ModUp(k);
    assert s4.pcs == Crowd(k + 1).pcs;
  }

  lemma {:induction false} FirstSize(k: nat)
    ensures |First(k)| == k
  {
    if k > 0 {
      FirstSize(k - 1);
      assert First(k) == First(k - 1) + {k - 1};
    }
  }

  lemma CrowdHolders(k: nat)
    requires k <= WORD
    ensures Holders(Crowd(k)) == First(k)
  {
    assert forall t :: t in First(k) <==> t in Holders(Crowd(k));
  }

  /** With 2^64 holders the count reads zero, and a thread becomes exclusive among them. */
  lemma Overflows() returns (s: State)
    ensures Reachable(s) && WORD in s.pcs && s.pcs[WORD].Exclusive? && |Holders(s)| == WORD
  {
    CrowdReachable(WORD);
    CrowdHolders(WORD);
    FirstSize(WORD);
    var c := Crowd(WORD);
    ReachableStep(c, WORD, Own(1));
    var s1 := At(c, WORD, TryOwn(1));
    ReachableStep(s1, WORD, Go);
    var s2 := At(s1.(owner := Some(1)), WORD, Look(1));
    Shift(0, 1);
    ReachableStep(s2, WORD, Go);
    s := At(s2, WORD, Exclusive(1));
    assert Holders(s) == Holders(c);
  }
}
