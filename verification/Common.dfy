/** Constants of the machine that several parts share. */
module Machine {
  const PAGE_SIZE: nat := 8192
  /** How many values an unsigned of 32 bits has. */
  const UNSIGNED: nat := 0x1_0000_0000
  /** ... and one of 64 bits. */
  const WORD: nat := 0x1_0000_0000_0000_0000
}

module Arithmetic {
  function Least(m: nat, n: nat): nat {
    if m < n then m else n
  }

  ghost function Pow2(n: nat): nat {
    if n == 0 then 1 else 2 * Pow2(n - 1)
  }
}

/** A value that may be missing. */
module Optional {
  datatype Option<T> = None | Some(value: T)
}

/** A TAILQ as a sequence. */
module Queues {
  function Put<T>(q: seq<T>, k: nat, t: T): seq<T>
    requires k <= |q|
  {
    q[..k] + [t] + q[k..]
  }

  /** TAILQ_REMOVE. */
  function Remove<T(==)>(q: seq<T>, t: T): seq<T> {
    if q == [] then [] else if q[0] == t then q[1..] else [q[0]] + Remove(q[1..], t)
  }

  /** TAILQ_REMOVE and TAILQ_INSERT_TAIL. */
  function ToTail<T(==)>(q: seq<T>, t: T): seq<T> {
    Remove(q, t) + [t]
  }

  ghost predicate NoRepeats<T>(q: seq<T>) {
    forall i, j :: 0 <= i < j < |q| ==> q[i] != q[j]
  }

  lemma {:induction false} RemoveFacts<T(!new)>(q: seq<T>, t: T)
    requires NoRepeats(q)
    ensures NoRepeats(Remove(q, t))
    ensures forall x :: x in Remove(q, t) <==> x in q && x != t
  {
    if q != [] && q[0] != t {
      var r := Remove(q[1..], t);
      assert NoRepeats(q[1..]);
      RemoveFacts(q[1..], t);
      assert forall x :: x in q <==> x == q[0] || x in q[1..];
      assert q[0] !in q[1..];
      assert forall i, j :: 0 <= i < j < |[q[0]] + r| ==> ([q[0]] + r)[i] != ([q[0]] + r)[j];
    } else if q != [] {
      assert forall x :: x in q <==> x == q[0] || x in q[1..];
      assert q[0] !in q[1..];
    }
  }

  lemma ToTailFacts<T(!new)>(q: seq<T>, t: T)
    requires NoRepeats(q) && t in q
    ensures NoRepeats(ToTail(q, t))
    ensures forall x :: x in ToTail(q, t) <==> x in q
  {
    RemoveFacts(q, t);
  }

  lemma {:induction false} Occurs<T>(q: seq<T>, t: T)
    requires NoRepeats(q)
    ensures multiset(q)[t] == if t in q then 1 else 0
  {
    if q != [] {
      assert q == [q[0]] + q[1..];
      assert NoRepeats(q[1..]);
      Occurs(q[1..], t);
    }
  }
}
