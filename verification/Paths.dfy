/** Finite paths of a step relation, and repeated application of a step. */
module Paths {

  ghost predicate Leads<S(!new)>(move: (S, S) -> bool, s: S, t: S, n: nat)
    decreases n
  {
    if n == 0 then s == t else exists m :: move(s, m) && Leads(move, m, t, n - 1)
  }

  /** A move that stays good and comes one step closer, or stays where nothing is left. */
  ghost predicate Approaches<S(!new)>(good: S -> bool, left: S -> int, s: S, m: S) {
    good(m) && left(m) == if left(s) == 0 then 0 else left(s) - 1
  }

  /** If every move from a good state approaches, every path from a good state that is as long as
      what is left, or longer, ends in a good state with nothing left. */
  lemma {:induction false} AllArrive<S(!new)>(move: (S, S) -> bool, good: S -> bool, left: S -> int, s: S, t: S, n: nat)
    requires forall x :: good(x) ==> 0 <= left(x)
    requires forall x, m :: good(x) && move(x, m) ==> Approaches(good, left, x, m)
    requires good(s) && left(s) <= n && Leads(move, s, t, n)
    ensures good(t) && left(t) == 0
    decreases n
  {
    if n > 0 {
      var m :| move(s, m) && Leads(move, m, t, n - 1);
      assert Approaches(good, left, s, m);
      AllArrive(move, good, left, m, t, n - 1);
    }
  }

  ghost predicate CanMove<S(!new)>(move: (S, S) -> bool, s: S) {
    exists m :: move(s, m)
  }

  /** If every good state has a move and every move stays good, there are paths of every length. */
  lemma {:induction false} NeverStuck<S(!new)>(move: (S, S) -> bool, good: S -> bool, s: S, n: nat) returns (t: S)
    requires forall x :: good(x) ==> CanMove(move, x)
    requires forall x, m :: good(x) && move(x, m) ==> good(m)
    requires good(s)
    ensures Leads(move, s, t, n)
    decreases n
  {
    if n == 0 {
      t := s;
    } else {
      assert CanMove(move, s);
      var m :| move(s, m);
      t := NeverStuck(move, good, m, n - 1);
    }
  }

  function Iterate<S>(step: S -> S, s: S, n: nat): S {
    if n == 0 then s else step(Iterate(step, s, n - 1))
  }

  /** What every application of the step keeps holds after any number of them. */
  lemma {:induction false} IterateKeeps<S(!new)>(step: S -> S, keeps: (S, nat) -> bool, s: S, n: nat)
    requires keeps(s, 0)
    requires forall x, k: nat :: keeps(x, k) ==> keeps(step(x), k + 1)
    ensures keeps(Iterate(step, s, n), n)
  {
    if n > 0 {
      IterateKeeps(step, keeps, s, n - 1);
    }
  }
}
