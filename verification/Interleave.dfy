/**
 Two sides taking turns in any order.

 A schedule says which side moves next; a side that cannot move stutters.  From
 four facts about single steps follow the facts about every schedule: an
 invariant holds after any schedule, and any schedule that is cut into enough
 rounds, each letting both sides move, ends in the final state.
 */
module Interleave {

  /** One move: the left side's when b, the right side's otherwise. */
  function Move<S>(left: S -> S, right: S -> S, s: S, b: bool): S { if b then left(s) else right(s) }

  function Run<S>(left: S -> S, right: S -> S, s: S, sched: seq<bool>): S
    decreases |sched|
  {
    if sched == [] then s else Run(left, right, Move(left, right, s, sched[0]), sched[1..])
  }

  /** Both sides move at least once. */
  predicate Round(sched: seq<bool>) { true in sched && false in sched }

  /** The schedule can be cut into n rounds and a rest. */
  ghost predicate Fair(sched: seq<bool>, n: nat)
    decreases n
  {
    n > 0 ==> exists k :: 0 <= k <= |sched| && Round(sched[..k]) && Fair(sched[k..], n - 1)
  }

  ghost predicate Inductive<S(!new)>(left: S -> S, right: S -> S, inv: S -> bool) {
    && (forall s {:trigger left(s)} :: inv(s) ==> inv(left(s)))
    && (forall s {:trigger right(s)} :: inv(s) ==> inv(right(s)))
  }

  /** A step that is not a stutter lowers the rank. */
  ghost predicate Ranked<S(!new)>(left: S -> S, right: S -> S, inv: S -> bool, rank: S -> nat) {
    && (forall s {:trigger left(s)} :: inv(s) ==> left(s) == s || rank(left(s)) < rank(s))
    && (forall s {:trigger right(s)} :: inv(s) ==> right(s) == s || rank(right(s)) < rank(s))
  }

  /** Some side can move until the final state, where neither can. */
  ghost predicate Live<S(!new)>(left: S -> S, right: S -> S, inv: S -> bool, final: S -> bool) {
    forall s {:trigger final(s)} :: inv(s) ==> (final(s) <==> left(s) == s && right(s) == s)
  }

  lemma {:induction false} RunKeeps<S(!new)>(left: S -> S, right: S -> S, inv: S -> bool, s: S, sched: seq<bool>)
    requires Inductive(left, right, inv) && inv(s)
    ensures inv(Run(left, right, s, sched))
    decreases |sched|
  {
    if sched != [] {
      RunKeeps(left, right, inv, Move(left, right, s, sched[0]), sched[1..]);
    }
  }

  lemma {:induction false} RunLowers<S(!new)>(left: S -> S, right: S -> S, inv: S -> bool, rank: S -> nat,
                                                   s: S, sched: seq<bool>)
    requires Inductive(left, right, inv) && Ranked(left, right, inv, rank) && inv(s)
    ensures rank(Run(left, right, s, sched)) <= rank(s)
    decreases |sched|
  {
    if sched != [] {
      RunLowers(left, right, inv, rank, Move(left, right, s, sched[0]), sched[1..]);
    }
  }

  /** A side that can move still can when its turn comes, unless the state has changed. */
  lemma {:induction false} TurnLowers<S(!new)>(left: S -> S, right: S -> S, inv: S -> bool, rank: S -> nat,
                                                    s: S, b: bool, sched: seq<bool>)
    requires Inductive(left, right, inv) && Ranked(left, right, inv, rank) && inv(s)
    requires Move(left, right, s, b) != s && b in sched
    ensures rank(Run(left, right, s, sched)) < rank(s)
    decreases |sched|
  {
    if Move(left, right, s, sched[0]) == s {
      TurnLowers(left, right, inv, rank, s, b, sched[1..]);
    } else {
      RunLowers(left, right, inv, rank, Move(left, right, s, sched[0]), sched[1..]);
    }
  }

  lemma RoundLowers<S(!new)>(left: S -> S, right: S -> S, inv: S -> bool, rank: S -> nat,
                             final: S -> bool, s: S, sched: seq<bool>)
    requires Inductive(left, right, inv) && Ranked(left, right, inv, rank) && Live(left, right, inv, final) && inv(s)
    requires !final(s) && Round(sched)
    ensures rank(Run(left, right, s, sched)) < rank(s)
  {
    TurnLowers(left, right, inv, rank, s, left(s) != s, sched);
  }

  lemma {:induction false} RunSplit<S>(left: S -> S, right: S -> S, s: S, sched: seq<bool>, k: nat)
    requires k <= |sched|
    ensures Run(left, right, s, sched) == Run(left, right, Run(left, right, s, sched[..k]), sched[k..])
    decreases k
  {
    if k == 0 {
      assert sched[0..] == sched;
    } else {
      RunSplit(left, right, Move(left, right, s, sched[0]), sched[1..], k - 1);
      assert sched[..k][1..] == sched[1..][..k - 1] && sched[1..][k - 1..] == sched[k..];
    }
  }

  lemma {:induction false} FinalStays<S(!new)>(left: S -> S, right: S -> S, inv: S -> bool,
                                                    final: S -> bool, s: S, sched: seq<bool>)
    requires Live(left, right, inv, final) && inv(s) && final(s)
    ensures Run(left, right, s, sched) == s
    decreases |sched|
  {
    if sched != [] {
      FinalStays(left, right, inv, final, s, sched[1..]);
    }
  }

  /** As many rounds as the rank of the start are enough, whatever the order inside them. */
  lemma {:induction false} FairRunsEnd<S(!new)>(left: S -> S, right: S -> S, inv: S -> bool, rank: S -> nat,
                                                     final: S -> bool, s: S, sched: seq<bool>, n: nat)
    requires Inductive(left, right, inv) && Ranked(left, right, inv, rank) && Live(left, right, inv, final) && inv(s)
    requires rank(s) <= n && Fair(sched, n)
    ensures final(Run(left, right, s, sched))
    decreases n
  {
    if final(s) {
      FinalStays(left, right, inv, final, s, sched);
    } else {
      assert left(s) != s || right(s) != s;
      var k :| 0 <= k <= |sched| && Round(sched[..k]) && Fair(sched[k..], n - 1);
      RunSplit(left, right, s, sched, k);
      RunKeeps(left, right, inv, s, sched[..k]);
      RoundLowers(left, right, inv, rank, final, s, sched[..k]);
      FairRunsEnd(left, right, inv, rank, final, Run(left, right, s, sched[..k]), sched[k..], n - 1);
    }
  }

  function Alternation(n: nat): seq<bool> {
    if n == 0 then [] else [true, false] + Alternation(n - 1)
  }

  /** Taking turns is fair. */
  lemma {:induction false} AlternationIsFair(n: nat)
    ensures Fair(Alternation(n), n)
  {
    if n > 0 {
      var sched := Alternation(n);
      AlternationIsFair(n - 1);
      assert sched[..2] == [true, false] && sched[2..] == Alternation(n - 1);
      assert Round([true, false]);
    }
  }
}
