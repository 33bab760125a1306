/** What several modules share. */
module Basics {

  datatype Option<T> = None | Some(value: T)

  lemma {:induction false} SubsetSize<T>(a: set<T>, b: set<T>)
    requires a <= b
    ensures |a| <= |b|
    decreases a
  {
    if a != {} {
      var x :| x in a;
      SubsetSize(a - {x}, b - {x});
    }
  }

  /** What holds at the start of a trace and is handed from each state to the next holds throughout. */
  lemma {:induction false} Along<S>(trace: seq<S>, p: S -> bool, n: nat)
    requires n < |trace| && p(trace[0])
    requires forall i :: 0 <= i < |trace| - 1 && p(trace[i]) ==> p(trace[i + 1])
    ensures p(trace[n])
  {
    if n > 0 {
      Along(trace, p, n - 1);
    }
  }
}
