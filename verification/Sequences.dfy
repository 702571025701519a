/** Sequences without repetition, and lists of faults in the order in which they are looked for. */
module Sequences {
  import opened Wrappers

  predicate NoDuplicates<T(==)>(xs: seq<T>) {
    forall i, j | 0 <= i < j < |xs| :: xs[i] != xs[j]
  }

  /** A condition and what is reported when it holds. */
  type Fault<T> = (bool, T)

  /** What is reported: the first fault that applies. */
  function First<T>(faults: seq<Fault<T>>): Option<T> {
    if faults == [] then None else if faults[0].0 then Some(faults[0].1) else First(faults[1..])
  }

  lemma {:induction false} FirstIs<T>(faults: seq<Fault<T>>, i: nat)
    requires i < |faults| && faults[i].0 && forall j | 0 <= j < i :: !faults[j].0
    ensures First(faults) == Some(faults[i].1)
  {
    if i == 0 {
    } else {
      FirstIs(faults[1..], i - 1);
    }
  }

  lemma {:induction false} FirstIsNone<T>(faults: seq<Fault<T>>)
    ensures First(faults) == None <==> forall i | 0 <= i < |faults| :: !faults[i].0
  {
    if faults == [] {
    } else {
      FirstIsNone(faults[1..]);
      assert forall i | 0 < i < |faults| :: faults[i] == faults[1..][i - 1];
    }
  }

  lemma {:induction false} FirstOfTwo<T>(a: seq<Fault<T>>, b: seq<Fault<T>>)
    ensures First(a + b) == if First(a).Some? then First(a) else First(b)
  {
    if a == [] {
      assert a + b == b;
    } else {
      assert (a + b)[1..] == a[1..] + b;
      FirstOfTwo(a[1..], b);
    }
  }
}
