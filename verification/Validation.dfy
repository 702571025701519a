/** Comparing two lists of event types through a map. */
module Validation {
  import opened Sequences

  function SetOf(xs: seq<string>): set<string> {
    set x | x in xs
  }

  /** What the comparison computes: equal lengths, and every type of `b` is one of `a`. */
  predicate Covers(a: seq<string>, b: seq<string>) {
    |a| == |b| && forall x | x in b :: x in a
  }

  method EventTypesMatch(a: seq<string>, b: seq<string>) returns (same: bool)
    ensures same <==> Covers(a, b)
    ensures NoDuplicates(b) ==> (same <==> multiset(a) == multiset(b))
  {
    MatchIsPermutation(a, b);
    if |a| != |b| {
      return false;
    }
    var eventMap: map<string, bool> := map[];
    for i := 0 to |a|
      invariant forall x :: x in eventMap <==> x in a[..i]
      invariant forall x | x in eventMap :: eventMap[x]
    {
      eventMap := eventMap[a[i] := true];
    }
    assert a[..|a|] == a;
    for i := 0 to |b|
      invariant forall x | x in b[..i] :: x in a
    {
      if b[i] !in eventMap || !eventMap[b[i]] {
        assert b[i] in b && b[i] !in a;
        return false;
      }
    }
    assert b[..|b|] == b;
    return true;
  }

  lemma {:induction false} SetOfSize(xs: seq<string>)
    ensures |SetOf(xs)| <= |xs|
    ensures NoDuplicates(xs) <==> |SetOf(xs)| == |xs|
  {
    if xs == [] {
      assert SetOf(xs) == {};
    } else {
      var k := |xs| - 1;
      var front, last := xs[..k], xs[k];
      SetOfSize(front);
      assert SetOf(xs) == SetOf(front) + {last};
      assert NoDuplicates(xs) <==> NoDuplicates(front) && last !in front;
      assert last in front <==> last in SetOf(front);
    }
  }

  lemma {:induction false} OnceEach(xs: seq<string>, x: string)
    requires NoDuplicates(xs)
    ensures multiset(xs)[x] == if x in xs then 1 else 0
  {
    if xs == [] {
    } else {
      var k := |xs| - 1;
      OnceEach(xs[..k], x);
      assert xs == xs[..k] + [xs[k]];
    }
  }

  lemma SubsetOfSameSize(s: set<string>, t: set<string>)
    requires s <= t && |s| >= |t|
    ensures s == t
  {
    if s != t {
      var x :| x in t && x !in s;
      var rest := t - {x};
      SubsetSize(s, rest);
    }
  }

  lemma {:induction false} SubsetSize(s: set<string>, t: set<string>)
    requires s <= t
    ensures |s| <= |t|
  {
    if s == {} {
    } else {
      var x :| x in s;
      SubsetSize(s - {x}, t - {x});
    }
  }

  /**
     The pigeonhole: with no duplicates in `b`, covering it with as many elements leaves no room for
     anything else, so `a` is a permutation of `b`.
     */
  lemma MatchIsPermutation(a: seq<string>, b: seq<string>)
    ensures NoDuplicates(b) ==> (Covers(a, b) <==> multiset(a) == multiset(b))
  {
    if !NoDuplicates(b) {
    } else if Covers(a, b) {
      SetOfSize(a);
      SetOfSize(b);
      assert SetOf(b) <= SetOf(a);
      SubsetOfSameSize(SetOf(b), SetOf(a));
      assert NoDuplicates(a);
      forall x
        ensures multiset(a)[x] == multiset(b)[x]
      {
        OnceEach(a, x);
        OnceEach(b, x);
        assert x in a <==> x in SetOf(a);
        assert x in b <==> x in SetOf(b);
      }
    } else if multiset(a) == multiset(b) {
      SameLength(a, b);
      forall x | x in b
        ensures x in a
      {
        assert x in multiset(b);
      }
    }
  }

  lemma SameLength(a: seq<string>, b: seq<string>)
    requires multiset(a) == multiset(b)
    ensures |a| == |b|
  {
    assert |multiset(a)| == |a| && |multiset(b)| == |b|;
  }

  /** As long as all of these together, and a character more. */
  function Longer(xs: seq<string>): (f: string)
    ensures forall x | x in xs :: |x| < |f|
  {
    if xs == [] then "."
    else
      var rest := Longer(xs[1..]);
      assert forall x | x in xs :: x == xs[0] || x in xs[1..];
      xs[0] + rest
  }

  /** A repeated type can be traded for a new one: the result is covered and is no permutation. */
  lemma RepeatLetsInAnother(b: seq<string>, i: nat, j: nat)
    requires i < j < |b| && b[i] == b[j]
    ensures var a := b[j := Longer(b)];
            Covers(a, b) && multiset(a) != multiset(b)
  {
    var f := Longer(b);
    var a := b[j := f];
    forall x | x in b
      ensures x in a
    {
      var k :| 0 <= k < |b| && b[k] == x;
      assert a[if k == j then i else k] == x;
    }
    assert a[j] == f && f in multiset(a) && f !in multiset(b);
  }

  /**
   What the comparison decides is "a permutation of `b`" for every `a` exactly when `b` has no duplicates:
   with one, some list that is no permutation passes.
   */
  lemma DecidesPermutationExactlyWhen(b: seq<string>)
    ensures (forall a: seq<string> :: Covers(a, b) <==> multiset(a) == multiset(b)) <==> NoDuplicates(b)
  {
    if NoDuplicates(b) {
      forall a: seq<string>
        ensures Covers(a, b) <==> multiset(a) == multiset(b)
      {
        MatchIsPermutation(a, b);
      }
    } else {
      var i, j :| 0 <= i < j < |b| && b[i] == b[j];
      RepeatLetsInAnother(b, i, j);
    }
  }

  /**
   The order of the arguments matters exactly for lists of one length of which one has all the types of the
   other and more. So it does not on lists without duplicates.
   */
  lemma MatchIsSymmetric(a: seq<string>, b: seq<string>)
    ensures (Covers(a, b) <==> Covers(b, a)) <==>
            |a| != |b| || !(SetOf(a) < SetOf(b) || SetOf(b) < SetOf(a))
    ensures NoDuplicates(a) && NoDuplicates(b) ==> (Covers(a, b) <==> Covers(b, a))
  {
    CoversMeans(a, b);
    CoversMeans(b, a);
    MatchIsPermutation(a, b);
    MatchIsPermutation(b, a);
  }

  lemma CoversMeans(a: seq<string>, b: seq<string>)
    ensures Covers(a, b) <==> |a| == |b| && SetOf(b) <= SetOf(a)
  {
    assert forall x :: x in a <==> x in SetOf(a);
    assert forall x :: x in b <==> x in SetOf(b);
  }

  /** These lists match one way and not the other. */
  lemma DuplicatesBreakSymmetry()
    ensures Covers(["a", "b"], ["a", "a"]) && !Covers(["a", "a"], ["a", "b"])
    ensures multiset(["a", "b"]) != multiset(["a", "a"])
  {
    assert "b" in ["a", "b"] && "b" !in ["a", "a"];
    assert multiset(["a", "b"])["b"] == 1 && multiset(["a", "a"])["b"] == 0;
  }
}
