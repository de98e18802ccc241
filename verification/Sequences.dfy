/** Sequence facts the solver is slow to find. */
module Sequences {
  lemma Assoc<T>(a: seq<T>, b: seq<T>, c: seq<T>)
    ensures (a + b) + c == a + (b + c)
  {}

  lemma Window<T>(s: seq<T>, x: seq<T>, y: seq<T>, end: nat)
    requires end <= |s| && s[..end] == x + y
    ensures |x| + |y| == end && s[|x|..end] == y
  {
    assert s[|x|..end] == s[..end][|x|..];
  }

  ghost predicate Distinct<T>(s: seq<T>) {
    forall i, j :: 0 <= i < j < |s| ==> s[i] != s[j]
  }

  /** A list without repetition is as long as the set it lists. */
  lemma {:induction false} CountDistinct<T>(s: seq<T>, got: set<T>)
    requires Distinct(s) && forall c :: c in got <==> c in s
    ensures |got| == |s|
  {
    if s == [] {
      assert got == {};
    } else {
      var n := |s| - 1;
      assert s == s[..n] + [s[n]];
      CountDistinct(s[..n], got - {s[n]});
    }
  }
}
