/** Sequences without repeats and the sets of their elements. */
module Sequences {
  function Least(a: nat, b: nat): nat { if a < b then a else b }

  predicate NoRepeats<T(==)>(s: seq<T>) {
    forall i, j :: 0 <= i < j < |s| ==> s[i] != s[j]
  }

  function Elements<T(==)>(s: seq<T>): set<T> {
    set i | 0 <= i < |s| :: s[i]
  }

  lemma ElementsConcat<T>(a: seq<T>, b: seq<T>)
    ensures Elements(a + b) == Elements(a) + Elements(b)
  {
    forall x | x in Elements(a) ensures x in Elements(a + b) {
      var j :| 0 <= j < |a| && a[j] == x;
      assert (a + b)[j] == x;
    }
    forall x | x in Elements(b) ensures x in Elements(a + b) {
      var j :| 0 <= j < |b| && b[j] == x;
      assert (a + b)[|a| + j] == x;
    }
  }

  lemma ElementsCons<T>(s: seq<T>)
    requires s != []
    ensures Elements(s) == {s[0]} + Elements(s[1..])
  {
    ElementsConcat([s[0]], s[1..]);
    assert [s[0]] + s[1..] == s;
    assert Elements([s[0]]) == {s[0]};
  }

  lemma {:induction false} CountElements<T>(s: seq<T>)
    requires NoRepeats(s)
    ensures |Elements(s)| == |s|
  {
    if s != [] {
      var rest := s[1..];
      assert forall i :: 0 <= i < |rest| ==> rest[i] == s[i + 1];
      CountElements(rest);
      ElementsCons(s);
      assert s[0] !in Elements(rest);
    }
  }
}
