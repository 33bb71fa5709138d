/** Shared vocabulary: optional values, results, JSON values and small facts about sequences. */
module Prelude {

  datatype Option<+T> = None | Some(value: T)

  datatype Result<+T, +E> = Ok(value: T) | Err(error: E)

  /** A decoded JSON value; the order of an object's members does not count. */
  datatype Json =
    | Null
    | Bool(flag: bool)
    | Number(number: int)
    | Text(text: string)
    | List(items: seq<Json>)
    | Object(members: map<string, Json>)

  ghost predicate Distinct<T>(s: seq<T>) {
    forall i, j :: 0 <= i < j < |s| ==> s[i] != s[j]
  }

  function Elements<T>(s: seq<T>): set<T> {
    set x | x in s
  }

  lemma DistinctCardinality<T>(s: seq<T>)
    ensures |Elements(s)| <= |s|
    ensures |Elements(s)| == |s| <==> Distinct(s)
  {
    if s == [] {
    } else {
      var n := |s| - 1;
      var init, last := s[..n], s[n];
      DistinctCardinality(init);
      assert s == init + [last];
      assert Elements(s) == Elements(init) + {last};
      if last in init {
        assert Elements(s) == Elements(init);
        var i :| 0 <= i < n && init[i] == last;
        assert s[i] == s[n];
      } else if Distinct(s) {
        assert forall i, j :: 0 <= i < j < n ==> init[i] == s[i] && init[j] == s[j];
      }
    }
  }

  lemma SubsetCardinality<T>(a: set<T>, b: set<T>)
    requires a <= b
    ensures |a| <= |b|
    ensures a != b ==> |a| < |b|
  {
    assert b == a + (b - a);
    assert |b| == |a| + |b - a|;
  }

  /** A sequence is what comes before its last element, and that. */
  lemma EndsWithLast<T>(s: seq<T>)
    requires s != []
    ensures s == s[..|s| - 1] + [s[|s| - 1]]
  {
  }

  /** Opening one more member leaves fewer closed. */
  lemma OpenShrinks<T>(all: set<T>, open: set<T>, x: T)
    requires x in all && x !in open
    ensures |all - (open + {x})| < |all - open|
  {
    SubsetCardinality(all - (open + {x}), all - open);
  }

  /** Sequences with the same elements and multiplicities have the same element sets. */
  lemma SameMultisetSameElements<T>(a: seq<T>, b: seq<T>)
    requires multiset(a) == multiset(b)
    ensures |a| == |b|
    ensures forall x :: x in a <==> x in b
  {
    assert |a| == |multiset(a)| == |multiset(b)| == |b|;
    forall x
      ensures x in a <==> x in b
    {
      assert x in a <==> x in multiset(a);
      assert x in b <==> x in multiset(b);
    }
  }

  function Mapped<A, B>(f: A -> B, s: seq<A>): (r: seq<B>)
    ensures |r| == |s| && forall i :: 0 <= i < |s| ==> r[i] == f(s[i])
  {
    seq(|s|, i requires 0 <= i < |s| => f(s[i]))
  }

  lemma RemoveOne<T>(a: seq<T>, b: seq<T>, j: nat)
    requires |a| > 0 && multiset(a) == multiset(b)
    requires j < |b| && b[j] == a[|a| - 1]
    ensures multiset(a[..|a| - 1]) == multiset(b[..j] + b[j + 1..])
  {
    var n := |a| - 1;
    assert a == a[..n] + [a[n]];
    assert b == b[..j] + [b[j]] + b[j + 1..];
    assert multiset(a[..n]) == multiset(a) - multiset{a[n]};
    assert multiset(b[..j] + b[j + 1..]) == multiset(b) - multiset{b[j]};
  }

  /** Applying a function to a permutation gives a permutation of the results. */
  lemma {:induction false} MappedPermuted<A, B>(f: A -> B, a: seq<A>, b: seq<A>)
    requires multiset(a) == multiset(b)
    ensures multiset(Mapped(f, a)) == multiset(Mapped(f, b))
    decreases |a|
  {
    SameMultisetSameElements(a, b);
    if a != [] {
      var n := |a| - 1;
      assert a[n] in b;
      var j :| 0 <= j < |b| && b[j] == a[n];
      RemoveOne(a, b, j);
      MappedPermuted(f, a[..n], b[..j] + b[j + 1..]);
      MappedInserted(f, a[..n], [], a[n]);
      MappedInserted(f, b[..j], b[j + 1..], b[j]);
      assert a == a[..n] + [a[n]] + [];
      assert a[..n] + [] == a[..n];
      assert b == b[..j] + [b[j]] + b[j + 1..];
    }
  }

  lemma MappedInserted<A, B>(f: A -> B, before: seq<A>, after: seq<A>, x: A)
    ensures multiset(Mapped(f, before + [x] + after)) == multiset(Mapped(f, before + after)) + multiset{f(x)}
  {
    assert Mapped(f, before + [x] + after) == Mapped(f, before) + [f(x)] + Mapped(f, after);
    assert Mapped(f, before + after) == Mapped(f, before) + Mapped(f, after);
  }

  /** The first stands somewhere before the second. */
  ghost predicate InTurn<T>(s: seq<T>, first: T, second: T) {
    exists i, j :: 0 <= i < j < |s| && s[i] == first && s[j] == second
  }

  lemma TurnStays<T>(s: seq<T>, more: seq<T>, first: T, second: T)
    requires InTurn(s, first, second)
    ensures InTurn(s + more, first, second)
  {
    var i, j :| 0 <= i < j < |s| && s[i] == first && s[j] == second;
    assert (s + more)[i] == first && (s + more)[j] == second;
  }

  lemma TurnEnds<T>(s: seq<T>, first: T, second: T)
    requires first in s
    ensures InTurn(s + [second], first, second)
  {
    var i :| 0 <= i < |s| && s[i] == first;
    assert (s + [second])[i] == first && (s + [second])[|s|] == second;
  }
}
