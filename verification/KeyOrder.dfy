/** The total order on record keys that the planner sorts by: kind first, then identity, by code point. */
module KeyOrder {
  import opened Prelude

  datatype Key = Key(kind: string, identity: string)

  predicate LexLess(a: string, b: string) {
    if b == "" then false
    else if a == "" then true
    else a[0] < b[0] || (a[0] == b[0] && LexLess(a[1..], b[1..]))
  }

  predicate Less(a: Key, b: Key) {
    LexLess(a.kind, b.kind) || (a.kind == b.kind && LexLess(a.identity, b.identity))
  }

  lemma {:induction false} LexTotal(a: string, b: string)
    ensures !(LexLess(a, b) && LexLess(b, a))
    ensures a == b || LexLess(a, b) || LexLess(b, a)
    ensures !LexLess(a, a)
  {
    if a != "" && b != "" {
      LexTotal(a[1..], b[1..]);
      LexTotal(a[1..], a[1..]);
      if a[0] == b[0] && a[1..] == b[1..] {
        assert a == [a[0]] + a[1..] && b == [b[0]] + b[1..];
      }
    } else if a != "" {
      LexTotal(a[1..], a[1..]);
    }
  }

  lemma {:induction false} LexTransitive(a: string, b: string, c: string)
    requires LexLess(a, b) && LexLess(b, c)
    ensures LexLess(a, c)
  {
    if a != "" && a[0] == b[0] && b[0] == c[0] {
      LexTransitive(a[1..], b[1..], c[1..]);
    }
  }

  lemma KeyTotal(a: Key, b: Key)
    ensures !(Less(a, b) && Less(b, a))
    ensures a == b || Less(a, b) || Less(b, a)
    ensures !Less(a, a)
  {
    LexTotal(a.kind, b.kind);
    LexTotal(a.identity, b.identity);
    LexTotal(a.kind, a.kind);
    LexTotal(a.identity, a.identity);
  }

  lemma KeyTransitive(a: Key, b: Key, c: Key)
    requires Less(a, b) && Less(b, c)
    ensures Less(a, c)
  {
    if LexLess(a.kind, b.kind) && LexLess(b.kind, c.kind) {
      LexTransitive(a.kind, b.kind, c.kind);
    } else if a.kind == b.kind == c.kind {
      LexTransitive(a.identity, b.identity, c.identity);
    }
  }

  /** The texts agree up to this place, where the first ends or has the smaller character. */
  ghost predicate PartsAt(a: string, b: string, i: nat) {
    i <= |a| && i < |b| && a[..i] == b[..i] && (i == |a| || a[i] < b[i])
  }

  /** Alphabetical order by code point: the first difference decides, and a proper beginning comes first. */
  lemma {:induction false} LexLessSays(a: string, b: string)
    ensures LexLess(a, b) <==> exists i: nat :: PartsAt(a, b, i)
  {
    if b != "" && a != "" && a[0] == b[0] {
      LexLessSays(a[1..], b[1..]);
      if i: nat :| PartsAt(a[1..], b[1..], i) {
        var next := i + 1;
        assert a[..next] == [a[0]] + a[1..][..i] && b[..next] == [b[0]] + b[1..][..i];
        assert PartsAt(a, b, next);
      }
      if i: nat :| PartsAt(a, b, i) {
        assert i > 0;
        assert a[1..][..i - 1] == a[..i][1..] && b[1..][..i - 1] == b[..i][1..];
        assert PartsAt(a[1..], b[1..], i - 1);
      }
    } else {
      if LexLess(a, b) {
        assert PartsAt(a, b, 0);
      }
      if i: nat :| PartsAt(a, b, i) {
        assert i > 0 ==> a[..i][0] == b[..i][0];
      }
    }
  }

  /** Keys stand by kind, and within a kind by identity. */
  lemma LessSays(a: Key, b: Key)
    ensures Less(a, b) <==>
              (exists i: nat :: PartsAt(a.kind, b.kind, i)) || (a.kind == b.kind && exists i: nat :: PartsAt(a.identity, b.identity, i))
  {
    LexLessSays(a.kind, b.kind);
    LexLessSays(a.identity, b.identity);
  }

  predicate IsLeast(k: Key, s: set<Key>) {
    k in s && forall o :: o in s && o != k ==> Less(k, o)
  }

  lemma {:induction false} LeastExists(s: set<Key>)
    requires s != {}
    ensures exists k :: IsLeast(k, s)
    decreases |s|
  {
    var x :| x in s;
    var rest := s - {x};
    assert s == rest + {x};
    if rest == {} {
      assert IsLeast(x, s);
    } else {
      LeastExists(rest);
      var m :| IsLeast(m, rest);
      KeyTotal(x, m);
      if Less(x, m) {
        forall o | o in s && o != x
          ensures Less(x, o)
        {
          if o != m {
            KeyTransitive(x, m, o);
          }
        }
        assert IsLeast(x, s);
      } else {
        assert IsLeast(m, s);
      }
    }
  }

  ghost predicate StrictlySorted(keys: seq<Key>) {
    forall i, j :: 0 <= i < j < |keys| ==> Less(keys[i], keys[j])
  }

  lemma LeastAgree(s: set<Key>)
    ensures forall x, y :: IsLeast(x, s) && IsLeast(y, s) ==> x == y
  {
    forall x, y | IsLeast(x, s) && IsLeast(y, s)
      ensures x == y
    {
      KeyTotal(x, y);
    }
  }

  /** The members of a set in ascending order. */
  function SortedKeys(s: set<Key>): (keys: seq<Key>)
    ensures |keys| == |s|
    ensures forall k :: k in keys <==> k in s
    ensures StrictlySorted(keys)
    decreases |s|
  {
    if s == {} then []
    else
      LeastExists(s);
      LeastAgree(s);
      var least :| least in s && IsLeast(least, s);
      [least] + SortedKeys(s - {least})
  }

  lemma HeadIsLeast(keys: seq<Key>)
    requires StrictlySorted(keys) && keys != []
    ensures IsLeast(keys[0], Elements(keys))
    ensures forall k :: k in keys[1..] <==> k in keys && k != keys[0]
  {
    KeyTotal(keys[0], keys[0]);
    assert keys == [keys[0]] + keys[1..];
    forall k | k in keys[1..]
      ensures Less(keys[0], k)
    {
      var i :| 0 <= i < |keys[1..]| && keys[1..][i] == k;
      assert Less(keys[0], keys[i + 1]);
    }
  }

  lemma LeastUnique(x: Key, y: Key, s: set<Key>)
    requires IsLeast(x, s) && IsLeast(y, s)
    ensures x == y
  {
    KeyTotal(x, y);
  }

  /** Only one sequence lists a set in ascending order, so sorting leaves the order no freedom. */
  lemma {:induction false} SortedUnique(a: seq<Key>, b: seq<Key>)
    requires StrictlySorted(a) && StrictlySorted(b)
    requires forall k :: k in a <==> k in b
    ensures a == b
  {
    assert a != [] ==> a[0] in a;
    assert b != [] ==> b[0] in b;
    if a != [] && b != [] {
      HeadIsLeast(a);
      HeadIsLeast(b);
      assert Elements(a) == Elements(b);
      LeastUnique(a[0], b[0], Elements(a));
      SortedUnique(a[1..], b[1..]);
      assert a == [a[0]] + a[1..] && b == [b[0]] + b[1..];
    }
  }

  /** Insertion sort of the members of a set. */
  method SortKeys(s: set<Key>) returns (keys: seq<Key>)
    ensures keys == SortedKeys(s)
  {
    keys := [];
    var rest := s;
    while rest != {}
      invariant rest <= s
      invariant StrictlySorted(keys)
      invariant forall k :: k in keys <==> k in s - rest
      decreases |rest|
    {
      var k :| k in rest;
      var i := 0;
      while i < |keys| && Less(keys[i], k)
        invariant 0 <= i <= |keys|
        invariant forall j :: 0 <= j < i ==> Less(keys[j], k)
      {
        i := i + 1;
      }
      forall j | i <= j < |keys|
        ensures Less(k, keys[j])
      {
        KeyTotal(k, keys[i]);
        assert keys[i] != k by { assert keys[i] in keys; }
        if i < j {
          KeyTransitive(k, keys[i], keys[j]);
        }
      }
      ghost var before := keys;
      keys := keys[..i] + [k] + keys[i..];
      forall o
        ensures o in keys <==> o in before || o == k
      {
        assert before == before[..i] + before[i..];
      }
      rest := rest - {k};
    }
    SortedUnique(keys, SortedKeys(s));
  }
}
