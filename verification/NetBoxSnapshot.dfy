/**
 * NetBox as it is loaded: a list of objects, which may hold several of one identity. The digest of a snapshot
 * reads it in the order of identities; the writer keeps the last object of each.
 */
module NetBoxSnapshot {
  import opened Prelude
  import opened KeyOrder
  import opened ApplicationPlanning
  import opened RecordWrites

  function Fields(relationships: seq<Relationship>): map<string, Json> {
    if relationships == [] then map[]
    else
      var last := relationships[|relationships| - 1];
      Fields(relationships[..|relationships| - 1])[last.name := last.value]
  }

  predicate SamePayload(a: Record, b: Record) {
    a.attributes == b.attributes && Fields(a.relationships) == Fields(b.relationships)
  }

  function KeyOf(t: Target): Key {
    t.content.RecordKey()
  }

  /** The last object of each identity. */
  function Keyed(targets: seq<Target>): (netBox: map<Key, Target>)
    ensures forall k :: k in netBox ==> KeyOf(netBox[k]) == k
  {
    if targets == [] then map[] else map[KeyOf(targets[0]) := targets[0]] + Keyed(targets[1..])
  }

  /** NetBox as whoever looks objects up by identity sees it. */
  function ByIdentity(targets: seq<Target>): map<Key, Target> {
    Keyed(targets)
  }

  function KeysIn(targets: seq<Target>): (keys: seq<Key>)
    ensures |keys| == |targets| && forall i :: 0 <= i < |targets| ==> keys[i] == KeyOf(targets[i])
  {
    seq(|targets|, i requires 0 <= i < |targets| => KeyOf(targets[i]))
  }

  /** No two objects have one identity. */
  ghost predicate OneEach(targets: seq<Target>) {
    Distinct(KeysIn(targets))
  }

  predicate SameObject(a: Target, b: Target) {
    KeyOf(a) == KeyOf(b) && a.reference == b.reference && SamePayload(a.content, b.content)
  }

  function InsertTarget(t: Target, sorted: seq<Target>): seq<Target> {
    if sorted == [] then [t]
    else if Less(KeyOf(sorted[0]), KeyOf(t)) then [sorted[0]] + InsertTarget(t, sorted[1..])
    else [t] + sorted
  }

  /** A stable sort by identity. */
  function SortTargets(targets: seq<Target>): seq<Target> {
    if targets == [] then [] else InsertTarget(targets[0], SortTargets(targets[1..]))
  }

  predicate SameEach(a: seq<Target>, b: seq<Target>) {
    |a| == |b| && forall i :: 0 <= i < |a| ==> SameObject(a[i], b[i])
  }

  /** Two snapshots have one digest: the same objects with the same content, in the order of their identities. */
  predicate SameDigest(a: seq<Target>, b: seq<Target>) {
    SameEach(SortTargets(a), SortTargets(b))
  }

  /** The same by identity. */
  ghost predicate SameNetBox(a: map<Key, Target>, b: map<Key, Target>) {
    a.Keys == b.Keys && forall k :: k in a ==> SameObject(a[k], b[k])
  }

  lemma Swapped<K, V>(a: K, x: V, b: K, y: V, m: map<K, V>)
    requires a != b
    ensures map[a := x] + (map[b := y] + m) == map[b := y] + (map[a := x] + m)
  {
  }

  lemma {:induction false} KeyedInsert(t: Target, sorted: seq<Target>)
    ensures Keyed(InsertTarget(t, sorted)) == map[KeyOf(t) := t] + Keyed(sorted)
  {
    if sorted != [] && Less(KeyOf(sorted[0]), KeyOf(t)) {
      KeyTotal(KeyOf(sorted[0]), KeyOf(t));
      KeyTotal(KeyOf(t), KeyOf(t));
      KeyedInsert(t, sorted[1..]);
      var rest := InsertTarget(t, sorted[1..]);
      assert ([sorted[0]] + rest)[1..] == rest;
      Swapped(KeyOf(sorted[0]), sorted[0], KeyOf(t), t, Keyed(sorted[1..]));
    } else {
      assert ([t] + sorted)[1..] == sorted;
    }
  }

  /** Sorting keeps the last object of each identity last. */
  lemma {:induction false} KeyedSorted(targets: seq<Target>)
    ensures Keyed(SortTargets(targets)) == Keyed(targets)
  {
    if targets != [] {
      KeyedSorted(targets[1..]);
      KeyedInsert(targets[0], SortTargets(targets[1..]));
    }
  }

  lemma {:induction false} KeyedAlike(a: seq<Target>, b: seq<Target>)
    requires SameEach(a, b)
    ensures SameNetBox(Keyed(a), Keyed(b))
  {
    if a != [] {
      assert SameObject(a[0], b[0]);
      forall i | 0 <= i < |a[1..]|
        ensures SameObject(a[1..][i], b[1..][i])
      {
        assert SameObject(a[i + 1], b[i + 1]);
      }
      KeyedAlike(a[1..], b[1..]);
    }
  }

  /** Snapshots of one digest are the same to whoever looks objects up by identity. */
  lemma DigestDecides(a: seq<Target>, b: seq<Target>)
    requires SameDigest(a, b)
    ensures SameNetBox(ByIdentity(a), ByIdentity(b))
  {
    KeyedAlike(SortTargets(a), SortTargets(b));
    KeyedSorted(a);
    KeyedSorted(b);
  }

  lemma {:induction false} KeyedAppend(targets: seq<Target>, t: Target)
    ensures Keyed(targets + [t]) == Keyed(targets)[KeyOf(t) := t]
  {
    if targets == [] {
      assert [t][1..] == [];
    } else {
      assert (targets + [t])[1..] == targets[1..] + [t];
      KeyedAppend(targets[1..], t);
    }
  }

  /** Fills a store that refuses a second object of an identity. */
  method FillStore(targets: seq<Target>) returns (filled: bool)
    ensures filled <==> OneEach(targets)
  {
    var stored: set<Key> := {};
    for i := 0 to |targets|
      invariant stored == Elements(KeysIn(targets[..i]))
      invariant OneEach(targets[..i])
    {
      StoreGrows(targets, i);
      if KeyOf(targets[i]) in stored {
        return false;
      }
      stored := stored + {KeyOf(targets[i])};
    }
    assert targets[..|targets|] == targets;
    return true;
  }

  lemma StoreGrows(targets: seq<Target>, i: nat)
    requires i < |targets| && OneEach(targets[..i])
    ensures var next, k := i + 1, KeyOf(targets[i]);
            && Elements(KeysIn(targets[..next])) == Elements(KeysIn(targets[..i])) + {k}
            && (OneEach(targets[..next]) <==> k !in Elements(KeysIn(targets[..i])))
            && (k in Elements(KeysIn(targets[..i])) ==> !OneEach(targets))
  {
    var next, k, keys := i + 1, KeyOf(targets[i]), KeysIn(targets);
    assert KeysIn(targets[..next]) == keys[..i] + [k] && KeysIn(targets[..i]) == keys[..i];
    if k in keys[..i] {
      var j :| 0 <= j < i && keys[..i][j] == k;
      assert keys[j] == keys[i] && KeysIn(targets[..next])[j] == KeysIn(targets[..next])[i];
    }
  }

  // ---- What a digest sees ---------------------------------------------------------------------

  /** The objects of an identity, in the order in which they were loaded. */
  function Under(targets: seq<Target>, key: Key): (under: seq<Target>)
    ensures forall t :: t in under <==> t in targets && t.content.kind == key.kind && t.content.identity == key.identity
  {
    if targets == [] then [] else (if KeyOf(targets[0]) == key then [targets[0]] else []) + Under(targets[1..], key)
  }

  /** The same objects stand under an identity in both, in the same order, with the same attributes and relationships. */
  ghost predicate SameUnder(a: seq<Target>, b: seq<Target>, key: Key) {
    SameContents(Under(a, key), Under(b, key))
  }

  ghost predicate SameContents(ours: seq<Target>, theirs: seq<Target>) {
    |ours| == |theirs| && forall i :: 0 <= i < |ours| ==> SameContent(ours[i], theirs[i])
  }

  predicate SameContent(a: Target, b: Target) {
    && a.reference == b.reference && a.content.attributes == b.content.attributes
    && Fields(a.content.relationships) == Fields(b.content.relationships)
  }

  ghost predicate Ascending(targets: seq<Target>) {
    forall i, j :: 0 <= i < j < |targets| ==> !Less(KeyOf(targets[j]), KeyOf(targets[i]))
  }

  lemma UnderHead(t: Target, rest: seq<Target>, key: Key)
    ensures Under([t] + rest, key) == if KeyOf(t) == key then [t] + Under(rest, key) else Under(rest, key)
  {
    assert ([t] + rest)[1..] == rest;
    assert [] + Under(rest, key) == Under(rest, key);
  }

  lemma {:induction false} UnderInsert(t: Target, sorted: seq<Target>, key: Key)
    ensures Under(InsertTarget(t, sorted), key) == if KeyOf(t) == key then [t] + Under(sorted, key) else Under(sorted, key)
  {
    if sorted == [] || !Less(KeyOf(sorted[0]), KeyOf(t)) {
      assert InsertTarget(t, sorted) == [t] + sorted;
      UnderHead(t, sorted, key);
    } else {
      var head, tail := sorted[0], sorted[1..];
      assert sorted == [head] + tail;
      UnderInsert(t, tail, key);
      UnderHead(head, InsertTarget(t, tail), key);
      UnderHead(head, tail, key);
      KeyTotal(KeyOf(t), KeyOf(t));
    }
  }

  lemma {:induction false} UnderSorted(targets: seq<Target>, key: Key)
    ensures Under(SortTargets(targets), key) == Under(targets, key)
  {
    if targets != [] {
      UnderSorted(targets[1..], key);
      UnderInsert(targets[0], SortTargets(targets[1..]), key);
      assert targets == [targets[0]] + targets[1..];
      UnderHead(targets[0], targets[1..], key);
    }
  }

  lemma {:induction false} InsertMembers(t: Target, sorted: seq<Target>)
    ensures forall x :: x in InsertTarget(t, sorted) <==> x == t || x in sorted
  {
    if sorted != [] && Less(KeyOf(sorted[0]), KeyOf(t)) {
      InsertMembers(t, sorted[1..]);
      assert sorted == [sorted[0]] + sorted[1..];
    }
  }

  lemma AscendingInFront(t: Target, rest: seq<Target>)
    requires Ascending(rest) && forall x :: x in rest ==> !Less(KeyOf(x), KeyOf(t))
    ensures Ascending([t] + rest)
  {
    var all := [t] + rest;
    forall i, j | 0 <= i < j < |all|
      ensures !Less(KeyOf(all[j]), KeyOf(all[i]))
    {
      assert all[j] == rest[j - 1] && rest[j - 1] in rest;
      assert i > 0 ==> all[i] == rest[i - 1];
    }
  }

  /** What stands in front of an ascending list is not above anything that is not below its head. */
  lemma NotBelow(t: Target, sorted: seq<Target>, x: Target)
    requires Ascending(sorted) && sorted != [] && !Less(KeyOf(sorted[0]), KeyOf(t)) && x in sorted
    ensures !Less(KeyOf(x), KeyOf(t))
  {
    var i :| 0 <= i < |sorted| && sorted[i] == x;
    if Less(KeyOf(x), KeyOf(t)) && i > 0 {
      assert !Less(KeyOf(x), KeyOf(sorted[0]));
      KeyTotal(KeyOf(x), KeyOf(sorted[0]));
      if Less(KeyOf(sorted[0]), KeyOf(x)) {
        KeyTransitive(KeyOf(sorted[0]), KeyOf(x), KeyOf(t));
      }
    }
  }

  lemma {:induction false} InsertAscending(t: Target, sorted: seq<Target>)
    requires Ascending(sorted)
    ensures Ascending(InsertTarget(t, sorted))
  {
    if sorted != [] && Less(KeyOf(sorted[0]), KeyOf(t)) {
      var head, tail := sorted[0], sorted[1..];
      InsertAscending(t, tail);
      InsertMembers(t, tail);
      KeyTotal(KeyOf(head), KeyOf(t));
      forall x | x in InsertTarget(t, tail)
        ensures !Less(KeyOf(x), KeyOf(head))
      {
        if x in tail {
          var i :| 0 <= i < |tail| && tail[i] == x;
          assert sorted[i + 1] == x;
        }
      }
      AscendingInFront(head, InsertTarget(t, tail));
    } else {
      forall x | x in sorted
        ensures !Less(KeyOf(x), KeyOf(t))
      {
        NotBelow(t, sorted, x);
      }
      AscendingInFront(t, sorted);
    }
  }

  lemma {:induction false} SortAscending(targets: seq<Target>)
    ensures Ascending(SortTargets(targets))
  {
    if targets != [] {
      SortAscending(targets[1..]);
      InsertAscending(targets[0], SortTargets(targets[1..]));
    }
  }

  lemma {:induction false} EachUnder(a: seq<Target>, b: seq<Target>, key: Key)
    requires SameEach(a, b)
    ensures SameUnder(a, b, key)
  {
    if a != [] {
      assert SameObject(a[0], b[0]);
      EachTail(a, b);
      EachUnder(a[1..], b[1..], key);
    }
  }

  lemma EachTail(a: seq<Target>, b: seq<Target>)
    requires SameEach(a, b) && a != []
    ensures SameEach(a[1..], b[1..])
  {
    forall i | 0 <= i < |a[1..]|
      ensures SameObject(a[1..][i], b[1..][i])
    {
      assert SameObject(a[i + 1], b[i + 1]);
    }
  }

  /** The first of an ascending list is not above any other. */
  lemma HeadLeast(sorted: seq<Target>, t: Target)
    requires Ascending(sorted) && t in sorted
    ensures !Less(KeyOf(t), KeyOf(sorted[0]))
  {
    KeyTotal(KeyOf(t), KeyOf(t));
    var i :| 0 <= i < |sorted| && sorted[i] == t;
  }

  lemma SameHead(a: seq<Target>, b: seq<Target>)
    requires Ascending(a) && Ascending(b) && a != [] && forall key :: SameUnder(a, b, key)
    ensures b != [] && SameObject(a[0], b[0])
  {
    var k := KeyOf(a[0]);
    assert a[0] in Under(a, k) && SameUnder(a, b, k);
    assert Under(b, k)[0] in Under(b, k);
    HeadLeast(b, Under(b, k)[0]);
    var other := KeyOf(b[0]);
    assert b[0] in Under(b, other) && SameUnder(a, b, other);
    assert Under(a, other)[0] in Under(a, other);
    HeadLeast(a, Under(a, other)[0]);
    KeyTotal(k, other);
    assert Under(a, k)[0] == a[0] && Under(b, k)[0] == b[0];
  }

  lemma SameTails(x: Target, ours: seq<Target>, y: Target, theirs: seq<Target>, key: Key)
    requires KeyOf(x) == KeyOf(y) && SameUnder([x] + ours, [y] + theirs, key)
    ensures SameUnder(ours, theirs, key)
  {
    UnderHead(x, ours, key);
    UnderHead(y, theirs, key);
    if KeyOf(x) == key {
      ContentsTail(x, Under(ours, key), y, Under(theirs, key));
    }
  }

  lemma ContentsTail(x: Target, ours: seq<Target>, y: Target, theirs: seq<Target>)
    requires SameContents([x] + ours, [y] + theirs)
    ensures SameContents(ours, theirs)
  {
    forall i | 0 <= i < |ours|
      ensures SameContent(ours[i], theirs[i])
    {
      assert SameContent(([x] + ours)[i + 1], ([y] + theirs)[i + 1]);
    }
  }

  lemma NothingUnder(targets: seq<Target>)
    ensures targets == [] <==> forall key :: Under(targets, key) == []
  {
    if targets != [] {
      assert targets[0] in Under(targets, KeyOf(targets[0]));
    }
  }

  lemma {:induction false} UnderEach(a: seq<Target>, b: seq<Target>)
    requires Ascending(a) && Ascending(b) && forall key :: SameUnder(a, b, key)
    ensures SameEach(a, b)
  {
    if a == [] {
      assert forall key :: SameUnder(a, b, key) ==> Under(b, key) == [];
      NothingUnder(b);
    } else {
      SameHead(a, b);
      assert a == [a[0]] + a[1..] && b == [b[0]] + b[1..];
      forall key
        ensures SameUnder(a[1..], b[1..], key)
      {
        SameTails(a[0], a[1..], b[0], b[1..], key);
      }
      UnderEach(a[1..], b[1..]);
      forall i | 0 <= i < |a|
        ensures SameObject(a[i], b[i])
      {
        assert i > 0 ==> SameObject(a[1..][i - 1], b[1..][i - 1]);
      }
    }
  }

  /** Two snapshots have one digest exactly if under every identity they hold the same objects in the same order. */
  lemma DigestExactly(a: seq<Target>, b: seq<Target>)
    ensures SameDigest(a, b) <==> forall key :: SameUnder(a, b, key)
  {
    var ours, theirs := SortTargets(a), SortTargets(b);
    forall key
      ensures SameUnder(ours, theirs, key) <==> SameUnder(a, b, key)
    {
      UnderSorted(a, key);
      UnderSorted(b, key);
    }
    SortAscending(a);
    SortAscending(b);
    if SameDigest(a, b) {
      forall key
        ensures SameUnder(a, b, key)
      {
        EachUnder(ours, theirs, key);
      }
    }
    if forall key :: SameUnder(a, b, key) {
      forall key
        ensures SameUnder(ours, theirs, key)
      {
        assert SameUnder(a, b, key);
      }
      UnderEach(ours, theirs);
    }
  }
}
