/**
 * What identities, records and rejections are, told from the observations of a run alone: the last normalised value
 * at each path, and for each relationship the identities of exactly the targets linked under its name.
 */
module ObservedRecords {
  import opened Prelude
  import opened KeyOrder
  import opened IdentityResolution
  import opened SourceRecords
  import CanonicalDiff

  // ---- Attributes -----------------------------------------------------------------------------

  /** The observation's last value at a path, normalised. */
  ghost predicate GivesAt(rules: Rules, attributes: seq<(string, Json)>, path: string, value: Json) {
    exists i :: GivesLast(rules, attributes, i, path, value)
  }

  ghost predicate GivesLast(rules: Rules, attributes: seq<(string, Json)>, i: int, path: string, value: Json) {
    && 0 <= i < |attributes| && attributes[i].0 == path && rules.normalize(path, attributes[i].1) == Some(value)
    && forall j :: i < j < |attributes| ==> attributes[j].0 != path
  }

  ghost predicate AllNormalize(rules: Rules, attributes: seq<(string, Json)>) {
    forall i :: 0 <= i < |attributes| ==> rules.normalize(attributes[i].0, attributes[i].1).Some?
  }

  ghost predicate AttributesAre(rules: Rules, attributes: seq<(string, Json)>, m: map<string, Json>) {
    && AllNormalize(rules, attributes)
    && forall path, value :: path in m && m[path] == value <==> GivesAt(rules, attributes, path, value)
  }

  lemma GivesStep(rules: Rules, before: seq<(string, Json)>, last: (string, Json), path: string, value: Json)
    ensures GivesAt(rules, before + [last], path, value) <==>
              if last.0 == path then rules.normalize(path, last.1) == Some(value) else GivesAt(rules, before, path, value)
  {
    var all, n := before + [last], |before|;
    if last.0 == path {
      if i :| GivesLast(rules, all, i, path, value) {
        assert !(i < n) by {
          assert all[n].0 == path;
        }
      }
      if rules.normalize(path, last.1) == Some(value) {
        assert GivesLast(rules, all, n, path, value);
      }
    } else {
      if i :| GivesLast(rules, all, i, path, value) {
        assert GivesLast(rules, before, i, path, value) by {
          assert forall j :: i < j < n ==> before[j] == all[j];
        }
      }
      if i :| GivesLast(rules, before, i, path, value) {
        assert GivesLast(rules, all, i, path, value);
      }
    }
  }

  /** Normalising reads the last value at each path, and fails on any value that does not normalise. */
  lemma {:induction false} NormalizedGives(rules: Rules, attributes: seq<(string, Json)>)
    ensures Normalized(rules, attributes).Some? <==> AllNormalize(rules, attributes)
    ensures Normalized(rules, attributes).Some? ==> AttributesAre(rules, attributes, Normalized(rules, attributes).value)
  {
    if attributes != [] {
      var n := |attributes| - 1;
      var before, last := attributes[..n], attributes[n];
      assert attributes == before + [last];
      NormalizedGives(rules, before);
      if AllNormalize(rules, attributes) {
        assert AllNormalize(rules, before) by {
          assert forall i :: 0 <= i < n ==> before[i] == attributes[i];
        }
      }
      if Normalized(rules, attributes).Some? {
        var m := Normalized(rules, attributes).value;
        forall path, value
          ensures path in m && m[path] == value <==> GivesAt(rules, attributes, path, value)
        {
          GivesStep(rules, before, last, path, value);
        }
      }
    }
  }

  /** The values given at the paths decide the attributes. */
  lemma AttributesUnique(rules: Rules, attributes: seq<(string, Json)>, a: map<string, Json>, b: map<string, Json>)
    requires AttributesAre(rules, attributes, a) && AttributesAre(rules, attributes, b)
    ensures a == b
  {
    forall path
      ensures path in a <==> path in b
      ensures path in a ==> a[path] == b[path]
    {
      if path in a {
        assert GivesAt(rules, attributes, path, a[path]);
      }
      if path in b {
        assert GivesAt(rules, attributes, path, b[path]);
      }
    }
  }

  // ---- Relationships --------------------------------------------------------------------------

  /** The targets linked under a name, in order. */
  function Targets(links: seq<Link>, name: string): seq<string> {
    if links == [] then []
    else
      var n := |links| - 1;
      Targets(links[..n], name) + (if links[n].name == name then [links[n].target] else [])
  }

  /** The texts are the identities of these targets. */
  ghost predicate IdentitiesOf(w: World, targets: seq<string>, texts: seq<string>) {
    |texts| == |targets| && forall i :: 0 <= i < |texts| ==> HasKey(w, targets[i], texts[i])
  }

  lemma IdentitiesUnique(w: World, targets: seq<string>, a: seq<string>, b: seq<string>)
    requires IdentitiesOf(w, targets, a) && IdentitiesOf(w, targets, b)
    ensures a == b
  {
    forall i | 0 <= i < |a|
      ensures a[i] == b[i]
    {
      KeyUnique(w, targets[i], a[i], b[i]);
    }
  }

  ghost predicate Ascends(sorted: seq<string>) {
    forall i, j :: 0 <= i < j < |sorted| ==> !LexLess(sorted[j], sorted[i])
  }

  /** The same texts in ascending order. */
  ghost predicate Lists(sorted: seq<string>, texts: seq<string>) {
    multiset(sorted) == multiset(texts) && Ascends(sorted)
  }

  ghost predicate NoneLess(texts: seq<string>, text: string) {
    forall t :: t in texts ==> !LexLess(t, text)
  }

  lemma AscendsFrom(text: string, rest: seq<string>)
    requires Ascends(rest) && NoneLess(rest, text)
    ensures Ascends([text] + rest)
  {
  }

  lemma {:induction false} InsertCounts(text: string, sorted: seq<string>)
    ensures multiset(Insert(text, sorted)) == multiset([text] + sorted)
  {
    if sorted != [] && LexLess(sorted[0], text) {
      InsertCounts(text, sorted[1..]);
      assert sorted == [sorted[0]] + sorted[1..];
    }
  }

  lemma NoneLessThanHead(sorted: seq<string>, text: string)
    requires Ascends(sorted) && sorted != [] && !LexLess(sorted[0], text)
    ensures NoneLess(sorted, text)
  {
    LexTotal(sorted[0], sorted[0]);
    forall t | t in sorted
      ensures !LexLess(t, text)
    {
      var j :| 0 <= j < |sorted| && sorted[j] == t;
      NotLessTransitive(text, sorted[0], t);
    }
  }

  lemma {:induction false} InsertAscends(text: string, sorted: seq<string>)
    requires Ascends(sorted)
    ensures Ascends(Insert(text, sorted))
  {
    if sorted != [] && LexLess(sorted[0], text) {
      var rest := Insert(text, sorted[1..]);
      InsertAscends(text, sorted[1..]);
      InsertCounts(text, sorted[1..]);
      SameMultisetSameElements(rest, [text] + sorted[1..]);
      LexTotal(sorted[0], text);
      AscendsFrom(sorted[0], rest);
    } else if sorted != [] {
      NoneLessThanHead(sorted, text);
      AscendsFrom(text, sorted);
    }
  }

  lemma NotLessTransitive(a: string, b: string, c: string)
    requires !LexLess(b, a) && !LexLess(c, b)
    ensures !LexLess(c, a)
  {
    LexTotal(a, b);
    LexTotal(b, c);
    LexTotal(a, c);
    if LexLess(a, b) && LexLess(b, c) {
      LexTransitive(a, b, c);
    }
  }

  lemma {:induction false} SortTextsLists(texts: seq<string>)
    ensures Lists(SortTexts(texts), texts)
  {
    if texts != [] {
      SortTextsLists(texts[1..]);
      InsertAscends(texts[0], SortTexts(texts[1..]));
      InsertCounts(texts[0], SortTexts(texts[1..]));
      assert texts == [texts[0]] + texts[1..];
    }
  }

  /** A listing begins with the least text. */
  lemma ListsBegin(a: seq<string>, b: seq<string>, texts: seq<string>)
    requires Lists(a, texts) && Lists(b, texts) && a != [] && b != []
    ensures a[0] == b[0]
  {
    SameMultisetSameElements(a, b);
    assert a[0] in b && b[0] in a;
    var i :| 0 <= i < |b| && b[i] == a[0];
    var j :| 0 <= j < |a| && a[j] == b[0];
    LexTotal(a[0], b[0]);
  }

  /** So there is only one. */
  lemma {:induction false} ListsUnique(a: seq<string>, b: seq<string>, texts: seq<string>)
    requires Lists(a, texts) && Lists(b, texts)
    ensures a == b
    decreases |a|
  {
    assert |a| == |multiset(a)| == |multiset(b)| == |b|;
    if a != [] {
      ListsBegin(a, b, texts);
      assert a == [a[0]] + a[1..] && b == [b[0]] + b[1..];
      assert multiset(a[1..]) == multiset(a) - multiset{a[0]};
      assert multiset(b[1..]) == multiset(b) - multiset{b[0]};
      assert Lists(a[1..], a[1..]) && Lists(b[1..], a[1..]);
      ListsUnique(a[1..], b[1..], a[1..]);
    }
  }

  lemma {:induction false} GroupedTargets(w: World, links: seq<Link>, keys: seq<string>, name: string)
    requires KeysFor(w, links, keys)
    ensures name in Grouped(links, keys) <==> Targets(links, name) != []
    ensures name in Grouped(links, keys) ==> IdentitiesOf(w, Targets(links, name), Grouped(links, keys)[name])
  {
    if links != [] {
      var n := |links| - 1;
      GroupedTargets(w, links[..n], keys[..n], name);
    }
  }

  /** A relationship as the registry's cardinality has it: one identity, or all in ascending order. */
  ghost predicate RelatedAs(rules: Rules, kind: string, name: string, related: Related, texts: seq<string>) {
    if rules.multi(kind, name) then related.Many? && Lists(related.keys, texts)
    else |texts| == 1 && related == One(texts[0])
  }

  lemma CardinalityRelates(rules: Rules, kind: string, groups: map<string, seq<string>>, name: string)
    requires Cardinality(rules, kind, groups).Some?
    ensures name in Cardinality(rules, kind, groups).value <==> name in groups
    ensures name in groups ==> RelatedAs(rules, kind, name, Cardinality(rules, kind, groups).value[name], groups[name])
  {
    if name in groups {
      SortTextsLists(groups[name]);
    }
  }

  lemma CardinalityHolds(rules: Rules, kind: string, groups: map<string, seq<string>>, related: map<string, Related>)
    requires related.Keys == groups.Keys
    requires forall name :: name in groups ==> RelatedAs(rules, kind, name, related[name], groups[name])
    ensures Cardinality(rules, kind, groups) == Some(related)
  {
    assert forall name :: name in groups && !rules.multi(kind, name) ==> |groups[name]| == 1 by {
      assert forall name :: name in groups ==> RelatedAs(rules, kind, name, related[name], groups[name]);
    }
    var found := Cardinality(rules, kind, groups).value;
    forall name | name in groups
      ensures found[name] == related[name]
    {
      assert RelatedAs(rules, kind, name, related[name], groups[name]);
      SortTextsLists(groups[name]);
      if rules.multi(kind, name) {
        ListsUnique(found[name].keys, related[name].keys, groups[name]);
      }
    }
    assert found.Keys == groups.Keys;
    assert found == related;
  }

  /** A relationship of the observation: the identities of exactly the targets linked under the name. */
  ghost predicate RelatesTo(w: World, o: Observation, name: string, related: Related) {
    exists texts :: IdentitiesOf(w, Targets(o.links, name), texts) && RelatedAs(w.rules, o.kind, name, related, texts)
  }

  // ---- Identities -----------------------------------------------------------------------------

  /** The relationships an identity is made from: those that identify, and no others. */
  ghost predicate IdentifiedBy(w: World, o: Observation, related: map<string, Related>) {
    && (forall name :: name in related <==> w.rules.identifies(o.kind, name) && Targets(o.links, name) != [])
    && (forall name :: name in related ==> RelatesTo(w, o, name, related[name]))
  }

  /** The identity the registry's rule gives the observation's attributes and identifying relationships. */
  ghost predicate NaturalKey(w: World, o: Observation, key: string) {
    exists attributes, related :: NaturalFrom(w, o, attributes, related, key)
  }

  ghost predicate NaturalFrom(w: World, o: Observation, attributes: map<string, Json>, related: map<string, Related>, key: string) {
    && AttributesAre(w.rules, o.attributes, attributes) && IdentifiedBy(w, o, related)
    && w.rules.natural(o.kind, attributes, related) == Some(key)
  }

  lemma {:induction false} IdentityTargets(rules: Rules, kind: string, links: seq<Link>, name: string)
    ensures Targets(IdentityLinks(rules, kind, links), name) == if rules.identifies(kind, name) then Targets(links, name) else []
  {
    if links != [] {
      var n := |links| - 1;
      IdentityTargets(rules, kind, links[..n], name);
      var before := IdentityLinks(rules, kind, links[..n]);
      if rules.identifies(kind, links[n].name) {
        assert (before + [links[n]])[..|before|] == before;
      } else {
        assert before + [] == before;
      }
    }
  }

  lemma GroupsIdentify(w: World, o: Observation, keys: seq<string>)
    requires KeysFor(w, IdentityLinks(w.rules, o.kind, o.links), keys)
    requires Cardinality(w.rules, o.kind, Grouped(IdentityLinks(w.rules, o.kind, o.links), keys)).Some?
    ensures IdentifiedBy(w, o, Cardinality(w.rules, o.kind, Grouped(IdentityLinks(w.rules, o.kind, o.links), keys)).value)
  {
    var links := IdentityLinks(w.rules, o.kind, o.links);
    var groups := Grouped(links, keys);
    var related := Cardinality(w.rules, o.kind, groups).value;
    forall name
      ensures name in related <==> w.rules.identifies(o.kind, name) && Targets(o.links, name) != []
      ensures name in related ==> RelatesTo(w, o, name, related[name])
    {
      IdentityTargets(w.rules, o.kind, o.links, name);
      GroupedTargets(w, links, keys, name);
      CardinalityRelates(w.rules, o.kind, groups, name);
    }
  }

  lemma KeyIsNatural(w: World, id: string, depth: nat)
    requires Eval(w, id, depth).Some?
    ensures id in w.observations && NaturalKey(w, w.observations[id], Eval(w, id, depth).value)
  {
    var o, links := w.observations[id], LinksOf(w, id);
    var keys := EvalAll(w, links, depth - 1).value;
    KeysEvaluated(w, links, depth - 1);
    NormalizedGives(w.rules, o.attributes);
    GroupsIdentify(w, o, keys);
    var related := Cardinality(w.rules, o.kind, Grouped(links, keys)).value;
    assert NaturalFrom(w, o, Normalized(w.rules, o.attributes).value, related, Eval(w, id, depth).value);
  }

  lemma {:induction false} KeysEvaluated(w: World, links: seq<Link>, depth: nat)
    requires EvalAll(w, links, depth).Some?
    ensures KeysFor(w, links, EvalAll(w, links, depth).value)
  {
    if links != [] {
      var n := |links| - 1;
      KeysEvaluated(w, links[..n], depth);
      assert HasKey(w, links[n].target, Eval(w, links[n].target, depth).value);
    }
  }

  lemma {:induction false} TargetListed(links: seq<Link>, name: string, link: Link)
    requires link in links && link.name == name
    ensures link.target in Targets(links, name)
  {
    var n := |links| - 1;
    assert links == links[..n] + [links[n]];
    if link in links[..n] {
      TargetListed(links[..n], name, link);
    }
  }

  lemma {:induction false} IdentityLinkNamed(rules: Rules, kind: string, links: seq<Link>, link: Link)
    requires link in IdentityLinks(rules, kind, links)
    ensures link in links && rules.identifies(kind, link.name)
  {
    var n := |links| - 1;
    if link in IdentityLinks(rules, kind, links[..n]) {
      IdentityLinkNamed(rules, kind, links[..n], link);
    }
  }

  /** The targets of an identified observation's identity links are identified. */
  lemma TargetsIdentified(w: World, o: Observation, related: map<string, Related>, link: Link)
    requires IdentifiedBy(w, o, related) && link in IdentityLinks(w.rules, o.kind, o.links)
    ensures Identified(w, link.target)
  {
    IdentityLinkNamed(w.rules, o.kind, o.links, link);
    TargetListed(o.links, link.name, link);
    assert RelatesTo(w, o, link.name, related[link.name]);
    var targets := Targets(o.links, link.name);
    var texts :| IdentitiesOf(w, targets, texts) && RelatedAs(w.rules, o.kind, link.name, related[link.name], texts);
    var i :| 0 <= i < |targets| && targets[i] == link.target;
    IdentifiedHasKey(w, targets[i]);
  }

  lemma RelatedIsCardinality(w: World, o: Observation, related: map<string, Related>, keys: seq<string>)
    requires IdentifiedBy(w, o, related)
    requires KeysFor(w, IdentityLinks(w.rules, o.kind, o.links), keys)
    ensures Cardinality(w.rules, o.kind, Grouped(IdentityLinks(w.rules, o.kind, o.links), keys)) == Some(related)
  {
    var links := IdentityLinks(w.rules, o.kind, o.links);
    var groups := Grouped(links, keys);
    forall name
      ensures name in groups <==> name in related
      ensures name in groups ==> RelatedAs(w.rules, o.kind, name, related[name], groups[name])
    {
      IdentityTargets(w.rules, o.kind, o.links, name);
      GroupedTargets(w, links, keys, name);
      if name in groups {
        assert RelatesTo(w, o, name, related[name]);
        var texts :| IdentitiesOf(w, Targets(o.links, name), texts) && RelatedAs(w.rules, o.kind, name, related[name], texts);
        IdentitiesUnique(w, Targets(o.links, name), texts, groups[name]);
      }
    }
    CardinalityHolds(w.rules, o.kind, groups, related);
  }

  /**
   * An observation's identity is the one the registry's rule gives its own attributes and the identities of
   * exactly its identifying relationships, and there is no other way to have one.
   */
  lemma KeyMeaning(w: World, id: string, key: string)
    ensures HasKey(w, id, key) <==> id in w.observations && NaturalKey(w, w.observations[id], key)
  {
    if HasKey(w, id, key) {
      var depth: nat :| Eval(w, id, depth) == Some(key);
      KeyIsNatural(w, id, depth);
    }
    if id in w.observations && NaturalKey(w, w.observations[id], key) {
      var o := w.observations[id];
      var attributes, related :| NaturalFrom(w, o, attributes, related, key);
      forall i | 0 <= i < |LinksOf(w, id)|
        ensures Identified(w, LinksOf(w, id)[i].target)
      {
        TargetsIdentified(w, o, related, LinksOf(w, id)[i]);
      }
      var keys := KeysKnown(w, LinksOf(w, id));
      RelatedIsCardinality(w, o, related, keys);
      NormalizedGives(w.rules, o.attributes);
      AttributesUnique(w.rules, o.attributes, attributes, Normalized(w.rules, o.attributes).value);
      KeyFromLinks(w, id, keys, key);
    }
  }

  // ---- Records --------------------------------------------------------------------------------

  /** A relationship value of a record: the one identity, or the list of all. */
  ghost predicate ValueOf(value: Json, related: Related) {
    match related
    case One(key) => value == Text(key)
    case Many(keys) => value.List? && |value.items| == |keys| && forall i :: 0 <= i < |keys| ==> value.items[i] == Text(keys[i])
  }

  /** What a field of a record holds. */
  ghost predicate FieldHolds(w: World, o: Observation, field: CanonicalDiff.Field, value: Json) {
    match field.category
    case Attributes => GivesAt(w.rules, o.attributes, field.name, value)
    case Relationships => exists related :: RelatesTo(w, o, field.name, related) && ValueOf(value, related)
  }

  /** The observation says something of the field. */
  ghost predicate FieldGiven(w: World, o: Observation, field: CanonicalDiff.Field) {
    match field.category
    case Attributes => exists value :: GivesAt(w.rules, o.attributes, field.name, value)
    case Relationships => Targets(o.links, field.name) != []
  }

  /** A label made from the observation's attributes. */
  ghost predicate Labelled(scope: Scope, w: World, o: Observation, text: string) {
    exists attributes :: AttributesAre(w.rules, o.attributes, attributes) && text == scope.display(attributes, o.externalId)
  }

  /**
   * A record says of its observation what the observation says, under the observation's own identity: its kind and
   * external ID, the normalised attributes, the identities of the targets of every relationship, and nothing else.
   */
  ghost predicate Faithful(scope: Scope, w: World, o: Observation, r: CanonicalDiff.Canonical) {
    && r.kind == o.kind && r.externalId == o.externalId && NaturalKey(w, o, r.identity)
    && r.objectType == "" && r.objectId == "" && Labelled(scope, w, o, r.displayName)
    && (forall field :: field in r.fields <==> FieldGiven(w, o, field))
    && (forall field :: field in r.fields ==> FieldHolds(w, o, field, r.fields[field]))
  }

  lemma AttributesHold(w: World, o: Observation, attributes: map<string, Json>, related: map<string, Related>, name: string)
    requires AttributesAre(w.rules, o.attributes, attributes)
    ensures var fields, field := PayloadOf(attributes, related), CanonicalDiff.Field(CanonicalDiff.Attributes, name);
            && (field in fields <==> FieldGiven(w, o, field))
            && (field in fields ==> FieldHolds(w, o, field, fields[field]))
  {
    if name in attributes {
      assert GivesAt(w.rules, o.attributes, name, attributes[name]);
    }
  }

  lemma PayloadLink(attributes: map<string, Json>, related: map<string, Related>, name: string)
    ensures var fields, field := PayloadOf(attributes, related), CanonicalDiff.Field(CanonicalDiff.Relationships, name);
            && (field in fields <==> name in related)
            && (field in fields ==> fields[field] == RelatedValue(related[name]))
  {
  }

  lemma ValueIsRelated(related: Related)
    ensures ValueOf(RelatedValue(related), related)
  {
  }

  lemma LinksHold(w: World, o: Observation, keys: seq<string>, attributes: map<string, Json>, related: map<string, Related>, name: string)
    requires KeysFor(w, o.links, keys) && Cardinality(w.rules, o.kind, Grouped(o.links, keys)) == Some(related)
    ensures var fields, field := PayloadOf(attributes, related), CanonicalDiff.Field(CanonicalDiff.Relationships, name);
            && (field in fields <==> FieldGiven(w, o, field))
            && (field in fields ==> FieldHolds(w, o, field, fields[field]))
  {
    GroupedTargets(w, o.links, keys, name);
    CardinalityRelates(w.rules, o.kind, Grouped(o.links, keys), name);
    PayloadLink(attributes, related, name);
    if name in related {
      ValueIsRelated(related[name]);
      assert RelatesTo(w, o, name, related[name]);
    }
  }

  lemma FieldsHold(scope: Scope, w: World, o: Observation, keys: seq<string>, identity: string, r: CanonicalDiff.Canonical, field: CanonicalDiff.Field)
    requires KeysFor(w, o.links, keys) && RecordFrom(scope, w.rules, o, keys, identity) == Some(r)
    ensures field in r.fields <==> FieldGiven(w, o, field)
    ensures field in r.fields ==> FieldHolds(w, o, field, r.fields[field])
  {
    var attributes := Normalized(w.rules, o.attributes).value;
    var related := Cardinality(w.rules, o.kind, Grouped(o.links, keys)).value;
    match field.category {
      case Attributes =>
        NormalizedGives(w.rules, o.attributes);
        AttributesHold(w, o, attributes, related, field.name);
      case Relationships => LinksHold(w, o, keys, attributes, related, field.name);
    }
  }

  /** Every record of an observation is faithful to it. */
  lemma RecordMeaning(scope: Scope, w: World, id: string, r: CanonicalDiff.Canonical)
    requires HasRecord(scope, w, id, r)
    ensures id in w.observations && Faithful(scope, w, w.observations[id], r)
    ensures HasKey(w, id, r.identity)
  {
    var keys, identity :| Yields(scope, w, id, keys, identity, r);
    var o := w.observations[id];
    KeyMeaning(w, id, identity);
    forall field
      ensures field in r.fields <==> FieldGiven(w, o, field)
      ensures field in r.fields ==> FieldHolds(w, o, field, r.fields[field])
    {
      FieldsHold(scope, w, o, keys, identity, r, field);
    }
    NormalizedGives(w.rules, o.attributes);
    assert AttributesAre(w.rules, o.attributes, Normalized(w.rules, o.attributes).value);
  }

  /** The relationships that are not lists have one target each. */
  ghost predicate SingleTargets(rules: Rules, o: Observation) {
    forall name :: !rules.multi(o.kind, name) && Targets(o.links, name) != [] ==> |Targets(o.links, name)| == 1
  }

  lemma CardinalityExactly(w: World, o: Observation, keys: seq<string>)
    requires KeysFor(w, o.links, keys)
    ensures Cardinality(w.rules, o.kind, Grouped(o.links, keys)).Some? <==> SingleTargets(w.rules, o)
  {
    forall name
      ensures name in Grouped(o.links, keys) <==> Targets(o.links, name) != []
      ensures name in Grouped(o.links, keys) ==> |Grouped(o.links, keys)[name]| == |Targets(o.links, name)|
    {
      GroupedTargets(w, o.links, keys, name);
    }
  }

  /** What an observation must be to have a record. */
  ghost predicate Recordable(w: World, id: string) {
    && id in w.observations
    && AllNormalize(w.rules, w.observations[id].attributes)
    && SingleTargets(w.rules, w.observations[id])
    && (forall link :: link in w.observations[id].links ==> Identified(w, link.target))
    && Identified(w, id)
  }

  /** An observation has a record exactly when it and all it links to are identified and its own data are in order. */
  lemma RecordedExactly(scope: Scope, w: World, id: string)
    ensures Resolvable(scope, w, id) <==> Recordable(w, id)
  {
    if record :| HasRecord(scope, w, id, record) {
      var o := w.observations[id];
      var keys, identity :| Yields(scope, w, id, keys, identity, record);
      NormalizedGives(w.rules, o.attributes);
      CardinalityExactly(w, o, keys);
      IdentifiedHasKey(w, id);
      forall link | link in o.links
        ensures Identified(w, link.target)
      {
        RecordedLinks(scope, w, id, record, link);
      }
    }
    if Recordable(w, id) {
      var o := w.observations[id];
      var keys := KeysKnown(w, o.links);
      IdentifiedHasKey(w, id);
      var identity :| HasKey(w, id, identity);
      NormalizedGives(w.rules, o.attributes);
      CardinalityExactly(w, o, keys);
      assert Yields(scope, w, id, keys, identity, RecordFrom(scope, w.rules, o, keys, identity).value);
      assert HasRecord(scope, w, id, RecordFrom(scope, w.rules, o, keys, identity).value);
    }
  }

  // ---- Rejections -----------------------------------------------------------------------------

  /** An attribute with a path. */
  predicate HasPath(attribute: (string, Json)) {
    attribute.0 != ""
  }

  /** A rejection shows the observation it turns away: its kind and ID, and the normalised attributes that have a path. */
  ghost predicate ShownAs(scope: Scope, rules: Rules, o: Observation, rejection: Rejection) {
    && rejection.externalId == o.externalId && rejection.kind == o.kind
    && (rejection.unsupported <==> o.kind !in scope.supported)
    && rejection.displayName == scope.display(rejection.attributes, o.externalId)
    && (forall path, value :: ShowsAt(rules, o.attributes, rejection.attributes, path, value))
  }

  /** A path shows exactly the value the attributes give it, and the empty path none. */
  ghost predicate ShowsAt(rules: Rules, attributes: seq<(string, Json)>, shown: map<string, Json>, path: string, value: Json) {
    path in shown && shown[path] == value <==> path != "" && GivesAt(rules, attributes, path, value)
  }

  /** Every attribute that has a path normalises. */
  ghost predicate PathedNormalize(rules: Rules, attributes: seq<(string, Json)>) {
    forall i :: 0 <= i < |attributes| && HasPath(attributes[i]) ==> rules.normalize(attributes[i].0, attributes[i].1).Some?
  }

  lemma PathedStep(rules: Rules, before: seq<(string, Json)>, last: (string, Json))
    ensures Pathed(before + [last]) == Pathed(before) + (if HasPath(last) then [last] else [])
    ensures PathedNormalize(rules, before + [last]) <==>
              PathedNormalize(rules, before) && (HasPath(last) ==> rules.normalize(last.0, last.1).Some?)
  {
    var all := before + [last];
    assert all[..|before|] == before;
    if PathedNormalize(rules, all) {
      assert forall i :: 0 <= i < |before| ==> before[i] == all[i];
      assert HasPath(all[|before|]) ==> rules.normalize(last.0, last.1).Some?;
    }
  }

  lemma {:induction false} PathedGives(rules: Rules, attributes: seq<(string, Json)>)
    ensures AllNormalize(rules, Pathed(attributes)) <==> PathedNormalize(rules, attributes)
    ensures forall path, value :: GivesAt(rules, Pathed(attributes), path, value) <==> path != "" && GivesAt(rules, attributes, path, value)
  {
    if attributes != [] {
      var n := |attributes| - 1;
      var before, last := attributes[..n], attributes[n];
      assert attributes == before + [last];
      PathedGives(rules, before);
      PathedStep(rules, before, last);
      AllNormalizeStep(rules, Pathed(before), last);
      forall path, value
        ensures GivesAt(rules, Pathed(attributes), path, value) <==> path != "" && GivesAt(rules, attributes, path, value)
      {
        GivesStep(rules, before, last, path, value);
        if HasPath(last) {
          GivesStep(rules, Pathed(before), last, path, value);
        } else {
          assert Pathed(before) + [] == Pathed(before);
        }
      }
      assert Pathed(before) + [] == Pathed(before);
    }
  }

  lemma AllNormalizeStep(rules: Rules, before: seq<(string, Json)>, last: (string, Json))
    ensures AllNormalize(rules, before + [last]) <==> AllNormalize(rules, before) && rules.normalize(last.0, last.1).Some?
  {
    var all := before + [last];
    if AllNormalize(rules, all) {
      assert forall i :: 0 <= i < |before| ==> before[i] == all[i];
      assert rules.normalize(all[|before|].0, all[|before|].1).Some?;
    }
  }

  /** An observation can be turned away exactly when its pathed attributes normalise, and then it is shown as it is. */
  lemma RefusalMeaning(scope: Scope, rules: Rules, o: Observation)
    ensures Refusal(scope, rules, o).Some? <==> PathedNormalize(rules, o.attributes)
    ensures Refusal(scope, rules, o).Some? ==> ShownAs(scope, rules, o, Refusal(scope, rules, o).value)
  {
    var pathed := Pathed(o.attributes);
    PathedGives(rules, o.attributes);
    NormalizedGives(rules, pathed);
    if Refusal(scope, rules, o).Some? {
      var shown := Refusal(scope, rules, o).value.attributes;
      forall path, value
        ensures ShowsAt(rules, o.attributes, shown, path, value)
      {
        assert GivesAt(rules, pathed, path, value) <==> path != "" && GivesAt(rules, o.attributes, path, value);
        GivenAt(rules, pathed, shown, path, value);
      }
    }
  }

  lemma GivenAt(rules: Rules, attributes: seq<(string, Json)>, m: map<string, Json>, path: string, value: Json)
    requires AttributesAre(rules, attributes, m)
    ensures path in m && m[path] == value <==> GivesAt(rules, attributes, path, value)
  {
  }

  // ---- A whole run ----------------------------------------------------------------------------

  /** The last observation of its external ID. */
  ghost predicate LastOf(observations: seq<Observation>, o: Observation) {
    exists i :: LastAt(observations, i, o)
  }

  ghost predicate LastAt(observations: seq<Observation>, i: int, o: Observation) {
    && 0 <= i < |observations| && observations[i] == o
    && forall j :: i < j < |observations| ==> observations[j].externalId != o.externalId
  }

  lemma StaysLast(before: seq<Observation>, last: Observation, o: Observation)
    requires LastOf(before, o) && last.externalId != o.externalId
    ensures LastOf(before + [last], o)
  {
    var i :| LastAt(before, i, o);
    var all := before + [last];
    forall j | i < j < |all|
      ensures all[j].externalId != o.externalId
    {
      assert j < |before| ==> all[j] == before[j];
    }
    assert LastAt(all, i, o);
  }

  /** Looking an external ID up finds the last observation of it. */
  lemma {:induction false} LastWins(observations: seq<Observation>, id: string)
    requires id in ByExternalId(observations)
    ensures LastOf(observations, ByExternalId(observations)[id]) && ByExternalId(observations)[id].externalId == id
  {
    var n := |observations| - 1;
    var o := ByExternalId(observations)[id];
    if observations[n].externalId == id {
      assert LastAt(observations, n, o);
    } else {
      LastWins(observations[..n], id);
      StaysLast(observations[..n], observations[n], o);
      assert observations == observations[..n] + [observations[n]];
    }
  }

  /** The observation has a record of a supported kind. */
  ghost predicate Accepted(scope: Scope, w: World, o: Observation) {
    o.kind in scope.supported && Recordable(w, o.externalId)
  }

  /**
   * A loaded run, told from its observations: every record is faithful to the last observation of its ID, and the
   * rejections are those of exactly the observations that are not of a supported kind or have no record.
   */
  ghost predicate RunMeans(scope: Scope, w: World, observations: seq<Observation>, records: seq<CanonicalDiff.Canonical>,
                           rejected: seq<Rejection>)
  {
    && (forall r :: r in records ==> RecordObserved(scope, w, observations, r))
    && (forall o :: o in observations && !Accepted(scope, w, o) ==> exists rejection :: rejection in rejected && ShownAs(scope, w.rules, o, rejection))
    && (forall rejection :: rejection in rejected ==> TurnedAway(scope, w, observations, rejection))
  }

  ghost predicate RecordObserved(scope: Scope, w: World, observations: seq<Observation>, r: CanonicalDiff.Canonical) {
    exists o :: LastOf(observations, o) && o.kind in scope.supported && Faithful(scope, w, o, r)
  }

  ghost predicate TurnedAway(scope: Scope, w: World, observations: seq<Observation>, rejection: Rejection) {
    exists o :: o in observations && !Accepted(scope, w, o) && ShownAs(scope, w.rules, o, rejection)
  }

  lemma RecordsObserved(scope: Scope, w: World, observations: seq<Observation>, records: seq<CanonicalDiff.Canonical>,
                        rejected: seq<Rejection>, r: CanonicalDiff.Canonical)
    requires w.observations == ByExternalId(observations)
    requires LoadPromise(JudgeOf(scope, w), observations, records, rejected, Meaning) && r in records
    ensures RecordObserved(scope, w, observations, r)
  {
    assert JudgeOf(scope, w).means(r.externalId, r);
    RecordMeaning(scope, w, r.externalId, r);
    LastWins(observations, r.externalId);
  }

  lemma RejectionsShow(scope: Scope, w: World, observations: seq<Observation>, rejected: seq<Rejection>)
    requires Shows(JudgeOf(scope, w), Refused(JudgeOf(scope, w), observations), rejected)
    ensures forall o :: o in observations && !Accepted(scope, w, o) ==> exists rejection :: rejection in rejected && ShownAs(scope, w.rules, o, rejection)
    ensures forall rejection :: rejection in rejected ==> TurnedAway(scope, w, observations, rejection)
  {
    var judge, refused := JudgeOf(scope, w), Refused(JudgeOf(scope, w), observations);
    RefusedMembers(judge, observations);
    forall i | 0 <= i < |refused|
      ensures refused[i] in observations && !Accepted(scope, w, refused[i]) && ShownAs(scope, w.rules, refused[i], rejected[i])
    {
      assert refused[i] in refused && judge.refusal(refused[i]) == Some(rejected[i]);
      RecordedExactly(scope, w, refused[i].externalId);
      RefusalMeaning(scope, w.rules, refused[i]);
    }
    forall o | o in observations && !Accepted(scope, w, o)
      ensures exists rejection :: rejection in rejected && ShownAs(scope, w.rules, o, rejection)
    {
      RecordedExactly(scope, w, o.externalId);
      assert !Recorded(judge, o);
      var i :| 0 <= i < |refused| && refused[i] == o;
      assert rejected[i] in rejected;
    }
    forall rejection | rejection in rejected
      ensures TurnedAway(scope, w, observations, rejection)
    {
      var i :| 0 <= i < |rejected| && rejected[i] == rejection;
      assert refused[i] in observations;
    }
  }

  /** Whatever loading returns means what its observations say. */
  lemma LoadedMeaning(scope: Scope, rules: Rules, observations: seq<Observation>, records: seq<CanonicalDiff.Canonical>,
                      rejected: seq<Rejection>)
    requires Loaded(JudgeOf(scope, World(rules, ByExternalId(observations))), observations, records, rejected)
    ensures RunMeans(scope, World(rules, ByExternalId(observations)), observations, records, rejected)
  {
    var w := World(rules, ByExternalId(observations));
    var judge := JudgeOf(scope, w);
    assert LoadPromise(judge, observations, records, rejected, Meaning);
    forall r | r in records
      ensures RecordObserved(scope, w, observations, r)
    {
      RecordsObserved(scope, w, observations, records, rejected, r);
    }
    assert LoadPromise(judge, observations, records, rejected, Refusals);
    RejectionsShow(scope, w, observations, rejected);
  }
}
