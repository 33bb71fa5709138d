/**
 * Comparing two canonical records field by field: the typed model classes DiffSync compares, the
 * durable list of field changes, and what applying those changes does.
 */
module CanonicalDiff {
  import opened Prelude
  import opened KeyOrder

  datatype Category = Attributes | Relationships

  /** A path of the payload: an attribute or a relationship by name. */
  datatype Field = Field(category: Category, name: string)

  type Payload = map<Field, Json>

  datatype Canonical = Canonical(
    kind: string,
    identity: string,
    displayName: string,
    externalId: string,
    fields: Payload,
    objectType: string,
    objectId: string)
  {
    /** Kinds contain no colon, so the pair stands for the text `kind:identity`. */
    function Uid(): Key {
      Key(kind, identity)
    }
  }

  datatype Cell = Cell(present: bool, value: Json)

  datatype Change = Change(field: Field, source: Cell, target: Cell)

  // ---- Field names ----------------------------------------------------------------------------

  function StripLeft(s: string): string {
    if s != "" && s[0] == '/' then StripLeft(s[1..]) else s
  }

  function StripRight(s: string): string {
    if s != "" && s[|s| - 1] == '/' then StripRight(s[..|s| - 1]) else s
  }

  predicate Digit(c: char) {
    '0' <= c <= '9'
  }

  predicate Plain(c: char) {
    'a' <= c <= 'z' || 'A' <= c <= 'Z' || Digit(c) || c == '_'
  }

  function Underscored(s: string): string {
    if s == "" then "" else [if Plain(s[0]) then s[0] else '_'] + Underscored(s[1..])
  }

  /** The model attribute that carries a field. */
  function FieldName(f: Field): string {
    var plain := Underscored(StripRight(StripLeft(f.name)));
    var safe := if plain == "" || Digit(plain[0]) then "field_" + plain else plain;
    (if f.category.Attributes? then "attr_" else "rel_") + safe
  }

  /** A name between slashes, which itself neither begins nor ends with one. */
  ghost predicate Between(name: string, core: string) {
    exists i, j :: BetweenAt(name, i, j, core)
  }

  ghost predicate BetweenAt(name: string, i: int, j: int, core: string) {
    && 0 <= i <= j <= |name| && core == name[i..j]
    && (forall k :: 0 <= k < i || j <= k < |name| ==> name[k] == '/')
    && (core != "" ==> core[0] != '/' && core[|core| - 1] != '/')
  }

  /** The same text with an underscore for every character but letters, digits and underscores. */
  ghost predicate Underlined(core: string, plain: string) {
    && |plain| == |core|
    && forall i :: 0 <= i < |core| ==>
                     plain[i] == if 'a' <= core[i] <= 'z' || 'A' <= core[i] <= 'Z' || '0' <= core[i] <= '9' then core[i] else '_'
  }

  /** A model attribute: the category, then the underlined name, marked where it is empty or begins with a digit. */
  ghost predicate NamedBy(f: Field, name: string) {
    exists core, plain :: NamedFrom(f, core, plain, name)
  }

  ghost predicate NamedFrom(f: Field, core: string, plain: string, name: string) {
    && Between(f.name, core) && Underlined(core, plain)
    && name == (if f.category.Attributes? then "attr_" else "rel_") +
               (if plain == "" || '0' <= plain[0] <= '9' then "field_" else "") + plain
  }

  lemma {:induction false} StripLeftAt(s: string) returns (i: nat)
    ensures i <= |s| && StripLeft(s) == s[i..] && (forall k :: 0 <= k < i ==> s[k] == '/')
    ensures StripLeft(s) == "" || StripLeft(s)[0] != '/'
  {
    if s != "" && s[0] == '/' {
      var rest := StripLeftAt(s[1..]);
      i := rest + 1;
      assert forall k :: 0 < k < i ==> s[k] == s[1..][k - 1];
    } else {
      i := 0;
    }
  }

  lemma {:induction false} StripRightAt(s: string) returns (j: nat)
    ensures j <= |s| && StripRight(s) == s[..j] && (forall k :: j <= k < |s| ==> s[k] == '/')
    ensures StripRight(s) == "" || StripRight(s)[|StripRight(s)| - 1] != '/'
  {
    if s != "" && s[|s| - 1] == '/' {
      var n := |s| - 1;
      j := StripRightAt(s[..n]);
      assert s[..n][..j] == s[..j] && forall k :: j <= k < n ==> s[k] == s[..n][k];
    } else {
      j := |s|;
      assert s[..j] == s;
    }
  }

  lemma {:induction false} UnderscoredUnderlines(s: string)
    ensures Underlined(s, Underscored(s))
  {
    if s != "" {
      UnderscoredUnderlines(s[1..]);
      assert forall i :: 0 < i < |s| ==> s[i] == s[1..][i - 1];
    }
  }

  lemma StripsBetween(name: string)
    ensures Between(name, StripRight(StripLeft(name)))
  {
    var i := StripLeftAt(name);
    var mid := name[i..];
    var j := StripRightAt(mid);
    forall k | i + j <= k < |name|
      ensures name[k] == '/'
    {
      assert name[k] == mid[k - i];
    }
    assert mid[..j] == name[i..i + j];
    assert BetweenAt(name, i, i + j, mid[..j]);
  }

  lemma MarkedName(plain: string)
    ensures (if plain == "" || Digit(plain[0]) then "field_" + plain else plain) ==
            (if plain == "" || '0' <= plain[0] <= '9' then "field_" else "") + plain
  {
  }

  /** The attribute of a field is read off its path. */
  lemma FieldNameReads(f: Field)
    ensures NamedBy(f, FieldName(f))
  {
    var core := StripRight(StripLeft(f.name));
    StripsBetween(f.name);
    UnderscoredUnderlines(core);
    MarkedName(Underscored(core));
    NameAssembled(if f.category.Attributes? then "attr_" else "rel_",
                  if Underscored(core) == "" || '0' <= Underscored(core)[0] <= '9' then "field_" else "", Underscored(core));
    assert NamedFrom(f, core, Underscored(core), FieldName(f));
  }

  lemma NameAssembled(category: string, mark: string, plain: string)
    ensures category + mark + plain == category + (mark + plain)
  {
  }

  ghost predicate NoCollision(fields: set<Field>) {
    forall f, g :: f in fields && g in fields && FieldName(f) == FieldName(g) ==> f == g
  }

  /** Distinct paths can share a model attribute; such records cannot be compared at all. */
  lemma PathsCanCollide()
    ensures !NoCollision({Field(Attributes, "/a-b"), Field(Attributes, "/a_b")})
  {
    assert FieldName(Field(Attributes, "/a-b")) == FieldName(Field(Attributes, "/a_b")) == "attr_a_b";
  }

  /** Model attribute names back to the fields they carry. */
  ghost predicate Names(fieldMap: map<string, Field>, fields: set<Field>) {
    && (forall f :: f in fields ==> FieldName(f) in fieldMap && fieldMap[FieldName(f)] == f)
    && (forall name :: name in fieldMap ==> fieldMap[name] in fields && FieldName(fieldMap[name]) == name)
  }

  method FieldMapOf(fields: set<Field>) returns (fieldMap: Option<map<string, Field>>)
    ensures fieldMap.Some? <==> NoCollision(fields)
    ensures fieldMap.Some? ==> Names(fieldMap.value, fields)
  {
    var names: map<string, Field> := map[];
    var rest := fields;
    while rest != {}
      invariant rest <= fields
      invariant Names(names, fields - rest)
      decreases |rest|
    {
      var f :| f in rest;
      var name := FieldName(f);
      if name in names {
        assert names[name] != f;
        return None;
      }
      NamesExtend(names, fields - rest, f);
      assert fields - (rest - {f}) == (fields - rest) + {f};
      names := names[name := f];
      rest := rest - {f};
    }
    assert fields - rest == fields;
    return Some(names);
  }

  lemma NamesExtend(fieldMap: map<string, Field>, fields: set<Field>, f: Field)
    requires Names(fieldMap, fields) && FieldName(f) !in fieldMap
    ensures Names(fieldMap[FieldName(f) := f], fields + {f})
  {
  }

  // ---- Model values and field changes ---------------------------------------------------------

  function CellOf(fields: Payload, f: Field): Cell {
    if f in fields then Cell(true, fields[f]) else Cell(false, Null)
  }

  function ModelValues(fieldMap: map<string, Field>, fields: Payload): map<string, Cell> {
    map name | name in fieldMap :: CellOf(fields, fieldMap[name])
  }

  /** DiffSync's attribute differences: everything for a create, the differing attributes for an update. */
  function NewValues(source: map<string, Cell>, target: Option<map<string, Cell>>): map<string, Cell> {
    map name | name in source && (target.Some? ==> name in target.value && target.value[name] != source[name]) :: source[name]
  }

  function OldValues(source: map<string, Cell>, target: Option<map<string, Cell>>): map<string, Cell> {
    if target.None? then map[]
    else map name | name in target.value && name in source && target.value[name] != source[name] :: target.value[name]
  }

  function CellIn(values: map<string, Cell>, name: string): Cell {
    if name in values then values[name] else Cell(false, Null)
  }

  /** Attributes sort before relationships, then by model attribute name. */
  function SortKey(f: Field): Key {
    Key(if f.category.Attributes? then "0" else "1", FieldName(f))
  }

  function ChangeOf(f: Field, source: Payload, target: Payload): Change {
    Change(f, CellOf(source, f), CellOf(target, f))
  }

  ghost predicate Differs(f: Field, source: Payload, target: Payload) {
    CellOf(source, f) != CellOf(target, f)
  }

  /** Exactly the differing fields, each with both sides, in display order. */
  ghost predicate IsDelta(changes: seq<Change>, source: Payload, target: Payload) {
    && (forall c :: c in changes ==> Differs(c.field, source, target) && c == ChangeOf(c.field, source, target))
    && (forall f :: Differs(f, source, target) ==> ChangeOf(f, source, target) in changes)
    && StrictlySorted(SortKeysOf(changes))
  }

  function SortKeysOf(changes: seq<Change>): (keys: seq<Key>)
    ensures |keys| == |changes|
  {
    seq(|changes|, i requires 0 <= i < |changes| => SortKey(changes[i].field))
  }

  function ChangeNamed(fieldMap: map<string, Field>, minus: map<string, Cell>, plus: map<string, Cell>, name: string): Change
    requires name in fieldMap
  {
    Change(fieldMap[name], CellIn(plus, name), CellIn(minus, name))
  }

  predicate Visible(c: Change) {
    c.source.present || c.target.present
  }

  /** The visible changes of the names sorted into the given order. */
  function ListChanges(fieldMap: map<string, Field>, minus: map<string, Cell>, plus: map<string, Cell>, order: seq<Key>): seq<Change> {
    if order == [] then []
    else
      var n := |order| - 1;
      var before := ListChanges(fieldMap, minus, plus, order[..n]);
      var name := order[n].identity;
      if name in fieldMap && Visible(ChangeNamed(fieldMap, minus, plus, name))
      then before + [ChangeNamed(fieldMap, minus, plus, name)]
      else before
  }

  lemma ListStep(fieldMap: map<string, Field>, minus: map<string, Cell>, plus: map<string, Cell>, order: seq<Key>, i: nat)
    requires i < |order| && order[i].identity in fieldMap
    ensures var c := ChangeNamed(fieldMap, minus, plus, order[i].identity);
            ListChanges(fieldMap, minus, plus, order[..i + 1]) ==
            ListChanges(fieldMap, minus, plus, order[..i]) + (if Visible(c) then [c] else [])
  {
    assert order[..i + 1][..i] == order[..i];
  }

  method DiffSyncFieldChanges(fieldMap: map<string, Field>, minus: map<string, Cell>, plus: map<string, Cell>) returns (changes: seq<Change>)
    requires minus.Keys + plus.Keys <= fieldMap.Keys
    ensures changes == ListChanges(fieldMap, minus, plus, SortedKeys(NameKeys(fieldMap, minus.Keys + plus.Keys)))
  {
    var keys := NameKeys(fieldMap, minus.Keys + plus.Keys);
    var ordered := SortKeys(keys);
    changes := [];
    for i := 0 to |ordered|
      invariant changes == ListChanges(fieldMap, minus, plus, ordered[..i])
    {
      var name := ordered[i].identity;
      NameKeyOf(fieldMap, minus.Keys + plus.Keys, ordered[i]);
      ListStep(fieldMap, minus, plus, ordered, i);
      var c := ChangeNamed(fieldMap, minus, plus, name);
      if Visible(c) {
        changes := changes + [c];
      }
    }
    assert ordered[..|ordered|] == ordered;
  }

  function NameKey(f: Field, name: string): Key {
    Key(if f.category.Attributes? then "0" else "1", name)
  }

  function NameKeys(fieldMap: map<string, Field>, names: set<string>): set<Key>
    requires names <= fieldMap.Keys
  {
    set name | name in names :: NameKey(fieldMap[name], name)
  }

  lemma NameKeyOf(fieldMap: map<string, Field>, names: set<string>, k: Key)
    requires names <= fieldMap.Keys && k in NameKeys(fieldMap, names)
    ensures k.identity in names && k == NameKey(fieldMap[k.identity], k.identity)
  {
  }

  lemma {:induction false} ListedMembers(fieldMap: map<string, Field>, minus: map<string, Cell>, plus: map<string, Cell>, order: seq<Key>, c: Change)
    ensures c in ListChanges(fieldMap, minus, plus, order) <==>
            exists k :: k in order && k.identity in fieldMap && c == ChangeNamed(fieldMap, minus, plus, k.identity) && Visible(c)
  {
    if order != [] {
      var n := |order| - 1;
      assert order == order[..n] + [order[n]];
      ListedMembers(fieldMap, minus, plus, order[..n], c);
    }
  }

  /** The list is sorted because each change sits where its key does. */
  lemma {:induction false} ListedSorted(fieldMap: map<string, Field>, minus: map<string, Cell>, plus: map<string, Cell>, order: seq<Key>)
    requires StrictlySorted(order)
    requires forall k :: k in order ==> k.identity in fieldMap && k == SortKey(fieldMap[k.identity])
    ensures StrictlySorted(SortKeysOf(ListChanges(fieldMap, minus, plus, order)))
    ensures forall i :: 0 <= i < |ListChanges(fieldMap, minus, plus, order)| ==>
              SortKeysOf(ListChanges(fieldMap, minus, plus, order))[i] in order
  {
    if order != [] {
      var n := |order| - 1;
      var init := order[..n];
      assert order == init + [order[n]] && order[n] in order;
      ListedSorted(fieldMap, minus, plus, init);
      var before := ListChanges(fieldMap, minus, plus, init);
      var c := ChangeNamed(fieldMap, minus, plus, order[n].identity);
      assert SortKeysOf(before + [c]) == SortKeysOf(before) + [order[n]];
      forall i | 0 <= i < |before|
        ensures Less(SortKeysOf(before)[i], order[n])
      {
        var j :| 0 <= j < n && init[j] == SortKeysOf(before)[i];
        assert Less(order[j], order[n]);
      }
    }
  }

  /** The fields a comparison knows: those declared for the kind and those either record carries. */
  ghost predicate Covers(fieldMap: map<string, Field>, fields: set<Field>, source: Payload, target: Payload) {
    Names(fieldMap, fields) && source.Keys + target.Keys <= fields
  }

  /** The two records are different models exactly when their payloads are different. */
  lemma ModelsDifferWithPayloads(fieldMap: map<string, Field>, fields: set<Field>, source: Payload, target: Payload)
    requires Covers(fieldMap, fields, source, target)
    ensures ModelValues(fieldMap, source) == ModelValues(fieldMap, target) <==> source == target
  {
    if ModelValues(fieldMap, source) == ModelValues(fieldMap, target) {
      forall f | f in fields
        ensures CellOf(source, f) == CellOf(target, f)
      {
        assert ModelValues(fieldMap, source)[FieldName(f)] == ModelValues(fieldMap, target)[FieldName(f)];
      }
      assert source.Keys == target.Keys by {
        forall f
          ensures f in source <==> f in target
        {
          if f in source || f in target {
            assert f in fields;
            assert CellOf(source, f).present == CellOf(target, f).present;
          }
        }
      }
      assert forall f :: f in source ==> CellOf(source, f) == CellOf(target, f);
    }
  }

  function OrNothing(target: Option<Payload>): Payload {
    if target.Some? then target.value else map[]
  }

  /** The two halves of DiffSync's attribute difference between two payloads. */
  function Plus(fieldMap: map<string, Field>, source: Payload, target: Option<Payload>): map<string, Cell> {
    NewValues(ModelValues(fieldMap, source), if target.Some? then Some(ModelValues(fieldMap, target.value)) else None)
  }

  function Minus(fieldMap: map<string, Field>, source: Payload, target: Option<Payload>): map<string, Cell> {
    OldValues(ModelValues(fieldMap, source), if target.Some? then Some(ModelValues(fieldMap, target.value)) else None)
  }

  lemma ListedDiffers(fieldMap: map<string, Field>, fields: set<Field>, source: Payload, target: Option<Payload>, name: string)
    requires Covers(fieldMap, fields, source, OrNothing(target))
    requires name in Plus(fieldMap, source, target).Keys + Minus(fieldMap, source, target).Keys && name in fieldMap
    requires Visible(ChangeNamed(fieldMap, Minus(fieldMap, source, target), Plus(fieldMap, source, target), name))
    ensures Differs(fieldMap[name], source, OrNothing(target))
    ensures ChangeNamed(fieldMap, Minus(fieldMap, source, target), Plus(fieldMap, source, target), name) ==
            ChangeOf(fieldMap[name], source, OrNothing(target))
  {
  }

  lemma DifferingListed(fieldMap: map<string, Field>, fields: set<Field>, source: Payload, target: Option<Payload>, f: Field)
    requires Covers(fieldMap, fields, source, OrNothing(target))
    requires Differs(f, source, OrNothing(target))
    ensures var name := FieldName(f);
            && name in Plus(fieldMap, source, target).Keys + Minus(fieldMap, source, target).Keys
            && name in fieldMap && fieldMap[name] == f
            && ChangeNamed(fieldMap, Minus(fieldMap, source, target), Plus(fieldMap, source, target), name) ==
               ChangeOf(f, source, OrNothing(target))
            && Visible(ChangeOf(f, source, OrNothing(target)))
  {
  }

  lemma ListedExactly(fieldMap: map<string, Field>, fields: set<Field>, source: Payload, target: Option<Payload>, order: seq<Key>, c: Change)
    requires Covers(fieldMap, fields, source, OrNothing(target))
    requires var names := Plus(fieldMap, source, target).Keys + Minus(fieldMap, source, target).Keys;
             names <= fieldMap.Keys && forall k :: k in order <==> k in NameKeys(fieldMap, names)
    ensures c in ListChanges(fieldMap, Minus(fieldMap, source, target), Plus(fieldMap, source, target), order) <==>
            Differs(c.field, source, OrNothing(target)) && c == ChangeOf(c.field, source, OrNothing(target))
  {
    var plus, minus := Plus(fieldMap, source, target), Minus(fieldMap, source, target);
    ListedMembers(fieldMap, minus, plus, order, c);
    if c in ListChanges(fieldMap, minus, plus, order) {
      var k :| k in order && k.identity in fieldMap && c == ChangeNamed(fieldMap, minus, plus, k.identity) && Visible(c);
      NameKeyOf(fieldMap, plus.Keys + minus.Keys, k);
      ListedDiffers(fieldMap, fields, source, target, k.identity);
    }
    if Differs(c.field, source, OrNothing(target)) && c == ChangeOf(c.field, source, OrNothing(target)) {
      DifferingListed(fieldMap, fields, source, target, c.field);
      assert NameKey(c.field, FieldName(c.field)) in NameKeys(fieldMap, plus.Keys + minus.Keys);
    }
  }

  /** Field changes computed from the models are exactly the delta of the payloads; a create compares with nothing. */
  method RecordChanges(fieldMap: map<string, Field>, ghost fields: set<Field>, source: Payload, target: Option<Payload>)
    returns (changes: seq<Change>)
    requires Covers(fieldMap, fields, source, OrNothing(target))
    ensures IsDelta(changes, source, OrNothing(target))
  {
    var plus, minus := Plus(fieldMap, source, target), Minus(fieldMap, source, target);
    changes := DiffSyncFieldChanges(fieldMap, minus, plus);
    ListIsDelta(fieldMap, fields, source, target, SortedKeys(NameKeys(fieldMap, minus.Keys + plus.Keys)));
  }

  lemma ListIsDelta(fieldMap: map<string, Field>, fields: set<Field>, source: Payload, target: Option<Payload>, order: seq<Key>)
    requires Covers(fieldMap, fields, source, OrNothing(target))
    requires Plus(fieldMap, source, target).Keys + Minus(fieldMap, source, target).Keys <= fieldMap.Keys
    requires order == SortedKeys(NameKeys(fieldMap, Minus(fieldMap, source, target).Keys + Plus(fieldMap, source, target).Keys))
    ensures IsDelta(ListChanges(fieldMap, Minus(fieldMap, source, target), Plus(fieldMap, source, target), order), source, OrNothing(target))
  {
    var plus, minus := Plus(fieldMap, source, target), Minus(fieldMap, source, target);
    assert plus.Keys + minus.Keys == minus.Keys + plus.Keys;
    var changes := ListChanges(fieldMap, minus, plus, order);
    forall c
      ensures c in changes <==> Differs(c.field, source, OrNothing(target)) && c == ChangeOf(c.field, source, OrNothing(target))
    {
      ListedExactly(fieldMap, fields, source, target, order, c);
    }
    ListSorted(fieldMap, fields, minus, plus, order);
    DeltaFromMembers(changes, source, OrNothing(target));
  }

  lemma ListSorted(fieldMap: map<string, Field>, fields: set<Field>, minus: map<string, Cell>, plus: map<string, Cell>, order: seq<Key>)
    requires Names(fieldMap, fields)
    requires minus.Keys + plus.Keys <= fieldMap.Keys
    requires order == SortedKeys(NameKeys(fieldMap, minus.Keys + plus.Keys))
    ensures StrictlySorted(SortKeysOf(ListChanges(fieldMap, minus, plus, order)))
  {
    forall k | k in order
      ensures k.identity in fieldMap && k == SortKey(fieldMap[k.identity])
    {
      NameKeyOf(fieldMap, minus.Keys + plus.Keys, k);
      assert FieldName(fieldMap[k.identity]) == k.identity;
    }
    ListedSorted(fieldMap, minus, plus, order);
  }

  lemma DeltaFromMembers(changes: seq<Change>, source: Payload, target: Payload)
    requires forall c :: c in changes <==> Differs(c.field, source, target) && c == ChangeOf(c.field, source, target)
    requires StrictlySorted(SortKeysOf(changes))
    ensures IsDelta(changes, source, target)
  {
    forall f | Differs(f, source, target)
      ensures ChangeOf(f, source, target) in changes
    {
      var c := ChangeOf(f, source, target);
      assert c.field == f;
    }
  }

  // ---- Diff and patch -------------------------------------------------------------------------

  function Apply(payload: Payload, c: Change): Payload {
    if c.source.present then payload[c.field := c.source.value] else payload - {c.field}
  }

  /** Applies the changes one after the other. */
  function Patch(payload: Payload, changes: seq<Change>): Payload {
    if changes == [] then payload else Apply(Patch(payload, changes[..|changes| - 1]), changes[|changes| - 1])
  }

  ghost predicate OneChangePerField(changes: seq<Change>) {
    forall i, j :: 0 <= i < j < |changes| ==> changes[i].field != changes[j].field
  }

  lemma SortedOnePerField(changes: seq<Change>)
    requires StrictlySorted(SortKeysOf(changes))
    ensures OneChangePerField(changes)
  {
    forall i, j | 0 <= i < j < |changes|
      ensures changes[i].field != changes[j].field
    {
      assert Less(SortKeysOf(changes)[i], SortKeysOf(changes)[j]);
      KeyTotal(SortKeysOf(changes)[i], SortKeysOf(changes)[j]);
    }
  }

  lemma {:induction false} PatchKeeps(payload: Payload, changes: seq<Change>, f: Field)
    requires forall i :: 0 <= i < |changes| ==> changes[i].field != f
    ensures CellOf(Patch(payload, changes), f) == CellOf(payload, f)
  {
    if changes != [] {
      PatchKeeps(payload, changes[..|changes| - 1], f);
    }
  }

  lemma {:induction false} PatchSets(payload: Payload, changes: seq<Change>, i: nat)
    requires i < |changes| && OneChangePerField(changes)
    requires !changes[i].source.present ==> changes[i].source == Cell(false, Null)
    ensures CellOf(Patch(payload, changes), changes[i].field) == changes[i].source
  {
    var n := |changes| - 1;
    if i < n {
      PatchSets(payload, changes[..n], i);
    }
  }

  lemma CellsDecide(a: Payload, b: Payload)
    requires forall f :: CellOf(a, f) == CellOf(b, f)
    ensures a == b
  {
    forall f
      ensures f in a <==> f in b
    {
      assert CellOf(a, f).present == CellOf(b, f).present;
    }
    forall f | f in a
      ensures a[f] == b[f]
    {
      assert CellOf(a, f) == CellOf(b, f);
    }
  }

  /** Patching the target with the changes gives the source back, and nothing else would do. */
  lemma PatchUndoesDiff(changes: seq<Change>, source: Payload, target: Payload)
    requires IsDelta(changes, source, target)
    ensures Patch(target, changes) == source
    ensures changes == [] <==> source == target
  {
    SortedOnePerField(changes);
    forall f
      ensures CellOf(Patch(target, changes), f) == CellOf(source, f)
    {
      if Differs(f, source, target) {
        assert ChangeOf(f, source, target) in changes;
        var i :| 0 <= i < |changes| && changes[i] == ChangeOf(f, source, target);
        PatchSets(target, changes, i);
      } else {
        assert forall i :: 0 <= i < |changes| ==> changes[i] in changes;
        PatchKeeps(target, changes, f);
      }
    }
    CellsDecide(Patch(target, changes), source);
    assert changes != [] ==> changes[0] in changes;
  }

  /** Under observed ownership the desired record keeps what the provider did not observe. */
  function MergeObserved(source: Payload, target: Payload): Payload {
    target + source
  }

  /** A merged record never clears a field: every change writes a value the source observed. */
  lemma ObservedNeverClears(changes: seq<Change>, source: Payload, target: Payload)
    requires IsDelta(changes, MergeObserved(source, target), target)
    ensures forall c :: c in changes ==> c.source.present && c.field in source && c.source.value == source[c.field]
    ensures forall f :: f in target && f !in source ==>
              f in Patch(target, changes) && Patch(target, changes)[f] == target[f]
    ensures forall f :: f in source ==> f in Patch(target, changes) && Patch(target, changes)[f] == source[f]
  {
    PatchUndoesDiff(changes, MergeObserved(source, target), target);
  }
}
