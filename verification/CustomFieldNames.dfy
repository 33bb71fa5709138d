/** Relationship names of custom fields: printing and parsing, and when the two undo each other. */
module CustomFieldNames {
  import opened Prelude

  const OBJECT: string := "custom_field_object_"
  const MULTI: string := "custom_field_multi_"

  datatype Parsed = Parsed(multi: bool, kind: string, field: string)

  function Lead(multi: bool): string {
    if multi then MULTI else OBJECT
  }

  /** The printed name of a custom field that refers to objects of a kind. */
  function RelationshipName(field: string, kind: string, multi: bool): string {
    Lead(multi) + kind + "_" + field
  }

  /** The kind's name and an underscore begin the text, and something is left. */
  predicate Matches(kind: string, text: string) {
    kind + "_" <= text && |kind| + 1 < |text|
  }

  function FirstFit(order: seq<string>, fits: string -> bool): (found: Option<string>)
    ensures found.Some? ==> fits(found.value)
  {
    if order == [] then None
    else if fits(order[0]) then Some(order[0])
    else FirstFit(order[1..], fits)
  }

  /** The first kind of the order that matches. */
  function FirstMatch(order: seq<string>, text: string): Option<string> {
    FirstFit(order, (kind: string) => Matches(kind, text))
  }

  function ParseAs(multi: bool, order: seq<string>, name: string): Option<Parsed> {
    if !(Lead(multi) <= name) then None
    else
      var text := name[|Lead(multi)|..];
      match FirstMatch(order, text)
      case None => None
      case Some(kind) => Some(Parsed(multi, kind, text[|kind| + 1..]))
  }

  /** Tries single objects before lists, and longer kinds before shorter ones. */
  function ParseRelationship(order: seq<string>, name: string): Option<Parsed> {
    var single := ParseAs(false, order, name);
    if single.Some? then single else ParseAs(true, order, name)
  }

  /** The registered kinds, longest first. */
  ghost predicate LongestFirst(order: seq<string>, kinds: set<string>) {
    && Elements(order) == kinds
    && forall i, j :: 0 <= i < j < |order| ==> |order[i]| >= |order[j]|
  }

  lemma LeadsDiffer(name: string)
    ensures !(OBJECT <= name && MULTI <= name)
  {
    assert OBJECT[13] == 'o' && MULTI[13] == 'm';
  }

  lemma HeadIsLongest(order: seq<string>, kinds: set<string>)
    requires LongestFirst(order, kinds) && order != []
    ensures kinds == {order[0]} + Elements(order[1..]) && LongestFirst(order[1..], Elements(order[1..]))
    ensures forall kind :: kind in kinds ==> |kind| <= |order[0]|
  {
    assert order == [order[0]] + order[1..];
    forall kind | kind in kinds
      ensures |kind| <= |order[0]|
    {
      var i :| 0 <= i < |order| && order[i] == kind;
    }
  }

  /** The fit found is a longest registered kind that fits. */
  lemma {:induction false} FirstFitLongest(order: seq<string>, kinds: set<string>, fits: string -> bool)
    requires LongestFirst(order, kinds)
    ensures FirstFit(order, fits).None? <==> forall kind :: kind in kinds ==> !fits(kind)
    ensures FirstFit(order, fits).Some? ==>
              var found := FirstFit(order, fits).value;
              found in kinds && forall kind :: kind in kinds && fits(kind) ==> |kind| <= |found|
  {
    if order != [] {
      HeadIsLongest(order, kinds);
      FirstFitLongest(order[1..], Elements(order[1..]), fits);
    }
  }

  /** The match found is the longest registered kind that matches. */
  lemma FirstMatchLongest(order: seq<string>, kinds: set<string>, text: string)
    requires LongestFirst(order, kinds)
    ensures FirstMatch(order, text).None? <==> forall kind :: kind in kinds ==> !Matches(kind, text)
    ensures FirstMatch(order, text).Some? ==>
              var found := FirstMatch(order, text).value;
              found in kinds && Matches(found, text) && forall kind :: kind in kinds && Matches(kind, text) ==> |kind| <= |found|
  {
    var fits := (kind: string) => Matches(kind, text);
    FirstFitLongest(order, kinds, fits);
    assert forall kind :: fits(kind) == Matches(kind, text);
  }

  lemma MatchSplits(kind: string, text: string)
    requires Matches(kind, text)
    ensures text == kind + "_" + text[|kind| + 1..] && text[|kind| + 1..] != ""
  {
  }

  /** Two kinds of one length cannot both match, so the order among them does not matter. */
  lemma MatchUnique(a: string, b: string, text: string)
    requires Matches(a, text) && Matches(b, text) && |a| == |b|
    ensures a == b
  {
    assert a == (a + "_")[..|a|] == text[..|a|];
    assert b == (b + "_")[..|b|] == text[..|b|];
  }

  /** Printing what was parsed gives the name back. */
  lemma PrintAfterParse(order: seq<string>, kinds: set<string>, name: string)
    requires LongestFirst(order, kinds) && ParseRelationship(order, name).Some?
    ensures var p := ParseRelationship(order, name).value;
            RelationshipName(p.field, p.kind, p.multi) == name && p.kind in kinds && p.field != ""
    ensures var p := ParseRelationship(order, name).value;
            name == (if p.multi then "custom_field_multi_" else "custom_field_object_") + p.kind + "_" + p.field
  {
    var p := ParseRelationship(order, name).value;
    var text := name[|Lead(p.multi)|..];
    FirstMatchLongest(order, kinds, text);
    MatchSplits(p.kind, text);
    Chained(Lead(p.multi), p.kind, "_", p.field);
    assert name == Lead(p.multi) + text;
  }

  lemma Chained(a: string, b: string, c: string, d: string)
    ensures a + b + c + d == a + (b + c + d)
    ensures (a + (b + c + d))[|a|..] == b + c + d
  {
  }

  lemma ParsePrinted(order: seq<string>, field: string, kind: string, multi: bool)
    ensures ParseRelationship(order, RelationshipName(field, kind, multi)) == ParseAs(multi, order, RelationshipName(field, kind, multi))
    ensures Lead(multi) <= RelationshipName(field, kind, multi)
    ensures RelationshipName(field, kind, multi)[|Lead(multi)|..] == kind + "_" + field
  {
    var name := RelationshipName(field, kind, multi);
    Chained(Lead(multi), kind, "_", field);
    LeadsDiffer(name);
    assert Lead(multi) <= name;
  }

  /** Parsing a printed name finds the longest registered kind that begins what was printed, whatever was meant. */
  lemma ParseAfterPrint(order: seq<string>, kinds: set<string>, field: string, kind: string, multi: bool)
    requires LongestFirst(order, kinds) && kind in kinds && field != ""
    ensures var text := kind + "_" + field;
            var result := ParseRelationship(order, RelationshipName(field, kind, multi));
            && result.Some? && result.value.multi == multi && result.value.kind in kinds
            && Matches(result.value.kind, text) && result.value.field == text[|result.value.kind| + 1..]
            && forall other :: other in kinds && Matches(other, text) ==> |other| <= |result.value.kind|
  {
    ParsePrinted(order, field, kind, multi);
    var text := kind + "_" + field;
    FirstMatchLongest(order, kinds, text);
    assert Matches(kind, text);
  }

  /** The name round-trips exactly when no longer registered kind matches it. */
  lemma RoundTripExactly(order: seq<string>, kinds: set<string>, field: string, kind: string, multi: bool)
    requires LongestFirst(order, kinds) && kind in kinds && field != ""
    ensures ParseRelationship(order, RelationshipName(field, kind, multi)) == Some(Parsed(multi, kind, field)) <==>
            forall other :: other in kinds && |other| > |kind| ==> !Matches(other, kind + "_" + field)
  {
    var text := kind + "_" + field;
    ParseAfterPrint(order, kinds, field, kind, multi);
    var found := ParseRelationship(order, RelationshipName(field, kind, multi)).value;
    assert Matches(kind, text);
    if |found.kind| == |kind| {
      MatchUnique(found.kind, kind, text);
      assert text[|kind| + 1..] == field;
    }
  }

  /** The field `type_x` of a device reads back as the field `x` of a device type. */
  lemma DeviceTypeShadows(order: seq<string>, kinds: set<string>)
    requires LongestFirst(order, kinds) && "device" in kinds && "device_type" in kinds
    ensures ParseRelationship(order, RelationshipName("type_x", "device", false)) != Some(Parsed(false, "device", "type_x"))
  {
    RoundTripExactly(order, kinds, "type_x", "device", false);
    assert "device" + "_" + "type_x" == "device_type" + "_" + "x";
    assert Matches("device_type", "device" + "_" + "type_x");
  }
}
