/** From a collection run's observations to canonical records and rejections. */
module SourceRecords {
  import opened Prelude
  import opened IdentityResolution
  import opened CanonicalDiff

  /** Which kinds the comparison supports, and how a record is labelled. */
  datatype Scope = Scope(supported: set<string>, display: (map<string, Json>, string) -> string)

  /** A line for an observation that is turned away, with what can be shown of it. */
  datatype Rejection = Rejection(externalId: string, kind: string, unsupported: bool, displayName: string, attributes: map<string, Json>)

  /** The attributes whose path is not empty. */
  function Pathed(attributes: seq<(string, Json)>): seq<(string, Json)> {
    if attributes == [] then []
    else
      var n := |attributes| - 1;
      Pathed(attributes[..n]) + (if attributes[n].0 != "" then [attributes[n]] else [])
  }

  /** Turning an observation away normalises its own attributes again, and nothing catches a failure of that. */
  function Refusal(scope: Scope, rules: Rules, o: Observation): Option<Rejection> {
    match Normalized(rules, Pathed(o.attributes))
    case None => None
    case Some(shown) =>
      Some(Rejection(o.externalId, o.kind, o.kind !in scope.supported, scope.display(shown, o.externalId), shown))
  }

  /** Attributes that do not normalise without those of empty path do not normalise with them either. */
  lemma {:induction false} PathedNormalized(rules: Rules, attributes: seq<(string, Json)>)
    ensures Normalized(rules, attributes).Some? ==> Normalized(rules, Pathed(attributes)).Some?
  {
    if attributes != [] {
      var n := |attributes| - 1;
      PathedNormalized(rules, attributes[..n]);
      var before := Pathed(attributes[..n]);
      assert (before + [attributes[n]])[..|before|] == before;
      assert before + [] == before;
    }
  }

  function RelatedValue(r: Related): Json {
    match r
    case One(key) => Text(key)
    case Many(keys) => List(seq(|keys|, i requires 0 <= i < |keys| => Text(keys[i])))
  }

  function PayloadOf(attributes: map<string, Json>, related: map<string, Related>): Payload {
    (map f: Field | f in (set name | name in attributes :: Field(Attributes, name)) :: attributes[f.name]) +
    (map f: Field | f in (set name | name in related :: Field(Relationships, name)) :: RelatedValue(related[f.name]))
  }

  /** The record of an observation whose links, all of them, have the given keys. */
  function RecordFrom(scope: Scope, rules: Rules, o: Observation, keys: seq<string>, identity: string): Option<Canonical>
    requires |keys| == |o.links|
  {
    match Normalized(rules, o.attributes)
    case None => None
    case Some(attributes) =>
      match Cardinality(rules, o.kind, Grouped(o.links, keys))
      case None => None
      case Some(related) =>
        Some(Canonical(o.kind, identity, scope.display(attributes, o.externalId), o.externalId, PayloadOf(attributes, related), "", ""))
  }

  /** What it means for an observation to have a record: all links and the observation itself are identified. */
  ghost predicate HasRecord(scope: Scope, w: World, id: string, record: Canonical) {
    && id in w.observations
    && exists keys, identity :: Yields(scope, w, id, keys, identity, record)
  }

  ghost predicate Yields(scope: Scope, w: World, id: string, keys: seq<string>, identity: string, record: Canonical)
    requires id in w.observations
  {
    && KeysFor(w, w.observations[id].links, keys)
    && HasKey(w, id, identity)
    && RecordFrom(scope, w.rules, w.observations[id], keys, identity) == Some(record)
  }

  ghost predicate Resolvable(scope: Scope, w: World, id: string) {
    exists record :: HasRecord(scope, w, id, record)
  }

  lemma {:induction false} KeysForUnique(w: World, links: seq<Link>, a: seq<string>, b: seq<string>)
    requires KeysFor(w, links, a) && KeysFor(w, links, b)
    ensures a == b
  {
    forall i | 0 <= i < |a|
      ensures a[i] == b[i]
    {
      KeyUnique(w, links[i].target, a[i], b[i]);
    }
  }

  /** An observation has at most one record. */
  lemma RecordUnique(scope: Scope, w: World, id: string, a: Canonical, b: Canonical)
    requires HasRecord(scope, w, id, a) && HasRecord(scope, w, id, b)
    ensures a == b
  {
    var keys, identity :| Yields(scope, w, id, keys, identity, a);
    var keys', identity' :| Yields(scope, w, id, keys', identity', b);
    KeysForUnique(w, w.observations[id].links, keys, keys');
    KeyUnique(w, id, identity, identity');
  }

  lemma RecordedLinks(scope: Scope, w: World, id: string, record: Canonical, link: Link)
    requires HasRecord(scope, w, id, record) && link in w.observations[id].links
    ensures Identified(w, link.target)
  {
    var keys, identity :| Yields(scope, w, id, keys, identity, record);
    var i :| 0 <= i < |w.observations[id].links| && w.observations[id].links[i] == link;
    assert HasKey(w, link.target, keys[i]);
    IdentifiedHasKey(w, link.target);
  }

  lemma RecordedFrom(scope: Scope, w: World, id: string, record: Canonical, keys: seq<string>)
    requires HasRecord(scope, w, id, record) && KeysFor(w, w.observations[id].links, keys)
    ensures Identified(w, id)
    ensures exists identity :: RecordFrom(scope, w.rules, w.observations[id], keys, identity).Some?
  {
    var keys', identity :| Yields(scope, w, id, keys', identity, record);
    KeysForUnique(w, w.observations[id].links, keys, keys');
    IdentifiedHasKey(w, id);
    assert RecordFrom(scope, w.rules, w.observations[id], keys, identity).Some?;
  }

  lemma Unresolved(scope: Scope, w: World, id: string, link: Link)
    requires id in w.observations && link in w.observations[id].links && !Identified(w, link.target)
    ensures !Resolvable(scope, w, id)
  {
    forall record
      ensures !HasRecord(scope, w, id, record)
    {
      if HasRecord(scope, w, id, record) {
        RecordedLinks(scope, w, id, record, link);
      }
    }
  }

  lemma Unrecorded(scope: Scope, w: World, id: string, keys: seq<string>)
    requires id in w.observations && KeysFor(w, w.observations[id].links, keys)
    requires !Identified(w, id) || forall identity :: RecordFrom(scope, w.rules, w.observations[id], keys, identity).None?
    ensures !Resolvable(scope, w, id)
  {
    forall record
      ensures !HasRecord(scope, w, id, record)
    {
      if HasRecord(scope, w, id, record) {
        RecordedFrom(scope, w, id, record, keys);
      }
    }
  }

  lemma RecordedAttributes(scope: Scope, w: World, id: string, record: Canonical)
    requires HasRecord(scope, w, id, record)
    ensures Normalized(w.rules, w.observations[id].attributes).Some?
  {
    var keys, identity :| Yields(scope, w, id, keys, identity, record);
  }

  lemma BadAttributesUnrecorded(scope: Scope, w: World, id: string)
    requires id in w.observations && Normalized(w.rules, w.observations[id].attributes).None?
    ensures !Resolvable(scope, w, id)
  {
    forall record
      ensures !HasRecord(scope, w, id, record)
    {
      if HasRecord(scope, w, id, record) {
        RecordedAttributes(scope, w, id, record);
      }
    }
  }

  /** Resolves one identity from outside any other resolution. */
  method ResolveTop(resolver: Resolver, id: string) returns (result: Result<string, Failure>)
    requires resolver.Valid() && resolver.resolving == {}
    modifies resolver
    ensures resolver.Valid() && resolver.resolving == {}
    ensures result.Ok? ==> HasKey(resolver.world, id, result.value)
    ensures result.Err? ==> !Identified(resolver.world, id)
  {
    assert [] + [id] == [id];
    assert Elements<string>([]) == {};
    result := resolver.ResolveIdentity(id, []);
  }

  method ResolveAll(resolver: Resolver, links: seq<Link>) returns (keys: Option<seq<string>>, ghost blocked: Option<Link>)
    requires resolver.Valid() && resolver.resolving == {}
    modifies resolver
    ensures resolver.Valid() && resolver.resolving == {}
    ensures keys.Some? ==> KeysFor(resolver.world, links, keys.value)
    ensures keys.None? ==> blocked.Some? && blocked.value in links && !Identified(resolver.world, blocked.value.target)
  {
    var found: seq<string> := [];
    blocked := None;
    for i := 0 to |links|
      invariant resolver.Valid() && resolver.resolving == {}
      invariant KeysFor(resolver.world, links[..i], found)
    {
      var key := ResolveTop(resolver, links[i].target);
      if key.Err? {
        return None, Some(links[i]);
      }
      assert links[..i + 1] == links[..i] + [links[i]];
      found := found + [key.value];
    }
    assert links[..|links|] == links;
    return Some(found), None;
  }

  /** One observation's record; None exactly when it has none. */
  method Resolve(scope: Scope, resolver: Resolver, id: string) returns (result: Option<Canonical>)
    requires resolver.Valid() && resolver.resolving == {}
    modifies resolver
    ensures resolver.Valid() && resolver.resolving == {}
    ensures result.Some? ==> HasRecord(scope, resolver.world, id, result.value)
    ensures result.None? ==> !Resolvable(scope, resolver.world, id)
  {
    var w := resolver.world;
    if id !in w.observations {
      return None;
    }
    var o := w.observations[id];
    var attributes := Normalized(w.rules, o.attributes);
    if attributes.None? {
      BadAttributesUnrecorded(scope, w, id);
      return None;
    }
    ghost var blocked: Option<Link>;
    var keys: Option<seq<string>>;
    keys, blocked := ResolveAll(resolver, o.links);
    if keys.None? {
      Unresolved(scope, w, id, blocked.value);
      return None;
    }
    var related := Cardinality(w.rules, o.kind, Grouped(o.links, keys.value));
    if related.None? {
      Unrecorded(scope, w, id, keys.value);
      return None;
    }
    var identity := ResolveTop(resolver, id);
    if identity.Err? {
      Unrecorded(scope, w, id, keys.value);
      return None;
    }
    result := RecordFrom(scope, w.rules, o, keys.value, identity.value);
    assert Yields(scope, w, id, keys.value, identity.value, result.value);
  }

  // ---- A whole run ----------------------------------------------------------------------------

  /** Observations by external ID; a later observation replaces an earlier one with the same ID. */
  function ByExternalId(observations: seq<Observation>): (m: map<string, Observation>)
    ensures forall id :: id in m <==> exists o :: o in observations && o.externalId == id
    ensures forall id :: id in m ==> m[id] in observations && m[id].externalId == id
  {
    if observations == [] then map[]
    else
      var n := |observations| - 1;
      assert observations == observations[..n] + [observations[n]];
      ByExternalId(observations[..n])[observations[n].externalId := observations[n]]
  }

  /** What the scan of a run asks about an external ID: whether it has a record, and which one. */
  datatype Judge = Judge(supported: set<string>, known: string -> bool, means: (string, Canonical) -> bool,
                         refusal: Observation -> Option<Rejection>)

  ghost function JudgeOf(scope: Scope, w: World): Judge {
    Judge(scope.supported, (id: string) => Resolvable(scope, w, id), (id: string, r: Canonical) => HasRecord(scope, w, id, r),
          (o: Observation) => Refusal(scope, w.rules, o))
  }

  ghost predicate Recorded(judge: Judge, o: Observation) {
    o.kind in judge.supported && judge.known(o.externalId)
  }

  /** The observations that are turned away, in order. */
  ghost function Refused(judge: Judge, observations: seq<Observation>): seq<Observation> {
    if observations == [] then []
    else
      var n := |observations| - 1;
      Refused(judge, observations[..n]) + (if Recorded(judge, observations[n]) then [] else [observations[n]])
  }

  lemma {:induction false} RefusedMembers(judge: Judge, observations: seq<Observation>)
    ensures forall o :: o in Refused(judge, observations) <==> o in observations && !Recorded(judge, o)
  {
    if observations != [] {
      var n := |observations| - 1;
      RefusedMembers(judge, observations[..n]);
      assert observations == observations[..n] + [observations[n]];
    }
  }

  /** Every observation that is turned away can be shown. */
  ghost predicate Showable(judge: Judge, observations: seq<Observation>) {
    forall o :: o in observations && !Recorded(judge, o) ==> judge.refusal(o).Some?
  }

  /** The rejections are the refusals of the observations turned away, in order. */
  ghost predicate Shows(judge: Judge, refused: seq<Observation>, rejected: seq<Rejection>) {
    && |rejected| == |refused|
    && forall i :: 0 <= i < |refused| ==> judge.refusal(refused[i]) == Some(rejected[i])
  }

  ghost function Kept(judge: Judge, observations: seq<Observation>): seq<string> {
    if observations == [] then []
    else
      var n := |observations| - 1;
      Kept(judge, observations[..n]) + (if Recorded(judge, observations[n]) then [observations[n].externalId] else [])
  }

  /** A recordable observation whose external ID an earlier supported observation already used. */
  ghost predicate Shadowed(judge: Judge, observations: seq<Observation>, i: nat)
    requires i < |observations|
  {
    && Recorded(judge, observations[i])
    && exists j :: 0 <= j < i && observations[j].kind in judge.supported && observations[j].externalId == observations[i].externalId
  }

  /** The observation the lookup finds under this one's external ID is of a supported kind. */
  ghost predicate FoundSupported(judge: Judge, observations: seq<Observation>, i: nat)
    requires i < |observations|
  {
    var byId, id := ByExternalId(observations), observations[i].externalId;
    id in byId && byId[id].kind in judge.supported
  }

  /** No recordable observation shares its external ID with another, in the way the lookup notices. */
  ghost predicate Unshared(judge: Judge, observations: seq<Observation>) {
    && (forall i :: 0 <= i < |observations| ==> !Shadowed(judge, observations, i))
    && (forall i :: 0 <= i < |observations| && Recorded(judge, observations[i]) ==> FoundSupported(judge, observations, i))
  }

  function ExternalIds(records: seq<Canonical>): seq<string> {
    seq(|records|, i requires 0 <= i < |records| => records[i].externalId)
  }

  function ObservedIds(observations: seq<Observation>): seq<string> {
    Mapped((o: Observation) => o.externalId, observations)
  }

  function RejectedIds(rejected: seq<Rejection>): (ids: seq<string>)
    ensures |ids| == |rejected|
  {
    seq(|rejected|, i requires 0 <= i < |rejected| => rejected[i].externalId)
  }

  /** How many of the first i observations repeat an external ID that already has a record. */
  ghost function Shadows(judge: Judge, observations: seq<Observation>, i: nat): nat
    requires i <= |observations|
  {
    if i == 0 then 0
    else Shadows(judge, observations, i - 1) + (if Shadowed(judge, observations, i - 1) then 1 else 0)
  }

  /** The IDs recorded so far, each where it first occurs. */
  ghost function Firsts(judge: Judge, observations: seq<Observation>, i: nat): seq<string>
    requires i <= |observations|
  {
    if i == 0 then []
    else if Recorded(judge, observations[i - 1]) && !Shadowed(judge, observations, i - 1)
    then Firsts(judge, observations, i - 1) + [observations[i - 1].externalId]
    else Firsts(judge, observations, i - 1)
  }

  lemma {:induction false} NoShadows(judge: Judge, observations: seq<Observation>, i: nat)
    requires i <= |observations|
    ensures Shadows(judge, observations, i) == 0 <==> forall j :: 0 <= j < i ==> !Shadowed(judge, observations, j)
    ensures Shadows(judge, observations, i) == 0 ==> Firsts(judge, observations, i) == Kept(judge, observations[..i])
  {
    if i > 0 {
      NoShadows(judge, observations, i - 1);
      assert observations[..i][..i - 1] == observations[..i - 1];
      assert Kept(judge, observations[..i - 1]) + [] == Kept(judge, observations[..i - 1]);
    }
  }

  /** Progress through the run: the records found so far, in order, and the observations turned away. */
  datatype Scan = Scan(i: nat, resolved: map<string, Canonical>, order: seq<string>, rejected: seq<Rejection>)

  datatype ScanClause = OrderPart | RecordPart | SeenPart | RefusedPart | CountPart

  ghost predicate Seen(judge: Judge, observations: seq<Observation>, i: nat, id: string) {
    exists j :: 0 <= j < i && j < |observations| && Recorded(judge, observations[j]) && observations[j].externalId == id
  }

  ghost predicate ScanHolds(judge: Judge, observations: seq<Observation>, s: Scan, clause: ScanClause) {
    && s.i <= |observations|
    && match clause
       case OrderPart => s.order == Firsts(judge, observations, s.i) && Elements(s.order) == s.resolved.Keys
       case RecordPart => forall id :: id in s.resolved ==> judge.means(id, s.resolved[id])
       case SeenPart => forall id :: id in s.resolved <==> Seen(judge, observations, s.i, id)
       case RefusedPart => Shows(judge, Refused(judge, observations[..s.i]), s.rejected)
       case CountPart => |s.order| + |s.rejected| + Shadows(judge, observations, s.i) == s.i
  }

  ghost predicate Scanned(judge: Judge, observations: seq<Observation>, s: Scan) {
    forall clause :: ScanHolds(judge, observations, s, clause)
  }

  lemma ScanRefuses(judge: Judge, observations: seq<Observation>, s: Scan, r: Rejection)
    requires Scanned(judge, observations, s) && s.i < |observations|
    requires !Recorded(judge, observations[s.i]) && judge.refusal(observations[s.i]) == Some(r)
    ensures Scanned(judge, observations, s.(i := s.i + 1, rejected := s.rejected + [r]))
  {
    var t := s.(i := s.i + 1, rejected := s.rejected + [r]);
    forall clause
      ensures ScanHolds(judge, observations, t, clause)
    {
      assert ScanHolds(judge, observations, s, clause);
      match clause {
        case OrderPart =>
        case RecordPart =>
        case SeenPart => SeenGrows(judge, observations, s.i);
        case RefusedPart =>
          assert observations[..t.i][..s.i] == observations[..s.i];
        case CountPart =>
      }
    }
  }

  lemma SeenGrows(judge: Judge, observations: seq<Observation>, i: nat)
    requires i < |observations|
    ensures forall id :: Seen(judge, observations, i + 1, id) <==>
              Seen(judge, observations, i, id) || (Recorded(judge, observations[i]) && observations[i].externalId == id)
  {
    forall id
      ensures Seen(judge, observations, i + 1, id) <==>
              Seen(judge, observations, i, id) || (Recorded(judge, observations[i]) && observations[i].externalId == id)
    {
      if Seen(judge, observations, i + 1, id) {
        var j :| 0 <= j < i + 1 && Recorded(judge, observations[j]) && observations[j].externalId == id;
      }
      if Seen(judge, observations, i, id) {
        var j :| 0 <= j < i && Recorded(judge, observations[j]) && observations[j].externalId == id;
      }
    }
  }

  /** Once an ID has a record, a repeated observation of it is shadowed, and only then. */
  lemma ShadowedWhenSeen(judge: Judge, observations: seq<Observation>, i: nat)
    requires i < |observations| && Recorded(judge, observations[i])
    ensures Shadowed(judge, observations, i) <==> Seen(judge, observations, i, observations[i].externalId)
  {
    if Shadowed(judge, observations, i) {
      var j :| 0 <= j < i && observations[j].kind in judge.supported && observations[j].externalId == observations[i].externalId;
      assert Recorded(judge, observations[j]);
    }
  }

  lemma ScanKeeps(judge: Judge, observations: seq<Observation>, s: Scan, record: Canonical)
    requires Scanned(judge, observations, s) && s.i < |observations|
    requires observations[s.i].kind in judge.supported && observations[s.i].externalId !in s.resolved
    requires judge.means(observations[s.i].externalId, record) && judge.known(observations[s.i].externalId)
    ensures var id := observations[s.i].externalId;
            Scanned(judge, observations, Scan(s.i + 1, s.resolved[id := record], s.order + [id], s.rejected))
  {
    var id := observations[s.i].externalId;
    var t := Scan(s.i + 1, s.resolved[id := record], s.order + [id], s.rejected);
    assert Recorded(judge, observations[s.i]);
    ShadowedWhenSeen(judge, observations, s.i);
    assert ScanHolds(judge, observations, s, SeenPart);
    forall clause
      ensures ScanHolds(judge, observations, t, clause)
    {
      assert ScanHolds(judge, observations, s, clause);
      match clause {
        case OrderPart => assert Elements(t.order) == Elements(s.order) + {id};
        case RecordPart =>
        case SeenPart => SeenGrows(judge, observations, s.i);
        case RefusedPart => RefusedKeeps(judge, observations, s.i);
        case CountPart =>
      }
    }
  }

  lemma RefusedKeeps(judge: Judge, observations: seq<Observation>, i: nat)
    requires i < |observations| && Recorded(judge, observations[i])
    ensures Refused(judge, observations[..i + 1]) == Refused(judge, observations[..i])
  {
    assert observations[..i + 1][..i] == observations[..i];
    assert Refused(judge, observations[..i]) + [] == Refused(judge, observations[..i]);
  }

  lemma ScanRepeats(judge: Judge, observations: seq<Observation>, s: Scan)
    requires Scanned(judge, observations, s) && s.i < |observations|
    requires observations[s.i].kind in judge.supported && observations[s.i].externalId in s.resolved
    requires judge.known(observations[s.i].externalId)
    ensures Scanned(judge, observations, s.(i := s.i + 1))
  {
    var id := observations[s.i].externalId;
    var t := s.(i := s.i + 1);
    assert ScanHolds(judge, observations, s, SeenPart);
    assert Recorded(judge, observations[s.i]);
    ShadowedWhenSeen(judge, observations, s.i);
    forall clause
      ensures ScanHolds(judge, observations, t, clause)
    {
      assert ScanHolds(judge, observations, s, clause);
      match clause {
        case OrderPart =>
        case RecordPart =>
        case SeenPart => SeenGrows(judge, observations, s.i);
        case RefusedPart => RefusedKeeps(judge, observations, s.i);
        case CountPart =>
      }
    }
  }

  datatype Loading = Loading(records: seq<Canonical>, rejected: seq<Rejection>)

  /**
   * Loads a run, unless an observation that is turned away cannot be shown. Then every record is the one its
   * observation means; the rejections are those of exactly the observations without a supported record; and
   * nothing is lost exactly when no external ID is shared.
   */
  method LoadSourceRecords(scope: Scope, rules: Rules, observations: seq<Observation>) returns (loading: Option<Loading>)
    ensures var judge := JudgeOf(scope, World(rules, ByExternalId(observations)));
            && (loading.Some? <==> Showable(judge, observations))
            && (loading.Some? ==> Loaded(judge, observations, loading.value.records, loading.value.rejected))
  {
    var w := World(rules, ByExternalId(observations));
    ghost var judge := JudgeOf(scope, w);
    var resolver := new Resolver(w);
    var scan := Scan(0, map[], [], []);
    ScanStarts(judge, observations);
    while scan.i < |observations|
      invariant resolver.Valid() && resolver.resolving == {} && resolver.world == w
      invariant fresh(resolver)
      invariant Scanned(judge, observations, scan) && scan.i <= |observations|
    {
      var next := ScanObservation(scope, resolver, observations, scan);
      if next.None? {
        return None;
      }
      scan := next.value;
    }
    JudgeConsistent(scope, w);
    ScanEnds(judge, observations, scan);
    LoadedIsShowable(judge, observations, SelectSupported(scope.supported, scan.resolved, scan.order), scan.rejected);
    return Some(Loading(SelectSupported(scope.supported, scan.resolved, scan.order), scan.rejected));
  }

  /** Turns the next observation away, or enters its record unless its external ID already has one. */
  method ScanObservation(scope: Scope, resolver: Resolver, observations: seq<Observation>, s: Scan) returns (t: Option<Scan>)
    requires resolver.Valid() && resolver.resolving == {}
    requires Scanned(JudgeOf(scope, resolver.world), observations, s) && s.i < |observations|
    modifies resolver
    ensures resolver.Valid() && resolver.resolving == {}
    ensures t.Some? ==> Scanned(JudgeOf(scope, resolver.world), observations, t.value) && t.value.i == s.i + 1
    ensures t.None? ==> !Showable(JudgeOf(scope, resolver.world), observations)
  {
    var o := observations[s.i];
    if o.kind !in scope.supported {
      t := Refuse(scope, resolver, observations, s);
      return;
    }
    if o.externalId in s.resolved {
      ResolvedIsKnown(scope, resolver.world, observations, s, o.externalId);
      ScanRepeats(JudgeOf(scope, resolver.world), observations, s);
      return Some(s.(i := s.i + 1));
    }
    var record := Resolve(scope, resolver, o.externalId);
    if record.None? {
      t := Refuse(scope, resolver, observations, s);
      return;
    }
    ScanKeeps(JudgeOf(scope, resolver.world), observations, s, record.value);
    return Some(Scan(s.i + 1, s.resolved[o.externalId := record.value], s.order + [o.externalId], s.rejected));
  }

  /** Lists the next observation among the rejections. */
  method Refuse(scope: Scope, resolver: Resolver, observations: seq<Observation>, s: Scan) returns (t: Option<Scan>)
    requires Scanned(JudgeOf(scope, resolver.world), observations, s) && s.i < |observations|
    requires !Recorded(JudgeOf(scope, resolver.world), observations[s.i])
    ensures t.Some? ==> Scanned(JudgeOf(scope, resolver.world), observations, t.value) && t.value.i == s.i + 1
    ensures t.None? ==> !Showable(JudgeOf(scope, resolver.world), observations)
  {
    var o := observations[s.i];
    var refusal := Refusal(scope, resolver.world.rules, o);
    if refusal.None? {
      assert o in observations;
      return None;
    }
    ScanRefuses(JudgeOf(scope, resolver.world), observations, s, refusal.value);
    return Some(s.(i := s.i + 1, rejected := s.rejected + [refusal.value]));
  }

  lemma ResolvedIsKnown(scope: Scope, w: World, observations: seq<Observation>, s: Scan, id: string)
    requires Scanned(JudgeOf(scope, w), observations, s) && id in s.resolved
    ensures JudgeOf(scope, w).known(id)
  {
    assert ScanHolds(JudgeOf(scope, w), observations, s, RecordPart);
    assert HasRecord(scope, w, id, s.resolved[id]);
  }

  /** What loading guarantees. */
  ghost predicate Loaded(judge: Judge, observations: seq<Observation>, records: seq<Canonical>, rejected: seq<Rejection>) {
    forall promise :: LoadPromise(judge, observations, records, rejected, promise)
  }

  datatype Promise = Refusals | Meaning | Coverage | Accounting | Order

  ghost predicate LoadPromise(judge: Judge, observations: seq<Observation>, records: seq<Canonical>, rejected: seq<Rejection>,
                              promise: Promise)
  {
    match promise
    case Refusals =>
      && Shows(judge, Refused(judge, observations), rejected)
      && RejectedIds(rejected) == ObservedIds(Refused(judge, observations))
    case Meaning => forall r :: r in records ==> r.kind in judge.supported && judge.means(r.externalId, r)
    case Coverage =>
      forall i :: 0 <= i < |observations| && Recorded(judge, observations[i]) && FoundSupported(judge, observations, i) ==>
                    exists r :: r in records && r.externalId == observations[i].externalId
    case Accounting =>
      && |records| + |rejected| <= |observations|
      && (|records| + |rejected| == |observations| <==> Unshared(judge, observations))
    case Order => Unshared(judge, observations) ==> ExternalIds(records) == Kept(judge, observations)
  }

  lemma LoadedIsShowable(judge: Judge, observations: seq<Observation>, records: seq<Canonical>, rejected: seq<Rejection>)
    requires Loaded(judge, observations, records, rejected)
    ensures Showable(judge, observations)
  {
    assert LoadPromise(judge, observations, records, rejected, Refusals);
    var refused := Refused(judge, observations);
    RefusedMembers(judge, observations);
    forall o | o in observations && !Recorded(judge, o)
      ensures judge.refusal(o).Some?
    {
      var i :| 0 <= i < |refused| && refused[i] == o;
    }
  }

  /** The answers of a judge agree, and a record or a rejection carries its observation's ID, a record also its kind. */
  ghost predicate Consistent(judge: Judge, byId: map<string, Observation>) {
    && (forall id, r :: judge.means(id, r) ==> judge.known(id))
    && (forall id, r :: judge.means(id, r) ==> id in byId && r.kind == byId[id].kind && r.externalId == byId[id].externalId)
    && (forall o :: judge.refusal(o).Some? ==> judge.refusal(o).value.externalId == o.externalId)
  }

  lemma JudgeConsistent(scope: Scope, w: World)
    ensures Consistent(JudgeOf(scope, w), w.observations)
  {
    forall id, r | HasRecord(scope, w, id, r)
      ensures id in w.observations && r.kind == w.observations[id].kind && r.externalId == w.observations[id].externalId
    {
      var keys, identity :| Yields(scope, w, id, keys, identity, r);
    }
  }

  function SelectSupported(supported: set<string>, resolved: map<string, Canonical>, order: seq<string>): seq<Canonical> {
    if order == [] then []
    else
      var n := |order| - 1;
      SelectSupported(supported, resolved, order[..n]) +
      (if order[n] in resolved && resolved[order[n]].kind in supported then [resolved[order[n]]] else [])
  }

  lemma {:induction false} SelectAll(supported: set<string>, resolved: map<string, Canonical>, order: seq<string>)
    requires forall id :: id in order ==> id in resolved && resolved[id].externalId == id
    ensures |SelectSupported(supported, resolved, order)| <= |order|
    ensures |SelectSupported(supported, resolved, order)| == |order| <==> forall id :: id in order ==> resolved[id].kind in supported
    ensures |SelectSupported(supported, resolved, order)| == |order| ==> ExternalIds(SelectSupported(supported, resolved, order)) == order
    ensures forall r :: r in SelectSupported(supported, resolved, order) ==>
              r.kind in supported && r.externalId in order && r.externalId in resolved && resolved[r.externalId] == r
    ensures forall id :: id in order && resolved[id].kind in supported ==> resolved[id] in SelectSupported(supported, resolved, order)
  {
    if order != [] {
      var n := |order| - 1;
      assert order == order[..n] + [order[n]] && order[n] in order;
      SelectAll(supported, resolved, order[..n]);
    }
  }

  lemma ScanEnds(judge: Judge, observations: seq<Observation>, s: Scan)
    requires Consistent(judge, ByExternalId(observations))
    requires Scanned(judge, observations, s) && s.i == |observations|
    ensures Loaded(judge, observations, SelectSupported(judge.supported, s.resolved, s.order), s.rejected)
  {
    var records := SelectSupported(judge.supported, s.resolved, s.order);
    assert observations[..s.i] == observations;
    forall promise
      ensures LoadPromise(judge, observations, records, s.rejected, promise)
    {
      match promise {
        case Refusals =>
          assert ScanHolds(judge, observations, s, RefusedPart);
          EndRefuses(judge, observations, s);
        case Meaning => EndMeans(judge, observations, s);
        case Coverage => EndCovers(judge, observations, s);
        case Accounting =>
          assert ScanHolds(judge, observations, s, CountPart);
          EndKept(judge, observations, s);
          EndCounts(judge, observations, s, |records|);
        case Order => EndOrder(judge, observations, s);
      }
    }
  }

  lemma EndRefuses(judge: Judge, observations: seq<Observation>, s: Scan)
    requires Consistent(judge, ByExternalId(observations))
    requires ScanHolds(judge, observations, s, RefusedPart) && s.i == |observations|
    ensures Shows(judge, Refused(judge, observations), s.rejected)
    ensures RejectedIds(s.rejected) == ObservedIds(Refused(judge, observations))
  {
    assert observations[..s.i] == observations;
    ShownIds(judge, Refused(judge, observations), s.rejected);
  }

  lemma ShownIds(judge: Judge, refused: seq<Observation>, rejected: seq<Rejection>)
    requires forall o :: judge.refusal(o).Some? ==> judge.refusal(o).value.externalId == o.externalId
    requires Shows(judge, refused, rejected)
    ensures RejectedIds(rejected) == ObservedIds(refused)
  {
  }

  lemma EndMeans(judge: Judge, observations: seq<Observation>, s: Scan)
    requires Consistent(judge, ByExternalId(observations))
    requires Scanned(judge, observations, s) && s.i == |observations|
    ensures forall r :: r in SelectSupported(judge.supported, s.resolved, s.order) ==>
              r.kind in judge.supported && judge.means(r.externalId, r)
  {
    RecordsNamed(judge, observations, s);
    SelectAll(judge.supported, s.resolved, s.order);
  }

  lemma EndCovers(judge: Judge, observations: seq<Observation>, s: Scan)
    requires Consistent(judge, ByExternalId(observations))
    requires Scanned(judge, observations, s) && s.i == |observations|
    ensures LoadPromise(judge, observations, SelectSupported(judge.supported, s.resolved, s.order), s.rejected, Coverage)
  {
    RecordsNamed(judge, observations, s);
    OrderSeen(judge, observations, s);
    SelectAll(judge.supported, s.resolved, s.order);
    var records := SelectSupported(judge.supported, s.resolved, s.order);
    forall i | 0 <= i < |observations| && Recorded(judge, observations[i]) && FoundSupported(judge, observations, i)
      ensures exists r :: r in records && r.externalId == observations[i].externalId
    {
      var id := observations[i].externalId;
      assert Seen(judge, observations, s.i, id);
      assert s.resolved[id] in records;
    }
  }

  ghost predicate KindsFound(judge: Judge, observations: seq<Observation>) {
    forall i :: 0 <= i < |observations| && Recorded(judge, observations[i]) ==> FoundSupported(judge, observations, i)
  }

  lemma UnsharedExactly(judge: Judge, observations: seq<Observation>)
    ensures Unshared(judge, observations) <==> Shadows(judge, observations, |observations|) == 0 && KindsFound(judge, observations)
  {
    NoShadows(judge, observations, |observations|);
  }

  /** How many records the look-up of kinds keeps, and when it keeps all. */
  lemma EndKept(judge: Judge, observations: seq<Observation>, s: Scan)
    requires Consistent(judge, ByExternalId(observations))
    requires Scanned(judge, observations, s) && s.i == |observations|
    ensures var records := SelectSupported(judge.supported, s.resolved, s.order);
            && |records| <= |s.order|
            && (|records| == |s.order| ==> ExternalIds(records) == s.order)
            && (|records| == |s.order| <==> KindsFound(judge, observations))
  {
    RecordsNamed(judge, observations, s);
    SelectAll(judge.supported, s.resolved, s.order);
    KindsKept(judge, observations, s);
  }

  lemma EndCounts(judge: Judge, observations: seq<Observation>, s: Scan, kept: nat)
    requires ScanHolds(judge, observations, s, CountPart) && s.i == |observations|
    requires kept <= |s.order| && (kept == |s.order| <==> KindsFound(judge, observations))
    ensures kept + |s.rejected| <= |observations|
    ensures kept + |s.rejected| == |observations| <==> Unshared(judge, observations)
  {
    Accounted(judge, observations, kept, |s.order|, |s.rejected|);
  }

  lemma Accounted(judge: Judge, observations: seq<Observation>, kept: nat, found: nat, refused: nat)
    requires found + refused + Shadows(judge, observations, |observations|) == |observations|
    requires kept <= found && (kept == found <==> KindsFound(judge, observations))
    ensures kept + refused <= |observations|
    ensures kept + refused == |observations| <==> Unshared(judge, observations)
  {
    UnsharedExactly(judge, observations);
  }

  lemma EndOrder(judge: Judge, observations: seq<Observation>, s: Scan)
    requires Consistent(judge, ByExternalId(observations))
    requires Scanned(judge, observations, s) && s.i == |observations|
    ensures LoadPromise(judge, observations, SelectSupported(judge.supported, s.resolved, s.order), s.rejected, Order)
  {
    assert observations[..s.i] == observations;
    assert ScanHolds(judge, observations, s, OrderPart);
    NoShadows(judge, observations, s.i);
    EndKept(judge, observations, s);
  }

  lemma RecordsNamed(judge: Judge, observations: seq<Observation>, s: Scan)
    requires Consistent(judge, ByExternalId(observations))
    requires Scanned(judge, observations, s)
    ensures forall id :: id in s.order ==>
              && id in s.resolved && judge.means(id, s.resolved[id]) && id in ByExternalId(observations)
              && s.resolved[id].externalId == id && s.resolved[id].kind == ByExternalId(observations)[id].kind
  {
    assert ScanHolds(judge, observations, s, OrderPart);
    assert ScanHolds(judge, observations, s, RecordPart);
    forall id | id in s.order
      ensures id in s.resolved && judge.means(id, s.resolved[id])
    {
      assert id in Elements(s.order);
    }
  }

  lemma KindsKept(judge: Judge, observations: seq<Observation>, s: Scan)
    requires Consistent(judge, ByExternalId(observations))
    requires Scanned(judge, observations, s) && s.i == |observations|
    ensures (forall id :: id in s.order ==> id in s.resolved && s.resolved[id].kind in judge.supported) <==>
            KindsFound(judge, observations)
  {
    RecordsNamed(judge, observations, s);
    OrderSeen(judge, observations, s);
    forall i | 0 <= i < |observations| && Recorded(judge, observations[i])
      ensures observations[i].externalId in s.order
    {
      assert Seen(judge, observations, s.i, observations[i].externalId);
    }
    forall id | id in s.order
      ensures exists i :: 0 <= i < |observations| && Recorded(judge, observations[i]) && observations[i].externalId == id
    {
      assert Seen(judge, observations, s.i, id);
    }
  }

  lemma OrderSeen(judge: Judge, observations: seq<Observation>, s: Scan)
    requires Scanned(judge, observations, s)
    ensures forall id :: id in s.order <==> Seen(judge, observations, s.i, id)
  {
    assert ScanHolds(judge, observations, s, OrderPart);
    assert ScanHolds(judge, observations, s, SeenPart);
    forall id
      ensures id in s.order <==> Seen(judge, observations, s.i, id)
    {
      assert id in s.order <==> id in Elements(s.order);
    }
  }

  lemma ScanStarts(judge: Judge, observations: seq<Observation>)
    ensures Scanned(judge, observations, Scan(0, map[], [], []))
  {
  }

  /** Distinct external IDs are enough for nothing to be lost. */
  lemma DistinctIdsUnshared(judge: Judge, observations: seq<Observation>)
    requires DistinctIds(observations)
    ensures Unshared(judge, observations)
  {
    DistinctIdsFound(observations);
  }

  ghost predicate DistinctIds(observations: seq<Observation>) {
    forall i, j :: 0 <= i < j < |observations| ==> observations[i].externalId != observations[j].externalId
  }

  lemma DistinctIdsFound(observations: seq<Observation>)
    requires DistinctIds(observations)
    ensures forall i :: 0 <= i < |observations| ==>
              observations[i].externalId in ByExternalId(observations) && ByExternalId(observations)[observations[i].externalId] == observations[i]
  {
    var m := ByExternalId(observations);
    forall i | 0 <= i < |observations|
      ensures observations[i].externalId in m && m[observations[i].externalId] == observations[i]
    {
      assert observations[i] in observations;
      var o := m[observations[i].externalId];
      var j :| 0 <= j < |observations| && observations[j] == o;
    }
  }

  /** With distinct external IDs a run loads exactly when the attributes of every observation in it normalise. */
  lemma DistinctLoadsExactly(scope: Scope, rules: Rules, observations: seq<Observation>)
    requires DistinctIds(observations)
    ensures Showable(JudgeOf(scope, World(rules, ByExternalId(observations))), observations) <==>
            forall o :: o in observations ==> Normalized(rules, Pathed(o.attributes)).Some?
  {
    var w := World(rules, ByExternalId(observations));
    var judge := JudgeOf(scope, w);
    DistinctIdsFound(observations);
    forall o | o in observations
      ensures judge.refusal(o).Some? <==> Normalized(rules, Pathed(o.attributes)).Some?
      ensures judge.refusal(o).None? ==> !Recorded(judge, o)
    {
      if judge.refusal(o).None? {
        PathedNormalized(rules, o.attributes);
        BadAttributesUnrecorded(scope, w, o.externalId);
      }
    }
  }

  /** Two recordable observations under one external ID leave one record, and nothing else. */
  lemma SharedIdLosesOne(judge: Judge, first: Observation, second: Observation, records: seq<Canonical>, rejected: seq<Rejection>)
    requires first.externalId == second.externalId
    requires Recorded(judge, first) && Recorded(judge, second)
    requires Loaded(judge, [first, second], records, rejected)
    ensures !Unshared(judge, [first, second])
    ensures rejected == [] && |records| == 1
  {
    var both := [first, second];
    assert both[0].kind in judge.supported && both[0].externalId == both[1].externalId;
    assert Shadowed(judge, both, 1);
    assert both[..1] == [first] && [first][..0] == [];
    assert LoadPromise(judge, both, records, rejected, Refusals);
    assert Refused(judge, [first]) == [] && Refused(judge, both) == [];
    assert LoadPromise(judge, both, records, rejected, Accounting);
    assert LoadPromise(judge, both, records, rejected, Coverage);
    assert ByExternalId(both)[first.externalId] == second;
    assert FoundSupported(judge, both, 0);
  }

  // ---- Malformed VLAN ranges ------------------------------------------------------------------

  function Bounds(start: Json, end: Json): Option<Json> {
    if start.Number? && end.Number? && start.number <= end.number
    then Some(Object(map["start" := start, "end" := end])) else None
  }

  /** A range is a pair of integers or an object with both ends. */
  function VlanRange(item: Json): Option<Json> {
    match item
    case Object(members) => if "start" in members && "end" in members then Bounds(members["start"], members["end"]) else None
    case List(items) => if |items| == 2 then Bounds(items[0], items[1]) else None
    case _ => None
  }

  function VlanRangeList(items: seq<Json>): Option<seq<Json>> {
    if items == [] then Some([])
    else
      var range, rest := VlanRange(items[0]), VlanRangeList(items[1..]);
      if range.None? || rest.None? then None else Some([range.value] + rest.value)
  }

  /** The portable form of the VLAN ranges of a group. */
  function VlanRanges(value: Json): Option<Json> {
    if !value.List? || VlanRangeList(value.items).None? then None else Some(List(VlanRangeList(value.items).value))
  }

  lemma {:induction false} VlanRangeListStable(items: seq<Json>)
    ensures VlanRangeList(items).Some? ==> VlanRangeList(VlanRangeList(items).value) == VlanRangeList(items)
  {
    if items != [] && VlanRangeList(items).Some? {
      VlanRangeListStable(items[1..]);
      var range, rest := VlanRange(items[0]).value, VlanRangeList(items[1..]).value;
      assert |"start"| != |"end"|;
      assert VlanRange(range) == Some(range);
      assert ([range] + rest)[1..] == rest;
    }
  }

  /** Ranges once normalised stay as they are, so the writer, which normalises them again, cannot refuse them. */
  lemma VlanRangesStable(value: Json)
    ensures VlanRanges(value).Some? ==> VlanRanges(VlanRanges(value).value) == VlanRanges(value)
  {
    if VlanRanges(value).Some? {
      VlanRangeListStable(value.items);
    }
  }

  /** A pair of numbers, or an object with both ends, in order. */
  predicate Spans(item: Json, first: int, last: int) {
    first <= last &&
    match item
    case List(ends) => ends == [Number(first), Number(last)]
    case Object(members) => "start" in members && members["start"] == Number(first) && "end" in members && members["end"] == Number(last)
    case _ => false
  }

  /** The portable form of a range. */
  predicate IsRange(item: Json, first: int, last: int) {
    item == Object(map["start" := Number(first), "end" := Number(last)])
  }

  ghost predicate Readable(item: Json) {
    exists first, last :: Spans(item, first, last)
  }

  /** The portable form of what the item spans. */
  ghost predicate ReadAs(item: Json, range: Json) {
    exists first, last :: Spans(item, first, last) && IsRange(range, first, last)
  }

  lemma RangeSays(item: Json)
    ensures VlanRange(item).Some? <==> Readable(item)
    ensures VlanRange(item).Some? ==> ReadAs(item, VlanRange(item).value)
  {
    if VlanRange(item).Some? {
      var ends := if item.List? then (item.items[0], item.items[1]) else (item.members["start"], item.members["end"]);
      assert item.List? ==> item.items == [item.items[0], item.items[1]];
      assert Spans(item, ends.0.number, ends.1.number) && IsRange(VlanRange(item).value, ends.0.number, ends.1.number);
    }
  }

  lemma {:induction false} RangeListSays(items: seq<Json>)
    ensures VlanRangeList(items).Some? <==> forall item :: item in items ==> VlanRange(item).Some?
    ensures VlanRangeList(items).Some? ==>
              && |VlanRangeList(items).value| == |items|
              && forall i :: 0 <= i < |items| ==> VlanRange(items[i]) == Some(VlanRangeList(items).value[i])
  {
    if items != [] {
      assert items == [items[0]] + items[1..];
      RangeListSays(items[1..]);
    }
  }

  /** Ranges are read if they are a list of spans, and each is kept, in order, in its portable form. */
  lemma VlanRangesSay(value: Json)
    ensures VlanRanges(value).Some? <==> value.List? && forall item :: item in value.items ==> Readable(item)
    ensures VlanRanges(value).Some? ==>
              && VlanRanges(value).value.List? && |VlanRanges(value).value.items| == |value.items|
              && forall i :: 0 <= i < |value.items| ==> ReadAs(value.items[i], VlanRanges(value).value.items[i])
  {
    if value.List? {
      RangeListSays(value.items);
      forall item
        ensures VlanRange(item).Some? <==> Readable(item)
        ensures VlanRange(item).Some? ==> ReadAs(item, VlanRange(item).value)
      {
        RangeSays(item);
      }
    }
  }

  /** Rules under which a slug identifies an object of its kind. */
  function SlugIdentity(kind: string, attributes: map<string, Json>, related: map<string, Related>): Option<string> {
    if "/slug" in attributes && attributes["/slug"].Text? then Some(kind + ":" + attributes["/slug"].text) else None
  }

  function SampleNormal(path: string, value: Json): Option<Json> {
    if path == "/vid_ranges" then VlanRanges(value) else Some(value)
  }

  const SLUGS: Rules := Rules((kind, name) => false, (kind, name) => false, SampleNormal, SlugIdentity)

  const KINDS: Scope := Scope({"site", "region", "vlan_group"}, (attributes, id) => id)

  /** A site and a region whose provider numbers its objects kind by kind. */
  const TWINS: seq<Observation> := [
    Observation("site", "17", [("/slug", Text("north"))], []),
    Observation("region", "17", [("/slug", Text("north"))], [])]

  /** Both are recordable, although only the second can be found under the ID. */
  lemma TwinsRecorded()
    ensures var judge := JudgeOf(KINDS, World(SLUGS, ByExternalId(TWINS)));
            forall o :: o in TWINS ==> Recorded(judge, o)
  {
    var w, o := World(SLUGS, ByExternalId(TWINS)), TWINS[1];
    assert TWINS[..1] == [TWINS[0]];
    assert w.observations["17"] == o;
    assert o.attributes[..0] == [] && Normalized(SLUGS, []) == Some(map[]);
    var attributes: map<string, Json> := map["/slug" := Text("north")];
    assert |"/slug"| != |"/vid_ranges"| && SampleNormal("/slug", Text("north")) == Some(Text("north"));
    assert Normalized(SLUGS, o.attributes) == Some(attributes);
    assert Grouped([], []) == map[];
    assert Eval(w, "17", 1) == Some("region" + ":" + "north");
    assert HasKey(w, "17", "region" + ":" + "north");
    assert KeysFor(w, o.links, []);
    var record := RecordFrom(KINDS, SLUGS, o, [], "region" + ":" + "north").value;
    assert Yields(KINDS, w, "17", [], "region" + ":" + "north", record);
    assert HasRecord(KINDS, w, "17", record);
  }

  /** A VLAN group whose ranges the collector could not read and passed on. */
  const UNREADABLE: seq<Observation> := [Observation("vlan_group", "9", [("/vid_ranges", Text("1-100"))], [])]

  /** A run of that group alone is not loaded: turning the group away fails like resolving it. */
  lemma UnreadableRangesStop()
    ensures !Showable(JudgeOf(KINDS, World(SLUGS, ByExternalId(UNREADABLE))), UNREADABLE)
  {
    var o := UNREADABLE[0];
    var attributes := o.attributes;
    assert attributes[..0] == [] && [] + [attributes[0]] == attributes;
    assert Pathed(attributes) == attributes;
    assert Normalized(SLUGS, attributes).None?;
    assert o in UNREADABLE;
    DistinctLoadsExactly(KINDS, SLUGS, UNREADABLE);
  }

  lemma IdsAppend(observations: seq<Observation>, o: Observation)
    ensures ObservedIds(observations + [o]) == ObservedIds(observations) + [o.externalId]
  {
  }

  lemma {:induction false} KeptOrRefused(judge: Judge, observations: seq<Observation>)
    ensures multiset(ObservedIds(Refused(judge, observations))) + multiset(Kept(judge, observations)) == multiset(ObservedIds(observations))
  {
    if observations != [] {
      var n := |observations| - 1;
      KeptOrRefused(judge, observations[..n]);
      IdsAppend(Refused(judge, observations[..n]), observations[n]);
      assert Refused(judge, observations[..n]) + [] == Refused(judge, observations[..n]);
      assert ObservedIds(observations) == ObservedIds(observations[..n]) + [observations[n].externalId];
    }
  }

  /** When no external ID is shared, each observation is either recorded or rejected, exactly once. */
  lemma LoadConserves(judge: Judge, observations: seq<Observation>, records: seq<Canonical>, rejected: seq<Rejection>)
    requires Loaded(judge, observations, records, rejected) && Unshared(judge, observations)
    ensures multiset(RejectedIds(rejected)) + multiset(ExternalIds(records)) == multiset(ObservedIds(observations))
  {
    assert LoadPromise(judge, observations, records, rejected, Refusals);
    assert LoadPromise(judge, observations, records, rejected, Order);
    KeptOrRefused(judge, observations);
  }
}
