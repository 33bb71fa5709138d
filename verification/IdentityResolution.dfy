/**
 * Resolving natural identities from a collection run: a memoised, cycle-detecting recursion with a
 * success cache and a failure cache, against the plain well-founded meaning of an identity.
 */
module IdentityResolution {
  import opened Prelude
  import opened KeyOrder

  datatype Link = Link(name: string, target: string)

  datatype Observation = Observation(kind: string, externalId: string, attributes: seq<(string, Json)>, links: seq<Link>)

  /** A relationship value after cardinality is settled. */
  datatype Related = One(key: string) | Many(keys: seq<string>)

  /** The registry tables: identity relationships, multi-valued relationships, attribute and identity rules. */
  datatype Rules = Rules(
    identifies: (string, string) -> bool,
    multi: (string, string) -> bool,
    normalize: (string, Json) -> Option<Json>,
    natural: (string, map<string, Json>, map<string, Related>) -> Option<string>)

  datatype World = World(rules: Rules, observations: map<string, Observation>)

  datatype Failure = Absent | Circular | BadAttribute | BadCardinality | NoIdentity

  // ---- One observation ------------------------------------------------------------------------

  function Normalized(rules: Rules, attributes: seq<(string, Json)>): Option<map<string, Json>> {
    if attributes == [] then Some(map[])
    else
      var last := attributes[|attributes| - 1];
      match Normalized(rules, attributes[..|attributes| - 1])
      case None => None
      case Some(before) =>
        match rules.normalize(last.0, last.1)
        case None => None
        case Some(value) => Some(before[last.0 := value])
  }

  /** The resolved keys of a list of links, grouped by relationship name in link order. */
  function Grouped(links: seq<Link>, keys: seq<string>): map<string, seq<string>>
    requires |links| == |keys|
  {
    if links == [] then map[]
    else
      var n := |links| - 1;
      Append(Grouped(links[..n], keys[..n]), links[n].name, keys[n])
  }

  function Append(groups: map<string, seq<string>>, name: string, key: string): map<string, seq<string>> {
    groups[name := (if name in groups then groups[name] else []) + [key]]
  }

  function Insert(text: string, sorted: seq<string>): seq<string> {
    if sorted == [] then [text]
    else if LexLess(sorted[0], text) then [sorted[0]] + Insert(text, sorted[1..])
    else [text] + sorted
  }

  function SortTexts(texts: seq<string>): seq<string> {
    if texts == [] then [] else Insert(texts[0], SortTexts(texts[1..]))
  }

  /** Multi-valued relationships are sorted lists; any other must have exactly one target. */
  function Cardinality(rules: Rules, kind: string, groups: map<string, seq<string>>): Option<map<string, Related>> {
    if forall name :: name in groups && !rules.multi(kind, name) ==> |groups[name]| == 1
    then Some(map name | name in groups ::
                if rules.multi(kind, name) then Many(SortTexts(groups[name]))
                else if |groups[name]| == 1 then One(groups[name][0]) else Many([]))
    else None
  }

  function IdentityLinks(rules: Rules, kind: string, links: seq<Link>): seq<Link> {
    if links == [] then []
    else
      var n := |links| - 1;
      IdentityLinks(rules, kind, links[..n]) + (if rules.identifies(kind, links[n].name) then [links[n]] else [])
  }

  function LinksOf(w: World, id: string): seq<Link>
    requires id in w.observations
  {
    IdentityLinks(w.rules, w.observations[id].kind, w.observations[id].links)
  }

  /** The identity an observation has once the keys of its identity links are known. */
  function LocalKey(rules: Rules, o: Observation, groups: map<string, seq<string>>): Result<string, Failure> {
    match Normalized(rules, o.attributes)
    case None => Err(BadAttribute)
    case Some(attributes) =>
      match Cardinality(rules, o.kind, groups)
      case None => Err(BadCardinality)
      case Some(related) =>
        match rules.natural(o.kind, attributes, related)
        case None => Err(NoIdentity)
        case Some(key) => Ok(key)
  }

  // ---- The meaning of an identity -------------------------------------------------------------

  /** The identity found by following links to at most the given depth. */
  ghost function Eval(w: World, id: string, depth: nat): Option<string>
    decreases depth, 0
  {
    if depth == 0 || id !in w.observations then None
    else
      match EvalAll(w, LinksOf(w, id), depth - 1)
      case None => None
      case Some(keys) =>
        match LocalKey(w.rules, w.observations[id], Grouped(LinksOf(w, id), keys))
        case Ok(key) => Some(key)
        case Err(_) => None
  }

  ghost function EvalAll(w: World, links: seq<Link>, depth: nat): (keys: Option<seq<string>>)
    ensures keys.Some? ==> |keys.value| == |links|
    decreases depth, 1, |links|
  {
    if links == [] then Some([])
    else
      var n := |links| - 1;
      match EvalAll(w, links[..n], depth)
      case None => None
      case Some(before) =>
        match Eval(w, links[n].target, depth)
        case None => None
        case Some(key) => Some(before + [key])
  }

  ghost predicate HasKey(w: World, id: string, key: string) {
    exists depth: nat :: Eval(w, id, depth) == Some(key)
  }

  ghost predicate Identified(w: World, id: string) {
    exists depth: nat :: Eval(w, id, depth).Some?
  }

  lemma {:induction false} EvalStable(w: World, id: string, d: nat, e: nat)
    requires d <= e && Eval(w, id, d).Some?
    ensures Eval(w, id, e) == Eval(w, id, d)
    decreases d, 0
  {
    EvalAllStable(w, LinksOf(w, id), d - 1, e - 1);
  }

  lemma {:induction false} EvalAllStable(w: World, links: seq<Link>, d: nat, e: nat)
    requires d <= e && EvalAll(w, links, d).Some?
    ensures EvalAll(w, links, e) == EvalAll(w, links, d)
    decreases d, 1, |links|
  {
    if links != [] {
      var n := |links| - 1;
      EvalAllStable(w, links[..n], d, e);
      EvalStable(w, links[n].target, d, e);
    }
  }

  /** An identity does not depend on how deep one looks for it. */
  lemma KeyUnique(w: World, id: string, a: string, b: string)
    requires HasKey(w, id, a) && HasKey(w, id, b)
    ensures a == b
  {
    var d: nat :| Eval(w, id, d) == Some(a);
    var e: nat :| Eval(w, id, e) == Some(b);
    if d <= e { EvalStable(w, id, d, e); } else { EvalStable(w, id, e, d); }
  }

  lemma IdentifiedHasKey(w: World, id: string)
    ensures Identified(w, id) <==> exists key :: HasKey(w, id, key)
  {
    if Identified(w, id) {
      var depth: nat :| Eval(w, id, depth).Some?;
      assert HasKey(w, id, Eval(w, id, depth).value);
    }
    if key :| HasKey(w, id, key) {
      var depth: nat :| Eval(w, id, depth) == Some(key);
    }
  }

  lemma {:induction false} EvalAllMember(w: World, links: seq<Link>, depth: nat, link: Link)
    requires EvalAll(w, links, depth).Some? && link in links
    ensures Eval(w, link.target, depth).Some?
  {
    var n := |links| - 1;
    if link != links[n] {
      assert links == links[..n] + [links[n]];
      EvalAllMember(w, links[..n], depth, link);
    }
  }

  /** Keys known one by one are known together at some common depth. */
  lemma {:induction false} CommonDepth(w: World, links: seq<Link>, keys: seq<string>) returns (depth: nat)
    requires |links| == |keys|
    requires forall i :: 0 <= i < |links| ==> HasKey(w, links[i].target, keys[i])
    ensures EvalAll(w, links, depth) == Some(keys)
  {
    if links == [] {
      depth := 0;
    } else {
      var n := |links| - 1;
      var before := CommonDepth(w, links[..n], keys[..n]);
      var own := OwnDepth(w, links[n].target, keys[n]);
      depth := if before > own then before else own;
      JoinDepths(w, links, keys, before, own, depth);
    }
  }

  lemma OwnDepth(w: World, id: string, key: string) returns (depth: nat)
    requires HasKey(w, id, key)
    ensures Eval(w, id, depth) == Some(key)
  {
    depth :| Eval(w, id, depth) == Some(key);
  }

  lemma JoinDepths(w: World, links: seq<Link>, keys: seq<string>, before: nat, own: nat, depth: nat)
    requires |links| == |keys| > 0 && before <= depth && own <= depth
    requires EvalAll(w, links[..|links| - 1], before) == Some(keys[..|links| - 1])
    requires Eval(w, links[|links| - 1].target, own) == Some(keys[|links| - 1])
    ensures EvalAll(w, links, depth) == Some(keys)
  {
    var n := |links| - 1;
    EvalAllStable(w, links[..n], before, depth);
    EvalStable(w, links[n].target, own, depth);
    assert keys == keys[..n] + [keys[n]];
  }

  /** One step of the well-founded definition, forwards. */
  lemma KeyFromLinks(w: World, id: string, keys: seq<string>, key: string)
    requires id in w.observations && |keys| == |LinksOf(w, id)|
    requires forall i :: 0 <= i < |keys| ==> HasKey(w, LinksOf(w, id)[i].target, keys[i])
    requires LocalKey(w.rules, w.observations[id], Grouped(LinksOf(w, id), keys)) == Ok(key)
    ensures HasKey(w, id, key)
  {
    var depth := CommonDepth(w, LinksOf(w, id), keys);
    assert Eval(w, id, depth + 1) == Some(key);
  }

  /** A link whose target has no identity leaves its owner without one. */
  lemma LinkBlocks(w: World, id: string, link: Link)
    requires id in w.observations && link in LinksOf(w, id) && !Identified(w, link.target)
    ensures !Identified(w, id)
  {
    if Identified(w, id) {
      var depth: nat :| Eval(w, id, depth).Some?;
      EvalAllMember(w, LinksOf(w, id), depth - 1, link);
    }
  }

  /** Local rules that reject the keys of all links leave the observation without an identity. */
  lemma LocalBlocks(w: World, id: string, keys: seq<string>)
    requires id in w.observations && |keys| == |LinksOf(w, id)|
    requires forall i :: 0 <= i < |keys| ==> HasKey(w, LinksOf(w, id)[i].target, keys[i])
    requires LocalKey(w.rules, w.observations[id], Grouped(LinksOf(w, id), keys)).Err?
    ensures !Identified(w, id)
  {
    var common := CommonDepth(w, LinksOf(w, id), keys);
    forall depth: nat
      ensures Eval(w, id, depth).None?
    {
      LocalBlocksAt(w, id, keys, common, depth);
    }
  }

  lemma LocalBlocksAt(w: World, id: string, keys: seq<string>, common: nat, depth: nat)
    requires id in w.observations && EvalAll(w, LinksOf(w, id), common) == Some(keys)
    requires LocalKey(w.rules, w.observations[id], Grouped(LinksOf(w, id), keys)).Err?
    ensures Eval(w, id, depth).None?
  {
    if Eval(w, id, depth).Some? {
      EvalStep(w, id, depth);
      SameKeys(w, LinksOf(w, id), common, depth - 1);
    }
  }

  lemma EvalStep(w: World, id: string, depth: nat)
    requires Eval(w, id, depth).Some?
    ensures id in w.observations && depth > 0 && EvalAll(w, LinksOf(w, id), depth - 1).Some?
    ensures LocalKey(w.rules, w.observations[id], Grouped(LinksOf(w, id), EvalAll(w, LinksOf(w, id), depth - 1).value)).Ok?
  {
  }

  lemma SameKeys(w: World, links: seq<Link>, d: nat, e: nat)
    requires EvalAll(w, links, d).Some? && EvalAll(w, links, e).Some?
    ensures EvalAll(w, links, d) == EvalAll(w, links, e)
  {
    if d <= e { EvalAllStable(w, links, d, e); } else { EvalAllStable(w, links, e, d); }
  }

  // ---- Paths: what an identity requires of everything it reaches ------------------------------

  ghost predicate LinksTo(w: World, id: string, target: string) {
    id in w.observations && exists link :: link in LinksOf(w, id) && link.target == target
  }

  ghost predicate IsPath(w: World, path: seq<string>) {
    |path| > 0 && forall i :: 0 <= i < |path| - 1 ==> LinksTo(w, path[i], path[i + 1])
  }

  lemma {:induction false} PathDescends(w: World, path: seq<string>, depth: nat)
    requires IsPath(w, path) && Eval(w, path[0], depth).Some?
    ensures depth >= |path| && Eval(w, path[|path| - 1], depth - |path| + 1).Some?
    decreases |path|
  {
    if |path| > 1 {
      assert LinksTo(w, path[0], path[1]);
      var link :| link in LinksOf(w, path[0]) && link.target == path[1];
      EvalAllMember(w, LinksOf(w, path[0]), depth - 1, link);
      var tail := path[1..];
      forall i | 0 <= i < |tail| - 1
        ensures LinksTo(w, tail[i], tail[i + 1])
      {
        assert LinksTo(w, path[i + 1], path[i + 2]);
      }
      PathDescends(w, tail, depth - 1);
    }
  }

  /** Nothing on a cycle has an identity. */
  lemma {:induction false} CycleBlocks(w: World, path: seq<string>)
    requires IsPath(w, path) && |path| > 1 && path[|path| - 1] == path[0]
    ensures !Identified(w, path[0])
  {
    forall depth: nat
      ensures Eval(w, path[0], depth).None?
    {
      CycleBlocksAt(w, path, depth);
    }
  }

  lemma {:induction false} CycleBlocksAt(w: World, path: seq<string>, depth: nat)
    requires IsPath(w, path) && |path| > 1 && path[|path| - 1] == path[0]
    ensures Eval(w, path[0], depth).None?
    decreases depth
  {
    if Eval(w, path[0], depth).Some? {
      PathDescends(w, path, depth);
      CycleBlocksAt(w, path, depth - |path| + 1);
    }
  }

  /** The local rules reject the observation although every identity link of it has a key. */
  ghost predicate LocallyInvalid(w: World, id: string) {
    && id in w.observations
    && exists keys :: KeysOfLinks(w, id, keys) && LocalKey(w.rules, w.observations[id], Grouped(LinksOf(w, id), keys)).Err?
  }

  ghost predicate KeysOfLinks(w: World, id: string, keys: seq<string>)
    requires id in w.observations
  {
    |keys| == |LinksOf(w, id)| && forall i :: 0 <= i < |keys| ==> HasKey(w, LinksOf(w, id)[i].target, keys[i])
  }

  /** A path that ends at an absent or locally invalid observation, or that comes back to where it was. */
  ghost predicate Defective(w: World, path: seq<string>) {
    && IsPath(w, path)
    && (path[|path| - 1] !in w.observations || LocallyInvalid(w, path[|path| - 1]) || !Distinct(path))
  }

  lemma {:induction false} KeysKnown(w: World, links: seq<Link>) returns (keys: seq<string>)
    requires forall i :: 0 <= i < |links| ==> Identified(w, links[i].target)
    ensures |keys| == |links| && forall i :: 0 <= i < |keys| ==> HasKey(w, links[i].target, keys[i])
  {
    if links == [] {
      keys := [];
    } else {
      var n := |links| - 1;
      var before := KeysKnown(w, links[..n]);
      IdentifiedHasKey(w, links[n].target);
      var key :| HasKey(w, links[n].target, key);
      keys := before + [key];
    }
  }

  /** From an observation without an identity, some path shows why. */
  lemma {:induction false} FindDefect(w: World, prefix: seq<string>) returns (path: seq<string>)
    requires IsPath(w, prefix) && Distinct(prefix) && !Identified(w, prefix[|prefix| - 1])
    requires Elements(prefix[..|prefix| - 1]) <= w.observations.Keys
    ensures Defective(w, path) && path[0] == prefix[0]
    decreases |w.observations| + 1 - |prefix|
  {
    var last := prefix[|prefix| - 1];
    PrefixBounded(w, prefix);
    if last !in w.observations {
      path := prefix;
    } else if forall i :: 0 <= i < |LinksOf(w, last)| ==> Identified(w, LinksOf(w, last)[i].target) {
      var keys := KeysKnown(w, LinksOf(w, last));
      if LocalKey(w.rules, w.observations[last], Grouped(LinksOf(w, last), keys)).Ok? {
        KeyFromLinks(w, last, keys, LocalKey(w.rules, w.observations[last], Grouped(LinksOf(w, last), keys)).value);
        IdentifiedHasKey(w, last);
      }
      assert KeysOfLinks(w, last, keys);
      path := prefix;
    } else {
      var i :| 0 <= i < |LinksOf(w, last)| && !Identified(w, LinksOf(w, last)[i].target);
      var next := LinksOf(w, last)[i].target;
      var longer := prefix + [next];
      assert LinksTo(w, last, next);
      assert IsPath(w, longer);
      if next in prefix {
        var j :| 0 <= j < |prefix| && prefix[j] == next;
        assert longer[j] == longer[|prefix|];
        path := longer;
      } else {
        assert longer[..|longer| - 1] == prefix[..|prefix| - 1] + [last];
        path := FindDefect(w, longer);
      }
    }
  }

  lemma PrefixBounded(w: World, prefix: seq<string>)
    requires |prefix| > 0 && Distinct(prefix)
    requires Elements(prefix[..|prefix| - 1]) <= w.observations.Keys
    ensures |prefix| <= |w.observations| + 1
    ensures prefix[|prefix| - 1] in w.observations ==> |prefix| <= |w.observations|
  {
    DistinctCardinality(prefix);
    DistinctCardinality(prefix[..|prefix| - 1]);
    assert |w.observations| == |w.observations.Keys|;
    SubsetCardinality(Elements(prefix[..|prefix| - 1]), w.observations.Keys);
    if prefix[|prefix| - 1] in w.observations {
      assert prefix == prefix[..|prefix| - 1] + [prefix[|prefix| - 1]];
      SubsetCardinality(Elements(prefix), w.observations.Keys);
    }
  }

  lemma DefectBlocks(w: World, path: seq<string>)
    requires Defective(w, path)
    ensures !Identified(w, path[0])
  {
    if Identified(w, path[0]) {
      var depth: nat :| Eval(w, path[0], depth).Some?;
      PathDescends(w, path, depth);
      var last := path[|path| - 1];
      assert Identified(w, last);
      if LocallyInvalid(w, last) {
        var keys :| KeysOfLinks(w, last, keys) && LocalKey(w.rules, w.observations[last], Grouped(LinksOf(w, last), keys)).Err?;
        LocalBlocks(w, last, keys);
      } else if !Distinct(path) {
        RepetitionBlocks(w, path, depth);
      }
    }
  }

  lemma PartOfPath(w: World, path: seq<string>, from: nat, to: nat)
    requires IsPath(w, path) && from < to <= |path|
    ensures IsPath(w, path[from..to])
  {
    var part := path[from..to];
    forall i | 0 <= i < |part| - 1
      ensures LinksTo(w, part[i], part[i + 1])
    {
      assert LinksTo(w, path[from + i], path[from + i + 1]);
    }
  }

  lemma RepetitionBlocks(w: World, path: seq<string>, depth: nat)
    requires IsPath(w, path) && !Distinct(path)
    ensures Eval(w, path[0], depth).None?
  {
    var i, j :| 0 <= i < j < |path| && path[i] == path[j];
    if Eval(w, path[0], depth).Some? {
      PartOfPath(w, path, 0, i + 1);
      PathDescends(w, path[0..i + 1], depth);
      assert Identified(w, path[i]);
      PartOfPath(w, path, i, j + 1);
      CycleBlocks(w, path[i..j + 1]);
    }
  }

  /**
   * An observation has an identity exactly when everything its identity relationships reach is present,
   * acyclic and accepted by its local rules.
   */
  lemma IdentifiedExactlyWhenSound(w: World, id: string)
    ensures Identified(w, id) <==> forall path :: Defective(w, path) ==> path[0] != id
  {
    if !Identified(w, id) {
      var path := FindDefect(w, [id]);
    }
    forall path | Defective(w, path) && path[0] == id
      ensures !Identified(w, id)
    {
      DefectBlocks(w, path);
    }
  }

  // ---- The memoised resolver ------------------------------------------------------------------

  datatype Caches = Caches(identities: map<string, string>, failures: map<string, Failure>, resolving: set<string>)

  datatype Clause = SuccessClause | FailureClause | StackClause

  ghost predicate Holds(w: World, c: Caches, clause: Clause) {
    match clause
    case SuccessClause => forall id :: id in c.identities ==> HasKey(w, id, c.identities[id])
    case FailureClause => forall id :: id in c.failures ==> !Identified(w, id)
    case StackClause => c.resolving <= w.observations.Keys && c.resolving !! c.identities.Keys && c.resolving !! c.failures.Keys
  }

  /** Both caches tell the truth, and nothing being resolved is in either. */
  ghost predicate Truthful(w: World, c: Caches) {
    forall clause :: Holds(w, c, clause)
  }

  lemma CachesTrue(w: World, c: Caches, id: string)
    requires Truthful(w, c)
    ensures id in c.identities ==> HasKey(w, id, c.identities[id])
    ensures id in c.failures ==> !Identified(w, id)
    ensures id in c.resolving ==> id in w.observations && id !in c.identities && id !in c.failures
  {
    assert Holds(w, c, SuccessClause) && Holds(w, c, FailureClause) && Holds(w, c, StackClause);
  }

  lemma OpenTruthful(w: World, c: Caches, id: string)
    requires Truthful(w, c)
    requires id in w.observations && id !in c.identities && id !in c.failures
    ensures Truthful(w, c.(resolving := c.resolving + {id}))
  {
    var d := c.(resolving := c.resolving + {id});
    forall clause
      ensures Holds(w, d, clause)
    {
      assert Holds(w, c, clause);
    }
  }

  lemma SucceedTruthful(w: World, c: Caches, id: string, key: string)
    requires Truthful(w, c) && HasKey(w, id, key)
    ensures Truthful(w, c.(identities := c.identities[id := key], resolving := c.resolving - {id}))
  {
    var d := c.(identities := c.identities[id := key], resolving := c.resolving - {id});
    forall clause
      ensures Holds(w, d, clause)
    {
      assert Holds(w, c, clause);
    }
  }

  lemma FailTruthful(w: World, c: Caches, id: string, failure: Failure)
    requires Truthful(w, c) && !Identified(w, id)
    ensures Truthful(w, c.(failures := c.failures[id := failure], resolving := c.resolving - {id}))
  {
    var d := c.(failures := c.failures[id := failure], resolving := c.resolving - {id});
    forall clause
      ensures Holds(w, d, clause)
    {
      assert Holds(w, c, clause);
    }
  }

  /** The observations being resolved form a path of identity links down to the one asked for. */
  ghost predicate OnStack(w: World, stack: seq<string>, resolving: set<string>, id: string) {
    Elements(stack) == resolving && IsPath(w, stack + [id])
  }

  lemma StackCycle(w: World, stack: seq<string>, id: string)
    requires IsPath(w, stack + [id]) && id in stack
    ensures !Identified(w, id)
  {
    var j :| 0 <= j < |stack| && stack[j] == id;
    var path := (stack + [id])[j..];
    forall i | 0 <= i < |path| - 1
      ensures LinksTo(w, path[i], path[i + 1])
    {
      assert LinksTo(w, (stack + [id])[j + i], (stack + [id])[j + i + 1]);
    }
    CycleBlocks(w, path);
  }

  lemma StackExtends(w: World, stack: seq<string>, resolving: set<string>, id: string, link: Link)
    requires OnStack(w, stack, resolving, id)
    requires id in w.observations && link in LinksOf(w, id)
    ensures OnStack(w, stack + [id], resolving + {id}, link.target)
  {
    var path := stack + [id];
    var longer := path + [link.target];
    assert Elements(path) == Elements(stack) + {id};
    forall i | 0 <= i < |longer| - 1
      ensures LinksTo(w, longer[i], longer[i + 1])
    {
      if i < |path| - 1 {
        assert LinksTo(w, path[i], path[i + 1]);
      }
    }
  }

  class Resolver {
    const world: World
    var identities: map<string, string>
    var failures: map<string, Failure>
    var resolving: set<string>

    constructor (world: World)
      ensures this.world == world && Valid() && resolving == {}
    {
      this.world := world;
      identities, failures, resolving := map[], map[], {};
    }

    function Now(): Caches
      reads this
    {
      Caches(identities, failures, resolving)
    }

    ghost predicate Valid()
      reads this
    {
      Truthful(world, Now())
    }

    /**
     * The key of an observation, or why it has none. The answer is the well-founded one, whatever the
     * caches hold from earlier calls and whoever is asking.
     */
    method ResolveIdentity(id: string, ghost stack: seq<string>) returns (result: Result<string, Failure>)
      requires Valid() && OnStack(world, stack, resolving, id)
      modifies this`identities, this`failures, this`resolving
      ensures Valid() && resolving == old(resolving)
      ensures result.Ok? ==> HasKey(world, id, result.value)
      ensures result.Err? ==> !Identified(world, id)
      ensures old(identities).Keys <= identities.Keys && old(failures).Keys <= failures.Keys
      ensures result.Ok? ==> id in identities && identities[id] == result.value
      ensures result.Err? && id in world.observations && id !in resolving ==> id in failures
      decreases |world.observations.Keys - resolving|, 1
    {
      CachesTrue(world, Now(), id);
      if id in identities {
        return Ok(identities[id]);
      }
      if id in failures {
        return Err(failures[id]);
      }
      if id !in world.observations {
        return Err(Absent);
      }
      if id in resolving {
        StackCycle(world, stack, id);
        return Err(Circular);
      }
      ghost var open := resolving;
      OpenTruthful(world, Now(), id);
      OpenShrinks(world.observations.Keys, resolving, id);
      resolving := resolving + {id};
      result := ResolveLinks(id, stack);
      assert resolving - {id} == open;
      if result.Ok? {
        SucceedTruthful(world, Now(), id, result.value);
        identities := identities[id := result.value];
      } else {
        FailTruthful(world, Now(), id, result.error);
        failures := failures[id := result.error];
      }
      resolving := resolving - {id};
    }

    /** Resolves the identity links of an observation in order and applies its local rules. */
    method ResolveLinks(id: string, ghost stack: seq<string>) returns (result: Result<string, Failure>)
      requires Valid() && id in world.observations && id in resolving
      requires OnStack(world, stack, resolving - {id}, id)
      modifies this`identities, this`failures, this`resolving
      ensures Valid() && resolving == old(resolving)
      ensures result.Ok? ==> HasKey(world, id, result.value)
      ensures result.Err? ==> !Identified(world, id)
      ensures old(identities).Keys <= identities.Keys && old(failures).Keys <= failures.Keys
      decreases |world.observations.Keys - resolving|, 2
    {
      var o := world.observations[id];
      var attributes := Normalized(world.rules, o.attributes);
      if attributes.None? {
        BadAttributesBlock(world, id);
        return Err(BadAttribute);
      }
      var groups: map<string, seq<string>> := map[];
      ghost var keys: seq<string> := [];
      for i := 0 to |o.links|
        invariant Valid() && resolving == old(resolving)
        invariant old(identities).Keys <= identities.Keys && old(failures).Keys <= failures.Keys
        invariant Collected(world, o, i, keys, groups)
      {
        var link := o.links[i];
        if world.rules.identifies(o.kind, link.name) {
          LinkListed(world.rules, o.kind, o.links, i);
          StackExtends(world, stack, resolving - {id}, id, link);
          assert resolving - {id} + {id} == resolving;
          var key := ResolveIdentity(link.target, stack + [id]);
          if key.Err? {
            LinkBlocks(world, id, link);
            return Err(key.error);
          }
          CollectNext(world, o, i, keys, groups, key.value);
          keys := keys + [key.value];
          groups := Append(groups, link.name, key.value);
        } else {
          CollectSkip(world, o, i, keys, groups);
        }
      }
      CollectedAll(world, id, keys, groups);
      result := LocalKey(world.rules, o, groups);
      if result.Ok? {
        KeyFromLinks(world, id, keys, result.value);
      } else {
        LocalBlocks(world, id, keys);
      }
    }
  }

  lemma BadAttributesBlock(w: World, id: string)
    requires id in w.observations && Normalized(w.rules, w.observations[id].attributes).None?
    ensures !Identified(w, id)
  {
  }

  ghost predicate KeysFor(w: World, links: seq<Link>, keys: seq<string>) {
    |keys| == |links| && forall i :: 0 <= i < |keys| ==> HasKey(w, links[i].target, keys[i])
  }

  /** The keys of the identity links among the first i links, and how they are grouped. */
  ghost predicate Collected(w: World, o: Observation, i: nat, keys: seq<string>, groups: map<string, seq<string>>) {
    && i <= |o.links|
    && KeysFor(w, IdentityLinks(w.rules, o.kind, o.links[..i]), keys)
    && groups == Grouped(IdentityLinks(w.rules, o.kind, o.links[..i]), keys)
  }

  lemma CollectNext(w: World, o: Observation, i: nat, keys: seq<string>, groups: map<string, seq<string>>, key: string)
    requires Collected(w, o, i, keys, groups) && i < |o.links|
    requires w.rules.identifies(o.kind, o.links[i].name) && HasKey(w, o.links[i].target, key)
    ensures Collected(w, o, i + 1, keys + [key], Append(groups, o.links[i].name, key))
  {
    assert o.links[..i + 1][..i] == o.links[..i];
    var links := IdentityLinks(w.rules, o.kind, o.links[..i]);
    assert (links + [o.links[i]])[..|links|] == links && (keys + [key])[..|keys|] == keys;
  }

  lemma CollectSkip(w: World, o: Observation, i: nat, keys: seq<string>, groups: map<string, seq<string>>)
    requires Collected(w, o, i, keys, groups) && i < |o.links|
    requires !w.rules.identifies(o.kind, o.links[i].name)
    ensures Collected(w, o, i + 1, keys, groups)
  {
    SkippedLink(w.rules, o.kind, o.links, i);
  }

  lemma SkippedLink(rules: Rules, kind: string, links: seq<Link>, i: nat)
    requires i < |links| && !rules.identifies(kind, links[i].name)
    ensures IdentityLinks(rules, kind, links[..i + 1]) == IdentityLinks(rules, kind, links[..i])
  {
    assert links[..i + 1][..i] == links[..i];
    var before := IdentityLinks(rules, kind, links[..i]);
    assert before + [] == before;
  }

  lemma CollectedAll(w: World, id: string, keys: seq<string>, groups: map<string, seq<string>>)
    requires id in w.observations
    requires Collected(w, w.observations[id], |w.observations[id].links|, keys, groups)
    ensures |keys| == |LinksOf(w, id)| && forall i :: 0 <= i < |keys| ==> HasKey(w, LinksOf(w, id)[i].target, keys[i])
    ensures groups == Grouped(LinksOf(w, id), keys)
  {
    var o := w.observations[id];
    assert o.links[..|o.links|] == o.links;
  }

  lemma {:induction false} LinkListed(rules: Rules, kind: string, links: seq<Link>, i: nat)
    requires i < |links| && rules.identifies(kind, links[i].name)
    ensures links[i] in IdentityLinks(rules, kind, links)
  {
    if i < |links| - 1 {
      LinkListed(rules, kind, links[..|links| - 1], i);
    }
  }
}
