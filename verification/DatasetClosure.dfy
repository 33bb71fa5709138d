/**
 * Resolving requested datasets to the datasets they need: the agent's worklist and the server's, which must
 * agree, and the server's check of a submitted batch against its own resolution.
 */
module DatasetClosure {
  import opened Prelude

  datatype Dataset = Dataset(id: string, dependsOn: seq<string>, resourceKinds: seq<string>)

  /** Dependencies by dataset; the last of several datasets with one ID counts. */
  function Known(manifest: seq<Dataset>): (known: map<string, seq<string>>)
    ensures forall id :: id in known <==> exists d :: d in manifest && d.id == id
  {
    if manifest == [] then map[]
    else
      var n := |manifest| - 1;
      assert manifest == manifest[..n] + [manifest[n]];
      Known(manifest[..n])[manifest[n].id := manifest[n].dependsOn]
  }

  /** What manifest validation guarantees: distinct IDs and known dependencies. */
  ghost predicate Valid(manifest: seq<Dataset>) {
    && (forall i, j :: 0 <= i < j < |manifest| ==> manifest[i].id != manifest[j].id)
    && Closed(Known(manifest), Known(manifest).Keys)
  }

  ghost predicate Closed(known: map<string, seq<string>>, s: set<string>) {
    forall id, d :: id in s && id in known && d in known[id] ==> d in s
  }

  ghost predicate Covers(known: map<string, seq<string>>, requested: seq<string>, s: set<string>) {
    Closed(known, s) && Elements(requested) <= s
  }

  /** The least dependency-closed set that contains the request. */
  ghost predicate IsClosure(known: map<string, seq<string>>, requested: seq<string>, s: set<string>) {
    && Covers(known, requested, s)
    && forall c :: Covers(known, requested, c) ==> s <= c
  }

  /** The selected datasets in the order of the manifest. */
  function Listing(manifest: seq<Dataset>, s: set<string>): seq<string> {
    if manifest == [] then []
    else
      var n := |manifest| - 1;
      Listing(manifest[..n], s) + (if manifest[n].id in s then [manifest[n].id] else [])
  }

  /** The listing of the closure, or an error exactly when the closure leads outside the manifest. */
  ghost predicate Resolves(manifest: seq<Dataset>, requested: seq<string>, result: Option<seq<string>>) {
    var known := Known(manifest);
    match result
    case Some(list) => exists s :: IsClosure(known, requested, s) && s <= known.Keys && list == Listing(manifest, s)
    case None => forall c :: Covers(known, requested, c) ==> !(c <= known.Keys)
  }

  /** A request resolves in one way only, however its worklist is run. */
  lemma ResolvesUnique(manifest: seq<Dataset>, requested: seq<string>, a: Option<seq<string>>, b: Option<seq<string>>)
    requires Resolves(manifest, requested, a) && Resolves(manifest, requested, b)
    ensures a == b
  {
    if a.Some? {
      ResolvedIsNoError(manifest, requested, a.value);
    }
    if b.Some? {
      ResolvedIsNoError(manifest, requested, b.value);
    }
    if a.Some? && b.Some? {
      var known := Known(manifest);
      var s :| IsClosure(known, requested, s) && s <= known.Keys && a.value == Listing(manifest, s);
      var t :| IsClosure(known, requested, t) && t <= known.Keys && b.value == Listing(manifest, t);
      assert s == t;
    } else {
      assert (a.None? ==> a == None) && (b.None? ==> b == None);
    }
  }

  lemma ResolvedIsNoError(manifest: seq<Dataset>, requested: seq<string>, list: seq<string>)
    requires Resolves(manifest, requested, Some(list))
    ensures !Resolves(manifest, requested, None)
  {
  }

  /** On a valid manifest a request resolves exactly when it names known datasets only. */
  lemma ResolvesWhenKnown(manifest: seq<Dataset>, requested: seq<string>, result: Option<seq<string>>)
    requires Valid(manifest) && Resolves(manifest, requested, result)
    ensures result.Some? <==> forall id :: id in requested ==> id in Known(manifest)
  {
    var known := Known(manifest);
    if result.Some? {
      var s :| IsClosure(known, requested, s) && s <= known.Keys;
      assert Elements(requested) <= s;
      forall id | id in requested
        ensures id in known
      {
        assert id in Elements(requested);
      }
    }
    assert (forall id :: id in requested ==> id in known) ==> Covers(known, requested, known.Keys);
  }

  // ---- The agent's worklist -------------------------------------------------------------------

  /** Whatever covers the request covers the selection and the work left; selected datasets have theirs among both. */
  ghost predicate Searching(known: map<string, seq<string>>, requested: seq<string>, selected: set<string>, pending: seq<string>) {
    && selected <= known.Keys
    && (forall c :: Covers(known, requested, c) ==> selected <= c && Elements(pending) <= c)
    && (forall id, d :: id in selected && d in known[id] ==> d in selected || d in pending)
    && (forall id :: id in requested ==> id in selected || id in pending)
  }

  lemma SearchSkips(known: map<string, seq<string>>, requested: seq<string>, selected: set<string>, pending: seq<string>)
    requires Searching(known, requested, selected, pending) && pending != [] && pending[|pending| - 1] in selected
    ensures Searching(known, requested, selected, pending[..|pending| - 1])
  {
  }

  lemma SearchSelects(known: map<string, seq<string>>, requested: seq<string>, selected: set<string>, pending: seq<string>)
    requires Searching(known, requested, selected, pending) && pending != [] && pending[|pending| - 1] in known
    ensures Searching(known, requested, selected + {pending[|pending| - 1]},
                      pending[..|pending| - 1] + known[pending[|pending| - 1]])
  {
    var n := |pending| - 1;
    var id := pending[n];
    assert pending == pending[..n] + [id];
    forall c | Covers(known, requested, c)
      ensures selected + {id} <= c && Elements(pending[..n] + known[id]) <= c
    {
      assert id in Elements(pending);
      assert Elements(pending[..n]) <= Elements(pending);
    }
  }

  lemma SearchFinds(manifest: seq<Dataset>, requested: seq<string>, selected: set<string>)
    requires Searching(Known(manifest), requested, selected, [])
    ensures Resolves(manifest, requested, Some(Listing(manifest, selected)))
  {
  }

  /** A stack of names still to look up; a name may be on it more than once. */
  method ResolveDatasets(manifest: seq<Dataset>, requested: seq<string>) returns (result: Option<seq<string>>)
    ensures Resolves(manifest, requested, result)
  {
    var known := Known(manifest);
    var selected: set<string> := {};
    var pending := requested;
    while |pending| > 0
      invariant Searching(known, requested, selected, pending)
      decreases |known.Keys - selected|, |pending|
    {
      var id := pending[|pending| - 1];
      assert id in Elements(pending);
      if id !in known {
        return None;
      }
      if id in selected {
        SearchSkips(known, requested, selected, pending);
        pending := pending[..|pending| - 1];
      } else {
        SearchSelects(known, requested, selected, pending);
        pending := pending[..|pending| - 1] + known[id];
        assert known.Keys - (selected + {id}) == (known.Keys - selected) - {id};
        selected := selected + {id};
      }
    }
    SearchFinds(manifest, requested, selected);
    var resolved := ListSelected(manifest, selected);
    return Some(resolved);
  }

  method ListSelected(manifest: seq<Dataset>, selected: set<string>) returns (resolved: seq<string>)
    ensures resolved == Listing(manifest, selected)
  {
    resolved := [];
    for i := 0 to |manifest|
      invariant resolved == Listing(manifest[..i], selected)
    {
      assert manifest[..i + 1][..i] == manifest[..i];
      if manifest[i].id in selected {
        resolved := resolved + [manifest[i].id];
      }
    }
    assert manifest[..|manifest|] == manifest;
  }

  // ---- The server's worklist ------------------------------------------------------------------

  /** Here names are selected when they are put on the list; what is selected and not pending has been expanded. */
  ghost predicate Expanding(known: map<string, seq<string>>, requested: seq<string>, selected: set<string>, pending: seq<string>) {
    && selected <= known.Keys && Elements(requested) <= selected && Elements(pending) <= selected
    && (forall c :: Covers(known, requested, c) ==> selected <= c)
    && (forall id, d :: id in selected && id !in pending && d in known[id] ==> d in selected)
  }

  /** Adds the unselected dependencies of one dataset. */
  method Expand(dependsOn: seq<string>, selected: set<string>, pending: seq<string>) returns (selected': set<string>, pending': seq<string>)
    ensures selected' == selected + Elements(dependsOn)
    ensures pending <= pending' && Elements(pending') == Elements(pending) + (selected' - selected)
    ensures |pending'| == |pending| + |selected' - selected|
  {
    selected', pending' := selected, pending;
    for i := 0 to |dependsOn|
      invariant selected' == selected + Elements(dependsOn[..i])
      invariant pending <= pending' && Elements(pending') == Elements(pending) + (selected' - selected)
      invariant |pending'| == |pending| + |selected' - selected|
    {
      var d := dependsOn[i];
      assert dependsOn[..i + 1] == dependsOn[..i] + [d];
      if d !in selected' {
        assert (selected' + {d}) - selected == (selected' - selected) + {d};
        assert Elements(pending' + [d]) == Elements(pending') + {d};
        selected' := selected' + {d};
        pending' := pending' + [d];
      }
    }
    assert dependsOn[..|dependsOn|] == dependsOn;
  }

  lemma ExpandStep(known: map<string, seq<string>>, requested: seq<string>, selected: set<string>, pending: seq<string>, id: string,
                   selected': set<string>, pending': seq<string>)
    requires Closed(known, known.Keys)
    requires Expanding(known, requested, selected, pending + [id]) && id in selected
    requires selected' == selected + Elements(known[id])
    requires Elements(pending') == Elements(pending) + (selected' - selected)
    ensures Expanding(known, requested, selected', pending')
  {
    forall c | Covers(known, requested, c)
      ensures selected' <= c
    {
      assert id in c;
    }
    forall other, d | other in selected' && other !in pending' && d in known[other]
      ensures d in selected'
    {
      assert other !in Elements(pending');
      assert other in selected;
      assert other in pending ==> other in Elements(pending);
    }
  }

  lemma LeftOver(all: set<string>, before: set<string>, selected: set<string>)
    requires before <= selected <= all
    ensures |all - before| == |all - selected| + |selected - before|
  {
  }

  lemma ExpandStarts(known: map<string, seq<string>>, requested: seq<string>)
    requires Elements(requested) <= known.Keys
    ensures Expanding(known, requested, Elements(requested), requested)
  {
  }

  lemma UnknownRequested(manifest: seq<Dataset>, requested: seq<string>)
    requires !(Elements(requested) <= Known(manifest).Keys)
    ensures Resolves(manifest, requested, None)
  {
  }

  method SelectedDatasetIds(manifest: seq<Dataset>, requested: seq<string>) returns (result: Option<seq<string>>)
    requires Valid(manifest)
    ensures Resolves(manifest, requested, result)
  {
    var known := Known(manifest);
    if !(Elements(requested) <= known.Keys) {
      UnknownRequested(manifest, requested);
      return None;
    }
    ExpandStarts(known, requested);
    var selected := Elements(requested);
    var pending := requested;
    while |pending| > 0
      invariant Expanding(known, requested, selected, pending)
      decreases |known.Keys - selected| + |pending|
    {
      selected, pending := ExpandNext(known, requested, selected, pending);
    }
    ExpandEnds(manifest, requested, selected);
    var resolved := ListSelected(manifest, selected);
    return Some(resolved);
  }

  /** Takes the last pending dataset off the list and puts its unselected dependencies on. */
  method ExpandNext(known: map<string, seq<string>>, ghost requested: seq<string>, selected: set<string>, pending: seq<string>)
    returns (selected': set<string>, pending': seq<string>)
    requires Closed(known, known.Keys) && Expanding(known, requested, selected, pending) && pending != []
    ensures Expanding(known, requested, selected', pending')
    ensures |known.Keys - selected'| + |pending'| < |known.Keys - selected| + |pending|
  {
    var id := pending[|pending| - 1];
    var rest := pending[..|pending| - 1];
    assert pending == rest + [id];
    assert id in Elements(pending);
    selected', pending' := Expand(known[id], selected, rest);
    ExpandStep(known, requested, selected, rest, id, selected', pending');
    LeftOver(known.Keys, selected, selected');
  }

  lemma ExpandEnds(manifest: seq<Dataset>, requested: seq<string>, selected: set<string>)
    requires Expanding(Known(manifest), requested, selected, [])
    ensures Resolves(manifest, requested, Some(Listing(manifest, selected)))
  {
  }

  // ---- What the server accepts ----------------------------------------------------------------

  lemma {:induction false} ListingSelects(manifest: seq<Dataset>, s: set<string>)
    ensures forall id :: id in Listing(manifest, s) <==> id in s && id in Known(manifest)
  {
    if manifest != [] {
      var n := |manifest| - 1;
      ListingSelects(manifest[..n], s);
    }
  }

  /** A resolved list is its own resolution, so what an agent resolved passes the server's dataset check below. */
  lemma ResolvedIsFixed(manifest: seq<Dataset>, requested: seq<string>, list: seq<string>)
    requires Resolves(manifest, requested, Some(list))
    ensures Resolves(manifest, list, Some(list))
  {
    var known := Known(manifest);
    var s :| IsClosure(known, requested, s) && s <= known.Keys && list == Listing(manifest, s);
    ListingSelects(manifest, s);
    assert Elements(list) == s;
    assert IsClosure(known, list, s);
  }

  ghost predicate ListsClosed(manifest: seq<Dataset>, s: set<string>, list: seq<string>) {
    Closed(Known(manifest), s) && s <= Known(manifest).Keys && list == Listing(manifest, s)
  }

  /** The lists that resolve to themselves are the listings of closed sets, and no others. */
  lemma FixedExactlyWhenClosed(manifest: seq<Dataset>, list: seq<string>)
    ensures Resolves(manifest, list, Some(list)) <==> exists s :: ListsClosed(manifest, s, list)
  {
    var known := Known(manifest);
    if Resolves(manifest, list, Some(list)) {
      var s :| IsClosure(known, list, s) && s <= known.Keys && list == Listing(manifest, s);
      assert ListsClosed(manifest, s, list);
    }
    if s :| ListsClosed(manifest, s, list) {
      ListingSelects(manifest, s);
      assert Elements(list) == s;
      assert IsClosure(known, list, s);
    }
  }

  datatype Verdict = Accepted | MissingProvider | WrongContract | UnknownDataset | MissingDependency | ForeignKind

  /** An installed provider. */
  datatype Provider = Provider(contract: string, datasets: seq<Dataset>)

  /** The resource kinds of the batch's datasets. */
  function AllowedKinds(manifest: seq<Dataset>, datasets: seq<string>): set<string> {
    set d, kind | d in manifest && d.id in datasets && kind in d.resourceKinds :: kind
  }

  /** A dataset of the batch is of this resource kind. */
  predicate Allows(manifest: seq<Dataset>, datasets: seq<string>, kind: string) {
    exists d :: d in manifest && d.id in datasets && kind in d.resourceKinds
  }

  /** Checks a batch against its installed provider: its contract, its declared datasets and the kinds it observed. */
  method ValidateProvider(provider: Option<Provider>, contract: string, datasets: seq<string>, kinds: seq<string>) returns (verdict: Verdict)
    requires provider.Some? ==> Valid(provider.value.datasets)
    ensures verdict.MissingProvider? <==> provider.None?
    ensures verdict.WrongContract? <==> provider.Some? && provider.value.contract != contract
    ensures verdict.UnknownDataset? <==>
            provider.Some? && provider.value.contract == contract && exists id :: id in datasets && id !in Known(provider.value.datasets)
    ensures verdict.Accepted? || verdict.ForeignKind? <==>
            provider.Some? && provider.value.contract == contract && Resolves(provider.value.datasets, datasets, Some(datasets))
    ensures verdict.Accepted? ==> forall kind :: kind in kinds ==> Allows(provider.value.datasets, datasets, kind)
    ensures verdict.ForeignKind? ==> exists kind :: kind in kinds && !Allows(provider.value.datasets, datasets, kind)
  {
    if provider.None? {
      return MissingProvider;
    }
    var manifest := provider.value.datasets;
    if contract != provider.value.contract {
      return WrongContract;
    }
    var resolved := SelectedDatasetIds(manifest, datasets);
    ResolvesWhenKnown(manifest, datasets, resolved);
    if Resolves(manifest, datasets, Some(datasets)) {
      ResolvesUnique(manifest, datasets, resolved, Some(datasets));
    }
    if resolved.None? {
      return UnknownDataset;
    }
    if resolved.value != datasets {
      return MissingDependency;
    }
    var allowed := AllowedKinds(manifest, datasets);
    if exists kind :: kind in kinds && kind !in allowed {
      return ForeignKind;
    }
    return Accepted;
  }

  lemma KnownLast(before: seq<Dataset>, last: Dataset)
    ensures Known(before + [last]) == Known(before)[last.id := last.dependsOn]
  {
    assert (before + [last])[..|before|] == before;
  }

  /** The dependencies known of an ID are those of the last dataset that has it. */
  lemma {:induction false} LastDatasetCounts(before: seq<Dataset>, d: Dataset, after: seq<Dataset>)
    requires forall other :: other in after ==> other.id != d.id
    ensures d.id in Known(before + [d] + after) && Known(before + [d] + after)[d.id] == d.dependsOn
  {
    if after == [] {
      KnownLast(before, d);
      assert before + [d] + after == before + [d];
    } else {
      var n := |after| - 1;
      LastDatasetCounts(before, d, after[..n]);
      KnownLast(before + [d] + after[..n], after[n]);
      assert before + [d] + after == (before + [d] + after[..n]) + [after[n]];
    }
  }

  /** A listing keeps the order of the manifest. */
  lemma {:induction false} ListingInOrder(manifest: seq<Dataset>, s: set<string>, a: nat, b: nat)
    requires a < b < |manifest| && manifest[a].id in s && manifest[b].id in s
    ensures InTurn(Listing(manifest, s), manifest[a].id, manifest[b].id)
  {
    var n := |manifest| - 1;
    var before := Listing(manifest[..n], s);
    if b < n {
      ListingInOrder(manifest[..n], s, a, b);
      TurnStays(before, if manifest[n].id in s then [manifest[n].id] else [], manifest[a].id, manifest[b].id);
    } else {
      ListingSelects(manifest[..n], s);
      assert manifest[..n][a] in manifest[..n];
      TurnEnds(before, manifest[a].id, manifest[n].id);
    }
  }
}
