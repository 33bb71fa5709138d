/** Collecting a paginated listing from a server that may answer anything, and gathering observations by identity. */
module UnifiPages {
  import opened Prelude

  const MAX_PAGES := 10_000

  datatype Page<T> = Page(offset: int, limit: int, count: int, total: int, data: seq<T>)

  datatype Failure = PaginationLimit | RequestFailed | InvalidResponse | CollectionChanged

  /** What the server answers: to the n-th request, for an offset and a page size; None is a failed request. */
  type Server<!T> = (nat, int, int) -> Option<Page<T>>

  function Joined<T>(pages: seq<Page<T>>): seq<T> {
    if pages == [] then [] else Joined(pages[..|pages| - 1]) + pages[|pages| - 1].data
  }

  /** The answer is what the protocol asks for. */
  predicate WellFormed<T>(p: Page<T>, offset: int, pageSize: int) {
    p.offset == offset && p.count == |p.data| && p.total >= 0 && p.limit >= 0 && p.count <= pageSize
  }

  /** Pages accepted one after the other: each well formed, the server's answer for what came before, of one total. */
  ghost predicate Contiguous<T>(serve: Server<T>, pageSize: int, pages: seq<Page<T>>) {
    pages == [] ||
    var n := |pages| - 1;
    var before := pages[..n];
    && Contiguous(serve, pageSize, before)
    && serve(n, |Joined(before)|, pageSize) == Some(pages[n]) && WellFormed(pages[n], |Joined(before)|, pageSize)
    && (n > 0 ==> pages[n].total == pages[n - 1].total)
  }

  lemma ContiguousGrows<T>(serve: Server<T>, pageSize: int, pages: seq<Page<T>>, p: Page<T>)
    requires Contiguous(serve, pageSize, pages)
    requires serve(|pages|, |Joined(pages)|, pageSize) == Some(p) && WellFormed(p, |Joined(pages)|, pageSize)
    requires pages != [] ==> p.total == pages[|pages| - 1].total
    ensures Contiguous(serve, pageSize, pages + [p])
    ensures Joined(pages + [p]) == Joined(pages) + p.data
  {
  }

  /** Contiguous pages all declare the same total, and each starts where the ones before it end. */
  lemma {:induction false} ContiguousAgree<T>(serve: Server<T>, pageSize: int, pages: seq<Page<T>>, k: nat)
    requires Contiguous(serve, pageSize, pages) && k < |pages|
    ensures pages[k].total == pages[|pages| - 1].total
    ensures pages[k].offset == |Joined(pages[..k])| && serve(k, pages[k].offset, pageSize) == Some(pages[k])
    ensures pages[k].count == |pages[k].data| <= pageSize && pages[k].total >= 0 && pages[k].limit >= 0
  {
    var n := |pages| - 1;
    if k < n {
      ContiguousAgree(serve, pageSize, pages[..n], k);
      assert pages[..n][..k] == pages[..k];
    }
  }

  /** A server that holds the same items throughout and answers with full pages of them. */
  ghost predicate Stable<T(!new)>(serve: Server<T>, all: seq<T>, pageSize: int) {
    pageSize >= 1 && forall n: nat, offset: int {:trigger serve(n, offset, pageSize)} :: 0 <= offset <= |all| ==>
      serve(n, offset, pageSize) == Some(Page(offset, pageSize, |Chunk(all, offset, pageSize)|, |all|, Chunk(all, offset, pageSize)))
  }

  function Chunk<T>(all: seq<T>, offset: int, pageSize: int): seq<T>
    requires 0 <= offset <= |all| && pageSize >= 1
  {
    if offset + pageSize <= |all| then all[offset..offset + pageSize] else all[offset..]
  }

  /** The number of items on n full pages. */
  function FullPages(n: nat, pageSize: int): int {
    if n == 0 then 0 else FullPages(n - 1, pageSize) + pageSize
  }

  lemma {:induction false} PagesReach(n: nat, pageSize: int)
    ensures FullPages(n, pageSize) == n * pageSize
  {
    if n > 0 {
      PagesReach(n - 1, pageSize);
    }
  }

  lemma PagesFit(n: nat, pageSize: int)
    requires n <= MAX_PAGES && pageSize >= 1
    ensures FullPages(n, pageSize) <= MAX_PAGES * pageSize
    ensures n == MAX_PAGES ==> FullPages(n, pageSize) == MAX_PAGES * pageSize
  {
    PagesReach(n, pageSize);
    assert (MAX_PAGES - n) * pageSize >= 0;
  }

  /** After every page there was more to come: the declared total was not reached, nor was a page empty. */
  ghost predicate Unfinished<T>(pages: seq<Page<T>>) {
    pages == [] ||
    var n := |pages| - 1;
    Unfinished(pages[..n]) && |Joined(pages)| < pages[n].total && pages[n].data != []
  }

  ghost predicate LastReaches<T>(pages: seq<Page<T>>, items: seq<T>) {
    pages != [] && Unfinished(pages[..|pages| - 1]) && |items| == pages[|pages| - 1].total
  }

  ghost predicate LastOvershoots<T>(pages: seq<Page<T>>, items: seq<T>) {
    && pages != [] && Unfinished(pages[..|pages| - 1])
    && (|items| > pages[|pages| - 1].total || (pages[|pages| - 1].data == [] && |items| != pages[|pages| - 1].total))
  }

  /** How a listing ends, told by the server's answers alone. */
  ghost predicate Listed<T>(serve: Server<T>, pageSize: int, items: seq<T>, failure: Option<Failure>, requests: nat, pages: seq<Page<T>>) {
    && Contiguous(serve, pageSize, pages) && items == Joined(pages) && requests <= 10_000
    && var answer := serve(|pages|, |items|, pageSize);
       match failure
       case None => requests == |pages| && LastReaches(pages, items)
       case Some(PaginationLimit) => requests == |pages| == 10_000 && Unfinished(pages)
       case Some(RequestFailed) => requests == |pages| + 1 && Unfinished(pages) && answer.None?
       case Some(CollectionChanged) =>
         && requests == |pages| + 1 && Unfinished(pages) && pages != []
         && answer.Some? && WellFormed(answer.value, |items|, pageSize) && answer.value.total != pages[|pages| - 1].total
       case Some(InvalidResponse) =>
         || (requests == |pages| + 1 && Unfinished(pages) && answer.Some? && !WellFormed(answer.value, |items|, pageSize))
         || (requests == |pages| && LastOvershoots(pages, items))
  }

  /** Some pages the server gave explain the outcome. */
  ghost predicate Explained<T(!new)>(serve: Server<T>, pageSize: int, items: seq<T>, failure: Option<Failure>, requests: nat) {
    exists pages: seq<Page<T>> :: Listed(serve, pageSize, items, failure, requests, pages)
  }

  /**
   * Requests pages until the declared total is reached. Whatever the server does, this takes at most 10,000
   * requests, and success means contiguous pages that add up to the total they all declare.
   */
  method CollectPages<T(!new)>(serve: Server<T>, pageSize: int) returns (items: seq<T>, failure: Option<Failure>, requests: nat)
    ensures requests <= 10_000
    ensures Explained(serve, pageSize, items, failure, requests)
  {
    ghost var pages: seq<Page<T>> := [];
    items := [];
    var offset, expectedTotal := 0, -1;
    requests := 0;
    while true
      invariant requests == |pages| <= MAX_PAGES
      invariant Contiguous(serve, pageSize, pages) && Unfinished(pages) && items == Joined(pages) && offset == |items|
      invariant expectedTotal == if pages == [] then -1 else pages[|pages| - 1].total
      invariant pages != [] ==> expectedTotal >= 0
      decreases MAX_PAGES - requests
    {
      if requests >= MAX_PAGES {
        assert Listed(serve, pageSize, items, Some(PaginationLimit), requests, pages);
        return items, Some(PaginationLimit), requests;
      }
      var answer := serve(requests, offset, pageSize);
      if answer.None? {
        assert Listed(serve, pageSize, items, Some(RequestFailed), requests + 1, pages);
        return items, Some(RequestFailed), requests + 1;
      }
      var current := answer.value;
      if current.offset != offset || current.count != |current.data| || current.total < 0 || current.count < 0 || current.limit < 0
         || current.count > pageSize {
        assert Listed(serve, pageSize, items, Some(InvalidResponse), requests + 1, pages);
        return items, Some(InvalidResponse), requests + 1;
      }
      if expectedTotal == -1 {
        expectedTotal := current.total;
      } else if current.total != expectedTotal {
        assert Listed(serve, pageSize, items, Some(CollectionChanged), requests + 1, pages);
        return items, Some(CollectionChanged), requests + 1;
      }
      ContiguousGrows(serve, pageSize, pages, current);
      assert (pages + [current])[..|pages|] == pages;
      items, pages := items + current.data, pages + [current];
      offset := offset + |current.data|;
      requests := requests + 1;
      if offset == expectedTotal {
        assert Listed(serve, pageSize, items, None, requests, pages);
        return items, None, requests;
      }
      if offset > expectedTotal || |current.data| == 0 {
        assert Listed(serve, pageSize, items, Some(InvalidResponse), requests, pages);
        return items, Some(InvalidResponse), requests;
      }
    }
  }

  /** A listing gives an answer up as invalid only if it is not what was asked for, or if the items do not add up. */
  lemma InvalidMeans<T(!new)>(serve: Server<T>, pageSize: int, items: seq<T>, requests: nat, pages: seq<Page<T>>)
    requires Listed(serve, pageSize, items, Some(InvalidResponse), requests, pages)
    ensures var answer := serve(|pages|, |items|, pageSize);
            || (answer.Some? &&
                (answer.value.offset != |items| || answer.value.count != |answer.value.data| || answer.value.count > pageSize ||
                 answer.value.total < 0 || answer.value.limit < 0))
            || (pages != [] && |items| > pages[|pages| - 1].total)
            || (pages != [] && pages[|pages| - 1].data == [] && |items| != pages[|pages| - 1].total)
  {
  }

  // ---- A stable server ------------------------------------------------------------------------

  /** The next chunk either reaches the end or is a full page. */
  lemma ChunkExtends<T>(all: seq<T>, offset: nat, pageSize: int)
    requires offset <= |all| && pageSize >= 1
    ensures var chunk := Chunk(all, offset, pageSize);
            && all[..offset] + chunk == all[..offset + |chunk|] && |chunk| <= pageSize
            && (offset + |chunk| != |all| ==> |chunk| == pageSize) && (chunk == [] <==> offset == |all|)
  {
  }

  lemma StableAnswer<T(!new)>(serve: Server<T>, all: seq<T>, pageSize: int, n: nat, offset: nat)
    requires Stable(serve, all, pageSize) && offset <= |all|
    ensures var chunk := Chunk(all, offset, pageSize);
            serve(n, offset, pageSize) == Some(Page(offset, pageSize, |chunk|, |all|, chunk))
            && WellFormed(Page(offset, pageSize, |chunk|, |all|, chunk), offset, pageSize)
  {
  }

  /** As long as a stable server's listing is unfinished, it consists of full pages. */
  lemma {:induction false} StablePages<T(!new)>(serve: Server<T>, all: seq<T>, pageSize: int, pages: seq<Page<T>>)
    requires Stable(serve, all, pageSize) && Contiguous(serve, pageSize, pages) && Unfinished(pages)
    ensures |Joined(pages)| == FullPages(|pages|, pageSize) <= |all| && Joined(pages) == all[..|Joined(pages)|]
    ensures pages != [] ==> pages[|pages| - 1].total == |all| && |Joined(pages)| < |all|
  {
    if pages != [] {
      var n := |pages| - 1;
      var before := Joined(pages[..n]);
      StablePages(serve, all, pageSize, pages[..n]);
      StableAnswer(serve, all, pageSize, n, |before|);
      ChunkExtends(all, |before|, pageSize);
    }
  }

  /** The last page of a stable server's listing, after unfinished ones, never overshoots. */
  lemma StableLast<T(!new)>(serve: Server<T>, all: seq<T>, pageSize: int, pages: seq<Page<T>>)
    requires Stable(serve, all, pageSize) && Contiguous(serve, pageSize, pages) && pages != [] && Unfinished(pages[..|pages| - 1])
    ensures pages[|pages| - 1].total == |all| && !LastOvershoots(pages, Joined(pages))
    ensures |Joined(pages)| <= FullPages(|pages|, pageSize)
    ensures |Joined(pages)| == |all| ==> Joined(pages) == all
  {
    var n := |pages| - 1;
    var before := Joined(pages[..n]);
    StablePages(serve, all, pageSize, pages[..n]);
    StableAnswer(serve, all, pageSize, n, |before|);
    ChunkExtends(all, |before|, pageSize);
  }

  /** A stable server's items are listed, all of them and in order, exactly when they fit in 10,000 pages. */
  lemma StableListing<T(!new)>(serve: Server<T>, all: seq<T>, pageSize: int, items: seq<T>, failure: Option<Failure>, requests: nat)
    requires Stable(serve, all, pageSize) && Explained(serve, pageSize, items, failure, requests)
    ensures if |all| <= 10_000 * pageSize then failure.None? && items == all else failure == Some(PaginationLimit)
  {
    var pages: seq<Page<T>> :| Listed(serve, pageSize, items, failure, requests, pages);
    if failure.None? || LastOvershoots(pages, items) {
      StableLast(serve, all, pageSize, pages);
      PagesFit(|pages|, pageSize);
    } else {
      StablePages(serve, all, pageSize, pages);
      StableAnswer(serve, all, pageSize, |pages|, |items|);
      PagesFit(|pages|, pageSize);
    }
  }

  // ---- Observations by identity ---------------------------------------------------------------

  datatype Observation = Observation(kind: string, externalId: string, content: Json)

  function CountKind(observations: seq<Observation>, kind: string): nat {
    if observations == [] then 0
    else CountKind(observations[..|observations| - 1], kind) + (if observations[|observations| - 1].kind == kind then 1 else 0)
  }

  /** The observations without repetitions, each where it first occurs. */
  function FirstOccurrences(added: seq<Observation>): seq<Observation> {
    if added == [] then []
    else
      var before, o := FirstOccurrences(added[..|added| - 1]), added[|added| - 1];
      if o in before then before else before + [o]
  }

  /** The positions of a kind. */
  ghost function KindAt(observations: seq<Observation>, kind: string): set<int> {
    set i | 0 <= i < |observations| && observations[i].kind == kind
  }

  lemma {:induction false} KindsCounted(observations: seq<Observation>, kind: string)
    ensures CountKind(observations, kind) == |KindAt(observations, kind)|
  {
    if observations != [] {
      var n := |observations| - 1;
      KindsCounted(observations[..n], kind);
      assert KindAt(observations, kind) == KindAt(observations[..n], kind) + (if observations[n].kind == kind then {n} else {});
    }
  }

  /** What stands first at one place comes before what first stands at a later one. */
  lemma {:induction false} FirstComeFirst(added: seq<Observation>, a: nat, b: nat)
    requires a < b < |added| && added[a] !in added[..a] && added[b] !in added[..b]
    ensures InTurn(FirstOccurrences(added), added[a], added[b])
  {
    var n := |added| - 1;
    var before := FirstOccurrences(added[..n]);
    FirstOccurrencesSame(added[..n]);
    assert added[..n][..a] == added[..a] && added[..n][a] in added[..n];
    if b < n {
      assert added[..n][..b] == added[..b];
      FirstComeFirst(added[..n], a, b);
      TurnStays(before, if added[n] in before then [] else [added[n]], added[a], added[b]);
      assert before + [] == before;
    } else {
      TurnEnds(before, added[a], added[n]);
    }
  }

  /** No two of them share an external ID and differ. */
  ghost predicate Agreeing(added: seq<Observation>) {
    forall i, j :: 0 <= i < j < |added| && added[i].externalId == added[j].externalId ==> added[i] == added[j]
  }

  lemma {:induction false} FirstOccurrencesSame(added: seq<Observation>)
    ensures forall o :: o in FirstOccurrences(added) <==> o in added
    ensures Distinct(FirstOccurrences(added))
  {
    if added != [] {
      var n := |added| - 1;
      assert added == added[..n] + [added[n]];
      FirstOccurrencesSame(added[..n]);
    }
  }

  /** The index finds exactly the observations, by external ID. */
  ghost predicate Indexes(byId: map<string, Observation>, observations: seq<Observation>) {
    && (forall o :: o in observations ==> o.externalId in byId && byId[o.externalId] == o)
    && (forall id :: id in byId ==> byId[id] in observations && byId[id].externalId == id)
  }

  ghost predicate Counts(counts: map<string, nat>, observations: seq<Observation>) {
    forall kind :: (if kind in counts then counts[kind] else 0) == CountKind(observations, kind)
  }

  lemma CountsGrow(counts: map<string, nat>, observations: seq<Observation>, o: Observation)
    requires Counts(counts, observations)
    ensures Counts(counts[o.kind := (if o.kind in counts then counts[o.kind] else 0) + 1], observations + [o])
  {
  }

  lemma IndexGrows(byId: map<string, Observation>, observations: seq<Observation>, o: Observation)
    requires Indexes(byId, observations) && o.externalId !in byId
    ensures Indexes(byId[o.externalId := o], observations + [o])
  {
  }

  class CollectionState {
    var observationById: map<string, Observation>
    var observations: seq<Observation>
    var counts: map<string, nat>
    ghost var added: seq<Observation>

    /** What was added, without repetitions, is listed in order, found by ID and counted by kind. */
    ghost predicate Valid()
      reads this
    {
      && Agreeing(added) && observations == FirstOccurrences(added)
      && Indexes(observationById, observations) && Counts(counts, observations)
    }

    constructor ()
      ensures Valid() && added == []
    {
      observationById, observations, counts, added := map[], [], map[], [];
    }

    /** Adds an observation, or refuses it because it differs from one of the same ID. */
    method Add(o: Observation) returns (ok: bool)
      requires Valid()
      modifies this
      ensures Valid()
      ensures ok <==> Agreeing(old(added) + [o])
      ensures added == if ok then old(added) + [o] else old(added)
      ensures !ok || o in old(added) ==> observations == old(observations) && counts == old(counts)
    {
      FirstOccurrencesSame(added);
      if o.externalId in observationById {
        var existing := observationById[o.externalId];
        if existing.kind != o.kind || existing != o {
          Disagrees(added, existing, o);
          return false;
        }
        Repeats(added, o);
        added := added + [o];
        return true;
      }
      AddNew(o);
      return true;
    }

    method AddNew(o: Observation)
      requires Valid() && o.externalId !in observationById
      modifies this
      ensures Valid() && added == old(added) + [o] && o !in old(added)
    {
      FirstOccurrencesSame(added);
      Extends(added, o);
      CountsGrow(counts, observations, o);
      IndexGrows(observationById, observations, o);
      added := added + [o];
      observationById := observationById[o.externalId := o];
      observations := observations + [o];
      counts := counts[o.kind := (if o.kind in counts then counts[o.kind] else 0) + 1];
    }
  }

  lemma Disagrees(added: seq<Observation>, existing: Observation, o: Observation)
    requires existing in added && existing.externalId == o.externalId && existing != o
    ensures !Agreeing(added + [o])
  {
    var i :| 0 <= i < |added| && added[i] == existing;
    assert (added + [o])[i] == existing && (added + [o])[|added|] == o;
  }

  lemma Repeats(added: seq<Observation>, o: Observation)
    requires Agreeing(added) && o in added
    ensures Agreeing(added + [o]) && FirstOccurrences(added + [o]) == FirstOccurrences(added)
  {
    var i :| 0 <= i < |added| && added[i] == o;
    assert (added + [o])[..|added|] == added;
    FirstOccurrencesSame(added);
  }

  lemma Extends(added: seq<Observation>, o: Observation)
    requires Agreeing(added) && forall p :: p in added ==> p.externalId != o.externalId
    ensures Agreeing(added + [o]) && FirstOccurrences(added + [o]) == FirstOccurrences(added) + [o]
  {
    assert (added + [o])[..|added|] == added;
    FirstOccurrencesSame(added);
  }
}
