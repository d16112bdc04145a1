/**
 * The Overpass fetch paths: building the bounding-box query, and merging a
 * response into the feature store. The HTTP exchange is an input: for each query,
 * either no body (the response could not be read) or the outcome of parsing it.
 */
module OverpassApi {
  import opened Wrappers
  import opened MapTypes
  import opened Loader
  import opened MapStore

  // ---- the query document ----

  /** An Overpass QL bounding-box filter, in its slot order (south, west, north, east). */
  datatype BboxFilter = BboxFilter(south: real, west: real, north: real, east: real)

  /** One `way[key]` or `way[key=value]` clause scoped to a box. */
  datatype WayClause = WayClause(key: string, value: Option<string>, bbox: BboxFilter)

  datatype OverpassQuery = OverpassQuery(clauses: seq<WayClause>)

  /**
   * The query for one bound: a single highway clause whose box slots are filled with
   * bound.bottom, bound.right, bound.top and bound.left, in that order (the building
   * clause is commented out in the source).
   */
  function QueryFor(bound: Rect): (q: OverpassQuery)
    ensures |q.clauses| == 1 && q.clauses[0].key == "highway" && q.clauses[0].value == None
    ensures q.clauses[0].bbox.south == bound.bottom && q.clauses[0].bbox.west == bound.right
    ensures q.clauses[0].bbox.north == bound.top && q.clauses[0].bbox.east == bound.left
  {
    OverpassQuery([WayClause("highway", None, BboxFilter(bound.bottom, bound.right, bound.top, bound.left))])
  }

  /** The fixed query of get_road_data: primary highways in one hard-coded box. */
  const ROAD_QUERY: OverpassQuery :=
    OverpassQuery([WayClause("highway", Some("primary"), BboxFilter(52.0, 0.145, 52.195, 0.154))])

  // ---- the id filter ----

  predicate IsPrefix(sub: string, s: string) {
    |sub| <= |s| && s[..|sub|] == sub
  }

  /** `s.contains(sub)`: `sub` occurs in `s` as a contiguous substring. */
  predicate IsSubstring(sub: string, s: string)
    decreases |s|
  {
    IsPrefix(sub, s) || (|s| > 0 && IsSubstring(sub, s[1..]))
  }

  lemma SubstringOfSelf(s: string)
    ensures IsSubstring(s, s)
  {
    assert s[..|s|] == s;
  }

  /** A fetched id is rejected when it occurs inside the id of some stored feature. */
  predicate IdSubsumed(store: seq<Feature>, id: string) {
    exists e :: e in store && IsSubstring(id, e.id)
  }

  /** The fetched features kept by the filter, in fetched order. */
  function FreshFeatures(store: seq<Feature>, fetched: seq<Feature>): (kept: seq<Feature>)
    ensures forall f :: f in kept <==> f in fetched && !IdSubsumed(store, f.id)
    ensures |kept| <= |fetched|
    decreases |fetched|
  {
    if fetched == [] then []
    else
      var f := fetched[|fetched| - 1];
      var init := fetched[..|fetched| - 1];
      assert forall g :: g in fetched <==> g in init || g == f;
      FreshFeatures(store, init) + (if IdSubsumed(store, f.id) then [] else [f])
  }

  /** The filter keeps the fetched order: filtering a concatenation filters each part. */
  lemma {:induction false} FreshFeaturesAppend(store: seq<Feature>, a: seq<Feature>, b: seq<Feature>)
    ensures FreshFeatures(store, a + b) == FreshFeatures(store, a) + FreshFeatures(store, b)
    decreases |b|
  {
    if b == [] {
      assert a + b == a;
    } else {
      assert (a + b)[..|a + b| - 1] == a + b[..|b| - 1];
      assert (a + b)[|a + b| - 1] == b[|b| - 1];
      FreshFeaturesAppend(store, a, b[..|b| - 1]);
    }
  }

  /** A single fetched feature is kept exactly when no stored id contains its id. */
  lemma FreshFeaturesSingle(store: seq<Feature>, f: Feature)
    ensures FreshFeatures(store, [f]) == if IdSubsumed(store, f.id) then [] else [f]
  {
    assert [f][..0] == [];
  }

  /**
   * The store after one response: unchanged when the body could not be read or
   * did not parse; otherwise every stored feature kept, followed by the fresh ones.
   */
  function MergeResponse(store: seq<Feature>, response: Option<Result<seq<Element>, string>>): (merged: seq<Feature>)
    ensures |merged| >= |store| && merged[..|store|] == store
    ensures response.None? || response.value.Err? ==> merged == store
  {
    match response
    case None => store
    case Some(Err(_)) => store
    case Some(Ok(elements)) => store + FreshFeatures(store, ConvertAll(elements))
  }

  /** The store after the responses of several bounds, each filtered against the store so far. */
  function MergeAll(store: seq<Feature>, responses: seq<Option<Result<seq<Element>, string>>>): (merged: seq<Feature>)
    ensures |merged| >= |store|
    decreases |responses|
  {
    if responses == [] then store
    else MergeResponse(MergeAll(store, responses[..|responses| - 1]), responses[|responses| - 1])
  }

  /** Merge with one bound's response; returns the query that was sent. */
  method SendOverpassQuery(mb: MapBundle, bound: Rect, response: Option<Result<seq<Element>, string>>)
    returns (query: OverpassQuery)
    modifies mb`features
    ensures query == QueryFor(bound)
    ensures mb.features == MergeResponse(old(mb.features), response)
  {
    query := QueryFor(bound);
    if response.Some? {
      var features := GetDataFromStringOsm(response.value);
      if features.Ok? {
        var newFeatures := FreshFeatures(mb.features, features.value);
        mb.features := mb.features + newFeatures;
      }
    }
  }

  /** The multi-bound loop: one query and one merge per bound, in order. */
  method SendOverpassQueries(mb: MapBundle, bounds: seq<Rect>,
                             responses: seq<Option<Result<seq<Element>, string>>>)
    returns (queries: seq<OverpassQuery>)
    requires |responses| == |bounds|
    modifies mb`features
    ensures |queries| == |bounds|
    ensures forall i :: 0 <= i < |bounds| ==> queries[i] == QueryFor(bounds[i])
    ensures mb.features == MergeAll(old(mb.features), responses)
  {
    queries := [];
    var i := 0;
    while i < |bounds|
      invariant 0 <= i <= |bounds|
      invariant |queries| == i
      invariant forall k :: 0 <= k < i ==> queries[k] == QueryFor(bounds[k])
      invariant mb.features == MergeAll(old(mb.features), responses[..i])
    {
      assert responses[..i + 1][..i] == responses[..i];
      var q := SendOverpassQuery(mb, bounds[i], responses[i]);
      queries := queries + [q];
      i := i + 1;
    }
    assert responses[..i] == responses;
  }

  /** get_road_data: every parsed feature is appended, with no id filter. */
  method GetRoadData(mb: MapBundle, parsed: Result<seq<Element>, string>) returns (query: OverpassQuery)
    modifies mb`features
    ensures query == ROAD_QUERY
    ensures parsed.Err? ==> mb.features == old(mb.features)
    ensures parsed.Ok? ==> mb.features == old(mb.features) + ConvertAll(parsed.value)
  {
    query := ROAD_QUERY;
    var features := GetDataFromStringOsm(parsed);
    if features.Ok? {
      mb.features := mb.features + features.value;
    }
  }

  // ---- properties of the merge ----

  /** The merge keeps every stored feature, as a prefix, and only appends fetched features. */
  lemma {:induction false} MergeAllKeepsStore(store: seq<Feature>,
                                            responses: seq<Option<Result<seq<Element>, string>>>)
    ensures |MergeAll(store, responses)| >= |store|
    ensures MergeAll(store, responses)[..|store|] == store
    decreases |responses|
  {
    if responses != [] {
      var before := MergeAll(store, responses[..|responses| - 1]);
      MergeAllKeepsStore(store, responses[..|responses| - 1]);
      assert MergeResponse(before, responses[|responses| - 1])[..|before|] == before;
      assert before[..|store|] == store;
    }
  }

  /** The test is substring containment: a fetched id "4" is rejected once "42" is stored. */
  lemma SubstringIdRejected(stored: Feature, fetched: Feature)
    requires stored.id == "42" && fetched.id == "4"
    ensures FreshFeatures([stored], [fetched]) == []
  {
    assert IsPrefix("4", "42");
    assert IdSubsumed([stored], fetched.id);
    assert [fetched][..0] == [];
  }

  /** Two features with the same fresh id in one batch are both added: the filter looks only at the store. */
  lemma SameBatchDuplicatesKept(store: seq<Feature>, a: Feature, b: Feature)
    requires a.id == b.id && !IdSubsumed(store, a.id)
    ensures FreshFeatures(store, [a, b]) == [a, b]
  {
    assert [a, b][..1] == [a];
    assert [a][..0] == [];
  }

  /** Two responses are merged one after the other. */
  lemma MergeTwo(store: seq<Feature>, r0: Option<Result<seq<Element>, string>>, r1: Option<Result<seq<Element>, string>>)
    ensures MergeAll(store, [r0, r1]) == MergeResponse(MergeResponse(store, r0), r1)
  {
    var rs := [r0, r1];
    assert rs[..1] == [r0];
    assert [r0][..0] == [];
    assert MergeAll(store, [r0]) == MergeResponse(MergeAll(store, []), r0);
    assert MergeAll(store, rs) == MergeResponse(MergeAll(store, rs[..1]), rs[1]);
  }

  /**
   * Across bounds the filter sees earlier additions: the same fresh element returned
   * for two bounds is added once.
   */
  lemma LaterBoundSeesEarlierAdditions(store: seq<Feature>, e: Element)
    requires |e.geometry| > 0 && !IdSubsumed(store, ToFeature(e).id)
    ensures MergeAll(store, [Some(Ok([e])), Some(Ok([e]))]) == store + [ToFeature(e)]
  {
    var f := ToFeature(e);
    var r: Option<Result<seq<Element>, string>> := Some(Ok([e]));
    MergeTwo(store, r, r);
    ConvertSingle(e);
    FreshFeaturesSingle(store, f);
    var mid := MergeResponse(store, r);
    assert mid == store + [f];
    SubstringOfSelf(f.id);
    assert f in mid;
    assert IdSubsumed(mid, f.id);
    FreshFeaturesSingle(mid, f);
  }

  function CountId(fs: seq<Feature>, id: string): nat
    decreases |fs|
  {
    if fs == [] then 0 else CountId(fs[..|fs| - 1], id) + (if fs[|fs| - 1].id == id then 1 else 0)
  }

  lemma {:induction false} CountIdAppend(a: seq<Feature>, b: seq<Feature>, id: string)
    ensures CountId(a + b, id) == CountId(a, id) + CountId(b, id)
    decreases |b|
  {
    if b == [] {
      assert a + b == a;
    } else {
      assert (a + b)[..|a + b| - 1] == a + b[..|b| - 1];
      CountIdAppend(a, b[..|b| - 1], id);
    }
  }

  lemma {:induction false} CountIdAbsent(fs: seq<Feature>, id: string)
    requires forall f :: f in fs ==> f.id != id
    ensures CountId(fs, id) == 0
    decreases |fs|
  {
    if fs != [] {
      CountIdAbsent(fs[..|fs| - 1], id);
    }
  }

  /**
   * Dedup across merges: once a feature with a given id is stored, a later merge never
   * adds another feature with exactly that id.
   */
  lemma StoredIdNeverDuplicated(store: seq<Feature>, response: Option<Result<seq<Element>, string>>, id: string)
    requires exists e :: e in store && e.id == id
    ensures CountId(MergeResponse(store, response), id) == CountId(store, id)
  {
    if response.Some? && response.value.Ok? {
      var added := FreshFeatures(store, ConvertAll(response.value.value));
      var e :| e in store && e.id == id;
      SubstringOfSelf(id);
      assert IsSubstring(id, e.id);
      forall f | f in added
        ensures f.id != id
      {
        assert !IdSubsumed(store, f.id);
      }
      CountIdAbsent(added, id);
      CountIdAppend(store, added, id);
    }
  }

  /** The same over the responses of any number of bounds, merged in turn. */
  lemma {:induction false} StoredIdNeverDuplicatedAll(store: seq<Feature>,
                                                    responses: seq<Option<Result<seq<Element>, string>>>,
                                                    id: string)
    requires exists e :: e in store && e.id == id
    ensures CountId(MergeAll(store, responses), id) == CountId(store, id)
    decreases |responses|
  {
    if responses != [] {
      var init := responses[..|responses| - 1];
      var before := MergeAll(store, init);
      StoredIdNeverDuplicatedAll(store, init, id);
      MergeAllKeepsStore(store, init);
      var e :| e in store && e.id == id;
      assert e in before[..|store|];
      StoredIdNeverDuplicated(before, responses[|responses| - 1], id);
    }
  }

  /** A failed or unparsable response leaves the store unchanged. */
  lemma {:induction false} FailedResponsesChangeNothing(store: seq<Feature>, responses: seq<Option<Result<seq<Element>, string>>>)
    requires forall i :: 0 <= i < |responses| ==> responses[i].None? || responses[i].value.Err?
    ensures MergeAll(store, responses) == store
    decreases |responses|
  {
    if responses != [] {
      FailedResponsesChangeNothing(store, responses[..|responses| - 1]);
    }
  }
}
