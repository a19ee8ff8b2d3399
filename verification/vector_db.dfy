/** The semantic cache: an append-only store of (query, response, id) entries
    answering look-ups by the single nearest stored query, reused only when its
    distance is strictly below a threshold. The embedding model and the distance
    it induces are a parameter `dist`; `dist(q, d)` is the distance the index
    reports between the looked-up text `q` and the stored document `d`. */
module VectorDb {
  import opened Wrappers

  /** One cached answer: the document (the query text), its `response`
      metadata and the identifier it was added under. */
  datatype Entry = Entry(query: string, response: string, id: string)

  /** The `agent_cache` collection. */
  datatype Store = Store(entries: seq<Entry>)

  /** The distance function of the embedding index. */
  type Distance = (string, string) -> real

  /** The default `distance_threshold` of a look-up. */
  const DefaultThreshold: real := 0.5

  /** A freshly created collection holds nothing. */
  const EmptyStore := Store([])

  /** The identifiers in use. */
  function Ids(s: Store): set<string> {
    set i | 0 <= i < |s.entries| :: s.entries[i].id
  }

  /** No two entries share an identifier. */
  predicate UniqueIds(s: Store) {
    forall i, j :: 0 <= i < j < |s.entries| ==> s.entries[i].id != s.entries[j].id
  }

  /** `save_query_response`: add one entry under the identifier `id` (a fresh
      UUID in the running system). Nothing is deduplicated and nothing else
      changes. */
  function Save(s: Store, query: string, response: string, id: string): (s': Store)
    ensures |s'.entries| == |s.entries| + 1
    ensures s'.entries[..|s.entries|] == s.entries
    ensures s'.entries[|s.entries|] == Entry(query, response, id)
  {
    Store(s.entries + [Entry(query, response, id)])
  }

  /** Saving under an identifier not yet in use keeps identifiers unique, and
      the new identifier joins those already in use. */
  lemma SaveKeepsIdsUnique(s: Store, query: string, response: string, id: string)
    requires UniqueIds(s)
    requires id !in Ids(s)
    ensures UniqueIds(Save(s, query, response, id))
    ensures Ids(Save(s, query, response, id)) == Ids(s) + {id}
  {
  }

  /** Saving the same pair twice stores two distinct entries: there is no
      deduplication by query text. */
  lemma SaveDoesNotDeduplicate(s: Store, query: string, response: string, id1: string, id2: string)
    ensures |Save(Save(s, query, response, id1), query, response, id2).entries| == |s.entries| + 2
  {
  }

  /** The distance from `q` to the `i`-th stored query. */
  function DistanceTo(entries: seq<Entry>, q: string, dist: Distance, i: nat): real
    requires i < |entries|
  {
    dist(q, entries[i].query)
  }

  /** No stored query is closer to `q` than the `i`-th. */
  predicate IsNearest(entries: seq<Entry>, q: string, dist: Distance, i: nat)
    requires i < |entries|
  {
    forall j :: 0 <= j < |entries| ==> DistanceTo(entries, q, dist, i) <= DistanceTo(entries, q, dist, j)
  }

  /** The index of the nearest stored query to `q`; among equally near ones,
      the earliest. */
  function Nearest(entries: seq<Entry>, q: string, dist: Distance): (k: nat)
    requires |entries| > 0
    ensures k < |entries|
    ensures IsNearest(entries, q, dist, k)
    ensures forall j :: 0 <= j < k ==> DistanceTo(entries, q, dist, k) < DistanceTo(entries, q, dist, j)
    decreases |entries|
  {
    if |entries| == 1 then 0
    else
      var init := entries[..|entries| - 1];
      var k := Nearest(init, q, dist);
      assert forall j :: 0 <= j < |init| ==> DistanceTo(init, q, dist, j) == DistanceTo(entries, q, dist, j);
      if DistanceTo(entries, q, dist, |entries| - 1) < DistanceTo(entries, q, dist, k) then |entries| - 1 else k
  }

  /** The `response` metadata of a stored document; `None` when the key is absent. */
  datatype Metadata = Metadata(response: Option<string>)

  /** The dictionary the index returns for a single-text, `n_results=1` query.
      Each field is `None` when the index left it out, otherwise one list per
      query text of up to one neighbour. */
  datatype QueryResult = QueryResult(
    documents: Option<seq<seq<string>>>,
    distances: Option<seq<seq<real>>>,
    metadatas: Option<seq<seq<Metadata>>>)

  /** What `get_cached_response` makes of a query result: a reusable response,
      `None`, or an exception (its metadata was missing). */
  datatype Reading = Hit(response: string) | Miss | Raises

  /** Python truthiness of an optional list: present and non-empty. */
  predicate Truthy<T>(xs: Option<seq<T>>) {
    xs.Some? && |xs.value| > 0
  }

  /** The list holds a first neighbour with a `response` metadata. */
  predicate HasFirstResponse(ms: Option<seq<seq<Metadata>>>) {
    && ms.Some? && |ms.value| > 0 && |ms.value[0]| > 0
    && ms.value[0][0].response.Some?
  }

  /** The result holds documents and a first distance, and that distance is
      strictly below `threshold`. */
  predicate CloseEnough(res: QueryResult, threshold: real) {
    && Truthy(res.documents) && Truthy(res.distances)
    && |res.distances.value[0]| > 0
    && res.distances.value[0][0] < threshold
  }

  /** Lines 34-39 of `get_cached_response`: only a present first distance
      strictly below the threshold can be a hit, and then the answer is that
      neighbour's response; missing or empty documents or distances are a
      miss, and a close neighbour without a response raises. */
  function Interpret(res: QueryResult, threshold: real): (r: Reading)
    ensures r.Hit? <==> CloseEnough(res, threshold) && HasFirstResponse(res.metadatas)
    ensures r.Hit? ==> r.response == res.metadatas.value[0][0].response.value
    ensures r.Raises? <==> CloseEnough(res, threshold) && !HasFirstResponse(res.metadatas)
    ensures !Truthy(res.documents) || !Truthy(res.distances) ==> r == Miss
  {
    if Truthy(res.documents) && Truthy(res.distances) && |res.distances.value[0]| > 0 then
      var distance := res.distances.value[0][0];
      if distance < threshold then
        if HasFirstResponse(res.metadatas) then Hit(res.metadatas.value[0][0].response.value)
        else Raises
      else Miss
    else Miss
  }

  /** The index's answer to `query(query_texts=[q], n_results=1)`: the nearest
      entry with its distance, or empty lists for an empty collection. */
  function QueryNearest(s: Store, q: string, dist: Distance): (res: QueryResult)
    ensures res.documents.Some? && |res.documents.value| == 1
    ensures res.distances.Some? && |res.distances.value| == 1
    ensures |res.documents.value[0]| == (if |s.entries| == 0 then 0 else 1)
    ensures |res.distances.value[0]| == (if |s.entries| == 0 then 0 else 1)
    ensures |s.entries| > 0 ==> HasFirstResponse(res.metadatas)
    ensures |s.entries| > 0 ==>
              exists i :: && 0 <= i < |s.entries|
                          && res.documents.value[0][0] == s.entries[i].query
                          && res.distances.value[0][0] == DistanceTo(s.entries, q, dist, i)
                          && res.metadatas.value[0][0].response == Some(s.entries[i].response)
                          && IsNearest(s.entries, q, dist, i)
  {
    if |s.entries| == 0 then QueryResult(Some([[]]), Some([[]]), Some([[]]))
    else
      var k := Nearest(s.entries, q, dist);
      var e := s.entries[k];
      QueryResult(Some([[e.query]]), Some([[DistanceTo(s.entries, q, dist, k)]]), Some([[Metadata(Some(e.response))]]))
  }

  /** `get_cached_response(q, threshold)`: a hit exactly when some stored query
      lies strictly closer than the threshold, and then the response of a
      nearest stored query. */
  function Lookup(s: Store, q: string, dist: Distance, threshold: real): (r: Option<string>)
    ensures r.Some? <==> exists i :: 0 <= i < |s.entries| && DistanceTo(s.entries, q, dist, i) < threshold
    ensures r.Some? ==>
              exists i :: && 0 <= i < |s.entries|
                          && s.entries[i].response == r.value
                          && DistanceTo(s.entries, q, dist, i) < threshold
                          && IsNearest(s.entries, q, dist, i)
  {
    var res := QueryNearest(s, q, dist);
    match Interpret(res, threshold)
    case Hit(r) => Some(r)
    case Miss => None
    case Raises => assert false; None
  }

  /** A look-up whose nearest stored query lies exactly at the threshold is a
      miss: the comparison is strict. */
  lemma ThresholdIsStrict(s: Store, q: string, dist: Distance, threshold: real)
    requires |s.entries| > 0
    requires DistanceTo(s.entries, q, dist, Nearest(s.entries, q, dist)) == threshold
    ensures Lookup(s, q, dist, threshold) == None
  {
  }

  /** A freshly created store answers every look-up with `None`. */
  lemma EmptyStoreMisses(q: string, dist: Distance, threshold: real)
    ensures Lookup(EmptyStore, q, dist, threshold) == None
  {
  }

  /** After saving `(q, r)`, looking `q` up again is a hit whenever a text is
      closer to itself than the threshold. */
  lemma SaveThenLookupHits(s: Store, q: string, r: string, id: string, dist: Distance, threshold: real)
    requires dist(q, q) < threshold
    ensures Lookup(Save(s, q, r, id), q, dist, threshold).Some?
  {
  }

  /** The round trip of the cache: in a fresh store, saving `(q, r)` and then
      looking `q` up yields exactly `r` when its self-distance is below the
      default threshold. */
  lemma FreshRoundTrip(q: string, r: string, id: string, dist: Distance)
    requires dist(q, q) < DefaultThreshold
    ensures Lookup(Save(EmptyStore, q, r, id), q, dist, DefaultThreshold) == Some(r)
  {
  }
}
