/** The orchestrator: one query goes through the cache check, then the crew,
    then a substring-gated cache write. The crew's run is an abstract outcome,
    and the new state of the store is returned with the response. */
module MainAgent {
  import opened Wrappers
  import opened Strings
  import opened VectorDb
  import CrewManager
  import Tools

  /** What running the crew produced: its output rendered with `str`, or the
      text of the exception it raised. */
  datatype CrewOutcome = Completed(text: string) | Raised(msg: string)

  /** The response to one query and the store after it. */
  datatype Handled = Handled(response: string, store: Store)

  const CachePrefix := "[From Cache] "
  const FaultPrefix := "An error occurred while processing your request: "

  /** The cache-write gate: neither "Error" nor "Sorry" occurs in the text,
      with case respected. */
  predicate ShouldCache(text: string)
    ensures ShouldCache(text) <==>
              forall i: nat :: !OccursAt(text, "Error", i) && !OccursAt(text, "Sorry", i)
    ensures StartsWith(text, "Error") || StartsWith(text, "Sorry") ==> !ShouldCache(text)
  {
    assert StartsWith(text, "Error") ==> OccursAt(text, "Error", 0);
    assert StartsWith(text, "Sorry") ==> OccursAt(text, "Sorry", 0);
    !Contains(text, "Error") && !Contains(text, "Sorry")
  }

  /** `if cached_response:` — a cached answer is used only when present and non-empty. */
  predicate CacheHit(s: Store, query: string, dist: Distance)
    ensures CacheHit(s, query, dist) ==>
              exists i :: && 0 <= i < |s.entries| && s.entries[i].response != ""
                          && DistanceTo(s.entries, query, dist, i) < DefaultThreshold
    ensures (&& (exists i :: 0 <= i < |s.entries| && DistanceTo(s.entries, query, dist, i) < DefaultThreshold)
             && (forall i :: 0 <= i < |s.entries| && DistanceTo(s.entries, query, dist, i) < DefaultThreshold ==>
                               s.entries[i].response != "")) ==> CacheHit(s, query, dist)
    ensures s.entries == [] ==> !CacheHit(s, query, dist)
  {
    var cached := Lookup(s, query, dist, DefaultThreshold);
    cached.Some? && cached.value != ""
  }

  /** `handle_query(query)`; `id` is the identifier a cache write would use. A
      usable cached answer is returned marked and nothing else happens; a
      crew fault becomes a message and nothing is stored; a crew answer is
      returned verbatim and stored exactly when it passes the gate. */
  function HandleQuery(s: Store, query: string, dist: Distance, crew: CrewOutcome, id: string): (h: Handled)
    ensures CacheHit(s, query, dist) ==>
              h == Handled(CachePrefix + Lookup(s, query, dist, DefaultThreshold).value, s)
    ensures !CacheHit(s, query, dist) && crew.Raised? ==>
              h == Handled(FaultPrefix + crew.msg, s)
    ensures !CacheHit(s, query, dist) && crew.Completed? ==>
              && h.response == crew.text
              && (ShouldCache(crew.text) ==> h.store == Save(s, query, crew.text, id))
              && (!ShouldCache(crew.text) ==> h.store == s)
  {
    var cached := Lookup(s, query, dist, DefaultThreshold);
    if cached.Some? && cached.value != "" then
      Handled(CachePrefix + cached.value, s)
    else
      match crew
      case Raised(msg) => Handled(FaultPrefix + msg, s)
      case Completed(text) =>
        if ShouldCache(text) then Handled(text, Save(s, query, text, id))
        else Handled(text, s)
  }

  /** On a cache hit the crew's outcome and the identifier play no part: the
      crew is not consulted and nothing is written. */
  lemma CacheHitIgnoresCrew(s: Store, query: string, dist: Distance,
                            crew1: CrewOutcome, id1: string, crew2: CrewOutcome, id2: string)
    requires CacheHit(s, query, dist)
    ensures HandleQuery(s, query, dist, crew1, id1) == HandleQuery(s, query, dist, crew2, id2)
    ensures HandleQuery(s, query, dist, crew1, id1).store == s
  {
  }

  /** An empty cached response counts as a miss: the crew's answer is returned
      unmarked. */
  lemma EmptyCachedIsMiss(s: Store, query: string, dist: Distance, text: string, id: string)
    requires Lookup(s, query, dist, DefaultThreshold) == Some("")
    ensures HandleQuery(s, query, dist, Completed(text), id).response == text
  {
  }

  /** Every call adds at most one entry, at the end, and that entry pairs the
      query with the returned response; existing entries never change. */
  lemma AtMostOneWrite(s: Store, query: string, dist: Distance, crew: CrewOutcome, id: string)
    ensures var h := HandleQuery(s, query, dist, crew, id);
            || h.store == s
            || (h.store.entries == s.entries + [Entry(query, h.response, id)]
                && crew == Completed(h.response) && !CacheHit(s, query, dist))
  {
  }

  /** The store grows exactly when the crew answered, the cache missed, and
      the answer passed the gate. */
  lemma WriteIff(s: Store, query: string, dist: Distance, crew: CrewOutcome, id: string)
    ensures |HandleQuery(s, query, dist, crew, id).store.entries| == |s.entries| + 1
            <==> !CacheHit(s, query, dist) && crew.Completed? && ShouldCache(crew.text)
  {
  }

  /** Every stored response passed the gate. */
  predicate Clean(s: Store) {
    forall i :: 0 <= i < |s.entries| ==> ShouldCache(s.entries[i].response)
  }

  /** Handling a query keeps every stored response free of "Error" and "Sorry",
      and keeps identifiers unique when the new one is fresh. */
  lemma HandleQueryKeepsInvariants(s: Store, query: string, dist: Distance, crew: CrewOutcome, id: string)
    requires Clean(s) && UniqueIds(s) && id !in Ids(s)
    ensures Clean(HandleQuery(s, query, dist, crew, id).store)
    ensures UniqueIds(HandleQuery(s, query, dist, crew, id).store)
  {
  }

  /** A failed weather call never reaches the cache: its text carries "Error". */
  lemma WeatherFailureNotCached(s: Store, query: string, dist: Distance, location: string,
                                o: Tools.HttpOutcome<Tools.WeatherData>, id: string)
    requires !Tools.WeatherSucceeded(o)
    ensures HandleQuery(s, query, dist, Completed(Tools.WeatherReport(location, o)), id).store == s
  {
    Tools.WeatherErrorMarker(location, o);
    StartsWithContains(Tools.WeatherReport(location, o), "Error");
  }

  /** A failed news call never reaches the cache: its text carries "Error". */
  lemma NewsFailureNotCached(s: Store, query: string, dist: Distance, topic: string,
                             o: Tools.HttpOutcome<Tools.NewsData>, id: string)
    requires !Tools.NewsSucceeded(o)
    ensures HandleQuery(s, query, dist, Completed(Tools.NewsReport(topic, o)), id).store == s
  {
    Tools.NewsErrorMarker(topic, o);
    StartsWithContains(Tools.NewsReport(topic, o), "Error");
  }

  /** The crew's refusal says "sorry" in lower case, so the case-sensitive
      gate lets it through: a refusal that reached this point would be cached. */
  lemma RefusalPassesGate(s: Store, query: string, dist: Distance, id: string)
    requires !CacheHit(s, query, dist)
    ensures HandleQuery(s, query, dist, Completed(CrewManager.RefusalText), id).store
            == Save(s, query, CrewManager.RefusalText, id)
  {
    RefusalShouldCache(CrewManager.RefusalText);
  }

  /** The refusal has no capital `E` or `S` at all, so it passes the gate.
      The text comes in through `t` so that the solver decides membership in
      the literal locally, away from the rest of `HandleQuery`. */
  lemma RefusalShouldCache(t: string)
    requires t == CrewManager.RefusalText
    ensures ShouldCache(t)
  {
    assert 'E' !in t && 'S' !in t;
    MissingFirstCharNotContains(t, "Error");
    MissingFirstCharNotContains(t, "Sorry");
  }

  /** The exception text of calling `run_crew(query)` without its `category`
      argument, as Python renders the resulting `TypeError`. */
  const ArityErrorText := "CrewManager.run_crew() missing 1 required positional argument: 'category'"

  /** `handle_query` calls `run_crew` with the query alone, so the call raises
      inside the `try`: nothing is ever written to the store, and every miss
      answers with the error message. */
  lemma OneArgumentCallNeverCaches(s: Store, query: string, dist: Distance, id: string)
    ensures HandleQuery(s, query, dist, Raised(ArityErrorText), id).store == s
    ensures !CacheHit(s, query, dist) ==>
              HandleQuery(s, query, dist, Raised(ArityErrorText), id) == Handled(FaultPrefix + ArityErrorText, s)
  {
  }

  /** The stubbed weather reply of the scenario below: London, 15 degrees, clear sky. */
  const LondonReply := Tools.Reply(200, Tools.WeatherData(Some(Tools.MainBlock(Some("15"))),
                                                          Some([Tools.Condition(Some("clear sky"))]), None))

  /** The sentence the stubbed reply yields. */
  lemma LondonSentence()
    ensures Tools.WeatherReport("London", LondonReply)
            == "The weather in " + "London" + " is " + "clear sky" + " with " + "15" + "°C."
  {
  }

  /** The report for the stubbed reply names the place, the sky and the
      temperature. */
  lemma LondonReport()
    ensures var answer := Tools.WeatherReport("London", LondonReply);
            Contains(answer, "London") && Contains(answer, "15") && Contains(answer, "clear sky")
  {
    var answer := Tools.WeatherReport("London", LondonReply);
    LondonSentence();
    assert OccursAt(answer, "London", 15);
    assert OccursAt(answer, "clear sky", 25);
    assert OccursAt(answer, "15", 40);
  }

  /** The report for the stubbed reply passes the cache gate. */
  lemma LondonReportCacheable()
    ensures ShouldCache(Tools.WeatherReport("London", LondonReply))
  {
    var answer := Tools.WeatherReport("London", LondonReply);
    LondonSentence();
    assert 'E' !in answer && 'S' !in answer;
    MissingFirstCharNotContains(answer, "Error");
    MissingFirstCharNotContains(answer, "Sorry");
  }

  /** The weather scenario end to end: with nothing cached, the stubbed
      London reply is answered verbatim and stored; the same question straight
      after is answered from the cache, marked, whatever the crew would have
      produced. */
  lemma LondonScenario(query: string, dist: Distance, id: string, later: CrewOutcome, id2: string)
    requires query == "What is the weather in London?"
    requires dist(query, query) < DefaultThreshold
    ensures var answer := Tools.WeatherReport("London", LondonReply);
            var first := HandleQuery(EmptyStore, query, dist, Completed(answer), id);
            var second := HandleQuery(first.store, query, dist, later, id2);
            && first == Handled(answer, Save(EmptyStore, query, answer, id))
            && second == Handled(CachePrefix + answer, first.store)
  {
    var answer := Tools.WeatherReport("London", LondonReply);
    LondonReport();
    LondonReportCacheable();
    assert !CacheHit(EmptyStore, query, dist);
    FreshRoundTrip(query, answer, id, dist);
    assert answer != "" by { assert Contains(answer, "London"); }
  }
}
