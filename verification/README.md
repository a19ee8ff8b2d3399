# Semantic cache and intent routing, modelled in Dafny

This project models the decision layer of a small weather-and-news assistant:

- **the semantic cache** (`utils/vector_db.py`) is an append-only store of
  (query, response, id) entries. A look-up asks the embedding index for the
  single nearest stored query and reuses its response only when the distance is
  strictly below a threshold. The default threshold is `0.5`
  (`VectorDb.DefaultThreshold`).
- **intent routing** (`agents/crew_manager.py`) has two parts.
  `classify_intent` trims and lower-cases the language model's answer and
  accepts only `weather` or `news`; every other answer is `unknown`.
  `run_crew` turns a category into a crew of one specialist agent carrying one
  tool, or into a fixed refusal.
- **the orchestrator** (`agents/main_agent.py`, `handle_query`) works in three
  steps. A non-empty cached answer is returned marked `[From Cache] `.
  Otherwise the crew runs; a fault becomes an error message. A crew answer is
  returned verbatim and cached only when it contains neither `Error` nor
  `Sorry`, case-sensitively.
- **the tools** (`utils/tools.py`) turn the outcome of one HTTP call into text.
  Every failure becomes a string that begins with `Error`.

External collaborators are inputs:

- the language model's answer is a `string`;
- the embedding distance is a function parameter `dist: (string, string) -> real`;
- the HTTP round trip, including JSON decoding, is `Tools.HttpOutcome`;
- the crew's run is `MainAgent.CrewOutcome`;
- a new entry's UUID is an `id` argument.

Every operation is a pure function. `handle_query` returns the response
together with the store after the call. Three properties hold by construction,
with no lemma needed:

- a look-up cannot change the store;
- `HandleQuery` yields a response for every crew outcome;
- a formatter gives the same text for the same inputs.

Modules, one per file: `Wrappers` (Option, Result), `Strings` (Python's
`strip`, `lower`, `in` and `"\n".join`, plus a prefix test and a split
used only to state properties), `VectorDb`,
`CrewManager`, `Tools` and `MainAgent`.

Behaviour of the code worth knowing, which the model follows:

- `handle_query` never calls `classify_intent`. It calls `run_crew(query)` with
  one argument, while `run_crew` takes `(query, category)`. As written, that
  call raises a `TypeError` inside the `try`, so every cache miss answers
  `An error occurred while processing your request: ` plus the missing-argument
  message, and nothing is ever cached (`MainAgent.OneArgumentCallNeverCaches`).
  The model treats the crew call in `HandleQuery` as an opaque outcome, so its
  other lemmas describe what happens once the crew does return, and it models
  `classify_intent` and `run_crew` on their own.
- A routing refusal would be cached on a miss if the crew returned it: the
  refusal text says "sorry" in lower case, and the gate is case-sensitive.
  `MainAgent.RefusalPassesGate` proves this.
- A look-up can raise: a close neighbour whose metadata lacks `response` is
  an exception, not a miss (`VectorDb.Interpret` yields `Raises`). A store
  built only by `save_query_response` never produces such a result, so
  `VectorDb.Lookup` never raises.
- The news tool does not cap headlines: it asks the provider for at most 3
  (`max`), then formats every article the provider returns.

## Model

| member | source | states |
|---|---|---|
| VectorDb.Save | utils/vector_db.py:12-20 | saving appends exactly one entry `(query, response, id)` at the end and leaves every existing entry as it was |
| VectorDb.SaveKeepsIdsUnique | utils/vector_db.py:16-20 | saving under a fresh identifier keeps all identifiers distinct and adds exactly that identifier to the ones in use |
| VectorDb.SaveDoesNotDeduplicate | utils/vector_db.py:16-20 | saving the same query and response twice stores two entries; there is no deduplication |
| VectorDb.Nearest | utils/vector_db.py:27-30 | the 1-nearest-neighbour search picks an entry no farther from the query than any other, the earliest among ties |
| VectorDb.QueryNearest | utils/vector_db.py:27-30 | an empty store yields empty document and distance lists; otherwise the result carries the query, distance and response of a nearest entry |
| VectorDb.Interpret | utils/vector_db.py:32-39 | a query result is a hit exactly when documents and a first distance are present, that distance is strictly below the threshold and the metadata has a response; the hit returns that response; missing documents or distances are a miss; a close neighbour without a response raises |
| VectorDb.Lookup | utils/vector_db.py:22-39 | a look-up hits exactly when some stored query is strictly closer than the threshold, and a hit returns the response of a nearest stored query |
| VectorDb.ThresholdIsStrict | utils/vector_db.py:36 | a nearest distance equal to the threshold is a miss |
| VectorDb.EmptyStoreMisses | utils/vector_db.py:34-39 | a fresh store answers every look-up with None |
| VectorDb.SaveThenLookupHits | utils/vector_db.py:12-39 | after saving `(q, r)`, looking `q` up is a hit whenever `q`'s distance to itself is below the threshold |
| VectorDb.FreshRoundTrip | tests/test_agents.py:25-36 | in a fresh store, saving `(q, r)` and then looking `q` up returns exactly `r` under the default threshold, given that `q`'s distance to itself is below 0.5 |
| Strings.Lower | agents/crew_manager.py:39 | lower-casing keeps the length, leaves no upper-case ASCII letter, and changes no other character |
| Strings.Contains | agents/main_agent.py:31 | `sub in s` holds only when `sub` fits in `s`, and always for the empty `sub` and for `s` itself |
| Strings.Join | utils/tools.py:50 | joining no lines gives the empty text, one line gives that line, and several start with the first line and the separator |
| Strings.Trim | agents/crew_manager.py:39 | `strip()` returns a text no longer than its input that neither starts nor ends with whitespace |
| Strings.TrimPadded | agents/crew_manager.py:39 | `strip()` removes exactly the whitespace around a text that has no whitespace at either end; since every string has this shape, this fixes what `strip()` returns |
| Strings.SplitJoin | utils/tools.py:50 | for at least one line, joining lines that contain no newline with newlines, then splitting at newlines, gives the lines back |
| CrewManager.Normalize | agents/crew_manager.py:39 | the normalised answer is no longer than the raw one, has no whitespace at either end and no upper-case ASCII letter |
| CrewManager.NormalizePadded | agents/crew_manager.py:39 | normalising whitespace around a core that has no outer whitespace gives the lower-cased core, whatever the padding |
| CrewManager.ClassifyIntent | agents/crew_manager.py:23-44 | the category is `weather` or `news` exactly when the trimmed, lower-cased answer is that word, and `unknown` for every other answer |
| CrewManager.NormalizeIdempotent | agents/crew_manager.py:39 | trimming and lower-casing an already normalised answer changes nothing |
| CrewManager.ClassifyIntentIgnoresNormalisation | agents/crew_manager.py:39-44 | classification depends only on the normalised answer: classifying it again gives the same category |
| CrewManager.ClassifyIntentPadded | agents/crew_manager.py:39-43 | the answer `" News\n"` is classified as `news` |
| CrewManager.ClassifyIntentTrailingDot | agents/crew_manager.py:39-44 | the near miss `weather.` is classified as `unknown` |
| CrewManager.ClassifyIntentTwoWords | agents/crew_manager.py:39-44 | the answer `" Weather news\n"`, naming both categories, is classified as `unknown` |
| CrewManager.ClassifyIntentUnknownWord | agents/crew_manager.py:42-44 | the answer `unknown` itself is classified as `unknown` |
| CrewManager.PlanCrew | agents/crew_manager.py:68-96 | any category other than `weather` or `news` gets the fixed refusal and no crew; otherwise the crew has one agent and one task, the task about the query and assigned to that agent, and the agent's only tool matches the category |
| CrewManager.RouteThenDispatch | agents/crew_manager.py:39-87 | a classified answer is refused exactly when it is `unknown`; a weather answer gets only the weather tool and a news answer only the news tool |
| Tools.ReadWeather | utils/tools.py:24-25 | reading the temperature and the first condition's description succeeds exactly when the body has both; otherwise, when no value on the path is null, the error is that of the first failing lookup, in order `'main'`, `'temp'`, `'weather'`, `list index out of range`, `'description'` |
| Tools.WeatherReport | utils/tools.py:12-29 | a complete 200 reply gives `The weather in <location> is <description> with <temp>°C.`; another status gives `Error: ` plus the message or `Unknown error`; an incomplete 200 body gives `Error fetching weather: ` plus the first failing lookup's error; a fault gives the same prefix plus the exception text |
| Tools.WeatherErrorMarker | utils/tools.py:23-29 | a weather text starts with `Error` exactly when the call did not succeed |
| Tools.ReadArticle | utils/tools.py:50 | an article gives the line `- <title> (<source name>)` exactly when it has a title and a named source; otherwise, when the article and its source are objects, the error is `'title'`, `'source'` or `'name'`, whichever lookup fails first |
| Tools.Headlines | utils/tools.py:50 | when every article is complete there is one line per article, in order; otherwise the error is that of the first incomplete article |
| Tools.NewsReport | utils/tools.py:35-53 | a 200 reply without articles gives `No news found.`; complete articles give their lines joined by newlines; an incomplete one gives `Error fetching news: ` plus the error of the first incomplete article; another status gives `Error: ` plus the errors or `Unknown error`; a fault gives `Error fetching news: ` plus the exception text |
| Tools.NewsHeadlinesRoundTrip | utils/tools.py:47-50 | when there is at least one article and no title or source name contains a newline, splitting a successful news text at newlines gives one headline per article, in order, with no trailing empty line |
| Tools.NewsErrorMarker | utils/tools.py:47-53 | a news text starts with `Error` exactly when the call did not succeed |
| MainAgent.ShouldCache | agents/main_agent.py:31 | the cache-write gate holds exactly when `Error` and `Sorry` occur at no position of the text; a text starting with either fails it |
| MainAgent.CacheHit | agents/main_agent.py:18-19 | a usable cached answer needs a stored query strictly closer than 0.5 with a non-empty response; when some stored query is that close and every such one has a non-empty response, it is a hit; an empty store never hits |
| MainAgent.HandleQuery | agents/main_agent.py:12-34 | a non-empty cached answer is returned as `[From Cache] ` plus the answer, and the store is unchanged; a crew fault gives `An error occurred while processing your request: ` plus the cause, and the store is unchanged; a crew answer is returned verbatim and stored exactly when it passes the gate |
| MainAgent.CacheHitIgnoresCrew | agents/main_agent.py:17-20 | on a cache hit, neither the crew's outcome nor the identifier affects the result, and nothing is written |
| MainAgent.EmptyCachedIsMiss | agents/main_agent.py:19 | an empty cached response counts as a miss, and the crew's answer is returned |
| MainAgent.AtMostOneWrite | agents/main_agent.py:30-32 | a call leaves the store as it was, or appends the one entry `(query, response, id)` after a miss with a completed crew |
| MainAgent.WriteIff | agents/main_agent.py:30-32 | the store grows exactly when the cache missed, the crew completed and its answer contains neither `Error` nor `Sorry` |
| MainAgent.HandleQueryKeepsInvariants | agents/main_agent.py:30-32 | if no stored response contains `Error` or `Sorry` before a call, none does after it; ids stay unique when the new id is fresh |
| MainAgent.WeatherFailureNotCached | agents/main_agent.py:31-32 | a failed weather call's text is never cached |
| MainAgent.NewsFailureNotCached | agents/main_agent.py:31-32 | a failed news call's text is never cached |
| MainAgent.OneArgumentCallNeverCaches | agents/main_agent.py:22-28 | with the one-argument `run_crew(query)` call raising its `TypeError`, no call changes the store, and a miss answers with the error message plus the missing-argument text |
| MainAgent.RefusalPassesGate | agents/main_agent.py:31-32 | the crew's refusal contains lower-case `sorry`, so if the crew returned it on a miss it would be cached |
| MainAgent.RefusalShouldCache | agents/main_agent.py:31 | the refusal text has no capital `E` or `S`, so it contains neither `Error` nor `Sorry` and passes the gate |
| MainAgent.LondonReport | utils/tools.py:23-26 | the stubbed London reply (15 degrees, clear sky) gives a text that contains `London`, `15` and `clear sky` |
| MainAgent.LondonReportCacheable | agents/main_agent.py:31 | the text for the stubbed London reply contains neither `Error` nor `Sorry`, so it passes the cache gate |
| MainAgent.LondonScenario | agents/main_agent.py:17-34 | given the crew answers with the weather tool's text and the question's distance to itself is below 0.5, with an empty cache the London question is answered verbatim and stored; asking again right away gets the marked cached answer, whatever the crew would have done |

## Left out

- The language-model call and its prompt: the model's answer is an input string.
- Building and running the crew (`Agent`, `Task`, `Crew`, `kickoff`). `PlanCrew` records only the roles, the tools and the task texts. The LLM handle, verbosity, delegation flag, goals and backstories are not modelled. The crew's output is the `CrewOutcome` input of `HandleQuery`.
- Embeddings and the distance computation: `dist` is a parameter. Chroma's index is approximate; the model searches exactly and breaks ties toward the earliest entry. NaN distances do not exist among Dafny reals.
- UUID generation and persistence to `db_path`: the id is an argument, and its freshness is a precondition of the lemmas that need it.
- The `Raises` outcome of `VectorDb.Interpret` and faults of the index itself: `get_cached_response` sits outside the `try` of `handle_query`, so such an exception would escape it. A store-backed look-up never produces one, so `HandleQuery` has no such path.
- `requests.get` and JSON decoding are the `HttpOutcome` input, and a decoding error is a `Fault`. `message`, `errors`, titles and source names are taken as already-rendered strings: a null `errors`, say, is the string `None`. Python's `str()` of lists, numbers or `null` is therefore not modelled, only its result. A body that is not a JSON object is not modelled.
- Tools.WeatherReport: the temperature is an opaque string, so float formatting is not modelled. The key-error texts (`'main'`, `'temp'`, `'weather'`, `'description'`) and `list index out of range` follow Python's messages.
- Tools.ReadWeather: a JSON `null` or a non-object where `main`, `weather` or `weather[0]` should be has no representation (`None` means an absent key), so Python's `TypeError` text such as `'NoneType' object is not subscriptable` is not among the errors the model produces; only missing keys and an empty list are.
- Tools.ReadArticle: likewise, a null `source` or an article that is not an object is not representable, so the `TypeError` text is not produced; only the missing-key errors are.
- Strings.Lower: only ASCII letters are lower-cased. No other character lower-cases to a letter of `weather` or `news`, so classification is unaffected.
- Formatting determinism needs no lemma: every formatter is a Dafny function of its inputs.
- The tools' `name`/`description` metadata, API keys, environment variables and `dotenv`: static configuration.
- `main.py` and the `__main__` loops: interactive I/O.
- The tests' `route_query`: `MainAgent` has no such method.
- Concurrency: the system has none.
