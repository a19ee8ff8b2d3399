/** Intent routing: the language model's raw answer is normalised and
    validated into a category, and a category selects the single specialist
    agent (with its single tool) that a crew would run. The model call and
    the crew library are outside; only their inputs and the selection are
    modelled. */
module CrewManager {
  import opened Strings

  /** The routing categories; `Unknown` is the fallback for anything else. */
  datatype Category = Weather | News | Unknown {
    /** The lower-case name `classify_intent` returns. */
    function Label(): string {
      match this
      case Weather => "weather"
      case News => "news"
      case Unknown => "unknown"
    }
  }

  /** `response.content.strip().lower()`: the result is no longer than the
      answer, has no whitespace at either end and no upper-case ASCII letter. */
  function Normalize(text: string): (r: string)
    ensures |r| <= |text|
    ensures r == [] || (!IsSpace(r[0]) && !IsSpace(r[|r| - 1]))
    ensures forall i :: 0 <= i < |r| ==> !('A' <= r[i] <= 'Z')
  {
    var t := Trim(text);
    if t == [] then Lower(t)
    else
      LowerCharKeepsSpace(t[0]);
      LowerCharKeepsSpace(t[|t| - 1]);
      Lower(t)
  }

  /** `classify_intent`, given the model's raw answer `llmText`: exactly the
      answers that normalise to "weather" or "news" select that category,
      every other answer is `Unknown`. */
  function ClassifyIntent(llmText: string): (c: Category)
    ensures c == Weather <==> Normalize(llmText) == "weather"
    ensures c == News <==> Normalize(llmText) == "news"
    ensures c == Unknown <==> Normalize(llmText) != "weather" && Normalize(llmText) != "news"
    ensures c != Unknown ==> c.Label() == Normalize(llmText)
  {
    var category := Normalize(llmText);
    if category == "weather" then Weather
    else if category == "news" then News
    else Unknown
  }

  /** Lower-casing twice is lower-casing once. */
  lemma LowerIdempotent(s: string)
    ensures Lower(Lower(s)) == Lower(s)
  {
    forall i | 0 <= i < |s| ensures Lower(Lower(s))[i] == Lower(s)[i] {
      assert Lower(s)[i] == LowerChar(s[i]);
    }
  }

  /** Normalising is idempotent, so classification depends only on the
      normalised answer. */
  lemma NormalizeIdempotent(text: string)
    ensures Normalize(Normalize(text)) == Normalize(text)
  {
    var t := Trim(text);
    var l := Lower(t);
    if l != [] {
      LowerCharKeepsSpace(t[0]);
      LowerCharKeepsSpace(t[|t| - 1]);
    }
    TrimPadded([], l, []);
    assert [] + l + [] == l;
    LowerIdempotent(t);
  }

  /** Classifying an already normalised answer gives the same category. */
  lemma ClassifyIntentIgnoresNormalisation(text: string)
    ensures ClassifyIntent(Normalize(text)) == ClassifyIntent(text)
  {
    NormalizeIdempotent(text);
  }

  /** Normalising an answer that is whitespace around a core with no outer
      whitespace gives the lower-cased core. */
  lemma NormalizePadded(pre: string, core: string, post: string)
    requires forall k :: 0 <= k < |pre| ==> IsSpace(pre[k])
    requires forall k :: 0 <= k < |post| ==> IsSpace(post[k])
    requires core == [] || (!IsSpace(core[0]) && !IsSpace(core[|core| - 1]))
    ensures Normalize(pre + core + post) == Lower(core)
  {
    TrimPadded(pre, core, post);
  }

  /** The one lower-casing the examples below need; the word comes in through
      a `requires` so that the solver evaluates `Lower` on the literal alone. */
  lemma LowerNewsWord(word: string)
    requires word == "News"
    ensures Lower(word) == "news"
  {
    var l := Lower(word);
    assert l[0] == 'n' && l[1] == 'e' && l[2] == 'w' && l[3] == 's';
  }

  /** Example: surrounding whitespace and capitals are ignored. */
  lemma ClassifyIntentPadded(answer: string)
    requires answer == " News\n"
    ensures ClassifyIntent(answer) == News
  {
    var pre, core, post := " ", "News", "\n";
    assert answer == pre + core + post;
    NormalizePadded(pre, core, post);
    LowerNewsWord(core);
  }

  /** Example: a near miss is not accepted; "weather." is `Unknown`. */
  lemma ClassifyIntentTrailingDot(answer: string)
    requires answer == "weather."
    ensures ClassifyIntent(answer) == Unknown
  {
    NormalizePadded([], answer, []);
    assert [] + answer + [] == answer;
    assert |Lower(answer)| == 8;
  }

  /** Example: an answer naming both categories, even padded and capitalised,
      is `Unknown`. */
  lemma ClassifyIntentTwoWords(answer: string)
    requires answer == " Weather news\n"
    ensures ClassifyIntent(answer) == Unknown
  {
    var pre, core, post := " ", "Weather news", "\n";
    assert answer == pre + core + post;
    NormalizePadded(pre, core, post);
    assert |Normalize(answer)| == |core| == 12;
  }

  /** Example: the model answering with the word "unknown" itself yields `Unknown`. */
  lemma ClassifyIntentUnknownWord(answer: string)
    requires answer == "unknown"
    ensures ClassifyIntent(answer) == Unknown
  {
  }

  /** The two tools a specialist agent may be given. */
  datatype Tool = WeatherTool | NewsTool

  /** A specialist agent as configured for the crew: its role and its tools. */
  datatype AgentSpec = AgentSpec(role: string, tools: seq<Tool>)

  /** A crew task: what to do, what to hand back and who does it. */
  datatype TaskSpec = TaskSpec(description: string, expectedOutput: string, agent: AgentSpec)

  /** What `run_crew` does with a category: hand back the fixed refusal without
      building anything, or build a sequential crew and run it. */
  datatype Dispatch = Refuse(text: string) | RunCrew(agents: seq<AgentSpec>, tasks: seq<TaskSpec>)

  /** The fixed answer to a query outside both categories. It is written in
      three pieces because the solver decides whether a character occurs in
      a short literal but not in one this long. */
  const RefusalText := "I'm sorry, " + "I can only handle " + "weather and news requests."

  const WeatherAgent := AgentSpec("Weather Specialist", [WeatherTool])
  const NewsAgent := AgentSpec("News Reporter", [NewsTool])

  /** `run_crew(query, category)`: "weather" and "news" each yield a crew of one
      agent carrying only the matching tool and one task about the query;
      every other category string is refused. */
  function PlanCrew(query: string, category: string): (d: Dispatch)
    ensures d.Refuse? <==> category != "weather" && category != "news"
    ensures d.Refuse? ==> d.text == RefusalText
    ensures d.RunCrew? ==> && |d.agents| == 1 && |d.tasks| == 1
                           && d.tasks[0].agent == d.agents[0]
                           && Contains(d.tasks[0].description, query)
    ensures category == "weather" ==> d.RunCrew? && d.agents[0].tools == [WeatherTool]
    ensures category == "news" ==> d.RunCrew? && d.agents[0].tools == [NewsTool]
  {
    if category == "weather" then
      var prefix := "Fetch and summarize the weather for the location mentioned in: '";
      var task := TaskSpec(prefix + query + "'", "A friendly weather report.", WeatherAgent);
      assert OccursAt(task.description, query, |prefix|);
      RunCrew([WeatherAgent], [task])
    else if category == "news" then
      var prefix := "Fetch and summarize the latest news for the topic mentioned in: '";
      var task := TaskSpec(prefix + query + "'", "A concise list of news headlines.", NewsAgent);
      assert OccursAt(task.description, query, |prefix|);
      RunCrew([NewsAgent], [task])
    else
      Refuse(RefusalText)
  }

  /** Routing a model answer and dispatching its category: a crew is built
      exactly when the answer named a known category, and its one agent then
      carries the tool of that category only. */
  lemma RouteThenDispatch(query: string, llmText: string)
    ensures var c := ClassifyIntent(llmText);
            var d := PlanCrew(query, c.Label());
            && (d.Refuse? <==> c == Unknown)
            && (c == Weather ==> d.agents[0].tools == [WeatherTool])
            && (c == News ==> d.agents[0].tools == [NewsTool])
  {
  }
}
