/** The weather and news tools as pure formatters: the HTTP request and the
    JSON decoding are one abstract outcome, and every way the call can go
    wrong ends as a string beginning with "Error" instead of an exception. */
module Tools {
  import opened Wrappers
  import opened Strings

  /** What the HTTP round trip produced: an exception raised by the request or
      by decoding its body (`Fault`), or a decoded body with its status code. */
  datatype HttpOutcome<P> = Fault(msg: string) | Reply(status: int, data: P)

  /** How Python renders a `KeyError` for a missing key: the key in quotes. */
  function KeyErrorText(key: string): string {
    "'" + key + "'"
  }

  /** How Python renders the `IndexError` of indexing an empty list. */
  const IndexErrorText := "list index out of range"

  /** The text returned when an error body names no reason. */
  const UnknownError := "Unknown error"

  // ---- Weather ----

  /** The `main` object of a weather body; `temp` is the rendered temperature. */
  datatype MainBlock = MainBlock(temp: Option<string>)

  /** One entry of the `weather` list. */
  datatype Condition = Condition(description: Option<string>)

  /** The decoded weather body; `None` marks an absent key. */
  datatype WeatherData = WeatherData(
    main: Option<MainBlock>,
    weather: Option<seq<Condition>>,
    message: Option<string>)

  /** The body carries everything a report needs. */
  predicate WellFormedWeather(d: WeatherData) {
    && d.main.Some? && d.main.value.temp.Some?
    && d.weather.Some? && |d.weather.value| > 0
    && d.weather.value[0].description.Some?
  }

  /** Reading `data['main']['temp']` and then `data['weather'][0]['description']`:
      the pair on success, otherwise the text of the first lookup that raises. */
  function ReadWeather(d: WeatherData): (r: Result<(string, string)>)
    ensures r.Ok? <==> WellFormedWeather(d)
    ensures r.Ok? ==> r.value == (d.main.value.temp.value, d.weather.value[0].description.value)
    ensures d.main.None? ==> r == Err(KeyErrorText("main"))
    ensures d.main.Some? && d.main.value.temp.None? ==> r == Err(KeyErrorText("temp"))
    ensures d.main.Some? && d.main.value.temp.Some? && d.weather.None? ==> r == Err(KeyErrorText("weather"))
    ensures d.main.Some? && d.main.value.temp.Some? && d.weather.Some? && d.weather.value == [] ==>
              r == Err(IndexErrorText)
    ensures (&& d.main.Some? && d.main.value.temp.Some? && d.weather.Some? && d.weather.value != []
             && d.weather.value[0].description.None?) ==> r == Err(KeyErrorText("description"))
  {
    if d.main.None? then Err(KeyErrorText("main"))
    else if d.main.value.temp.None? then Err(KeyErrorText("temp"))
    else if d.weather.None? then Err(KeyErrorText("weather"))
    else if |d.weather.value| == 0 then Err(IndexErrorText)
    else if d.weather.value[0].description.None? then Err(KeyErrorText("description"))
    else Ok((d.main.value.temp.value, d.weather.value[0].description.value))
  }

  /** The sentence of a successful weather report. */
  function WeatherSentence(location: string, description: string, temp: string): string {
    "The weather in " + location + " is " + description + " with " + temp + "°C."
  }

  /** `WeatherTool._run(location)` over the outcome of its request. */
  function WeatherReport(location: string, o: HttpOutcome<WeatherData>): (r: string)
    ensures o.Reply? && o.status == 200 && WellFormedWeather(o.data) ==>
              r == WeatherSentence(location, o.data.weather.value[0].description.value, o.data.main.value.temp.value)
    ensures o.Reply? && o.status != 200 ==>
              r == "Error: " + (if o.data.message.Some? then o.data.message.value else UnknownError)
    ensures o.Reply? && o.status == 200 && !WellFormedWeather(o.data) ==>
              r == "Error fetching weather: " + ReadWeather(o.data).msg
    ensures o.Fault? ==> r == "Error fetching weather: " + o.msg
  {
    match o
    case Fault(msg) => "Error fetching weather: " + msg
    case Reply(status, data) =>
      if status == 200 then
        match ReadWeather(data)
        case Ok((temp, description)) => WeatherSentence(location, description, temp)
        case Err(msg) => "Error fetching weather: " + msg
      else
        "Error: " + (if data.message.Some? then data.message.value else UnknownError)
  }

  /** The weather call succeeded: status 200 with a complete body. */
  predicate WeatherSucceeded(o: HttpOutcome<WeatherData>) {
    o.Reply? && o.status == 200 && WellFormedWeather(o.data)
  }

  /** A weather report starts with "Error" exactly when the call failed. */
  lemma WeatherErrorMarker(location: string, o: HttpOutcome<WeatherData>)
    ensures StartsWith(WeatherReport(location, o), "Error") <==> !WeatherSucceeded(o)
  {
  }

  // ---- News ----

  /** The `source` object of an article. */
  datatype Source = Source(name: Option<string>)

  /** One entry of the `articles` list. */
  datatype Article = Article(title: Option<string>, source: Option<Source>)

  /** The decoded news body. For `articles`, `None` marks an absent or null
      key (the source reads it with a default of `[]` and tests its truth).
      For `errors`, `None` marks only an absent key: a null `errors` is
      rendered by `str()` as `None`, so it is `Some("None")` here. */
  datatype NewsData = NewsData(articles: Option<seq<Article>>, errors: Option<string>)

  /** The article has a title and a named source. */
  predicate WellFormedArticle(a: Article) {
    a.title.Some? && a.source.Some? && a.source.value.name.Some?
  }

  /** The headline line of a complete article. */
  function Headline(a: Article): string
    requires WellFormedArticle(a)
  {
    "- " + a.title.value + " (" + a.source.value.name.value + ")"
  }

  /** Reading `a['title']` and then `a['source']['name']` into one line. */
  function ReadArticle(a: Article): (r: Result<string>)
    ensures r.Ok? <==> WellFormedArticle(a)
    ensures r.Ok? ==> r.value == Headline(a)
    ensures a.title.None? ==> r == Err(KeyErrorText("title"))
    ensures a.title.Some? && a.source.None? ==> r == Err(KeyErrorText("source"))
    ensures a.title.Some? && a.source.Some? && a.source.value.name.None? ==> r == Err(KeyErrorText("name"))
  {
    if a.title.None? then Err(KeyErrorText("title"))
    else if a.source.None? then Err(KeyErrorText("source"))
    else if a.source.value.name.None? then Err(KeyErrorText("name"))
    else Ok(Headline(a))
  }

  /** The list comprehension over the articles, in order: one line per
      article, or the error of the first incomplete one. */
  function Headlines(articles: seq<Article>): (r: Result<seq<string>>)
    ensures r.Ok? <==> forall i :: 0 <= i < |articles| ==> WellFormedArticle(articles[i])
    ensures r.Ok? ==> |r.value| == |articles|
                      && forall i :: 0 <= i < |articles| ==> r.value[i] == Headline(articles[i])
    ensures r.Err? ==> exists i :: && 0 <= i < |articles| && !WellFormedArticle(articles[i])
                                   && ReadArticle(articles[i]) == Err(r.msg)
                                   && forall j :: 0 <= j < i ==> WellFormedArticle(articles[j])
    decreases |articles|
  {
    if |articles| == 0 then Ok([])
    else
      match ReadArticle(articles[0])
      case Err(m) => Err(m)
      case Ok(line) =>
        match Headlines(articles[1..])
        case Err(m) =>
          ghost var i :| && 0 <= i < |articles[1..]| && !WellFormedArticle(articles[1..][i])
                         && ReadArticle(articles[1..][i]) == Err(m)
                         && forall j :: 0 <= j < i ==> WellFormedArticle(articles[1..][j]);
          assert articles[i + 1] == articles[1..][i];
          assert forall j :: 1 <= j < i + 1 ==> articles[j] == articles[1..][j - 1];
          Err(m)
        case Ok(lines) =>
          assert forall i :: 1 <= i < |articles| ==> articles[i] == articles[1..][i - 1];
          Ok([line] + lines)
  }

  /** The news call succeeded: status 200 and every listed article complete. */
  predicate NewsSucceeded(o: HttpOutcome<NewsData>) {
    && o.Reply? && o.status == 200
    && (o.data.articles.Some? ==>
          forall i :: 0 <= i < |o.data.articles.value| ==> WellFormedArticle(o.data.articles.value[i]))
  }

  /** `NewsTool._run(topic)` over the outcome of its request; the topic only
      shapes the request, so the text depends on the outcome alone. */
  function NewsReport(topic: string, o: HttpOutcome<NewsData>): (r: string)
    ensures o.Reply? && o.status == 200 && (o.data.articles.None? || o.data.articles.value == []) ==>
              r == "No news found."
    ensures NewsSucceeded(o) && o.data.articles.Some? && o.data.articles.value != [] ==>
              r == Join(Headlines(o.data.articles.value).value, '\n')
    ensures o.Reply? && o.status == 200 && !NewsSucceeded(o) ==>
              r == "Error fetching news: " + Headlines(o.data.articles.value).msg
    ensures o.Reply? && o.status != 200 ==>
              r == "Error: " + (if o.data.errors.Some? then o.data.errors.value else UnknownError)
    ensures o.Fault? ==> r == "Error fetching news: " + o.msg
  {
    match o
    case Fault(msg) => "Error fetching news: " + msg
    case Reply(status, data) =>
      if status == 200 then
        var articles := if data.articles.Some? then data.articles.value else [];
        if articles == [] then "No news found."
        else
          match Headlines(articles)
          case Ok(lines) => Join(lines, '\n')
          case Err(msg) => "Error fetching news: " + msg
      else
        "Error: " + (if data.errors.Some? then data.errors.value else UnknownError)
  }

  /** A successful call with articles yields one headline per article, in
      order, separated by newlines: splitting the text at newlines gives the
      headlines back when no title or source name contains a newline. */
  lemma NewsHeadlinesRoundTrip(topic: string, o: HttpOutcome<NewsData>)
    requires NewsSucceeded(o) && o.data.articles.Some? && |o.data.articles.value| > 0
    requires forall i :: 0 <= i < |o.data.articles.value| ==> '\n' !in Headline(o.data.articles.value[i])
    ensures var articles := o.data.articles.value;
            var lines := Split(NewsReport(topic, o), '\n');
            && |lines| == |articles|
            && forall i :: 0 <= i < |articles| ==> lines[i] == Headline(articles[i])
  {
    var articles := o.data.articles.value;
    var lines := Headlines(articles).value;
    assert NewsReport(topic, o) == Join(lines, '\n');
    forall i | 0 <= i < |lines| ensures '\n' !in lines[i] {
      assert lines[i] == Headline(articles[i]);
    }
    SplitJoin(lines, '\n');
  }

  /** A news text starts with "Error" exactly when the call failed. */
  lemma NewsErrorMarker(topic: string, o: HttpOutcome<NewsData>)
    ensures StartsWith(NewsReport(topic, o), "Error") <==> !NewsSucceeded(o)
  {
    var r := NewsReport(topic, o);
    if NewsSucceeded(o) {
      var articles := if o.data.articles.Some? then o.data.articles.value else [];
      if articles == [] {
        assert r[0] == 'N';
      } else {
        var lines := Headlines(articles).value;
        assert r == Join(lines, '\n');
        assert lines[0] == Headline(articles[0]);
        assert lines[0][0] == '-';
        if |lines| > 1 {
          assert r[..|lines[0]| + 1] == lines[0] + ['\n'];
          assert r[0] == r[..|lines[0]| + 1][0];
        }
        assert r[0] == '-';
      }
    } else {
      assert r[..5] == "Error";
    }
  }
}
