// The weather dashboard component: the five pieces of state it keeps and
// the transitions that its event handlers make on them. The request to the
// weather provider and the parsing of its reply are not modelled; a lookup
// is given how that step ended as an Outcome.

module Dashboard {
  import opened History

  datatype Option<T> = None | Some(value: T)

  /** The `cod` field of the provider's JSON reply. The provider sends the
      number 200 on success and, for errors, a number or a string such as
      "404"; only the number 200 passes the strict comparison. */
  datatype Code = Number(n: int) | Text(s: string)

  /** The parsed reply, reduced to the fields a lookup reads. A `message`
      the reply does not carry is the empty string: both are falsy. The
      display fields (country, temperature, humidity, wind, icon) are not
      modelled. */
  datatype Reply = Reply(cod: Code, name: string, message: string)

  /** How the request and `res.json()` ended: a parsed reply, or an
      exception caught by the handler. */
  datatype Outcome = Received(data: Reply) | Thrown

  predicate Succeeded(data: Reply) {
    data.cod == Number(200)
  }

  const NotFoundText := "City not found!"
  const FetchErrorText := "Error fetching weather"

  /** The text of the alert shown after a reply that is not a success. */
  function FailureText(data: Reply): (t: string)
    ensures t != ""
    ensures data.message != "" ==> t == data.message
    ensures data.message == "" ==> t == NotFoundText
  {
    if data.message != "" then data.message else NotFoundText
  }

  class App {
    var city: string
    var weather: Option<Reply>
    var history: seq<string>
    var loading: bool
    var isDark: bool

    /** What holds in every state the component can reach. */
    ghost predicate Valid()
      reads this
    {
      NoDuplicates(history) && |history| <= Capacity
    }

    /** The initial state given to each `useState`. */
    constructor ()
      ensures Valid()
      ensures city == "" && weather == None && history == []
      ensures !loading && !isDark
    {
      city := "";
      weather := None;
      history := [];
      loading := false;
      isDark := false;
    }

    /** A lookup of an empty name: nothing changes, the loading indicator
        is never shown and no alert is raised. */
    twostate predicate Ignored(new alert: Option<string>)
      reads this
    {
      city == old(city) && weather == old(weather) && history == old(history) &&
      loading == old(loading) && isDark == old(isDark) && alert == None
    }

    /** A lookup that ran to its end, by how the request ended. Whatever
        the outcome, the loading indicator is off afterwards and the theme
        is untouched. A success shows the reply, clears the search box and
        records the name the provider resolved; a reply that is not a
        success clears the shown weather and keeps the box and the
        history; an exception changes none of the three. */
    twostate predicate Completed(new outcome: Outcome, new alert: Option<string>)
      reads this
    {
      !loading && isDark == old(isDark) &&
      match outcome
      case Received(data) =>
        if Succeeded(data) then
          weather == Some(data) && city == "" &&
          history == Push(old(history), data.name) && alert == None
        else
          weather == None && city == old(city) && history == old(history) &&
          alert == Some(FailureText(data))
      case Thrown =>
        weather == old(weather) && city == old(city) && history == old(history) &&
        alert == Some(FetchErrorText)
    }

    /** Typing into the search box. */
    method SetCity(text: string)
      requires Valid()
      modifies this
      ensures Valid()
      ensures city == text
      ensures weather == old(weather) && history == old(history)
      ensures loading == old(loading) && isDark == old(isDark)
    {
      city := text;
    }

    /** The start of a lookup: an empty name is ignored, anything else
        shows the loading indicator. */
    method Begin(cityName: string) returns (started: bool)
      requires Valid()
      modifies this
      ensures Valid()
      ensures started <==> cityName != ""
      ensures loading == (started || old(loading))
      ensures city == old(city) && weather == old(weather)
      ensures history == old(history) && isDark == old(isDark)
    {
      if cityName == "" {
        return false;
      }
      loading := true;
      started := true;
    }

    /** The end of a lookup, given how the request ended. Returns the text
        of the alert it raises, if any. */
    method Complete(outcome: Outcome) returns (alert: Option<string>)
      requires Valid()
      modifies this
      ensures Valid()
      ensures Completed(outcome, alert)
    {
      match outcome {
        case Received(data) =>
          if Succeeded(data) {
            weather := Some(data);
            city := "";
            history := Push(history, data.name);
            alert := None;
          } else {
            weather := None;
            alert := Some(FailureText(data));
          }
        case Thrown =>
          alert := Some(FetchErrorText);
      }
      loading := false;
    }

    /** A whole lookup of `cityName`, run to its end before anything else
        happens. */
    method FetchWeather(cityName: string, outcome: Outcome) returns (alert: Option<string>)
      requires Valid()
      modifies this
      ensures Valid()
      ensures cityName == "" ==> Ignored(alert)
      ensures cityName != "" ==> Completed(outcome, alert)
    {
      var started := Begin(cityName);
      if !started {
        return None;
      }
      alert := Complete(outcome);
    }

    /** The Search button, or Enter in the search box: a lookup of what was
        typed. */
    method Search(outcome: Outcome) returns (alert: Option<string>)
      requires Valid()
      modifies this
      ensures Valid()
      ensures old(city) == "" ==> Ignored(alert)
      ensures old(city) != "" ==> Completed(outcome, alert)
    {
      alert := FetchWeather(city, outcome);
    }

    /** A click on the recent-search chip `item`: a lookup of that name
        that leaves the search box alone until it succeeds, and then
        clears it all the same. */
    method Replay(item: string, outcome: Outcome) returns (alert: Option<string>)
      requires Valid()
      requires item in history
      modifies this
      ensures Valid()
      ensures item == "" ==> Ignored(alert)
      ensures item != "" ==> Completed(outcome, alert)
    {
      alert := FetchWeather(item, outcome);
    }

    /** The light/dark mode button. */
    method ToggleTheme()
      requires Valid()
      modifies this
      ensures Valid()
      ensures isDark == !old(isDark)
      ensures city == old(city) && weather == old(weather)
      ensures history == old(history) && loading == old(loading)
    {
      isDark := !isDark;
    }
  }

  /** Two presses of the theme button bring the component back to the
      state it was in. */
  method ToggleThemeTwice(app: App)
    requires app.Valid()
    modifies app
    ensures app.isDark == old(app.isDark)
    ensures app.city == old(app.city) && app.weather == old(app.weather)
    ensures app.history == old(app.history) && app.loading == old(app.loading)
  {
    app.ToggleTheme();
    app.ToggleTheme();
  }

  /** A session from the initial state: a successful search, a lookup the
      provider rejects, a dropped connection and a replayed chip. */
  method ExampleLookups()
  {
    var app := new App();
    var paris := Reply(Number(200), "Paris", "");
    var tokyo := Reply(Number(200), "Tokyo", "");
    var missing := Reply(Text("404"), "", "city not found");

    app.SetCity("paris");
    var alert := app.Search(Received(paris));
    assert app.city == "" && app.history == ["Paris"] && !app.loading;

    app.SetCity("tokio");
    alert := app.Search(Received(tokyo));
    assert app.history == ["Tokyo", "Paris"] by {
      PushNewPrepends(["Paris"], "Tokyo");
    }

    app.SetCity("Nowhereville");
    alert := app.Search(Received(missing));
    assert alert == Some("city not found") && app.weather == None;
    assert app.city == "Nowhereville" && app.history == ["Tokyo", "Paris"];

    alert := app.Search(Thrown);
    assert alert == Some(FetchErrorText) && app.weather == None;

    alert := app.Replay("Paris", Received(paris));
    assert app.city == "" && app.weather == Some(paris);
    assert app.history == ["Paris", "Tokyo"] by {
      assert Without(["Tokyo", "Paris"], "Paris") == ["Tokyo"] + Without(["Paris"], "Paris");
    }
  }
}
