/**
 * The application state machine of src/app.rs: key dispatch, the refresh that replaces the
 * running background task, the delivery of a fetched forecast, and one iteration of the main
 * loop. The background task is a token that remembers the query it was started with and
 * whether it has been aborted; what it fetches arrives as an input of an iteration.
 */
module Application {
  import opened Wrappers
  import opened Keys
  import opened Forecast
  import opened SearchWidget
  import opened DailyWeatherWidget
  import LoaderWidget

  /** A fetched forecast and the place name it belongs to. */
  datatype WeatherData = WeatherData(weather: OpenMeteoResponse, locationName: string)

  /** What `handle_key_event` does with a key. */
  datatype Action = Quit | Refresh | NextDay | PreviousDay | Forward

  /**
   * The match of `handle_key_event`, arms in source order: Ctrl+C and Ctrl+R need Control as
   * the only modifier, Enter, Tab and BackTab take any modifiers, and every other key goes to
   * the search box.
   */
  function Dispatch(key: KeyEvent): (a: Action)
    ensures a == Quit <==> key.code == Char('c') && key.modifiers == {Control}
    ensures a == Refresh <==> key.code == Enter || (key.code == Char('r') && key.modifiers == {Control})
    ensures a == NextDay <==> key.code == Tab
    ensures a == PreviousDay <==> key.code == BackTab
  {
    if IsControlChar(key, 'c') then Quit
    else if key.code == Enter || IsControlChar(key, 'r') then Refresh
    else if key.code == Tab then NextDay
    else if key.code == BackTab then PreviousDay
    else Forward
  }

  /** Keys the search box receives never include the application's own bindings, so Enter never reaches it. */
  lemma ForwardedKeys(key: KeyEvent)
    requires Dispatch(key) == Forward
    ensures key.code != Enter && key.code != Tab && key.code != BackTab
    ensures !IsControlChar(key, 'c') && !IsControlChar(key, 'r')
  {
  }

  /** Ctrl+Shift+C is not the quit key: it goes to the search box. */
  lemma ShiftedControlIsForwarded()
    ensures Dispatch(KeyEvent(Char('c'), {Control, Shift})) == Forward
  {
    assert {Control, Shift} != {Control} by {
      assert Shift in {Control, Shift};
    }
  }

  /**
   * The application's state as values: the search line, the day selector's data and
   * selection, the loader's counters, and the query of the live background task, if any.
   */
  datatype AppState = AppState(
    exit: bool,
    loading: bool,
    locationName: Option<string>,
    weather: OpenMeteoResponse,
    query: string,
    daily: OpenMeteoDaily,
    selected: string,
    loader: LoaderWidget.LoaderState,
    liveQuery: Option<string>)

  /** `App::new`. */
  const Start := AppState(false, false, None, DefaultResponse, "", EmptyDaily, "", LoaderWidget.Initial, None)

  /** Tab and BackTab index the date list, which must not be empty. */
  predicate CanHandle(s: AppState, key: KeyEvent)
  {
    Dispatch(key) == NextDay || Dispatch(key) == PreviousDay ==> |s.daily.date| > 0
  }

  /** `handle_key_event` on the state. A refresh starts a task on the current search text. */
  function OnKey(s: AppState, key: KeyEvent, editor: Editor): AppState
    requires CanHandle(s, key)
  {
    match Dispatch(key)
    case Quit => s.(exit := true)
    case Refresh => s.(loading := true, liveQuery := Some(s.query))
    case NextDay => s.(selected := NextDate(s.daily.date, s.selected))
    case PreviousDay => s.(selected := PrevDate(s.daily.date, s.selected))
    case Forward => s.(query := SearchKey(s.query, key, editor))
  }

  /** `update_state` on the state. */
  function OnData(s: AppState, data: WeatherData): AppState
  {
    s.(daily := data.weather.daily,
       selected := if |s.daily.date| == 0 then "" else s.selected,
       weather := data.weather,
       locationName := Some(data.locationName),
       loading := false,
       loader := LoaderWidget.Initial)
  }

  /** The loader ticks while a fetch is pending. */
  function OnTick(s: AppState): AppState
  {
    if s.loading then s.(loader := LoaderWidget.Next(s.loader)) else s
  }

  /** What one iteration of `run` reads: at most one key and at most one delivered forecast. */
  datatype Input = Input(key: Option<KeyEvent>, delivered: Option<WeatherData>)

  /** The key of an iteration can be handled in the state it meets. */
  predicate InputAllowed(s: AppState, input: Input)
  {
    input.key.Some? ==> CanHandle(s, input.key.value)
  }

  /** One iteration of `run`: the key, then a tick if loading is now set, then the delivery. */
  function Iteration(s: AppState, input: Input, editor: Editor): AppState
    requires InputAllowed(s, input)
  {
    var afterKey := if input.key.Some? then OnKey(s, input.key.value, editor) else s;
    var afterTick := OnTick(afterKey);
    if input.delivered.Some? then OnData(afterTick, input.delivered.value) else afterTick
  }

  /** Every iteration a script reaches can handle its key. */
  ghost predicate Safe(s: AppState, script: seq<Input>, editor: Editor)
    decreases |script|
  {
    |script| == 0 || s.exit ||
    (InputAllowed(s, script[0]) && Safe(Iteration(s, script[0], editor), script[1..], editor))
  }

  /** `run` over a script: iterations go on while `exit` is false; the state reached and their count. */
  ghost function RunFrom(s: AppState, script: seq<Input>, editor: Editor): (AppState, nat)
    requires Safe(s, script, editor)
    decreases |script|
  {
    if |script| == 0 || s.exit then (s, 0)
    else
      var (t, n) := RunFrom(Iteration(s, script[0], editor), script[1..], editor);
      (t, n + 1)
  }

  /** The key of an input is the quit key. */
  predicate QuitInput(input: Input)
  {
    input.key.Some? && Dispatch(input.key.value) == Quit
  }

  /** Input j holds the first quit key of the script. */
  predicate FirstQuit(script: seq<Input>, j: int)
  {
    0 <= j < |script| && QuitInput(script[j]) && forall i :: 0 <= i < j ==> !QuitInput(script[i])
  }

  /** Only the quit key sets `exit`; nothing clears it. */
  lemma ExitOnlyByQuit(s: AppState, input: Input, editor: Editor)
    requires InputAllowed(s, input)
    ensures Iteration(s, input, editor).exit <==> s.exit || QuitInput(input)
  {
  }

  /**
   * The iteration that reads Ctrl+C still finishes and is the last one: the run stops after
   * the first quit key, and runs the whole script when there is none.
   */
  lemma {:induction false} RunStopsAtQuit(s: AppState, script: seq<Input>, editor: Editor)
    requires !s.exit && Safe(s, script, editor)
    ensures forall j :: FirstQuit(script, j) ==> RunFrom(s, script, editor).1 == j + 1
    ensures (forall i :: 0 <= i < |script| ==> !QuitInput(script[i])) ==> RunFrom(s, script, editor).1 == |script|
    ensures RunFrom(s, script, editor).1 <= |script|
    decreases |script|
  {
    if |script| > 0 {
      var t := Iteration(s, script[0], editor);
      ExitOnlyByQuit(s, script[0], editor);
      if !t.exit {
        RunStopsAtQuit(t, script[1..], editor);
        forall j | FirstQuit(script, j)
          ensures RunFrom(s, script, editor).1 == j + 1
        {
          assert j > 0;
          assert script[1..][j - 1] == script[j];
          assert FirstQuit(script[1..], j - 1) by {
            forall i | 0 <= i < j - 1
              ensures !QuitInput(script[1..][i])
            {
              assert script[1..][i] == script[i + 1];
            }
          }
        }
        if forall i :: 0 <= i < |script| ==> !QuitInput(script[i]) {
          forall i | 0 <= i < |script| - 1
            ensures !QuitInput(script[1..][i])
          {
            assert script[1..][i] == script[i + 1];
          }
        }
      }
    }
  }

  /**
   * A refresh sets `loading` and makes the current search text the live query, replacing any
   * earlier one; nothing else changes.
   */
  lemma RefreshReplacesQuery(s: AppState, key: KeyEvent, editor: Editor)
    requires Dispatch(key) == Refresh
    ensures OnKey(s, key, editor) == s.(loading := true, liveQuery := Some(s.query))
    ensures OnKey(s, key, editor).liveQuery == Some(s.query)
  {
  }

  /**
   * The query is captured when the task starts: editing the search box afterwards leaves the
   * live query as it was, so every repeat of the task fetches the old text.
   */
  lemma EditingKeepsLiveQuery(s: AppState, key: KeyEvent, editor: Editor)
    requires Dispatch(key) == Forward
    ensures OnKey(s, key, editor).liveQuery == s.liveQuery
    ensures OnKey(s, key, editor).query == SearchKey(s.query, key, editor)
  {
  }

  /**
   * A delivery installs the forecast and its place name, ends loading and resets the loader,
   * without touching the search text or the live task.
   */
  lemma DeliveryEffects(s: AppState, data: WeatherData)
    ensures var t := OnData(s, data);
      t.weather == data.weather && t.daily == data.weather.daily &&
      t.locationName == Some(data.locationName) && !t.loading && t.loader == LoaderWidget.Initial &&
      t.query == s.query && t.liveQuery == s.liveQuery && t.exit == s.exit
    ensures |s.daily.date| == 0 ==> OnData(s, data).selected == ""
    ensures |s.daily.date| > 0 ==> OnData(s, data).selected == s.selected
  {
  }

  /** The day selector always holds the daily part of the forecast shown. */
  predicate Coherent(s: AppState)
  {
    s.daily == s.weather.daily
  }

  /** The application starts coherent and every iteration keeps it so. */
  lemma CoherentInvariant(s: AppState, input: Input, editor: Editor)
    requires Coherent(s) && InputAllowed(s, input)
    ensures Coherent(Start)
    ensures Coherent(Iteration(s, input, editor))
  {
  }

  /**
   * The loading test follows the key: the iteration whose key starts a refresh already ticks
   * the loader, and a forecast delivered in that same iteration, from the earlier task, ends
   * loading again while the new task runs.
   */
  lemma RefreshIterationOrder(s: AppState, key: KeyEvent, data: WeatherData, editor: Editor)
    requires Dispatch(key) == Refresh
    ensures Iteration(s, Input(Some(key), None), editor).loader == LoaderWidget.Next(s.loader)
    ensures Iteration(s, Input(Some(key), None), editor).loading
    ensures var t := Iteration(s, Input(Some(key), Some(data)), editor);
      !t.loading && t.liveQuery == Some(s.query)
  {
  }

  /** The handle of a spawned background task: the query it fetches and whether it was aborted. */
  class Task {
    const query: string
    var aborted: bool

    /** `tokio::spawn` of the fetch loop for `query`. */
    constructor (query: string)
      ensures this.query == query && !aborted
    {
      this.query := query;
      aborted := false;
    }

    /** `JoinHandle::abort`. */
    method Abort()
      modifies this
      ensures aborted
    {
      aborted := true;
    }
  }

  /** `App`. The channel sender is left out; `spawned` records every task the app started. */
  class App {
    const search: Search
    var loader: LoaderWidget.Loader
    const daily: DailyWeather
    var locationName: Option<string>
    var exit: bool
    var weather: OpenMeteoResponse
    var loading: bool
    var refreshHandle: Option<Task>
    ghost var spawned: set<Task>

    /** Of all tasks ever started, exactly the one held in `refresh_handle` is not aborted. */
    ghost predicate Valid()
      reads this, spawned
    {
      (refreshHandle.Some? ==> refreshHandle.value in spawned) &&
      forall t :: t in spawned ==> (t.aborted <==> refreshHandle != Some(t))
    }

    /** The app's fields as a value. */
    ghost function Snapshot(): AppState
      reads this, search, daily, loader
    {
      AppState(exit, loading, locationName, weather, search.line, daily.data, daily.selectedDate,
        loader.State(), if refreshHandle.Some? then Some(refreshHandle.value.query) else None)
    }

    /** The started tasks still running. */
    ghost function LiveTasks(): set<Task>
      reads this, spawned
    {
      set t | t in spawned && !t.aborted
    }

    /** At most one task runs: the one in `refresh_handle`. */
    lemma AtMostOneLive()
      requires Valid()
      ensures LiveTasks() == if refreshHandle.Some? then {refreshHandle.value} else {}
    {
    }

    /** `App::new`. */
    constructor ()
      ensures Valid() && Snapshot() == Start && spawned == {}
    {
      search := new Search();
      daily := new DailyWeather();
      locationName := None;
      exit := false;
      weather := DefaultResponse;
      loading := false;
      loader := new LoaderWidget.Loader();
      refreshHandle := None;
      spawned := {};
    }

    /** The state part of `update_weather`: set `loading` and start a task on the search text. */
    method UpdateWeather() returns (handle: Task)
      modifies this
      ensures fresh(handle) && handle.query == search.line && !handle.aborted
      ensures loading
      ensures exit == old(exit) && locationName == old(locationName) && weather == old(weather)
      ensures loader == old(loader) && refreshHandle == old(refreshHandle) && spawned == old(spawned)
    {
      loading := true;
      var query := search.CurrentText();
      handle := new Task(query);
    }

    /** `handle_key_event`. A refresh aborts the running task, if any, and installs a new one. */
    method HandleKeyEvent(key: KeyEvent, editor: Editor)
      requires Valid() && CanHandle(Snapshot(), key)
      modifies this, search, daily, spawned
      ensures Valid() && Snapshot() == OnKey(old(Snapshot()), key, editor)
      ensures loader == old(loader)
      ensures Dispatch(key) == Refresh ==>
        refreshHandle.Some? && fresh(refreshHandle.value) && spawned == old(spawned) + {refreshHandle.value}
      ensures Dispatch(key) != Refresh ==> spawned == old(spawned) && refreshHandle == old(refreshHandle)
    {
      match Dispatch(key)
      case Quit =>
        exit := true;
      case Refresh =>
        var previous := refreshHandle;
        refreshHandle := None;
        if previous.Some? {
          previous.value.Abort();
        }
        var handle := UpdateWeather();
        refreshHandle := Some(handle);
        spawned := spawned + {handle};
      case NextDay =>
        daily.SelectNext();
      case PreviousDay =>
        daily.SelectPrevious();
      case Forward =>
        search.HandleKeyEvent(key, editor);
    }

    /** `update_state`. */
    method UpdateState(data: WeatherData)
      requires Valid()
      modifies this, daily
      ensures Valid() && Snapshot() == OnData(old(Snapshot()), data)
      ensures fresh(loader) && spawned == old(spawned) && refreshHandle == old(refreshHandle)
    {
      daily.Data(data.weather.daily);
      weather := data.weather;
      locationName := Some(data.locationName);
      loading := false;
      loader := new LoaderWidget.Loader();
    }

    /** One iteration of `run` after drawing: the key, the loader tick, the delivered forecast. */
    method RunIteration(input: Input, editor: Editor)
      requires Valid() && InputAllowed(Snapshot(), input)
      modifies this, search, daily, loader, spawned
      ensures Valid() && Snapshot() == Iteration(old(Snapshot()), input, editor)
      ensures loader == old(loader) || fresh(loader)
      ensures forall t :: t in spawned ==> t in old(spawned) || fresh(t)
    {
      if input.key.Some? {
        HandleKeyEvent(input.key.value, editor);
      }
      if loading {
        loader.CalcNext();
      }
      if input.delivered.Some? {
        UpdateState(input.delivered.value);
      }
    }

    /** `run` over a script of inputs; returns the number of iterations made. */
    method Run(script: seq<Input>, editor: Editor) returns (iterations: nat)
      requires Valid() && Safe(Snapshot(), script, editor)
      modifies this, search, daily, loader, spawned
      ensures Valid() && (Snapshot(), iterations) == RunFrom(old(Snapshot()), script, editor)
    {
      iterations := 0;
      while !exit && iterations < |script|
        invariant iterations <= |script|
        invariant Valid() && Safe(Snapshot(), script[iterations..], editor)
        invariant loader == old(loader) || fresh(loader)
        invariant forall t :: t in spawned ==> t in old(spawned) || fresh(t)
        invariant RunFrom(old(Snapshot()), script, editor) ==
          (RunFrom(Snapshot(), script[iterations..], editor).0, RunFrom(Snapshot(), script[iterations..], editor).1 + iterations)
        decreases |script| - iterations
      {
        assert script[iterations..][1..] == script[iterations + 1..];
        RunIteration(script[iterations], editor);
        iterations := iterations + 1;
      }
    }
  }
}
