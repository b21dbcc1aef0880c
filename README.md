# weather-it, modelled in Dafny

This project models weather-it, a terminal weather dashboard. The user types a place into a search box and presses Enter. A background task then geocodes the place and fetches an Open-Meteo forecast. The screen shows one cell per forecast day, with an hourly table for the selected day. Tab and BackTab move the day selection.

The model covers the sequential, deterministic part of the program:

- **Day selector** (`DailyWeatherWidget`). A class with the daily series and the selected date string. It has cyclic next and previous moves, the replacement of the data, the highlight test and the ordinal day label.
- **Forecast projection and lookup** (`Forecast`). It takes the 24 hourly records starting at the first hour of a day. It looks up a daily or an hourly entry. It also holds the weather-code table, which is WMO code table 4677 (WMO Manual on Codes, WMO-No. 306) in Open-Meteo's reduced form. The parallel vectors of the Open-Meteo response are sequences. The chrono parses of ISO 8601 dates ("%Y-%m-%d") and date-times ("%Y-%m-%dT%H:%M") are abstract partial functions, passed in a `Parsers` value. Temperatures are opaque 32-bit payloads that are copied unchanged.
- **Hourly table text** (`WeatherTableWidget`). The 12-hour caption `parse_hour` makes, the precipitation gauge text, and the `precip as u8` cast that feeds it.
- **Query sanitiser** (`Location`). Filter the characters, trim, and map spaces to '+'.
- **Search box** (`SearchWidget`). The clear keys, Enter, and the 100-byte gate. The text area's own editing is an abstract `Editor` function.
- **Busy indicator** (`LoaderWidget`). A tick counter whose throbber advances on every sixth tick.
- **Application** (`Application`). Key dispatch, the refresh that aborts the old background task and starts a new one, the delivery of a fetched forecast, and one iteration of the main loop. The `App` class changes its fields in place. A pure `AppState` machine specifies those changes, and `App.Snapshot` ties the two together. A background task is a token that records the query it was started with and whether it was aborted.

Supporting modules are `Wrappers` (Option), `Seqs` (`Iterator::position`), `Text` (integer widths, UTF-8 byte length, decimal formatting, `parse::<u8>`) and `Keys` (crossterm key events).

Four behaviours of the code are easy to misread; the model follows the code:

- `DailyWeather::data` does not reset the selection to the new first day. It reads `first()` of the list it is about to replace. So the first load selects `""`, and later loads keep the old selection even when that date is stale.
- A forecast that arrives is applied whichever task sent it. A result from the aborted task can still land after a refresh and clear `loading`.
- In `App::draw`, the `String` from `selected()` is passed where `hourly_weather_for` expects a `NaiveDate`. Drawing is not modelled, so the model does not reconcile the two types. `hourly_weather_for` takes a `Date`.
- For a daily query, `weather_lookup` parses the day string with the date-only format "%Y-%m-%d" into a `NaiveDateTime`. With chrono this parse has no time fields and fails, so daily lookups evidently return `None`. The model keeps that parse abstract as `Parsers.dateTimeOfDay`, so the result is whatever that parse gives.

## Model

| member | source | states |
|---|---|---|
| Seqs.FirstIndex | src/widgets/daily_weather.rs:97-103 | `position`: the result is an in-range index whose element satisfies the predicate, and no earlier element does. The result is `None` exactly when no element satisfies it. |
| Text.AsU8 | src/widgets/weather_table.rs:40 | `precip as u8` keeps a value below 256 and otherwise reduces it modulo 256. |
| Text.Utf8LenAtLeastLength | src/widgets/search.rs:42 | `text().len()` counts bytes. A string has at least as many bytes as characters, with equality exactly for ASCII text. |
| Text.Utf8LenAppend | src/widgets/search.rs:42 | Byte length adds up over concatenation. |
| Text.DecimalString | src/widgets/weather_table.rs:79 | `{}` of an unsigned number is a non-empty string of digits without a leading zero. |
| Text.DigitsValueOfDecimal | src/widgets/weather_table.rs:79 | Reading back the decimal text of n gives n. |
| Text.ParseU8OfDecimal | src/widgets/weather_table.rs:69 | `parse::<u8>` of the decimal text of any u8 gives that value back. |
| Text.Repeat | src/widgets/weather_table.rs:88-89 | `repeat(n)` is n copies of the character. |
| Text.ZeroPad2 | src/widgets/weather_table.rs:35 | `%H` and `%M` give exactly two digits whose value is the number. |
| Forecast.StartIndex | src/data/weather.rs:159-169 | The start is the first hourly index whose parsed date (the default date when the parse fails) is the requested date, or 0 when there is none. |
| Forecast.HourlyWeatherFor | src/data/weather.rs:157-185 | Given vectors at least start+24 long, the result has exactly 24 entries. Entry k copies the code, both temperatures, the precipitation and the parsed time (the default when unparseable) from index start+k. |
| Forecast.ProjectionStartsOnDate | src/data/weather.rs:159-169 | When some timestamp is on the date, the first projected hour is on the date, and the start is no later than any hour on that date. |
| Forecast.WeatherLookup | src/data/weather.rs:187-227 | No matching entry gives `None`. A `Some` answer to an hourly query carries the queried time. |
| Forecast.DailyLookupFields | src/data/weather.rs:189-204 | A daily lookup is `None` exactly when no day matches or that day's string fails the date-time parse. Otherwise it is the first matching day's maxima. |
| Forecast.HourlyLookupFields | src/data/weather.rs:205-225 | An hourly lookup is `None` exactly when no hour matches or that hour's timestamp fails to parse. Otherwise it is the record of the first matching hour. |
| Forecast.LookupAgreesWithProjection | src/data/weather.rs:157-227 | When all timestamps parse to distinct instants, looking up any projected hour by its time returns that projected record. |
| Forecast.GetWeatherDescription | src/data/weather.rs:100-132 | The table is total. It gives ("Unknown", "❓") exactly for the codes outside the 28 listed. |
| Forecast.DescriptionDeterminesCode | src/data/weather.rs:101-129 | The 28 listed codes have pairwise distinct descriptions: reading a description back gives its code. |
| Text.ParseU8 | src/widgets/weather_table.rs:69 | `parse::<u8>` strips one optional leading '+'; it succeeds exactly when what remains is a non-empty digit string whose value is below 256, and then returns that value. A lone '+' is rejected. |
| WeatherTableWidget.AfterFirstT | src/widgets/weather_table.rs:67 | `split_once('T')` is `None` exactly when there is no 'T'. Otherwise it is the text after the first 'T'. |
| WeatherTableWidget.FirstTwoBytes | src/widgets/weather_table.rs:68 | `[0..2]` is a prefix of exactly two UTF-8 bytes. A failing slice is a precondition, because the source panics there. |
| WeatherTableWidget.ParseHour | src/widgets/weather_table.rs:66-82 | No 'T' gives `None`. The caption exists exactly when the two bytes after the first 'T' parse as a u8. It is then the caption "<h> <AM\|PM>" of that parsed hour. |
| WeatherTableWidget.ParseHourRejectsNonNumbers | src/widgets/weather_table.rs:69 | Two ASCII characters after the 'T' that are not an unsigned number, such as "ab" or "1:", give `None`. |
| WeatherTableWidget.HourLabelRoundTrip | src/widgets/weather_table.rs:71-79 | For hours 0 to 23 the 12-hour value is between 1 and 12. The suffix is "AM" exactly before 12. The caption determines the hour. |
| WeatherTableWidget.MidnightAndNoon | src/widgets/weather_table.rs:71-79 | Hour 0 reads "12 AM" and hour 12 reads "12 PM". |
| WeatherTableWidget.ParseHourOfFormattedTime | src/widgets/weather_table.rs:35 | For a "%Y-%m-%dT%H:%M" string, `parse_hour` returns the caption of that string's hour. |
| WeatherTableWidget.FilledCells | src/widgets/weather_table.rs:86 | `pct * 10 / 100` equals pct / 10. |
| WeatherTableWidget.FilledCellsMonotone | src/widgets/weather_table.rs:86 | Filled cells never decrease as pct grows. 0 gives an empty bar and 100 a full one. |
| WeatherTableWidget.PrecipBarText | src/widgets/weather_table.rs:84-100 | The result is `None` (the panic of `10 - filled`) exactly when pct ≥ 110. Otherwise the text is "[", cells 1 to 10 filled up to pct/10 and then blank, "]", then " {pct}%". |
| WeatherTableWidget.PrecipCell | src/widgets/weather_table.rs:40 | The cell is the gauge text of the precipitation reduced mod 256. It panics exactly when that reduced value is ≥ 110. |
| WeatherTableWidget.PrecipCellWraps | src/widgets/weather_table.rs:40 | 306 shows as 50. 110 and 255 panic. 365 draws. |
| Location.KeepAllowed | src/data/location.rs:20-21 | The filter never lengthens the text, and every character kept is a letter, digit, space or comma. |
| Location.KeepAllowedCounts | src/data/location.rs:20-21 | Each allowed character is kept as often as it occurs in the input, and every other character is removed. |
| Location.KeepAllowedDrops | src/data/location.rs:20-21 | A single character outside `[a-zA-Z0-9 ,]` is removed. |
| Location.KeepAllowedKeeps | src/data/location.rs:20-21 | Text of allowed characters passes the filter unchanged. |
| Location.TrimSpaces | src/data/location.rs:24 | The trimmed text is the slice after the leading spaces and before the trailing spaces. It starts and ends with a non-space. |
| Location.SpacesToPlus | src/data/location.rs:24 | Each space becomes '+' and every other character stays. |
| Location.SanitizeInput | src/data/location.rs:18-25 | The output is no longer than the input. It uses only letters, digits, ',' and '+', and it neither starts nor ends with '+'. |
| Location.SanitizePlusIsSpace | src/data/location.rs:24 | Each '+' of the output stands for exactly one interior space of the trimmed text. |
| Location.SanitizeTwice | src/data/location.rs:18-25 | The sanitiser is not idempotent: a second pass deletes every '+' that the first pass wrote. |
| Location.SanitizeExample | src/data/location.rs:18-25 | "a b" gives "a+b", and sanitising that gives "ab". |
| DailyWeatherWidget.Position | src/widgets/daily_weather.rs:97-103 | `position` of the selected date is `None` exactly when the date is not listed. Otherwise it is its first index. |
| DailyWeatherWidget.IndicesInBounds | src/widgets/daily_weather.rs:96-127 | On a non-empty list both moves stay in range. On an empty list, next reads index 1 and previous computes -1 (the panics). |
| DailyWeatherWidget.NextDate | src/widgets/daily_weather.rs:96-111 | `select_next` on a non-empty list selects a listed date. |
| DailyWeatherWidget.PrevDate | src/widgets/daily_weather.rs:113-127 | `select_previous` on a non-empty list selects a listed date. |
| DailyWeatherWidget.NextFromListed | src/widgets/daily_weather.rs:96-127 | For distinct dates, next moves from index i to i+1, wrapping from the last index to 0. Previous moves to i-1, wrapping from 0 to the last. |
| DailyWeatherWidget.MoveFromUnlisted | src/widgets/daily_weather.rs:97-124 | An unlisted selection ("" or stale) moves next to index 1, or 0 on a one-day list, and previous to the last day. |
| DailyWeatherWidget.PrevUndoesNext | src/widgets/daily_weather.rs:96-127 | For distinct dates and a listed selection, previous after next, and next after previous, restore the selection. |
| DailyWeatherWidget.NextCycle | src/widgets/daily_weather.rs:96-111 | For distinct dates, len presses of next return to the starting date. |
| DailyWeatherWidget.HighlightExactlyOne | src/widgets/daily_weather.rs:46-52 | For distinct dates, a listed non-empty selection highlights only its own cell. `""` highlights only the first cell, provided no later date is empty. A stale selection highlights nothing. |
| DailyWeatherWidget.NextMovesHighlight | src/widgets/daily_weather.rs:46-52 | For distinct, non-empty date strings, after next from cell i exactly the cyclically next cell is highlighted. |
| DailyWeatherWidget.Highlighted | src/widgets/daily_weather.rs:46-47 | A non-empty selection lights exactly the cells holding that date. The empty selection lights the cells equal to the first date, and any empty date. |
| DailyWeatherWidget.DaySuffix | src/widgets/daily_weather.rs:139-147 | The suffix is one of st, nd, rd, th. "st" exactly for last digit 1 except 11, "nd" for last digit 2 except 12, "rd" for last digit 3 except 13. |
| DailyWeatherWidget.DaySuffixOfMonth | src/widgets/daily_weather.rs:139-147 | Days 1, 21 and 31 take "st". Days 2 and 22 take "nd". Days 3 and 23 take "rd". Every other day of the month takes "th". |
| DailyWeatherWidget.FormatDateWithSuffix | src/widgets/daily_weather.rs:134-150 | The label is `None` exactly when the date does not parse. Otherwise it ends with the day number and its suffix. |
| DailyWeatherWidget.DailyWeather.Selected | src/widgets/daily_weather.rs:129-131 | `selected` returns the stored selection, which may be "" or a stale date. |
| DailyWeatherWidget.DailyWeather.constructor | src/widgets/daily_weather.rs:10-14 | The default has empty data and selection `""`. |
| DailyWeatherWidget.DailyWeather.Data | src/widgets/daily_weather.rs:85-94 | The data becomes the argument. The selection becomes `""` if the old list was empty, and is kept otherwise. |
| DailyWeatherWidget.DailyWeather.SelectNext | src/widgets/daily_weather.rs:96-111 | On a non-empty list the new selection is `NextDate` of the old one, and the data is unchanged. |
| DailyWeatherWidget.DailyWeather.SelectPrevious | src/widgets/daily_weather.rs:113-127 | On a non-empty list the new selection is `PrevDate` of the old one, and the data is unchanged. |
| LoaderWidget.Next | src/widgets/loader.rs:24-30 | One `calc_next` adds one tick. The throbber advances by one frame exactly when the new tick is a multiple of 6, and otherwise stays. |
| LoaderWidget.FramesAfter | src/widgets/loader.rs:24-30 | After n calls from the default, tick is n and the throbber has advanced n / 6 frames. |
| LoaderWidget.FirstFrameHeld | src/widgets/loader.rs:27-29 | The first five calls never advance the throbber, and the sixth does. |
| LoaderWidget.Loader.constructor | src/widgets/loader.rs:7-11 | The default loader is at tick 0 and frame 0. |
| LoaderWidget.Loader.CalcNext | src/widgets/loader.rs:24-30 | The tick goes up by one. The throbber advances exactly when the new tick is a multiple of 6. |
| SearchWidget.SlashNeverTyped | src/widgets/search.rs:36-38 | With an editor that adds only the typed character, no key sequence puts a '/' into a box that has none. |
| SearchWidget.EnterKeepsText | src/widgets/search.rs:40 | Enter, with any modifiers, leaves the text unchanged. |
| SearchWidget.ClearKeyEmpties | src/widgets/search.rs:36-38 | Ctrl+Space or '/' empties the line, whatever its length. |
| SearchWidget.GateHolds | src/widgets/search.rs:42-46 | Above 100 bytes, every key except a clear key leaves the text unchanged, editing keys included. |
| SearchWidget.GateLetsOneMore | src/widgets/search.rs:42-43 | At exactly 100 bytes the key still reaches the editor, so the text can grow to 101 bytes. |
| SearchWidget.GrowthBounded | src/widgets/search.rs:42-46 | Starting from a line of at most 100+g bytes, if each edit adds at most g bytes, no key sequence takes the text beyond 100+g bytes. |
| SearchWidget.Search.constructor | src/widgets/search.rs:15-23 | The box starts empty. |
| SearchWidget.Search.CurrentText | src/widgets/search.rs:52-54 | `text` is the first line, which the model keeps as the whole query. |
| SearchWidget.Search.HandleKeyEvent | src/widgets/search.rs:34-50 | The new line is `SearchKey` of the old line and the key. Ctrl+Space (Control only) or '/' clears the line. Enter keeps it. Below the gate the editor applies the key. |
| SearchWidget.Search.ClearText | src/widgets/search.rs:56-59 | Deleting as many characters as the line has bytes empties the line. |
| Application.Dispatch | src/app.rs:137-166 | Quit exactly for 'c' with exactly CONTROL. Refresh exactly for Enter with any modifiers, or 'r' with exactly CONTROL. Next day exactly for Tab and previous day exactly for BackTab. Every other key goes to the search box. |
| Application.ForwardedKeys | src/app.rs:136-165 | Keys passed to the search box are never Enter, Tab, BackTab, or exact Ctrl+C or Ctrl+R. |
| Application.ShiftedControlIsForwarded | src/app.rs:138-141 | Ctrl+Shift+C does not quit, because quitting needs exactly CONTROL. The key goes to the search box. |
| Application.ExitOnlyByQuit | src/app.rs:136-142 | After an iteration, `exit` holds exactly when it held before or the key was Ctrl+C. |
| Application.RunStopsAtQuit | src/app.rs:52-73 | The iteration that reads the first Ctrl+C still finishes and is the last. Without Ctrl+C the whole script runs. |
| Application.RefreshReplacesQuery | src/app.rs:143-157 | Enter or Ctrl+R sets `loading` and makes the current search text the only live query. Nothing else changes. |
| Application.EditingKeepsLiveQuery | src/app.rs:169-182 | Editing the search box after a refresh does not change the query that the running task fetches. |
| Application.DeliveryEffects | src/app.rs:75-81 | A delivery installs the forecast and its place name, clears `loading` and resets the loader. The search text, the live task and `exit` stay as they were. |
| Application.CoherentInvariant | src/app.rs:75-81 | The day selector's data is the daily part of the shown forecast, initially and after every iteration. |
| Application.RefreshIterationOrder | src/app.rs:57-69 | The loading test runs after the key, so a refresh ticks the loader in the same iteration. A forecast delivered in that iteration clears `loading` while the new task runs. |
| Application.Task.constructor | src/app.rs:169-182 | A spawned task records the query it fetches and starts unaborted. |
| Application.Task.Abort | src/app.rs:152-154 | After `abort`, the task is marked aborted. |
| Application.App.AtMostOneLive | src/app.rs:143-157 | At most one spawned task is unaborted: the one in `refresh_handle`. |
| Application.App.constructor | src/app.rs:38-50 | `new` gives `exit` and `loading` false, no place name, default weather, daily data and loader, no handle and no task. |
| Application.App.UpdateWeather | src/app.rs:169-182 | `loading` is set and a fresh, running task on the current search text is returned. No other field changes. |
| Application.App.HandleKeyEvent | src/app.rs:136-167 | The new state is `OnKey` of the old. A refresh aborts the old handle and installs one fresh task. The one-live-task invariant is kept. |
| Application.App.UpdateState | src/app.rs:75-81 | The new state is `OnData` of the old. `refresh_handle` and the tasks are untouched, and the loader is a fresh default. |
| Application.App.RunIteration | src/app.rs:57-69 | One loop iteration in source order: key, then a tick if loading is set, then the delivery. The one-live-task invariant is kept. |
| Application.App.Run | src/app.rs:52-73 | The loop runs while `exit` is false. The final state and the iteration count are `RunFrom` of the script. |

## Left out

- Network: geocoding, the Open-Meteo request and `dispatch_weather`. A fetched forecast is an input of an iteration. From `src/weather_service.rs` only the `WeatherData` record is modelled.
- Concurrency and timing: `tokio::spawn`, the channel, `timeout`, `sleep`, the 1200-second repeat and `event::poll`. A task is a token with its query and an aborted flag. Repeated fetches by one task are not modelled.
- Rendering and `App::draw`: the layout, the colours, the clock in the status line, the current-hour row of the table and the `{:>8}` padding of the hour cell. The highlight test is kept.
- Floating point: `get_cardinal_direction` and the 0.8 width scaling. Temperatures are opaque bit patterns.
- chrono: parsing is abstract. Weekday and month names of `format_date_with_suffix` are function parameters.
- `TextArea` editing is abstract, and the search text is modelled as its first line. Keys that would add a line are not modelled.
- Key kinds and key state of crossterm events are not modelled. Every event is a press.
- Terminal setup and teardown in `src/main.rs`.
- LoaderWidget.Loader.CalcNext: `tick` is unbounded, so the `usize` overflow after 2^64 ticks is not modelled. The throbber's frame is a plain count, not the frame index inside the throbber's set.
- WeatherTableWidget.ParseHour: a slice that panics (fewer than two bytes after 'T', or byte 2 inside a character) is a precondition, not an error result.
- Forecast.HourlyWeatherFor: vectors shorter than start+24 panic in the source, and that is a precondition here.
- DailyWeatherWidget.DailyWeather.SelectNext: the panic on an empty list is a precondition. `IndicesInBounds` states the out-of-range index.
- DailyWeatherWidget.DailyWeather.SelectPrevious: the underflow on an empty list is a precondition, as for `SelectNext`.
- Application.App.HandleKeyEvent: Tab or BackTab before a non-empty forecast arrives panics in the day selector, and that is a precondition here.
- Forecast.WeatherLookup: an index past the end of a daily vector (or of an hourly vector after the timestamp parses) panics in the source. That case is the precondition `LookupInBounds`, not an error result.
- Application.App.Run: `run` also ends early with an `Err` when drawing, polling or reading an event fails. Terminal I/O is not modelled, so `Run`, `RunFrom` and `RunStopsAtQuit` cover only runs without such an error.
- Location.TrimSpaces: `str::trim` removes all Unicode whitespace, but after the filter the only whitespace left is ' ', so trimming spaces is exact inside `SanitizeInput`.
