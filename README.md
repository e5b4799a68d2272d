# Weather dashboard: recent-search history and lookup state machine

A model of the `App` component of a browser weather dashboard
(`src/App.jsx`). The component keeps five pieces of state: the text in the
search box (`city`), the last weather reply shown (`weather`, or none), the
recent-search list (`history`), the loading flag (`loading`) and the theme
flag (`isDark`). A lookup sends one request to the weather provider and
updates that state according to how the request ended.

Two modules:

- `History` (`history.dfy`) is the recent-search updater run after every
  successful lookup: the name the provider resolved goes to the front,
  every other occurrence of it is filtered out, and the list is cut to five
  names. It is a pure function on sequences (`Push`, built from `Without`
  for the `filter` and `Take` for the `slice`), with lemmas: the result is
  bounded and starts with the new name, duplicate-freedom is preserved,
  the kept names keep their relative order, the update is idempotent, a
  name already at the head changes nothing, a name already present is only
  moved, a new name keeps the first four old names (so from a list of at
  most five it evicts only the oldest), and every history a
  session can produce from the initial `[]` is duplicate-free.
- `Dashboard` (`dashboard.dfy`) is the component state as a class `App`
  whose methods are the event handlers: typing (`SetCity`), a lookup split
  into `Begin` (the empty-name guard and `setLoading(true)`) and `Complete`
  (the reply handling and the `finally`), the whole lookup
  (`FetchWeather`), the Search button and Enter key (`Search`), a history
  chip (`Replay`) and the theme button (`ToggleTheme`). The class invariant
  `Valid()` (duplicate-free history of at most five names) holds initially
  and is preserved by every method. The per-outcome rules are stated once,
  in the two-state predicates `Ignored` and `Completed`.

The request itself is abstracted: a lookup is given an `Outcome`, either
`Received(data)` with the parsed reply (its `cod`, `name` and `message`)
or `Thrown` for an exception caught by the handler. `cod` is a number or a
string, and only the number 200 passes the handler's strict comparison.
The alert a lookup raises is returned as an `Option<string>` result.

Three points of the code's behaviour that the model keeps:

- After an exception (network failure or unparsable body) the code does not
  clear the weather shown (src/App.jsx:34-36); `Completed` keeps `weather`
  unchanged in that case.
- A success clears the search box even when the lookup came from a
  history chip, whatever the user had typed (src/App.jsx:23, 89).
- The history records the name the provider resolved (`data.name`), not the
  text that was looked up (src/App.jsx:27).

## Model

| member | source | states |
|---|---|---|
| History.Take | src/App.jsx:28 | `slice(0, n)`: at most `n` entries, a prefix of the input, all of it when it is shorter |
| History.Without | src/App.jsx:27 | the `filter`: the removed name no longer occurs, every other name occurs exactly when it did, never longer, the identity when the name is absent, duplicate-freedom preserved |
| History.WithoutIsSubsequence | src/App.jsx:27 | the filtered list is a subsequence of the original: relative order kept |
| History.WithoutCounts | src/App.jsx:27 | the filter keeps the number of occurrences of every other name and drops all of the removed one |
| History.WithoutRemovesOne | src/App.jsx:27 | in a duplicate-free list that contains the name, the filter removes exactly one entry |
| History.Push | src/App.jsx:26-29 | the new history has between 1 and 5 names, the resolved name first and nowhere else, every other name came from the old history, and it is duplicate-free when the old one was |
| History.PushKeepsOrder | src/App.jsx:27-28 | the names kept from the old history appear in their old relative order |
| History.PushIdempotent | src/App.jsx:27-28 | applying the update twice with the same name equals applying it once |
| History.PushHeadUnchanged | src/App.jsx:27-28 | re-inserting the head of a duplicate-free history of at most 5 names leaves it unchanged |
| History.PushExistingReorders | src/App.jsx:27-28 | a name already in a duplicate-free history of at most 5 names is moved to the front: same length, same set of names |
| History.PushNewPrepends | src/App.jsx:27-28 | a name not in the history is prepended to the first four old names, so for a history of at most 5 names only the oldest is evicted, and only from a full list |
| History.ReplayedWellFormed | src/App.jsx:26-29 | every history reachable from the initial empty list by successful lookups is duplicate-free, holds at most 5 names and starts with the last resolved name |
| History.ExampleSession | src/App.jsx:26-29 | lookups resolving to Paris, Tokyo, Paris, Rome, Berlin, Madrid give Madrid, Berlin, Rome, Paris, Tokyo |
| Dashboard.FailureText | src/App.jsx:31-32 | the alert after a non-success reply is never empty and is the provider's message whenever the reply carries one (otherwise "City not found!") |
| Dashboard.App.constructor | src/App.jsx:4-8 | the initial state: empty box, no weather, empty history, not loading, light theme; the invariant holds |
| Dashboard.App.SetCity | src/App.jsx:67 | typing replaces the box text and changes nothing else; the invariant is kept |
| Dashboard.App.Begin | src/App.jsx:12-14 | an empty name starts nothing and leaves `loading` as it was; any other name sets `loading`; no other field changes; the invariant is kept |
| Dashboard.App.Complete | src/App.jsx:15-39 | by outcome: success shows the reply, clears the box, pushes the resolved name and raises no alert; a non-success reply clears the weather, keeps box and history and alerts the provider's message or the fallback; an exception keeps weather, box and history and alerts "Error fetching weather"; always `loading` false, theme unchanged, invariant kept |
| Dashboard.App.FetchWeather | src/App.jsx:12-40 | an empty name changes nothing (loading never set, no alert); otherwise the lookup ends as `Complete` says; the invariant is kept |
| Dashboard.App.Search | src/App.jsx:68-72 | the Search button and Enter look up the typed text, with the rules of `FetchWeather` |
| Dashboard.App.Replay | src/App.jsx:89 | a history chip looks up its name with the rules of `FetchWeather`, so a success clears the box even though the box was not the query |
| Dashboard.App.ToggleTheme | src/App.jsx:49 | the theme flag is negated and nothing else changes; the invariant is kept |
| Dashboard.ToggleThemeTwice | src/App.jsx:49 | two presses of the theme button restore every field |

## Left out

- The HTTP request, the URL built from the API key and the unencoded city
  name, and `res.json()` (src/App.jsx:10, 16-19): foreign I/O, replaced by
  the `Outcome` parameter.
- `alert` and `console.error` (src/App.jsx:32, 35-36): the alert text is
  returned as a result; the logged error object is not modelled.
- The reply's display fields (country, temperature, conditions, icon,
  humidity, wind; src/App.jsx:104-116) and all rendering and styling
  (src/App.jsx:42-121): presentation only; `Reply` keeps `cod`, `name` and
  `message`.
- A reply that is missing `message` is modelled with `message == ""`;
  both are falsy for the `||` fallback.
- Overlapping lookups and React's batching of state updates (src/App.jsx:12,
  26): concurrency; a lookup runs from `Begin` to `Complete` with nothing in
  between, and `FetchWeather` composes the two.
