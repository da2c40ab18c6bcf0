# Logseq marketplace table — a Dafny model of its result pipeline

The application is a single React component that fetches the Logseq marketplace
feed (`{ packages: Item[] }`) and shows it as a table. Two pieces of it hold logic:

- the state record `appState`, its initial value and the reducer `appReducer`, which
  merges a partial update into the previous state with `Object.assign`;
- the effect that turns the fetched `packages` into the displayed rows. It applies a
  category filter, then a date-range filter, then a fuzzy search (Fuse, over `title`
  and `name`), and finally sorts the rows in place, newest `addedAt` first.

The model is split into six modules:

- `Wrappers`: `Option`.
- `Seqs`: `Array.prototype.filter` as the function `Filter`, the subsequence relation,
  and neighbour swaps.
- `JsString`: JavaScript's `length` in UTF-16 code units, `trim()` with the full
  ECMAScript whitespace and line-terminator set, and `toLowerCase()` on ASCII letters.
- `AppState`: `State`, `Initial`, `Patch` (a `Partial<appState>` with one `Option`
  per field), `Merge` (`Object.assign`), `Action` and `Reduce` (`appReducer`).
- `Catalog`: `Item`, JavaScript truthiness of `addedAt`, the sort comparator as
  `Array.prototype.sort` coerces it, and `SortByAddedAt`, an in-place insertion sort
  on an `array<Item>`.
- `Pipeline`: the four stages as functions over `seq<Item>`, and the method `Results`.
  `Results` runs the stages in the source's order, copies the list into an array,
  sorts it in place and returns the rows.

The fuzzy matcher is a parameter of type `Matcher = (seq<Item>, string) -> seq<Item>`.
Only the guard in front of it is modelled. The sort is specified by `SortOutcome`,
what `ret.sort` guarantees on an engine that follows ECMAScript 2019 or later, where
`Array.prototype.sort` is stable:

- the rows are a permutation of the input;
- when every item has a truthy `addedAt`, the rows are non-increasing in `addedAt`, and
  items with equal `addedAt` keep their relative order.

`ConsistentCases` proves that this is exactly when the comparator is consistent in the
language's sense. A consistent comparator must return a Number other than `NaN` for
every pair, including an item with itself. For an item without a truthy `addedAt` the
comparator returns `undefined`, so with such an item present the order is
implementation-defined. `UndatedOrderIsFree` shows an input with an undated item where
an order that swaps two items dated alike is allowed. `SortOutcomeUnique` proves that,
when every item has a truthy `addedAt`, the promise fixes the output completely. The
worked examples use it to pin down the exact rows.

Details of the code that are easy to misread:

- The date filter is also off when a bound is the timestamp 0: the code tests the two
  `getTime()` values for truthiness, not for `null`.
- Fuse receives the query as typed, not trimmed: only the guard trims it.
- The search guard counts `length` in UTF-16 code units. A lone astral character,
  such as an emoji, therefore passes the `> 1` test.
- The sort has no defined order for items without `addedAt`. For `!b.addedAt` the
  comparator returns `undefined`, which the sort reads as "equal". When only
  `a.addedAt` is missing, `b.addedAt - a.addedAt` is `NaN`, which it also reads as
  "equal". When `a.addedAt` is 0 it is compared as 0.

## Model

| member | source | states |
|---|---|---|
| `Seqs.Filter` | src/App.tsx:63-65 | `ret.filter(...)`: the result is no longer than the input; every kept element is in the input and accepted; every accepted input element is kept |
| `Seqs.FilterIsSubseq` | src/App.tsx:72-76 | a filter's result is a subsequence of its input: order is kept and nothing is added |
| `Seqs.FilterCount` | src/App.tsx:72-76 | a filter keeps every copy of an accepted element and no copy of a rejected one |
| `JsString.TrimStart` | src/App.tsx:80 | the result is a suffix of the input; everything dropped is whitespace; the result does not start with whitespace |
| `JsString.TrimEnd` | src/App.tsx:80 | the result is a prefix of the input; everything dropped is whitespace; the result does not end with whitespace |
| `JsString.TrimShort` | src/App.tsx:80 | `q.trim().length <= 1` exactly when `q` holds at most one non-whitespace code unit |
| `JsString.Length` | src/App.tsx:80 | `length` counts UTF-16 code units: at least one and at most two per character |
| `JsString.Trim` | src/App.tsx:80 | `trim()` returns a string no longer than its input that neither starts nor ends with whitespace; `TrimStart`, `TrimEnd` and `TrimShort` say what it cuts |
| `JsString.Lower` | src/App.tsx:61-62 | the model's ASCII `Lower` keeps the length; `LowerIdempotent` states that lowering twice is lowering once |
| `JsString.LowerIdempotent` | src/App.tsx:61-62 | lower-casing an already lower-cased category changes nothing, so the selector's lower-cased value compares the same in the filter |
| `AppState.Merge` | src/App.tsx:36-38 | `Object.assign({}, prev, patch)`; its contract is stated by `MergeOverrides`, `MergeNoChange`, `MergeIdempotent`, `MergeThen` and `MergeFullPatch` |
| `AppState.Reduce` | src/App.tsx:30-40 | `appReducer`: an `update` action without payload returns a state equal to the previous one, whatever else the action carries; `PayloadWins` and `PlainDispatch` give the other cases |
| `AppState.MergeOverrides` | src/App.tsx:36-38 | `Object.assign({}, prev, patch)` takes each supplied field from the patch and every other field from the previous state |
| `AppState.MergeNoChange` | src/App.tsx:36 | merging a patch that supplies nothing returns the previous state |
| `AppState.MergeIdempotent` | src/App.tsx:36-38 | merging the same patch twice equals merging it once |
| `AppState.MergeThen` | src/App.tsx:36-38 | two successive merges equal one merge of the combined patch, in which the later patch's fields win |
| `AppState.MergeFullPatch` | src/App.tsx:36-38 | a patch that supplies every field gives the same state whatever the previous one was |
| `AppState.PayloadWins` | src/App.tsx:34-38 | with a payload, both branches of the switch merge exactly the payload and ignore the action's other fields |
| `AppState.PlainDispatch` | src/App.tsx:37-38 | an untagged action without payload is merged as the patch itself (the fallback from payload to action) |
| `Catalog.Comparator` | src/App.tsx:92-95 | the comparator as written returns a Number other than `NaN` exactly when `b.addedAt` is truthy and `a.addedAt` is present |
| `Catalog.Compare` | src/App.tsx:92-95 | the comparator as the sort reads it asks to reorder two items only when their `addedAt` differ, and two dated items exactly as their timestamps say (positive when `b` is newer, negative when `a` is); `undefined` and `NaN` read as "equal", and an `addedAt` of 0 in `a` is compared as 0 |
| `Catalog.SortByAddedAt` | src/App.tsx:92-95 | sorts the array in place: the result is a permutation of the old contents and, when every item is dated, newest first and stable; beyond the language's promise, this insertion sort also keeps the order within each `addedAt` value on every input, and leaves rows that all compare equal unchanged |
| `Catalog.ConsistentCases` | src/App.tsx:92-95 | the comparator is consistent on a list, in the sense of ECMAScript's `Array.prototype.sort`, exactly when every item has a truthy `addedAt` |
| `Catalog.UndatedTie` | src/App.tsx:92-95 | when no item has a truthy `addedAt`, every pair compares equal, so `SortByAddedAt` leaves the rows in their input order |
| `Catalog.UndatedOrderIsFree` | src/App.tsx:92-95 | with an undated item and items of different dates present, an order that swaps two items of equal `addedAt` meets the sort's promise |
| `Catalog.SortOutcomeUnique` | src/App.tsx:92-95 | when every item is dated, the sort's promise determines the rows uniquely |
| `Pipeline.Packages` | src/App.tsx:58 | the fetched packages, or an empty list when no data has arrived; `InitialShowsAll` and `FilteredIsSubseq` state what the stages do with it |
| `Pipeline.CategoryStage` | src/App.tsx:61-66 | returns a subsequence of its input; `CategoryAll`, `CategoryThemes` and `CategoryOthers` say which one |
| `Pipeline.DateStage` | src/App.tsx:68-77 | returns a subsequence of its input; `DateOff` and `DateOn` say which one |
| `Pipeline.SearchStage` | src/App.tsx:80-89 | the guarded search; `SearchSkipped` and `SearchRuns` state when it is the identity and when the matcher's answer |
| `Pipeline.Results` | src/App.tsx:57-97 | the rows passed to `setResults` are the sort's outcome on category filter, then date filter, then search, applied to the fetched packages (an empty list before any data arrives); the fetched list comes back reordered as those rows exactly when no stage made a new array, and unchanged otherwise; either way it keeps its items |
| `Pipeline.SortsFeedUnstaged` | src/App.tsx:58-92 | when no stage made a new array, the rows reaching the sort are the fetched list itself, so the feed comes back as a permutation of itself |
| `Pipeline.CategoryAll` | src/App.tsx:61 | category "all", in any letter case, leaves the list unchanged |
| `Pipeline.CategoryThemes` | src/App.tsx:61-65 | category "themes" keeps exactly the items with `theme` set, every copy of them, in their original order |
| `Pipeline.CategoryOthers` | src/App.tsx:61-65 | any other category ("plugins" or an unrecognised string) keeps exactly the items without `theme`, in their original order |
| `Pipeline.DateOff` | src/App.tsx:68-71 | a missing bound, or a bound at timestamp 0, makes the date stage the identity |
| `Pipeline.DateOn` | src/App.tsx:71-77 | with both bounds truthy, every survivor is undated or lies within the bounds, and every input item that meets this survives with all its copies, in order |
| `Pipeline.FilteredIsSubseq` | src/App.tsx:58-77 | both filters together return a subsequence of the fetched packages |
| `Pipeline.SearchSkipped` | src/App.tsx:80 | the search stage is the identity when the list has at most one item, when there is no query, or when the query has at most one non-whitespace code unit |
| `Pipeline.SearchRuns` | src/App.tsx:80-88 | otherwise the list is the matcher's answer to the untrimmed query |
| `Pipeline.StagedFromFeed` | src/App.tsx:58-89 | if the matcher only selects among its input, every row before sorting comes from the feed, at most as often as it occurs there |
| `Pipeline.InitialShowsAll` | src/App.tsx:22-28 | in the initial state `AppState.Initial` (empty query, category "all", no dates) no row is filtered out or searched away |
| `Pipeline.ResetDatesClears` | src/App.tsx:164 | after the reset button's `dispatch({ dateRange: [null, null] })` the date stage lets every item through |
| `Pipeline.ExampleAll` | src/App.tsx:57-97 | Foo(100), Bar(300, theme) and Baz(200) in the initial state come out as Bar, Baz, Foo |
| `Pipeline.ExampleThemes` | src/App.tsx:61-95 | the same feed with category "themes" comes out as Bar alone |

## Left out

- Fetching the feed, the request cache, its stale time and the `cacheKey` refetch
  (src/App.tsx:42-53, 168-176) are network I/O and asynchronous caching. The fetched
  data is a parameter of `Results`. `None` stands for "not loaded" and is treated like
  an empty feed.
- The Fuse matching and ranking (src/App.tsx:81-88) belong to a foreign library. The
  matcher is a function parameter, and `map(it => it.item)` is part of what it returns.
- `Catalog.SortByAddedAt`: once an item lacks a truthy `addedAt`, the comparator is
  inconsistent, and the order follows this insertion sort, while in JavaScript the
  engine decides it. That this sort keeps the order within each `addedAt` value, and
  leaves rows that all compare equal in place, is a fact about the model's sort, not
  about `ret.sort`. Engines older than ECMAScript 2019, which may sort unstably, are not
  modelled.
- `Pipeline.Results`: when an item lacks a truthy `addedAt`, it promises only a
  permutation, which is all the language promises. V8 reads `undefined` and `NaN` as 0
  and sorts stably, so it keeps, for instance, a list in which every pair compares equal
  in its input order. The model does not promise that engine-specific order.
- `Pipeline.Results`: when the category is "all", the date filter is off and the search
  does not run, `ret` is the fetched `data.packages` array itself, and `ret.sort` reorders
  that shared array in place (the request cache holds the same object). The model takes
  the data as a value and returns the reordered feed as its second result; the sharing
  of one array between the cache, the effect and the rendered rows is not modelled.
- `JsString.Lower`: only ASCII letters are lower-cased. This does not change any
  comparison with "all" or "themes": a non-ASCII character stays non-ASCII in the
  model, and a lower-cased non-ASCII character such as U+212A (KELVIN SIGN, which
  becomes `k`) cannot produce either word.
- Parsing and formatting dates (`new Date(str)`, `toDateString`) and the `NaN`
  timestamp of an invalid date are left out: they depend on the locale, the runtime and
  floating point. A date bound is its millisecond timestamp as an `int`.
- Items are modelled with only the fields the pipeline reads (`title`, `name`,
  `theme`, `addedAt`). `theme` is a `bool`, so a missing `theme` reads as `false`.
  `author`, `description` and `repo` are only shown in the table.
- `Reduce`: keys outside `appState` that the action object carries, such as a `type`
  key set to `undefined` or a falsy `payload`, are copied into the state by
  `Object.assign` too. The model drops them. A payload is modelled as a patch of state
  fields.
- A `category` of `undefined` would make `state.category.toLowerCase()` throw. The
  model types the category as a string.
- The `darkMode` class toggle (src/App.tsx:104-111), the JSX rendering, `PluginsTable`
  (src/App.tsx:208-248) and `src/index.tsx` are presentation and bootstrap code.
