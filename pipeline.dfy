/** The effect that turns the fetched `packages` into the displayed rows:
  * category filter, date-range filter, fuzzy search, then a sort, newest first. */
module Pipeline {
  import opened Wrappers
  import opened Seqs
  import opened JsString
  import opened AppState
  import opened Catalog

  /** The fuzzy matcher (Fuse over `title` and `name`), given the list and the raw query;
    * its matching and ranking are not part of this model. */
  type Matcher = (seq<Item>, string) -> seq<Item>

  /** `data?.packages || []`: no data yet gives no rows. */
  function Packages(data: Option<seq<Item>>): seq<Item> {
    data.GetOr([])
  }

  /** Accepts the items whose `theme` flag equals `want`. */
  function ThemeIs(want: bool): Item -> bool {
    (it: Item) => it.theme == want
  }

  /** Category filter: "all" (in any case) keeps everything, "themes" keeps the themes,
    * and any other string keeps the items that are not themes. */
  function CategoryStage(items: seq<Item>, category: string): (r: seq<Item>)
    ensures IsSubseq(r, items)
  {
    if Lower(category) == "all" then
      SubseqReflexive(items);
      items
    else
      FilterIsSubseq(items, ThemeIs(Lower(category) == "themes"));
      Filter(items, ThemeIs(Lower(category) == "themes"))
  }

  /** The date filter runs only when both bounds are set to a non-zero timestamp. */
  predicate DateFilterOn(range: DateRange) {
    Truthy(range.start) && Truthy(range.end)
  }

  /** An item passes the date filter when it has no truthy `addedAt` or lies within the bounds. */
  predicate WithinDates(it: Item, start: int, end: int) {
    !Dated(it) || (start <= it.addedAt.value && it.addedAt.value <= end)
  }

  function InRange(start: int, end: int): Item -> bool {
    (it: Item) => WithinDates(it, start, end)
  }

  function DateStage(items: seq<Item>, range: DateRange): (r: seq<Item>)
    ensures IsSubseq(r, items)
  {
    if DateFilterOn(range) then
      FilterIsSubseq(items, InRange(range.start.value, range.end.value));
      Filter(items, InRange(range.start.value, range.end.value))
    else
      SubseqReflexive(items);
      items
  }

  /** `ret?.length > 1 && state.q?.trim().length > 1`. */
  predicate SearchOn(items: seq<Item>, q: Option<string>) {
    |items| > 1 && q.Some? && Length(Trim(q.value)) > 1
  }

  /** When the guard holds the list is replaced by the matcher's answer to the untrimmed query. */
  function SearchStage(items: seq<Item>, q: Option<string>, search: Matcher): seq<Item> {
    if SearchOn(items, q) then search(items, q.value) else items
  }

  /** The list after both filters. */
  function Filtered(data: Option<seq<Item>>, state: State): seq<Item> {
    DateStage(CategoryStage(Packages(data), state.category), state.dateRange)
  }

  /** The list after both filters and the search, before the sort. */
  function Staged(data: Option<seq<Item>>, state: State, search: Matcher): seq<Item> {
    SearchStage(Filtered(data, state), state.q, search)
  }

  /** No stage made a new array: `ret` is still the fetched `data.packages` itself when
    * it reaches `ret.sort(...)`, which then reorders the feed in place. */
  predicate SortsFeed(data: Option<seq<Item>>, state: State) {
    data.Some? && Lower(state.category) == "all" && !DateFilterOn(state.dateRange)
    && !SearchOn(data.value, state.q)
  }

  /** When no stage made a new array, the rows before sorting are the feed itself. */
  lemma SortsFeedUnstaged(data: Option<seq<Item>>, state: State, search: Matcher)
    requires SortsFeed(data, state)
    ensures Staged(data, state, search) == data.value
  {
  }

  /** The effect body: the stages in order, then `ret.sort(...)` in place. `results` is
    * what `setResults` receives; `feed` is the fetched list afterwards, which the sort
    * has reordered when `ret` was that very array. */
  method Results(data: Option<seq<Item>>, state: State, search: Matcher)
    returns (results: seq<Item>, feed: Option<seq<Item>>)
    ensures SortOutcome(Staged(data, state, search), results)
    ensures feed == if SortsFeed(data, state) then Some(results) else data
    ensures data.Some? ==> feed.Some? && multiset(feed.value) == multiset(data.value)
  {
    var ret := Packages(data);
    ret := CategoryStage(ret, state.category);
    ret := DateStage(ret, state.dateRange);
    ret := SearchStage(ret, state.q, search);
    var rows := new Item[|ret|](i requires 0 <= i < |ret| => ret[i]);
    assert rows[..] == ret;
    SortByAddedAt(rows);
    results := rows[..];
    feed := if SortsFeed(data, state) then Some(results) else data;
    if SortsFeed(data, state) {
      SortsFeedUnstaged(data, state, search);
    }
  }

  // ---- Category filter

  lemma CategoryAll(items: seq<Item>, category: string)
    requires Lower(category) == "all"
    ensures CategoryStage(items, category) == items
  {
  }

  /** "themes" keeps exactly the themes, each as often as it occurs, in their original order. */
  lemma CategoryThemes(items: seq<Item>, category: string)
    requires Lower(category) == "themes"
    ensures IsSubseq(CategoryStage(items, category), items)
    ensures forall x :: multiset(CategoryStage(items, category))[x] == if x.theme then multiset(items)[x] else 0
  {
    FilterIsSubseq(items, ThemeIs(true));
    FilterCount(items, ThemeIs(true));
  }

  /** Any other category that is not "all", "plugins" or an unrecognised value alike,
    * keeps exactly the items that are not themes, in their original order. */
  lemma CategoryOthers(items: seq<Item>, category: string)
    requires Lower(category) != "all" && Lower(category) != "themes"
    ensures IsSubseq(CategoryStage(items, category), items)
    ensures forall x :: multiset(CategoryStage(items, category))[x] == if x.theme then 0 else multiset(items)[x]
  {
    FilterIsSubseq(items, ThemeIs(false));
    FilterCount(items, ThemeIs(false));
  }


  // ---- Date-range filter

  /** A missing bound, or a bound at timestamp 0, switches the date filter off. */
  lemma DateOff(items: seq<Item>, range: DateRange)
    requires !Truthy(range.start) || !Truthy(range.end)
    ensures DateStage(items, range) == items
  {
  }

  /** With both bounds set, the survivors are exactly the items without a truthy `addedAt`
    * or with `start <= addedAt <= end`, in their original order. */
  lemma DateOn(items: seq<Item>, range: DateRange)
    requires DateFilterOn(range)
    ensures var r := DateStage(items, range);
      && IsSubseq(r, items)
      && (forall i :: 0 <= i < |r| ==> WithinDates(r[i], range.start.value, range.end.value))
      && (forall i :: 0 <= i < |items| && WithinDates(items[i], range.start.value, range.end.value) ==> items[i] in r)
      && (forall x :: multiset(r)[x] == if WithinDates(x, range.start.value, range.end.value) then multiset(items)[x] else 0)
  {
    var keep := InRange(range.start.value, range.end.value);
    FilterIsSubseq(items, keep);
    FilterCount(items, keep);
  }


  /** Both filters together keep order and add nothing. */
  lemma FilteredIsSubseq(data: Option<seq<Item>>, state: State)
    ensures IsSubseq(Filtered(data, state), Packages(data))
  {
    var afterCategory := CategoryStage(Packages(data), state.category);
    SubseqTransitive(Filtered(data, state), afterCategory, Packages(data));
  }

  // ---- Search

  /** The search is skipped when the list has at most one item, when there is no query,
    * or when the query holds at most one code unit that is not whitespace. */
  lemma SearchSkipped(items: seq<Item>, q: Option<string>, search: Matcher)
    requires |items| <= 1 || q.None? || SolidUnits(q.value) <= 1
    ensures SearchStage(items, q, search) == items
  {
    if q.Some? {
      TrimShort(q.value);
    }
  }

  /** Otherwise the list is whatever the matcher returns for the query as typed. */
  lemma SearchRuns(items: seq<Item>, q: Option<string>, search: Matcher)
    requires |items| > 1 && q.Some? && SolidUnits(q.value) > 1
    ensures SearchStage(items, q, search) == search(items, q.value)
  {
    TrimShort(q.value);
  }

  /** When the matcher only ever selects among the items it is given, every displayed
    * row comes from the feed, at most as often as it occurs there. */
  lemma StagedFromFeed(data: Option<seq<Item>>, state: State, search: Matcher)
    requires forall xs, q :: multiset(search(xs, q)) <= multiset(xs)
    ensures multiset(Staged(data, state, search)) <= multiset(Packages(data))
  {
    FilteredIsSubseq(data, state);
    SubseqMultiset(Filtered(data, state), Packages(data));
  }

  // ---- State and pipeline together

  /** In the initial state nothing is filtered or searched: the rows are the whole feed, to be sorted. */
  lemma InitialShowsAll(data: Option<seq<Item>>, search: Matcher)
    ensures Staged(data, Initial, search) == Packages(data)
  {
    assert Lower("all") == "all";
    SearchSkipped(Packages(data), Initial.q, search);
  }

  /** After the reset button, the date filter lets everything through. */
  lemma ResetDatesClears(s: State, items: seq<Item>)
    ensures DateStage(items, Reduce(s, ResetDates).dateRange) == items
  {
    DateOff(items, Reduce(s, ResetDates).dateRange);
  }

  // ---- Worked examples

  const Foo: Item := Item("Foo", "foo", false, Some(100))
  const Bar: Item := Item("Bar", "bar", true, Some(300))
  const Baz: Item := Item("Baz", "baz", false, Some(200))
  const Feed: seq<Item> := [Foo, Bar, Baz]

  lemma WithAddedOfOne(x: Item, k: Option<int>)
    ensures WithAdded([x], k) == if x.addedAt == k then [x] else []
  {
    WithAddedCons([x], k);
    assert [x][1..] == [];
  }

  lemma WithAddedOfThree(x: Item, y: Item, z: Item, k: Option<int>)
    ensures WithAdded([x, y, z], k) == WithAdded([x], k) + WithAdded([y], k) + WithAdded([z], k)
  {
    assert [x, y, z] == [x] + [y] + [z];
    FilterConcat([x] + [y], [z], AddedIs(k));
    FilterConcat([x], [y], AddedIs(k));
  }

  lemma FeedKeyOrder(k: Option<int>)
    ensures WithAdded([Bar, Baz, Foo], k) == WithAdded(Feed, k)
  {
    WithAddedOfThree(Bar, Baz, Foo, k);
    WithAddedOfThree(Foo, Bar, Baz, k);
    WithAddedOfOne(Foo, k);
    WithAddedOfOne(Bar, k);
    WithAddedOfOne(Baz, k);
  }

  lemma FeedNewestFirst()
    ensures SortOutcome(Feed, [Bar, Baz, Foo])
  {
    var expected := [Bar, Baz, Foo];
    assert multiset(expected) == multiset(Feed);
    forall k ensures WithAdded(expected, k) == WithAdded(Feed, k) {
      FeedKeyOrder(k);
    }
    assert SortedDesc(expected);
  }

  /** From the initial state the three items come out newest first, whatever the matcher. */
  lemma ExampleAll(search: Matcher, rows: seq<Item>)
    requires SortOutcome(Staged(Some(Feed), Initial, search), rows)
    ensures rows == [Bar, Baz, Foo]
  {
    InitialShowsAll(Some(Feed), search);
    FeedSortsOneWay(rows);
  }

  lemma FeedSortsOneWay(rows: seq<Item>)
    requires SortOutcome(Feed, rows)
    ensures rows == [Bar, Baz, Foo]
  {
    FeedNewestFirst();
    assert AllDated(Feed);
    DatedConsistent(Feed);
    SortOutcomeDetermined(Feed, rows, [Bar, Baz, Foo]);
  }

  lemma ThemesOfFeed()
    ensures CategoryStage(Feed, "themes") == [Bar]
  {
    assert Lower("themes") == "themes";
    assert Feed[1..] == [Bar, Baz] && Feed[2..] == [Baz] && [Baz][1..] == [];
    assert Filter([Baz], ThemeIs(true)) == [];
    assert Filter([Bar, Baz], ThemeIs(true)) == [Bar];
  }

  /** With the category set to "themes" only the theme remains; a single row is not searched. */
  lemma ExampleThemes(search: Matcher, rows: seq<Item>)
    requires SortOutcome(Staged(Some(Feed), Initial.(category := "themes"), search), rows)
    ensures rows == [Bar]
  {
    var state := Initial.(category := "themes");
    ThemesOfFeed();
    DateOff([Bar], state.dateRange);
    SearchSkipped([Bar], state.q, search);
    assert Staged(Some(Feed), state, search) == [Bar];
    assert |rows| == |multiset(rows)| == 1;
    assert rows[0] in multiset(rows);
    assert rows == [rows[0]];
  }
}
