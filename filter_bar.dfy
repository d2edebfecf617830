/**
 * The filter bar (components/filter-bar.tsx): the filter state shared with the
 * recipe page and the edits the bar asks the page to make to it. Every edit is
 * modelled as the new state passed to `onFiltersChange`; `None` stands for an
 * edit that makes no call.
 */
module FilterBar {
  import opened Wrappers
  import opened Seqs

  /** `maxTime` is a number or `null`; `None` is `null`. */
  datatype FilterState = FilterState(search: string, categories: seq<string>, difficulties: seq<string>,
                                     maxTime: Option<int>, tags: seq<string>)

  /** The state every filter starts from and `clearAllFilters` returns to. */
  const NoFilters := FilterState("", [], [], None, [])

  /** `filters.maxTime` as a condition: `null` and 0 are falsy. */
  predicate TimeLimitActive(maxTime: Option<int>) {
    maxTime.Some? && maxTime.value != 0
  }

  // ---------------------------------------------------------------------------
  // `removeFilter(type, value)`.

  /** The keys of `FilterState`, the first argument of `removeFilter`. */
  datatype FilterKey = Search | Categories | Difficulties | MaxTime | Tags

  /** The second argument, `string | number`. */
  datatype FilterValue = Str(s: string) | Num(n: int)

  /** The entries of `list` that are not strictly equal to `value`; a number is never
      strictly equal to a string. */
  function WithoutValue(list: seq<string>, value: FilterValue): (r: seq<string>)
    ensures forall x :: x in r <==> x in list && value != Str(x)
    ensures Subseq(r, list)
    ensures value.Num? ==> r == list
    ensures forall x :: value != Str(x) ==> multiset(r)[x] == multiset(list)[x]
  {
    var keep := (x: string) => value != Str(x);
    FilterSubseq(list, keep);
    FilterMultiset(list, keep);
    FilterAll(list, keep);
    Filter(list, keep)
  }

  /** `removeFilter`: categories, difficulties and tags lose every entry equal to the value,
      `maxTime` becomes `null`, and every other field is kept; removing "search" makes no
      call. */
  function RemoveFilter(filters: FilterState, key: FilterKey, value: FilterValue): (r: Option<FilterState>)
    ensures r.None? <==> key == Search
    ensures key == Categories ==> r == Some(filters.(categories := WithoutValue(filters.categories, value)))
    ensures key == Difficulties ==> r == Some(filters.(difficulties := WithoutValue(filters.difficulties, value)))
    ensures key == Tags ==> r == Some(filters.(tags := WithoutValue(filters.tags, value)))
    ensures key == MaxTime ==> r == Some(filters.(maxTime := None))
  {
    match key
    case Categories => Some(filters.(categories := WithoutValue(filters.categories, value)))
    case Difficulties => Some(filters.(difficulties := WithoutValue(filters.difficulties, value)))
    case Tags => Some(filters.(tags := WithoutValue(filters.tags, value)))
    case MaxTime => Some(filters.(maxTime := None))
    case Search => None
  }

  /** Removing a string value leaves no occurrence of it, and removing it again changes
      nothing. */
  lemma RemoveFilterRemovesAll(filters: FilterState, key: FilterKey, v: string)
    requires key in {Categories, Difficulties, Tags}
    ensures var r := RemoveFilter(filters, key, Str(v)).value;
      && (key == Categories ==> v !in r.categories)
      && (key == Difficulties ==> v !in r.difficulties)
      && (key == Tags ==> v !in r.tags)
    ensures var r := RemoveFilter(filters, key, Str(v)).value;
      RemoveFilter(r, key, Str(v)) == Some(r)
  {
    var r := RemoveFilter(filters, key, Str(v)).value;
    var keep := (x: string) => Str(v) != Str(x);
    FilterIdempotent(filters.categories, keep);
    FilterIdempotent(filters.difficulties, keep);
    FilterIdempotent(filters.tags, keep);
  }

  // ---------------------------------------------------------------------------
  // `clearAllFilters` and `hasActiveFilters`.

  /** `hasActiveFilters`: a non-empty search, a non-empty list, or a truthy `maxTime`. */
  predicate HasActiveFilters(filters: FilterState) {
    filters.search != "" || |filters.categories| > 0 || |filters.difficulties| > 0
    || TimeLimitActive(filters.maxTime) || |filters.tags| > 0
  }

  /** `clearAllFilters()`: the new filter state and the new text of the search field. */
  function ClearAllFilters(): (r: (FilterState, string))
    ensures !HasActiveFilters(r.0)
    ensures r.1 == r.0.search == ""
    ensures r.0.maxTime.None?
  {
    (NoFilters, "")
  }

  /** The states without an active filter are the cleared state, up to a `maxTime` of 0. */
  lemma InactiveIsCleared(filters: FilterState)
    ensures !HasActiveFilters(filters) <==>
      filters == ClearAllFilters().0 || filters == ClearAllFilters().0.(maxTime := Some(0))
  {
  }

  // ---------------------------------------------------------------------------
  // The checkbox handlers.

  /** A checkbox over a list: checking appends the value, unchecking removes every
      occurrence of it. */
  function Checked(list: seq<string>, value: string, checked: bool): (r: seq<string>)
    ensures checked ==> r == list + [value]
    ensures !checked ==> (forall x :: x in r <==> x in list && x != value) && Subseq(r, list)
    ensures !checked ==> forall x :: x != value ==> multiset(r)[x] == multiset(list)[x]
  {
    if checked then list + [value]
    else
      var keep := (x: string) => x != value;
      FilterSubseq(list, keep);
      FilterMultiset(list, keep);
      Filter(list, keep)
  }

  /** Checking then unchecking a value that was not selected restores the list. */
  lemma CheckThenUncheck(list: seq<string>, value: string)
    requires value !in list
    ensures Checked(Checked(list, value, true), value, false) == list
  {
    var keep := (x: string) => x != value;
    FilterSnoc(list, value, keep);
    FilterAll(list, keep);
  }

  /** The category checkbox: only `categories` changes. */
  function CheckCategory(filters: FilterState, category: string, checked: bool): (r: FilterState)
    ensures r.(categories := filters.categories) == filters
    ensures category in r.categories <==> checked
    ensures r.categories == Checked(filters.categories, category, checked)
  {
    filters.(categories := Checked(filters.categories, category, checked))
  }

  /** The difficulty checkbox: only `difficulties` changes. */
  function CheckDifficulty(filters: FilterState, difficulty: string, checked: bool): (r: FilterState)
    ensures r.(difficulties := filters.difficulties) == filters
    ensures difficulty in r.difficulties <==> checked
    ensures r.difficulties == Checked(filters.difficulties, difficulty, checked)
  {
    filters.(difficulties := Checked(filters.difficulties, difficulty, checked))
  }

  /** The tag checkbox: only `tags` changes. */
  function CheckTag(filters: FilterState, tag: string, checked: bool): (r: FilterState)
    ensures r.(tags := filters.tags) == filters
    ensures tag in r.tags <==> checked
    ensures r.tags == Checked(filters.tags, tag, checked)
  {
    filters.(tags := Checked(filters.tags, tag, checked))
  }

  /** The times the time menu offers, in minutes. */
  const TimeOptions: seq<int> := [15, 30, 45, 60, 90]

  /** The time checkbox: `maxTime` becomes that time when checked and `null` when
      unchecked, so one time limit at most is active; nothing else changes. */
  function CheckTime(filters: FilterState, time: int, checked: bool): (r: FilterState)
    ensures r.(maxTime := filters.maxTime) == filters
    ensures checked ==> r.maxTime == Some(time)
    ensures !checked ==> r.maxTime.None? && !TimeLimitActive(r.maxTime)
  {
    filters.(maxTime := if checked then Some(time) else None)
  }

  /** Checking a second time replaces the first: the box of the earlier time shows
      unchecked (`filters.maxTime === time` fails). */
  lemma TimeChoiceReplaces(filters: FilterState, t1: int, t2: int)
    requires t1 in TimeOptions && t2 in TimeOptions && t1 != t2
    ensures CheckTime(CheckTime(filters, t1, true), t2, true).maxTime != Some(t1)
    ensures TimeLimitActive(CheckTime(filters, t1, true).maxTime)
  {
  }
}
