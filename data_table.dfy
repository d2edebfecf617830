/**
 * The ingredient table (components/data-table.tsx): a search box, a category
 * filter and a sortable column header over a list of ingredient records.
 */
module DataTable {
  import opened Wrappers
  import opened Seqs
  import opened Text
  import opened StableSort

  /** An ingredient record as the table shows it (`IngredientData`). The pantry page keeps
      records of the same type; `Pantry.PantryItem` models them with only the fields that
      page reads. As there, `pantryAmount` may be missing. */
  datatype IngredientData = IngredientData(id: string, name: string, category: string, calories: real,
                                           protein: real, carbs: real, fat: real,
                                           allergens: seq<string>, inPantry: bool,
                                           unit: string, pantryAmount: Option<real>)

  /** `keyof IngredientData`. The column headers call `handleSort` only with `Name`,
      `Category` and `Calories`; the state's type admits every key. */
  datatype SortField = Id | Name | Category | Calories | Protein | Carbs | Fat | Allergens | InPantry
                     | Unit | PantryAmount

  datatype SortDirection = Asc | Desc

  /** `item[field]`, as far as the comparator cares: a string, a number, or something else
      (an array or a boolean). */
  datatype FieldValue = Str(s: string) | Num(n: real) | Other

  function ValueOf(item: IngredientData, field: SortField): FieldValue {
    match field
    case Id => Str(item.id)
    case Name => Str(item.name)
    case Category => Str(item.category)
    case Calories => Num(item.calories)
    case Protein => Num(item.protein)
    case Carbs => Num(item.carbs)
    case Fat => Num(item.fat)
    case Allergens => Other
    case InPantry => Other
    case Unit => Str(item.unit)
    case PantryAmount => if item.pantryAmount.Some? then Num(item.pantryAmount.value) else Other
  }

  /** The columns whose values all have one kind: every column but `pantryAmount`, which
      mixes numbers with missing values. */
  predicate OneKind(field: SortField) {
    field != PantryAmount
  }

  function CategoryColumn(data: seq<IngredientData>): (cs: seq<string>)
    ensures |cs| == |data| && forall i :: 0 <= i < |data| ==> cs[i] == data[i].category
  {
    seq(|data|, i requires 0 <= i < |data| => data[i].category)
  }

  /** `categories`: each category once, in order of first appearance. */
  function Categories(data: seq<IngredientData>): (cs: seq<string>)
    ensures NoDups(cs)
    ensures forall c :: c in cs <==> exists item :: item in data && item.category == c
  {
    var all := CategoryColumn(data);
    assert forall item :: item in data ==> item.category in all;
    Dedup(all)
  }

  // ---------------------------------------------------------------------------
  // Filtering.

  /** The filter callback: the lower-cased name contains the lower-cased search, and an
      empty category filter accepts every category. */
  predicate Matches(search: string, categoryFilter: string, item: IngredientData) {
    Includes(Lower(item.name), Lower(search)) && (categoryFilter == "" || item.category == categoryFilter)
  }

  function MatchesFn(search: string, categoryFilter: string): IngredientData -> bool {
    (item: IngredientData) => Matches(search, categoryFilter, item)
  }

  // ---------------------------------------------------------------------------
  // Sorting.

  /** The comparator's sign as a test: `leq(a, b)` when `compare(a, b) <= 0`. Strings compare
      with `localeCompare`, numbers by difference, and anything else compares equal. */
  function Leq(field: SortField, dir: SortDirection): (IngredientData, IngredientData) -> bool {
    (a: IngredientData, b: IngredientData) =>
      match (ValueOf(a, field), ValueOf(b, field))
      case (Str(x), Str(y)) => if dir == Asc then Compare(x, y) <= 0 else Compare(y, x) <= 0
      case (Num(x), Num(y)) => if dir == Asc then x - y <= 0.0 else y - x <= 0.0
      case _ => true
  }

  /** In a column whose values all have one kind, the comparator is consistent. */
  lemma LeqTotal(field: SortField, dir: SortDirection)
    requires OneKind(field)
    ensures TotalPreorder(Leq(field, dir))
  {
    var leq := Leq(field, dir);
    forall a, b ensures leq(a, b) || leq(b, a) {
      if ValueOf(a, field).Str? {
        CompareAntisymmetric(ValueOf(a, field).s, ValueOf(b, field).s);
      }
    }
    forall a, b, c | leq(a, b) && leq(b, c) ensures leq(a, c) {
      if ValueOf(a, field).Str? {
        var x, y, z := ValueOf(a, field).s, ValueOf(b, field).s, ValueOf(c, field).s;
        if dir == Asc {
          CompareTransitive(x, y, z);
        } else {
          CompareTransitive(z, y, x);
        }
      }
    }
  }

  /** On `pantryAmount` the comparator is not consistent: a missing amount compares equal to
      both 1 and 5, while 1 comes before 5. */
  lemma PantryAmountNotTotal(dir: SortDirection)
    ensures !TotalPreorder(Leq(PantryAmount, dir))
  {
    var one := IngredientData("1", "a", "c", 0.0, 0.0, 0.0, 0.0, [], true, "st", Some(1.0));
    var none := one.(pantryAmount := None);
    var five := one.(pantryAmount := Some(5.0));
    var leq := Leq(PantryAmount, dir);
    if dir == Asc {
      assert leq(five, none) && leq(none, one) && !leq(five, one);
    } else {
      assert leq(one, none) && leq(none, five) && !leq(one, five);
    }
  }

  /** `filteredAndSortedData`: the matching records, stably sorted by the field in the
      direction. */
  function FilteredAndSorted(data: seq<IngredientData>, search: string, categoryFilter: string,
                             field: SortField, dir: SortDirection): (r: seq<IngredientData>)
    ensures multiset(r) == multiset(Filter(data, MatchesFn(search, categoryFilter)))
    ensures forall x :: x in r <==> x in data && Matches(search, categoryFilter, x)
    ensures |r| <= |data|
  {
    var filtered := Filter(data, MatchesFn(search, categoryFilter));
    var r := Sort(filtered, Leq(field, dir));
    assert forall x :: x in r <==> x in multiset(r);
    assert forall x :: x in filtered <==> x in multiset(filtered);
    r
  }

  /** With an empty search and no category filter, the table shows every record: the result
      is a permutation of the data. */
  lemma NoFilterIsPermutation(data: seq<IngredientData>, field: SortField, dir: SortDirection)
    ensures multiset(FilteredAndSorted(data, "", "", field, dir)) == multiset(data)
  {
    forall item | item in data ensures Matches("", "", item) {
      IncludesTrivial(Lower(item.name));
    }
    FilterAll(data, MatchesFn("", ""));
  }

  /** A numeric column is in non-decreasing order when ascending and non-increasing when
      descending; a text column follows `localeCompare` the same way. */
  lemma SortedByField(data: seq<IngredientData>, search: string, categoryFilter: string,
                      field: SortField, dir: SortDirection)
    requires OneKind(field)
    ensures var r := FilteredAndSorted(data, search, categoryFilter, field, dir);
      forall i, j :: 0 <= i < j < |r| ==>
        match (ValueOf(r[i], field), ValueOf(r[j], field))
        case (Num(x), Num(y)) => if dir == Asc then x <= y else x >= y
        case (Str(x), Str(y)) => if dir == Asc then Compare(x, y) <= 0 else Compare(y, x) <= 0
        case _ => true
  {
    LeqTotal(field, dir);
    SortSorted(Filter(data, MatchesFn(search, categoryFilter)), Leq(field, dir));
  }

  /** Records the column cannot tell apart keep the order they have in the data. */
  lemma TiesKeepDataOrder(data: seq<IngredientData>, search: string, categoryFilter: string,
                          field: SortField, dir: SortDirection, k: IngredientData)
    requires OneKind(field)
    ensures Filter(FilteredAndSorted(data, search, categoryFilter, field, dir), EquivTo(Leq(field, dir), k)) ==
            Filter(Filter(data, MatchesFn(search, categoryFilter)), EquivTo(Leq(field, dir), k))
  {
    LeqTotal(field, dir);
    SortStable(Filter(data, MatchesFn(search, categoryFilter)), Leq(field, dir), k);
  }

  // ---------------------------------------------------------------------------
  // `handleSort`.

  function Flip(dir: SortDirection): SortDirection {
    if dir == Asc then Desc else Asc
  }

  /** The sort state after a click on the header of `clicked`. */
  function NextSort(field: SortField, dir: SortDirection, clicked: SortField): (r: (SortField, SortDirection))
    ensures r.0 == clicked
    ensures clicked == field ==> r.1 != dir
    ensures clicked != field ==> r.1 == Asc
  {
    if field == clicked then (field, Flip(dir)) else (clicked, Asc)
  }

  /** Two clicks on the same header restore the sort state after the first click's field. */
  lemma ClickTwice(field: SortField, dir: SortDirection, clicked: SortField)
    ensures var (f1, d1) := NextSort(field, dir, clicked);
      NextSort(NextSort(f1, d1, clicked).0, NextSort(f1, d1, clicked).1, clicked) == (f1, d1)
    ensures clicked == field ==> NextSort(clicked, Flip(dir), clicked) == (field, dir)
  {
  }

  /** The component's state. */
  class Table {
    var search: string
    var sortField: SortField
    var sortDirection: SortDirection
    var categoryFilter: string

    /** Sorted by name, ascending, with no search and no category filter. */
    constructor ()
      ensures search == "" && categoryFilter == ""
      ensures sortField == Name && sortDirection == Asc
    {
      search := "";
      sortField := Name;
      sortDirection := Asc;
      categoryFilter := "";
    }

    /** The rows shown for `data`. */
    function Shown(data: seq<IngredientData>): (r: seq<IngredientData>)
      reads this
      ensures forall x :: x in r <==> x in data && Matches(search, categoryFilter, x)
      ensures multiset(r) == multiset(Filter(data, MatchesFn(search, categoryFilter)))
    {
      FilteredAndSorted(data, search, categoryFilter, sortField, sortDirection)
    }

    /** `handleSort(field)`: the same field flips the direction, another field is selected
        ascending; the search and category filter are kept. */
    method HandleSort(field: SortField)
      modifies this
      ensures (sortField, sortDirection) == NextSort(old(sortField), old(sortDirection), field)
      ensures search == old(search) && categoryFilter == old(categoryFilter)
    {
      if sortField == field {
        sortDirection := if sortDirection == Asc then Desc else Asc;
      } else {
        sortField := field;
        sortDirection := Asc;
      }
    }

    method SetSearch(s: string)
      modifies this
      ensures search == s
      ensures sortField == old(sortField) && sortDirection == old(sortDirection)
      ensures categoryFilter == old(categoryFilter)
    {
      search := s;
    }

    method SetCategoryFilter(c: string)
      modifies this
      ensures categoryFilter == c
      ensures sortField == old(sortField) && sortDirection == old(sortDirection)
      ensures search == old(search)
    {
      categoryFilter := c;
    }
  }

  /** Clicking a header twice restores the whole table state, so the same rows are shown
      in the same order. */
  method ClickTwiceRestores(t: Table, field: SortField, data: seq<IngredientData>)
    requires t.sortField == field
    modifies t
    ensures t.sortField == old(t.sortField) && t.sortDirection == old(t.sortDirection)
    ensures t.search == old(t.search) && t.categoryFilter == old(t.categoryFilter)
    ensures t.Shown(data) == old(t.Shown(data))
  {
    t.HandleSort(field);
    t.HandleSort(field);
  }
}
