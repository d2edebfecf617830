/**
 * The recipe list page (app/recipes/page.tsx): the category and tag options it
 * offers the filter bar, and the filter it applies to the catalogue.
 */
module RecipeSearch {
  import opened Wrappers
  import opened Seqs
  import opened Text
  import opened RecipeData
  import opened FilterBar

  /** The filter state the page starts with. */
  const InitialFilters := FilterState("", [], [], None, [])

  // ---------------------------------------------------------------------------
  // The options offered to the filter bar.

  function CategoriesOf(recipes: seq<Recipe>): (cs: seq<string>)
    ensures |cs| == |recipes| && forall i :: 0 <= i < |recipes| ==> cs[i] == recipes[i].category
  {
    seq(|recipes|, i requires 0 <= i < |recipes| => recipes[i].category)
  }

  /** `recipes.flatMap((r) => r.tags)`. */
  function AllTags(recipes: seq<Recipe>): (ts: seq<string>)
    ensures forall t :: t in ts <==> exists r :: r in recipes && t in r.tags
  {
    if recipes == [] then []
    else
      var rest := AllTags(recipes[..|recipes| - 1]);
      assert recipes == recipes[..|recipes| - 1] + [recipes[|recipes| - 1]];
      rest + recipes[|recipes| - 1].tags
  }

  /** `flatMap` keeps the catalogue order: the tags of a joined catalogue are the tags of
      the first part followed by those of the second. */
  lemma {:induction false} AllTagsConcat(a: seq<Recipe>, b: seq<Recipe>)
    ensures AllTags(a + b) == AllTags(a) + AllTags(b)
    ensures |b| == 1 ==> AllTags(a + b) == AllTags(a) + b[0].tags
  {
    if b == [] {
      assert a + b == a;
    } else {
      var b' := b[..|b| - 1];
      AllTagsConcat(a, b');
      assert (a + b)[..|a + b| - 1] == a + b';
      assert AllTags(b) == AllTags(b') + b[|b| - 1].tags;
    }
  }

  /** `availableCategories`: each category of the catalogue once, in order of first
      appearance. */
  function AvailableCategories(recipes: seq<Recipe>): (cs: seq<string>)
    ensures NoDups(cs)
    ensures forall c :: c in cs <==> exists r :: r in recipes && r.category == c
  {
    var all := CategoriesOf(recipes);
    assert forall r :: r in recipes ==> r.category in all;
    Dedup(all)
  }

  /** `availableTags`: each tag of the catalogue once, in order of first appearance. */
  function AvailableTags(recipes: seq<Recipe>): (ts: seq<string>)
    ensures NoDups(ts)
    ensures forall t :: t in ts <==> exists r :: r in recipes && t in r.tags
  {
    Dedup(AllTags(recipes))
  }

  /** The options are listed in order of first appearance in the catalogue. */
  lemma OptionsInFirstAppearanceOrder(recipes: seq<Recipe>)
    ensures var cs := AvailableCategories(recipes);
      forall i, j :: 0 <= i < j < |cs| ==> FirstIndex(CategoriesOf(recipes), cs[i]) < FirstIndex(CategoriesOf(recipes), cs[j])
    ensures var ts := AvailableTags(recipes);
      forall i, j :: 0 <= i < j < |ts| ==> FirstIndex(AllTags(recipes), ts[i]) < FirstIndex(AllTags(recipes), ts[j])
  {
    DedupFirstOccurrenceOrder(CategoriesOf(recipes));
    DedupFirstOccurrenceOrder(AllTags(recipes));
  }

  /** Three recipes where the first and the last share a category offer two categories. */
  lemma ThreeRecipesTwoCategories(a: Recipe, b: Recipe, c: Recipe)
    requires a.category == c.category != b.category
    ensures AvailableCategories([a, b, c]) == [a.category, b.category]
  {
    assert CategoriesOf([a, b, c]) == [a.category, b.category, a.category];
    DedupRepeatedFirst(a.category, b.category);
  }

  /** The catalogue offers the categories "Huvudrätt" and "Efterrätt". */
  lemma CatalogueCategories()
    ensures AvailableCategories(MockRecipes) == ["Huvudrätt", "Efterrätt"]
  {
    ThreeRecipesTwoCategories(Kottbullar, Pannkakor, Laxgryta);
  }

  // ---------------------------------------------------------------------------
  // The filter.

  /** The search clause: the lower-cased query occurs in the lower-cased name, description,
      some ingredient name or some tag. */
  predicate MatchesSearch(recipe: Recipe, search: string) {
    var q := Lower(search);
    Includes(Lower(recipe.name), q)
    || Includes(Lower(recipe.description), q)
    || (exists i | 0 <= i < |recipe.ingredients| :: Includes(Lower(recipe.ingredients[i].name), q))
    || (exists i | 0 <= i < |recipe.tags| :: Includes(Lower(recipe.tags[i]), q))
  }

  /** The callback given to `filter`, as the page writes it: each active filter can reject
      the recipe in turn. */
  predicate Passes(filters: FilterState, recipe: Recipe) {
    if filters.search != "" && !MatchesSearch(recipe, filters.search) then false
    else if |filters.categories| > 0 && recipe.category !in filters.categories then false
    else if |filters.difficulties| > 0 && recipe.difficulty !in filters.difficulties then false
    else if TimeLimitActive(filters.maxTime) && recipe.totalTime > filters.maxTime.value then false
    else if |filters.tags| > 0 && !(exists i | 0 <= i < |filters.tags| :: filters.tags[i] in recipe.tags) then false
    else true
  }

  /** The filter as a conjunction of independent clauses: an empty search, an empty list and a
      falsy `maxTime` impose nothing; the tag clause asks for at least one selected tag. */
  lemma PassesIff(filters: FilterState, recipe: Recipe)
    ensures Passes(filters, recipe) <==>
      && (filters.search == "" || MatchesSearch(recipe, filters.search))
      && (filters.categories == [] || recipe.category in filters.categories)
      && (filters.difficulties == [] || recipe.difficulty in filters.difficulties)
      && (filters.maxTime.None? || filters.maxTime.value == 0 || recipe.totalTime <= filters.maxTime.value)
      && (filters.tags == [] || exists t :: t in filters.tags && t in recipe.tags)
  {
  }

  function PassesFn(filters: FilterState): Recipe -> bool {
    (r: Recipe) => Passes(filters, r)
  }

  /** `filteredRecipes`: the recipes that pass, in catalogue order. */
  function FilteredRecipes(filters: FilterState, recipes: seq<Recipe>): (r: seq<Recipe>)
    ensures forall x :: x in r <==> x in recipes && Passes(filters, x)
    ensures Subseq(r, recipes)
    ensures forall x :: Passes(filters, x) ==> multiset(r)[x] == multiset(recipes)[x]
  {
    FilterSubseq(recipes, PassesFn(filters));
    FilterMultiset(recipes, PassesFn(filters));
    Filter(recipes, PassesFn(filters))
  }

  /** When the filter bar shows no active filter every recipe is listed, in catalogue
      order; in particular with the initial filters. */
  lemma NoActiveFilterKeepsAll(filters: FilterState, recipes: seq<Recipe>)
    requires !HasActiveFilters(filters)
    ensures FilteredRecipes(filters, recipes) == recipes
  {
    FilterAll(recipes, PassesFn(filters));
  }

  lemma InitialFiltersKeepAll(recipes: seq<Recipe>)
    ensures FilteredRecipes(InitialFilters, recipes) == recipes
  {
    NoActiveFilterKeepsAll(InitialFilters, recipes);
  }

  /** The search ignores case: a query and its lower-cased form select the same recipes. */
  lemma SearchIgnoresCase(filters: FilterState, recipe: Recipe)
    ensures Passes(filters, recipe) == Passes(filters.(search := Lower(filters.search)), recipe)
  {
    LowerIdempotent(filters.search);
  }

  /** Narrowing: adding a category to a non-empty category selection never removes a recipe,
      and every recipe that passes a selection of categories has one of them. */
  lemma CategorySelection(filters: FilterState, recipe: Recipe, c: string)
    requires filters.categories != []
    ensures Passes(filters, recipe) ==> Passes(filters.(categories := filters.categories + [c]), recipe)
    ensures Passes(filters, recipe) ==> recipe.category in filters.categories
  {
  }

  /** With a 30-minute limit and nothing else selected only the pancakes are listed. */
  lemma ThirtyMinutes()
    ensures FilteredRecipes(InitialFilters.(maxTime := Some(30)), MockRecipes) == [Pannkakor]
  {
    var f := InitialFilters.(maxTime := Some(30));
    var p := PassesFn(f);
    FilterSnoc([], Kottbullar, p);
    FilterSnoc([Kottbullar], Pannkakor, p);
    FilterSnoc([Kottbullar, Pannkakor], Laxgryta, p);
    assert [] + [Kottbullar] == [Kottbullar];
    assert [Kottbullar] + [Pannkakor] == [Kottbullar, Pannkakor];
    assert [Kottbullar, Pannkakor] + [Laxgryta] == MockRecipes;
    assert [] + [Pannkakor] == [Pannkakor];
  }
}
