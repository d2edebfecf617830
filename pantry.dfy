/**
 * The pantry page (app/pantry/page.tsx): the list of pantry items and its edits,
 * and the recipe matches computed from it. An item's `pantryAmount` may be
 * missing; `(pantryAmount || 0)` reads a missing amount as 0.
 */
module Pantry {
  import opened Wrappers
  import opened Seqs
  import opened Text
  import opened StableSort
  import opened RecipeData

  /** An ingredient record as the pantry keeps it (the element type of `mockIngredients`).
      The ingredient table shows records of the same type as `DataTable.IngredientData`;
      this page reads only these fields. */
  datatype PantryItem = PantryItem(id: string, name: string, inPantry: bool, pantryAmount: Option<real>)

  /** `(item.pantryAmount || 0)`. */
  function AmountOf(item: PantryItem): real {
    item.pantryAmount.GetOr(0.0)
  }

  function Max0(x: real): (r: real)
    ensures r >= 0.0 && r >= x && (r == 0.0 || r == x)
  {
    if x < 0.0 then 0.0 else x
  }

  // ---------------------------------------------------------------------------
  // Pantry edits: each is the updater handed to `setPantryItems`.

  function Bump(item: PantryItem, id: string, change: real): PantryItem {
    if item.id == id then item.(pantryAmount := Some(Max0(AmountOf(item) + change))) else item
  }

  /** `updatePantryAmount(id, change)`: every item with that id gets `max(0, amount + change)`;
      every other item, and every other field, is unchanged. */
  function UpdatePantryAmount(items: seq<PantryItem>, id: string, change: real): (r: seq<PantryItem>)
    ensures |r| == |items|
    ensures forall i :: 0 <= i < |items| && items[i].id != id ==> r[i] == items[i]
    ensures forall i :: 0 <= i < |items| && items[i].id == id ==>
      && r[i].(pantryAmount := items[i].pantryAmount) == items[i]
      && r[i].pantryAmount.Some?
      && AmountOf(r[i]) >= 0.0
      && (AmountOf(r[i]) == 0.0 || AmountOf(r[i]) == AmountOf(items[i]) + change)
      && AmountOf(r[i]) >= AmountOf(items[i]) + change
  {
    seq(|items|, i requires 0 <= i < |items| => Bump(items[i], id, change))
  }

  /** Amounts stay non-negative: if they are before an update, they are after it. */
  lemma UpdateKeepsAmountsNonNegative(items: seq<PantryItem>, id: string, change: real)
    requires forall i :: 0 <= i < |items| ==> AmountOf(items[i]) >= 0.0
    ensures var r := UpdatePantryAmount(items, id, change);
      forall i :: 0 <= i < |r| ==> AmountOf(r[i]) >= 0.0
  {
  }

  /** Adding then removing one unit restores a non-negative amount; removing from an empty
      item leaves it at 0. */
  lemma UpdateRoundTrip(items: seq<PantryItem>, id: string, i: int)
    requires 0 <= i < |items| && items[i].id == id && AmountOf(items[i]) >= 0.0
    ensures AmountOf(UpdatePantryAmount(UpdatePantryAmount(items, id, 1.0), id, -1.0)[i]) == AmountOf(items[i])
    ensures AmountOf(items[i]) == 0.0 ==> AmountOf(UpdatePantryAmount(items, id, -1.0)[i]) == 0.0
  {
  }

  function IdIs(id: string): PantryItem -> bool {
    (item: PantryItem) => item.id == id
  }

  function SetToOne(item: PantryItem, id: string): PantryItem {
    if item.id == id then item.(pantryAmount := Some(1.0)) else item
  }

  /** `addToPantry(ingredient)`: if an item with its id is present, every item with that id
      gets amount 1 and the list keeps its length; otherwise the ingredient is appended,
      marked as in the pantry, with amount 1. */
  function AddToPantry(items: seq<PantryItem>, ingredient: PantryItem): (r: seq<PantryItem>)
    ensures (exists i :: 0 <= i < |items| && items[i].id == ingredient.id) ==>
      && |r| == |items|
      && forall i :: 0 <= i < |items| ==>
           r[i] == if items[i].id == ingredient.id then items[i].(pantryAmount := Some(1.0)) else items[i]
    ensures (forall i :: 0 <= i < |items| ==> items[i].id != ingredient.id) ==>
      r == items + [ingredient.(inPantry := true, pantryAmount := Some(1.0))]
  {
    if Find(items, IdIs(ingredient.id)).Some? then
      seq(|items|, i requires 0 <= i < |items| => SetToOne(items[i], ingredient.id))
    else
      assert forall i :: 0 <= i < |items| ==> !IdIs(ingredient.id)(items[i]);
      items + [ingredient.(inPantry := true, pantryAmount := Some(1.0))]
  }

  /** After `addToPantry` the ingredient's id is present with amount 1. */
  lemma AddToPantryPresent(items: seq<PantryItem>, ingredient: PantryItem)
    ensures var r := AddToPantry(items, ingredient);
      exists i :: 0 <= i < |r| && r[i].id == ingredient.id && AmountOf(r[i]) == 1.0
  {
    var r := AddToPantry(items, ingredient);
    if i :| 0 <= i < |items| && items[i].id == ingredient.id {
      assert r[i].id == ingredient.id && AmountOf(r[i]) == 1.0;
    } else {
      assert r[|items|].id == ingredient.id && AmountOf(r[|items|]) == 1.0;
    }
  }

  /** Adding the same ingredient twice is adding it once. */
  lemma AddToPantryIdempotent(items: seq<PantryItem>, ingredient: PantryItem)
    ensures AddToPantry(AddToPantry(items, ingredient), ingredient) == AddToPantry(items, ingredient)
  {
    var r := AddToPantry(items, ingredient);
    if !exists i :: 0 <= i < |items| && items[i].id == ingredient.id {
      assert r[|items|].id == ingredient.id;
    }
  }

  /** `removeFromPantry(id)`: drops exactly the items with that id, keeping the rest in order. */
  function RemoveFromPantry(items: seq<PantryItem>, id: string): (r: seq<PantryItem>)
    ensures forall x :: x in r <==> x in items && x.id != id
    ensures Subseq(r, items)
    ensures forall x: PantryItem :: x.id != id ==> multiset(r)[x] == multiset(items)[x]
  {
    var keep := (item: PantryItem) => item.id != id;
    FilterSubseq(items, keep);
    FilterMultiset(items, keep);
    Filter(items, keep)
  }

  /** `availableIngredients`: the ingredients whose id no pantry item has. */
  function AvailableIngredients(all: seq<PantryItem>, pantry: seq<PantryItem>): (r: seq<PantryItem>)
    ensures forall x :: x in r <==> x in all && forall p :: p in pantry ==> p.id != x.id
    ensures Subseq(r, all)
    ensures forall x: PantryItem :: (forall p :: p in pantry ==> p.id != x.id) ==> multiset(r)[x] == multiset(all)[x]
  {
    var notInPantry := (item: PantryItem) => Find(pantry, IdIs(item.id)).None?;
    FilterSubseq(all, notInPantry);
    FilterMultiset(all, notInPantry);
    Filter(all, notInPantry)
  }

  /** What `addToPantry` offers disappears from the offer once added. */
  lemma AddedNoLongerOffered(all: seq<PantryItem>, pantry: seq<PantryItem>, ingredient: PantryItem)
    ensures ingredient !in AvailableIngredients(all, AddToPantry(pantry, ingredient))
  {
    AddToPantryPresent(pantry, ingredient);
  }

  // ---------------------------------------------------------------------------
  // Recipe matches.

  /** The pantry item a recipe ingredient is looked up as: the first whose lower-cased name
      equals the ingredient's lower-cased name. */
  function NameIs(name: string): PantryItem -> bool {
    (item: PantryItem) => Lower(item.name) == Lower(name)
  }

  /** The ingredient counts as available when that item exists and its amount is positive. */
  function IsAvailable(pantry: seq<PantryItem>): Ingredient -> bool {
    (ing: Ingredient) =>
      match Find(pantry, NameIs(ing.name))
      case None => false
      case Some(item) => AmountOf(item) > 0.0
  }

  /** Euclidean division, as bounds: `d * q <= n < d * q + d`. */
  lemma DivBounds(n: int, d: int)
    requires d > 0
    ensures d * (n / d) <= n < d * (n / d) + d
  {
  }

  /** Multiplying by a positive number keeps the order. */
  lemma MulMonotone(d: int, a: int, b: int)
    requires d > 0 && a <= b
    ensures d * a <= d * b
  {
    assert d * b == d * a + d * (b - a);
  }

  /** The quotient reaches `k` exactly when the dividend reaches `d * k`. */
  lemma DivAtLeast(n: int, d: int, k: int)
    requires d > 0
    ensures n / d >= k <==> n >= d * k
  {
    var q := n / d;
    DivBounds(n, d);
    if q >= k {
      MulMonotone(d, k, q);
    } else {
      MulMonotone(d, q + 1, k);
      assert d * (q + 1) == d * q + d;
    }
  }

  /** `Math.round(available / total * 100)` with exact arithmetic: rounding half up is
      `floor(x + 1/2)`, and `100a/t + 1/2 = (200a + t) / 2t`. A recipe without ingredients
      scores `NaN`, which fails `> 0` like a score of 0; it is modelled as 0. */
  function MatchPercentage(available: nat, total: nat): (p: int)
    requires available <= total
    ensures 0 <= p <= 100
    ensures total > 0 ==> (p == 100 <==> 200 * available >= 199 * total)
    ensures total > 0 ==> (p > 0 <==> 200 * available >= total)
    ensures total > 0 ==> 2 * total * p <= 200 * available + total < 2 * total * p + 2 * total
  {
    if total == 0 then 0
    else
      var n, d := 200 * available + total, 2 * total;
      DivBounds(n, d);
      DivAtLeast(n, d, 0);
      DivAtLeast(n, d, 1);
      DivAtLeast(n, d, 100);
      DivAtLeast(n, d, 101);
      n / d
  }

  /** For recipes with fewer than 200 ingredients (every catalogue recipe has at most 8) the
      score is 100 exactly when every ingredient is available, and positive exactly when at
      least one is. */
  lemma MatchPercentageSmall(available: nat, total: nat)
    requires available <= total && 0 < total < 200
    ensures MatchPercentage(available, total) == 100 <==> available == total
    ensures MatchPercentage(available, total) > 0 <==> available > 0
  {
  }

  /** With 200 ingredients of which 199 are available the score already rounds to 100, and
      with 201 ingredients of which 1 is available it rounds to 0. */
  lemma MatchPercentageLarge()
    ensures MatchPercentage(199, 200) == 100
    ensures MatchPercentage(1, 201) == 0
  {
  }

  datatype RecipeMatch = RecipeMatch(recipe: Recipe, matchPercentage: int, availableIngredients: nat,
                                     totalIngredients: nat, missingCount: int)

  /** The record the page builds for one recipe. */
  function MatchOf(pantry: seq<PantryItem>, recipe: Recipe): (m: RecipeMatch)
    ensures m.recipe == recipe && m.totalIngredients == |recipe.ingredients|
    ensures 0 <= m.availableIngredients <= m.totalIngredients
    ensures m.missingCount == m.totalIngredients - m.availableIngredients
    ensures m.availableIngredients == |Filter(recipe.ingredients, IsAvailable(pantry))|
    ensures m.matchPercentage == MatchPercentage(m.availableIngredients, m.totalIngredients)
  {
    var total := |recipe.ingredients|;
    var available := |Filter(recipe.ingredients, IsAvailable(pantry))|;
    RecipeMatch(recipe, MatchPercentage(available, total), available, total, total - available)
  }

  function MatchesOf(pantry: seq<PantryItem>, catalogue: seq<Recipe>): (ms: seq<RecipeMatch>)
    ensures |ms| == |catalogue| && forall i :: 0 <= i < |catalogue| ==> ms[i] == MatchOf(pantry, catalogue[i])
  {
    seq(|catalogue|, i requires 0 <= i < |catalogue| => MatchOf(pantry, catalogue[i]))
  }

  function Positive(m: RecipeMatch): bool {
    m.matchPercentage > 0
  }

  /** The comparator `(a, b) => b.matchPercentage - a.matchPercentage`: `a` may go before `b`
      when its score is not lower. */
  function ScoreDesc(a: RecipeMatch, b: RecipeMatch): bool {
    a.matchPercentage >= b.matchPercentage
  }

  lemma ScoreDescTotal()
    ensures TotalPreorder(ScoreDesc)
  {
  }

  /** The matches with a positive score, in catalogue order: what the sort receives. */
  function Kept(pantry: seq<PantryItem>, catalogue: seq<Recipe>): (ks: seq<RecipeMatch>)
    ensures forall m :: m in ks <==> m in MatchesOf(pantry, catalogue) && m.matchPercentage > 0
    ensures Subseq(ks, MatchesOf(pantry, catalogue))
    ensures forall m: RecipeMatch :: m.matchPercentage > 0 ==> multiset(ks)[m] == multiset(MatchesOf(pantry, catalogue))[m]
  {
    FilterSubseq(MatchesOf(pantry, catalogue), Positive);
    FilterMultiset(MatchesOf(pantry, catalogue), Positive);
    Filter(MatchesOf(pantry, catalogue), Positive)
  }

  /** `recipeMatches`: the matches with a positive score, best first, ties in catalogue order. */
  function RecipeMatches(pantry: seq<PantryItem>, catalogue: seq<Recipe>): (r: seq<RecipeMatch>)
    ensures multiset(r) == multiset(Kept(pantry, catalogue))
    ensures forall m :: m in r <==> m in Kept(pantry, catalogue)
  {
    var ks := Kept(pantry, catalogue);
    var r := Sort(ks, ScoreDesc);
    assert forall m :: m in r <==> m in multiset(r);
    assert forall m :: m in ks <==> m in multiset(ks);
    r
  }

  /** Every recipe of the catalogue appears among the matches exactly when its score is
      positive, with the numbers the page shows for it; nothing else appears. */
  lemma RecipeMatchesMembers(pantry: seq<PantryItem>, catalogue: seq<Recipe>, recipe: Recipe)
    ensures recipe in catalogue && MatchOf(pantry, recipe).matchPercentage > 0 <==>
      MatchOf(pantry, recipe) in RecipeMatches(pantry, catalogue)
    ensures forall m :: m in RecipeMatches(pantry, catalogue) ==>
      m.matchPercentage > 0 && m.recipe in catalogue && m == MatchOf(pantry, m.recipe)
  {
    var ms := MatchesOf(pantry, catalogue);
    var m := MatchOf(pantry, recipe);
    if recipe in catalogue {
      var i :| 0 <= i < |catalogue| && catalogue[i] == recipe;
      assert ms[i] == m;
    }
    forall x | x in ms ensures x.recipe in catalogue && x == MatchOf(pantry, x.recipe) {
      var i :| 0 <= i < |ms| && ms[i] == x;
    }
  }

  /** The matches are ordered by non-increasing score. */
  lemma RecipeMatchesSorted(pantry: seq<PantryItem>, catalogue: seq<Recipe>)
    ensures var r := RecipeMatches(pantry, catalogue);
      forall i, j :: 0 <= i < j < |r| ==> r[i].matchPercentage >= r[j].matchPercentage
  {
    ScoreDescTotal();
    SortSorted(Kept(pantry, catalogue), ScoreDesc);
  }

  function SameScore(k: RecipeMatch): RecipeMatch -> bool {
    (m: RecipeMatch) => m.matchPercentage == k.matchPercentage
  }

  /** Among matches with the same score as `k` the catalogue order is kept. */
  lemma RecipeMatchesStable(pantry: seq<PantryItem>, catalogue: seq<Recipe>, k: RecipeMatch)
    ensures Filter(RecipeMatches(pantry, catalogue), SameScore(k)) == Filter(Kept(pantry, catalogue), SameScore(k))
  {
    var ks := Kept(pantry, catalogue);
    ScoreDescTotal();
    SortStable(ks, ScoreDesc, k);
    FilterSameFunction(Sort(ks, ScoreDesc), EquivTo(ScoreDesc, k), SameScore(k));
    FilterSameFunction(ks, EquivTo(ScoreDesc, k), SameScore(k));
  }
}
