/**
 * The week planner (app/planner/page.tsx): the planned meals, their lookups, and
 * the shopping list generated from them. Every ingredient of a planned meal's
 * recipe is scaled by planned servings / recipe servings and merged into a
 * dictionary keyed by the lower-cased ingredient name; the first occurrence of a
 * key fixes its name and unit, later ones only add to the amount.
 */
module Planner {
  import opened Wrappers
  import opened Seqs
  import opened Text
  import opened RecipeData

  datatype MealSlot = Breakfast | Lunch | Dinner

  datatype PlannedMeal = PlannedMeal(id: string, recipeId: string, day: string, meal: MealSlot, servings: int)

  /** One line of the generated shopping list. */
  datatype ListEntry = ListEntry(amount: real, unit: string, name: string)

  /** The plan the page starts with: meatballs for four on Monday, pancakes for two on Tuesday. */
  const InitialPlan: seq<PlannedMeal> := [
    PlannedMeal("1", "1", "måndag", Dinner, 4),
    PlannedMeal("2", "2", "tisdag", Lunch, 2)
  ]

  /** `getPlannedMeal`: the first planned meal in that day and slot. */
  function GetPlannedMeal(plan: seq<PlannedMeal>, day: string, meal: MealSlot): (r: Option<PlannedMeal>)
    ensures r.Some? ==> r.value in plan && r.value.day == day && r.value.meal == meal
    ensures r.None? <==> forall m :: m in plan ==> !(m.day == day && m.meal == meal)
  {
    Find(plan, (pm: PlannedMeal) => pm.day == day && pm.meal == meal)
  }

  /** The starting calendar: Monday dinner and Tuesday lunch are filled, every other slot
      is empty. */
  lemma InitialPlanSlots(day: string, meal: MealSlot)
    ensures GetPlannedMeal(InitialPlan, "måndag", Dinner) == Some(InitialPlan[0])
    ensures GetPlannedMeal(InitialPlan, "tisdag", Lunch) == Some(InitialPlan[1])
    ensures !(day == "måndag" && meal == Dinner) && !(day == "tisdag" && meal == Lunch)
            ==> GetPlannedMeal(InitialPlan, day, meal).None?
  {
  }

  /** `getRecipe`: the first catalogue recipe with that id. */
  function GetRecipe(catalogue: seq<Recipe>, recipeId: string): (r: Option<Recipe>)
    ensures r.Some? ==> r.value in catalogue && r.value.id == recipeId
    ensures r.None? <==> forall c :: c in catalogue ==> c.id != recipeId
  {
    Find(catalogue, (c: Recipe) => c.id == recipeId)
  }

  function IdIsNot(id: string): PlannedMeal -> bool {
    (pm: PlannedMeal) => pm.id != id
  }

  /** `removeMeal`: drops exactly the meals with that id and keeps the rest in order. */
  function RemoveMeal(plan: seq<PlannedMeal>, id: string): (r: seq<PlannedMeal>)
    ensures forall m :: m in r <==> m in plan && m.id != id
    ensures Subseq(r, plan)
    ensures (forall m :: m in plan ==> m.id != id) ==> r == plan
    ensures forall m: PlannedMeal :: m.id != id ==> multiset(r)[m] == multiset(plan)[m]
  {
    FilterSubseq(plan, IdIsNot(id));
    FilterMultiset(plan, IdIsNot(id));
    FilterAll(plan, IdIsNot(id));
    Filter(plan, IdIsNot(id))
  }

  // ---------------------------------------------------------------------------
  // The shopping list, specified as a fold over the scaled ingredients.

  /** One scaled ingredient as the loop sees it: the dictionary key and the entry it
      would create. */
  datatype Contribution = Contribution(key: string, entry: ListEntry)

  /** The factor a planned meal scales its recipe by. */
  function ScaleFactor(pm: PlannedMeal, r: Recipe): real {
    pm.servings as real / r.servings as real
  }

  function Contribute(ing: Ingredient, scale: real): Contribution {
    Contribution(Lower(ing.name), ListEntry(ing.amount * scale, ing.unit, ing.name))
  }

  /** Each ingredient scaled, in recipe order. */
  function Scaled(ings: seq<Ingredient>, scale: real): (cs: seq<Contribution>)
    ensures |cs| == |ings|
    ensures forall i :: 0 <= i < |ings| ==> cs[i] == Contribute(ings[i], scale)
  {
    if ings == [] then [] else Scaled(ings[..|ings| - 1], scale) + [Contribute(ings[|ings| - 1], scale)]
  }

  lemma ScaledSnoc(ings: seq<Ingredient>, x: Ingredient, scale: real)
    ensures Scaled(ings + [x], scale) == Scaled(ings, scale) + [Contribute(x, scale)]
  {
    assert (ings + [x])[..|ings|] == ings;
  }

  /** What one planned meal adds: nothing when its recipe id resolves to no recipe. */
  function MealContributions(catalogue: seq<Recipe>, pm: PlannedMeal): seq<Contribution> {
    match GetRecipe(catalogue, pm.recipeId)
    case None => []
    case Some(r) => Scaled(r.ingredients, ScaleFactor(pm, r))
  }

  /** Everything the plan adds, meal by meal. */
  function PlanContributions(catalogue: seq<Recipe>, plan: seq<PlannedMeal>): seq<Contribution> {
    if plan == [] then []
    else PlanContributions(catalogue, plan[..|plan| - 1]) + MealContributions(catalogue, plan[|plan| - 1])
  }

  /** A JavaScript object used as a dictionary: its keys in insertion order and its entries. */
  datatype Dict = Dict(keys: seq<string>, entries: map<string, ListEntry>)

  ghost predicate ValidDict(d: Dict) {
    NoDups(d.keys) && (forall k :: k in d.entries <==> k in d.keys)
  }

  /** One step of the loop body: add to an existing key, or insert a new one at the end. */
  function Add(d: Dict, c: Contribution): Dict {
    if c.key in d.entries then
      Dict(d.keys, d.entries[c.key := d.entries[c.key].(amount := d.entries[c.key].amount + c.entry.amount)])
    else
      Dict(d.keys + [c.key], d.entries[c.key := c.entry])
  }

  /** The dictionary after all contributions, in order. */
  function Merge(cs: seq<Contribution>): Dict {
    if cs == [] then Dict([], map[]) else Add(Merge(cs[..|cs| - 1]), cs[|cs| - 1])
  }

  /** `Object.values`: the entries in key order. */
  function Values(d: Dict): seq<ListEntry>
    requires forall k :: k in d.keys ==> k in d.entries
  {
    seq(|d.keys|, i requires 0 <= i < |d.keys| => d.entries[d.keys[i]])
  }

  /** The shopping list the page shows for a plan and a catalogue. */
  function ShoppingList(catalogue: seq<Recipe>, plan: seq<PlannedMeal>): seq<ListEntry> {
    var d := Merge(PlanContributions(catalogue, plan));
    MergeKeys(PlanContributions(catalogue, plan));
    Values(d)
  }

  // ---------------------------------------------------------------------------
  // What the fold computes, stated independently of it.

  function KeysOf(cs: seq<Contribution>): (ks: seq<string>)
    ensures |ks| == |cs| && forall i :: 0 <= i < |cs| ==> ks[i] == cs[i].key
  {
    if cs == [] then [] else KeysOf(cs[..|cs| - 1]) + [cs[|cs| - 1].key]
  }

  /** The sum of all amounts contributed under key `k`. */
  function SumFor(cs: seq<Contribution>, k: string): real {
    if cs == [] then 0.0
    else SumFor(cs[..|cs| - 1], k) + (if cs[|cs| - 1].key == k then cs[|cs| - 1].entry.amount else 0.0)
  }

  function HasKey(k: string): Contribution -> bool {
    (c: Contribution) => c.key == k
  }

  lemma MergeSnoc(cs: seq<Contribution>, c: Contribution)
    ensures Merge(cs + [c]) == Add(Merge(cs), c)
    ensures KeysOf(cs + [c]) == KeysOf(cs) + [c.key]
  {
    assert (cs + [c])[..|cs|] == cs;
  }

  lemma SumForSnoc(cs: seq<Contribution>, c: Contribution, k: string)
    ensures SumFor(cs + [c], k) == SumFor(cs, k) + (if c.key == k then c.entry.amount else 0.0)
  {
    assert (cs + [c])[..|cs|] == cs;
  }

  /** Nothing is summed under a key that never occurs. */
  lemma {:induction false} SumForAbsent(cs: seq<Contribution>, k: string)
    requires k !in KeysOf(cs)
    ensures SumFor(cs, k) == 0.0
  {
    if cs != [] {
      var cs', c := cs[..|cs| - 1], cs[|cs| - 1];
      assert cs == cs' + [c];
      MergeSnoc(cs', c);
      SumForSnoc(cs', c, k);
      SumForAbsent(cs', k);
    }
  }

  /** The dictionary's keys: the distinct lower-cased names, in order of first appearance. */
  lemma {:induction false} MergeKeys(cs: seq<Contribution>)
    ensures ValidDict(Merge(cs))
    ensures Merge(cs).keys == Dedup(KeysOf(cs))
  {
    if cs != [] {
      var cs', c := cs[..|cs| - 1], cs[|cs| - 1];
      assert cs == cs' + [c];
      MergeSnoc(cs', c);
      MergeKeys(cs');
      MergeKeysStep(Merge(cs'), KeysOf(cs'), c);
    }
  }

  /** One loop step keeps the dictionary well formed and its keys de-duplicated. */
  lemma MergeKeysStep(d: Dict, ks: seq<string>, c: Contribution)
    requires ValidDict(d) && d.keys == Dedup(ks)
    ensures ValidDict(Add(d, c)) && Add(d, c).keys == Dedup(ks + [c.key])
  {
    DedupSnoc(ks, c.key);
    if c.key !in d.entries {
      var keys := d.keys + [c.key];
      assert NoDups(keys) by {
        assert c.key !in d.keys;
      }
      assert forall k :: k in keys <==> k in d.keys || k == c.key;
    }
  }

  /** The entry the page shows for key `k`: the sum under `k`, with the name and unit of
      the first contribution with that key. */
  function Expected(cs: seq<Contribution>, k: string): ListEntry
    requires k in KeysOf(cs)
  {
    var first := Find(cs, HasKey(k));
    assert first.Some? by {
      var i :| 0 <= i < |cs| && KeysOf(cs)[i] == k;
      assert HasKey(k)(cs[i]);
    }
    ListEntry(SumFor(cs, k), first.value.entry.unit, first.value.entry.name)
  }

  /** The first contribution with key `k`, when `k` occurs. */
  lemma FindKey(cs: seq<Contribution>, k: string)
    ensures Find(cs, HasKey(k)).Some? <==> k in KeysOf(cs)
  {
    if k in KeysOf(cs) {
      var i :| 0 <= i < |cs| && KeysOf(cs)[i] == k;
      assert HasKey(k)(cs[i]);
    }
  }

  /** One entry of the merge: the sum under its key, with the name and unit of the first
      contribution with that key. */
  lemma {:induction false} MergeEntryAt(cs: seq<Contribution>, k: string)
    requires k in KeysOf(cs)
    ensures k in Merge(cs).entries && Merge(cs).entries[k] == Expected(cs, k)
  {
    var cs', c := cs[..|cs| - 1], cs[|cs| - 1];
    assert cs == cs' + [c];
    MergeSnoc(cs', c);
    SumForSnoc(cs', c, k);
    FindAppend(cs', c, HasKey(k));
    FindKey(cs', k);
    MergeKeys(cs');
    if k in KeysOf(cs') {
      MergeEntryAt(cs', k);
    } else {
      SumForAbsent(cs', k);
      assert k !in Merge(cs').keys;
    }
  }

  /** The merge, entry by entry: its keys are the contributed keys, and each entry is the
      sum of everything contributed under its key, with the name and unit of the first
      contribution with that key. */
  lemma MergeEntries(cs: seq<Contribution>)
    ensures forall k :: k in Merge(cs).entries <==> k in KeysOf(cs)
    ensures forall k :: k in Merge(cs).entries ==> Merge(cs).entries[k] == Expected(cs, k)
  {
    MergeKeys(cs);
    forall k | k in KeysOf(cs) ensures Merge(cs).entries[k] == Expected(cs, k) {
      MergeEntryAt(cs, k);
    }
  }

  // ---------------------------------------------------------------------------
  // The page's function, written as the loops it is.

  /** One pass of the inner loop body: a key already present gets the amount added, a new
      key is appended with the entry. */
  lemma AddStep(cs: seq<Contribution>, c: Contribution, keys: seq<string>, entries: map<string, ListEntry>)
    requires Dict(keys, entries) == Merge(cs)
    ensures Merge(cs + [c]) ==
      if c.key in entries
      then Dict(keys, entries[c.key := entries[c.key].(amount := entries[c.key].amount + c.entry.amount)])
      else Dict(keys + [c.key], entries[c.key := c.entry])
  {
    MergeSnoc(cs, c);
  }

  /** The contributions of a prefix of the ingredients, one ingredient longer. */
  lemma ScaledPrefix(before: seq<Contribution>, ings: seq<Ingredient>, j: nat, scale: real)
    requires j < |ings|
    ensures before + Scaled(ings[..j + 1], scale) == before + Scaled(ings[..j], scale) + [Contribute(ings[j], scale)]
  {
    assert ings[..j + 1] == ings[..j] + [ings[j]];
    ScaledSnoc(ings[..j], ings[j], scale);
  }

  /** The inner `forEach` of `generateShoppingList`: each ingredient of one recipe, scaled,
      is added to the dictionary under its lower-cased name. */
  method AddIngredients(keys0: seq<string>, entries0: map<string, ListEntry>, ings: seq<Ingredient>,
                        scale: real, ghost before: seq<Contribution>)
    returns (keys: seq<string>, entries: map<string, ListEntry>)
    requires Dict(keys0, entries0) == Merge(before)
    ensures Dict(keys, entries) == Merge(before + Scaled(ings, scale))
  {
    keys, entries := keys0, entries0;
    var j := 0;
    assert before + Scaled(ings[..0], scale) == before;
    while j < |ings|
      invariant 0 <= j <= |ings|
      invariant Dict(keys, entries) == Merge(before + Scaled(ings[..j], scale))
    {
      var ingredient := ings[j];
      // the key `ingredient.name.toLowerCase()` and the entry `{amount * scale, unit, name}`
      var c := Contribute(ingredient, scale);
      ScaledPrefix(before, ings, j, scale);
      AddStep(before + Scaled(ings[..j], scale), c, keys, entries);
      if c.key in entries {
        entries := entries[c.key := entries[c.key].(amount := entries[c.key].amount + c.entry.amount)];
      } else {
        keys := keys + [c.key];
        entries := entries[c.key := c.entry];
      }
      j := j + 1;
    }
    assert ings[..j] == ings;
  }

  /** `generateShoppingList`: for each planned meal whose recipe resolves, for each
      ingredient, add the scaled amount under the lower-cased name; the list is the
      dictionary's values. */
  method GenerateShoppingList(catalogue: seq<Recipe>, plan: seq<PlannedMeal>) returns (list: seq<ListEntry>)
    ensures list == ShoppingList(catalogue, plan)
  {
    var keys: seq<string> := [];
    var entries: map<string, ListEntry> := map[];
    var i := 0;
    while i < |plan|
      invariant 0 <= i <= |plan|
      invariant Dict(keys, entries) == Merge(PlanContributions(catalogue, plan[..i]))
    {
      var plannedMeal := plan[i];
      ghost var done := PlanContributions(catalogue, plan[..i]);
      assert plan[..i + 1][..i] == plan[..i];
      assert PlanContributions(catalogue, plan[..i + 1]) == done + MealContributions(catalogue, plannedMeal);
      var recipe := GetRecipe(catalogue, plannedMeal.recipeId);
      if recipe.Some? {
        var r := recipe.value;
        var scale := plannedMeal.servings as real / r.servings as real;
        keys, entries := AddIngredients(keys, entries, r.ingredients, scale, done);
      } else {
        assert done + MealContributions(catalogue, plannedMeal) == done;
      }
      i := i + 1;
    }
    assert plan[..i] == plan;
    MergeKeys(PlanContributions(catalogue, plan));
    list := Values(Dict(keys, entries));
  }

  // ---------------------------------------------------------------------------
  // Properties of the shopping list.

  /** An empty plan gives an empty shopping list. */
  lemma EmptyPlan(catalogue: seq<Recipe>)
    ensures ShoppingList(catalogue, []) == []
  {
  }

  /** The list, line by line: one line per distinct lower-cased ingredient name, in order
      of first appearance; at most as many lines as scaled ingredients; each line holds the
      sum under its key and the name and unit of its first occurrence. */
  lemma ShoppingListLines(catalogue: seq<Recipe>, plan: seq<PlannedMeal>)
    ensures var cs := PlanContributions(catalogue, plan);
      var keys := Dedup(KeysOf(cs));
      && |ShoppingList(catalogue, plan)| == |keys| <= |cs|
      && forall i :: 0 <= i < |keys| ==>
           keys[i] in KeysOf(cs) && ShoppingList(catalogue, plan)[i] == Expected(cs, keys[i])
  {
    MergeKeys(PlanContributions(catalogue, plan));
    MergeEntries(PlanContributions(catalogue, plan));
  }

  function Resolves(catalogue: seq<Recipe>): PlannedMeal -> bool {
    (pm: PlannedMeal) => GetRecipe(catalogue, pm.recipeId).Some?
  }

  /** A planned meal whose recipe id resolves to no recipe contributes nothing: the list
      is the same as for the plan without such meals. */
  lemma {:induction false} UnresolvedMealsIgnored(catalogue: seq<Recipe>, plan: seq<PlannedMeal>)
    ensures PlanContributions(catalogue, Filter(plan, Resolves(catalogue))) == PlanContributions(catalogue, plan)
    ensures ShoppingList(catalogue, Filter(plan, Resolves(catalogue))) == ShoppingList(catalogue, plan)
  {
    if plan != [] {
      var plan', pm := plan[..|plan| - 1], plan[|plan| - 1];
      UnresolvedMealsIgnored(catalogue, plan');
      var f' := Filter(plan', Resolves(catalogue));
      if Resolves(catalogue)(pm) {
        assert (f' + [pm])[..|f' + [pm]| - 1] == f';
      }
    }
  }

  /** Scaling: a meal planned for the recipe's own servings needs the recipe's amounts;
      one planned for twice as many needs twice as much. */
  lemma ScaleLaws(ing: Ingredient, r: Recipe, pm: PlannedMeal)
    ensures pm.servings == r.servings ==> Contribute(ing, ScaleFactor(pm, r)).entry.amount == ing.amount
    ensures pm.servings == 2 * r.servings ==> Contribute(ing, ScaleFactor(pm, r)).entry.amount == 2.0 * ing.amount
  {
  }

  /** Units are not reconciled: two ingredients with the same lower-cased name merge into one
      line with the first one's name and unit and the plain sum of the amounts, whatever the
      second one's unit is (2 msk of butter and 25 g of butter make "27 msk"). */
  lemma UnitsNotReconciled(a: Ingredient, b: Ingredient, sa: real, sb: real)
    requires Lower(a.name) == Lower(b.name)
    ensures var k := Lower(a.name);
      Merge([Contribute(a, sa), Contribute(b, sb)]) ==
        Dict([k], map[k := ListEntry(a.amount * sa + b.amount * sb, a.unit, a.name)])
  {
    var ca, cb := Contribute(a, sa), Contribute(b, sb);
    assert [ca, cb][..1] == [ca];
    assert [ca][..0] == [];
    assert Merge([ca]) == Dict([ca.key], map[ca.key := ca.entry]);
    assert Merge([ca, cb]) == Add(Merge([ca]), cb);
    var k := Lower(a.name);
    var e := ListEntry(a.amount * sa + b.amount * sb, a.unit, a.name);
    var m := Merge([ca, cb]).entries;
    assert Merge([ca, cb]).keys == [k];
    assert m.Keys == {k} && m[k] == e;
    assert m == map[k := e];
  }
}
