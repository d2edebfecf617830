/**
 * The recipe catalogue (lib/recipe-data.ts): the Recipe, Ingredient, Step and
 * Nutrition records and the constant list of three Swedish recipes that every
 * page reads.
 */
module RecipeData {
  import opened Wrappers
  import opened Seqs

  /** A recipe's base servings: the denominator when ingredient amounts are scaled. */
  type PosInt = n: int | n > 0 witness 1

  datatype Ingredient = Ingredient(id: string, name: string, amount: real, unit: string, notes: Option<string>)

  /** One cooking step; `duration` is in minutes. */
  datatype Step = Step(id: string, instruction: string, duration: Option<int>,
                       temperature: Option<int>, notes: Option<string>)

  datatype Nutrition = Nutrition(calories: int, protein: int, carbs: int, fat: int, fiber: int, sugar: int)

  /** Times are in minutes; `difficulty` is one of "Lätt", "Medel", "Svår". */
  datatype Recipe = Recipe(
    id: string, name: string, description: string, image: string,
    prepTime: int, cookTime: int, totalTime: int, servings: PosInt,
    difficulty: string, category: string, tags: seq<string>,
    ingredients: seq<Ingredient>, steps: seq<Step>,
    nutrition: Nutrition, allergens: seq<string>)

  const Difficulties: seq<string> := ["Lätt", "Medel", "Svår"]

  function Ing(id: string, name: string, amount: real, unit: string): Ingredient {
    Ingredient(id, name, amount, unit, None)
  }

  function IngNote(id: string, name: string, amount: real, unit: string, notes: string): Ingredient {
    Ingredient(id, name, amount, unit, Some(notes))
  }

  function Timed(id: string, instruction: string, minutes: int): Step {
    Step(id, instruction, Some(minutes), None, None)
  }

  function Untimed(id: string, instruction: string): Step {
    Step(id, instruction, None, None, None)
  }

  const Kottbullar := Recipe(
    "1", "Klassiska köttbullar med gräddsås",
    "Traditionella svenska köttbullar med krämig gräddsås och lingonsylt. En riktig husmanskost som värmer hjärtat.",
    "/swedish-meatballs-with-cream-sauce.png",
    20, 25, 45, 4, "Medel", "Huvudrätt",
    ["Husmanskost", "Kött", "Klassiker", "Familj"],
    [ Ing("1", "Köttfärs (blandfärs)", 500.0, "g"),
      Ing("2", "Ägg", 1.0, "st"),
      Ing("3", "Ströbröd", 1.0, "dl"),
      Ing("4", "Mjölk", 1.0, "dl"),
      IngNote("5", "Gul lök", 1.0, "st", "finhackad"),
      Ing("6", "Smör", 2.0, "msk"),
      Ing("7", "Vispgrädde", 3.0, "dl"),
      Ing("8", "Soja", 1.0, "msk") ],
    [ Timed("1", "Blanda ströbröd och mjölk i en skål. Låt svälla i 5 minuter.", 5),
      Untimed("2", "Tillsätt köttfärs, ägg och hackad lök. Krydda med salt och peppar. Arbeta ihop till en smidig smet."),
      Untimed("3", "Forma till köttbullar med våta händer. Gör dem lagom stora, cirka 3 cm i diameter."),
      Timed("4", "Stek köttbullarna i smör på medelhög värme tills de är gyllenbruna runt om, cirka 8-10 minuter.", 10),
      Timed("5", "Häll i grädde och soja. Låt sjuda i 10 minuter tills såsen tjocknat.", 10),
      Untimed("6", "Servera med kokt potatis, lingonsylt och inlagd gurka.") ],
    Nutrition(485, 28, 12, 36, 2, 8),
    ["Gluten", "Mjölk", "Ägg"])

  const Pannkakor := Recipe(
    "2", "Pannkakor med sylt och grädde",
    "Fluffiga svenska pannkakor som smakar som barndomens söndagar. Perfekta till eftermiddag eller som efterrätt.",
    "/swedish-pancakes-with-jam-and-cream.png",
    10, 20, 30, 4, "Lätt", "Efterrätt",
    ["Söt", "Klassiker", "Barnfavorit", "Snabbt"],
    [ Ing("1", "Ägg", 3.0, "st"),
      Ing("2", "Mjölk", 6.0, "dl"),
      Ing("3", "Vetemjöl", 3.0, "dl"),
      Ing("4", "Salt", 1.0, "krm"),
      IngNote("5", "Smör", 50.0, "g", "till stekning"),
      Ing("6", "Jordgubbssylt", 1.0, "dl"),
      Ing("7", "Vispgrädde", 2.0, "dl") ],
    [ Untimed("1", "Vispa ihop ägg och hälften av mjölken i en skål."),
      Untimed("2", "Tillsätt mjöl och salt. Vispa till en slät smet."),
      Untimed("3", "Späd med resterande mjölk tills smeten har rätt konsistens."),
      Timed("4", "Låt smeten vila i 10 minuter för bästa resultat.", 10),
      Timed("5", "Stek tunna pannkakor i smör på medelhög värme, cirka 1-2 minuter per sida.", 2),
      Untimed("6", "Servera varma med sylt och lättvispad grädde.") ],
    Nutrition(320, 12, 38, 14, 2, 18),
    ["Gluten", "Mjölk", "Ägg"])

  const Laxgryta := Recipe(
    "3", "Laxgryta med dill",
    "En krämig och smakrik fiskgryta med färsk lax och mycket dill. Perfekt vardagsmat som känns lite lyxig.",
    "/creamy-salmon-stew-with-dill.png",
    15, 25, 40, 4, "Medel", "Huvudrätt",
    ["Fisk", "Krämig", "Dill", "Vardagsmat"],
    [ IngNote("1", "Laxfilé", 600.0, "g", "utan skinn"),
      IngNote("2", "Potatis", 800.0, "g", "fast sort"),
      Ing("3", "Gul lök", 1.0, "st"),
      Ing("4", "Vispgrädde", 4.0, "dl"),
      Ing("5", "Fiskfond", 2.0, "dl"),
      IngNote("6", "Färsk dill", 1.0, "dl", "hackad"),
      Ing("7", "Smör", 2.0, "msk"),
      Ing("8", "Citron", 0.5, "st") ],
    [ Timed("1", "Skala och skär potatisen i bitar. Koka i saltat vatten i 15 minuter.", 15),
      Untimed("2", "Skär laxen i stora bitar och krydda med salt och peppar."),
      Timed("3", "Fräs hackad lök i smör tills den är mjuk, cirka 3 minuter.", 3),
      Untimed("4", "Tillsätt grädde och fiskfond. Låt koka upp."),
      Timed("5", "Lägg i laxbitarna och låt sjuda försiktigt i 8-10 minuter.", 10),
      Untimed("6", "Tillsätt kokt potatis, dill och citronsaft. Smaka av med salt och peppar."),
      Untimed("7", "Servera direkt med färsk dill som garnering.") ],
    Nutrition(420, 32, 28, 22, 3, 6),
    ["Fisk", "Mjölk"])

  /** `mockRecipes`. */
  const MockRecipes: seq<Recipe> := [Kottbullar, Pannkakor, Laxgryta]

  function IngredientIds(r: Recipe): seq<string> {
    seq(|r.ingredients|, i requires 0 <= i < |r.ingredients| => r.ingredients[i].id)
  }

  /** What every catalogue recipe satisfies: the times add up, the ingredient list is
      non-empty with distinct ids and positive amounts, every given step duration is
      positive, and the difficulty is one of the three levels. */
  predicate WellFormed(r: Recipe) {
    && r.totalTime == r.prepTime + r.cookTime
    && |r.ingredients| > 0
    && NoDups(IngredientIds(r))
    && (forall i :: 0 <= i < |r.ingredients| ==> r.ingredients[i].amount > 0.0)
    && (forall i :: 0 <= i < |r.steps| && r.steps[i].duration.Some? ==> r.steps[i].duration.value > 0)
    && r.difficulty in Difficulties
  }

  lemma KottbullarWellFormed()
    ensures WellFormed(Kottbullar)
  {
    assert NoDups(IngredientIds(Kottbullar)) by {
      assert IngredientIds(Kottbullar) == ["1", "2", "3", "4", "5", "6", "7", "8"];
    }
    assert forall i :: 0 <= i < |Kottbullar.ingredients| ==> Kottbullar.ingredients[i].amount > 0.0;
    assert forall i :: 0 <= i < |Kottbullar.steps| && Kottbullar.steps[i].duration.Some? ==> Kottbullar.steps[i].duration.value > 0;
  }

  lemma PannkakorWellFormed()
    ensures WellFormed(Pannkakor)
  {
    assert NoDups(IngredientIds(Pannkakor)) by {
      assert IngredientIds(Pannkakor) == ["1", "2", "3", "4", "5", "6", "7"];
    }
    assert forall i :: 0 <= i < |Pannkakor.ingredients| ==> Pannkakor.ingredients[i].amount > 0.0;
    assert forall i :: 0 <= i < |Pannkakor.steps| && Pannkakor.steps[i].duration.Some? ==> Pannkakor.steps[i].duration.value > 0;
  }

  lemma LaxgrytaWellFormed()
    ensures WellFormed(Laxgryta)
  {
    assert NoDups(IngredientIds(Laxgryta)) by {
      assert IngredientIds(Laxgryta) == ["1", "2", "3", "4", "5", "6", "7", "8"];
    }
    assert forall i :: 0 <= i < |Laxgryta.ingredients| ==> Laxgryta.ingredients[i].amount > 0.0;
    assert forall i :: 0 <= i < |Laxgryta.steps| && Laxgryta.steps[i].duration.Some? ==> Laxgryta.steps[i].duration.value > 0;
  }

  /** The catalogue: every recipe is well formed and serves 4, and the recipe ids
      "1", "2", "3" are distinct. */
  lemma MockRecipesWellFormed()
    ensures forall r :: r in MockRecipes ==> WellFormed(r) && r.servings == 4
    ensures NoDups(seq(|MockRecipes|, i requires 0 <= i < |MockRecipes| => MockRecipes[i].id))
  {
    KottbullarWellFormed();
    PannkakorWellFormed();
    LaxgrytaWellFormed();
  }

  /** The smallest ingredient amount in the catalogue is half a lemon. */
  lemma SmallestAmountIsCitron()
    ensures forall r, i :: r in MockRecipes && 0 <= i < |r.ingredients| ==> r.ingredients[i].amount >= 0.5
    ensures Laxgryta in MockRecipes && Laxgryta.ingredients[7].name == "Citron" && Laxgryta.ingredients[7].amount == 0.5
  {
  }
}
