/**
 * The recipe editor (app/studio/new/page.tsx): a form whose ingredient and step lists grow,
 * shrink and change by index, and whose tag list only takes new, non-blank tags. The page
 * keeps two pieces of state, the form and the text of the tag input, and each handler
 * replaces them; `Editor` below is that pair, `Apply` what one user action does to it.
 */
module Studio {
  import opened Text
  import opened Seqs

  /** "Lätt", "Medel", "Svår". */
  datatype Difficulty = Easy | Medium | Hard

  datatype IngredientRow = IngredientRow(name: string, amount: string, unit: string, notes: string)
  datatype StepRow = StepRow(instruction: string, duration: string, notes: string)

  datatype RecipeForm = RecipeForm(
    name: string, description: string, prepTime: int, cookTime: int, servings: int,
    difficulty: Difficulty, category: string, tags: seq<string>,
    ingredients: seq<IngredientRow>, steps: seq<StepRow>, image: string)

  /** The row `addIngredient` appends: everything blank, unit "st". */
  const BlankIngredient := IngredientRow("", "", "st", "")
  /** The row `addStep` appends. */
  const BlankStep := StepRow("", "", "")

  /** The form the page opens with: one blank ingredient, one blank step, 4 servings. */
  const InitialForm := RecipeForm("", "", 0, 0, 4, Medium, "", [], [BlankIngredient], [BlankStep], "")

  // ---------------------------------------------------------------------------
  // Index-based list edits.

  /** `s.filter((_, i) => i !== index)`: drops the element at `index`; an index outside the
      list drops nothing. */
  function RemoveAt<T>(s: seq<T>, index: int): (r: seq<T>)
    ensures 0 <= index < |s| ==> r == s[..index] + s[index + 1..]
    ensures !(0 <= index < |s|) ==> r == s
  {
    if s == [] then []
    else
      var n := |s| - 1;
      var rest := RemoveAt(s[..n], index);
      assert s == s[..n] + [s[n]];
      if index == n then rest
      else
        assert 0 <= index < n ==> s[..n][..index] == s[..index] && s[..n][index + 1..] + [s[n]] == s[index + 1..];
        rest + [s[n]]
  }

  /** `s.map((x, i) => i === index ? f(x) : x)`: only the element at `index` changes. */
  function MapAt<T>(s: seq<T>, index: int, f: T -> T): (r: seq<T>)
    ensures |r| == |s|
    ensures forall j :: 0 <= j < |s| ==> r[j] == if j == index then f(s[j]) else s[j]
  {
    if s == [] then []
    else
      var n := |s| - 1;
      MapAt(s[..n], index, f) + [if n == index then f(s[n]) else s[n]]
  }

  // ---------------------------------------------------------------------------
  // Row fields: the inputs name the field they edit.

  datatype IngredientField = IngredientName | Amount | Unit | IngredientNotes
  datatype StepField = Instruction | Duration | StepNotes

  function IngredientFieldOf(row: IngredientRow, field: IngredientField): string {
    match field
    case IngredientName => row.name
    case Amount => row.amount
    case Unit => row.unit
    case IngredientNotes => row.notes
  }

  /** `{ ...ing, [field]: value }`: the named field reads `value`, the others are kept. */
  function SetIngredientField(row: IngredientRow, field: IngredientField, value: string): (r: IngredientRow)
    ensures IngredientFieldOf(r, field) == value
    ensures forall g :: g != field ==> IngredientFieldOf(r, g) == IngredientFieldOf(row, g)
  {
    match field
    case IngredientName => row.(name := value)
    case Amount => row.(amount := value)
    case Unit => row.(unit := value)
    case IngredientNotes => row.(notes := value)
  }

  function StepFieldOf(row: StepRow, field: StepField): string {
    match field
    case Instruction => row.instruction
    case Duration => row.duration
    case StepNotes => row.notes
  }

  /** `{ ...step, [field]: value }`. */
  function SetStepField(row: StepRow, field: StepField, value: string): (r: StepRow)
    ensures StepFieldOf(r, field) == value
    ensures forall g :: g != field ==> StepFieldOf(r, g) == StepFieldOf(row, g)
  {
    match field
    case Instruction => row.(instruction := value)
    case Duration => row.(duration := value)
    case StepNotes => row.(notes := value)
  }

  /** A row is determined by its fields, so writing back a field's own value changes nothing. */
  lemma SetIngredientFieldToSame(row: IngredientRow, field: IngredientField)
    ensures SetIngredientField(row, field, IngredientFieldOf(row, field)) == row
  {
  }

  // ---------------------------------------------------------------------------
  // The form handlers.

  /** `addIngredient`: one blank row at the end, nothing else changes. */
  function AddIngredient(form: RecipeForm): (r: RecipeForm)
    ensures |r.ingredients| == |form.ingredients| + 1
    ensures r.ingredients[..|form.ingredients|] == form.ingredients
    ensures r.ingredients[|form.ingredients|] == BlankIngredient
    ensures r.(ingredients := form.ingredients) == form
  {
    form.(ingredients := form.ingredients + [BlankIngredient])
  }

  /** `removeIngredient(index)`. */
  function RemoveIngredient(form: RecipeForm, index: int): (r: RecipeForm)
    ensures 0 <= index < |form.ingredients| ==>
      r.ingredients == form.ingredients[..index] + form.ingredients[index + 1..]
    ensures !(0 <= index < |form.ingredients|) ==> r == form
    ensures r.(ingredients := form.ingredients) == form
  {
    form.(ingredients := RemoveAt(form.ingredients, index))
  }

  /** `updateIngredient(index, field, value)`: one field of one row. */
  function UpdateIngredient(form: RecipeForm, index: int, field: IngredientField, value: string): (r: RecipeForm)
    ensures |r.ingredients| == |form.ingredients|
    ensures forall j :: 0 <= j < |form.ingredients| && j != index ==> r.ingredients[j] == form.ingredients[j]
    ensures 0 <= index < |form.ingredients| ==> IngredientFieldOf(r.ingredients[index], field) == value
    ensures 0 <= index < |form.ingredients| ==> forall g :: g != field ==>
      IngredientFieldOf(r.ingredients[index], g) == IngredientFieldOf(form.ingredients[index], g)
    ensures r.(ingredients := form.ingredients) == form
  {
    form.(ingredients := MapAt(form.ingredients, index, row => SetIngredientField(row, field, value)))
  }

  /** `addStep`: one blank step at the end. */
  function AddStep(form: RecipeForm): (r: RecipeForm)
    ensures |r.steps| == |form.steps| + 1
    ensures r.steps[..|form.steps|] == form.steps
    ensures r.steps[|form.steps|] == BlankStep
    ensures r.(steps := form.steps) == form
  {
    form.(steps := form.steps + [BlankStep])
  }

  /** `removeStep(index)`. */
  function RemoveStep(form: RecipeForm, index: int): (r: RecipeForm)
    ensures 0 <= index < |form.steps| ==> r.steps == form.steps[..index] + form.steps[index + 1..]
    ensures !(0 <= index < |form.steps|) ==> r == form
    ensures r.(steps := form.steps) == form
  {
    form.(steps := RemoveAt(form.steps, index))
  }

  /** `updateStep(index, field, value)`. */
  function UpdateStep(form: RecipeForm, index: int, field: StepField, value: string): (r: RecipeForm)
    ensures |r.steps| == |form.steps|
    ensures forall j :: 0 <= j < |form.steps| && j != index ==> r.steps[j] == form.steps[j]
    ensures 0 <= index < |form.steps| ==> StepFieldOf(r.steps[index], field) == value
    ensures 0 <= index < |form.steps| ==> forall g :: g != field ==>
      StepFieldOf(r.steps[index], g) == StepFieldOf(form.steps[index], g)
    ensures r.(steps := form.steps) == form
  {
    form.(steps := MapAt(form.steps, index, row => SetStepField(row, field, value)))
  }

  /** Adding a row and removing the last row restores the form. */
  lemma AddThenRemoveLast(form: RecipeForm)
    ensures RemoveIngredient(AddIngredient(form), |form.ingredients|) == form
    ensures RemoveStep(AddStep(form), |form.steps|) == form
  {
    assert AddIngredient(form).ingredients[..|form.ingredients|] == form.ingredients;
    assert AddStep(form).steps[..|form.steps|] == form.steps;
  }

  /** Typing a field's current text back into it changes nothing. */
  lemma UpdateWithSameValue(form: RecipeForm, index: int, field: IngredientField)
    requires 0 <= index < |form.ingredients|
    ensures UpdateIngredient(form, index, field, IngredientFieldOf(form.ingredients[index], field)) == form
  {
    var r := UpdateIngredient(form, index, field, IngredientFieldOf(form.ingredients[index], field));
    SetIngredientFieldToSame(form.ingredients[index], field);
    assert r.ingredients == form.ingredients;
  }

  /** `addTag`: the trimmed input is appended when it is not blank and not already a tag, and
      the input is then cleared; otherwise neither the form nor the input changes. */
  function AddTag(form: RecipeForm, newTag: string): (r: (RecipeForm, string))
    ensures var t := Trim(newTag);
      if t != "" && t !in form.tags
      then r.0.tags == form.tags + [t] && r.1 == ""
      else r.0 == form && r.1 == newTag
    ensures r.0.(tags := form.tags) == form
    ensures forall x :: x in r.0.tags ==> x in form.tags || x == Trim(newTag)
  {
    var t := Trim(newTag);
    if t != "" && t !in form.tags then (form.(tags := form.tags + [t]), "") else (form, newTag)
  }

  /** `removeTag(tag)`: every occurrence goes, the other tags stay in order. */
  function RemoveTag(form: RecipeForm, tag: string): (r: RecipeForm)
    ensures tag !in r.tags
    ensures forall x :: x != tag ==> (x in r.tags <==> x in form.tags)
    ensures Subseq(r.tags, form.tags)
    ensures r.(tags := form.tags) == form
  {
    FilterSubseq(form.tags, IsNot(tag));
    form.(tags := Without(form.tags, tag))
  }

  /** Tags never repeat: `addTag` keeps the list duplicate-free and never adds a blank tag. */
  lemma AddTagKeepsTagsDistinct(form: RecipeForm, newTag: string)
    requires NoDups(form.tags) && "" !in form.tags
    ensures NoDups(AddTag(form, newTag).0.tags) && "" !in AddTag(form, newTag).0.tags
  {
  }

  /** Adding a tag and removing it again restores the form. */
  lemma AddThenRemoveTag(form: RecipeForm, newTag: string)
    requires Trim(newTag) != "" && Trim(newTag) !in form.tags
    ensures RemoveTag(AddTag(form, newTag).0, Trim(newTag)) == form
  {
    var t := Trim(newTag);
    FilterAll(form.tags, IsNot(t));
    FilterSnoc(form.tags, t, IsNot(t));
  }

  /** Adding the same input twice adds it once. */
  lemma AddTagTwice(form: RecipeForm, newTag: string)
    ensures var (f1, _) := AddTag(form, newTag); AddTag(f1, newTag).0 == f1
  {
  }

  // ---------------------------------------------------------------------------
  // The page as a whole.

  /** What the user can do on the page. */
  datatype Action =
    | TypeTag(text: string)
    | AddTagClicked
    | RemoveTagClicked(tag: string)
    | AddIngredientClicked
    | RemoveIngredientClicked(index: int)
    | IngredientTyped(index: int, field: IngredientField, value: string)
    | AddStepClicked
    | RemoveStepClicked(index: int)
    | StepTyped(stepIndex: int, stepField: StepField, stepValue: string)

  /** One action on the page state. The remove buttons are disabled while their list has a
      single row, so a click on them then does nothing. */
  function Apply(form: RecipeForm, newTag: string, a: Action): (RecipeForm, string) {
    match a
    case TypeTag(text) => (form, text)
    case AddTagClicked => AddTag(form, newTag)
    case RemoveTagClicked(tag) => (RemoveTag(form, tag), newTag)
    case AddIngredientClicked => (AddIngredient(form), newTag)
    case RemoveIngredientClicked(i) =>
      (if |form.ingredients| == 1 then form else RemoveIngredient(form, i), newTag)
    case IngredientTyped(i, field, value) => (UpdateIngredient(form, i, field, value), newTag)
    case AddStepClicked => (AddStep(form), newTag)
    case RemoveStepClicked(i) => (if |form.steps| == 1 then form else RemoveStep(form, i), newTag)
    case StepTyped(i, field, value) => (UpdateStep(form, i, field, value), newTag)
  }

  /** What every reachable page state satisfies: at least one ingredient row and one step row,
      and distinct, non-blank tags. */
  predicate Consistent(form: RecipeForm) {
    |form.ingredients| >= 1 && |form.steps| >= 1 && NoDups(form.tags) && "" !in form.tags
  }

  /** The page opens consistent, and every action keeps it consistent. */
  lemma ActionsKeepConsistent(form: RecipeForm, newTag: string, a: Action)
    requires Consistent(form)
    ensures Consistent(InitialForm)
    ensures Consistent(Apply(form, newTag, a).0)
  {
    match a
    case AddTagClicked => AddTagKeepsTagsDistinct(form, newTag);
    case RemoveTagClicked(tag) =>
      var r := RemoveTag(form, tag).tags;
      FilterNoDups(form.tags, IsNot(tag));
    case _ =>
  }

  /** The page's state: the form and the tag input, replaced by every handler. */
  class Editor {
    var recipe: RecipeForm
    var newTag: string

    constructor ()
      ensures recipe == InitialForm && newTag == ""
      ensures Consistent(recipe)
    {
      recipe := InitialForm;
      newTag := "";
    }

    /** Handles one user action; the form stays consistent. */
    method Handle(a: Action)
      modifies this
      ensures (recipe, newTag) == Apply(old(recipe), old(newTag), a)
      ensures Consistent(old(recipe)) ==> Consistent(recipe)
    {
      if Consistent(recipe) {
        ActionsKeepConsistent(recipe, newTag, a);
      }
      var (r, t) := Apply(recipe, newTag, a);
      recipe, newTag := r, t;
    }
  }
}
