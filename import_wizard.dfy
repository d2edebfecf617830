/**
 * The spreadsheet import dialog (components/excel-import-wizard.tsx): a state machine over
 * six steps with a progress percentage and the chosen file's name. The two simulated delays
 * (validation, import) and the delayed reset after closing are events the caller delivers;
 * the wizard counts how many of each are pending, and an event is delivered only while one
 * is pending.
 */
module ImportWizard {
  import opened Wrappers
  import opened Seqs

  datatype ImportStep = Upload | Validate | Map | Preview | Import | Complete

  /** The step indicators, in order; "complete" is not among them. */
  const Steps: seq<ImportStep> := [Upload, Validate, Map, Preview, Import]

  /** Position along the forward path, from 0 ("upload") to 5 ("complete"). */
  function Rank(step: ImportStep): (n: nat)
    ensures n <= 5
  {
    match step
    case Upload => 0
    case Validate => 1
    case Map => 2
    case Preview => 3
    case Import => 4
    case Complete => 5
  }

  /** Distinct steps have distinct ranks. */
  lemma RankInjective(s: ImportStep, t: ImportStep)
    requires Rank(s) == Rank(t)
    ensures s == t
  {
  }

  /** The progress each transition sets together with its step. */
  function ProgressOf(step: ImportStep): (p: int)
    ensures p == 20 * Rank(step)
    ensures 0 <= p <= 100
    ensures p == 100 <==> step == Complete
  {
    match step
    case Upload => 0
    case Validate => 20
    case Map => 40
    case Preview => 60
    case Import => 80
    case Complete => 100
  }

  /** Progress strictly grows along the forward path. */
  lemma ProgressIncreases(s: ImportStep, t: ImportStep)
    requires Rank(s) < Rank(t)
    ensures ProgressOf(s) < ProgressOf(t)
  {
  }

  /** The "Nästa"/"Stäng" button is shown outside "upload", "validate" and "import". */
  predicate NextVisible(step: ImportStep) {
    step != Upload && step != Validate && step != Import
  }

  /** The step `handleNext` moves to by itself; "complete" waits for the reset event. */
  function AfterNext(step: ImportStep): (r: ImportStep)
    ensures r != step <==> step == Map || step == Preview
    ensures r != step ==> Rank(r) == Rank(step) + 1
  {
    match step
    case Map => Preview
    case Preview => Import
    case _ => step
  }

  /** The button does something exactly where it is shown: `handleNext` changes the step or
      closes the dialog exactly in the steps where the button is visible. */
  lemma NextActsWhereVisible(step: ImportStep)
    ensures NextVisible(step) <==> AfterNext(step) != step || step == Complete
  {
  }

  /** `steps.findIndex((s) => s.id === step)`: -1 when absent. */
  function FindIndex(s: seq<ImportStep>, step: ImportStep): (i: int)
    ensures step in s ==> 0 <= i < |s| && s[i] == step
    ensures step !in s <==> i == -1
  {
    if step in s then FirstIndex(s, step) else -1
  }

  /** The counter "Steg n av 5" as written: `findIndex + 1`. */
  function StepNumber(step: ImportStep): (n: int)
    ensures 0 <= n <= |Steps|
    ensures n == 0 <==> step == Complete
    ensures step != Complete ==> n == Rank(step) + 1
  {
    assert Complete !in Steps;
    assert step != Complete ==> step == Steps[Rank(step)];
    FindIndex(Steps, step) + 1
  }

  /** Indicator `index` is drawn as done when the current step's index is past it. */
  predicate IndicatorDone(step: ImportStep, index: int) {
    FindIndex(Steps, step) > index
  }

  /** When the import is complete the counter reads "Steg 0 av 5" and no indicator is drawn
      as done. */
  lemma CompleteShowsNothingDone()
    ensures StepNumber(Complete) == 0
    ensures forall index :: 0 <= index < |Steps| ==> !IndicatorDone(Complete, index)
  {
  }

  /** The counter and indicators as evidently intended: "complete" is past every step. */
  function StepNumberIntended(step: ImportStep): (n: int)
    ensures 1 <= n <= |Steps|
    ensures step == Complete ==> n == |Steps|
    ensures step != Complete ==> n == StepNumber(step)
  {
    if step == Complete then |Steps| else StepNumber(step)
  }

  predicate IndicatorDoneIntended(step: ImportStep, index: int) {
    Rank(step) > index
  }

  /** The intended counter never decreases along the forward path, and at "complete" every
      indicator is done. */
  lemma IntendedDisplayMonotone(s: ImportStep, t: ImportStep)
    requires Rank(s) <= Rank(t)
    ensures StepNumberIntended(s) <= StepNumberIntended(t)
    ensures forall index :: 0 <= index < |Steps| ==> IndicatorDoneIntended(Complete, index)
    ensures forall index :: IndicatorDone(s, index) ==> IndicatorDoneIntended(s, index)
  {
  }

  class Wizard {
    var currentStep: ImportStep
    var progress: int
    var fileName: string
    /** Delayed events scheduled and not yet delivered. */
    var pendingValidation: nat
    var pendingImport: nat
    var pendingReset: nat

    /** The progress always belongs to the step, and "upload" never shows a file. */
    predicate Valid()
      reads this
    {
      progress == ProgressOf(currentStep) && (currentStep == Upload ==> fileName == "")
    }

    constructor ()
      ensures currentStep == Upload && progress == 0 && fileName == ""
      ensures pendingValidation == 0 && pendingImport == 0 && pendingReset == 0
      ensures Valid()
    {
      currentStep, progress, fileName := Upload, 0, "";
      pendingValidation, pendingImport, pendingReset := 0, 0, 0;
    }

    /** `handleFileUpload`: a chosen file moves to "validate" at 20% and schedules the
        validation; no file changes nothing. */
    method FileSelected(file: Option<string>)
      modifies this
      requires Valid()
      ensures Valid()
      ensures file.None? ==> currentStep == old(currentStep) && progress == old(progress)
      ensures file.None? ==> fileName == old(fileName) && pendingValidation == old(pendingValidation)
      ensures file.Some? ==> currentStep == Validate && progress == 20 && fileName == file.value
      ensures file.Some? ==> pendingValidation == old(pendingValidation) + 1
      ensures pendingImport == old(pendingImport) && pendingReset == old(pendingReset)
    {
      if file.Some? {
        fileName := file.value;
        currentStep := Validate;
        progress := 20;
        pendingValidation := pendingValidation + 1;
      }
    }

    /** The validation delay ends: "map" at 40%, whatever the step is by then. */
    method ValidationDone()
      modifies this
      requires Valid() && pendingValidation > 0
      ensures Valid()
      ensures currentStep == Map && progress == 40 && fileName == old(fileName)
      ensures pendingValidation == old(pendingValidation) - 1
      ensures pendingImport == old(pendingImport) && pendingReset == old(pendingReset)
    {
      currentStep := Map;
      progress := 40;
      pendingValidation := pendingValidation - 1;
    }

    /** `handleNext`: "map" goes to "preview" at 60%; "preview" goes to "import" at 80% and
        schedules the import; "complete" closes the dialog and schedules the reset; in the
        other steps nothing happens. */
    method HandleNext() returns (close: bool)
      modifies this
      requires Valid()
      ensures Valid()
      ensures close <==> old(currentStep) == Complete
      ensures currentStep == AfterNext(old(currentStep)) && progress == ProgressOf(currentStep)
      ensures fileName == old(fileName) && pendingValidation == old(pendingValidation)
      ensures pendingImport == old(pendingImport) + (if old(currentStep) == Preview then 1 else 0)
      ensures pendingReset == old(pendingReset) + (if old(currentStep) == Complete then 1 else 0)
    {
      close := false;
      match currentStep {
        case Map =>
          currentStep := Preview;
          progress := 60;
        case Preview =>
          currentStep := Import;
          progress := 80;
          pendingImport := pendingImport + 1;
        case Complete =>
          close := true;
          pendingReset := pendingReset + 1;
        case _ =>
      }
    }

    /** The import delay ends: "complete" at 100%. */
    method ImportDone()
      modifies this
      requires Valid() && pendingImport > 0
      ensures Valid()
      ensures currentStep == Complete && progress == 100 && fileName == old(fileName)
      ensures pendingImport == old(pendingImport) - 1
      ensures pendingValidation == old(pendingValidation) && pendingReset == old(pendingReset)
    {
      currentStep := Complete;
      progress := 100;
      pendingImport := pendingImport - 1;
    }

    /** The reset delay after closing ends: back to "upload" at 0% with no file. */
    method ResetDone()
      modifies this
      requires Valid() && pendingReset > 0
      ensures Valid()
      ensures currentStep == Upload && progress == 0 && fileName == ""
      ensures pendingReset == old(pendingReset) - 1
      ensures pendingValidation == old(pendingValidation) && pendingImport == old(pendingImport)
    {
      currentStep := Upload;
      progress := 0;
      fileName := "";
      pendingReset := pendingReset - 1;
    }
  }

  /** A whole import, from a fresh dialog to closing it and the reset, with a click on
      every button the dialog shows on the way (none at the import step): the step follows the
      forward path, the progress climbs 0, 20, 40, 60, 80, 100, and the dialog ends as it
      started. */
  method HappyPath(name: string) returns (w: Wizard)
    ensures fresh(w) && w.Valid()
    ensures w.currentStep == Upload && w.progress == 0 && w.fileName == ""
    ensures w.pendingValidation == 0 && w.pendingImport == 0 && w.pendingReset == 0
  {
    w := new Wizard();
    w.FileSelected(Some(name));
    assert w.progress == 20;
    w.ValidationDone();
    var close := w.HandleNext();
    assert w.currentStep == Preview && w.progress == 60 && !close;
    close := w.HandleNext();
    assert w.currentStep == Import && w.progress == 80 && !close;
    w.ImportDone();
    assert w.progress == 100;
    close := w.HandleNext();
    assert close && w.currentStep == Complete;
    w.ResetDone();
  }
}
