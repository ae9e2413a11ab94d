/**
 The progress panel shown while documents are processed
 (src/components/resume-builder/processing-progress.tsx): the percentage
 bar and the state of each of the six steps.
 */
module ProcessingProgress {
  import opened Base

  /** The number of steps shown. */
  const StepCount: nat := 6

  /** The step labels, in order. */
  function StepLabels(lang: Language): (labels: seq<string>)
    ensures |labels| == StepCount
  {
    match lang
    case En => ["Preparing files...", "Uploading documents...", "Scanning content...",
                "Analyzing information...", "Generating CV & Cover Letter...", "Complete!"]
    case Tp => ["Redim ol fayl...", "Putim ol dokumen...", "Lukim ol samting...",
                "Skelim ol infomesen...", "Wokim CV na Cover Letter...", "Pinis!"]
  }

  datatype StepIcon = FileTextIcon | ScanIcon | BrainIcon | FileCheckIcon | CheckCircleIcon

  const StepIcons: seq<StepIcon> := [FileTextIcon, FileTextIcon, ScanIcon, BrainIcon, FileCheckIcon, CheckCircleIcon]

  /** Every label has an icon at the same position, in both languages. */
  lemma EveryStepHasIcon(lang: Language)
    ensures |StepLabels(lang)| == |StepIcons|
  {
  }

  /** `Math.min((currentStep / 5) * 100, 100)`. */
  function Progress(currentStep: int): (p: real)
    ensures p <= 100.0
    ensures currentStep >= 5 ==> p == 100.0
    ensures 0 <= currentStep ==> 0.0 <= p
  {
    var raw := (currentStep as real / 5.0) * 100.0;
    if raw < 100.0 then raw else 100.0
  }

  /** For a whole step count the bar moves in twenty-percent jumps. */
  lemma ProgressInTwenties(k: nat)
    ensures Progress(k) == (if 20 * k < 100 then 20 * k else 100) as real
  {
    assert (k as real / 5.0) * 100.0 == (20 * k) as real;
  }

  /** How a step is drawn. */
  datatype StepState = Pending | Active | Complete

  /** `isActive` is checked first, then `isComplete`. */
  function StateOf(index: int, currentStep: int): (s: StepState)
    ensures s == Complete <==> index < currentStep
    ensures s == Active <==> index == currentStep
    ensures s == Pending <==> index > currentStep
  {
    if index == currentStep then Active
    else if index < currentStep then Complete
    else Pending
  }

  /** The states of all six steps. */
  function StepStates(currentStep: int): (states: seq<StepState>)
    ensures |states| == StepCount
    ensures forall i :: 0 <= i < StepCount ==> states[i] == StateOf(i, currentStep)
  {
    seq(StepCount, i => StateOf(i, currentStep))
  }

  /** At most one step is active, and one is exactly when the current step
      is one of the six. */
  lemma OneActiveStep(currentStep: int)
    ensures forall i, j :: 0 <= i < j < StepCount ==> !(StepStates(currentStep)[i] == Active && StepStates(currentStep)[j] == Active)
    ensures (exists i :: 0 <= i < StepCount && StepStates(currentStep)[i] == Active) <==> 0 <= currentStep < StepCount
  {
    var states := StepStates(currentStep);
    if 0 <= currentStep < StepCount {
      assert states[currentStep] == Active;
    }
  }

  /** Steps before the active one are complete, steps after it pending. */
  lemma StatesAreOrdered(currentStep: int, i: nat, j: nat)
    requires i < j < StepCount
    ensures StepStates(currentStep)[j] == Complete ==> StepStates(currentStep)[i] == Complete
    ensures StepStates(currentStep)[i] == Pending ==> StepStates(currentStep)[j] == Pending
  {
  }
}
