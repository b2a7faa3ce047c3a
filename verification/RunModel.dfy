/** The vocabulary shared by the runner and the run protocol. */
module RunModel {

  datatype Status =
    | Queued | Scanning | Indexing | Retrieving | Evaluating | Drafting | WaitingConfirmation
    | Completed | Failed | Cancelled

  datatype StepDef = Parse | Embed | Index | Retrieve | Rules | ModelGenerate | FileWrite

  const STEPS: nat := 5

  /** The fixed pipeline, counted from 1: the status shown while a step runs. */
  function StatusOf(step: nat): Status {
    match step
    case 1 => Scanning
    case 2 => Indexing
    case 3 => Retrieving
    case 4 => Evaluating
    case _ => Drafting
  }

  /** The tool a step invokes. */
  function ToolOf(step: nat): string {
    match step
    case 1 => "scan"
    case 2 => "index"
    case 3 => "retrieve"
    case 4 => "evaluate"
    case _ => "draft"
  }

  /** The timing phase a step is booked under. */
  function PhaseOf(step: nat): StepDef {
    match step
    case 1 => Parse
    case 2 => Index
    case 3 => Retrieve
    case _ => ModelGenerate
  }

  predicate Terminal(s: Status) {
    s == Completed || s == Failed || s == Cancelled
  }
}
