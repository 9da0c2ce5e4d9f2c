/** The four-step progress list both processing pages show
    (src/app/create/processing/page.tsx and app/create/processing/page.tsx):
    search, filter, organize, finalize, each pending, then processing, then
    completed. */
module Steps {

  datatype Status = Pending | Processing | Completed

  datatype StepId = Search | Filter | Organize | Finalize

  /** A step's id and status; its title, description, icon and the unused
      per-step `progress` field are display only. */
  datatype Step = Step(id: StepId, status: Status)

  const StepCount: nat := 4

  /** Where each step sits in the list. */
  function Position(id: StepId): nat {
    match id
    case Search => 0
    case Filter => 1
    case Organize => 2
    case Finalize => 3
  }

  /** The list the pages start from. */
  function InitialSteps(): (steps: seq<Step>)
    ensures |steps| == StepCount
    ensures forall i :: 0 <= i < |steps| ==> Position(steps[i].id) == i && steps[i].status == Pending
  {
    [Step(Search, Pending), Step(Filter, Pending), Step(Organize, Pending), Step(Finalize, Pending)]
  }

  /** `prev.map((s, i) => i === stepIndex ? {...s, status} : s)`. */
  function SetStatus(steps: seq<Step>, index: nat, status: Status): (r: seq<Step>)
    ensures |r| == |steps|
    ensures forall j :: 0 <= j < |r| ==> r[j].id == steps[j].id
    ensures index < |r| ==> r[index].status == status
    ensures forall j :: 0 <= j < |r| && j != index ==> r[j] == steps[j]
  {
    seq(|steps|, j requires 0 <= j < |steps| => if j == index then steps[j].(status := status) else steps[j])
  }

  /** The later of two updates to the same step wins; updates to different
      steps commute. */
  lemma SetStatusOverwrite(steps: seq<Step>, i: nat, j: nat, a: Status, b: Status)
    ensures i == j ==> SetStatus(SetStatus(steps, i, a), j, b) == SetStatus(steps, j, b)
    ensures i != j ==> SetStatus(SetStatus(steps, i, a), j, b) == SetStatus(SetStatus(steps, j, b), i, a)
  {
  }

  /** The value `setOverallProgress` receives at tick `k` (progress 10·k) of
      step `index`: `(index * 100 + progress) / steps.length`. */
  function TickProgress(index: nat, k: nat): (p: real)
    requires k <= 10
    ensures 25.0 * (index as real) <= p <= 25.0 * ((index + 1) as real)
    ensures k == 0 ==> p == 25.0 * (index as real)
    ensures k == 10 ==> p == 25.0 * ((index + 1) as real)
  {
    ((index * 100 + 10 * k) as real) / (StepCount as real)
  }
}
