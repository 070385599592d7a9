/** Saga definitions: an ordered list of steps around at most one point of no return. */
module SagaDefinition {
  import opened Common

  datatype StepKind = Compensatable | Pivot | Retriable

  datatype Step = Step(name: string, kind: StepKind)

  datatype Definition = Definition(name: string, steps: seq<Step>)

  datatype DefinitionError =
    | NoSteps
    | DuplicateStep(step: string)
    | ManyPivots
    | BeforePivot(step: string)
    | AfterPivot(step: string)

  predicate DistinctNames(steps: seq<Step>) {
    forall i, j :: 0 <= i < j < |steps| ==> steps[i].name != steps[j].name
  }

  /** The step at `p` is the pivot (or `p` is past the end), with the right kinds around it. */
  predicate SplitAt(steps: seq<Step>, p: int) {
    && 0 <= p <= |steps|
    && (forall i :: 0 <= i < p ==> steps[i].kind == Compensatable)
    && (p < |steps| ==> steps[p].kind == Pivot)
    && (forall i :: p < i < |steps| ==> steps[i].kind == Retriable)
  }

  /** The shape a saga may have: compensatable steps, then optionally a pivot and retriable steps. */
  ghost predicate WellFormed(d: Definition) {
    && 0 < |d.steps|
    && DistinctNames(d.steps)
    && exists p :: SplitAt(d.steps, p)
  }

  lemma TwoPivotsDoNotSplit(steps: seq<Step>, i: int, j: int)
    requires 0 <= i < j < |steps| && steps[i].kind == steps[j].kind == Pivot
    ensures !exists p :: SplitAt(steps, p)
  {
    if p :| SplitAt(steps, p) {
      assert false;
    }
  }

  lemma NoSplitBefore(steps: seq<Step>, boundary: int, k: int)
    requires 0 <= k < boundary <= |steps| && steps[k].kind != Compensatable
    requires forall i :: 0 <= i < boundary ==> steps[i].kind != Pivot
    requires boundary < |steps| ==> steps[boundary].kind == Pivot
    ensures !exists p :: SplitAt(steps, p)
  {
    if p :| SplitAt(steps, p) {
      assert false;
    }
  }

  lemma NoSplitAfter(steps: seq<Step>, boundary: int, k: int)
    requires 0 <= boundary < k < |steps| && steps[k].kind != Retriable && steps[boundary].kind == Pivot
    ensures !exists p :: SplitAt(steps, p)
  {
    if p :| SplitAt(steps, p) {
      assert false;
    }
  }

  /** The first name already seen, if any. */
  method FirstDuplicate(steps: seq<Step>) returns (duplicate: Option<string>)
    ensures duplicate.None? <==> DistinctNames(steps)
    ensures duplicate.Some? ==> exists i, j :: 0 <= i < j < |steps| && steps[i].name == steps[j].name == duplicate.value
  {
    var seen: set<string> := {};
    for k := 0 to |steps|
      invariant DistinctNames(steps[..k])
      invariant forall s :: s in seen <==> exists i :: 0 <= i < k && steps[i].name == s
    {
      if steps[k].name in seen {
        return Some(steps[k].name);
      }
      assert forall i :: 0 <= i < k ==> steps[i].name in seen;
      seen := seen + {steps[k].name};
    }
    assert steps[..|steps|] == steps;
    return None;
  }

  /** How many pivots there are, and where the first is. */
  method FindPivots(steps: seq<Step>) returns (pivots: nat, boundary: nat)
    ensures boundary <= |steps| && (pivots == 0 <==> boundary == |steps|)
    ensures forall i :: 0 <= i < boundary ==> steps[i].kind != Pivot
    ensures pivots > 0 ==> steps[boundary].kind == Pivot
    ensures pivots == 1 ==> forall i :: boundary < i < |steps| ==> steps[i].kind != Pivot
    ensures pivots > 1 ==> exists j :: boundary < j < |steps| && steps[j].kind == Pivot
  {
    pivots, boundary := 0, |steps|;
    for k := 0 to |steps|
      invariant pivots == 0 <==> boundary == |steps|
      invariant pivots > 0 ==> boundary < k && steps[boundary].kind == Pivot
      invariant forall i :: 0 <= i < k && i < boundary ==> steps[i].kind != Pivot
      invariant pivots == 1 ==> forall i :: boundary < i < k ==> steps[i].kind != Pivot
      invariant pivots > 1 ==> exists j :: boundary < j < k && steps[j].kind == Pivot
    {
      if steps[k].kind == Pivot {
        if pivots == 0 {
          boundary := k;
        }
        pivots := pivots + 1;
      }
    }
  }

  /**
   * Accepts exactly the well-formed definitions, and refuses the others with the first
   * of its checks that fails.
   */
  method DefineSaga(name: string, steps: seq<Step>) returns (r: Result<Definition, DefinitionError>)
    ensures r.Ok? ==> r.value == Definition(name, steps)
    ensures r.Ok? <==> WellFormed(Definition(name, steps))
    ensures r.Err? && r.error.NoSteps? <==> steps == []
    ensures r.Err? && r.error.DuplicateStep? <==> !DistinctNames(steps)
    ensures r.Err? && r.error.DuplicateStep? ==>
              exists i, j :: 0 <= i < j < |steps| && steps[i].name == steps[j].name == r.error.step
    ensures r.Err? && r.error.ManyPivots? <==>
              DistinctNames(steps) && exists i, j :: 0 <= i < j < |steps| && steps[i].kind == steps[j].kind == Pivot
    ensures r.Err? && r.error.BeforePivot? ==>
              exists i :: 0 <= i < |steps| && steps[i].name == r.error.step && steps[i].kind != Compensatable
                          && forall j :: 0 <= j < i ==> steps[j].kind == Compensatable
    ensures r.Err? && r.error.AfterPivot? ==>
              exists p, i :: 0 <= p < i < |steps| && steps[p].kind == Pivot && steps[i].name == r.error.step && steps[i].kind == Compensatable
  {
    if |steps| == 0 {
      return Err(NoSteps);
    }

    var duplicate := FirstDuplicate(steps);
    if duplicate.Some? {
      return Err(DuplicateStep(duplicate.value));
    }

    var pivots, boundary := FindPivots(steps);
    if pivots > 1 {
      var j :| boundary < j < |steps| && steps[j].kind == Pivot;
      assert steps[boundary].kind == steps[j].kind == Pivot;
      TwoPivotsDoNotSplit(steps, boundary, j);
      return Err(ManyPivots);
    }

    for k := 0 to |steps|
      invariant forall i :: 0 <= i < k && i < boundary ==> steps[i].kind == Compensatable
      invariant forall i :: boundary < i < k ==> steps[i].kind == Retriable
    {
      if k < boundary && steps[k].kind != Compensatable {
        NoSplitBefore(steps, boundary, k);
        return Err(BeforePivot(steps[k].name));
      }
      if k > boundary && steps[k].kind != Retriable {
        NoSplitAfter(steps, boundary, k);
        return Err(AfterPivot(steps[k].name));
      }
    }
    assert SplitAt(steps, boundary);
    return Ok(Definition(name, steps));
  }

  /**
   * The module comment of the source gives the shape as `compensatable* pivot? retriable*`.
   * The code is stricter: without a pivot, a retriable step is refused.
   */
  lemma RetriableNeedsPivot(d: Definition, i: int)
    requires 0 <= i < |d.steps| && d.steps[i].kind == Retriable
    requires forall k :: 0 <= k < |d.steps| ==> d.steps[k].kind != Pivot
    ensures !WellFormed(d)
  {
    if p :| SplitAt(d.steps, p) {
      assert false;
    }
  }
}
