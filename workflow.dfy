/** `WorkflowManager`: the five-step pipeline (curve selection, optimisation, offset,
    validation, scene integration) with its current step, its overall status and the
    curves selected in the scene. The scene itself is reduced to two inputs: whether the
    host application is available, and which object names exist in it. */
module Workflow {
  import opened Wrappers
  import opened Configuration
  import Polyline

  /** `WorkflowStep.status`: `'pending'`, `'running'`, `'completed'` or `'failed'`. */
  datatype StepStatus = StepPending | StepRunning | StepCompleted | StepFailed

  /** `workflow_status`: `'idle'`, `'running'`, `'completed'` or `'failed'`. */
  datatype Status = Idle | Running | Completed | Failed

  /** `WorkflowStep`: a name, a description, a status, a parameter dictionary and the
      result of its last execution (`Null` for `None`). */
  datatype Step = Step(name: string, description: string, status: StepStatus,
                       parameters: map<string, Value>, result: Value)

  /** `_initialize_workflow_steps`: the five steps, all pending, with their default
      parameters. */
  function InitialSteps(): (s: seq<Step>)
    ensures |s| == 5
    ensures forall i :: 0 <= i < |s| ==> s[i].status == StepPending && s[i].result == Null
  {
    [ Step("Maya Curve Selection", "Maya 씬에서 작업할 커브 선택 및 검증",
           StepPending, map[], Null),
      Step("Input Curve Optimization", "inputCurveOptimizer를 사용한 커브 최적화",
           StepPending,
           map["optimization_level" := Str("medium"), "smoothing_factor" := Real(0.5),
               "simplification_threshold" := Real(0.01), "preserve_shape" := Bool(true)],
           Null),
      Step("Offset Curve Generation", "offsetCurveDeformer를 사용한 오프셋 커브 생성",
           StepPending,
           map["offset_distance" := Real(1.0), "offset_direction" := Str("both"),
               "smooth_curves" := Bool(true), "corner_handling" := Str("round")],
           Null),
      Step("Result Validation", "결과 커브 검증 및 품질 확인",
           StepPending,
           map["check_intersections" := Bool(true), "validate_topology" := Bool(true)],
           Null),
      Step("Maya Integration", "최종 결과를 Maya 씬에 통합",
           StepPending,
           map["create_new_layer" := Bool(true), "apply_materials" := Bool(false),
               "organize_hierarchy" := Bool(true)],
           Null) ]
  }

  /** A step as `get_workflow_status` reports it: everything but its result. */
  datatype StepReport = StepReport(name: string, description: string, status: StepStatus,
                                   parameters: map<string, Value>)

  /** The dictionary `get_workflow_status` returns, without the scene data. */
  datatype StatusReport = StatusReport(status: Status, currentStep: int, totalSteps: int,
                                       selectedCurves: seq<string>, steps: seq<StepReport>)

  /** The names of `names` that exist in the scene, in their order (the validation loop of
      `select_curves_from_maya`). */
  function Existing(names: seq<string>, scene: set<string>): (r: seq<string>)
    ensures |r| <= |names|
    ensures forall i :: 0 <= i < |r| ==> r[i] in scene
    ensures forall x :: x in r <==> x in names && x in scene
  {
    if |names| == 0 then []
    else if names[|names| - 1] in scene then Existing(names[..|names| - 1], scene) + [names[|names| - 1]]
    else Existing(names[..|names| - 1], scene)
  }

  /** The existing names form a subsequence of the requested ones: each sits at a later
      position of `names` than the one before it. */
  lemma {:induction false} ExistingIsSubsequence(names: seq<string>, scene: set<string>)
    returns (idx: seq<nat>)
    ensures Polyline.Embeds(Existing(names, scene), names, idx)
    ensures Polyline.IsSubsequence(Existing(names, scene), names)
    decreases |names|
  {
    if |names| == 0 {
      idx := [];
    } else {
      var init := names[..|names| - 1];
      var last := names[|names| - 1];
      idx := ExistingIsSubsequence(init, scene);
      assert names == init + [last];
      if last in scene {
        Polyline.MatchLastKeepsOrder(Existing(init, scene), init, last, idx);
        idx := idx + [|init|];
      } else {
        Polyline.AppendKeepsOrder(Existing(init, scene), init, last, idx);
      }
    }
    assert Polyline.Embeds(Existing(names, scene), names, idx);
  }

  /** The manager's state. */
  class WorkflowManager {
    var steps: seq<Step>
    var currentStepIndex: nat
    var workflowStatus: Status
    var selectedCurves: seq<string>
    /** `MAYA_AVAILABLE`, fixed when the module is imported. */
    const mayaAvailable: bool

    /** The steps are the five initial ones, in order, and the current index points at
        one of them. */
    ghost predicate Valid()
      reads this
    {
      |steps| == 5 && currentStepIndex < |steps| &&
      forall i :: 0 <= i < |steps| ==> steps[i].name == InitialSteps()[i].name
    }

    /** `__init__`: five pending steps, index 0, status idle, no curves selected. */
    constructor (mayaAvailable: bool)
      ensures Valid()
      ensures steps == InitialSteps() && currentStepIndex == 0 && workflowStatus == Idle
      ensures selectedCurves == [] && this.mayaAvailable == mayaAvailable
    {
      this.mayaAvailable := mayaAvailable;
      steps := InitialSteps();
      currentStepIndex := 0;
      workflowStatus := Idle;
      selectedCurves := [];
    }

    /** `get_workflow_status`. */
    method GetWorkflowStatus() returns (r: StatusReport)
      ensures r.status == workflowStatus && r.currentStep == currentStepIndex
      ensures r.totalSteps == |steps| && r.selectedCurves == selectedCurves
      ensures |r.steps| == |steps|
      ensures forall i :: 0 <= i < |steps| ==>
        r.steps[i] == StepReport(steps[i].name, steps[i].description, steps[i].status, steps[i].parameters)
    {
      var reports: seq<StepReport> := [];
      for i := 0 to |steps|
        invariant |reports| == i
        invariant forall k :: 0 <= k < i ==>
          reports[k] == StepReport(steps[k].name, steps[k].description, steps[k].status, steps[k].parameters)
      {
        var step := steps[i];
        reports := reports + [StepReport(step.name, step.description, step.status, step.parameters)];
      }
      r := StatusReport(workflowStatus, currentStepIndex, |steps|, selectedCurves, reports);
    }

    /** `update_step_parameters`: merges `parameters` into the dictionary of step `i`
        (later keys win), and reports whether `i` is a step index. */
    method UpdateStepParameters(i: int, parameters: map<string, Value>) returns (ok: bool)
      modifies this
      ensures ok <==> 0 <= i < |old(steps)|
      ensures |steps| == |old(steps)|
      ensures forall j :: 0 <= j < |steps| && j != i ==> steps[j] == old(steps[j])
      ensures ok ==> steps[i] == old(steps[i]).(parameters := old(steps[i].parameters) + parameters)
      ensures currentStepIndex == old(currentStepIndex) && workflowStatus == old(workflowStatus)
      ensures selectedCurves == old(selectedCurves)
      ensures old(Valid()) ==> Valid()
    {
      if 0 <= i < |steps| {
        steps := steps[i := steps[i].(parameters := steps[i].parameters + parameters)];
        return true;
      }
      return false;
    }

    /** `select_curves_from_maya`: keeps the names that exist in the scene, in order;
        when there are some, records them and their count in step 0's parameters. Without
        the host application nothing changes and the answer is `False`. */
    method SelectCurves(curveNames: seq<string>, scene: set<string>) returns (ok: bool)
      modifies this
      ensures ok <==> mayaAvailable && |Existing(curveNames, scene)| > 0
      ensures selectedCurves == if mayaAvailable then Existing(curveNames, scene) else old(selectedCurves)
      ensures |steps| == |old(steps)|
      ensures ok && |steps| > 0 ==>
        steps[0] == old(steps[0]).(parameters := old(steps[0].parameters) + SelectionParameters(selectedCurves))
      ensures forall j :: 0 <= j < |steps| && (j != 0 || !ok) ==> steps[j] == old(steps[j])
      ensures currentStepIndex == old(currentStepIndex) && workflowStatus == old(workflowStatus)
      ensures old(Valid()) ==> Valid()
    {
      if !mayaAvailable {
        return false;
      }
      var valid: seq<string> := [];
      for k := 0 to |curveNames|
        invariant valid == Existing(curveNames[..k], scene)
      {
        assert curveNames[..k + 1][..k] == curveNames[..k];
        if curveNames[k] in scene {
          valid := valid + [curveNames[k]];
        }
      }
      assert curveNames[..|curveNames|] == curveNames;
      selectedCurves := valid;
      if |valid| > 0 {
        var _ := UpdateStepParameters(0, SelectionParameters(valid));
      }
      return |valid| > 0;
    }

    /** `start_workflow`: refuses, changing nothing, when the host application is present
        and no curve is selected; otherwise the workflow runs from step 0. */
    method StartWorkflow() returns (ok: bool)
      modifies this
      ensures ok <==> !(mayaAvailable && |selectedCurves| == 0)
      ensures ok ==> workflowStatus == Running && currentStepIndex == 0
      ensures !ok ==> workflowStatus == old(workflowStatus) && currentStepIndex == old(currentStepIndex)
      ensures steps == old(steps) && selectedCurves == old(selectedCurves)
      ensures old(Valid()) ==> Valid()
    {
      if mayaAvailable && |selectedCurves| == 0 {
        return false;
      }
      workflowStatus := Running;
      currentStepIndex := 0;
      return true;
    }

    /** `execute_current_step`: with no current step, `False` and no change; otherwise
        only the current step changes, ending completed with the body's result or failed
        with the text of the exception the body raised (`outcome`). */
    method ExecuteCurrentStep(outcome: Result<Value, string>) returns (ok: bool)
      modifies this
      ensures ok <==> currentStepIndex < |steps| && outcome.Ok?
      ensures |steps| == |old(steps)|
      ensures forall j :: 0 <= j < |steps| && j != currentStepIndex ==> steps[j] == old(steps[j])
      ensures currentStepIndex == old(currentStepIndex) && workflowStatus == old(workflowStatus)
      ensures currentStepIndex < |steps| ==> steps[currentStepIndex] == Executed(old(steps[currentStepIndex]), outcome)
      ensures selectedCurves == old(selectedCurves)
      ensures old(Valid()) ==> Valid()
      ensures old(Valid()) ==> (ok <==> outcome.Ok?)
    {
      if currentStepIndex >= |steps| {
        return false;
      }
      var i := currentStepIndex;
      var step := steps[i].(status := StepRunning);
      match outcome {
        case Ok(v) =>
          step := step.(status := StepCompleted, result := v);
          ok := true;
        case Err(e) =>
          step := step.(status := StepFailed, result := Str(e));
          ok := false;
      }
      steps := steps[i := step];
    }

    /** `next_step`: moves to the next step while there is one; at the last step the
        workflow is completed and the index stays. */
    method NextStep() returns (ok: bool)
      modifies this
      ensures ok <==> old(currentStepIndex) < |steps| - 1
      ensures ok ==> currentStepIndex == old(currentStepIndex) + 1 && workflowStatus == old(workflowStatus)
      ensures !ok ==> currentStepIndex == old(currentStepIndex) && workflowStatus == Completed
      ensures steps == old(steps) && selectedCurves == old(selectedCurves)
      ensures old(Valid()) ==> Valid()
      ensures old(Valid()) ==> (ok <==> old(currentStepIndex) < 4) && currentStepIndex < 5
    {
      if currentStepIndex < |steps| - 1 {
        currentStepIndex := currentStepIndex + 1;
        return true;
      }
      workflowStatus := Completed;
      return false;
    }

    /** `reset_workflow`: status idle, index 0, every step pending with no result and its
        parameters kept. */
    method ResetWorkflow()
      modifies this
      ensures workflowStatus == Idle && currentStepIndex == 0
      ensures |steps| == |old(steps)|
      ensures forall j :: 0 <= j < |steps| ==> steps[j] == old(steps[j]).(status := StepPending, result := Null)
      ensures selectedCurves == old(selectedCurves)
      ensures old(Valid()) ==> Valid()
    {
      workflowStatus := Idle;
      currentStepIndex := 0;
      var reset: seq<Step> := [];
      for j := 0 to |steps|
        invariant |reset| == j
        invariant forall k :: 0 <= k < j ==> reset[k] == steps[k].(status := StepPending, result := Null)
      {
        reset := reset + [steps[j].(status := StepPending, result := Null)];
      }
      steps := reset;
    }
  }

  /** A step after its body ran: completed with the body's result, or failed with the
      text of the exception the body raised. */
  function Executed(step: Step, outcome: Result<Value, string>): (r: Step)
    ensures r.name == step.name && r.parameters == step.parameters
    ensures r.status == StepCompleted <==> outcome.Ok?
    ensures r.status == StepFailed <==> outcome.Err?
  {
    match outcome
    case Ok(v) => step.(status := StepCompleted, result := v)
    case Err(e) => step.(status := StepFailed, result := Str(e))
  }

  /** The entries `select_curves_from_maya` merges into step 0. */
  function SelectionParameters(curves: seq<string>): (r: map<string, Value>)
    ensures r.Keys == {"selected_curves", "curve_count"}
    ensures r["curve_count"] == Int(|curves|)
  {
    map["selected_curves" := List(seq(|curves|, i requires 0 <= i < |curves| => Str(curves[i]))),
        "curve_count" := Int(|curves|)]
  }
}
