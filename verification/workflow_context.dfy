/** The shared record a workflow's steps read and write: its status machine, the per-step
    results, workflow-level metadata and the accumulated errors, with the dictionary form the
    record is serialised to and restored from. */
module Workflow {
  import Wrappers
  import opened Values

  /** `WorkflowStatus`. */
  datatype Status = Pending | Running | Success | Failure | Aborted

  /** The enum member's `.value`. */
  function StatusName(s: Status): string {
    match s
    case Pending => "pending"
    case Running => "running"
    case Success => "success"
    case Failure => "failure"
    case Aborted => "aborted"
  }

  /** `WorkflowStatus(name)`: the member with that value; absent where the lookup raises
      `ValueError`. */
  function StatusNamed(name: string): (r: Wrappers.Option<Status>)
    ensures r.Some? ==> StatusName(r.value) == name
  {
    if name == "pending" then Wrappers.Some(Pending)
    else if name == "running" then Wrappers.Some(Running)
    else if name == "success" then Wrappers.Some(Success)
    else if name == "failure" then Wrappers.Some(Failure)
    else if name == "aborted" then Wrappers.Some(Aborted)
    else Wrappers.None
  }

  /** Looking a status up by name finds exactly the member carrying that name. */
  lemma StatusNamedIffName(name: string, s: Status)
    ensures StatusNamed(name) == Wrappers.Some(s) <==> StatusName(s) == name
  {
  }

  /** `WorkflowContext` without its wall-clock timestamps. */
  datatype Context = Context(
    workflowId: string,
    inputData: map<string, Value>,
    status: Status,
    stepResults: map<string, Value>,
    metadata: map<string, Value>,
    errors: seq<string>)

  /** `is_complete`: the workflow has reached one of its terminal statuses. */
  predicate IsComplete(c: Context) {
    c.status in {Success, Failure, Aborted}
  }

  /** `is_success`. */
  predicate IsSuccess(c: Context) {
    c.status == Success
  }

  /** `has_errors`. */
  predicate HasErrors(c: Context) {
    |c.errors| > 0
  }

  /** Only pending and running workflows are still in progress, and a successful one is
      complete. */
  lemma CompleteIffNotInProgress(c: Context)
    ensures IsComplete(c) <==> c.status != Pending && c.status != Running
    ensures IsSuccess(c) ==> IsComplete(c)
  {
  }

  /** `WorkflowContext(workflow_id, input_data)`: a fresh context is pending, not complete,
      and has no results, metadata or errors. */
  function New(workflowId: string, inputData: map<string, Value>): (c: Context)
    ensures c.workflowId == workflowId && c.inputData == inputData
    ensures c.status == Pending && !IsComplete(c) && !HasErrors(c)
    ensures c.stepResults == map[] && c.metadata == map[]
  {
    Context(workflowId, inputData, Pending, map[], map[], [])
  }

  /** `update_step_result`: the step's entry becomes `result`; nothing else changes. */
  function UpdateStepResult(c: Context, stepName: string, result: Value): (r: Context)
    ensures r.stepResults.Keys == c.stepResults.Keys + {stepName}
    ensures r.(stepResults := c.stepResults) == c
  {
    c.(stepResults := c.stepResults[stepName := result])
  }

  /** `get_step_result`: the stored result, or `None`. */
  function GetStepResult(c: Context, stepName: string): (v: Value)
    ensures stepName !in c.stepResults ==> v == VNull
  {
    Get(c.stepResults, stepName)
  }

  /** Reading a step's result back returns what was last stored under that name; the other
      steps' results are as before. */
  lemma UpdateThenGet(c: Context, stepName: string, result: Value, other: string)
    ensures GetStepResult(UpdateStepResult(c, stepName, result), stepName) == result
    ensures other != stepName ==>
      GetStepResult(UpdateStepResult(c, stepName, result), other) == GetStepResult(c, other)
  {
  }

  /** `add_error`: exactly one entry is appended at the end, after which the context has
      errors; nothing else changes. */
  function AddError(c: Context, error: string): (r: Context)
    ensures |r.errors| == |c.errors| + 1 && r.errors[..|c.errors|] == c.errors
    ensures r.errors[|c.errors|] == error
    ensures HasErrors(r)
    ensures r.(errors := c.errors) == c
  {
    c.(errors := c.errors + [error])
  }

  /** `set_status`. */
  function SetStatus(c: Context, status: Status): (r: Context)
    ensures r.status == status && r.(status := c.status) == c
  {
    c.(status := status)
  }

  /** `add_metadata`: the key's entry becomes `value`; nothing else changes. */
  function AddMetadata(c: Context, key: string, value: Value): (r: Context)
    ensures Get(r.metadata, key) == value
    ensures forall k :: k != key ==> Get(r.metadata, k) == Get(c.metadata, k)
    ensures r.(metadata := c.metadata) == c
  {
    c.(metadata := c.metadata[key := value])
  }

  /** The error list as stored in a dictionary. */
  function ErrorsValue(errors: seq<string>): (v: Value)
    ensures v.VList? && |v.items| == |errors|
  {
    VList(seq(|errors|, i requires 0 <= i < |errors| => VStr(errors[i])))
  }

  /** Reads an error list back; absent unless it is a list of strings. */
  function ErrorsOf(v: Value): (r: Wrappers.Option<seq<string>>)
    ensures r.Some? ==> v.VList? && |r.value| == |v.items|
  {
    if v.VList? && forall i :: 0 <= i < |v.items| ==> v.items[i].VStr? then
      Wrappers.Some(seq(|v.items|, i requires 0 <= i < |v.items| => v.items[i].s))
    else Wrappers.None
  }

  lemma ErrorsRoundTrip(errors: seq<string>)
    ensures ErrorsOf(ErrorsValue(errors)) == Wrappers.Some(errors)
  {
    var back := ErrorsOf(ErrorsValue(errors));
    assert back.value == errors;
  }

  /** `to_dict()`, without the timestamps. */
  function ToDict(c: Context): (d: map<string, Value>)
    ensures d.Keys == {"workflow_id", "status", "input_data", "step_results", "metadata", "errors"}
    ensures d["status"] == VStr(StatusName(c.status))
  {
    map[
      "workflow_id" := VStr(c.workflowId),
      "status" := VStr(StatusName(c.status)),
      "input_data" := VMap(c.inputData),
      "step_results" := VMap(c.stepResults),
      "metadata" := VMap(c.metadata),
      "errors" := ErrorsValue(c.errors)]
  }

  /** `WorkflowContext.from_dict(data)`: absent where Python raises (a missing "workflow_id" or
      "input_data", a status that names no member) and where a field would not have its
      declared type. A missing status reads as pending, and missing results, metadata or errors
      as empty. Timestamps are not modelled, so a malformed "created_at" or "updated_at" is not
      among the failures. */
  function FromDict(data: map<string, Value>): (r: Wrappers.Option<Context>)
    ensures "workflow_id" !in data || "input_data" !in data ==> r.None?
    ensures r.Some? && "status" !in data ==> r.value.status == Pending
    ensures r.Some? && "errors" !in data ==> r.value.errors == []
    ensures r.Some? && "status" in data ==> data["status"] == VStr(StatusName(r.value.status))
  {
    var status := if "status" in data then data["status"] else VStr("pending");
    var results := if "step_results" in data then data["step_results"] else VMap(map[]);
    var metadata := if "metadata" in data then data["metadata"] else VMap(map[]);
    var errors := if "errors" in data then data["errors"] else VList([]);
    if "workflow_id" !in data || "input_data" !in data then Wrappers.None
    else if !status.VStr? || StatusNamed(status.s).None? then Wrappers.None
    else if !data["workflow_id"].VStr? || !data["input_data"].VMap? then Wrappers.None
    else if !results.VMap? || !metadata.VMap? || ErrorsOf(errors).None? then Wrappers.None
    else
      Wrappers.Some(Context(data["workflow_id"].s, data["input_data"].fields, StatusNamed(status.s).value,
                            results.fields, metadata.fields, ErrorsOf(errors).value))
  }

  /** Serialising a context and restoring it gives back the same identifier, input, status,
      step results, metadata and errors. */
  lemma FromDictToDict(c: Context)
    ensures FromDict(ToDict(c)) == Wrappers.Some(c)
  {
    ErrorsRoundTrip(c.errors);
    StatusNamedIffName(StatusName(c.status), c.status);
  }
}
