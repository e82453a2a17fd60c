/** The uniform envelope every agent returns (`AgentResult`) and the helpers of the agent base
    class that build it or mask protected health information. */
module BaseAgent {
  import opened Values

  datatype AgentStatus = SUCCESS | FAILURE | PARTIAL | SKIPPED

  datatype AgentResult = AgentResult(
    status: AgentStatus,
    output: map<string, Value>,
    metadata: map<string, Value>,
    errors: seq<string>,
    warnings: seq<string>)
  {
    predicate IsSuccess() {
      status == SUCCESS
    }

    predicate IsFailure() {
      status == FAILURE
    }
  }

  /** Builds a result as the dataclass's post-init hook does: the metadata gains a "timestamp"
      taken from the clock `now` unless the caller supplied one. */
  function MakeResult(
    status: AgentStatus,
    output: map<string, Value>,
    metadata: map<string, Value>,
    errors: seq<string>,
    warnings: seq<string>,
    now: string): (r: AgentResult)
    ensures r.status == status && r.output == output
    ensures r.errors == errors && r.warnings == warnings
    ensures "timestamp" in r.metadata
    ensures r.metadata.Keys == metadata.Keys + {"timestamp"}
    ensures forall k :: k in metadata ==> r.metadata[k] == metadata[k]
    ensures "timestamp" !in metadata ==> r.metadata["timestamp"] == VStr(now)
  {
    var stamped := if "timestamp" in metadata then metadata else metadata["timestamp" := VStr(now)];
    AgentResult(status, output, stamped, errors, warnings)
  }

  /** `_create_success_result`: SUCCESS with the given output and no errors or warnings. */
  function SuccessResult(output: map<string, Value>, metadata: map<string, Value>, now: string): (r: AgentResult)
    ensures r.IsSuccess() && !r.IsFailure()
    ensures r.output == output && r.errors == [] && r.warnings == []
    ensures forall k :: k in metadata ==> k in r.metadata && r.metadata[k] == metadata[k]
  {
    MakeResult(SUCCESS, output, metadata, [], [], now)
  }

  /** `_create_failure_result`: FAILURE whose only error is `error`. An omitted output is the
      empty dictionary, which callers express by passing `map[]`. */
  function FailureResult(error: string, output: map<string, Value>, metadata: map<string, Value>, now: string): (r: AgentResult)
    ensures r.IsFailure() && !r.IsSuccess()
    ensures r.errors == [error] && r.warnings == []
    ensures r.output == output
    ensures forall k :: k in metadata ==> k in r.metadata && r.metadata[k] == metadata[k]
  {
    MakeResult(FAILURE, output, metadata, [error], [], now)
  }

  const PhiMask := "[PHI PROTECTED]"

  /** `_protect_phi`: any non-empty text is replaced by the mask; the empty text is kept. */
  function ProtectPhi(data: string): (r: string)
    ensures data == [] ==> r == []
    ensures data != [] ==> r == PhiMask
  {
    if data == [] then data else PhiMask
  }
}
