/** Reading workflow facts off Linear labels and native states (src/workflow-gate.ts, src/linear-actionable.ts). */
module Labels {
  import opened Prelude
  import opened Text

  datatype NativeState = NativeState(name: string, kind: string)

  /** The first label with the given (lower-case) prefix, in any letter case. */
  function FirstWithPrefix(labels: seq<string>, prefix: string): (r: Option<string>)
    ensures r.Some? ==> r.value in labels && StartsWithFolded(r.value, prefix)
    ensures r.None? <==> forall l :: l in labels ==> !StartsWithFolded(l, prefix)
  {
    if labels == [] then None
    else if StartsWithFolded(labels[0], prefix) then Some(labels[0])
    else FirstWithPrefix(labels[1..], prefix)
  }

  /** What follows the prefix of a label, lower-cased. */
  function IdAfter(prefix: string, l: Option<string>): Option<string>
    requires l.Some? ==> |prefix| <= |l.value|
  {
    if l.Some? then Some(Lower(l.value[|prefix|..])) else None
  }

  function WorkflowId(labels: seq<string>): Option<string> {
    IdAfter("wf:", FirstWithPrefix(labels, "wf:"))
  }

  /** The workflow state of an issue; with several `state:*` labels, the first one counts. */
  function CurrentState(labels: seq<string>): Option<string> {
    IdAfter("state:", FirstWithPrefix(labels, "state:"))
  }

  function WorkflowLabel(labels: seq<string>): Option<string> {
    FirstWithPrefix(labels, "wf:")
  }

  /** The body named by a `designated-approver:` label, if it names one. */
  function DesignatedApprover(labels: seq<string>): Option<string> {
    var l := FirstWithPrefix(labels, "designated-approver:");
    if l.None? then None
    else
      var body := Trim(l.value[|"designated-approver:"|..]);
      if body == "" then None else Some(body)
  }

  function StateLabel(state: string): string {
    "state:" + state
  }

  /** A label set with one label taken off. */
  function Without(labels: seq<string>, l: string): (r: seq<string>)
    ensures forall x :: x in r <==> x in labels && x != l
  {
    if labels == [] then [] else (if labels[0] == l then [] else [labels[0]]) + Without(labels[1..], l)
  }

  const TERMINAL_TYPES := {"completed", "canceled", "cancelled", "duplicate"}
  const TERMINAL_NAMES := {"done", "canceled", "cancelled", "duplicate"}

  /** Linear considers the issue finished, by the type or by the name of its native state. */
  predicate IsTerminalIssueState(state: Option<NativeState>) {
    state.Some? && (Lower(state.value.kind) in TERMINAL_TYPES || Lower(state.value.name) in TERMINAL_NAMES)
  }
}
