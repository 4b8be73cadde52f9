/** The VM state-change attack: `Prepare` validates the chosen target and the
    action parameter and fills the attack state; `Start` sends exactly one
    state-change request to the compute API, recorded here as an operation log. */
module StateAction {
  import opened Wrappers

  /** The attack state carried from `Prepare` to `Start`. */
  datatype State = State(projectId: string, vmName: string, zone: string, action: string)

  /** The state a fresh attack starts from. */
  const EmptyState: State := State("", "", "", "")

  /** An extension error: a title and, when a Go error was wrapped, its text. */
  datatype ExtError = ExtError(title: string, detail: Option<string>)

  /** The four state changes the compute API offers. */
  datatype Operation = Reset | Stop | Delete | Suspend

  /** One request sent to the compute API. */
  datatype ClientCall = ClientCall(op: Operation, zone: string, project: string, instance: string)

  const VmNameKey: string := "gcp-vm.name"
  const ZoneKey: string := "gcp.zone"
  const ProjectIdKey: string := "gcp.project.id"

  const MissingActionTitle: string := "Missing attack action parameter."
  const ClientInitFailedTitle: string := "Failed to initialize gcp client"

  /** The error title for a target lacking a required attribute. */
  function MissingAttributeTitle(key: string): string {
    "Target is missing the '" + key + "' attribute."
  }

  /** Reading a Go map of slices: an absent key reads as the empty list. */
  function Lookup(attributes: map<string, seq<string>>, key: string): (r: seq<string>)
    ensures key !in attributes ==> r == []
    ensures key in attributes ==> r == attributes[key]
  {
    if key in attributes then attributes[key] else []
  }

  /** The target carries at least one value for `key`. */
  predicate HasValue(attributes: map<string, seq<string>>, key: string) {
    key in attributes && |attributes[key]| > 0
  }

  /** Everything `Prepare` demands is there. */
  predicate Ready(attributes: map<string, seq<string>>, action: Option<string>) {
    && HasValue(attributes, VmNameKey)
    && HasValue(attributes, ZoneKey)
    && HasValue(attributes, ProjectIdKey)
    && action.Some?
  }

  datatype PrepareOutcome = PrepareOutcome(state: State, err: Option<ExtError>)

  /** The error `Prepare` reports for a required attribute without a value. */
  function MissingAttribute(key: string): ExtError {
    ExtError(MissingAttributeTitle(key), None)
  }

  /** Validates the target's attributes and the action parameter, in a fixed
      order, and only then fills the state from the first value of each
      attribute. On an error the state is returned as it was. */
  function Prepare(state: State, attributes: map<string, seq<string>>, action: Option<string>): (r: PrepareOutcome)
    ensures r.err.None? <==> Ready(attributes, action)
    ensures r.err.None? ==>
              r.state == State(attributes[ProjectIdKey][0], attributes[VmNameKey][0],
                               attributes[ZoneKey][0], action.value)
    ensures r.err.Some? ==> r.state == state
    ensures !HasValue(attributes, VmNameKey) ==> r.err == Some(MissingAttribute(VmNameKey))
    ensures HasValue(attributes, VmNameKey) && !HasValue(attributes, ZoneKey) ==>
              r.err == Some(MissingAttribute(ZoneKey))
    ensures HasValue(attributes, VmNameKey) && HasValue(attributes, ZoneKey) && !HasValue(attributes, ProjectIdKey) ==>
              r.err == Some(MissingAttribute(ProjectIdKey))
    ensures (HasValue(attributes, VmNameKey) && HasValue(attributes, ZoneKey) && HasValue(attributes, ProjectIdKey)
             && action.None?) ==> r.err == Some(ExtError(MissingActionTitle, None))
  {
    var vmName := Lookup(attributes, "gcp-vm.name");
    var zone := Lookup(attributes, "gcp.zone");
    var projectId := Lookup(attributes, "gcp.project.id");
    if |vmName| == 0 then
      PrepareOutcome(state, Some(MissingAttribute("gcp-vm.name")))
    else if |zone| == 0 then
      PrepareOutcome(state, Some(MissingAttribute("gcp.zone")))
    else if |projectId| == 0 then
      PrepareOutcome(state, Some(MissingAttribute("gcp.project.id")))
    else if action.None? then
      PrepareOutcome(state, Some(ExtError("Missing attack action parameter.", None)))
    else
      PrepareOutcome(State(projectId[0], vmName[0], zone[0], action.value), None)
  }

  /** The action parameter value that selects an operation. */
  function OperationName(op: Operation): string {
    match op
    case Reset => "reset"
    case Stop => "stop"
    case Delete => "delete"
    case Suspend => "suspend"
  }

  /** The operation an action parameter selects, if any; the comparison is
      exact, so case matters. */
  function OperationFor(action: string): Option<Operation> {
    if action == "reset" then Some(Reset)
    else if action == "stop" then Some(Stop)
    else if action == "delete" then Some(Delete)
    else if action == "suspend" then Some(Suspend)
    else None
  }

  /** Every operation is selected by its own name. */
  lemma OperationForName(op: Operation)
    ensures OperationFor(OperationName(op)) == Some(op)
  {
  }

  /** An action selects an operation only when it is that operation's name. */
  lemma OperationForIsName(action: string)
    ensures OperationFor(action).Some? <==> exists op :: OperationName(op) == action
    ensures OperationFor(action).Some? ==> OperationName(OperationFor(action).value) == action
  {
    if exists op :: OperationName(op) == action {
      var op :| OperationName(op) == action;
      OperationForName(op);
    }
  }

  /** What `Start` did: the requests it sent and the error it returned. */
  datatype StartOutcome = StartOutcome(calls: seq<ClientCall>, err: Option<ExtError>)

  /** The error title for an action naming no operation. */
  function UnknownActionTitle(action: string): string {
    "Unknown state change attack '" + action + "'"
  }

  /** The error title for a request the compute API rejected. */
  function ExecutionFailedTitle(action: string, vmName: string): string {
    "Failed to execute state change attack '" + action + "' on vm '" + vmName + "'"
  }

  /** Sends the state change the action names to the VM the state names.
      `providerError` is the client provider's failure, if it failed, and
      `callError` the compute API's answer to the request, if it rejected it. */
  function Start(state: State, providerError: Option<string>, callError: Option<string>): (r: StartOutcome)
    ensures |r.calls| <= 1
    ensures providerError.Some? ==> r.calls == [] && r.err == Some(ExtError(ClientInitFailedTitle, providerError))
    ensures providerError.None? && (forall op :: OperationName(op) != state.action) ==>
              r.calls == [] && r.err == Some(ExtError(UnknownActionTitle(state.action), None))
    ensures forall op :: providerError.None? && OperationName(op) == state.action ==>
              && r.calls == [ClientCall(op, state.zone, state.projectId, state.vmName)]
              && (callError.None? ==> r.err.None?)
              && (callError.Some? ==> r.err == Some(ExtError(ExecutionFailedTitle(state.action, state.vmName), callError)))
  {
    if providerError.Some? then
      StartOutcome([], Some(ExtError("Failed to initialize gcp client", providerError)))
    else
      var op := OperationFor(state.action);
      OperationForIsName(state.action);
      if op.None? then
        StartOutcome([], Some(ExtError("Unknown state change attack '" + state.action + "'", None)))
      else
        var call := ClientCall(op.value, state.zone, state.projectId, state.vmName);
        if callError.Some? then
          StartOutcome([call], Some(ExtError("Failed to execute state change attack '" + state.action
                                             + "' on vm '" + state.vmName + "'", callError)))
        else
          StartOutcome([call], None)
  }

  /** Preparing again with the same inputs changes nothing further. */
  lemma PrepareIdempotent(state: State, attributes: map<string, seq<string>>, action: Option<string>)
    ensures var once := Prepare(state, attributes, action);
            Prepare(once.state, attributes, action) == once
  {
  }

  /** The state `Prepare` fills does not depend on the state it was given. */
  lemma PrepareIgnoresPriorState(s1: State, s2: State, attributes: map<string, seq<string>>, action: Option<string>)
    requires Ready(attributes, action)
    ensures Prepare(s1, attributes, action) == Prepare(s2, attributes, action)
  {
  }

  /** An error from `Start` is returned exactly when no request succeeded: a
      nil error means one request went out and was accepted. */
  lemma StartSucceedsIffOneAcceptedCall(state: State, providerError: Option<string>, callError: Option<string>)
    ensures var r := Start(state, providerError, callError);
            r.err.None? <==> providerError.None? && callError.None? && OperationFor(state.action).Some?
    ensures var r := Start(state, providerError, callError);
            r.err.None? ==> |r.calls| == 1 && OperationName(r.calls[0].op) == state.action
  {
    OperationForIsName(state.action);
  }
}
