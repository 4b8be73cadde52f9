/** Properties that span discovery and the state-change attack: a target the
    discovery reports can be attacked, and what the attack then asks of the
    compute API. */
module Properties {
  import opened Wrappers
  import opened Strings
  import opened Targets
  import opened Discovery
  import Config
  import opened StateAction

  /** The target the discovery reports for an instance, after exclusion. */
  function Reported(config: Config.Specification, inst: Instance, order: seq<string>): Target
    requires inst.id.Some? && EnumeratesKeys(order, inst.labels)
  {
    ExcludeAttributes(InstanceToTarget(config.projectId, inst, order), config.attributeExcludesVm)
  }

  /** Unless the configuration excludes one of the attributes the attack needs,
      a reported VM passes `Prepare`, and the state names the VM, its zone and
      the configured project. */
  lemma ReportedTargetPassesPrepare(config: Config.Specification, inst: Instance, order: seq<string>,
                                    state: State, action: string)
    requires inst.id.Some? && EnumeratesKeys(order, inst.labels)
    requires VmNameKey !in config.attributeExcludesVm
    requires ZoneKey !in config.attributeExcludesVm
    requires ProjectIdKey !in config.attributeExcludesVm
    ensures Prepare(state, Reported(config, inst, order).attributes, Some(action))
         == PrepareOutcome(State(config.projectId, GetStringValue(inst.name), GetZone(inst), action), None)
  {
    var a := InstanceToTarget(config.projectId, inst, order).attributes;
    assert VmNameKey == KeyName(VmName) && ZoneKey == KeyName(Zone) && ProjectIdKey == KeyName(ProjectId);
    var r := Reported(config, inst, order).attributes;
    assert r[VmNameKey] == a[VmNameKey] == [GetStringValue(inst.name)];
    assert r[ZoneKey] == a[ZoneKey] == [GetZone(inst)];
    assert r[ProjectIdKey] == a[ProjectIdKey] == [config.projectId];
  }

  /** Excluding the VM name from discovery makes every reported VM fail
      `Prepare` with the missing-name error. */
  lemma ExcludedNameFailsPrepare(config: Config.Specification, inst: Instance, order: seq<string>,
                                 state: State, action: Option<string>)
    requires inst.id.Some? && EnumeratesKeys(order, inst.labels)
    requires VmNameKey in config.attributeExcludesVm
    ensures Prepare(state, Reported(config, inst, order).attributes, action)
         == PrepareOutcome(state, Some(MissingAttribute(VmNameKey)))
  {
  }

  /** Preparing a reported VM with a known action and starting it sends exactly
      the matching request for that VM, zone and project. */
  lemma ReportedTargetStart(config: Config.Specification, inst: Instance, order: seq<string>,
                            op: Operation, callError: Option<string>)
    requires inst.id.Some? && EnumeratesKeys(order, inst.labels)
    requires VmNameKey !in config.attributeExcludesVm
    requires ZoneKey !in config.attributeExcludesVm
    requires ProjectIdKey !in config.attributeExcludesVm
    ensures var prepared := Prepare(EmptyState, Reported(config, inst, order).attributes, Some(OperationName(op)));
            var started := Start(prepared.state, None, callError);
            && started.calls == [ClientCall(op, GetZone(inst), config.projectId, GetStringValue(inst.name))]
            && (started.err.None? <==> callError.None?)
  {
    ReportedTargetPassesPrepare(config, inst, order, EmptyState, OperationName(op));
  }
}
