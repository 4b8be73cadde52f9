/** The extension's configuration, passed explicitly instead of being read
    from the process-wide `config.Config` variable. */
module Config {

  /** The target type every discovered virtual machine carries. */
  const TargetIdVm: string := "com.steadybit.extension_gcp.vm"

  /** The configuration values the modelled code reads. */
  datatype Specification = Specification(
    projectId: string,
    attributeExcludesVm: seq<string>,
    enrichVmDataForTargetTypes: seq<string>)

  /** The target types enriched with VM data when the operator configures none. */
  const DefaultEnrichVmDataForTargetTypes: seq<string> := [
    "com.steadybit.extension_jvm.jvm-instance",
    "com.steadybit.extension_container.container",
    "com.steadybit.extension_kubernetes.kubernetes-deployment",
    "com.steadybit.extension_kubernetes.kubernetes-pod",
    "com.steadybit.extension_kubernetes.kubernetes-daemonset",
    "com.steadybit.extension_kubernetes.kubernetes-statefulset"
  ]

  /** The configuration an empty environment produces: no project, no
      exclusions, the default enrichment list. */
  function Default(): (c: Specification)
    ensures c.projectId == "" && c.attributeExcludesVm == []
    ensures c.enrichVmDataForTargetTypes == [
              "com.steadybit.extension_jvm.jvm-instance",
              "com.steadybit.extension_container.container",
              "com.steadybit.extension_kubernetes.kubernetes-deployment",
              "com.steadybit.extension_kubernetes.kubernetes-pod",
              "com.steadybit.extension_kubernetes.kubernetes-daemonset",
              "com.steadybit.extension_kubernetes.kubernetes-statefulset"]
    ensures |c.enrichVmDataForTargetTypes| == 6
  {
    Specification("", [], DefaultEnrichVmDataForTargetTypes)
  }
}
