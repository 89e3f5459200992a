/** The objects the controller reads and writes: the template resource and the VMs in vSphere. */
module Resources {
  import opened Wrappers
  import opened GoFmt
  import opened Tags

  /** The three label keys the controller writes itself, and every other label key. */
  datatype LabelKey = ManagedBy | NodePoolName | Binding | UserLabel(key: string)

  datatype Spec = Spec(
    namePrefix: string,
    folder: string,
    datacenter: string,
    credential: string,
    extraConfig: map<string, string>,
    diskEnableUUID: bool,
    maxVms: Option<Int32>,
    agentLabelSelector: map<LabelKey, string>,
    nodePoolRef: Option<string>,
    testMode: bool)

  /** A template with neither test mode nor a NodePool is never scaled, and its Agents never looked at. */
  predicate Reconciles(spec: Spec) {
    spec.testMode || spec.nodePoolRef.Some?
  }

  /** An entry of Status.VMStatus; also the VMInfo that the controller keeps while it works. */
  datatype VMStatus = VMStatus(name: string, uuid: string, serial: string, poweredOn: bool, agentName: string)

  datatype Status = Status(
    desiredReplicas: Int32, currentReplicas: int, readyReplicas: int, vmStatus: seq<VMStatus>)

  const NEW_STATUS := Status(0, 0, 0, [])

  /** A stored VMwareNodePoolTemplate; its key is kept beside it. */
  datatype Template = Template(spec: Spec, status: Status, finalizer: bool, deleting: bool)

  datatype VM = VM(folder: string, name: string, uuid: string, extra: seq<OptionValue>, poweredOn: bool)

  datatype SecretRef = SecretRef(namespace: string, name: string)

  const DEFAULT_CREDENTIAL := "vsphere-credentials"

  function CredentialName(spec: Spec): string {
    if spec.credential != "" then spec.credential else DEFAULT_CREDENTIAL
  }

  /** The credential secret lives in the template's own namespace. */
  function SecretOf(k: Key, spec: Spec): SecretRef {
    SecretRef(k.namespace, CredentialName(spec))
  }

  /** getVMNamePrefix. */
  function Prefix(k: Key, spec: Spec): string {
    if spec.namePrefix != "" then spec.namePrefix else k.name
  }

  predicate TaggedFor(vm: VM, k: Key) {
    FirstValue(vm.extra, TAG_KEY) == Owner(k)
  }

  /** The inventory of one datacenter; its order is the order in which folders list their children. */
  class VCenter {
    var vms: seq<VM>
  }

  /** The secrets that carry the controller's in-use finalizer. */
  class SecretStore {
    var held: set<SecretRef>
  }

  /** The template as one reconcile pass holds it in memory. */
  class TemplateObject {
    const key: Key
    const spec: Spec
    var status: Status

    constructor (key: Key, stored: Template)
      ensures this.key == key && this.spec == stored.spec && this.status == stored.status
    {
      this.key, this.spec, this.status := key, stored.spec, stored.status;
    }
  }
}
