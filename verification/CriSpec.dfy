/** Workload specifications for the container runtime: labels, ownership, validation and the
    conversion of resource limits. */
module CriSpec {
  import opened Wrappers

  /** A value, or why there is none. */
  datatype Outcome<+T> = Done(value: T) | Failed(error: Error)

  datatype Error =
    | InvalidConfig
    | NotFound
    | Network
    | MissingStatus
    | NotOwned
    | EmptySandboxId
    | EmptyContainerId
    | CleanupFailed(errors: nat)
    | RollbackFailed(primary: Error, cleanup: Error)

  type Id = string
  type Labels = map<string, string>

  const LABEL_MANAGED_BY := "io.xflops.flame.managed-by"
  const LABEL_EXECUTOR_ID := "io.xflops.flame.executor-id"
  const LABEL_APPLICATION := "io.xflops.flame.application"
  const LABEL_WORKLOAD_UID := "io.xflops.flame.workload-uid"
  const MANAGED_BY_EXECUTOR_MANAGER := "executor-manager"

  // ---- Labels and ownership --------------------------------------------------------------

  datatype Filter = Filter(executorId: string)

  function FilterLabels(f: Filter): Labels
  {
    map[LABEL_MANAGED_BY := MANAGED_BY_EXECUTOR_MANAGER, LABEL_EXECUTOR_ID := f.executorId]
  }

  predicate Has(labels: Labels, k: string, v: string) { k in labels && labels[k] == v }

  predicate Selects(selector: Labels, labels: Labels) { forall k :: k in selector ==> Has(labels, k, selector[k]) }

  predicate Matches(f: Filter, labels: Labels) { Selects(FilterLabels(f), labels) }

  datatype Metadata = Metadata(name: string, namespace: string, uid: string, executorId: string, application: string)

  function MetadataLabels(m: Metadata): Labels
  {
    FilterLabels(Filter(m.executorId))[LABEL_APPLICATION := m.application][LABEL_WORKLOAD_UID := m.uid]
  }

  /** What the cleanup after an unanswered creation looks for. */
  function CreationSelector(f: Filter, uid: string): Labels { FilterLabels(f)[LABEL_WORKLOAD_UID := uid] }

  predicate OfCreation(f: Filter, uid: string, labels: Labels)
  {
    Matches(f, labels) && Has(labels, LABEL_WORKLOAD_UID, uid)
  }

  lemma LabelsDiffer()
    ensures LABEL_MANAGED_BY != LABEL_EXECUTOR_ID && LABEL_MANAGED_BY != LABEL_APPLICATION
    ensures LABEL_EXECUTOR_ID != LABEL_APPLICATION
    ensures LABEL_WORKLOAD_UID !in [LABEL_MANAGED_BY, LABEL_EXECUTOR_ID, LABEL_APPLICATION]
  {
    assert |LABEL_MANAGED_BY| == 26 && |LABEL_EXECUTOR_ID| == 27 && |LABEL_APPLICATION| == 27 &&
      |LABEL_WORKLOAD_UID| == 28;
    assert LABEL_EXECUTOR_ID[16] == 'e' && LABEL_APPLICATION[16] == 'a';
  }

  lemma MatchesMeans(f: Filter, labels: Labels)
    ensures Matches(f, labels) <==>
      Has(labels, LABEL_MANAGED_BY, MANAGED_BY_EXECUTOR_MANAGER) && Has(labels, LABEL_EXECUTOR_ID, f.executorId)
  {
    LabelsDiffer();
    assert LABEL_MANAGED_BY in FilterLabels(f) && LABEL_EXECUTOR_ID in FilterLabels(f);
  }

  /** A workload's own sandbox passes its own ownership test, and no other executor's. */
  lemma OwnLabelsMatch(m: Metadata, f: Filter)
    ensures Matches(f, MetadataLabels(m)) <==> f.executorId == m.executorId
    ensures OfCreation(Filter(m.executorId), m.uid, MetadataLabels(m))
  {
    LabelsDiffer();
    MatchesMeans(f, MetadataLabels(m));
    MatchesMeans(Filter(m.executorId), MetadataLabels(m));
  }

  /** A workload's labels are exactly these four. */
  lemma LabelsMean(m: Metadata, k: string, v: string)
    ensures Has(MetadataLabels(m), k, v) <==>
      || (k == "io.xflops.flame.managed-by" && v == "executor-manager")
      || (k == "io.xflops.flame.executor-id" && v == m.executorId)
      || (k == "io.xflops.flame.application" && v == m.application)
      || (k == "io.xflops.flame.workload-uid" && v == m.uid)
  {
    LabelsDiffer();
  }

  /** The selector sent to the runtime picks exactly what the cleanup keeps from its answer. */
  lemma SelectorMeans(f: Filter, uid: string, labels: Labels)
    ensures Selects(CreationSelector(f, uid), labels) <==> OfCreation(f, uid, labels)
  {
    LabelsDiffer();
    MatchesMeans(f, labels);
    var s := CreationSelector(f, uid);
    assert LABEL_MANAGED_BY in s && LABEL_EXECUTOR_ID in s && LABEL_WORKLOAD_UID in s;
  }

  // ---- Specifications --------------------------------------------------------------------

  const I64_MAX := 0x7fff_ffff_ffff_ffff
  const CPU_PERIOD_US := 100_000

  type U64 = n: int | 0 <= n < 0x1_0000_0000_0000_0000
  type I64 = n: int | -0x8000_0000_0000_0000 <= n <= I64_MAX

  datatype Container = Container(name: string, image: string, cpu: U64, memory: U64, user: Option<I64>,
                                 group: Option<I64>)
  datatype Spec = Spec(metadata: Metadata, containers: seq<Container>, logDirectory: string)
  datatype LinuxResources = LinuxResources(period: I64, quota: I64, memory: I64)
  datatype ContainerConfig = ContainerConfig(name: string, image: string, labels: Labels, resources: LinuxResources)

  function CheckedI64(n: int): Outcome<I64>
  {
    if -0x8000_0000_0000_0000 <= n <= I64_MAX then Done(n) else Failed(InvalidConfig)
  }

  function Resources(cpu: U64, memory: U64): Outcome<LinuxResources>
  {
    var quota := if cpu == 0 then Done(0)
      else if CheckedI64(cpu).Failed? then Failed(InvalidConfig) else CheckedI64(cpu * CPU_PERIOD_US);
    match (quota, CheckedI64(memory))
    case (Done(q), Done(m)) => Done(LinuxResources(if cpu == 0 then 0 else CPU_PERIOD_US, q, m))
    case _ => Failed(InvalidConfig)
  }

  function Config(spec: Spec, c: Container): Outcome<ContainerConfig>
  {
    match Resources(c.cpu, c.memory)
    case Done(r) => Done(ContainerConfig(c.name, c.image, MetadataLabels(spec.metadata), r))
    case Failed(e) => Failed(e)
  }

  predicate MetadataOk(m: Metadata) { m.name != "" && m.namespace != "" && m.uid != "" && m.executorId != "" }

  predicate ContainerOk(c: Container)
  {
    c.name != "" && c.image != "" && (c.group.Some? ==> c.user.Some?)
  }

  predicate SpecOk(spec: Spec)
  {
    && MetadataOk(spec.metadata) && spec.containers != [] && spec.logDirectory != ""
    && forall c :: c in spec.containers ==> ContainerOk(c) && Config(spec, c).Done?
  }

  /** A workload is complete exactly when every name it needs is there, a group comes with a user, and
      every limit fits in 64 bits. */
  lemma SpecOkMeans(spec: Spec)
    ensures SpecOk(spec) <==>
      && |spec.metadata.name| > 0 && |spec.metadata.namespace| > 0 && |spec.metadata.uid| > 0
      && |spec.metadata.executorId| > 0 && |spec.containers| > 0 && |spec.logDirectory| > 0
      && forall i :: 0 <= i < |spec.containers| ==>
           var c := spec.containers[i];
           && |c.name| > 0 && |c.image| > 0 && !(c.group.Some? && c.user.None?)
           && c.cpu * 100_000 <= I64_MAX && c.memory <= I64_MAX
  {
    forall c ensures Config(spec, c).Done? <==> c.cpu * 100_000 <= I64_MAX && c.memory <= I64_MAX {
      ConfigMeans(spec, c);
    }
  }

  /** Validation accepts a workload exactly when it is complete and every container's configuration
      can be made. */
  method Validate(spec: Spec) returns (r: Outcome<()>)
    ensures r.Done? <==> SpecOk(spec)
    ensures r.Failed? ==> r.error == InvalidConfig
  {
    if spec.metadata.name == "" || spec.metadata.namespace == "" || spec.metadata.uid == "" ||
      spec.metadata.executorId == "" {
      return Failed(InvalidConfig);
    }
    if spec.containers == [] || spec.logDirectory == "" {
      return Failed(InvalidConfig);
    }
    for i := 0 to |spec.containers|
      invariant forall j :: 0 <= j < i ==> ContainerOk(spec.containers[j]) && Config(spec, spec.containers[j]).Done?
    {
      var c := spec.containers[i];
      assert c in spec.containers;
      if c.name == "" || c.image == "" {
        return Failed(InvalidConfig);
      }
      if c.group.Some? && c.user.None? {
        return Failed(InvalidConfig);
      }
      var resources := Resources(c.cpu, c.memory);
      if resources.Failed? {
        return Failed(resources.error);
      }
    }
    r := Done(());
  }

  /** Limits are accepted exactly when the quota and the memory fit in 64 bits, and then say what
      was asked: the quota is that many whole periods, and zero stands for no limit. */
  lemma ResourcesMean(cpu: U64, memory: U64)
    ensures Resources(cpu, memory).Done? <==> cpu * 100_000 <= I64_MAX && memory <= I64_MAX
    ensures Resources(cpu, memory).Done? ==>
      var r := Resources(cpu, memory).value;
      && r.memory == memory && r.quota == cpu * 100_000
      && r.period == (if cpu == 0 then 0 else 100_000)
  {
  }

  /** A container is asked for under its own name, image and limits, with the labels of the workload. */
  lemma ConfigMeans(spec: Spec, c: Container)
    ensures Config(spec, c).Done? <==> c.cpu * 100_000 <= I64_MAX && c.memory <= I64_MAX
    ensures Config(spec, c).Done? ==>
      var config := Config(spec, c).value;
      && config.name == c.name && config.image == c.image && config.labels == MetadataLabels(spec.metadata)
      && config.resources.memory == c.memory && config.resources.quota == c.cpu * 100_000
  {
    ResourcesMean(c.cpu, c.memory);
  }
}
