/**
  The storage registry objects kotsadm installs: the storage request of the
  registry's volume claim, chosen against the namespace's LimitRange, the
  pod security context, and the labels of the registry config map.
  Quantities are whole numbers of bytes and `Cmp` is integer comparison.
 */
module DistributionObjects {
  import opened Outcomes

  /** `resource.MustParse("4Gi")`. */
  const DefaultRegistrySize: int := 4 * 1024 * 1024 * 1024

  const RegistryUserId: int := 1000

  datatype LimitType = PodLimit | ContainerLimit | PersistentVolumeClaimLimit

  /** One entry of a LimitRange's `Spec.Limits`: resource name to quantity, for the maximum and the minimum. */
  datatype LimitRangeItem = LimitRangeItem(limitType: LimitType, max: map<string, int>, min: map<string, int>)

  datatype DeployOptions = DeployOptions(namespace: string, limitRange: Option<seq<LimitRangeItem>>, isOpenShift: bool)

  datatype PodSecurityContext = PodSecurityContext(runAsUser: Option<int>, fsGroup: Option<int>)

  datatype ConfigMap = ConfigMap(name: string, namespace: string, labels: map<string, string>)

  datatype StatefulSet = StatefulSet(name: string, namespace: string, storageRequest: int, securityContext: PodSecurityContext)

  /** The operator's answer to the confirmation prompt: yes, or Ctrl-C (which exits the process). */
  datatype PromptAnswer = Confirmed | Interrupted

  // ---------------------------------------------------------------------
  // LimitRange bounds

  /** The quantities of an item on the side being looked at. */
  function Side(item: LimitRangeItem, useMax: bool): map<string, int> {
    if useMax then item.max else item.min
  }

  /** The item is a PersistentVolumeClaim limit with a `storage` entry on that side. */
  predicate SetsStorage(item: LimitRangeItem, useMax: bool) {
    item.limitType == PersistentVolumeClaimLimit && "storage" in Side(item, useMax)
  }

  /** The storage bound the loop ends with: that of the last item that sets one, later items overwriting earlier ones. */
  function LastStorageBound(limits: seq<LimitRangeItem>, useMax: bool): (r: Option<int>)
    ensures r.None? <==> forall i :: 0 <= i < |limits| ==> !SetsStorage(limits[i], useMax)
    ensures r.Some? ==> exists i :: 0 <= i < |limits| && SetsStorage(limits[i], useMax) &&
                                    r.value == Side(limits[i], useMax)["storage"] &&
                                    forall k :: i < k < |limits| ==> !SetsStorage(limits[k], useMax)
  {
    if limits == [] then None
    else if SetsStorage(limits[|limits| - 1], useMax) then Some(Side(limits[|limits| - 1], useMax)["storage"])
    else
      var r := LastStorageBound(limits[..|limits| - 1], useMax);
      assert forall i :: 0 <= i < |limits| - 1 ==> limits[..|limits| - 1][i] == limits[i];
      r
  }

  /** The loop of `DistributionStatefulset` over the LimitRange's items. */
  method PvcStorageBounds(limits: seq<LimitRangeItem>) returns (allowedMin: Option<int>, allowedMax: Option<int>)
    ensures allowedMin == LastStorageBound(limits, false)
    ensures allowedMax == LastStorageBound(limits, true)
  {
    allowedMin, allowedMax := None, None;
    for i := 0 to |limits|
      invariant allowedMin == LastStorageBound(limits[..i], false)
      invariant allowedMax == LastStorageBound(limits[..i], true)
    {
      var limit := limits[i];
      if limit.limitType == PersistentVolumeClaimLimit {
        if "storage" in limit.max {
          allowedMax := Some(limit.max["storage"]);
        }
        if "storage" in limit.min {
          allowedMin := Some(limit.min["storage"]);
        }
      }
      assert limits[..i + 1][..i] == limits[..i];
    }
    assert limits[..|limits|] == limits;
  }

  // ---------------------------------------------------------------------
  // The size check

  /**
    The size `PromptForSizeIfNotBetween` settles on: the maximum when the
    desired size is above it, then the minimum when the desired size is
    below it, so the minimum wins when both apply.
   */
  function CandidateSize(desired: int, min: Option<int>, max: Option<int>): (r: int)
    ensures min.Some? && min.value > desired ==> r == min.value
    ensures max.Some? && max.value < desired && !(min.Some? && min.value > desired) ==> r == max.value
    ensures (min.None? || min.value <= desired) && (max.None? || max.value >= desired) ==> r == desired
    ensures min.Some? && max.Some? && min.value <= max.value ==> min.value <= r <= max.value
  {
    var afterMax := if max.Some? && max.value < desired then max.value else desired;
    if min.Some? && min.value > desired then min.value else afterMax
  }

  /**
    `PromptForSizeIfNotBetween`: the desired size when it is within the
    bounds, without asking; otherwise the candidate size if the operator
    confirms, and nothing (the process exits) if they interrupt.
   */
  method PromptForSizeIfNotBetween(name: string, desired: int, min: Option<int>, max: Option<int>, answer: PromptAnswer)
    returns (r: Option<int>)
    ensures CandidateSize(desired, min, max) == desired ==> r == Some(desired)
    ensures CandidateSize(desired, min, max) != desired ==> (r.Some? <==> answer == Confirmed)
    ensures r.Some? ==> r.value == CandidateSize(desired, min, max)
  {
    var actualSize := desired;
    if max.Some? {
      if max.value < desired {
        actualSize := max.value;
      }
    }
    if min.Some? {
      if min.value > desired {
        actualSize := min.value;
      }
    }
    if actualSize == desired {
      return Some(desired);
    }
    if answer == Interrupted {
      return None;
    }
    return Some(actualSize);
  }

  // ---------------------------------------------------------------------
  // The objects

  /** Outside OpenShift the registry runs as user and group 1000; on OpenShift the context is left empty. */
  function SecurityContextFor(isOpenShift: bool): (c: PodSecurityContext)
    ensures !isOpenShift ==> c.runAsUser == Some(RegistryUserId) && c.fsGroup == Some(RegistryUserId)
    ensures isOpenShift ==> c.runAsUser.None? && c.fsGroup.None?
  {
    if isOpenShift then PodSecurityContext(None, None)
    else PodSecurityContext(Some(RegistryUserId), Some(RegistryUserId))
  }

  /**
    `DistributionStatefulset`: the registry's volume claim requests 4Gi
    unless a LimitRange is given, in which case the size is checked against
    its PersistentVolumeClaim storage bounds; `None` stands for the process
    exiting when the operator declines.
   */
  method DistributionStatefulset(options: DeployOptions, answer: PromptAnswer) returns (r: Option<StatefulSet>)
    ensures options.limitRange.None? ==> r.Some? && r.value.storageRequest == DefaultRegistrySize
    ensures options.limitRange.Some? ==>
              var c := CandidateSize(DefaultRegistrySize, LastStorageBound(options.limitRange.value, false),
                                     LastStorageBound(options.limitRange.value, true));
              (r.None? <==> c != DefaultRegistrySize && answer == Interrupted) &&
              (r.Some? ==> r.value.storageRequest == c)
    ensures r.Some? ==> r.value.securityContext == SecurityContextFor(options.isOpenShift)
    ensures r.Some? ==> r.value.name == "kotsadm-storage-registry" && r.value.namespace == options.namespace
  {
    var size := DefaultRegistrySize;
    if options.limitRange.Some? {
      var allowedMin, allowedMax := PvcStorageBounds(options.limitRange.value);
      var newSize := PromptForSizeIfNotBetween("registry", size, allowedMin, allowedMax, answer);
      if newSize.None? {
        return None;
      }
      size := newSize.value;
    }
    var securityContext := PodSecurityContext(None, None);
    if !options.isOpenShift {
      securityContext := PodSecurityContext(Some(RegistryUserId), Some(RegistryUserId));
    }
    return Some(StatefulSet("kotsadm-storage-registry", options.namespace, size, securityContext));
  }

  /**
    `DistributionConfigMap`: the kotsadm labels with `kotsadm=application`
    added (replacing any `kotsadm` label already there).
    `kotsadmLabels` stands for `types.GetKotsadmLabels()`.
   */
  function DistributionConfigMap(options: DeployOptions, kotsadmLabels: map<string, string>): (cm: ConfigMap)
    ensures cm.labels.Keys == kotsadmLabels.Keys + {"kotsadm"}
    ensures cm.labels["kotsadm"] == "application"
    ensures forall k :: k in kotsadmLabels && k != "kotsadm" ==> cm.labels[k] == kotsadmLabels[k]
    ensures cm.name == "kotsadm-storage-registry-config" && cm.namespace == options.namespace
  {
    var labels := kotsadmLabels["kotsadm" := "application"];
    ConfigMap("kotsadm-storage-registry-config", options.namespace, labels)
  }
}
