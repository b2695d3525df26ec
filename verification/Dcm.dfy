// Labels and selectors of internal/dcm/labels.go. A selector is a conjunction of key=value pairs.
module Dcm {
  const LABEL_MANAGED_BY := "dcm.project/managed-by"
  const LABEL_INSTANCE_ID := "dcm.project/dcm-instance-id"
  const LABEL_SERVICE_TYPE := "dcm.project/dcm-service-type"
  const VALUE_MANAGED_BY_DCM := "dcm"
  const VALUE_SERVICE_TYPE := "container"

  const RESERVED_LABEL_KEYS: set<string> := {LABEL_MANAGED_BY, LABEL_INSTANCE_ID, LABEL_SERVICE_TYPE}

  type LabelMap = map<string, string>

  function Labels(instanceID: string): LabelMap {
    map[LABEL_MANAGED_BY := VALUE_MANAGED_BY_DCM, LABEL_INSTANCE_ID := instanceID,
        LABEL_SERVICE_TYPE := VALUE_SERVICE_TYPE]
  }

  predicate Matches(labels: LabelMap, selector: LabelMap) {
    forall k :: k in selector ==> k in labels && labels[k] == selector[k]
  }

  function InstanceSelector(instanceID: string): LabelMap {
    map[LABEL_INSTANCE_ID := instanceID, LABEL_MANAGED_BY := VALUE_MANAGED_BY_DCM]
  }

  function Selector(): LabelMap {
    map[LABEL_MANAGED_BY := VALUE_MANAGED_BY_DCM, LABEL_SERVICE_TYPE := VALUE_SERVICE_TYPE]
  }

  // A missing label reads as the empty string.
  function InstanceID(labels: LabelMap): string {
    if LABEL_INSTANCE_ID in labels then labels[LABEL_INSTANCE_ID] else ""
  }

  // Base labels win over user labels.
  function MergeLabels(base: LabelMap, user: LabelMap): LabelMap {
    user + base
  }

  // The selectors and labels in the texts that stand in the cluster.
  lemma SelectorMeans(labels: LabelMap)
    ensures Matches(labels, Selector()) <==>
            && "dcm.project/managed-by" in labels && labels["dcm.project/managed-by"] == "dcm"
            && "dcm.project/dcm-service-type" in labels && labels["dcm.project/dcm-service-type"] == "container"
  {
    assert LABEL_MANAGED_BY != LABEL_SERVICE_TYPE;
    assert LABEL_MANAGED_BY in Selector() && LABEL_SERVICE_TYPE in Selector();
  }

  lemma InstanceSelectorMeans(labels: LabelMap, id: string)
    ensures Matches(labels, InstanceSelector(id)) <==>
            && "dcm.project/managed-by" in labels && labels["dcm.project/managed-by"] == "dcm"
            && "dcm.project/dcm-instance-id" in labels && labels["dcm.project/dcm-instance-id"] == id
  {
    assert LABEL_MANAGED_BY != LABEL_INSTANCE_ID;
    assert LABEL_MANAGED_BY in InstanceSelector(id) && LABEL_INSTANCE_ID in InstanceSelector(id);
  }

  lemma ReservedKeysAre()
    ensures RESERVED_LABEL_KEYS ==
            {"dcm.project/managed-by", "dcm.project/dcm-instance-id", "dcm.project/dcm-service-type"}
  {
  }

  // What a reader gets back from merged labels are the user's own, without the reserved keys.
  lemma MergeThenFilter(instanceID: string, user: LabelMap)
    ensures MergeLabels(Labels(instanceID), user) - RESERVED_LABEL_KEYS == user - RESERVED_LABEL_KEYS
    ensures Matches(MergeLabels(Labels(instanceID), user), InstanceSelector(instanceID))
    ensures Matches(MergeLabels(Labels(instanceID), user), Selector())
    ensures InstanceID(MergeLabels(Labels(instanceID), user)) == instanceID
  {
  }
}
