/** The labels the agent writes on repository objects and the label filters by
    which it later recognises its own objects in the cluster.
    Models labelAndAnnotationsRepoObj and ConvertCertificate of
    pkg/kube/client.go, the GetResources filters of
    pkg/kubernetes/resourcekinds.go and isAgent of pkg/kubernetes/kubernetes.go. */
module Labels {

  type LabelMap = map<string, string>

  /** A decoded manifest: what the label code reads and writes, whether the
      spec carries a ready-made certificate, and the rest of the text. */
  datatype Manifest = Manifest(kind: string, name: string, labels: LabelMap, existCert: bool, body: string)

  /** The process-wide settings the label code reads. */
  datatype Settings = Settings(agentVersion: string, clusterId: string, agentNamespace: string, certManagerVersion: string)

  const WORKLOAD := "choerodon.io/workload"
  const RELEASE := "choerodon.io/release"
  const NETWORK := "choerodon.io/network"
  const NO_DELETE := "choerodon.io/no_delete"
  const AGENT_VERSION := "choerodon.io"
  const TLS_SECRET := "choerodon.io/tls-secret"
  const RELEASE_CLUSTER := "choerodon.io/C7NHelmRelease-cluster"
  const ENV := "choerodon.io/env"
  const PV := "choerodon.io/pv"
  const NAME := "choerodon.io/name"
  const PVC := "choerodon.io/pvc"

  const WORKLOADS := {"Deployment", "StatefulSet", "DaemonSet", "Job", "CronJob"}

  /** Kinds on which the labelling switch has a case. */
  const LABELLED := {"Service", "Ingress", "ConfigMap", "Secret", "Certificate", "C7NHelmRelease",
                     "PersistentVolumeClaim", "PersistentVolume"} + WORKLOADS

  /** Kinds that Export lists. */
  const EXPORTED := LABELLED - {"PersistentVolume"}

  function Get(l: LabelMap, key: string): string {
    if key in l then l[key] else ""
  }

  /** The labels the switch adds for one kind, before the version label. */
  function KindLabels(s: Settings, namespace: string, m: Manifest): LabelMap {
    match m.kind
    case "Service" => m.labels[NETWORK := "service"]
    case "Ingress" => m.labels[NETWORK := "ingress"]
    case "C7NHelmRelease" =>
      if namespace == s.agentNamespace then m.labels[RELEASE_CLUSTER := s.clusterId] else m.labels
    case "PersistentVolumeClaim" => m.labels[PVC := "pvc-cluster-" + s.clusterId][NAME := m.name]
    case "PersistentVolume" => m.labels[ENV := namespace][PV := "pv-cluster-" + s.clusterId][NAME := m.name]
    case _ => if m.kind in WORKLOADS then m.labels[WORKLOAD := m.kind] else m.labels
  }

  function Label(s: Settings, namespace: string, m: Manifest): Manifest {
    if m.kind in LABELLED then m.(labels := KindLabels(s, namespace, m)[AGENT_VERSION := s.agentVersion]) else m
  }

  /** A decoded object, whose label map the labelling code updates in place. */
  class RepoObject {
    const kind: string
    const name: string
    const existCert: bool
    const body: string
    var labels: LabelMap

    constructor (m: Manifest)
      ensures AsManifest() == m
    {
      kind, name, existCert, body, labels := m.kind, m.name, m.existCert, m.body, m.labels;
    }

    ghost function AsManifest(): Manifest
      reads this
    {
      Manifest(kind, name, labels, existCert, body)
    }

    /** The switch over the kind, then the version label; a kind without a case
        is left alone. */
    method AddLabels(s: Settings, namespace: string)
      modifies this
      ensures AsManifest() == Label(s, namespace, old(AsManifest()))
    {
      if kind == "Service" {
        labels := labels[NETWORK := "service"];
      } else if kind == "Ingress" {
        labels := labels[NETWORK := "ingress"];
      } else if kind in {"ConfigMap", "Secret", "Certificate"} {
      } else if kind == "C7NHelmRelease" {
        if namespace == s.agentNamespace { labels := labels[RELEASE_CLUSTER := s.clusterId]; }
      } else if kind == "PersistentVolumeClaim" {
        labels := labels[PVC := "pvc-cluster-" + s.clusterId];
        labels := labels[NAME := name];
      } else if kind == "PersistentVolume" {
        labels := labels[ENV := namespace];
        labels := labels[PV := "pv-cluster-" + s.clusterId];
        labels := labels[NAME := name];
      } else if kind in WORKLOADS {
        labels := labels[WORKLOAD := kind];
      } else {
        return;
      }
      labels := labels[AGENT_VERSION := s.agentVersion];
    }
  }

  /** The filter that GetResources of the object's kind applies. */
  predicate Selected(s: Settings, namespace: string, m: Manifest) {
    var l := m.labels;
    match m.kind
    case "Certificate" => s.certManagerVersion == "0.1.0" || s.certManagerVersion == "1.1.1"
    case "Service" => NETWORK in l && NO_DELETE !in l
    case "Ingress" => NETWORK in l && NO_DELETE !in l
    case "C7NHelmRelease" => namespace == s.agentNamespace ==> Get(l, RELEASE_CLUSTER) == s.clusterId
    case "ConfigMap" => Get(l, RELEASE) == "" && Get(l, AGENT_VERSION) != ""
    case "Secret" => Get(l, TLS_SECRET) == "" && Get(l, RELEASE) == "" && Get(l, AGENT_VERSION) != ""
    case "PersistentVolumeClaim" =>
      Get(l, RELEASE) == "" && Get(l, AGENT_VERSION) != "" && Get(l, PVC) == "pvc-cluster-" + s.clusterId
    case _ => m.kind in WORKLOADS && Get(l, WORKLOAD) == m.kind
  }

  /** Listed by Export: passes its kind's filter and is not named after the namespace. */
  predicate Managed(s: Settings, namespace: string, m: Manifest) {
    Selected(s, namespace, m) && m.name != namespace
  }

  /** What an object's own labels say, whoever wrote them: workloads are marked
      with their kind, services and ingresses have a network mark and no no_delete
      mark, objects of the storing kinds have an agent version and no release, and
      among these claims belong to this cluster and secrets are not converted;
      releases belong to this cluster in the agent's own namespace and are free
      elsewhere; certificates need a known version of the manager. No object is
      named after the namespace. */
  predicate Marked(s: Settings, namespace: string, m: Manifest) {
    && m.name != namespace
    && m.kind in {"Deployment", "StatefulSet", "DaemonSet", "Job", "CronJob", "Service", "Ingress", "ConfigMap", "Secret",
                  "PersistentVolumeClaim", "C7NHelmRelease", "Certificate"}
    && (m.kind in {"Deployment", "StatefulSet", "DaemonSet", "Job", "CronJob"} ==> (WORKLOAD, m.kind) in m.labels.Items)
    && (m.kind in {"Service", "Ingress"} ==> NETWORK in m.labels && NO_DELETE !in m.labels)
    && (m.kind in {"ConfigMap", "Secret", "PersistentVolumeClaim"} ==>
          Filled(m.labels, AGENT_VERSION) && !Filled(m.labels, RELEASE))
    && (m.kind == "Secret" ==> !Filled(m.labels, TLS_SECRET))
    && (m.kind == "PersistentVolumeClaim" ==> (PVC, "pvc-cluster-" + s.clusterId) in m.labels.Items)
    && (m.kind == "C7NHelmRelease" && namespace == s.agentNamespace ==>
          if s.clusterId == "" then !Filled(m.labels, RELEASE_CLUSTER) else (RELEASE_CLUSTER, s.clusterId) in m.labels.Items)
    && (m.kind == "Certificate" ==> s.certManagerVersion in {"0.1.0", "1.1.1"})
  }

  /** Exactly these objects of a cluster the agent takes for its own. */
  lemma ManagedIff(s: Settings, namespace: string, m: Manifest)
    ensures Managed(s, namespace, m) <==> Marked(s, namespace, m)
  {
  }

  /** The label is there and not empty. */
  predicate Filled(l: LabelMap, key: string) {
    key in l && l[key] != ""
  }

  /** Hence of the objects without labels only certificates, and releases outside
      the agent's own namespace, are taken for the agent's. */
  lemma UnlabelledIsForeign(s: Settings, namespace: string, m: Manifest)
    requires m.labels == map[] && m.kind != "Certificate" && s.clusterId != ""
    requires m.kind == "C7NHelmRelease" ==> namespace == s.agentNamespace
    ensures !Managed(s, namespace, m)
  {
    ManagedIff(s, namespace, m);
  }

  /** What a repository author can see beforehand: will the agent recognise
      this object as its own once labelled and applied? */
  predicate WillBeManaged(s: Settings, namespace: string, m: Manifest) {
    && m.name != namespace && m.kind in EXPORTED
    && (m.kind in {"Service", "Ingress"} ==> NO_DELETE !in m.labels)
    && (m.kind in {"ConfigMap", "Secret", "PersistentVolumeClaim"} ==> Get(m.labels, RELEASE) == "" && s.agentVersion != "")
    && (m.kind == "Secret" ==> Get(m.labels, TLS_SECRET) == "")
    && (m.kind == "Certificate" ==> s.certManagerVersion in {"0.1.0", "1.1.1"})
  }

  lemma LabelKeysDiffer()
    ensures AGENT_VERSION !in {WORKLOAD, RELEASE, NETWORK, NO_DELETE, TLS_SECRET, RELEASE_CLUSTER, PVC}
    ensures NAME !in {RELEASE, PVC} && PVC != RELEASE && NETWORK != NO_DELETE
    ensures TLS_SECRET !in {RELEASE, AGENT_VERSION}
    ensures AGENT_VERSION !in {NAME, ENV, PV} && PVC != NAME && NAME !in {ENV, PV} && ENV != PV
  {
    assert |AGENT_VERSION| == 12 && |WORKLOAD| == 21 && |RELEASE| == 20 && |NETWORK| == 20 && |NO_DELETE| == 22;
    assert |TLS_SECRET| == 23 && |RELEASE_CLUSTER| == 35 && |PVC| == 16 && |NAME| == 17 && |ENV| == 16 && |PV| == 15;
  }

  /** Labelling and exporting agree: a labelled object is exported if and only
      if its kind is exported, it does not opt out by its own labels, and it is
      not named after the namespace. */
  lemma LabelledIffManaged(s: Settings, namespace: string, m: Manifest)
    ensures Managed(s, namespace, Label(s, namespace, m)) <==> WillBeManaged(s, namespace, m)
  {
    LabelKeysDiffer();
  }

  /** What labelling writes, and that it touches nothing else. */
  lemma LabelsWritten(s: Settings, namespace: string, m: Manifest)
    ensures var r := Label(s, namespace, m);
      && r == m.(labels := r.labels)
      && (if m.kind in {"Service", "Ingress", "ConfigMap", "Secret", "Certificate", "C7NHelmRelease", "PersistentVolumeClaim",
                        "PersistentVolume", "Deployment", "StatefulSet", "DaemonSet", "Job", "CronJob"}
          then (AGENT_VERSION, s.agentVersion) in r.labels.Items else r == m)
      && (m.kind == "Service" ==> (NETWORK, "service") in r.labels.Items)
      && (m.kind == "Ingress" ==> (NETWORK, "ingress") in r.labels.Items)
      && (m.kind in {"Deployment", "StatefulSet", "DaemonSet", "Job", "CronJob"} ==> (WORKLOAD, m.kind) in r.labels.Items)
      && (m.kind in {"PersistentVolumeClaim", "PersistentVolume"} ==> (NAME, m.name) in r.labels.Items)
      && (m.kind == "PersistentVolumeClaim" ==> (PVC, "pvc-cluster-" + s.clusterId) in r.labels.Items)
      && (m.kind == "PersistentVolume" ==>
            (ENV, namespace) in r.labels.Items && (PV, "pv-cluster-" + s.clusterId) in r.labels.Items)
      && (m.kind == "C7NHelmRelease" && namespace == s.agentNamespace ==> (RELEASE_CLUSTER, s.clusterId) in r.labels.Items)
      && forall key :: key !in AgentKeys(m.kind, namespace == s.agentNamespace) ==>
           (key in r.labels <==> key in m.labels) && (key in m.labels ==> r.labels[key] == m.labels[key])
  {
    LabelKeysDiffer();
  }

  /** The labels that belong to the agent on objects of a kind. */
  function AgentKeys(kind: string, own: bool): set<string> {
    {AGENT_VERSION} +
    (if kind in {"Service", "Ingress"} then {NETWORK}
     else if kind == "C7NHelmRelease" && own then {RELEASE_CLUSTER}
     else if kind == "PersistentVolumeClaim" then {PVC, NAME}
     else if kind == "PersistentVolume" then {ENV, PV, NAME}
     else if kind in WORKLOADS then {WORKLOAD}
     else {})
  }

  /** The certificate-to-secret conversion, for a certificate with a ready-made key pair. */
  function TlsSecret(s: Settings, m: Manifest): Manifest {
    Manifest("Secret", m.name, m.labels[TLS_SECRET := s.agentVersion], false, m.body)
  }

  /** The secret has the name, the text and the other labels of its certificate. */
  lemma SecretKeepsRest(s: Settings, m: Manifest)
    ensures var r := TlsSecret(s, m);
      && r.kind == "Secret" && r.name == m.name && r.body == m.body && !r.existCert
      && (TLS_SECRET, s.agentVersion) in r.labels.Items
      && forall key :: key != TLS_SECRET ==>
           (key in r.labels <==> key in m.labels) && (key in m.labels ==> r.labels[key] == m.labels[key])
  {
  }

  /** The secret made from a labelled certificate is never exported, whatever
      the settings, so a sync never deletes it. */
  lemma ConvertedSecretIsUnmanaged(s: Settings, namespace: string, m: Manifest)
    requires m.kind == "Certificate"
    ensures !Managed(s, namespace, TlsSecret(s, Label(s, namespace, m)))
  {
    LabelKeysDiffer();
  }
}
