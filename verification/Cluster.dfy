/** What the controller reads of a Kubernetes cluster, as one snapshot. */
module Cluster {
  import opened Prelude
  import opened Json

  const ISTIO_SYSTEM := "istio-system"
  const SIDECAR_INJECTOR := "istio-sidecar-injector"
  const LABEL_REV := "istio.io/rev"
  const LABEL_TAG := "istio.io/tag"
  const LABEL_INJECTION := "istio-injection"

  const WORKLOAD_KINDS := {"Deployment", "StatefulSet", "DaemonSet"}
  const INTERMEDIATE_KINDS := {"ReplicaSet", "ControllerRevision"}

  datatype ObjRef = ObjRef(ns: string, name: string, kind: string)

  /** The source's `NamespacedName`: a reference without its kind. */
  function NameOf(ref: ObjRef): (string, string) {
    (ref.ns, ref.name)
  }

  datatype OwnerRef = OwnerRef(kind: string, name: string, controller: Option<bool>)

  datatype Container = Container(name: string, image: string)

  datatype Pod = Pod(
    ns: string, name: string, created: Instant, owners: seq<OwnerRef>,
    containers: seq<Container>, initContainers: seq<Container>)

  /** The `values` entry of a ConfigMap: missing or empty, not JSON, or a JSON tree. */
  datatype Values = Missing | Malformed | Decoded(json: Json)

  datatype ConfigMap = ConfigMap(
    ns: string, name: string, labels: map<string, string>,
    created: Instant, managed: seq<Option<Instant>>, values: Values)

  /** A MutatingWebhookConfiguration. */
  datatype WebhookConfig = WebhookConfig(
    name: string, labels: map<string, string>, created: Instant, managed: seq<Option<Instant>>)

  datatype ListCall = ConfigMapList | WebhookConfigList | PodList(ns: string)

  /**
   `workloads` holds whole documents. `unreadable` are the objects whose Get fails with an error
   other than NotFound, `failing` the List calls that fail. Lists are in API order.
   */
  datatype Cluster = Cluster(
    pods: seq<Pod>,
    intermediates: map<ObjRef, seq<OwnerRef>>,
    workloads: map<ObjRef, Json>,
    namespaces: map<string, map<string, string>>,
    configMaps: seq<ConfigMap>,
    webhookConfigs: seq<WebhookConfig>,
    unreadable: set<ObjRef>,
    failing: set<ListCall>)

  datatype Fetch<+T> = Found(value: T) | NotFound | Unreadable

  function Get<T>(c: Cluster, objects: map<ObjRef, T>, ref: ObjRef): Fetch<T> {
    if ref in c.unreadable then Unreadable
    else if ref in objects then Found(objects[ref])
    else NotFound
  }

  function GetNamespace(c: Cluster, ns: string): Fetch<map<string, string>> {
    if ObjRef("", ns, "Namespace") in c.unreadable then Unreadable
    else if ns in c.namespaces then Found(c.namespaces[ns])
    else NotFound
  }
}
