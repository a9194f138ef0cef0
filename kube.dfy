/**
 * The slice of the Kubernetes API the controller touches: object keys,
 * ConfigMaps, ConfigMirror definitions, the errors the core can report, and
 * the cluster store behind the controller-runtime client.
 */
module Kube {
  import opened Wrappers

  /** A namespaced object identity, as `client.ObjectKey`. */
  datatype ObjectKey = ObjectKey(namespace: string, name: string)

  /**
   * A ConfigMap. `hasManagedFields` stands for the server-side-apply field
   * list (only its presence matters to the core); `data` stands for the whole
   * payload (Data and BinaryData).
   */
  datatype ConfigMap = ConfigMap(
    namespace: string,
    name: string,
    uid: string,
    resourceVersion: string,
    hasManagedFields: bool,
    labels: map<string, string>,
    annotations: map<string, string>,
    data: map<string, string>)

  /**
   * A ConfigMirror definition: its own identity, the namespace to copy from,
   * the ordered target namespaces and the `matchLabels` selector.
   */
  datatype ConfigMirror = ConfigMirror(
    namespace: string,
    name: string,
    sourceNamespace: string,
    targetNamespaces: seq<string>,
    matchLabels: map<string, string>)

  /** Every error the core can return. */
  datatype Error =
    | NotFound(key: ObjectKey)
    | ApiFault(message: string)
    | ReplicationFailed(sourceNamespace: string, sourceName: string,
                        targetNamespace: string, targetName: string, cause: string)
    | MarshalFault(message: string)
    | DatabaseFault(message: string)
    | ReadFault(message: string)
    | EnvNotSet(variable: string)

  function KeyOf(cm: ConfigMap): ObjectKey {
    ObjectKey(cm.namespace, cm.name)
  }

  function MirrorKeyOf(m: ConfigMirror): ObjectKey {
    ObjectKey(m.namespace, m.name)
  }

  /** The value stored under `key`, or "" when it is absent (Go's map index on a missing key). */
  function ValueOrEmpty(m: map<string, string>, key: string): string {
    if key in m then m[key] else ""
  }

  /**
   * A client `Get`: the fault oracle decides whether the call fails in
   * transport; otherwise an absent key is "not found".
   */
  function Lookup<T>(store: map<ObjectKey, T>, fault: ObjectKey -> Option<string>, key: ObjectKey): (r: Result<T, Error>)
    ensures r.Success? <==> fault(key).None? && key in store
    ensures r.Success? ==> r.value == store[key]
    ensures r.Failure? && r.error.NotFound? <==> fault(key).None? && key !in store
  {
    match fault(key)
    case Some(msg) => Failure(ApiFault(msg))
    case None => if key in store then Success(store[key]) else Failure(NotFound(key))
  }

  /** Every key of the listing names exactly one object. */
  ghost predicate UniqueKeys(listing: seq<ConfigMap>) {
    forall c, d :: c in listing && d in listing && KeyOf(c) == KeyOf(d) ==> c == d
  }

  /**
   * The cluster as the controller sees it through its client. ConfigMaps are
   * written by the core; ConfigMirror definitions are read-only to it. The
   * fault oracles stand for transport errors of the API server.
   */
  class Cluster {
    var configMaps: map<ObjectKey, ConfigMap>
    const mirrors: map<ObjectKey, ConfigMirror>
    const getFault: ObjectKey -> Option<string>
    const mirrorGetFault: ObjectKey -> Option<string>
    const listFault: string -> Option<string>
    const patchFault: ConfigMap -> Option<string>

    constructor (configMaps: map<ObjectKey, ConfigMap>, mirrors: map<ObjectKey, ConfigMirror>,
                 getFault: ObjectKey -> Option<string>, mirrorGetFault: ObjectKey -> Option<string>,
                 listFault: string -> Option<string>, patchFault: ConfigMap -> Option<string>)
      ensures this.configMaps == configMaps && this.mirrors == mirrors
      ensures this.getFault == getFault && this.mirrorGetFault == mirrorGetFault
      ensures this.listFault == listFault && this.patchFault == patchFault
    {
      this.configMaps := configMaps;
      this.mirrors := mirrors;
      this.getFault := getFault;
      this.mirrorGetFault := mirrorGetFault;
      this.listFault := listFault;
      this.patchFault := patchFault;
    }

    /** A server-side apply of `cm`: on success the store holds `cm` under its key. */
    method Patch(cm: ConfigMap) returns (err: Option<string>)
      modifies this
      ensures err == patchFault(cm)
      ensures configMaps == if err.None? then old(configMaps)[KeyOf(cm) := cm] else old(configMaps)
    {
      err := patchFault(cm);
      if err.None? {
        configMaps := configMaps[KeyOf(cm) := cm];
      }
    }
  }
}
