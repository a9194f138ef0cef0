/**
 * The reverse router: which ConfigMirror definitions must reconcile when a
 * ConfigMap changes. A ConfigMap carrying the mirror annotation is a replica:
 * while it still exists the event is dropped (this breaks the loop of the
 * controller's own writes re-triggering it); once it is gone it is routed as
 * if it lived in its recorded source namespace, so that its definition
 * recreates it.
 */
module Router {
  import opened Wrappers
  import opened Kube
  import opened Utils
  import opened Selector

  /** Definition `d` watches objects of `namespace` with these labels. */
  predicate Selects(d: ConfigMirror, namespace: string, labels: map<string, string>) {
    namespace == d.sourceNamespace && Matches(d.matchLabels, labels)
  }

  /** One request per selecting definition, in definition-list order. */
  function RouteSource(namespace: string, labels: map<string, string>, defs: seq<ConfigMirror>): (r: seq<ObjectKey>)
    ensures forall k :: k in r <==> exists d :: d in defs && Selects(d, namespace, labels) && MirrorKeyOf(d) == k
    ensures |r| <= |defs|
  {
    if defs == [] then []
    else
      var last := defs[|defs| - 1];
      var rest := RouteSource(namespace, labels, defs[..|defs| - 1]);
      assert forall d :: d in defs <==> d in defs[..|defs| - 1] || d == last;
      if Selects(last, namespace, labels) then rest + [MirrorKeyOf(last)] else rest
  }

  /** Routing keeps the order of the definition list: it distributes over concatenation. */
  lemma {:induction false} RouteSourceConcat(namespace: string, labels: map<string, string>, a: seq<ConfigMirror>, b: seq<ConfigMirror>)
    ensures RouteSource(namespace, labels, a + b) == RouteSource(namespace, labels, a) + RouteSource(namespace, labels, b)
  {
    if b != [] {
      var b' := b[..|b| - 1];
      assert (a + b)[..|a + b| - 1] == a + b';
      assert (a + b)[|a + b| - 1] == b[|b| - 1];
      RouteSourceConcat(namespace, labels, a, b');
    } else {
      assert a + b == a;
    }
  }

  predicate IsReplica(obj: ConfigMap) {
    MirrorAnnotation in obj.annotations
  }

  /** The namespace a replica records as its source ("" when the annotation is missing). */
  function RecordedSourceNamespace(obj: ConfigMap): string {
    ValueOrEmpty(obj.annotations, SourceNamespaceAnnotation)
  }

  /**
   * `EnqueueRequest` as a function of the changed object, the live store and
   * its Get-fault oracle, and the definition list.
   */
  function Route(obj: ConfigMap, store: map<ObjectKey, ConfigMap>, getFault: ObjectKey -> Option<string>,
                 defs: seq<ConfigMirror>): (r: seq<ObjectKey>)
    ensures !IsReplica(obj) ==> r == RouteSource(obj.namespace, obj.labels, defs)
    ensures IsReplica(obj) && KeyOf(obj) in store ==> r == []
    ensures IsReplica(obj) && getFault(KeyOf(obj)).Some? ==> r == []
    ensures IsReplica(obj) && KeyOf(obj) !in store && getFault(KeyOf(obj)).None? ==>
              r == RouteSource(RecordedSourceNamespace(obj), obj.labels, defs)
  {
    if IsReplica(obj) then
      match Lookup(store, getFault, KeyOf(obj))
      case Failure(NotFound(_)) => RouteSource(RecordedSourceNamespace(obj), obj.labels, defs)
      case Failure(_) => []
      case Success(_) => []
    else
      RouteSource(obj.namespace, obj.labels, defs)
  }
}
