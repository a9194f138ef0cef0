/**
 * The reconciler: `Reconcile` fetches one ConfigMirror definition, lists the
 * matching ConfigMaps of its source namespace and replicates them into every
 * target namespace; `EnqueueRequest` maps a ConfigMap event to the
 * definitions that must reconcile.
 */
module Controller {
  import opened Wrappers
  import opened Kube
  import opened Utils
  import opened Selector
  import opened Router
  import opened Repository
  import opened Replication

  /**
   * One reconciliation as a function of the definition lookup, the API
   * server's listing and its list-fault oracle: a failed lookup or list stops
   * with that error and writes nothing; an empty match is a no-op; otherwise
   * the pairs of the definition are replicated.
   */
  function ReconcileOutcome(s: Outcome, def: Result<ConfigMirror, Error>, listing: seq<ConfigMap>,
                            listFault: string -> Option<string>, b: Backend): Outcome
    requires s.err.None?
  {
    match def
    case Failure(e) => s.(err := Some(e))
    case Success(m) =>
      match FetchMatching(m, listing, listFault(m.sourceNamespace))
      case Failure(e) => s.(err := Some(e))
      case Success(items) =>
        if |items| > 0 then Replicate(s, Pairs(m.targetNamespaces, items), m, b) else s
  }

  /** The pairs a pass has done after `t` whole target namespaces and `i` sources of the next one. */
  function Done(targets: seq<string>, items: seq<ConfigMap>, t: nat, i: nat): seq<Pair>
    requires t < |targets| && i <= |items|
  {
    Pairs(targets[..t], items) + Sweep(targets[t], items[..i])
  }

  /** What is done so far is a prefix of the whole pass. */
  lemma DoneIsPrefix(targets: seq<string>, items: seq<ConfigMap>, t: nat, i: nat)
    requires t < |targets| && i <= |items|
    ensures Done(targets, items, t, i) <= Pairs(targets, items)
  {
    assert targets[..t + 1][..t] == targets[..t];
    assert Pairs(targets[..t + 1], items) == Pairs(targets[..t], items) + Sweep(targets[t], items);
    PairsPrefix(targets, items, t + 1);
  }

  /** Sweeping one more source of the current target namespace. */
  lemma DoneNext(targets: seq<string>, items: seq<ConfigMap>, t: nat, i: nat)
    requires t < |targets| && i < |items|
    ensures Done(targets, items, t, i + 1) == Done(targets, items, t, i) + [Pair(targets[t], items[i])]
  {
    assert Sweep(targets[t], items[..i + 1]) == Sweep(targets[t], items[..i]) + [Pair(targets[t], items[i])];
  }

  /** Finishing a target namespace. */
  lemma DoneTarget(targets: seq<string>, items: seq<ConfigMap>, t: nat)
    requires t < |targets|
    ensures Done(targets, items, t, |items|) == Pairs(targets[..t + 1], items)
  {
    assert targets[..t + 1][..t] == targets[..t];
    assert items[..|items|] == items;
  }

  /** A pass over one more pair is one more step, unless it had already stopped. */
  lemma ReplicateSnoc(s: Outcome, pairs: seq<Pair>, p: Pair, m: ConfigMirror, b: Backend)
    requires s.err.None?
    requires Replicate(s, pairs, m, b).err.None?
    ensures Replicate(s, pairs + [p], m, b) == Step(Replicate(s, pairs, m, b), p, m, b)
  {
    assert (pairs + [p])[..|pairs|] == pairs;
  }

  class ConfigMirrorReconciler {
    const client: Cluster
    const repository: ConfigMapRepository
    /** The process environment, read for the persistence flag. */
    const env: map<string, string>

    constructor (client: Cluster, repository: ConfigMapRepository, env: map<string, string>)
      ensures this.client == client && this.repository == repository && this.env == env
    {
      this.client := client;
      this.repository := repository;
      this.env := env;
    }

    /** The oracles and settings a pass at time `now` runs against. */
    function BackendAt(now: int): Backend {
      Backend(client.patchFault, repository.marshal, repository.execFault, SaveReplicationAction(env), now)
    }

    /**
     * `replicateConfigMaps`: for every target namespace, for every source,
     * apply the stripped and stamped replica and record it when persistence
     * is on; the first failure is returned and ends the pass.
     */
    method ReplicateConfigMaps(m: ConfigMirror, items: seq<ConfigMap>, now: int) returns (err: Option<Error>)
      modifies client, repository
      ensures Outcome(err, client.configMaps, repository.rows)
        == Replicate(Outcome(None, old(client.configMaps), old(repository.rows)), Pairs(m.targetNamespaces, items), m, BackendAt(now))
    {
      ghost var start := Outcome(None, client.configMaps, repository.rows);
      ghost var b := BackendAt(now);
      var targets := m.targetNamespaces;
      for t := 0 to |targets|
        invariant Outcome(None, client.configMaps, repository.rows) == Replicate(start, Pairs(targets[..t], items), m, b)
      {
        var target := targets[t];
        DoneTarget(targets, items, t);
        assert items[..0] == [] && Sweep(target, []) == [];
        assert Done(targets, items, t, 0) == Pairs(targets[..t], items);
        for i := 0 to |items|
          invariant Outcome(None, client.configMaps, repository.rows) == Replicate(start, Done(targets, items, t, i), m, b)
        {
          var source := items[i];
          DoneNext(targets, items, t, i);
          ReplicateSnoc(start, Done(targets, items, t, i), Pair(target, source), m, b);

          err := ReplicatePair(m, target, source, now);
          if err.Some? {
            DoneIsPrefix(targets, items, t, i + 1);
            FailureIsFinal(start, Done(targets, items, t, i + 1), Pairs(targets, items), m, b);
            return;
          }
        }
      }
      assert targets[..|targets|] == targets;
      err := None;
    }

    /**
     * The body of the inner loop of `replicateConfigMaps`: copy the source,
     * move it to the target namespace, clear its cluster identity and the
     * last-applied annotation, stamp the provenance annotations, apply it,
     * then record it when persistence is on.
     */
    method ReplicatePair(m: ConfigMirror, target: string, source: ConfigMap, now: int) returns (err: Option<Error>)
      modifies client, repository
      ensures Outcome(err, client.configMaps, repository.rows)
        == Step(Outcome(None, old(client.configMaps), old(repository.rows)), Pair(target, source), m, BackendAt(now))
    {
      var replica := source;
      replica := replica.(namespace := target);
      replica := replica.(uid := "");
      replica := replica.(resourceVersion := "");
      replica := replica.(hasManagedFields := false);
      replica := replica.(annotations := replica.annotations - {LastAppliedAnnotation});
      replica := replica.(annotations := StampProvenance(replica.annotations, source, m));
      assert replica == ReplicaOf(Pair(target, source), m);

      var patchErr := client.Patch(replica);
      if patchErr.Some? {
        return Some(ReplicationFailed(source.namespace, source.name, replica.namespace, replica.name, patchErr.value));
      }
      if SaveReplicationAction(env) {
        err := repository.AddOrUpdate(replica, now);
        if err.Some? {
          return err;
        }
      }
      err := None;
    }

    /**
     * `Reconcile` for the request `req`, given the API server's listing for
     * the definition's source namespace.
     */
    method Reconcile(req: ObjectKey, listing: seq<ConfigMap>, now: int) returns (err: Option<Error>)
      modifies client, repository
      ensures Outcome(err, client.configMaps, repository.rows)
        == ReconcileOutcome(Outcome(None, old(client.configMaps), old(repository.rows)),
                            Lookup(client.mirrors, client.mirrorGetFault, req), listing, client.listFault, BackendAt(now))
    {
      var def := Lookup(client.mirrors, client.mirrorGetFault, req);
      if def.Failure? {
        return Some(def.error);
      }
      var configMirror := def.value;
      var fetched := FetchMatching(configMirror, listing, client.listFault(configMirror.sourceNamespace));
      if fetched.Failure? {
        return Some(fetched.error);
      }
      if |fetched.value| > 0 {
        err := ReplicateConfigMaps(configMirror, fetched.value, now);
        if err.Some? {
          return err;
        }
      }
      err := None;
    }

    /**
     * `EnqueueRequest`: the requests for a changed ConfigMap, given the
     * definition list. A live replica, or one whose lookup fails, yields no
     * request; a deleted replica is moved to its recorded source namespace
     * (`updated` is the event object afterwards) and routed from there.
     */
    method EnqueueRequest(obj: ConfigMap, definitions: seq<ConfigMirror>) returns (reqs: seq<ObjectKey>, updated: ConfigMap)
      ensures reqs == Route(obj, client.configMaps, client.getFault, definitions)
      ensures updated == if IsReplica(obj) && KeyOf(obj) !in client.configMaps && client.getFault(KeyOf(obj)).None?
                         then obj.(namespace := RecordedSourceNamespace(obj)) else obj
    {
      reqs := [];
      updated := obj;
      if MirrorAnnotation in obj.annotations {
        var live := Lookup(client.configMaps, client.getFault, KeyOf(obj));
        if live.Failure? && live.error.NotFound? {
          updated := updated.(namespace := ValueOrEmpty(obj.annotations, SourceNamespaceAnnotation));
        } else {
          return;
        }
      }
      for i := 0 to |definitions|
        invariant reqs == RouteSource(updated.namespace, obj.labels, definitions[..i])
      {
        assert definitions[..i + 1][..i] == definitions[..i];
        var configMirror := definitions[i];
        if updated.namespace == configMirror.sourceNamespace && Matches(configMirror.matchLabels, updated.labels) {
          reqs := reqs + [ObjectKey(configMirror.namespace, configMirror.name)];
        }
      }
      assert definitions[..|definitions|] == definitions;
    }
  }

  /** A failed definition lookup or listing returns its error and writes nothing. */
  lemma ReconcileFailsWithoutWrites(s: Outcome, def: Result<ConfigMirror, Error>, listing: seq<ConfigMap>,
                                    listFault: string -> Option<string>, b: Backend)
    requires s.err.None?
    requires def.Failure? || listFault(def.value.sourceNamespace).Some?
    ensures var r := ReconcileOutcome(s, def, listing, listFault, b);
            && r.configMaps == s.configMaps && r.rows == s.rows
            && (def.Failure? ==> r.err == Some(def.error))
            && (def.Success? ==> r.err == Some(ApiFault(listFault(def.value.sourceNamespace).value)))
  {
  }

  /** A definition that matches no ConfigMap of its source namespace changes nothing. */
  lemma NoMatchIsNoop(s: Outcome, m: ConfigMirror, listing: seq<ConfigMap>, listFault: string -> Option<string>, b: Backend)
    requires s.err.None? && listFault(m.sourceNamespace).None?
    requires forall c :: c in listing && c.namespace == m.sourceNamespace ==> !Matches(m.matchLabels, c.labels)
    ensures ReconcileOutcome(s, Success(m), listing, listFault, b) == s
  {
    SelectNone(listing, m.sourceNamespace, m.matchLabels);
  }

  /**
   * After a successful reconciliation, every target namespace holds, under
   * the source's name, the replica of every matching source: the source's
   * labels and data, no cluster identity, and the three provenance
   * annotations. An event about that replica is then dropped.
   */
  lemma ReconcileEstablishesReplicas(s: Outcome, m: ConfigMirror, listing: seq<ConfigMap>,
                                     listFault: string -> Option<string>, b: Backend,
                                     source: ConfigMap, target: string,
                                     getFault: ObjectKey -> Option<string>, defs: seq<ConfigMirror>)
    requires s.err.None? && listFault(m.sourceNamespace).None?
    requires ReconcileOutcome(s, Success(m), listing, listFault, b).err.None?
    requires UniqueKeys(listing)
    requires source in listing && source.namespace == m.sourceNamespace && Matches(m.matchLabels, source.labels)
    requires target in m.targetNamespaces
    ensures var store := ReconcileOutcome(s, Success(m), listing, listFault, b).configMaps;
            var key := ObjectKey(target, source.name);
            && key in store
            && store[key] == BuildReplica(source, m, target)
            && store[key].labels == source.labels && store[key].data == source.data
            && store[key].annotations[MirrorAnnotation] == source.uid
            && store[key].annotations[SourceNamespaceAnnotation] == source.namespace
            && store[key].annotations[ManagedByAnnotation] == m.namespace + "/" + m.name
            && Route(store[key], store, getFault, defs) == []
  {
    var items := Select(listing, m.sourceNamespace, m.matchLabels);
    var pairs := Pairs(m.targetNamespaces, items);
    var p := Pair(target, source);
    assert source in items;
    ReplicateSuccessWritesAll(s, pairs, m, b);
    forall c, d | c in items && d in items && c.name == d.name
      ensures c == d
    {
      SelectedNamesUnique(listing, m.sourceNamespace, m.matchLabels, c, d);
    }
    ConsistentWhenNamesUnique(m.targetNamespaces, items, m);
    PairsMembers(m.targetNamespaces, items, p);
    WrittenHoldsReplica(s.configMaps, pairs, m, p);
  }

  /**
   * A deleted replica is routed from its source's namespace with its source's
   * labels, so every definition selecting the source, its own included,
   * reconciles. For a source without the mirror annotation this is exactly
   * the route of the source's own event; a source that is itself a live
   * replica of another definition routes nowhere, while its deleted replica
   * still does.
   */
  lemma DeletedReplicaRoutesToItsDefinition(source: ConfigMap, m: ConfigMirror, target: string,
                                            store: map<ObjectKey, ConfigMap>, getFault: ObjectKey -> Option<string>,
                                            defs: seq<ConfigMirror>)
    requires KeyOf(BuildReplica(source, m, target)) !in store
    requires getFault(KeyOf(BuildReplica(source, m, target))).None?
    ensures Route(BuildReplica(source, m, target), store, getFault, defs) == RouteSource(source.namespace, source.labels, defs)
    ensures !IsReplica(source) ==>
              Route(BuildReplica(source, m, target), store, getFault, defs) == Route(source, store, getFault, defs)
    ensures m in defs && source.namespace == m.sourceNamespace && Matches(m.matchLabels, source.labels) ==>
              MirrorKeyOf(m) in Route(BuildReplica(source, m, target), store, getFault, defs)
  {
    var replica := BuildReplica(source, m, target);
    assert RecordedSourceNamespace(replica) == source.namespace;
    if m in defs && source.namespace == m.sourceNamespace && Matches(m.matchLabels, source.labels) {
      assert Selects(m, source.namespace, source.labels);
    }
  }

  /**
   * Chained definitions: when a source is itself a live replica, an event on
   * it is dropped, but the deletion of its own replica is still routed to the
   * definition that selects it.
   */
  lemma ChainedSourceIgnored(source: ConfigMap, m: ConfigMirror, target: string,
                             store: map<ObjectKey, ConfigMap>, getFault: ObjectKey -> Option<string>,
                             defs: seq<ConfigMirror>)
    requires IsReplica(source) && KeyOf(source) in store
    requires KeyOf(BuildReplica(source, m, target)) !in store
    requires getFault(KeyOf(BuildReplica(source, m, target))).None?
    requires m in defs && source.namespace == m.sourceNamespace && Matches(m.matchLabels, source.labels)
    ensures Route(source, store, getFault, defs) == []
    ensures MirrorKeyOf(m) in Route(BuildReplica(source, m, target), store, getFault, defs)
  {
    DeletedReplicaRoutesToItsDefinition(source, m, target, store, getFault, defs);
  }

  /**
   * Reconciling twice with the same definition and listing leaves the
   * cluster's ConfigMaps as the first reconciliation left them. The listing
   * is held fixed: when a target namespace is the source namespace, the first
   * pass overwrites each source with its stamped replica, a real second List
   * would return those stamped objects, and this lemma does not describe
   * that run.
   */
  lemma ReconcileIdempotent(s: Outcome, def: Result<ConfigMirror, Error>, listing: seq<ConfigMap>,
                            listFault: string -> Option<string>, b: Backend, b': Backend)
    requires s.err.None?
    requires ReconcileOutcome(s, def, listing, listFault, b).err.None?
    requires ReconcileOutcome(ReconcileOutcome(s, def, listing, listFault, b), def, listing, listFault, b').err.None?
    ensures ReconcileOutcome(ReconcileOutcome(s, def, listing, listFault, b), def, listing, listFault, b').configMaps
         == ReconcileOutcome(s, def, listing, listFault, b).configMaps
  {
    var first := ReconcileOutcome(s, def, listing, listFault, b);
    var m := def.value;
    var items := Select(listing, m.sourceNamespace, m.matchLabels);
    if |items| > 0 {
      var pairs := Pairs(m.targetNamespaces, items);
      ReplicateSuccessWritesAll(s, pairs, m, b);
      ReplicateSuccessWritesAll(first, pairs, m, b');
      WrittenIdempotent(s.configMaps, pairs, m);
    }
  }

  /** One target namespace and one source give one pair. */
  lemma OnePair(target: string, c: ConfigMap)
    ensures Pairs([target], [c]) == [Pair(target, c)]
  {
    PairsLength([target], [c]);
    PairsAt([target], [c], 0, 0);
  }

  /**
   * A definition in "default" selecting app=test into "team-a", and a
   * matching ConfigMap "cfg": a successful reconcile leaves "cfg" in "team-a"
   * managed by "default/test-configmirror".
   */
  lemma ScenarioMatching(s: Outcome, m: ConfigMirror, cfg: ConfigMap, listFault: string -> Option<string>, b: Backend)
    requires s.err.None? && listFault("default").None?
    requires m.namespace == "default" && m.name == "test-configmirror"
    requires m.sourceNamespace == "default" && m.targetNamespaces == ["team-a"] && m.matchLabels == map["app" := "test"]
    requires cfg.namespace == "default" && cfg.name == "cfg" && cfg.labels == map["app" := "test"]
    requires b.patchFault(BuildReplica(cfg, m, "team-a")).None? && !b.save
    ensures ReconcileOutcome(s, Success(m), [cfg], listFault, b).err.None?
    ensures var store := ReconcileOutcome(s, Success(m), [cfg], listFault, b).configMaps;
            && ObjectKey("team-a", "cfg") in store
            && store[ObjectKey("team-a", "cfg")].annotations[ManagedByAnnotation] == "default" + "/" + "test-configmirror"
  {
    assert Matches(m.matchLabels, cfg.labels);
    assert "team-a" in m.targetNamespaces;
    var items := Select([cfg], m.sourceNamespace, m.matchLabels);
    assert items == [cfg] by {
      assert cfg in items;
      assert |items| <= 1;
    }
    var pairs := Pairs(m.targetNamespaces, items);
    OnePair("team-a", cfg);
    assert pairs == [Pair("team-a", cfg)];
    assert FetchMatching(m, [cfg], listFault(m.sourceNamespace)) == Success(items);
    assert pairs[..0] == [];
    assert Replicate(s, pairs, m, b) == Step(s, Pair("team-a", cfg), m, b);
    assert ReconcileOutcome(s, Success(m), [cfg], listFault, b) == Step(s, Pair("team-a", cfg), m, b);
    ReconcileEstablishesReplicas(s, m, [cfg], listFault, b, cfg, "team-a", k => None, []);
  }

  /** The same setup with selector app=other changes nothing. */
  lemma ScenarioNotMatching(s: Outcome, cfg: ConfigMap, listFault: string -> Option<string>, b: Backend)
    requires s.err.None? && listFault("default").None?
    requires cfg.namespace == "default" && cfg.name == "cfg" && cfg.labels == map["app" := "test"]
    ensures ReconcileOutcome(s, Success(ConfigMirror("default", "test-configmirror", "default", ["team-a"], map["app" := "other"])),
                             [cfg], listFault, b) == s
  {
    var m := ConfigMirror("default", "test-configmirror", "default", ["team-a"], map["app" := "other"]);
    assert !Matches(m.matchLabels, cfg.labels) by {
      assert "app" in m.matchLabels;
    }
    NoMatchIsNoop(s, m, [cfg], listFault, b);
  }
}
