/**
 * The replication engine. A replica is the source ConfigMap moved to a target
 * namespace, stripped of its cluster identity and of kubectl's last-applied
 * annotation, and stamped with three provenance annotations. A pass applies
 * one replica per (target namespace, source) pair, target-outer and
 * source-inner, records each applied replica when persistence is on, and
 * stops at the first failure.
 */
module Replication {
  import opened Wrappers
  import opened Kube
  import opened Utils
  import opened Repository

  /** `<definitionNamespace>/<definitionName>`, the managed-by value. */
  function ManagedByValue(m: ConfigMirror): string {
    m.namespace + "/" + m.name
  }

  /**
   * `updateConfigMapAnnotations`: the three provenance keys get the source's
   * UID, the source's namespace and the definition's identity, whatever they
   * held before; every other annotation is kept.
   */
  function StampProvenance(annotations: map<string, string>, source: ConfigMap, m: ConfigMirror): (r: map<string, string>)
    ensures r.Keys == annotations.Keys + {MirrorAnnotation, SourceNamespaceAnnotation, ManagedByAnnotation}
    ensures r[MirrorAnnotation] == source.uid
    ensures r[SourceNamespaceAnnotation] == source.namespace
    ensures r[ManagedByAnnotation] == ManagedByValue(m)
    ensures forall k :: k in annotations && k !in {MirrorAnnotation, SourceNamespaceAnnotation, ManagedByAnnotation} ==>
              r[k] == annotations[k]
  {
    ProvenanceKeysDistinct();
    annotations[MirrorAnnotation := source.uid]
               [SourceNamespaceAnnotation := source.namespace]
               [ManagedByAnnotation := ManagedByValue(m)]
  }

  /** Stamping an empty annotation map yields exactly the three provenance entries. */
  lemma StampOnEmpty(source: ConfigMap, m: ConfigMirror)
    ensures StampProvenance(map[], source, m) ==
      map[ManagedByAnnotation := m.namespace + "/" + m.name,
          SourceNamespaceAnnotation := source.namespace,
          MirrorAnnotation := source.uid]
  {
    ProvenanceKeysDistinct();
  }

  /** The replica of `source` that definition `m` applies into `target`. */
  function BuildReplica(source: ConfigMap, m: ConfigMirror, target: string): (r: ConfigMap)
    ensures r.namespace == target && r.name == source.name
    ensures r.labels == source.labels && r.data == source.data
    ensures r.uid == "" && r.resourceVersion == "" && !r.hasManagedFields
    ensures LastAppliedAnnotation !in r.annotations
    ensures r.annotations.Keys ==
              source.annotations.Keys - {LastAppliedAnnotation} + {MirrorAnnotation, SourceNamespaceAnnotation, ManagedByAnnotation}
    ensures r.annotations[MirrorAnnotation] == source.uid
    ensures r.annotations[SourceNamespaceAnnotation] == source.namespace
    ensures r.annotations[ManagedByAnnotation] == ManagedByValue(m)
    ensures forall k :: k in source.annotations && k !in {LastAppliedAnnotation, MirrorAnnotation, SourceNamespaceAnnotation, ManagedByAnnotation} ==>
              r.annotations[k] == source.annotations[k]
  {
    ProvenanceKeysDistinct();
    var stripped := source.(namespace := target, uid := "", resourceVersion := "", hasManagedFields := false,
                            annotations := source.annotations - {LastAppliedAnnotation});
    stripped.(annotations := StampProvenance(stripped.annotations, source, m))
  }

  /** One unit of work of a pass. */
  datatype Pair = Pair(target: string, source: ConfigMap)

  function ReplicaOf(p: Pair, m: ConfigMirror): ConfigMap {
    BuildReplica(p.source, m, p.target)
  }

  /** The pairs of one target namespace, in source order. */
  function Sweep(target: string, items: seq<ConfigMap>): (r: seq<Pair>)
    ensures |r| == |items|
    ensures forall i :: 0 <= i < |items| ==> r[i] == Pair(target, items[i])
  {
    seq(|items|, i requires 0 <= i < |items| => Pair(target, items[i]))
  }

  /** All pairs of a pass: target namespaces outer, sources inner. */
  function Pairs(targets: seq<string>, items: seq<ConfigMap>): seq<Pair>
  {
    if targets == [] then []
    else Pairs(targets[..|targets| - 1], items) + Sweep(targets[|targets| - 1], items)
  }

  /** A pass covers every (target, source) combination and nothing else. */
  lemma {:induction false} PairsMembers(targets: seq<string>, items: seq<ConfigMap>, p: Pair)
    ensures p in Pairs(targets, items) <==> p.target in targets && p.source in items
  {
    if targets != [] {
      var init := targets[..|targets| - 1];
      var last := targets[|targets| - 1];
      PairsMembers(init, items, p);
      assert p in Sweep(last, items) <==> p.target == last && p.source in items by {
        if p.target == last && p.source in items {
          var i :| 0 <= i < |items| && items[i] == p.source;
          assert Sweep(last, items)[i] == p;
        }
      }
      assert targets == init + [last];
    }
  }

  /** A pass has one pair per (target, source) combination. */
  lemma {:induction false} PairsLength(targets: seq<string>, items: seq<ConfigMap>)
    ensures |Pairs(targets, items)| == |targets| * |items|
  {
    if targets != [] {
      PairsLength(targets[..|targets| - 1], items);
      assert |targets| * |items| == (|targets| - 1) * |items| + |items|;
    }
  }

  lemma RowBeforeLast(t: nat, i: nat, n: nat, k: nat)
    requires t < k && i < n
    ensures t * n + i < k * n
  {
    assert (t + 1) * n <= k * n;
  }

  /**
   * Target namespaces outer, sources inner: pair number `t * |items| + i`
   * of a pass is (targets[t], items[i]).
   */
  lemma {:induction false} PairsAt(targets: seq<string>, items: seq<ConfigMap>, t: nat, i: nat)
    requires t < |targets| && i < |items|
    ensures t * |items| + i < |Pairs(targets, items)|
    ensures Pairs(targets, items)[t * |items| + i] == Pair(targets[t], items[i])
  {
    var init := targets[..|targets| - 1];
    PairsLength(init, items);
    PairsLength(targets, items);
    if t < |init| {
      RowBeforeLast(t, i, |items|, |init|);
      PairsAt(init, items, t, i);
    } else {
      assert t * |items| == |Pairs(init, items)|;
    }
  }

  /** Dropping trailing target namespaces leaves a prefix of the pass. */
  lemma {:induction false} PairsPrefix(targets: seq<string>, items: seq<ConfigMap>, t: nat)
    requires t <= |targets|
    ensures Pairs(targets[..t], items) <= Pairs(targets, items)
    decreases |targets| - t
  {
    if t < |targets| {
      var init := targets[..|targets| - 1];
      assert targets[..t] == init[..t];
      PairsPrefix(init, items, t);
    } else {
      assert targets[..t] == targets;
    }
  }

  /** The oracles a pass consults: apply faults, JSON encoding, audit-write faults, the persistence flag and the clock. */
  datatype Backend = Backend(
    patchFault: ConfigMap -> Option<string>,
    marshal: ConfigMap -> Result<string, string>,
    execFault: ConfigMap -> Option<string>,
    save: bool,
    now: int)

  /** What a pass has done so far: its error (if it stopped), the cluster's ConfigMaps and the audit table. */
  datatype Outcome = Outcome(err: Option<Error>, configMaps: map<ObjectKey, ConfigMap>, rows: map<RowKey, Row>)

  /**
   * One pair: apply the replica; on failure stop with an error naming source
   * and destination; on success record it when persistence is on.
   */
  function Step(s: Outcome, p: Pair, m: ConfigMirror, b: Backend): (r: Outcome)
    requires s.err.None?
    ensures b.patchFault(ReplicaOf(p, m)).Some? ==>
      r == s.(err := Some(ReplicationFailed(p.source.namespace, p.source.name, p.target, p.source.name,
                                            b.patchFault(ReplicaOf(p, m)).value)))
    ensures b.patchFault(ReplicaOf(p, m)).None? ==> r.configMaps == s.configMaps[KeyOf(ReplicaOf(p, m)) := ReplicaOf(p, m)]
    ensures !b.save ==> r.rows == s.rows
    ensures !b.save && b.patchFault(ReplicaOf(p, m)).None? ==> r.err.None?
    ensures b.save && b.patchFault(ReplicaOf(p, m)).None? ==>
      (r.err, r.rows) == SaveOutcome(s.rows, ReplicaOf(p, m), b.marshal(ReplicaOf(p, m)), b.execFault(ReplicaOf(p, m)), b.now)
    ensures r.err.Some? && !r.err.value.ReplicationFailed? ==> b.save
  {
    var replica := ReplicaOf(p, m);
    match b.patchFault(replica)
    case Some(msg) =>
      s.(err := Some(ReplicationFailed(p.source.namespace, p.source.name, replica.namespace, replica.name, msg)))
    case None =>
      var configMaps := s.configMaps[KeyOf(replica) := replica];
      if !b.save then Outcome(None, configMaps, s.rows)
      else
        var (e, rows) := SaveOutcome(s.rows, replica, b.marshal(replica), b.execFault(replica), b.now);
        Outcome(e, configMaps, rows)
  }

  /** `replicateConfigMaps` over a sequence of pairs, stopping at the first error. */
  function Replicate(s: Outcome, pairs: seq<Pair>, m: ConfigMirror, b: Backend): Outcome
    requires s.err.None?
  {
    if pairs == [] then s
    else
      var before := Replicate(s, pairs[..|pairs| - 1], m, b);
      if before.err.Some? then before else Step(before, pairs[|pairs| - 1], m, b)
  }

  /** The store after applying the replicas of `pairs` in order. */
  function Written(store: map<ObjectKey, ConfigMap>, pairs: seq<Pair>, m: ConfigMirror): map<ObjectKey, ConfigMap>
  {
    if pairs == [] then store
    else
      var r := ReplicaOf(pairs[|pairs| - 1], m);
      Written(store, pairs[..|pairs| - 1], m)[KeyOf(r) := r]
  }

  /** Once a pass has failed, further pairs are never attempted. */
  lemma {:induction false} FailureIsFinal(s: Outcome, a: seq<Pair>, longer: seq<Pair>, m: ConfigMirror, b: Backend)
    requires s.err.None?
    requires a <= longer
    requires Replicate(s, a, m, b).err.Some?
    ensures Replicate(s, longer, m, b) == Replicate(s, a, m, b)
    decreases |longer|
  {
    if |longer| > |a| {
      var init := longer[..|longer| - 1];
      assert a <= init;
      FailureIsFinal(s, a, init, m, b);
    } else {
      assert a == longer;
    }
  }

  /** One more pair: a pass either stops before it, stops at it, or writes its replica. */
  lemma ReplicateLast(s: Outcome, pairs: seq<Pair>, m: ConfigMirror, b: Backend)
    requires s.err.None? && pairs != []
    ensures var before := Replicate(s, pairs[..|pairs| - 1], m, b);
            var out := Replicate(s, pairs, m, b);
            var r := ReplicaOf(pairs[|pairs| - 1], m);
            || (before.err.Some? && out == before)
            || (before.err.None? && b.patchFault(r).Some? && out.configMaps == before.configMaps
                && out.err == Some(ApplyError(pairs[|pairs| - 1], b.patchFault(r).value)))
            || (before.err.None? && b.patchFault(r).None? && out.configMaps == before.configMaps[KeyOf(r) := r]
                && (out.err.Some? ==> !out.err.value.ReplicationFailed?))
  {
  }

  /** A successful pass applied every replica, in order. */
  lemma {:induction false} ReplicateSuccessWritesAll(s: Outcome, pairs: seq<Pair>, m: ConfigMirror, b: Backend)
    requires s.err.None?
    requires Replicate(s, pairs, m, b).err.None?
    ensures Replicate(s, pairs, m, b).configMaps == Written(s.configMaps, pairs, m)
    ensures forall p :: p in pairs ==> b.patchFault(ReplicaOf(p, m)).None?
  {
    if pairs != [] {
      var init := pairs[..|pairs| - 1];
      ReplicateLast(s, pairs, m, b);
      ReplicateSuccessWritesAll(s, init, m, b);
      assert pairs == init + [pairs[|pairs| - 1]];
    }
  }

  /**
   * Whatever the outcome, the store holds the replicas of some prefix of the
   * pairs, written in order. Which prefix is named by ReplicateFailureIsFirst
   * for an apply failure and by SaveFailedAt for an audit-write failure.
   */
  lemma {:induction false} ReplicateWritesPrefix(s: Outcome, pairs: seq<Pair>, m: ConfigMirror, b: Backend)
    requires s.err.None?
    ensures exists j :: 0 <= j <= |pairs| && Replicate(s, pairs, m, b).configMaps == Written(s.configMaps, pairs[..j], m)
  {
    if pairs == [] {
      assert Replicate(s, pairs, m, b).configMaps == Written(s.configMaps, pairs[..0], m);
    } else {
      var init := pairs[..|pairs| - 1];
      var before := Replicate(s, init, m, b);
      ReplicateLast(s, pairs, m, b);
      if before.err.Some? {
        ReplicateWritesPrefix(s, init, m, b);
        var j :| 0 <= j <= |init| && before.configMaps == Written(s.configMaps, init[..j], m);
        assert init[..j] == pairs[..j];
      } else {
        StoreAfterLast(s, pairs, m, b);
        assert pairs[..|pairs|] == pairs;
      }
    }
  }

  /** After a clean run over all but the last pair, the store holds the replicas of all pairs or of all but the last. */
  lemma StoreAfterLast(s: Outcome, pairs: seq<Pair>, m: ConfigMirror, b: Backend)
    requires s.err.None? && pairs != []
    requires Replicate(s, pairs[..|pairs| - 1], m, b).err.None?
    ensures || Replicate(s, pairs, m, b).configMaps == Written(s.configMaps, pairs[..|pairs| - 1], m)
            || Replicate(s, pairs, m, b).configMaps == Written(s.configMaps, pairs, m)
  {
    ReplicateLast(s, pairs, m, b);
    ReplicateSuccessWritesAll(s, pairs[..|pairs| - 1], m, b);
  }


  /** The error of a failed apply, naming source and destination. */
  function ApplyError(p: Pair, msg: string): Error {
    ReplicationFailed(p.source.namespace, p.source.name, p.target, p.source.name, msg)
  }

  /** Pair `i` is the first whose apply fails. */
  ghost predicate FirstApplyFailure(pairs: seq<Pair>, m: ConfigMirror, b: Backend, i: int) {
    && 0 <= i < |pairs|
    && (forall j :: 0 <= j < i ==> b.patchFault(ReplicaOf(pairs[j], m)).None?)
    && b.patchFault(ReplicaOf(pairs[i], m)).Some?
  }

  /**
   * A pass that failed on an apply stopped at the first pair whose apply
   * failed, and its error names that pair's source and destination.
   */
  lemma {:induction false} ReplicateFailureIsFirst(s: Outcome, pairs: seq<Pair>, m: ConfigMirror, b: Backend)
    requires s.err.None?
    requires Replicate(s, pairs, m, b).err.Some? && Replicate(s, pairs, m, b).err.value.ReplicationFailed?
    ensures exists i :: FirstApplyFailure(pairs, m, b, i)
              && Replicate(s, pairs, m, b).err.value == ApplyError(pairs[i], b.patchFault(ReplicaOf(pairs[i], m)).value)
              && Replicate(s, pairs, m, b).configMaps == Written(s.configMaps, pairs[..i], m)
  {
    var init := pairs[..|pairs| - 1];
    var before := Replicate(s, init, m, b);
    ReplicateLast(s, pairs, m, b);
    if before.err.Some? {
      ReplicateFailureIsFirst(s, init, m, b);
      var i :| FirstApplyFailure(init, m, b, i)
               && before.err.value == ApplyError(init[i], b.patchFault(ReplicaOf(init[i], m)).value)
               && before.configMaps == Written(s.configMaps, init[..i], m);
      FirstApplyFailurePrefix(pairs, init, m, b, i);
    } else {
      ReplicateSuccessWritesAll(s, init, m, b);
      FirstApplyFailureLast(pairs, m, b);
    }
  }

  /**
   * Pair `i` was applied after a clean run over the pairs before it, and its
   * audit write failed: the replica stays in the store, the table is as
   * before, and the write's error is the pass's error.
   */
  ghost predicate SaveFailedAt(s: Outcome, pairs: seq<Pair>, m: ConfigMirror, b: Backend, i: int)
    requires s.err.None?
  {
    && 0 <= i < |pairs|
    && var before := Replicate(s, pairs[..i], m, b);
       var r := ReplicaOf(pairs[i], m);
       && before.err.None?
       && b.patchFault(r).None?
       && SaveOutcome(before.rows, r, b.marshal(r), b.execFault(r), b.now).0.Some?
       && Replicate(s, pairs, m, b)
            == Outcome(SaveOutcome(before.rows, r, b.marshal(r), b.execFault(r), b.now).0,
                       before.configMaps[KeyOf(r) := r], before.rows)
  }

  /** A pass that ends with an error other than an apply error stopped at a failed audit write. */
  lemma {:induction false} ReplicateSaveFailure(s: Outcome, pairs: seq<Pair>, m: ConfigMirror, b: Backend)
    requires s.err.None?
    requires Replicate(s, pairs, m, b).err.Some? && !Replicate(s, pairs, m, b).err.value.ReplicationFailed?
    ensures b.save
    ensures exists i :: SaveFailedAt(s, pairs, m, b, i)
  {
    var init := pairs[..|pairs| - 1];
    if Replicate(s, init, m, b).err.Some? {
      ReplicateSaveFailure(s, init, m, b);
      var i :| SaveFailedAt(s, init, m, b, i);
      SaveFailedAtPrefix(s, pairs, m, b, i);
    } else {
      SaveFailedAtLast(s, pairs, m, b);
    }
  }

  lemma SaveFailedAtPrefix(s: Outcome, pairs: seq<Pair>, m: ConfigMirror, b: Backend, i: int)
    requires s.err.None? && pairs != []
    requires SaveFailedAt(s, pairs[..|pairs| - 1], m, b, i)
    ensures SaveFailedAt(s, pairs, m, b, i)
  {
    assert pairs[..i] == pairs[..|pairs| - 1][..i];
  }

  lemma SaveFailedAtLast(s: Outcome, pairs: seq<Pair>, m: ConfigMirror, b: Backend)
    requires s.err.None? && pairs != []
    requires Replicate(s, pairs[..|pairs| - 1], m, b).err.None?
    requires Replicate(s, pairs, m, b).err.Some? && !Replicate(s, pairs, m, b).err.value.ReplicationFailed?
    ensures b.save && SaveFailedAt(s, pairs, m, b, |pairs| - 1)
  {
  }

  /** A first failure in a prefix is the first failure of the whole sequence. */
  lemma FirstApplyFailurePrefix(pairs: seq<Pair>, init: seq<Pair>, m: ConfigMirror, b: Backend, i: int)
    requires init <= pairs && FirstApplyFailure(init, m, b, i)
    ensures FirstApplyFailure(pairs, m, b, i) && pairs[i] == init[i] && pairs[..i] == init[..i]
  {
    assert forall j :: 0 <= j <= i ==> pairs[j] == init[j];
  }

  /** When every earlier patch succeeded and the last fails, the last is the first failure. */
  lemma FirstApplyFailureLast(pairs: seq<Pair>, m: ConfigMirror, b: Backend)
    requires pairs != []
    requires forall p :: p in pairs[..|pairs| - 1] ==> b.patchFault(ReplicaOf(p, m)).None?
    requires b.patchFault(ReplicaOf(pairs[|pairs| - 1], m)).Some?
    ensures FirstApplyFailure(pairs, m, b, |pairs| - 1)
  {
    forall j | 0 <= j < |pairs| - 1
      ensures b.patchFault(ReplicaOf(pairs[j], m)).None?
    {
      assert pairs[..|pairs| - 1][j] == pairs[j];
    }
  }

  /**
   * Persistence is consulted only when it is enabled: otherwise the audit
   * table is untouched and every error is an apply error.
   */
  lemma {:induction false} RowsUntouchedWhenDisabled(s: Outcome, pairs: seq<Pair>, m: ConfigMirror, b: Backend)
    requires s.err.None? && !b.save
    ensures Replicate(s, pairs, m, b).rows == s.rows
    ensures Replicate(s, pairs, m, b).err.Some? ==> Replicate(s, pairs, m, b).err.value.ReplicationFailed?
  {
    if pairs != [] {
      RowsUntouchedWhenDisabled(s, pairs[..|pairs| - 1], m, b);
    }
  }

  /** Writing replicas overlays them on the store: other keys keep their objects. */
  lemma {:induction false} WrittenIsOverlay(store: map<ObjectKey, ConfigMap>, pairs: seq<Pair>, m: ConfigMirror)
    ensures Written(store, pairs, m) == store + Written(map[], pairs, m)
  {
    if pairs != [] {
      var init := pairs[..|pairs| - 1];
      var r := ReplicaOf(pairs[|pairs| - 1], m);
      WrittenIsOverlay(store, init, m);
      OverlayUpdate(store, Written(map[], init, m), KeyOf(r), r);
    }
  }

  lemma OverlayUpdate<K, V>(a: map<K, V>, b: map<K, V>, k: K, v: V)
    ensures (a + b)[k := v] == a + b[k := v]
  {
  }

  /** Only replica keys are written. */
  lemma {:induction false} WrittenKeys(pairs: seq<Pair>, m: ConfigMirror, k: ObjectKey)
    ensures k in Written(map[], pairs, m) <==> exists p :: p in pairs && KeyOf(ReplicaOf(p, m)) == k
  {
    if pairs != [] {
      var init := pairs[..|pairs| - 1];
      var last := pairs[|pairs| - 1];
      WrittenKeys(init, m, k);
      assert pairs == init + [last];
    }
  }

  /** Two pairs that address the same replica key produce the same replica. */
  ghost predicate Consistent(pairs: seq<Pair>, m: ConfigMirror) {
    forall p, q :: p in pairs && q in pairs && KeyOf(ReplicaOf(p, m)) == KeyOf(ReplicaOf(q, m)) ==>
      ReplicaOf(p, m) == ReplicaOf(q, m)
  }

  /** Dropping the last pair keeps a pass consistent. */
  lemma ConsistentInit(pairs: seq<Pair>, m: ConfigMirror)
    requires Consistent(pairs, m) && pairs != []
    ensures Consistent(pairs[..|pairs| - 1], m)
  {
    var init := pairs[..|pairs| - 1];
    forall p, q | p in init && q in init && KeyOf(ReplicaOf(p, m)) == KeyOf(ReplicaOf(q, m))
      ensures ReplicaOf(p, m) == ReplicaOf(q, m)
    {
      assert p in pairs && q in pairs;
    }
  }

  /** With consistent pairs, every pair's replica is in the store afterwards. */
  lemma {:induction false} WrittenHoldsReplica(store: map<ObjectKey, ConfigMap>, pairs: seq<Pair>, m: ConfigMirror, p: Pair)
    requires Consistent(pairs, m) && p in pairs
    ensures KeyOf(ReplicaOf(p, m)) in Written(store, pairs, m)
    ensures Written(store, pairs, m)[KeyOf(ReplicaOf(p, m))] == ReplicaOf(p, m)
  {
    var init := pairs[..|pairs| - 1];
    var last := pairs[|pairs| - 1];
    var k :| 0 <= k < |pairs| && pairs[k] == p;
    if k < |pairs| - 1 && KeyOf(ReplicaOf(p, m)) != KeyOf(ReplicaOf(last, m)) {
      assert init[k] == p;
      ConsistentInit(pairs, m);
      WrittenHoldsReplica(store, init, m, p);
    }
  }

  /** Re-applying the same replicas leaves the store unchanged. */
  lemma WrittenIdempotent(store: map<ObjectKey, ConfigMap>, pairs: seq<Pair>, m: ConfigMirror)
    ensures Written(Written(store, pairs, m), pairs, m) == Written(store, pairs, m)
  {
    WrittenIsOverlay(store, pairs, m);
    WrittenIsOverlay(Written(store, pairs, m), pairs, m);
  }

  /** Unique source names make a pass consistent: a replica key determines its pair's replica. */
  lemma ConsistentWhenNamesUnique(targets: seq<string>, items: seq<ConfigMap>, m: ConfigMirror)
    requires forall c, d :: c in items && d in items && c.name == d.name ==> c == d
    ensures Consistent(Pairs(targets, items), m)
  {
    forall p, q | p in Pairs(targets, items) && q in Pairs(targets, items) && KeyOf(ReplicaOf(p, m)) == KeyOf(ReplicaOf(q, m))
      ensures ReplicaOf(p, m) == ReplicaOf(q, m)
    {
      PairsMembers(targets, items, p);
      PairsMembers(targets, items, q);
    }
  }

  /** A successful step leaves the audit rows of other keys as they were. */
  lemma StepKeepsOtherRows(s: Outcome, p: Pair, m: ConfigMirror, b: Backend, k: RowKey)
    requires s.err.None? && Step(s, p, m, b).err.None?
    requires k in s.rows && k != RowKeyOfConfigMap(ReplicaOf(p, m))
    ensures k in Step(s, p, m, b).rows && Step(s, p, m, b).rows[k] == s.rows[k]
  {
  }

  /** With persistence on, a successful step records its replica's JSON and owning definition. */
  lemma StepRecordsRow(s: Outcome, p: Pair, m: ConfigMirror, b: Backend)
    requires s.err.None? && b.save && Step(s, p, m, b).err.None?
    ensures var rows := Step(s, p, m, b).rows;
            var key := RowKeyOfConfigMap(ReplicaOf(p, m));
            && key in rows
            && b.marshal(ReplicaOf(p, m)) == Success(rows[key].jsonData)
            && rows[key].configMirror == ManagedByValue(m)
  {
    var r := ReplicaOf(p, m);
    assert ValueOrEmpty(r.annotations, ManagedByAnnotation) == ManagedByValue(m);
  }

  /**
   * With persistence on, a successful consistent pass leaves an audit row for
   * every replica, holding that replica's JSON and owning definition.
   */
  lemma {:induction false} ReplicateRecordsAudit(s: Outcome, pairs: seq<Pair>, m: ConfigMirror, b: Backend, p: Pair)
    requires s.err.None? && b.save
    requires Replicate(s, pairs, m, b).err.None?
    requires Consistent(pairs, m) && p in pairs
    ensures var rows := Replicate(s, pairs, m, b).rows;
            var key := RowKeyOfConfigMap(ReplicaOf(p, m));
            && key in rows
            && b.marshal(ReplicaOf(p, m)) == Success(rows[key].jsonData)
            && rows[key].configMirror == ManagedByValue(m)
  {
    var init := pairs[..|pairs| - 1];
    var last := pairs[|pairs| - 1];
    var before := Replicate(s, init, m, b);
    assert before.err.None?;
    assert Replicate(s, pairs, m, b) == Step(before, last, m, b);
    var k :| 0 <= k < |pairs| && pairs[k] == p;
    if k < |pairs| - 1 && RowKeyOfConfigMap(ReplicaOf(p, m)) != RowKeyOfConfigMap(ReplicaOf(last, m)) {
      assert init[k] == p;
      ConsistentInit(pairs, m);
      ReplicateRecordsAudit(s, init, m, b, p);
      StepKeepsOtherRows(before, last, m, b, RowKeyOfConfigMap(ReplicaOf(p, m)));
    } else {
      assert ReplicaOf(p, m) == ReplicaOf(last, m);
      StepRecordsRow(before, last, m, b);
    }
  }
}
