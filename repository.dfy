/**
 * The audit table `configmirror.configmaps`, unique on (name,
 * destination_namespace), and `AddOrUpdate`, the upsert that records one
 * applied replica. JSON encoding and SQL execution are oracles.
 */
module Repository {
  import opened Wrappers
  import opened Kube
  import opened Utils

  datatype RowKey = RowKey(name: string, destinationNamespace: string)

  /**
   * One audit row. `updatedAt` is None while the column still holds the value
   * the INSERT left to the table default; the conflict branch sets it to the
   * database clock.
   */
  datatype Row = Row(
    name: string,
    sourceNamespace: string,
    destinationNamespace: string,
    configMirror: string,
    jsonData: string,
    updatedAt: Option<int>)

  function RowKeyOf(row: Row): RowKey {
    RowKey(row.name, row.destinationNamespace)
  }

  /** The row key of a replica: its own name and namespace. */
  function RowKeyOfConfigMap(cm: ConfigMap): RowKey {
    RowKey(cm.name, cm.namespace)
  }

  /** The VALUES of the INSERT for replica `cm` with JSON snapshot `json`. */
  function RowFor(cm: ConfigMap, json: string): (row: Row)
    ensures RowKeyOf(row) == RowKeyOfConfigMap(cm)
    ensures row.sourceNamespace == ValueOrEmpty(cm.annotations, SourceNamespaceAnnotation)
    ensures row.configMirror == ValueOrEmpty(cm.annotations, ManagedByAnnotation)
    ensures row.jsonData == json && row.updatedAt.None?
  {
    Row(cm.name, ValueOrEmpty(cm.annotations, SourceNamespaceAnnotation), cm.namespace,
        ValueOrEmpty(cm.annotations, ManagedByAnnotation), json, None)
  }

  /** The table is keyed by each row's own (name, destination_namespace). */
  ghost predicate Keyed(rows: map<RowKey, Row>) {
    forall k :: k in rows ==> RowKeyOf(rows[k]) == k
  }

  /**
   * INSERT ... ON CONFLICT(name, destination_namespace) DO UPDATE SET
   * json_data, configmirror, updated_at = now().
   */
  function Upsert(rows: map<RowKey, Row>, row: Row, now: int): (r: map<RowKey, Row>)
    ensures r.Keys == rows.Keys + {RowKeyOf(row)}
    ensures forall k :: k in rows && k != RowKeyOf(row) ==> r[k] == rows[k]
    ensures RowKeyOf(row) !in rows ==> r[RowKeyOf(row)] == row
    ensures RowKeyOf(row) in rows ==>
      var old_ := rows[RowKeyOf(row)];
      var new_ := r[RowKeyOf(row)];
      && new_.jsonData == row.jsonData && new_.configMirror == row.configMirror && new_.updatedAt == Some(now)
      && new_.name == old_.name && new_.sourceNamespace == old_.sourceNamespace
      && new_.destinationNamespace == old_.destinationNamespace
    ensures Keyed(rows) ==> Keyed(r)
  {
    var key := RowKeyOf(row);
    if key in rows then
      rows[key := rows[key].(jsonData := row.jsonData, configMirror := row.configMirror, updatedAt := Some(now))]
    else
      rows[key := row]
  }

  /** A row's content apart from its timestamp. */
  function Content(row: Row): Row {
    row.(updatedAt := None)
  }

  /** Upserting the same row again changes nothing but the timestamp. */
  lemma UpsertIdempotent(rows: map<RowKey, Row>, row: Row, t1: int, t2: int)
    ensures var once := Upsert(rows, row, t1);
            var twice := Upsert(once, row, t2);
            && twice.Keys == once.Keys
            && (forall k :: k in once ==> Content(twice[k]) == Content(once[k]))
            && twice[RowKeyOf(row)].updatedAt == Some(t2)
  {
    var once := Upsert(rows, row, t1);
    var twice := Upsert(once, row, t2);
    var key := RowKeyOf(row);
    assert key in once;
    forall k | k in once
      ensures Content(twice[k]) == Content(once[k])
    {
      if k == key {
        if key in rows {
          assert Content(once[k]) == Content(rows[k]).(jsonData := row.jsonData, configMirror := row.configMirror);
        } else {
          assert once[k] == row;
        }
      }
    }
  }

  /**
   * `AddOrUpdate` as a function: a marshal error or an execution error
   * returns that error and leaves the table as it was; otherwise the row is
   * upserted.
   */
  function SaveOutcome(rows: map<RowKey, Row>, cm: ConfigMap, marshalled: Result<string, string>,
                       execFault: Option<string>, now: int): (r: (Option<Error>, map<RowKey, Row>))
    ensures r.0.None? <==> marshalled.Success? && execFault.None?
    ensures marshalled.Failure? ==> r.0 == Some(MarshalFault(marshalled.error))
    ensures marshalled.Success? && execFault.Some? ==> r.0 == Some(DatabaseFault(execFault.value))
    ensures r.0.Some? ==> r.1 == rows
    ensures r.0.None? ==> r.1 == Upsert(rows, RowFor(cm, marshalled.value), now)
  {
    match marshalled
    case Failure(e) => (Some(MarshalFault(e)), rows)
    case Success(json) =>
      match execFault
      case Some(e) => (Some(DatabaseFault(e)), rows)
      case None => (None, Upsert(rows, RowFor(cm, json), now))
  }

  /** The repository over the audit table; `marshal` and `execFault` stand for json.Marshal and the database. */
  class ConfigMapRepository {
    var rows: map<RowKey, Row>
    const marshal: ConfigMap -> Result<string, string>
    const execFault: ConfigMap -> Option<string>

    constructor (rows: map<RowKey, Row>, marshal: ConfigMap -> Result<string, string>, execFault: ConfigMap -> Option<string>)
      ensures this.rows == rows && this.marshal == marshal && this.execFault == execFault
    {
      this.rows := rows;
      this.marshal := marshal;
      this.execFault := execFault;
    }

    method AddOrUpdate(cm: ConfigMap, now: int) returns (err: Option<Error>)
      modifies this
      ensures (err, rows) == SaveOutcome(old(rows), cm, marshal(cm), execFault(cm), now)
    {
      var data := marshal(cm);
      if data.Failure? {
        return Some(MarshalFault(data.error));
      }
      var fault := execFault(cm);
      if fault.Some? {
        return Some(DatabaseFault(fault.value));
      }
      rows := Upsert(rows, RowFor(cm, data.value), now);
      err := None;
    }
  }
}
