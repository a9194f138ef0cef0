/**
 * Naming and environment helpers: annotation keys under the operator's API
 * prefix, the server-side-apply field owner, environment lookups and the
 * database URL. The process environment is a map argument.
 */
module Utils {
  import opened Wrappers
  import opened Kube

  const Api := "bennsimon.github.io"
  const MirrorKey := "mirror"
  const SourceNamespace := "sourceNamespace"
  const ControllerName := "configmirror-controller"
  const ManagedBy := "managed-by"
  const CmDatabaseHostKey := "CM_DATABASE_HOST"
  const CmDatabasePasswordKey := "CM_DATABASE_PASSWORD"
  const CmDatabaseUsernameKey := "CM_DATABASE_USERNAME"
  const CmDatabasePortKey := "CM_DATABASE_PORT"
  const CmDatabaseDatabaseNameKey := "CM_DATABASE_NAME"
  const SaveReplicationActionKey := "SAVE_REPLICATION_ACTION"

  /** The annotation kubectl leaves on objects it applied client-side. */
  const LastAppliedAnnotation := "kubectl.kubernetes.io/" + "last-applied-configuration"

  /** `<Api>/<key>`: the key can be read back from the annotation name. */
  function GetAnnotationKey(key: string): (r: string)
    ensures |r| == |Api| + 1 + |key|
    ensures r[..|Api| + 1] == Api + "/"
    ensures r[|Api| + 1..] == key
  {
    Api + "/" + key
  }

  /** The field owner of every apply: the controller's name under the same prefix as the annotations. */
  function GetFieldOwner(): (r: string)
    ensures r == GetAnnotationKey(ControllerName)
    ensures r == "bennsimon.github.io/configmirror-controller"
  {
    Api + "/" + ControllerName
  }

  /** Distinct suffixes give distinct annotation keys. */
  lemma AnnotationKeyInjective(a: string, b: string)
    requires GetAnnotationKey(a) == GetAnnotationKey(b)
    ensures a == b
  {
    calc {
      a;
      GetAnnotationKey(a)[|Api| + 1..];
      GetAnnotationKey(b)[|Api| + 1..];
      b;
    }
  }

  const MirrorAnnotation := GetAnnotationKey(MirrorKey)
  const SourceNamespaceAnnotation := GetAnnotationKey(SourceNamespace)
  const ManagedByAnnotation := GetAnnotationKey(ManagedBy)

  /**
   * The three provenance keys differ from each other and from kubectl's
   * last-applied annotation, so stripping the one never removes the others.
   */
  lemma ProvenanceKeysDistinct()
    ensures MirrorAnnotation != SourceNamespaceAnnotation
    ensures MirrorAnnotation != ManagedByAnnotation
    ensures SourceNamespaceAnnotation != ManagedByAnnotation
    ensures LastAppliedAnnotation !in {MirrorAnnotation, SourceNamespaceAnnotation, ManagedByAnnotation}
  {
    if MirrorAnnotation == SourceNamespaceAnnotation {
      AnnotationKeyInjective(MirrorKey, SourceNamespace);
    }
    if MirrorAnnotation == ManagedByAnnotation {
      AnnotationKeyInjective(MirrorKey, ManagedBy);
    }
    if SourceNamespaceAnnotation == ManagedByAnnotation {
      AnnotationKeyInjective(SourceNamespace, ManagedBy);
    }
    assert GetAnnotationKey(MirrorKey)[0] == 'b';
    assert GetAnnotationKey(SourceNamespace)[0] == 'b';
    assert GetAnnotationKey(ManagedBy)[0] == 'b';
    assert LastAppliedAnnotation[0] == 'k';
  }

  /** A present variable is returned as is, even when empty; an absent one is an error naming it. */
  function GetSystemEnv(env: map<string, string>, key: string): (r: Result<string, Error>)
    ensures r.Success? <==> key in env
    ensures r.Success? ==> r.value == env[key]
    ensures r.Failure? ==> r.error == EnvNotSet(key)
  {
    if key !in env then Failure(EnvNotSet(key)) else Success(env[key])
  }

  /** Persistence is on only when the flag is set to exactly "true". */
  function SaveReplicationAction(env: map<string, string>): (r: bool)
    ensures r <==> SaveReplicationActionKey in env && env[SaveReplicationActionKey] == "true"
  {
    match GetSystemEnv(env, SaveReplicationActionKey)
    case Success(v) => v == "true"
    case Failure(_) => false
  }

  /** The five database variables, in the order they are read. */
  const DatabaseKeys: seq<string> :=
    [CmDatabaseUsernameKey, CmDatabasePasswordKey, CmDatabaseHostKey, CmDatabasePortKey, CmDatabaseDatabaseNameKey]

  /**
   * The connection URL. It fails exactly when one of the five variables is
   * missing, and then reports the first missing one in reading order. Only the
   * password goes through `queryEscape` (url.QueryEscape).
   */
  function GetDatabaseUrl(env: map<string, string>, queryEscape: string -> string): (r: Result<string, Error>)
    ensures r.Failure? <==> exists i :: 0 <= i < |DatabaseKeys| && DatabaseKeys[i] !in env
    ensures r.Failure? ==>
      exists i :: 0 <= i < |DatabaseKeys| && DatabaseKeys[i] !in env && r.error == EnvNotSet(DatabaseKeys[i])
                  && forall j :: 0 <= j < i ==> DatabaseKeys[j] in env
    ensures r.Success? ==>
      && CmDatabaseUsernameKey in env && CmDatabasePasswordKey in env && CmDatabaseHostKey in env
      && CmDatabasePortKey in env && CmDatabaseDatabaseNameKey in env
      && r.value == "postgres://" + env[CmDatabaseUsernameKey] + ":" + queryEscape(env[CmDatabasePasswordKey])
                 + "@" + env[CmDatabaseHostKey] + ":" + env[CmDatabasePortKey] + "/" + env[CmDatabaseDatabaseNameKey]
  {
    assert DatabaseKeys[0] == CmDatabaseUsernameKey && DatabaseKeys[1] == CmDatabasePasswordKey
      && DatabaseKeys[2] == CmDatabaseHostKey && DatabaseKeys[3] == CmDatabasePortKey
      && DatabaseKeys[4] == CmDatabaseDatabaseNameKey;
    var user :- GetSystemEnv(env, CmDatabaseUsernameKey);
    var password :- GetSystemEnv(env, CmDatabasePasswordKey);
    var host :- GetSystemEnv(env, CmDatabaseHostKey);
    var port :- GetSystemEnv(env, CmDatabasePortKey);
    var name :- GetSystemEnv(env, CmDatabaseDatabaseNameKey);
    Success("postgres://" + user + ":" + queryEscape(password) + "@" + host + ":" + port + "/" + name)
  }
}
