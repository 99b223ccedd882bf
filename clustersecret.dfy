/**
 * create-cluster-secret: make sure the management cluster holds a credential
 * secret and a Cluster object for one target cluster, creating each when it
 * is missing and replacing it only when asked to. The Kubernetes calls are
 * abstracted: a lookup is given as its outcome, and a write as the error (if
 * any) it would return.
 */
module ClusterSecret {
  import opened Wrappers

  type byte = x: int | 0 <= x < 256

  const SecretChecksumAnnotation: string := "shipper.booking.com/cluster-secret.checksum"
  const SecretClusterSkipTlsVerifyAnnotation: string := "shipper.booking.com/cluster-secret.insecure-tls-skip-verify"

  /** The parts of the client configuration the tool uses. */
  datatype RestConfig = RestConfig(Host: string, CAData: seq<byte>, CertData: seq<byte>, KeyData: seq<byte>, Insecure: bool)

  /** strconv.FormatBool */
  function FormatBool(b: bool): (r: string)
  {
    if b then "true" else "false"
  }

  datatype SecretType = SecretTypeOpaque

  /** A core/v1 Secret; a nil annotation map is None. */
  class Secret {
    const name: string
    var annotations: Option<map<string, string>>
    var secretType: SecretType
    var data: map<string, seq<byte>>

    constructor (name: string, annotations: Option<map<string, string>>, secretType: SecretType, data: map<string, seq<byte>>)
      ensures this.name == name && this.annotations == annotations
      ensures this.secretType == secretType && this.data == data
    {
      this.name := name;
      this.annotations := annotations;
      this.secretType := secretType;
      this.data := data;
    }
  }

  datatype ClusterSpec = ClusterSpec(APIMaster: string, Capabilities: seq<string>, Region: string, Unschedulable: bool)

  /** A shipper Cluster: its metadata (the name) and its spec. */
  class Cluster {
    const name: string
    var spec: ClusterSpec

    constructor (name: string, spec: ClusterSpec)
      ensures this.name == name && this.spec == spec
    {
      this.name := name;
      this.spec := spec;
    }
  }

  /** What a Get returned. */
  datatype Lookup<T> = NotFound | LookupError(message: string) | Found(existing: T)

  /** The write the tool issues. */
  datatype Write<T> = Create(obj: T) | Update(obj: T)

  /** How a step ends: it goes on, or glog.Fatal stops the process. */
  datatype Outcome = Done | Fatal(message: string)

  /** The secret payload: exactly the three TLS keys, from the configuration. */
  ghost predicate HoldsCredentials(data: map<string, seq<byte>>, cfg: RestConfig)
  {
    && data.Keys == {"tls.ca", "tls.crt", "tls.key"}
    && data["tls.ca"] == cfg.CAData
    && data["tls.crt"] == cfg.CertData
    && data["tls.key"] == cfg.KeyData
  }

  /** secretData, built key by key. */
  method BuildSecretData(cfg: RestConfig) returns (secretData: map<string, seq<byte>>)
    ensures HoldsCredentials(secretData, cfg)
  {
    secretData := map[];
    secretData := secretData["tls.ca" := cfg.CAData];
    secretData := secretData["tls.crt" := cfg.CertData];
    secretData := secretData["tls.key" := cfg.KeyData];
  }

  /** The annotations of a newly created secret: the literal map, then the
      assignment guarded by Insecure. The skip-TLS annotation is there in
      both cases; the guarded assignment writes the value it already has. */
  method NewSecretAnnotations(insecure: bool) returns (annotations: map<string, string>)
    ensures annotations == map[SecretChecksumAnnotation := "some-checksum",
                               SecretClusterSkipTlsVerifyAnnotation := FormatBool(insecure)]
    ensures SecretClusterSkipTlsVerifyAnnotation in annotations
  {
    annotations := map[SecretChecksumAnnotation := "some-checksum",
                       SecretClusterSkipTlsVerifyAnnotation := FormatBool(insecure)];
    if insecure {
      annotations := annotations[SecretClusterSkipTlsVerifyAnnotation := FormatBool(insecure)];
    }
  }

  /** The annotations of a replaced secret: a nil map becomes empty, then the
      skip-TLS annotation is dropped for a secure connection and set to
      "true" for an insecure one; every other annotation stays. */
  function ReplacedAnnotations(existing: Option<map<string, string>>, insecure: bool): (r: map<string, string>)
    ensures SecretClusterSkipTlsVerifyAnnotation in r <==> insecure
    ensures insecure ==> r[SecretClusterSkipTlsVerifyAnnotation] == "true"
    ensures forall k :: k != SecretClusterSkipTlsVerifyAnnotation ==>
              (k in r <==> k in existing.GetOr(map[])) &&
              (k in r ==> r[k] == existing.GetOr(map[])[k])
  {
    var annotations := if existing.None? then map[] else existing.value;
    if !insecure then annotations - {SecretClusterSkipTlsVerifyAnnotation}
    else annotations[SecretClusterSkipTlsVerifyAnnotation := FormatBool(insecure)]
  }

  /** Replacing twice with the same configuration is replacing once. */
  lemma ReplaceIdempotent(existing: Option<map<string, string>>, insecure: bool)
    ensures ReplacedAnnotations(Some(ReplacedAnnotations(existing, insecure)), insecure)
            == ReplacedAnnotations(existing, insecure)
  {
    var once := ReplacedAnnotations(existing, insecure);
    var twice := ReplacedAnnotations(Some(once), insecure);
    assert twice.Keys == once.Keys;
  }

  /** The secret step of cmd/create-cluster-secret/main.go, lines 54-109. */
  method ProvisionSecret(clusterName: string, cfg: RestConfig, lookup: Lookup<Secret>,
                         replaceSecret: bool, writeError: Option<string>)
    returns (write: Option<Write<Secret>>, outcome: Outcome)
    modifies if lookup.Found? then {lookup.existing} else {}
    ensures lookup.NotFound? ==>
              && write.Some? && write.value.Create?
              && fresh(write.value.obj)
              && write.value.obj.name == clusterName
              && write.value.obj.annotations ==
                   Some(map[SecretChecksumAnnotation := "some-checksum",
                            SecretClusterSkipTlsVerifyAnnotation := FormatBool(cfg.Insecure)])
              && write.value.obj.secretType == SecretTypeOpaque
              && HoldsCredentials(write.value.obj.data, cfg)
    ensures lookup.LookupError? ==> write.None? && outcome == Fatal(lookup.message)
    ensures lookup.Found? && replaceSecret ==>
              && write == Some(Update(lookup.existing))
              && HoldsCredentials(lookup.existing.data, cfg)
              && lookup.existing.annotations == Some(ReplacedAnnotations(old(lookup.existing.annotations), cfg.Insecure))
              && lookup.existing.secretType == old(lookup.existing.secretType)
    ensures lookup.Found? && !replaceSecret ==> write.None? && outcome == Done && unchanged(lookup.existing)
    ensures write.Some? ==> outcome == (if writeError.Some? then Fatal(writeError.value) else Done)
  {
    var secretData := BuildSecretData(cfg);
    match lookup
    case NotFound =>
      var annotations := NewSecretAnnotations(cfg.Insecure);
      var clusterSecret := new Secret(clusterName, Some(annotations), SecretTypeOpaque, secretData);
      write := Some(Create(clusterSecret));
      outcome := if writeError.Some? then Fatal(writeError.value) else Done;
    case LookupError(message) =>
      write, outcome := None, Fatal(message);
    case Found(existingSecret) =>
      if replaceSecret {
        existingSecret.data := secretData;
        if existingSecret.annotations.None? {
          existingSecret.annotations := Some(map[]);
        }
        if !cfg.Insecure {
          existingSecret.annotations := Some(existingSecret.annotations.value - {SecretClusterSkipTlsVerifyAnnotation});
        } else {
          existingSecret.annotations :=
            Some(existingSecret.annotations.value[SecretClusterSkipTlsVerifyAnnotation := FormatBool(cfg.Insecure)]);
        }
        write := Some(Update(existingSecret));
        outcome := if writeError.Some? then Fatal(writeError.value) else Done;
      } else {
        write, outcome := None, Done;
      }
  }

  /** The spec the tool gives a created or replaced Cluster. */
  function DesiredSpec(cfg: RestConfig): (r: ClusterSpec)
  {
    ClusterSpec(cfg.Host, [], "eu-west", false)
  }

  /** The cluster step of cmd/create-cluster-secret/main.go, lines 111-150. */
  method ProvisionCluster(clusterName: string, cfg: RestConfig, lookup: Lookup<Cluster>,
                          replaceCluster: bool, writeError: Option<string>)
    returns (write: Option<Write<Cluster>>, outcome: Outcome)
    modifies if lookup.Found? then {lookup.existing} else {}
    ensures lookup.NotFound? ==>
              && write.Some? && write.value.Create?
              && fresh(write.value.obj)
              && write.value.obj.name == clusterName
              && write.value.obj.spec == DesiredSpec(cfg)
    ensures lookup.LookupError? ==> write.None? && outcome == Fatal(lookup.message)
    ensures lookup.Found? && replaceCluster ==>
              write == Some(Update(lookup.existing)) && lookup.existing.spec == DesiredSpec(cfg)
    ensures lookup.Found? && !replaceCluster ==> write.None? && outcome == Done && unchanged(lookup.existing)
    ensures write.Some? ==> outcome == (if writeError.Some? then Fatal(writeError.value) else Done)
  {
    match lookup
    case NotFound =>
      var cluster := new Cluster(clusterName, ClusterSpec(cfg.Host, [], "eu-west", false));
      write := Some(Create(cluster));
      outcome := if writeError.Some? then Fatal(writeError.value) else Done;
    case LookupError(message) =>
      write, outcome := None, Fatal(message);
    case Found(existingCluster) =>
      if replaceCluster {
        existingCluster.spec := ClusterSpec(cfg.Host, [], "eu-west", false);
        write := Some(Update(existingCluster));
        outcome := if writeError.Some? then Fatal(writeError.value) else Done;
      } else {
        write, outcome := None, Done;
      }
  }

  /** The whole tool: the secret step, then, unless it was fatal, the cluster
      step. */
  method Provision(clusterName: string, cfg: RestConfig,
                   secretLookup: Lookup<Secret>, replaceSecret: bool, secretWriteError: Option<string>,
                   clusterLookup: Lookup<Cluster>, replaceCluster: bool, clusterWriteError: Option<string>)
    returns (secretWrite: Option<Write<Secret>>, clusterWrite: Option<Write<Cluster>>, outcome: Outcome)
    modifies if secretLookup.Found? then {secretLookup.existing} else {}
    modifies if clusterLookup.Found? then {clusterLookup.existing} else {}
    // The secret step, as ProvisionSecret states it.
    ensures secretLookup.NotFound? ==>
              && secretWrite.Some? && secretWrite.value.Create?
              && fresh(secretWrite.value.obj)
              && secretWrite.value.obj.name == clusterName
              && secretWrite.value.obj.annotations ==
                   Some(map[SecretChecksumAnnotation := "some-checksum",
                            SecretClusterSkipTlsVerifyAnnotation := FormatBool(cfg.Insecure)])
              && secretWrite.value.obj.secretType == SecretTypeOpaque
              && HoldsCredentials(secretWrite.value.obj.data, cfg)
    ensures secretLookup.Found? && replaceSecret ==>
              && secretWrite == Some(Update(secretLookup.existing))
              && HoldsCredentials(secretLookup.existing.data, cfg)
              && secretLookup.existing.annotations ==
                   Some(ReplacedAnnotations(old(secretLookup.existing.annotations), cfg.Insecure))
              && secretLookup.existing.secretType == old(secretLookup.existing.secretType)
    ensures secretLookup.Found? && !replaceSecret ==> secretWrite.None? && unchanged(secretLookup.existing)
    // A failed secret lookup, or a failed secret create or update, ends the
    // tool before the cluster is looked at.
    ensures secretLookup.LookupError? ==> secretWrite.None? && outcome == Fatal(secretLookup.message)
    ensures secretWrite.Some? && secretWriteError.Some? ==> outcome == Fatal(secretWriteError.value)
    ensures (secretLookup.LookupError? || (secretWrite.Some? && secretWriteError.Some?)) ==>
              && clusterWrite.None?
              && (clusterLookup.Found? ==> unchanged(clusterLookup.existing))
    // Otherwise the cluster step runs and its outcome is the tool's.
    ensures !(secretLookup.LookupError? || (secretWrite.Some? && secretWriteError.Some?)) ==>
              && (clusterLookup.NotFound? ==>
                    && clusterWrite.Some? && clusterWrite.value.Create?
                    && fresh(clusterWrite.value.obj)
                    && clusterWrite.value.obj.name == clusterName
                    && clusterWrite.value.obj.spec == DesiredSpec(cfg))
              && (clusterLookup.LookupError? ==> clusterWrite.None? && outcome == Fatal(clusterLookup.message))
              && (clusterLookup.Found? && replaceCluster ==>
                    clusterWrite == Some(Update(clusterLookup.existing)) && clusterLookup.existing.spec == DesiredSpec(cfg))
              && (clusterLookup.Found? && !replaceCluster ==>
                    clusterWrite.None? && outcome == Done && unchanged(clusterLookup.existing))
              && (clusterWrite.Some? ==>
                    outcome == (if clusterWriteError.Some? then Fatal(clusterWriteError.value) else Done))
  {
    var secretOutcome;
    secretWrite, secretOutcome := ProvisionSecret(clusterName, cfg, secretLookup, replaceSecret, secretWriteError);
    if secretOutcome.Fatal? {
      return secretWrite, None, secretOutcome;
    }
    clusterWrite, outcome := ProvisionCluster(clusterName, cfg, clusterLookup, replaceCluster, clusterWriteError);
  }
}
