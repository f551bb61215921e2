/** Secret and blob-client resolution of `utils/secrets.py`.

    The environment is a map; the Azure Key Vault and GCP Secret Manager
    lookups are oracles that answer None when the SDK call raises. Whether
    each SDK could be imported is a flag. */
module Secrets {
  import opened Wrappers
  import opened Text

  /** The process environment: `os.getenv(k)` is Some exactly when `k` is set. */
  type Env = map<string, string>

  function Getenv(env: Env, key: string): Option<string> {
    if key in env then Some(env[key]) else None
  }

  datatype Backends = Backends(
    haveAzure: bool,
    haveGcp: bool,
    /** `SecretClient(vault_url=url, ...).get_secret(name).value`. */
    azure: (string, string) -> Option<string>,
    /** `SecretManagerServiceClient().access_secret_version(name=path)`, decoded. */
    gcp: string -> Option<string>)

  const KeyVaultVar: string := "AZURE_KEYVAULT_URL"
  const GcpProjectVar: string := "GCP_PROJECT"
  const ConnectionStringVar: string := "AZURE_STORAGE_CONNECTION_STRING"
  const AccountUrlVar: string := "AZURE_BLOB_ACCOUNT_URL"

  /** The Secret Manager resource name of the latest version of `name`. */
  function GcpPath(project: string, name: string): string {
    "projects/" + project + "/secrets/" + name + "/versions/latest"
  }

  function NotFoundMessage(name: string): string {
    "Secret '" + name + "' not found in KeyVault/GSM/env"
  }

  /** `vault_url or os.getenv("AZURE_KEYVAULT_URL")`. */
  function VaultUrl(vaultUrl: Option<string>, env: Env): Option<string> {
    if Truthy(vaultUrl) then vaultUrl else Getenv(env, KeyVaultVar)
  }

  /** `get_secret(name, vault_url)`: the guarded lookups with early return. */
  function GetSecret(name: string, vaultUrl: Option<string>, env: Env, b: Backends): Result<string, string> {
    var kv := VaultUrl(vaultUrl, env);
    if b.haveAzure && Truthy(kv) && b.azure(kv.value, name).Some? then
      Success(b.azure(kv.value, name).value)
    else
      var project := Getenv(env, GcpProjectVar);
      if b.haveGcp && Truthy(project) && b.gcp(GcpPath(project.value, name)).Some? then
        Success(b.gcp(GcpPath(project.value, name)).value)
      else if name in env then
        Success(env[name])
      else
        Failure(NotFoundMessage(name))
  }

  // ---------------------------------------------------------------------
  // The resolution order, stated as a list of sources tried in turn

  /** What Azure Key Vault contributes: None when it is unavailable, has no URL, or fails. */
  function AzureAttempt(name: string, vaultUrl: Option<string>, env: Env, b: Backends): Option<string> {
    var kv := VaultUrl(vaultUrl, env);
    if b.haveAzure && Truthy(kv) then b.azure(kv.value, name) else None
  }

  function GcpAttempt(name: string, env: Env, b: Backends): Option<string> {
    var project := Getenv(env, GcpProjectVar);
    if b.haveGcp && Truthy(project) then b.gcp(GcpPath(project.value, name)) else None
  }

  /** The first source that answers. */
  function FirstSome(attempts: seq<Option<string>>): (r: Option<string>)
    ensures r.None? <==> forall i :: 0 <= i < |attempts| ==> attempts[i].None?
    ensures r.Some? ==> exists i :: 0 <= i < |attempts| && attempts[i] == r && (forall j :: 0 <= j < i ==> attempts[j].None?)
    decreases |attempts|
  {
    if attempts == [] then None
    else if attempts[0].Some? then attempts[0]
    else
      var r := FirstSome(attempts[1..]);
      assert forall i :: 1 <= i < |attempts| ==> attempts[i] == attempts[1..][i - 1];
      assert r.Some? ==> exists i :: 0 <= i < |attempts| && attempts[i] == r && (forall j :: 0 <= j < i ==> attempts[j].None?) by {
        if r.Some? {
          var k :| 0 <= k < |attempts[1..]| && attempts[1..][k] == r && forall j :: 0 <= j < k ==> attempts[1..][j].None?;
          assert attempts[k + 1] == r;
          assert forall j :: 1 <= j < k + 1 ==> attempts[j].None?;
        }
      }
      r
  }

  /** Key Vault, then Secret Manager, then the environment variable, then the error. */
  lemma ResolutionOrder(name: string, vaultUrl: Option<string>, env: Env, b: Backends)
    ensures var first := FirstSome([AzureAttempt(name, vaultUrl, env, b), GcpAttempt(name, env, b), Getenv(env, name)]);
      GetSecret(name, vaultUrl, env, b) == if first.Some? then Success(first.value) else Failure(NotFoundMessage(name))
  {
    var attempts := [AzureAttempt(name, vaultUrl, env, b), GcpAttempt(name, env, b), Getenv(env, name)];
    assert attempts[1..] == [GcpAttempt(name, env, b), Getenv(env, name)];
    assert attempts[1..][1..] == [Getenv(env, name)];
    assert attempts[1..][1..][1..] == [];
    assert FirstSome(attempts[1..][1..]) == Getenv(env, name);
    assert FirstSome(attempts[1..]) == if GcpAttempt(name, env, b).Some? then GcpAttempt(name, env, b) else Getenv(env, name);
    assert FirstSome(attempts) == if attempts[0].Some? then attempts[0] else FirstSome(attempts[1..]);
  }

  /** An explicit, non-empty `vault_url` is the one consulted, whatever the environment says. */
  lemma ExplicitVaultUrlWins(name: string, url: string, env: Env, b: Backends)
    requires b.haveAzure && url != "" && b.azure(url, name).Some?
    ensures GetSecret(name, Some(url), env, b) == Success(b.azure(url, name).value)
  {
  }

  /** Without Azure, or without any vault URL, Key Vault is never consulted:
      the result does not depend on the Azure oracle. */
  lemma AzureOnlyWhenConfigured(name: string, vaultUrl: Option<string>, env: Env, b: Backends, azure': (string, string) -> Option<string>)
    requires !b.haveAzure || !Truthy(VaultUrl(vaultUrl, env))
    ensures GetSecret(name, vaultUrl, env, b) == GetSecret(name, vaultUrl, env, b.(azure := azure'))
  {
  }

  /** A failing Key Vault lookup falls through silently: the result is what
      Secret Manager and the environment give. */
  lemma AzureFailureFallsThrough(name: string, vaultUrl: Option<string>, env: Env, b: Backends)
    requires AzureAttempt(name, vaultUrl, env, b).None?
    ensures GetSecret(name, vaultUrl, env, b) == GetSecret(name, vaultUrl, env, b.(haveAzure := false))
  {
  }

  /** Secret Manager is used only when `GCP_PROJECT` is set and non-empty. */
  lemma GcpOnlyWithProject(name: string, vaultUrl: Option<string>, env: Env, b: Backends, gcp': string -> Option<string>)
    requires !Truthy(Getenv(env, GcpProjectVar))
    ensures GetSecret(name, vaultUrl, env, b) == GetSecret(name, vaultUrl, env, b.(gcp := gcp'))
  {
  }

  /** After a Key Vault miss, Secret Manager is asked for the latest version
      of the secret in the configured project. */
  lemma GcpUsesLatestVersion(name: string, vaultUrl: Option<string>, env: Env, b: Backends, project: string, v: string)
    requires AzureAttempt(name, vaultUrl, env, b).None?
    requires b.haveGcp && GcpProjectVar in env && env[GcpProjectVar] == project && project != ""
    requires b.gcp("projects/" + project + "/secrets/" + name + "/versions/latest") == Some(v)
    ensures GetSecret(name, vaultUrl, env, b) == Success(v)
  {
  }

  /** The environment variable is the last source, and an empty value still counts as found. */
  lemma EnvironmentIsLast(name: string, vaultUrl: Option<string>, env: Env, b: Backends)
    requires AzureAttempt(name, vaultUrl, env, b).None? && GcpAttempt(name, env, b).None?
    ensures name in env ==> GetSecret(name, vaultUrl, env, b) == Success(env[name])
    ensures name !in env ==> GetSecret(name, vaultUrl, env, b) == Failure(NotFoundMessage(name))
  {
  }

  /** The error is raised exactly when no source has the secret. */
  lemma NotFoundIffNoSource(name: string, vaultUrl: Option<string>, env: Env, b: Backends)
    ensures GetSecret(name, vaultUrl, env, b).Failure? <==>
      AzureAttempt(name, vaultUrl, env, b).None? && GcpAttempt(name, env, b).None? && name !in env
  {
  }

  // ---------------------------------------------------------------------
  // get_blob_service_client

  /** The client `get_blob_service_client` builds. */
  datatype BlobClient = FromConnectionString(conn: string) | FromAccountUrl(accountUrl: string)

  const AzureMissingMessage: string := "azure-storage-blob not installed"
  const BlobConfigMissingMessage: string := "Azure Blob configuration missing (AZURE_STORAGE_CONNECTION_STRING or AZURE_BLOB_ACCOUNT_URL)"

  function GetBlobServiceClient(haveAzure: bool, env: Env): Result<BlobClient, string> {
    if !haveAzure then Failure(AzureMissingMessage)
    else
      var conn := Getenv(env, ConnectionStringVar);
      if Truthy(conn) then Success(FromConnectionString(conn.value))
      else
        var url := Getenv(env, AccountUrlVar);
        if Truthy(url) then Success(FromAccountUrl(url.value))
        else Failure(BlobConfigMissingMessage)
  }

  /** The connection string is preferred over the account URL; either is
      used only when non-empty; without Azure or without both, an error is raised. */
  lemma BlobSelectionOrder(haveAzure: bool, env: Env)
    ensures var r := GetBlobServiceClient(haveAzure, env);
      && (!haveAzure ==> r == Failure(AzureMissingMessage))
      && (haveAzure && Truthy(Getenv(env, ConnectionStringVar)) ==> r == Success(FromConnectionString(env[ConnectionStringVar])))
      && (haveAzure && !Truthy(Getenv(env, ConnectionStringVar)) && Truthy(Getenv(env, AccountUrlVar)) ==>
            r == Success(FromAccountUrl(env[AccountUrlVar])))
      && (r.Failure? <==> !haveAzure || (!Truthy(Getenv(env, ConnectionStringVar)) && !Truthy(Getenv(env, AccountUrlVar))))
  {
  }
}
